/**
 * The two item endpoints: `POST /api/items` validates the body as a clothing
 * item and inserts it; `GET /api/items` builds the filter from the query
 * parameters, asks the store for at most `limit` matching documents and
 * returns their outbound forms. When no store is configured, both answer
 * 500 "Database not configured" without touching the store; a body that
 * fails validation is answered 422 before that check.
 *
 * The store is the database module's `create_document` / `get_documents`,
 * which this model does not see. `Store` stands in for it: it records every
 * request it is sent, keeps the inserted records, gives each the next
 * identifier of a counter, and answers a find with stored records the filter
 * matches, at most `limit` of them when `limit` is positive.
 */
module Handlers {
  import opened Wrappers
  import opened Values
  import opened Schemas
  import opened Query
  import opened Normalizer

  const COLLECTION: string := "clothingitem"

  /** An error answer: a server error with status and detail, or the framework's 422 with the field errors. */
  datatype ApiError =
    | ServerError(status: int, detail: string)
    | Unprocessable(errors: seq<FieldError>)

  const NOT_CONFIGURED: ApiError := ServerError(500, "Database not configured")

  /** One request sent to the store, with what the store answered. */
  datatype Call =
    | InsertCall(collection: string, record: Document, id: string)
    | FindCall(collection: string, filter: Filter, limit: int, found: seq<Document>)

  /** Byte `i` (0 the least significant) of `n` in base 256. */
  function ByteOf(n: nat, i: nat): byte {
    if i == 0 then (n % 256) as byte else ByteOf(n / 256, i - 1)
  }

  /** The identifier the stand-in store gives its `n`-th insert: `n` as a 12-byte big-endian number. */
  function IssuedId(n: nat): ObjectId {
    ObjectId(seq(12, i requires 0 <= i < 12 => ByteOf(n, 11 - i)))
  }

  /** Every answered record is stored and matches the filter, and there are at most `limit` of them when `limit` is positive. */
  predicate Answers(records: seq<Document>, f: Filter, limit: int, found: seq<Document>) {
    (forall i :: 0 <= i < |found| ==> found[i] in records && Matches(f, found[i])) &&
    (limit > 0 ==> |found| <= limit)
  }

  class Store {
    /** Every request sent to the store, oldest first. */
    var calls: seq<Call>
    /** The inserted records, each with its `_id`. */
    var records: seq<Document>

    constructor()
      ensures calls == [] && records == []
    {
      calls := [];
      records := [];
    }

    /** `create_document(collection, record)`: stores the record under a new `_id` and returns that id as text. */
    method CreateDocument(collection: string, record: Document) returns (id: string)
      modifies this
      ensures id == ObjectIdText(IssuedId(|old(records)|))
      ensures records == old(records) + [record[ID_KEY := Oid(IssuedId(|old(records)|))]]
      ensures calls == old(calls) + [InsertCall(collection, record, id)]
    {
      var oid := IssuedId(|records|);
      id := ObjectIdText(oid);
      records := records + [record[ID_KEY := Oid(oid)]];
      calls := calls + [InsertCall(collection, record, id)];
    }

    /** `get_documents(collection, filter, limit)`: the stored records the filter matches. */
    method GetDocuments(collection: string, f: Filter, limit: int) returns (found: seq<Document>)
      modifies this
      ensures records == old(records)
      ensures Answers(records, f, limit, found)
      ensures calls == old(calls) + [FindCall(collection, f, limit, found)]
    {
      found := [];
      var i := 0;
      while i < |records| && (limit <= 0 || |found| < limit)
        invariant 0 <= i <= |records|
        invariant Answers(records, f, limit, found)
      {
        if Matches(f, records[i]) {
          found := found + [records[i]];
        }
        i := i + 1;
      }
      calls := calls + [FindCall(collection, f, limit, found)];
    }
  }

  /**
   * `POST /api/items`: the body is validated first (422 with every field
   * error); then a missing store is a 500; otherwise the validated item is
   * inserted and its identifier returned under `id`.
   */
  method CreateItem(db: Store?, body: Document) returns (r: Result<Document, ApiError>)
    modifies db
    ensures Validate(CLOTHING_ITEM_FIELDS, body).Failure? ==>
      r == Failure(Unprocessable(Validate(CLOTHING_ITEM_FIELDS, body).error))
    ensures Validate(CLOTHING_ITEM_FIELDS, body).Success? && db == null ==> r == Failure(NOT_CONFIGURED)
    ensures db != null && r.Failure? ==> unchanged(db)
    ensures db != null && Validate(CLOTHING_ITEM_FIELDS, body).Success? ==>
      var item := Validate(CLOTHING_ITEM_FIELDS, body).value;
      var id := ObjectIdText(IssuedId(|old(db.records)|));
      && db.calls == old(db.calls) + [InsertCall(COLLECTION, item, id)]
      && db.records == old(db.records) + [item[ID_KEY := Oid(IssuedId(|old(db.records)|))]]
      && r == Success(map[PUBLIC_ID_KEY := Str(id)])
  {
    var checked := Validate(CLOTHING_ITEM_FIELDS, body);
    if checked.Failure? {
      return Failure(Unprocessable(checked.error));
    }
    if db == null {
      return Failure(NOT_CONFIGURED);
    }
    var id := db.CreateDocument(COLLECTION, checked.value);
    r := Success(map[PUBLIC_ID_KEY := Str(id)]);
  }

  /**
   * `GET /api/items`: a missing store is a 500; otherwise one find request
   * with the filter for the parameters and the limit (100 by default), and
   * the outbound form of every document returned, in the store's order.
   */
  method ListItems(db: Store?, q: ListQuery) returns (r: Result<seq<Document>, ApiError>)
    modifies db
    ensures db == null ==> r == Failure(NOT_CONFIGURED)
    ensures db != null ==>
      && db.records == old(db.records)
      && |db.calls| == |old(db.calls)| + 1
      && db.calls[..|old(db.calls)|] == old(db.calls)
      && var c := db.calls[|old(db.calls)|];
      && c.FindCall?
      && c == FindCall(COLLECTION, FilterFor(q), Limit(q), c.found)
      && Answers(db.records, FilterFor(q), Limit(q), c.found)
      && r.Success?
      && |r.value| == |c.found|
      && forall i :: 0 <= i < |c.found| ==> r.value[i] == Outbound(c.found[i])
  {
    if db == null {
      return Failure(NOT_CONFIGURED);
    }
    var f := BuildFilter(q);
    var docs := db.GetDocuments(COLLECTION, f, Limit(q));
    var out := Normalize(docs);
    r := Success(out);
  }

  /**
   * With this stand-in store, every document a listing is built from is a
   * stored record the parameters select, and there are at most `limit` of
   * them when `limit` is positive.
   */
  lemma ListedAreSelected(records: seq<Document>, q: ListQuery, found: seq<Document>)
    requires Answers(records, FilterFor(q), Limit(q), found)
    ensures forall i :: 0 <= i < |found| ==> found[i] in records && Selected(q, found[i])
    ensures Limit(q) > 0 ==> |found| <= Limit(q)
  {
    forall i | 0 <= i < |found|
      ensures Selected(q, found[i])
    {
      FilterSemantics(q, found[i]);
    }
  }
}
