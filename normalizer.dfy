/**
 * The outbound form of a stored document: the store's `_id` is dropped and
 * re-exposed as text under `id`, and the `created_at` / `updated_at`
 * timestamps are rendered as ISO-8601 text. Documents are values here, so the
 * documents the store returned are never changed: each result is a copy.
 */
module Normalizer {
  import opened Values

  const ID_KEY: string := "_id"
  const PUBLIC_ID_KEY: string := "id"
  const TIMESTAMP_KEYS: seq<string> := ["created_at", "updated_at"]

  /** `d.get("_id")`: the stored identifier, `None` when the document has none. */
  function StoredId(d: Document): (v: Value)
    ensures ID_KEY in d ==> v == d[ID_KEY]
    ensures ID_KEY !in d ==> v == Null
  {
    if ID_KEY in d then d[ID_KEY] else Null
  }

  /** A value that has `isoformat` (a datetime) becomes its ISO text; any other value stays as it is. */
  function Rendered(v: Value): (r: Value)
    ensures !r.Time?
    ensures v.Time? ==> r == Str(IsoFormat(v.t, 'T')) && |r.s| >= 19 && r.s[10] == 'T'
    ensures !v.Time? ==> r == v
  {
    if v.Time? then Str(IsoFormat(v.t, 'T')) else v
  }

  /** The identifier as the client sees it: `str()` of the stored `_id`. */
  function PublicId(d: Document): (v: Value)
    ensures v.Str?
    ensures ID_KEY !in d ==> v == Str("None")
    ensures ID_KEY in d && d[ID_KEY].Str? ==> v == d[ID_KEY]
    ensures ID_KEY in d && d[ID_KEY].Oid? ==> |v.s| == 24
  {
    Str(Text(StoredId(d)))
  }

  /** The document after `_id` has been moved to `id`, before any timestamp is rendered. */
  function Moved(d: Document): Document {
    map k | k in (d.Keys - {ID_KEY}) + {PUBLIC_ID_KEY} :: if k == PUBLIC_ID_KEY then PublicId(d) else d[k]
  }

  /** The outbound form of one stored document. */
  function Outbound(d: Document): (r: Document)
    ensures ID_KEY !in r
    ensures PUBLIC_ID_KEY in r && r[PUBLIC_ID_KEY] == Str(Text(StoredId(d)))
    ensures forall k :: k in r <==> k == PUBLIC_ID_KEY || (k in d && k != ID_KEY)
    ensures forall k :: k in d && k != ID_KEY && k != PUBLIC_ID_KEY && k !in TIMESTAMP_KEYS ==> r[k] == d[k]
    ensures forall k :: k in TIMESTAMP_KEYS && k in d ==> r[k] == Rendered(d[k])
  {
    var m := Moved(d);
    map k | k in m :: if k in TIMESTAMP_KEYS then Rendered(m[k]) else m[k]
  }

  /** `r` agrees with `base` except that the timestamp keys in `done` are rendered. */
  ghost predicate RenderedUpTo(base: Document, r: Document, done: seq<string>) {
    r.Keys == base.Keys &&
    forall k :: k in r ==> r[k] == if k in done then Rendered(base[k]) else base[k]
  }

  /** Rendering every timestamp key of the moved document gives the outbound form. */
  lemma AllRendered(d: Document, r: Document)
    requires RenderedUpTo(Moved(d), r, TIMESTAMP_KEYS)
    ensures r == Outbound(d)
  {
  }

  /** Rendering the next timestamp key extends the rendered prefix by that key. */
  lemma RenderNext(base: Document, r: Document, i: nat)
    requires i < |TIMESTAMP_KEYS| && RenderedUpTo(base, r, TIMESTAMP_KEYS[..i])
    ensures var k := TIMESTAMP_KEYS[i];
      RenderedUpTo(base, if k in r && r[k].Time? then r[k := Rendered(r[k])] else r, TIMESTAMP_KEYS[..i + 1])
  {
    assert TIMESTAMP_KEYS[..i + 1] == TIMESTAMP_KEYS[..i] + [TIMESTAMP_KEYS[i]];
  }

  /** Builds the outbound copy of one document step by step: copy, set `id`, render the timestamps. */
  method NormalizeRecord(d: Document) returns (r: Document)
    ensures r == Outbound(d)
  {
    r := map k | k in d && k != ID_KEY :: d[k];
    r := r[PUBLIC_ID_KEY := PublicId(d)];
    ghost var base := r;
    assert base == Moved(d);
    var i := 0;
    while i < |TIMESTAMP_KEYS|
      invariant 0 <= i <= |TIMESTAMP_KEYS|
      invariant RenderedUpTo(base, r, TIMESTAMP_KEYS[..i])
    {
      RenderNext(base, r, i);
      var k := TIMESTAMP_KEYS[i];
      if k in r && r[k].Time? {
        r := r[k := Rendered(r[k])];
      }
      i := i + 1;
    }
    assert TIMESTAMP_KEYS[..i] == TIMESTAMP_KEYS;
    AllRendered(d, r);
  }

  /** Normalises every document the store returned, keeping their number and order. */
  method Normalize(docs: seq<Document>) returns (out: seq<Document>)
    ensures |out| == |docs|
    ensures forall i :: 0 <= i < |docs| ==> out[i] == Outbound(docs[i])
  {
    out := [];
    for j := 0 to |docs|
      invariant |out| == j
      invariant forall i :: 0 <= i < j ==> out[i] == Outbound(docs[i])
    {
      var o := NormalizeRecord(docs[j]);
      out := out + [o];
    }
  }

  /** Documents with distinct ObjectId identifiers get distinct `id` texts. */
  lemma OutboundIdsDistinct(docs: seq<Document>)
    requires forall i :: 0 <= i < |docs| ==> StoredId(docs[i]).Oid?
    requires forall i, j :: 0 <= i < j < |docs| ==> StoredId(docs[i]) != StoredId(docs[j])
    ensures forall i, j :: 0 <= i < j < |docs| ==>
      Outbound(docs[i])[PUBLIC_ID_KEY] != Outbound(docs[j])[PUBLIC_ID_KEY]
  {
    forall i, j | 0 <= i < j < |docs|
      ensures Outbound(docs[i])[PUBLIC_ID_KEY] != Outbound(docs[j])[PUBLIC_ID_KEY]
    {
      var a, b := StoredId(docs[i]).oid, StoredId(docs[j]).oid;
      if ObjectIdText(a) == ObjectIdText(b) {
        ObjectIdTextInjective(a, b);
      }
    }
  }
}
