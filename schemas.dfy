/**
 * The record shapes a candidate document is validated against before it is
 * stored: each model is a table of fields (type, required or defaulted,
 * nullable, numeric bounds, description), and one validator interprets any
 * such table, reporting every field that fails.
 */
module Schemas {
  import opened Wrappers
  import opened Values

  /** The annotated Python type of a field: `str`, `int`, `float`, `bool`. */
  datatype Kind = StrKind | IntKind | FloatKind | BoolKind

  /**
   * One field declaration `name: kind = Field(default, ge=…, le=…, description=…)`.
   * `nullable` is an `Optional[...]` annotation; `required` is `Field(...)`.
   */
  datatype FieldSpec = FieldSpec(
    name: string,
    kind: Kind,
    nullable: bool,
    required: bool,
    default: Value,
    ge: Option<int>,
    le: Option<int>,
    description: string)

  /** `name: kind = Field(..., description=…)` */
  function Required(name: string, kind: Kind, description: string): FieldSpec {
    FieldSpec(name, kind, false, true, Null, None, None, description)
  }

  /** `name: Optional[kind] = Field(None, description=…)` */
  function Optional(name: string, kind: Kind, description: string): FieldSpec {
    FieldSpec(name, kind, true, false, Null, None, None, description)
  }

  /** `name: kind = Field(default, description=…)` */
  function Defaulted(name: string, kind: Kind, default: Value, description: string): FieldSpec {
    FieldSpec(name, kind, false, false, default, None, None, description)
  }

  /** The error kinds reported per field: missing, wrong type, out of bound. */
  datatype ErrorKind = Missing | WrongType(expected: Kind) | BelowMinimum(ge: int) | AboveMaximum(le: int)

  datatype FieldError = FieldError(field: string, kind: ErrorKind)

  // ---------------------------------------------------------------------------
  // One field

  /** The values a field of this kind takes; a `float` field also takes an int. */
  predicate Accepts(kind: Kind, v: Value) {
    match kind
    case StrKind => v.Str?
    case IntKind => v.Int?
    case FloatKind => v.Int? || v.Float?
    case BoolKind => v.Bool?
  }

  predicate IsNumber(v: Value) {
    v.Int? || v.Float?
  }

  function NumberOf(v: Value): real
    requires IsNumber(v)
  {
    if v.Int? then v.i as real else v.r
  }

  /** The value respects the field's `ge` and `le` bounds (only numbers have bounds). */
  predicate WithinBounds(f: FieldSpec, v: Value) {
    IsNumber(v) ==>
      && (f.ge.Some? ==> NumberOf(v) >= f.ge.value as real)
      && (f.le.Some? ==> NumberOf(v) <= f.le.value as real)
  }

  /** A supplied value passes the field: `None` for an `Optional` field, else the right type within bounds. */
  predicate Conforms(f: FieldSpec, v: Value) {
    (v.Null? && f.nullable) || (Accepts(f.kind, v) && WithinBounds(f, v))
  }

  /** Validates one field of a candidate: the value to store under the field's name, or its error. */
  function CheckField(f: FieldSpec, c: Document): (r: Result<Value, FieldError>)
    ensures r.Failure? ==> r.error.field == f.name
    ensures f.name !in c && f.required ==> r == Failure(FieldError(f.name, Missing))
    ensures f.name !in c && !f.required ==> r == Success(f.default)
    ensures f.name in c ==> (r.Success? <==> Conforms(f, c[f.name]))
    ensures f.name in c && r.Success? ==> r.value == c[f.name]
    ensures f.name in c && !c[f.name].Null? && !Accepts(f.kind, c[f.name]) ==> r == Failure(FieldError(f.name, WrongType(f.kind)))
  {
    if f.name !in c then
      if f.required then Failure(FieldError(f.name, Missing)) else Success(f.default)
    else
      var v := c[f.name];
      if v.Null? && f.nullable then Success(v)
      else if !Accepts(f.kind, v) then Failure(FieldError(f.name, WrongType(f.kind)))
      else if IsNumber(v) && f.ge.Some? && NumberOf(v) < f.ge.value as real then
        Failure(FieldError(f.name, BelowMinimum(f.ge.value)))
      else if IsNumber(v) && f.le.Some? && NumberOf(v) > f.le.value as real then
        Failure(FieldError(f.name, AboveMaximum(f.le.value)))
      else Success(v)
  }

  // ---------------------------------------------------------------------------
  // A whole table

  function Names(fields: seq<FieldSpec>): set<string> {
    set i | 0 <= i < |fields| :: fields[i].name
  }

  predicate DistinctNames(fields: seq<FieldSpec>) {
    forall i, j :: 0 <= i < j < |fields| ==> fields[i].name != fields[j].name
  }

  /**
   * Validates a candidate against a field table. On success the record holds
   * exactly the declared fields (undeclared keys of the candidate are ignored),
   * each with its checked or default value; on failure the errors are those of
   * every failing field (see the lemmas below).
   */
  function Validate(fields: seq<FieldSpec>, c: Document): (r: Result<Document, seq<FieldError>>)
    ensures r.Failure? ==> r.error != []
  {
    if fields == [] then Success(map[])
    else
      match (CheckField(fields[0], c), Validate(fields[1..], c))
      case (Success(v), Success(m)) => Success(m[fields[0].name := v])
      case (Success(_), Failure(es)) => Failure(es)
      case (Failure(e), Success(_)) => Failure([e])
      case (Failure(e), Failure(es)) => Failure([e] + es)
  }

  /** A candidate is accepted exactly when every field passes. */
  lemma {:induction false} ValidateSucceeds(fields: seq<FieldSpec>, c: Document)
    ensures Validate(fields, c).Success? <==> forall i :: 0 <= i < |fields| ==> CheckField(fields[i], c).Success?
  {
    if fields != [] {
      ValidateSucceeds(fields[1..], c);
      assert forall i :: 1 <= i < |fields| ==> fields[i] == fields[1..][i - 1];
    }
  }

  /** An accepted record holds exactly the declared fields. */
  lemma {:induction false} ValidateKeys(fields: seq<FieldSpec>, c: Document)
    requires Validate(fields, c).Success?
    ensures Validate(fields, c).value.Keys == Names(fields)
  {
    if fields != [] {
      ValidateKeys(fields[1..], c);
      assert Names(fields) == {fields[0].name} + Names(fields[1..]) by {
        assert forall i :: 1 <= i < |fields| ==> fields[i] == fields[1..][i - 1];
        forall k | k in Names(fields[1..]) ensures k in Names(fields) {
          var j :| 0 <= j < |fields[1..]| && fields[1..][j].name == k;
          assert fields[j + 1].name == k;
        }
      }
    }
  }

  /** The value an accepted record holds for the first row declaring a name is that row's checked value. */
  lemma {:induction false} ValidatedField(fields: seq<FieldSpec>, c: Document, i: nat)
    requires i < |fields|
    requires forall j :: 0 <= j < i ==> fields[j].name != fields[i].name
    requires Validate(fields, c).Success?
    ensures CheckField(fields[i], c).Success?
    ensures fields[i].name in Validate(fields, c).value
    ensures Validate(fields, c).value[fields[i].name] == CheckField(fields[i], c).value
  {
    if i > 0 {
      assert fields[1..][i - 1] == fields[i];
      assert forall j :: 0 <= j < i - 1 ==> fields[1..][j] == fields[j + 1];
      ValidatedField(fields[1..], c, i - 1);
    }
  }

  /** A refused candidate's errors are exactly those of its failing fields. */
  lemma {:induction false} ValidateErrors(fields: seq<FieldSpec>, c: Document)
    requires Validate(fields, c).Failure?
    ensures forall e :: e in Validate(fields, c).error <==>
      exists i :: 0 <= i < |fields| && CheckField(fields[i], c) == Failure(e)
  {
    assert fields != [];
    var rest := Validate(fields[1..], c);
    assert forall i :: 1 <= i < |fields| ==> fields[i] == fields[1..][i - 1];
    if rest.Failure? {
      ValidateErrors(fields[1..], c);
      forall e | exists i :: 0 <= i < |fields| && CheckField(fields[i], c) == Failure(e)
        ensures e in Validate(fields, c).error
      {
        var i :| 0 <= i < |fields| && CheckField(fields[i], c) == Failure(e);
        if i > 0 {
          assert CheckField(fields[1..][i - 1], c) == Failure(e);
        }
      }
    } else {
      ValidateSucceeds(fields[1..], c);
      assert forall j :: 1 <= j < |fields| ==> CheckField(fields[j], c).Success?;
    }
  }

  // ---------------------------------------------------------------------------
  // The models

  /** `ClothingItem`: the one collection the service stores. */
  const CLOTHING_ITEM_FIELDS: seq<FieldSpec> := [
    Required("name", StrKind, "Item name, e.g., \"Denim Jacket\""),
    Required("category", StrKind, "Category, e.g., Tops, Bottoms, Outerwear"),
    Required("size", StrKind, "Size label, e.g., S, M, L, 32, One-Size"),
    Required("color", StrKind, "Primary color"),
    Defaulted("quantity", IntKind, Int(0), "Units in stock").(ge := Some(0)),
    Optional("sku", StrKind, "Stock keeping unit"),
    Optional("brand", StrKind, "Brand name"),
    Optional("price", FloatKind, "Unit price").(ge := Some(0)),
    Optional("location", StrKind, "Storage location or rack"),
    Optional("notes", StrKind, "Any extra notes")
  ]

  /** `User`, an example schema. */
  const USER_FIELDS: seq<FieldSpec> := [
    Required("name", StrKind, "Full name"),
    Required("email", StrKind, "Email address"),
    Required("address", StrKind, "Address"),
    Optional("age", IntKind, "Age in years").(ge := Some(0), le := Some(120)),
    Defaulted("is_active", BoolKind, Bool(true), "Whether user is active")
  ]

  /** `Product`, an example schema. */
  const PRODUCT_FIELDS: seq<FieldSpec> := [
    Required("title", StrKind, "Product title"),
    Optional("description", StrKind, "Product description"),
    Required("price", FloatKind, "Price in dollars").(ge := Some(0)),
    Required("category", StrKind, "Product category"),
    Defaulted("in_stock", BoolKind, Bool(true), "Whether product is in stock")
  ]

  // ---------------------------------------------------------------------------
  // What each model accepts, written out field by field

  predicate HasText(c: Document, k: string) {
    k in c && c[k].Str?
  }

  predicate MaybeText(c: Document, k: string) {
    k !in c || c[k].Null? || c[k].Str?
  }

  /** The value stored for `k`: the candidate's own, or the default when absent. */
  function SuppliedOr(c: Document, k: string, default: Value): Value {
    if k in c then c[k] else default
  }

  predicate IsClothingItem(c: Document) {
    && HasText(c, "name") && HasText(c, "category") && HasText(c, "size") && HasText(c, "color")
    && ("quantity" in c ==> c["quantity"].Int? && c["quantity"].i >= 0)
    && MaybeText(c, "sku") && MaybeText(c, "brand")
    && ("price" in c ==> c["price"].Null? || (IsNumber(c["price"]) && NumberOf(c["price"]) >= 0.0))
    && MaybeText(c, "location") && MaybeText(c, "notes")
  }

  predicate IsUser(c: Document) {
    && HasText(c, "name") && HasText(c, "email") && HasText(c, "address")
    && ("age" in c ==> c["age"].Null? || (c["age"].Int? && 0 <= c["age"].i <= 120))
    && ("is_active" in c ==> c["is_active"].Bool?)
  }

  predicate IsProduct(c: Document) {
    && HasText(c, "title")
    && MaybeText(c, "description")
    && "price" in c && IsNumber(c["price"]) && NumberOf(c["price"]) >= 0.0
    && HasText(c, "category")
    && ("in_stock" in c ==> c["in_stock"].Bool?)
  }

  // ---------------------------------------------------------------------------
  // ClothingItem

  lemma ClothingItemDistinct()
    ensures DistinctNames(CLOTHING_ITEM_FIELDS)
  {
  }

  /** The ten rows of the table pass exactly when the candidate is a clothing item. */
  lemma ClothingItemRows(c: Document)
    ensures (forall i :: 0 <= i < |CLOTHING_ITEM_FIELDS| ==> CheckField(CLOTHING_ITEM_FIELDS[i], c).Success?)
        <==> IsClothingItem(c)
  {
    var t := CLOTHING_ITEM_FIELDS;
    var p0, p1, p2, p3, p4 := CheckField(t[0], c).Success?, CheckField(t[1], c).Success?,
      CheckField(t[2], c).Success?, CheckField(t[3], c).Success?, CheckField(t[4], c).Success?;
    var p5, p6, p7, p8, p9 := CheckField(t[5], c).Success?, CheckField(t[6], c).Success?,
      CheckField(t[7], c).Success?, CheckField(t[8], c).Success?, CheckField(t[9], c).Success?;
    assert p0 <==> HasText(c, "name");
    assert p1 <==> HasText(c, "category");
    assert p2 <==> HasText(c, "size");
    assert p3 <==> HasText(c, "color");
    assert p4 <==> ("quantity" in c ==> c["quantity"].Int? && c["quantity"].i >= 0);
    assert p5 <==> MaybeText(c, "sku");
    assert p6 <==> MaybeText(c, "brand");
    assert p7 <==> ("price" in c ==> c["price"].Null? || (IsNumber(c["price"]) && NumberOf(c["price"]) >= 0.0));
    assert p8 <==> MaybeText(c, "location");
    assert p9 <==> MaybeText(c, "notes");
    if p0 && p1 && p2 && p3 && p4 && p5 && p6 && p7 && p8 && p9 {
      forall i | 0 <= i < |t| ensures CheckField(t[i], c).Success? {
        if i == 0 {} else if i == 1 {} else if i == 2 {} else if i == 3 {} else if i == 4 {}
        else if i == 5 {} else if i == 6 {} else if i == 7 {} else if i == 8 {} else {}
      }
    }
  }

  lemma ClothingItemValidation(c: Document)
    ensures Validate(CLOTHING_ITEM_FIELDS, c).Success? <==> IsClothingItem(c)
  {
    ValidateSucceeds(CLOTHING_ITEM_FIELDS, c);
    ClothingItemRows(c);
  }

  lemma ClothingItemNames()
    ensures Names(CLOTHING_ITEM_FIELDS)
         == {"name", "category", "size", "color", "quantity", "sku", "brand", "price", "location", "notes"}
  {
    var t := CLOTHING_ITEM_FIELDS;
    var names := {"name", "category", "size", "color", "quantity", "sku", "brand", "price", "location", "notes"};
    forall i | 0 <= i < |t| ensures t[i].name in names {
      if i < 5 {} else {}
    }
    assert t[0].name in Names(t) && t[1].name in Names(t) && t[2].name in Names(t);
    assert t[3].name in Names(t) && t[4].name in Names(t) && t[5].name in Names(t);
    assert t[6].name in Names(t) && t[7].name in Names(t) && t[8].name in Names(t) && t[9].name in Names(t);
  }

  lemma ClothingItemKeys(c: Document, item: Document)
    requires Validate(CLOTHING_ITEM_FIELDS, c) == Success(item)
    ensures item.Keys == {"name", "category", "size", "color", "quantity", "sku", "brand", "price", "location", "notes"}
  {
    ValidateKeys(CLOTHING_ITEM_FIELDS, c);
    ClothingItemNames();
  }

  /** The four required fields keep the candidate's text. */
  lemma ClothingItemRequiredText(c: Document, item: Document)
    requires Validate(CLOTHING_ITEM_FIELDS, c) == Success(item)
    ensures HasText(c, "name") && "name" in item && item["name"] == c["name"]
    ensures HasText(c, "category") && "category" in item && item["category"] == c["category"]
    ensures HasText(c, "size") && "size" in item && item["size"] == c["size"]
    ensures HasText(c, "color") && "color" in item && item["color"] == c["color"]
  {
    var t := CLOTHING_ITEM_FIELDS;
    ClothingItemDistinct();
    ValidatedField(t, c, 0);
    ValidatedField(t, c, 1);
    ValidatedField(t, c, 2);
    ValidatedField(t, c, 3);
  }

  /** `quantity` is the candidate's, or 0 when absent, and never negative. */
  lemma ClothingItemQuantity(c: Document, item: Document)
    requires Validate(CLOTHING_ITEM_FIELDS, c) == Success(item)
    ensures "quantity" in item && item["quantity"] == SuppliedOr(c, "quantity", Int(0))
    ensures item["quantity"].Int? && item["quantity"].i >= 0
  {
    var t := CLOTHING_ITEM_FIELDS;
    ClothingItemDistinct();
    ValidatedField(t, c, 4);
  }

  /** `price` is the candidate's, or `None` when absent; a number when present is at least 0. */
  lemma ClothingItemPrice(c: Document, item: Document)
    requires Validate(CLOTHING_ITEM_FIELDS, c) == Success(item)
    ensures "price" in item && item["price"] == SuppliedOr(c, "price", Null)
    ensures item["price"].Null? || (IsNumber(item["price"]) && NumberOf(item["price"]) >= 0.0)
  {
    var t := CLOTHING_ITEM_FIELDS;
    ClothingItemDistinct();
    ValidatedField(t, c, 7);
  }

  /** `sku`, `brand`, `location` and `notes` are the candidate's text, or `None` when absent. */
  lemma ClothingItemOptionalText(c: Document, item: Document)
    requires Validate(CLOTHING_ITEM_FIELDS, c) == Success(item)
    ensures "sku" in item && item["sku"] == SuppliedOr(c, "sku", Null) && (item["sku"].Null? || item["sku"].Str?)
    ensures "brand" in item && item["brand"] == SuppliedOr(c, "brand", Null) && (item["brand"].Null? || item["brand"].Str?)
    ensures "location" in item && item["location"] == SuppliedOr(c, "location", Null)
    ensures item["location"].Null? || item["location"].Str?
    ensures "notes" in item && item["notes"] == SuppliedOr(c, "notes", Null) && (item["notes"].Null? || item["notes"].Str?)
  {
    var t := CLOTHING_ITEM_FIELDS;
    ClothingItemDistinct();
    ValidatedField(t, c, 5);
    ValidatedField(t, c, 6);
    ValidatedField(t, c, 8);
    ValidatedField(t, c, 9);
  }

  /** A candidate without one of the four required fields is refused, naming that field. */
  lemma ClothingItemMissingField(c: Document, f: string)
    requires f == "name" || f == "category" || f == "size" || f == "color"
    requires f !in c
    ensures Validate(CLOTHING_ITEM_FIELDS, c).Failure?
    ensures FieldError(f, Missing) in Validate(CLOTHING_ITEM_FIELDS, c).error
  {
    var t := CLOTHING_ITEM_FIELDS;
    var i := if f == "name" then 0 else if f == "category" then 1 else if f == "size" then 2 else 3;
    assert t[i].name == f && t[i].required;
    assert CheckField(t[i], c) == Failure(FieldError(f, Missing));
    ValidateSucceeds(t, c);
    ValidateErrors(t, c);
  }

  // ---------------------------------------------------------------------------
  // User

  lemma UserDistinct()
    ensures DistinctNames(USER_FIELDS)
  {
  }

  lemma UserRows(c: Document)
    ensures (forall i :: 0 <= i < |USER_FIELDS| ==> CheckField(USER_FIELDS[i], c).Success?) <==> IsUser(c)
  {
    var t := USER_FIELDS;
    var p0, p1, p2, p3, p4 := CheckField(t[0], c).Success?, CheckField(t[1], c).Success?,
      CheckField(t[2], c).Success?, CheckField(t[3], c).Success?, CheckField(t[4], c).Success?;
    assert p0 <==> HasText(c, "name");
    assert p1 <==> HasText(c, "email");
    assert p2 <==> HasText(c, "address");
    assert p3 <==> ("age" in c ==> c["age"].Null? || (c["age"].Int? && 0 <= c["age"].i <= 120));
    assert p4 <==> ("is_active" in c ==> c["is_active"].Bool?);
    if p0 && p1 && p2 && p3 && p4 {
      forall i | 0 <= i < |t| ensures CheckField(t[i], c).Success? {
        if i == 0 {} else if i == 1 {} else if i == 2 {} else if i == 3 {} else {}
      }
    }
  }

  lemma UserValidation(c: Document)
    ensures Validate(USER_FIELDS, c).Success? <==> IsUser(c)
  {
    ValidateSucceeds(USER_FIELDS, c);
    UserRows(c);
  }

  lemma UserKeys(c: Document, user: Document)
    requires Validate(USER_FIELDS, c) == Success(user)
    ensures user.Keys == {"name", "email", "address", "age", "is_active"}
  {
    var t := USER_FIELDS;
    ValidateKeys(t, c);
    forall i | 0 <= i < |t| ensures t[i].name in {"name", "email", "address", "age", "is_active"} {
    }
    assert t[0].name in Names(t) && t[1].name in Names(t) && t[2].name in Names(t);
    assert t[3].name in Names(t) && t[4].name in Names(t);
  }

  /** A validated user: `age` absent or `None` or within 0..120, `is_active` defaulting to true. */
  lemma UserRecord(c: Document, user: Document)
    requires Validate(USER_FIELDS, c) == Success(user)
    ensures HasText(c, "name") && "name" in user && user["name"] == c["name"]
    ensures HasText(c, "email") && "email" in user && user["email"] == c["email"]
    ensures HasText(c, "address") && "address" in user && user["address"] == c["address"]
    ensures "age" in user && user["age"] == SuppliedOr(c, "age", Null)
    ensures user["age"].Null? || (user["age"].Int? && 0 <= user["age"].i <= 120)
    ensures "is_active" in user && user["is_active"] == SuppliedOr(c, "is_active", Bool(true)) && user["is_active"].Bool?
  {
    var t := USER_FIELDS;
    UserDistinct();
    ValidatedField(t, c, 0);
    ValidatedField(t, c, 1);
    ValidatedField(t, c, 2);
    ValidatedField(t, c, 3);
    ValidatedField(t, c, 4);
  }

  lemma UserMissingField(c: Document, f: string)
    requires f == "name" || f == "email" || f == "address"
    requires f !in c
    ensures Validate(USER_FIELDS, c).Failure?
    ensures FieldError(f, Missing) in Validate(USER_FIELDS, c).error
  {
    var t := USER_FIELDS;
    var i := if f == "name" then 0 else if f == "email" then 1 else 2;
    assert t[i].name == f && t[i].required;
    assert CheckField(t[i], c) == Failure(FieldError(f, Missing));
    ValidateSucceeds(t, c);
    ValidateErrors(t, c);
  }

  // ---------------------------------------------------------------------------
  // Product

  lemma ProductDistinct()
    ensures DistinctNames(PRODUCT_FIELDS)
  {
  }

  lemma ProductRows(c: Document)
    ensures (forall i :: 0 <= i < |PRODUCT_FIELDS| ==> CheckField(PRODUCT_FIELDS[i], c).Success?) <==> IsProduct(c)
  {
    var t := PRODUCT_FIELDS;
    var p0, p1, p2, p3, p4 := CheckField(t[0], c).Success?, CheckField(t[1], c).Success?,
      CheckField(t[2], c).Success?, CheckField(t[3], c).Success?, CheckField(t[4], c).Success?;
    assert p0 <==> HasText(c, "title");
    assert p1 <==> MaybeText(c, "description");
    assert p2 <==> ("price" in c && IsNumber(c["price"]) && NumberOf(c["price"]) >= 0.0);
    assert p3 <==> HasText(c, "category");
    assert p4 <==> ("in_stock" in c ==> c["in_stock"].Bool?);
    if p0 && p1 && p2 && p3 && p4 {
      forall i | 0 <= i < |t| ensures CheckField(t[i], c).Success? {
        if i == 0 {} else if i == 1 {} else if i == 2 {} else if i == 3 {} else {}
      }
    }
  }

  lemma ProductValidation(c: Document)
    ensures Validate(PRODUCT_FIELDS, c).Success? <==> IsProduct(c)
  {
    ValidateSucceeds(PRODUCT_FIELDS, c);
    ProductRows(c);
  }

  lemma ProductKeys(c: Document, product: Document)
    requires Validate(PRODUCT_FIELDS, c) == Success(product)
    ensures product.Keys == {"title", "description", "price", "category", "in_stock"}
  {
    var t := PRODUCT_FIELDS;
    ValidateKeys(t, c);
    forall i | 0 <= i < |t| ensures t[i].name in {"title", "description", "price", "category", "in_stock"} {
    }
    assert t[0].name in Names(t) && t[1].name in Names(t) && t[2].name in Names(t);
    assert t[3].name in Names(t) && t[4].name in Names(t);
  }

  /** A validated product: a price of at least 0, `in_stock` defaulting to true. */
  lemma ProductRecord(c: Document, product: Document)
    requires Validate(PRODUCT_FIELDS, c) == Success(product)
    ensures HasText(c, "title") && "title" in product && product["title"] == c["title"]
    ensures HasText(c, "category") && "category" in product && product["category"] == c["category"]
    ensures "description" in product && product["description"] == SuppliedOr(c, "description", Null)
    ensures "price" in c && "price" in product && product["price"] == c["price"]
    ensures IsNumber(product["price"]) && NumberOf(product["price"]) >= 0.0
    ensures "in_stock" in product && product["in_stock"] == SuppliedOr(c, "in_stock", Bool(true))
    ensures product["in_stock"].Bool?
  {
    var t := PRODUCT_FIELDS;
    ProductDistinct();
    ValidatedField(t, c, 0);
    ValidatedField(t, c, 1);
    ValidatedField(t, c, 2);
    ValidatedField(t, c, 3);
    ValidatedField(t, c, 4);
  }

  lemma ProductMissingField(c: Document, f: string)
    requires f == "title" || f == "price" || f == "category"
    requires f !in c
    ensures Validate(PRODUCT_FIELDS, c).Failure?
    ensures FieldError(f, Missing) in Validate(PRODUCT_FIELDS, c).error
  {
    var t := PRODUCT_FIELDS;
    var i := if f == "title" then 0 else if f == "price" then 2 else 3;
    assert t[i].name == f && t[i].required;
    assert CheckField(t[i], c) == Failure(FieldError(f, Missing));
    ValidateSucceeds(t, c);
    ValidateErrors(t, c);
  }
}
