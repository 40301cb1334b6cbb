/**
 * The filter `GET /api/items` hands to the document store: one exact-match
 * entry per given `category`, `color` and `size` parameter, and for a given
 * `search` text an `$or` of case-insensitive pattern matches on `name`,
 * `brand` and `sku`. The top-level entries of a filter are conjoined.
 */
module Query {
  import opened Wrappers
  import opened Values

  /** The query parameters of the listing request; `None` is an omitted parameter. */
  datatype ListQuery = ListQuery(
    category: Option<string>,
    color: Option<string>,
    size: Option<string>,
    search: Option<string>,
    limit: Option<int>)

  const DEFAULT_LIMIT: int := 100
  const OR_KEY: string := "$or"
  const EXACT_FIELDS: seq<string> := ["category", "color", "size"]
  const SEARCH_FIELDS: seq<string> := ["name", "brand", "sku"]

  /** Python truthiness of an optional string: given, and not the empty string. */
  predicate Given(p: Option<string>): (b: bool)
    ensures p.None? ==> !b
    ensures p.Some? ==> (b <==> |p.value| > 0)
  {
    p.Some? && p.value != ""
  }

  /** The parameter that filters on an exact-match field. */
  function ExactParam(q: ListQuery, field: string): Option<string> {
    if field == "category" then q.category
    else if field == "color" then q.color
    else if field == "size" then q.size
    else None
  }

  /** The result cap passed to the store: the `limit` parameter, 100 when omitted. */
  function Limit(q: ListQuery): (n: int)
    ensures q.limit.None? ==> n == DEFAULT_LIMIT
    ensures q.limit.Some? ==> n == q.limit.value
  {
    q.limit.GetOr(DEFAULT_LIMIT)
  }

  // ---------------------------------------------------------------------------
  // Filters

  /** `{field: {"$regex": regex, "$options": options}}` */
  datatype Pattern = Pattern(field: string, regex: string, options: string)

  /** The value under one top-level key: an exact value, or the alternatives of `$or`. */
  datatype Criterion = Exact(value: string) | AnyOf(alternatives: seq<Pattern>)

  /** A filter document: its top-level entries are conjoined. */
  type Filter = map<string, Criterion>

  /** The `$or` alternatives for a search text: `name`, `brand`, `sku`, each case-insensitive. */
  function SearchPatterns(text: string): seq<Pattern> {
    [Pattern("name", text, "i"), Pattern("brand", text, "i"), Pattern("sku", text, "i")]
  }

  function FilterKeys(q: ListQuery): set<string> {
    (set k | k in EXACT_FIELDS && Given(ExactParam(q, k)))
      + (if Given(q.search) then {OR_KEY} else {})
  }

  /**
   * The filter for a query, described key by key: the given exact-match
   * parameters under their own field names, and `$or` exactly when a search
   * text is given.
   */
  function FilterFor(q: ListQuery): (f: Filter)
    ensures f.Keys <= {"category", "color", "size", OR_KEY}
    ensures forall k :: k in EXACT_FIELDS ==> (k in f <==> Given(ExactParam(q, k)))
    ensures forall k :: k in EXACT_FIELDS && k in f ==> ExactParam(q, k).Some? && f[k] == Exact(ExactParam(q, k).value)
    ensures OR_KEY in f <==> Given(q.search)
    ensures OR_KEY in f ==> f[OR_KEY].AnyOf? && |f[OR_KEY].alternatives| == 3
    ensures OR_KEY in f ==> forall i :: 0 <= i < 3 ==>
      f[OR_KEY].alternatives[i] == Pattern(SEARCH_FIELDS[i], q.search.value, "i")
  {
    map k | k in FilterKeys(q) ::
      if k == OR_KEY then AnyOf(SearchPatterns(q.search.value)) else Exact(ExactParam(q, k).value)
  }

  /** A filter with the keys of `FilterKeys(q)` and, under each, the entry for that key is `FilterFor(q)`. */
  lemma FilterByKeys(q: ListQuery, f: Filter)
    requires f.Keys == FilterKeys(q)
    requires forall k :: k in f ==>
      f[k] == if k == OR_KEY then AnyOf(SearchPatterns(q.search.value)) else Exact(ExactParam(q, k).value)
    ensures f == FilterFor(q)
  {
  }

  /** Builds the filter one key at a time, as the listing handler does. */
  method BuildFilter(q: ListQuery) returns (f: Filter)
    ensures f == FilterFor(q)
  {
    f := map[];
    if Given(q.category) {
      f := f["category" := Exact(q.category.value)];
    }
    if Given(q.color) {
      f := f["color" := Exact(q.color.value)];
    }
    if Given(q.size) {
      f := f["size" := Exact(q.size.value)];
    }
    if Given(q.search) {
      f := f[OR_KEY := AnyOf(SearchPatterns(q.search.value))];
    }
    assert f.Keys == FilterKeys(q);
    FilterByKeys(q, f);
  }

  // ---------------------------------------------------------------------------
  // What a filter selects

  /** ASCII case folding. */
  function Lower(c: char): char {
    if 'A' <= c <= 'Z' then (c as int + 32) as char else c
  }

  function LowerText(s: string): (t: string)
    ensures |t| == |s| && forall i :: 0 <= i < |s| ==> t[i] == Lower(s[i])
  {
    seq(|s|, i requires 0 <= i < |s| => Lower(s[i]))
  }

  predicate OccursAt(text: string, part: string, i: int) {
    0 <= i && i + |part| <= |text| && text[i..i + |part|] == part
  }

  predicate Contains(text: string, part: string) {
    exists i :: 0 <= i <= |text| && OccursAt(text, part, i)
  }

  /**
   * An unanchored pattern match, read as the search for the pattern's literal
   * text (case-folded when the options hold `i`).
   */
  predicate RegexMatches(regex: string, options: string, text: string) {
    if 'i' in options then Contains(LowerText(text), LowerText(regex)) else Contains(text, regex)
  }

  predicate PatternHolds(p: Pattern, d: Document) {
    p.field in d && d[p.field].Str? && RegexMatches(p.regex, p.options, d[p.field].s)
  }

  predicate Holds(key: string, c: Criterion, d: Document) {
    match c
    case Exact(v) => key in d && d[key] == Str(v)
    case AnyOf(ps) => exists i :: 0 <= i < |ps| && PatternHolds(ps[i], d)
  }

  /** A document satisfies a filter when it satisfies every top-level entry. */
  predicate Matches(f: Filter, d: Document) {
    forall k :: k in f ==> Holds(k, f[k], d)
  }

  /** Entries under distinct keys are conjoined: merging two filters selects what both select. */
  lemma MatchesConjoins(f: Filter, g: Filter, d: Document)
    requires f.Keys !! g.Keys
    ensures Matches(f + g, d) <==> Matches(f, d) && Matches(g, d)
  {
    if Matches(f, d) && Matches(g, d) {
      forall k | k in f + g ensures Holds(k, (f + g)[k], d) {
        if k in g {
          assert Holds(k, g[k], d);
        } else {
          assert Holds(k, f[k], d);
        }
      }
    }
    if Matches(f + g, d) {
      forall k | k in f ensures Holds(k, f[k], d) {
        assert k !in g;
        assert Holds(k, (f + g)[k], d);
      }
      forall k | k in g ensures Holds(k, g[k], d) {
        assert Holds(k, (f + g)[k], d);
      }
    }
  }

  // ---------------------------------------------------------------------------
  // The selection a query asks for, stated without filters

  predicate FieldEquals(d: Document, field: string, value: string) {
    field in d && d[field] == Str(value)
  }

  predicate Mentions(d: Document, field: string, text: string) {
    field in d && d[field].Str? && Contains(LowerText(d[field].s), LowerText(text))
  }

  /**
   * Every given exact parameter equals its field, and a given search text
   * occurs, ignoring case, in the name, the brand or the sku.
   */
  predicate Selected(q: ListQuery, d: Document) {
    && (Given(q.category) ==> FieldEquals(d, "category", q.category.value))
    && (Given(q.color) ==> FieldEquals(d, "color", q.color.value))
    && (Given(q.size) ==> FieldEquals(d, "size", q.size.value))
    && (Given(q.search) ==>
          Mentions(d, "name", q.search.value) || Mentions(d, "brand", q.search.value)
          || Mentions(d, "sku", q.search.value))
  }

  /** The built filter selects exactly the documents the query asks for. */
  lemma FilterSemantics(q: ListQuery, d: Document)
    ensures Matches(FilterFor(q), d) <==> Selected(q, d)
  {
    var f := FilterFor(q);
    assert "category" in EXACT_FIELDS && "color" in EXACT_FIELDS && "size" in EXACT_FIELDS;
    if Given(q.search) {
      var ps := f[OR_KEY].alternatives;
      assert ps == SearchPatterns(q.search.value);
      assert Holds(OR_KEY, f[OR_KEY], d) <==>
        PatternHolds(ps[0], d) || PatternHolds(ps[1], d) || PatternHolds(ps[2], d);
    }
    if Selected(q, d) {
      forall k | k in f ensures Holds(k, f[k], d) {
        assert k == "category" || k == "color" || k == "size" || k == OR_KEY;
      }
    }
  }

  /** With no parameter given, or only empty ones, the filter is empty and matches every document. */
  lemma EmptyQueryMatchesAll(q: ListQuery, d: Document)
    requires !Given(q.category) && !Given(q.color) && !Given(q.size) && !Given(q.search)
    ensures FilterFor(q) == map[]
    ensures Matches(FilterFor(q), d)
  {
    assert FilterKeys(q) == {} by {
      forall k | k in EXACT_FIELDS ensures !Given(ExactParam(q, k)) {
      }
    }
  }

  /** Given category and color parameters select only documents that agree with both. */
  lemma ExactFiltersIntersect(q: ListQuery, d: Document)
    requires Given(q.category) && Given(q.color)
    requires Matches(FilterFor(q), d)
    ensures FieldEquals(d, "category", q.category.value) && FieldEquals(d, "color", q.color.value)
  {
    FilterSemantics(q, d);
  }

  /** The search ignores case: search texts that agree once folded select the same documents. */
  lemma SearchIgnoresCase(q: ListQuery, d: Document, other: string)
    requires Given(q.search) && LowerText(other) == LowerText(q.search.value)
    ensures Matches(FilterFor(q), d) <==> Matches(FilterFor(q.(search := Some(other))), d)
  {
    FilterSemantics(q, d);
    FilterSemantics(q.(search := Some(other)), d);
  }

  /** A search with no exact parameter finds a document through any one of name, brand and sku. */
  lemma SearchLooksAtEveryField(q: ListQuery, d: Document, field: string)
    requires !Given(q.category) && !Given(q.color) && !Given(q.size) && Given(q.search)
    requires field in SEARCH_FIELDS && Mentions(d, field, q.search.value)
    ensures Matches(FilterFor(q), d)
  {
    FilterSemantics(q, d);
  }

  /** A search leaves out a document whose name and brand do not mention the text and which has no sku. */
  lemma SearchNeedsMention(q: ListQuery, d: Document)
    requires Given(q.search)
    requires !Mentions(d, "name", q.search.value) && !Mentions(d, "brand", q.search.value) && "sku" !in d
    ensures !Matches(FilterFor(q), d)
  {
    FilterSemantics(q, d);
  }

  /** Example: a red top is listed for category Tops and color Red, a blue top is not. */
  lemma RedTopExample()
    ensures var q := ListQuery(Some("Tops"), Some("Red"), None, None, None);
      && Matches(FilterFor(q), map["name" := Str("Tee"), "category" := Str("Tops"), "color" := Str("Red")])
      && !Matches(FilterFor(q), map["name" := Str("Tee"), "category" := Str("Tops"), "color" := Str("Blue")])
  {
    var q := ListQuery(Some("Tops"), Some("Red"), None, None, None);
    FilterSemantics(q, map["name" := Str("Tee"), "category" := Str("Tops"), "color" := Str("Red")]);
    FilterSemantics(q, map["name" := Str("Tee"), "category" := Str("Tops"), "color" := Str("Blue")]);
    assert Str("Blue") != Str("Red") by { assert "Blue"[0] != "Red"[0]; }
  }

  /** Example: `search=jack` finds "Denim Jacket" by its name. */
  lemma JacketExample()
    ensures var q := ListQuery(None, None, None, Some("jack"), None);
      Matches(FilterFor(q), map["name" := Str("Denim Jacket")])
  {
    var q := ListQuery(None, None, None, Some("jack"), None);
    FilterSemantics(q, map["name" := Str("Denim Jacket")]);
    assert LowerText("jack") == "jack";
    assert LowerText("Denim Jacket")[6..10] == "jack";
    assert OccursAt(LowerText("Denim Jacket"), LowerText("jack"), 6);
  }

  /** Example: `search=jack` finds an item named "Tee" through its brand "Jackster". */
  lemma JacksterExample()
    ensures var q := ListQuery(None, None, None, Some("jack"), None);
      Matches(FilterFor(q), map["name" := Str("Tee"), "brand" := Str("Jackster")])
  {
    var q := ListQuery(None, None, None, Some("jack"), None);
    FilterSemantics(q, map["name" := Str("Tee"), "brand" := Str("Jackster")]);
    assert LowerText("jack") == "jack";
    assert LowerText("Jackster")[0..4] == "jack";
    assert OccursAt(LowerText("Jackster"), LowerText("jack"), 0);
  }

  /** Example: `search=jack` leaves out "Tee" by "Acme". */
  lemma AcmeExample()
    ensures var q := ListQuery(None, None, None, Some("jack"), None);
      !Matches(FilterFor(q), map["name" := Str("Tee"), "brand" := Str("Acme")])
  {
    var q := ListQuery(None, None, None, Some("jack"), None);
    FilterSemantics(q, map["name" := Str("Tee"), "brand" := Str("Acme")]);
    assert |LowerText("Tee")| < |LowerText("jack")|;
    assert LowerText("Acme") != LowerText("jack") by { assert LowerText("Acme")[0] == 'a'; }
  }
}
