# Cloth Management API — a Dafny model of the item endpoints

The backend stores clothing items in a document store behind two HTTP
endpoints:

- `POST /api/items` validates the body as a `ClothingItem` and inserts it.
  It answers `{"id": <text>}`.
- `GET /api/items` builds a store filter from the optional `category`,
  `color`, `size` and `search` parameters. It asks the store for at most
  `limit` documents, 100 when the parameter is omitted. `list_items`
  returns the documents in their outbound form: `_id` becomes the text field
  `id`, and `created_at` / `updated_at` datetimes become ISO-8601 text. The
  framework's serialisation then drops those two keys from the JSON answer
  (see "## Left out").

When no store is configured, both endpoints answer 500 "Database not
configured" and send the store nothing. A `POST` body that fails validation
is answered 422, with every field error, before that check. The record shapes `ClothingItem`,
`User` and `Product` are pydantic field tables.

The modules follow the program's parts:

| file | module | what it holds |
|---|---|---|
| `wrappers.dfy` | `Wrappers` | `Option`, `Result` |
| `values.dfy` | `Values` | the values a document holds, Python's `str()` of them, `datetime.isoformat()` |
| `schemas.dfy` | `Schemas` | one validator over field tables; the three models' tables; what each model accepts, stated field by field |
| `query.dfy` | `Query` | the listing parameters, the filter they produce (a specification function and the step-by-step builder), and what a filter selects |
| `normalizer.dfy` | `Normalizer` | the outbound form of a stored document; the copying loops proved against it |
| `handlers.dfy` | `Handlers` | the two endpoints, over a `Store` class that stands in for the database module |

Inputs the program reads from outside are parameters of the model:

- The configured store is a `Store?` argument; `null` means not configured.
- The request body is a `Document`.
- The query parameters are a `ListQuery`; an omitted parameter is `None`.

The database module (`create_document`, `get_documents`) is not part of this
model. `Store` stands in for it:

- It logs every request, together with its answer.
- It stores each inserted record under the next identifier of a counter.
- A find returns stored records that the filter matches, never more than
  `limit` of them when `limit` is positive.

The contract of `ListItems` carries two promises of the stand-in: the
stored records are unchanged, and the reply satisfies `Answers` (stored,
matching records, at most `limit` of them when `limit` is positive). The
rest of it is about the logged request and the answer built from the reply.
The contract of `CreateItem` states the identifier and the stored record as
the stand-in produces them.

## Model

| member | source | states |
|---|---|---|
| Values.Padded | main.py:71 | zero-padded decimal text has exactly the requested width, holds only digits, and reads back as the number |
| Values.NatText | main.py:68 | decimal text of a natural number reads back as that number and has no leading zero |
| Values.IntText | main.py:68 | `str()` of an int starts with `-` exactly when the int is negative, followed by the decimal digits of its magnitude, without leading zeros, that read back as the magnitude |
| Values.Hex | main.py:68 | hex text has two characters per byte |
| Values.HexInjective | main.py:68 | byte strings of the same length with the same hex text are equal |
| Values.ObjectIdText | main.py:68 | `str()` of an ObjectId is 24 characters |
| Values.ObjectIdTextInjective | main.py:68 | distinct ObjectIds have distinct text |
| Values.IsoFormat | main.py:70-71 | ISO text is 19 characters, or 26 with microseconds; it has `-`, the separator, `:` and `.` at their fixed positions |
| Values.IsoFormatDate | main.py:70-71 | year, month and day read back from their positions in the ISO text |
| Values.IsoFormatTime | main.py:70-71 | hour, minute, second and any non-zero microsecond read back from their positions in the ISO text |
| Values.IsoFormatInjective | main.py:70-71 | distinct timestamps render to distinct ISO text |
| Values.Text | main.py:68 | `str()` keeps a string; renders `None` as "None" and a bool as "True" / "False"; an int as its decimal `IntText`; an ObjectId as its 24-character hex `ObjectIdText`; a datetime as `IsoFormat` with a space separator |
| Schemas.CLOTHING_ITEM_FIELDS | schemas.py:49-58 | the `ClothingItem` table: name, category, size and color required text; quantity an int defaulting to 0 with `ge=0`; sku, brand, location and notes optional text; price an optional float with `ge=0` |
| Schemas.USER_FIELDS | schemas.py:24-28 | the `User` table: name, email and address required text; age an optional int within 0..120; is_active a bool defaulting to true |
| Schemas.PRODUCT_FIELDS | schemas.py:35-39 | the `Product` table: title and category required text; price a required float with `ge=0`; description optional text; in_stock a bool defaulting to true |
| Schemas.CheckField | schemas.py:49-58 | per field: a missing required field is `Missing`; a missing optional field takes its default; a present value passes exactly when it conforms (`None` for an `Optional`, else the right type within `ge` / `le`) and is kept as given; a value of the wrong type is `WrongType`; every error names its field |
| Schemas.Validate | schemas.py:49-58 | a failure carries at least one field error |
| Schemas.ValidateSucceeds | schemas.py:49-58 | validation succeeds exactly when every declared field passes |
| Schemas.ValidateKeys | schemas.py:49-58 | a validated record has exactly the declared fields; undeclared keys of the candidate are dropped |
| Schemas.ValidatedField | schemas.py:49-58 | in a validated record, each declared field holds that field's checked or default value |
| Schemas.ValidateErrors | schemas.py:49-58 | a failure reports exactly the errors of the failing fields |
| Schemas.ClothingItemRows | schemas.py:49-58 | every `ClothingItem` row passes exactly when the candidate is a clothing item as stated field by field |
| Schemas.ClothingItemValidation | schemas.py:49-58 | a candidate validates as `ClothingItem` exactly when it meets the field-by-field statement: four text fields required, quantity an int ≥ 0 if given, price `None` or a number ≥ 0 if given, sku, brand, location and notes `None` or text if given |
| Schemas.ClothingItemNames | schemas.py:49-58 | the `ClothingItem` table declares exactly the ten fields |
| Schemas.ClothingItemKeys | schemas.py:49-58 | a validated clothing item has exactly the ten fields |
| Schemas.ClothingItemRequiredText | schemas.py:49-52 | a validated item has name, category, size and color as the candidate's own text |
| Schemas.ClothingItemQuantity | schemas.py:53 | quantity is the supplied value or 0, and in both cases an int ≥ 0 |
| Schemas.ClothingItemPrice | schemas.py:56 | price is the supplied value or `None`; when not `None` it is a number ≥ 0 |
| Schemas.ClothingItemOptionalText | schemas.py:54-58 | sku, brand, location and notes each hold the supplied value or `None`, and are `None` or text |
| Schemas.ClothingItemMissingField | schemas.py:49-52 | a candidate without name, category, size or color fails, with a `Missing` error naming that field |
| Schemas.UserRows | schemas.py:24-28 | every `User` row passes exactly when the candidate is a user as stated field by field |
| Schemas.UserValidation | schemas.py:24-28 | a candidate validates as `User` exactly when name, email and address are text, age is `None` or an int in 0..120 if given, and is_active is a bool if given |
| Schemas.UserKeys | schemas.py:24-28 | a validated user has exactly name, email, address, age and is_active |
| Schemas.UserRecord | schemas.py:24-28 | a validated user keeps the required text; its age is the supplied value or `None` and within 0..120 when an int; is_active is the supplied bool or true |
| Schemas.UserMissingField | schemas.py:24-26 | a candidate without name, email or address fails, with a `Missing` error naming that field |
| Schemas.ProductRows | schemas.py:35-39 | every `Product` row passes exactly when the candidate is a product as stated field by field |
| Schemas.ProductValidation | schemas.py:35-39 | a candidate validates as `Product` exactly when title and category are text, price is a number ≥ 0, description is `None` or text if given, and in_stock is a bool if given |
| Schemas.ProductKeys | schemas.py:35-39 | a validated product has exactly title, description, price, category and in_stock |
| Schemas.ProductRecord | schemas.py:35-39 | a validated product keeps title, category and price as supplied, with price ≥ 0; description is the supplied value or `None`; in_stock is the supplied bool or true |
| Schemas.ProductMissingField | schemas.py:35-38 | a candidate without title, price or category fails, with a `Missing` error naming that field |
| Query.Given | main.py:49-55 | Python truthiness of an optional text parameter: `None` and the empty string are not given, any other text is |
| Query.Limit | main.py:45 | the limit is the parameter when given and 100 when omitted |
| Query.FilterFor | main.py:48-61 | the filter's keys lie within category, color, size and `$or`; each exact field is present exactly when its parameter is non-empty, holding that value; `$or` is present exactly when `search` is non-empty, and holds three case-insensitive clauses on name, brand and sku, in that order, each with the search text |
| Query.BuildFilter | main.py:48-61 | adding the entries one at a time produces exactly the filter described by `FilterFor` |
| Query.Matches | main.py:48-61 | the definition of a filter match: every top-level entry holds, and an `$or` entry holds when one of its alternatives does |
| Query.MatchesConjoins | main.py:48-61 | entries under distinct keys are conjoined: merging two filters matches exactly what both match |
| Query.FilterSemantics | main.py:48-61 | a document matches the filter exactly when it equals every given exact parameter and, when a search is given, its name, brand or sku contains the search text, ignoring case |
| Query.EmptyQueryMatchesAll | main.py:48-55 | with no parameter given, or only empty ones, the filter is empty and matches every document |
| Query.ExactFiltersIntersect | main.py:49-52 | with category and color both given, a matching document has exactly that category and that color |
| Query.SearchIgnoresCase | main.py:55-61 | two search texts that agree once letters are folded to lower case select the same documents |
| Query.SearchLooksAtEveryField | main.py:55-61 | with only a search given, a document whose name, brand or sku contains the text, ignoring case, matches |
| Query.SearchNeedsMention | main.py:55-61 | with a search given, a document whose name and brand do not contain the text and which has no sku does not match |
| Query.RedTopExample | main.py:49-52 | example: for category Tops and color Red, a red top matches and a blue top does not |
| Query.JacketExample | main.py:55-61 | example: `search=jack` matches the name "Denim Jacket" |
| Query.JacksterExample | main.py:55-61 | example: `search=jack` matches an item named "Tee" through its brand "Jackster" |
| Query.AcmeExample | main.py:55-61 | example: `search=jack` does not match "Tee" by "Acme" |
| Normalizer.StoredId | main.py:68 | `d.get("_id")`: the stored `_id` when present, `None` otherwise |
| Normalizer.Rendered | main.py:70-71 | a datetime becomes its `isoformat()` text, with `T` at position 10; any other value is unchanged |
| Normalizer.PublicId | main.py:68 | the outbound `id` is always text: "None" without a stored `_id`, a stored text id unchanged, 24 characters for an ObjectId |
| Normalizer.Outbound | main.py:67-71 | the outbound form has no `_id`; `id` holds `str()` of the stored `_id`; its keys are `id` plus the stored keys other than `_id`; other keys keep their values; existing timestamp keys are rendered |
| Normalizer.NormalizeRecord | main.py:67-71 | the copy, the `id` assignment and the timestamp loop produce exactly the outbound form |
| Normalizer.Normalize | main.py:65-73 | the output has as many documents as the input, in the same order, each in its outbound form |
| Normalizer.OutboundIdsDistinct | main.py:68 | documents with distinct ObjectIds get distinct `id` texts |
| Handlers.Store.CreateDocument | main.py:41 | the stand-in insert logs the request, stores the record under the next identifier, and returns that identifier's text |
| Handlers.Store.GetDocuments | main.py:62 | the stand-in find logs the request with its answer, leaves the stored records as they were, and answers only stored records that match, at most `limit` of them when `limit` is positive |
| Handlers.CreateItem | main.py:37-42 | an invalid body gets 422 with every field error and no store call; a valid body with no store gets 500 "Database not configured"; otherwise exactly one insert of the validated record into `clothingitem`, answered with `{"id": <its identifier>}` |
| Handlers.ListItems | main.py:44-73 | with no store, 500 "Database not configured"; otherwise exactly one find on `clothingitem` with the query's filter and limit, answered with the outbound form of every returned document, in order |
| Handlers.ListedAreSelected | main.py:48-62 | with the stand-in store, every listed document is a stored record that the query selects, and there are at most `limit` of them when `limit` is positive |

Members without a row are helpers of the rows above:
- `Query.RegexMatches`, `Query.PatternHolds` and `Query.Holds` are the parts of `Query.Matches`.
- `Normalizer.Moved` (main.py:67-68) is the first stage of `Normalizer.Outbound`.
- `Normalizer.RenderedUpTo`, `Normalizer.RenderNext` and `Normalizer.AllRendered` are the loop invariant of `Normalizer.NormalizeRecord`.
- `Query.FilterKeys`, `Query.FilterByKeys` and `Query.SearchPatterns` are the parts of `Query.FilterFor`.

## Left out

- FastAPI setup, CORS middleware, routing and the uvicorn start-up (main.py:10-18, 116-119): this is framework plumbing.
- `read_root` (main.py:20-22) and the `/test` diagnostics endpoint (main.py:75-114): these are constant answers, environment reads and driver calls.
- `/schema` (main.py:24-29) calls pydantic's `model_json_schema()`. Only the field tables behind it are modelled; they carry the descriptions.
- The database module (`create_document`, `get_documents`, the connection): it is not part of this model. `Store` is a stand-in. Identifier uniqueness, result order and the meaning of a zero or negative limit belong to the real store.
- `create_document` probably adds its own timestamps: this is not modelled, since the module is not part of this model.
- Handlers.CreateItem: the identifier it returns is the stand-in's counter identifier. It is not proved distinct from earlier identifiers, because uniqueness belongs to the real store; the real store's identifier format is not modelled either.
- Schemas.CheckField: pydantic's lax coercion is not modelled. Only exact types are accepted, except that an int is accepted for a float field; that int is kept as an int, not converted to a float.
- Floats carry their Python repr as text: float arithmetic and formatting are not modelled. Only the `ge=0` bound is checked, over the real value.
- Query.RegexMatches: Mongo `$regex` semantics are not modelled. The search text is read as literal text matched anywhere in the field. Case folding covers ASCII letters only, and regex metacharacters in the search text are not interpreted. The code passes `search` to `$regex` unescaped, so an invalid pattern such as `(` makes the store raise and the listing answer 500; the model has no such failure.
- Query.Holds: Mongo's array matching is not modelled. Mongo also matches `{"category": v}` and a `$regex` when the field holds an array with a matching element. The model requires a single text value there. Only documents written by other clients can hold such arrays.
- Timezone-aware datetimes and their `+HH:MM` suffix are not modelled: the store is taken to return naive datetimes.
- Dictionary key order is not modelled: documents are maps.
- The `response_model=List[ClothingItemOut]` processing at serialisation is not modelled; the model returns the normalised documents themselves. That processing does three things:
  - it drops undeclared keys such as `created_at` / `updated_at` from the JSON;
  - it checks each document against `ClothingItemOut`, so a stored document without `name`, or with a negative `quantity`, makes the listing answer 500;
  - it fills in the declared defaults: `quantity` 0, and `None` for sku, brand, price, location, notes and id.
- A `limit` parameter that is not an integer is rejected by the framework before the handler runs; this is not modelled. A `ListQuery` holds an already-parsed optional int.
- Optional fields default to `None` and are stored as `None`, following `Field(None)` in the code, not left absent.
- A missing store answers `HTTPException(500)`, as the code does; no "unavailable" condition of its own is modelled.
- A store that fails while reachable (the driver raising) is not modelled.
- The listing works on copies, so the store's documents are never mutated. Documents are values in this model, so that guarantee holds by construction and states nothing further.
