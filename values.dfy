/**
 * The values that a stored document or a request body can hold, and the text
 * Python gives them: `str(v)` for the outbound identifier and
 * `datetime.isoformat()` for the timestamp fields.
 */
module Values {

  newtype byte = x: int | 0 <= x < 256

  /** A BSON ObjectId is twelve bytes; its text is 24 lower-case hex digits. */
  type ObjectIdBytes = s: seq<byte> | |s| == 12 witness [0, 0, 0, 0, 0, 0, 0, 0, 0, 0, 0, 0]

  datatype ObjectId = ObjectId(bytes: ObjectIdBytes)

  /** A naive `datetime.datetime`, as the document store hands it back. */
  datatype DateTime = DateTime(year: int, month: int, day: int,
                               hour: int, minute: int, second: int, microsecond: int)

  predicate IsLeapYear(y: int) {
    y % 4 == 0 && (y % 100 != 0 || y % 400 == 0)
  }

  function DaysInMonth(y: int, m: int): (n: int)
    requires 1 <= m <= 12
    ensures 28 <= n <= 31
  {
    if m == 2 then (if IsLeapYear(y) then 29 else 28)
    else if m == 4 || m == 6 || m == 9 || m == 11 then 30
    else 31
  }

  /** The ranges Python's `datetime` constructor enforces. */
  predicate ValidDateTime(t: DateTime) {
    && 1 <= t.year <= 9999
    && 1 <= t.month <= 12
    && 1 <= t.day <= DaysInMonth(t.year, t.month)
    && 0 <= t.hour < 24
    && 0 <= t.minute < 60
    && 0 <= t.second < 60
    && 0 <= t.microsecond < 1000000
  }

  type Timestamp = t: DateTime | ValidDateTime(t) witness DateTime(1, 1, 1, 0, 0, 0, 0)

  /**
   * A field value. `Float` and `Other` carry the text `str()` gives them:
   * Python's float formatting and the rendering of embedded documents, arrays
   * and the rarer BSON kinds are not modelled.
   */
  datatype Value =
    | Null
    | Bool(b: bool)
    | Int(i: int)
    | Float(r: real, repr: string)
    | Str(s: string)
    | Oid(oid: ObjectId)
    | Time(t: Timestamp)
    | Other(repr: string)

  /** A document: a mapping from field names to values. */
  type Document = map<string, Value>

  // ---------------------------------------------------------------------------
  // Digits

  function Pow10(n: nat): (p: nat)
    ensures p >= 1
  {
    if n == 0 then 1 else 10 * Pow10(n - 1)
  }

  predicate IsDigit(c: char) {
    '0' <= c <= '9'
  }

  function DigitChar(d: nat): (c: char)
    requires d < 10
    ensures IsDigit(c) && c as int - '0' as int == d
  {
    (48 + d) as char
  }

  /** The value of a string of decimal digits. */
  function DigitsValue(s: string): nat
    requires forall i :: 0 <= i < |s| ==> IsDigit(s[i])
  {
    if s == [] then 0
    else
      var last := s[|s| - 1];
      assert IsDigit(last);
      10 * DigitsValue(s[..|s| - 1]) + (last as int - '0' as int)
  }

  /** `n` written with exactly `width` decimal digits, zero-padded on the left (`%0*d`). */
  function Padded(n: nat, width: nat): (s: string)
    requires n < Pow10(width)
    ensures |s| == width
    ensures forall i :: 0 <= i < |s| ==> IsDigit(s[i])
    ensures DigitsValue(s) == n
  {
    if width == 0 then ""
    else
      var s := Padded(n / 10, width - 1) + [DigitChar(n % 10)];
      assert s[..|s| - 1] == Padded(n / 10, width - 1);
      s
  }

  /** `n` in decimal without leading zeros, as `str(n)` writes a non-negative int. */
  function NatText(n: nat): (s: string)
    ensures |s| >= 1
    ensures forall i :: 0 <= i < |s| ==> IsDigit(s[i])
    ensures DigitsValue(s) == n
    ensures |s| > 1 ==> s[0] != '0'
  {
    if n < 10 then [DigitChar(n)]
    else
      var s := NatText(n / 10) + [DigitChar(n % 10)];
      assert s[..|s| - 1] == NatText(n / 10);
      s
  }

  /** `str(i)` for a Python int. */
  function IntText(i: int): (s: string)
    ensures |s| >= 1
    ensures s[0] == '-' <==> i < 0
    ensures var digits := if i < 0 then s[1..] else s;
      && |digits| >= 1 && (forall k :: 0 <= k < |digits| ==> IsDigit(digits[k]))
      && DigitsValue(digits) == (if i < 0 then -i else i)
      && (|digits| > 1 ==> digits[0] != '0')
  {
    if i < 0 then "-" + NatText(-i) else NatText(i)
  }

  // ---------------------------------------------------------------------------
  // Hex digits of an ObjectId

  function HexDigit(d: nat): (c: char)
    requires d < 16
    ensures HexValue(c) == d
  {
    if d < 10 then (48 + d) as char else (87 + d) as char
  }

  function HexValue(c: char): int {
    if '0' <= c <= '9' then c as int - 48 else c as int - 87
  }

  /** Two lower-case hex digits per byte, high nibble first. */
  function Hex(bytes: seq<byte>): (s: string)
    ensures |s| == 2 * |bytes|
  {
    if bytes == [] then ""
    else
      var b := bytes[0] as int;
      [HexDigit(b / 16), HexDigit(b % 16)] + Hex(bytes[1..])
  }

  lemma {:induction false} HexInjective(a: seq<byte>, b: seq<byte>)
    requires |a| == |b|
    requires Hex(a) == Hex(b)
    ensures a == b
  {
    if a != [] {
      var ha, hb := Hex(a), Hex(b);
      assert HexValue(ha[0]) == a[0] as int / 16 && HexValue(hb[0]) == b[0] as int / 16;
      assert HexValue(ha[1]) == a[0] as int % 16 && HexValue(hb[1]) == b[0] as int % 16;
      assert a[0] == b[0];
      assert Hex(a[1..]) == ha[2..] && Hex(b[1..]) == hb[2..];
      HexInjective(a[1..], b[1..]);
      assert a == [a[0]] + a[1..] && b == [b[0]] + b[1..];
    }
  }

  /** `str(ObjectId)`: 24 lower-case hex digits. */
  function ObjectIdText(o: ObjectId): (s: string)
    ensures |s| == 24
  {
    Hex(o.bytes)
  }

  lemma ObjectIdTextInjective(a: ObjectId, b: ObjectId)
    requires ObjectIdText(a) == ObjectIdText(b)
    ensures a == b
  {
    HexInjective(a.bytes, b.bytes);
  }

  // ---------------------------------------------------------------------------
  // Timestamps

  /**
   * `datetime.isoformat(sep)` of a naive datetime: `YYYY-MM-DD`, the separator,
   * `HH:MM:SS`, and `.ffffff` only when the microsecond is not zero.
   */
  function IsoFormat(t: Timestamp, sep: char): (s: string)
    ensures |s| == if t.microsecond == 0 then 19 else 26
    ensures s[4] == '-' && s[7] == '-' && s[10] == sep && s[13] == ':' && s[16] == ':'
    ensures t.microsecond != 0 ==> s[19] == '.'
  {
    assert Pow10(2) == 100 && Pow10(4) == 10000 && Pow10(6) == 1000000;
    var date := Padded(t.year, 4) + "-" + Padded(t.month, 2) + "-" + Padded(t.day, 2);
    var time := Padded(t.hour, 2) + ":" + Padded(t.minute, 2) + ":" + Padded(t.second, 2);
    var fraction := if t.microsecond == 0 then "" else "." + Padded(t.microsecond, 6);
    date + [sep] + time + fraction
  }

  /** The date fields of the timestamp can be read back from its ISO text. */
  lemma IsoFormatDate(t: Timestamp, sep: char)
    ensures var s := IsoFormat(t, sep);
      && DigitsValue(s[0..4]) == t.year && DigitsValue(s[5..7]) == t.month
      && DigitsValue(s[8..10]) == t.day
  {
    assert Pow10(2) == 100 && Pow10(4) == 10000;
    var s := IsoFormat(t, sep);
    assert s[0..4] == Padded(t.year, 4);
    assert s[5..7] == Padded(t.month, 2);
    assert s[8..10] == Padded(t.day, 2);
  }

  /** The time-of-day fields of the timestamp can be read back from its ISO text. */
  lemma IsoFormatTime(t: Timestamp, sep: char)
    ensures var s := IsoFormat(t, sep);
      && DigitsValue(s[11..13]) == t.hour
      && DigitsValue(s[14..16]) == t.minute && DigitsValue(s[17..19]) == t.second
      && (t.microsecond != 0 ==> DigitsValue(s[20..26]) == t.microsecond)
  {
    assert Pow10(2) == 100 && Pow10(6) == 1000000;
    var s := IsoFormat(t, sep);
    assert s[11..13] == Padded(t.hour, 2);
    assert s[14..16] == Padded(t.minute, 2);
    assert s[17..19] == Padded(t.second, 2);
    if t.microsecond != 0 {
      assert s[20..26] == Padded(t.microsecond, 6);
    }
  }

  /** Two timestamps with the same ISO text are the same timestamp. */
  lemma IsoFormatInjective(a: Timestamp, b: Timestamp, sep: char)
    requires IsoFormat(a, sep) == IsoFormat(b, sep)
    ensures a == b
  {
    IsoFormatDate(a, sep);
    IsoFormatDate(b, sep);
    IsoFormatTime(a, sep);
    IsoFormatTime(b, sep);
  }

  // ---------------------------------------------------------------------------
  // str()

  /** Python's `str(v)` for a value as the store driver decodes it. */
  function Text(v: Value): (s: string)
    ensures v.Str? ==> s == v.s
    ensures v.Null? ==> s == "None"
    ensures v.Oid? ==> |s| == 24
    ensures v.Int? ==> s == IntText(v.i) && |s| >= 1 && (s[0] == '-' <==> v.i < 0)
    ensures v.Bool? ==> s == if v.b then "True" else "False"
    ensures v.Oid? ==> s == ObjectIdText(v.oid)
    ensures v.Time? ==> s == IsoFormat(v.t, ' ')
  {
    match v
    case Null => "None"
    case Bool(b) => if b then "True" else "False"
    case Int(i) => IntText(i)
    case Float(_, repr) => repr
    case Str(s) => s
    case Oid(o) => ObjectIdText(o)
    case Time(t) => IsoFormat(t, ' ')
    case Other(repr) => repr
  }
}
