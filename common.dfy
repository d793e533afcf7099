/** Small value types and string helpers shared by every component:
    optional values, results, the values a record attribute can hold,
    Python's `int(str)` conversion and `str.lower()` on ASCII letters. */
module Common {

  datatype Option<+T> = None | Some(value: T) {
    function GetOr(default: T): T {
      match this
      case Some(v) => v
      case None => default
    }
  }

  datatype Result<+R, +E> = Success(value: R) | Failure(error: E)

  /** A value held by a record attribute or carried in a JSON payload.
      `IntList` is a JSON list of integers (the wire form of a to-many
      relation); `Related` is the in-memory form of a to-many relation:
      the related records, each seen only through its primary key. */
  datatype Value =
    | Null
    | Bool(b: bool)
    | Int(i: int)
    | Str(s: string)
    | IntList(ids: seq<int>)
    | Related(refs: seq<int>)

  /** Where the code departs from what it evidently intends, the model
      offers both: the behaviour as written and the corrected one. */
  datatype Variant = AsWritten | Corrected

  /** The description of an HTTP error such as `BadRequest`: one text,
      or a list of texts. */
  datatype Description = Line(text: string) | Lines(lines: seq<string>)

  predicate NoDuplicates<T(==)>(s: seq<T>) {
    forall i, j :: 0 <= i < j < |s| ==> s[i] != s[j]
  }

  predicate StartsWith(s: string, prefix: string) {
    |prefix| <= |s| && s[..|prefix|] == prefix
  }

  predicate EndsWith(s: string, suffix: string) {
    |suffix| <= |s| && s[|s| - |suffix|..] == suffix
  }

  // ---------------------------------------------------------------------
  // str.lower() restricted to ASCII letters

  function LowerChar(c: char): char {
    if 'A' <= c <= 'Z' then (c as int + 32) as char else c
  }

  function Lower(s: string): (r: string)
    ensures |r| == |s|
    ensures forall i :: 0 <= i < |s| ==> r[i] == LowerChar(s[i])
    ensures forall i :: 0 <= i < |r| ==> !('A' <= r[i] <= 'Z')
  {
    if s == [] then [] else [LowerChar(s[0])] + Lower(s[1..])
  }

  // ---------------------------------------------------------------------
  // int(str): surrounding whitespace, an optional sign, then decimal
  // digits in which single underscores may separate two digits.

  /** `str.isspace()`: the characters Python's `int()` strips. */
  predicate IsSpace(c: char) {
    var n := c as int;
    || n == 0x20 || 0x09 <= n <= 0x0D || 0x1C <= n <= 0x1F
    || n == 0x85 || n == 0xA0 || n == 0x1680 || 0x2000 <= n <= 0x200A
    || n == 0x2028 || n == 0x2029 || n == 0x202F || n == 0x205F || n == 0x3000
  }

  predicate IsDigit(c: char) {
    '0' <= c <= '9'
  }

  function StripLeft(s: string): (r: string)
    ensures |r| <= |s| && r == s[|s| - |r|..]
    ensures r == [] || !IsSpace(r[0])
  {
    if s != [] && IsSpace(s[0]) then StripLeft(s[1..]) else s
  }

  function StripRight(s: string): (r: string)
    ensures |r| <= |s| && r == s[..|r|]
    ensures r == [] || !IsSpace(r[|r| - 1])
  {
    if s != [] && IsSpace(s[|s| - 1]) then StripRight(s[..|s| - 1]) else s
  }

  function Strip(s: string): string {
    StripRight(StripLeft(s))
  }

  /** The digit run Python accepts: starts with a digit, and every
      underscore is directly followed by a digit. */
  predicate ValidDigits(s: string) {
    && |s| > 0
    && IsDigit(s[0])
    && (forall i :: 0 <= i < |s| ==> IsDigit(s[i]) || s[i] == '_')
    && (forall i :: 0 <= i < |s| && s[i] == '_' ==> i + 1 < |s| && IsDigit(s[i + 1]))
  }

  /** The number a digit run denotes, underscores ignored. */
  function DigitsValue(s: string): nat {
    if s == [] then 0
    else if IsDigit(s[|s| - 1]) then DigitsValue(s[..|s| - 1]) * 10 + (s[|s| - 1] as int - '0' as int)
    else DigitsValue(s[..|s| - 1])
  }

  /** Python's `int(s)` on a string: `None` where Python raises ValueError.
      Only the ASCII digits are read as digits. */
  function ParseInt(s: string): (r: Option<int>)
    ensures r.Some? ==> exists i :: 0 <= i < |s| && IsDigit(s[i])
    ensures r.Some? && r.value < 0 ==> '-' in s
  {
    var l := StripLeft(s);
    var t := StripRight(l);
    assert forall i :: 0 <= i < |t| ==> t[i] == s[|s| - |l| + i];
    assert t == Strip(s);
    if t == [] then None
    else if t[0] == '-' || t[0] == '+' then
      if ValidDigits(t[1..]) then
        var magnitude: int := DigitsValue(t[1..]);
        Some(if t[0] == '-' then -magnitude else magnitude)
      else None
    else if ValidDigits(t) then Some(DigitsValue(t))
    else None
  }

  function DigitChar(d: nat): char
    requires d < 10
  {
    ('0' as int + d) as char
  }

  /** `str(n)` for a natural number. */
  function NatToDecimal(n: nat): (r: string)
    ensures |r| > 0
    ensures forall i :: 0 <= i < |r| ==> IsDigit(r[i])
    decreases n
  {
    if n < 10 then [DigitChar(n)] else NatToDecimal(n / 10) + [DigitChar(n % 10)]
  }

  /** `str(n)` for any integer. */
  function ToDecimal(n: int): (r: string) {
    if n < 0 then "-" + NatToDecimal(-n) else NatToDecimal(n)
  }

  lemma {:induction false} NatToDecimalValue(n: nat)
    ensures ValidDigits(NatToDecimal(n))
    ensures DigitsValue(NatToDecimal(n)) == n
    decreases n
  {
    var r := NatToDecimal(n);
    if n >= 10 {
      NatToDecimalValue(n / 10);
      var init := NatToDecimal(n / 10);
      assert r[..|r| - 1] == init;
    }
  }

  lemma StripNoSpace(s: string)
    requires s != [] && !IsSpace(s[0]) && !IsSpace(s[|s| - 1])
    ensures Strip(s) == s
  {
  }

  /** A digit run with nothing around it parses to its value. */
  lemma ParseDigits(d: string)
    requires ValidDigits(d)
    ensures ParseInt(d) == Some(DigitsValue(d))
  {
    StripNoSpace(d);
    assert !(d[0] == '-' || d[0] == '+');
  }

  /** A minus sign followed by a digit run parses to the negated value. */
  lemma ParseNegated(d: string)
    requires ValidDigits(d)
    ensures ParseInt("-" + d) == Some(-(DigitsValue(d) as int))
  {
    var s := "-" + d;
    assert s[0] == '-' && s[|s| - 1] == d[|d| - 1];
    StripNoSpace(s);
    assert Strip(s)[1..] == d;
  }

  /** `int(str(n)) == n`: the decimal rendering of every integer parses
      back to that integer. */
  lemma {:induction false} ParseIntToDecimal(n: int)
    ensures ParseInt(ToDecimal(n)) == Some(n)
  {
    var m: nat := if n < 0 then -n else n;
    NatToDecimalValue(m);
    if n < 0 {
      ParseNegated(NatToDecimal(m));
    } else {
      ParseDigits(NatToDecimal(m));
    }
  }
}
