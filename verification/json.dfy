/** The JSON-like values the path engine walks, and the pieces of JavaScript
    semantics over them that the engine relies on: truthiness, the string
    form of numbers, canonical array indices and `String(v)`. */
module Json {
  import opened Wrappers

  /** A value of a parsed JSON document. `undefined` is not a value: it is
      `Option.None` wherever a value may be missing. Numbers are integers. */
  datatype Value =
    | Null
    | Bool(b: bool)
    | Num(n: int)
    | Str(s: string)
    | Arr(items: seq<Value>)
    | Obj(fields: map<string, Value>)

  /** JavaScript falsiness on this value type: `null`, `false`, `0` and `""`. */
  predicate Falsy(v: Value) {
    match v
    case Null => true
    case Bool(b) => !b
    case Num(n) => n == 0
    case Str(s) => s == ""
    case Arr(_) => false
    case Obj(_) => false
  }

  /** `!!x` for a possibly-undefined value: `undefined` is falsy. */
  predicate Truthy(v: Option<Value>) {
    v.Some? && !Falsy(v.value)
  }

  /** Exactly four values are falsy, and `undefined` is falsy as well. */
  lemma FalsyValues(v: Value, u: Option<Value>)
    ensures Falsy(v) <==> v in {Null, Bool(false), Num(0), Str("")}
    ensures !Truthy(u) <==> u == None || u.value in {Null, Bool(false), Num(0), Str("")}
  {
  }

  predicate IsDigit(c: char) {
    '0' <= c <= '9'
  }

  function DigitOf(c: char): (d: nat)
    requires IsDigit(c)
    ensures d < 10
  {
    c as int - '0' as int
  }

  function DigitChar(d: nat): (c: char)
    requires d < 10
    ensures IsDigit(c) && DigitOf(c) == d
  {
    ('0' as int + d) as char
  }

  /** The number a string of decimal digits denotes. */
  function DigitsValue(s: string): nat
    requires forall i :: 0 <= i < |s| ==> IsDigit(s[i])
    decreases |s|
  {
    if |s| == 0 then 0
    else DigitsValue(s[..|s| - 1]) * 10 + DigitOf(s[|s| - 1])
  }

  /** Decimal digits without a superfluous leading zero: the only form in
      which JavaScript prints a non-negative integer. */
  predicate CanonicalDigits(s: string) {
    && |s| > 0
    && (forall i :: 0 <= i < |s| ==> IsDigit(s[i]))
    && (s[0] == '0' ==> |s| == 1)
  }

  /** The decimal string of a natural number, as `String(n)` prints it. */
  function NatToString(n: nat): (r: string)
    ensures CanonicalDigits(r)
    ensures DigitsValue(r) == n
    decreases n
  {
    if n < 10 then [DigitChar(n)]
    else
      var r := NatToString(n / 10) + [DigitChar(n % 10)];
      assert r[..|r| - 1] == NatToString(n / 10);
      r
  }

  /** The decimal string of an integer: a minus sign before a negative one. */
  function IntToString(n: int): (r: string)
    ensures n >= 0 ==> CanonicalDigits(r) && DigitsValue(r) == n
    ensures n < 0 ==> |r| > 1 && r[0] == '-' && CanonicalDigits(r[1..]) && DigitsValue(r[1..]) == -n
  {
    if n < 0 then "-" + NatToString(-n) else NatToString(n)
  }

  /** The largest array index plus one: JavaScript array indices are below 2^32 - 1. */
  const MaxArrayIndex: nat := 0xFFFF_FFFF

  /** The index an object key denotes when the key is an array index, that is,
      a canonical decimal string of a number below 2^32 - 1. */
  function ParseIndex(key: string): (r: Option<nat>)
    ensures r.Some? ==> r.value < MaxArrayIndex
  {
    if CanonicalDigits(key) && DigitsValue(key) < MaxArrayIndex then Some(DigitsValue(key))
    else None
  }

  /** A canonical digit string is the printed form of its own value. */
  lemma {:induction false} CanonicalDigitsRoundTrip(s: string)
    requires CanonicalDigits(s)
    ensures NatToString(DigitsValue(s)) == s
    decreases |s|
  {
    if |s| == 1 {
      assert DigitsValue(s) == DigitsValue(s[..0]) * 10 + DigitOf(s[0]);
    } else {
      var init := s[..|s| - 1];
      assert CanonicalDigits(init);
      CanonicalDigitsRoundTrip(init);
      var v := DigitsValue(init);
      var d := DigitOf(s[|s| - 1]);
      assert DigitsValue(s) == v * 10 + d;
      assert (v * 10 + d) / 10 == v && (v * 10 + d) % 10 == d;
      assert s == init + [s[|s| - 1]];
    }
  }

  /** Parsing an array index inverts printing it, in both directions. */
  lemma ParseIndexRoundTrip(n: nat, key: string)
    ensures n < MaxArrayIndex ==> ParseIndex(NatToString(n)) == Some(n)
    ensures ParseIndex(key) == Some(n) ==> NatToString(n) == key
  {
    if ParseIndex(key) == Some(n) {
      CanonicalDigitsRoundTrip(key);
    }
  }

  /** `String(v)`: how JavaScript converts a value to text. An array prints its
      elements joined by commas, with `null` elements printed as empty. */
  function Stringify(v: Value): string
    decreases v
  {
    match v
    case Null => "null"
    case Bool(b) => if b then "true" else "false"
    case Num(n) => IntToString(n)
    case Str(s) => s
    case Arr(items) =>
      JoinWithCommas(seq(|items|, i requires 0 <= i < |items| =>
        if items[i] == Null then "" else Stringify(items[i])))
    case Obj(_) => "[object Object]"
  }

  /** `String(n)` of a number is its decimal form; for an index below
      2^32 - 1 it is the very key that addresses that array element, and a
      string is printed as itself. */
  lemma StringifyNumber(n: int, s: string)
    ensures n >= 0 ==> CanonicalDigits(Stringify(Num(n))) && DigitsValue(Stringify(Num(n))) == n
    ensures n < 0 ==> Stringify(Num(n))[0] == '-' && DigitsValue(Stringify(Num(n))[1..]) == -n
    ensures 0 <= n < MaxArrayIndex ==> ParseIndex(Stringify(Num(n))) == Some(n)
    ensures Stringify(Str(s)) == s
  {
  }

  function JoinWithCommas(parts: seq<string>): string
    decreases |parts|
  {
    if |parts| == 0 then ""
    else if |parts| == 1 then parts[0]
    else parts[0] + "," + JoinWithCommas(parts[1..])
  }
}
