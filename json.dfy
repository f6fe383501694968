/** Parsed JSON values, and the few pieces of JavaScript value semantics that the
    protocol code relies on: truthiness (`a || b`), property access on a parsed
    body, and conversion to text (`${v}`, `n.toString()`).

    JSON numbers are modelled as integers: every number the modelled operations
    exchange (counts, sizes, epoch seconds) is integral. */
module JsonValues {
  import opened Results

  datatype Json =
    | Null
    | Bool(b: bool)
    | Num(n: int)
    | Str(s: string)
    | Arr(items: seq<Json>)
    | Obj(fields: map<string, Json>)

  /** The JavaScript TypeError a protocol step can throw: reading a property of
      `null`, or calling a string method on a value that is not a string. */
  datatype TypeError = NullPropertyRead | NotAString

  /** JavaScript truthiness of a parsed JSON value. */
  predicate Truthy(j: Json) {
    match j
    case Null => false
    case Bool(b) => b
    case Num(n) => n != 0
    case Str(s) => s != ""
    case Arr(_) => true
    case Obj(_) => true
  }

  /** `a || b`: the first operand when it is truthy, otherwise the second. */
  function Or(a: Json, b: Json): (r: Json)
    ensures Truthy(r) <==> Truthy(a) || Truthy(b)
    ensures r == a || r == b
  {
    if Truthy(a) then a else b
  }

  /** Property access `data.key` on a parsed body: `None` stands for `undefined`.
      Only objects have properties here. */
  function Get(data: Json, key: string): (r: Option<Json>)
    ensures r.Some? <==> data.Obj? && key in data.fields
    ensures r.Some? ==> r.value == data.fields[key]
  {
    if data.Obj? && key in data.fields then Some(data.fields[key]) else None
  }

  /** `data.key` where `undefined` only feeds an `||` chain: both `undefined`
      and `null` are falsy and are never the value of a chain that has a later operand,
      so `undefined` may be read as `null` there. */
  function GetOrNull(data: Json, key: string): Json {
    Get(data, key).GetOr(Null)
  }

  predicate IsDigit(c: char) {
    '0' <= c <= '9'
  }

  function DigitChar(d: nat): (c: char)
    requires d < 10
    ensures IsDigit(c)
  {
    "0123456789"[d]
  }

  function DigitValue(c: char): (d: nat)
    requires IsDigit(c)
    ensures d < 10
  {
    (c as int - '0' as int) as nat
  }

  /** Decimal digits of a natural number, most significant first, no leading zeros. */
  function Digits(n: nat): (s: string)
    ensures |s| > 0
    ensures forall i :: 0 <= i < |s| ==> IsDigit(s[i])
    ensures |s| > 1 ==> s[0] != '0'
    decreases n
  {
    if n < 10 then [DigitChar(n)] else Digits(n / 10) + [DigitChar(n % 10)]
  }

  /** The value of a string of decimal digits. */
  function ParseDigits(s: string): (n: nat)
    requires forall i :: 0 <= i < |s| ==> IsDigit(s[i])
    decreases |s|
  {
    if s == [] then 0 else ParseDigits(s[..|s| - 1]) * 10 + DigitValue(s[|s| - 1])
  }

  lemma DigitRoundTrip(d: nat)
    requires d < 10
    ensures DigitValue(DigitChar(d)) == d
  {
    var t := "0123456789";
    assert t[0] == '0' && t[1] == '1' && t[2] == '2' && t[3] == '3' && t[4] == '4';
    assert t[5] == '5' && t[6] == '6' && t[7] == '7' && t[8] == '8' && t[9] == '9';
  }

  /** Reading the digits back gives the number: `Digits` loses nothing. */
  lemma {:induction false} DigitsRoundTrip(n: nat)
    ensures ParseDigits(Digits(n)) == n
    decreases n
  {
    if n < 10 {
      DigitRoundTrip(n);
    } else {
      DigitsRoundTrip(n / 10);
      DigitRoundTrip(n % 10);
      var s := Digits(n);
      assert s[..|s| - 1] == Digits(n / 10);
    }
  }

  /** What `toString` of an integral number looks like: an optional minus sign and
      at least one decimal digit. */
  predicate IsIntText(s: string) {
    && |s| > 0
    && (s[0] == '-' ==> |s| > 1)
    && forall i :: (if s[0] == '-' then 1 else 0) <= i < |s| ==> IsDigit(s[i])
  }

  /** `n.toString()` for an integral JavaScript number. */
  function IntToString(n: int): (s: string)
    ensures IsIntText(s)
    ensures (s[0] == '-') <==> n < 0
  {
    if n < 0 then
      var d := Digits(-n);
      assert forall i :: 1 <= i < |d| + 1 ==> ("-" + d)[i] == d[i - 1];
      "-" + d
    else Digits(n)
  }

  /** The integer a `toString` result denotes, the inverse of IntToString. */
  function ParseInt(s: string): int
    requires IsIntText(s)
  {
    if s[0] == '-' then -(ParseDigits(s[1..]) as int) else ParseDigits(s)
  }

  lemma IntToStringRoundTrip(n: int)
    ensures ParseInt(IntToString(n)) == n
  {
    if n < 0 {
      NegativeRoundTrip(n);
    } else {
      DigitsRoundTrip(n);
    }
  }

  /** The negative case of `IntToStringRoundTrip`: the sign, then the digits of `-n`. */
  lemma NegativeRoundTrip(n: int)
    requires n < 0
    ensures ParseInt(IntToString(n)) == n
  {
    DigitsRoundTrip(-n);
    SignedDigits(Digits(-n));
  }

  /** A minus sign before digits negates their value. */
  lemma SignedDigits(d: string)
    requires |d| > 0 && forall i :: 0 <= i < |d| ==> IsDigit(d[i])
    ensures IsIntText("-" + d) && ParseInt("-" + d) == -(ParseDigits(d) as int)
  {
    var s := "-" + d;
    assert s[1..] == d;
    assert forall i :: 1 <= i < |s| ==> s[i] == d[i - 1];
  }

  /** Template-literal conversion `${v}` of a parsed JSON value: arrays join their
      elements with "," (null elements give the empty string), plain objects print
      as "[object Object]". */
  function JsText(j: Json): (s: string)
    decreases j, 1, 0
  {
    match j
    case Null => "null"
    case Bool(b) => if b then "true" else "false"
    case Num(n) => IntToString(n)
    case Str(s) => s
    case Arr(items) => JoinItems(j, 0)
    case Obj(_) => "[object Object]"
  }

  /** `items.slice(i).join(",")` for the items of the array `a`. */
  function JoinItems(a: Json, i: nat): string
    requires a.Arr? && i <= |a.items|
    decreases a, 0, |a.items| - i
  {
    if i == |a.items| then ""
    else
      var head := if a.items[i] == Null then "" else JsText(a.items[i]);
      if i + 1 == |a.items| then head else head + "," + JoinItems(a, i + 1)
  }
}
