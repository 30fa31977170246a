/** The JavaScript values a parsed response body can hold, and the two
    operations the scenario applies to them: property access (which throws
    on `undefined` and `null`) and strict equality (`t.equals`). */
module Json {
  import opened Wrappers

  datatype Value =
    | Undefined
    | Null
    | Bool(b: bool)
    | Num(n: int)
    | Str(s: string)
    | Arr(items: seq<Value>)
    | Obj(fields: map<string, Value>)

  /** A property name (`.resourceType`) or an index (`[0]`). */
  datatype Key = Name(name: string) | At(index: nat)

  predicate IsDigit(c: char) {
    '0' <= c <= '9'
  }

  function Digit(d: nat): (c: char)
    requires d < 10
    ensures IsDigit(c)
  {
    ('0' as int + d) as char
  }

  /** `String(n)` for a non-negative integer: its decimal digits, no leading zero. */
  function NatToString(n: nat): (s: string)
    ensures |s| > 0 && IsDigit(s[0]) && forall k :: 0 <= k < |s| ==> IsDigit(s[k])
    ensures s[0] == '0' ==> s == "0"
    decreases n
  {
    if n < 10 then [Digit(n)] else NatToString(n / 10) + [Digit(n % 10)]
  }

  function DigitValue(c: char): (d: nat)
    requires IsDigit(c)
    ensures d < 10 && Digit(d) == c
  {
    c as int - '0' as int
  }

  /** The number a string of decimal digits denotes. */
  function DigitsValue(s: string): (r: nat)
    requires forall k :: 0 <= k < |s| ==> IsDigit(s[k])
    decreases |s|
  {
    if s == [] then 0
    else DigitsValue(s[..|s| - 1]) * 10 + DigitValue(s[|s| - 1])
  }

  /** Whether a property name is an array index: a canonical decimal
      numeral, so `"3"` is one and `"03"`, `"3a"` and `""` are not. */
  function ParseIndex(s: string): (r: Option<nat>)
    ensures r.Some? ==> s == NatToString(r.value)
  {
    if |s| == 0 || !IsDigit(s[0]) || (s[0] == '0' && |s| > 1) then None
    else if forall k :: 0 <= k < |s| ==> IsDigit(s[k]) then
      NumeralRoundTrip(s);
      Some(DigitsValue(s))
    else None
  }

  /** A canonical numeral is the decimal form of the number it denotes. */
  lemma {:induction false} NumeralRoundTrip(s: string)
    requires |s| > 0 && forall k :: 0 <= k < |s| ==> IsDigit(s[k])
    requires s[0] == '0' ==> |s| == 1
    ensures NatToString(DigitsValue(s)) == s
    decreases |s|
  {
    var front := s[..|s| - 1];
    var d := DigitValue(s[|s| - 1]);
    if |s| == 1 {
      assert DigitsValue(s) == d by { assert front == []; }
    } else {
      assert front[0] == s[0];
      NumeralRoundTrip(front);
      var m := DigitsValue(front);
      assert m > 0;
      assert DigitsValue(s) == m * 10 + d;
      assert (m * 10 + d) / 10 == m && (m * 10 + d) % 10 == d;
      assert s == front + [s[|s| - 1]];
    }
  }

  /** The decimal form of `n` reads back as the index `n`. */
  lemma {:induction false} IndexRoundTrip(n: nat)
    ensures ParseIndex(NatToString(n)) == Some(n)
    decreases n
  {
    var s := NatToString(n);
    if n >= 10 {
      IndexRoundTrip(n / 10);
      assert s[..|s| - 1] == NatToString(n / 10);
      assert s[|s| - 1] == Digit(n % 10);
    }
    assert DigitsValue(s) == n;
  }

  /** The property name a key denotes: an index is converted to its decimal form. */
  function PropertyName(k: Key): (r: string) {
    match k
    case Name(n) => n
    case At(i) => NatToString(i)
  }

  /** The array index a key denotes, if any. */
  function ArrayIndex(k: Key): (r: Option<nat>) {
    match k
    case Name(n) => ParseIndex(n)
    case At(i) => Some(i)
  }

  /** `v.k` / `v[i]`; `None` is the TypeError thrown when `v` is `undefined` or
      `null`. An object's properties are named by strings, so `o[0]` reads
      `o["0"]`; an array's or a string's elements are named by indices, so
      `a["0"]` reads `a[0]`. */
  function Lookup(v: Value, k: Key): (r: Option<Value>)
    ensures r.None? <==> v.Undefined? || v.Null?
  {
    match v
    case Undefined => None
    case Null => None
    case Obj(f) =>
      Some(if PropertyName(k) in f then f[PropertyName(k)] else Undefined)
    case Arr(items) =>
      Some(
        if ArrayIndex(k).Some? && ArrayIndex(k).value < |items| then items[ArrayIndex(k).value]
        else if k == Name("length") then Num(|items|)
        else Undefined)
    case Str(s) =>
      Some(
        if ArrayIndex(k).Some? && ArrayIndex(k).value < |s| then Str([s[ArrayIndex(k).value]])
        else if k == Name("length") then Num(|s|)
        else Undefined)
    case _ => Some(Undefined)
  }

  /** `v[i]` and `v["i"]` read the same thing, whatever `v` is. */
  lemma IndexAsName(v: Value, i: nat)
    ensures Lookup(v, At(i)) == Lookup(v, Name(NatToString(i)))
  {
    IndexRoundTrip(i);
  }

  /** `v.k1.k2...kn`, throwing at the first step whose receiver is `undefined` or `null`. */
  function Path(v: Value, ks: seq<Key>): (r: Option<Value>)
    decreases |ks|
  {
    if ks == [] then Some(v)
    else
      var w := Lookup(v, ks[0]);
      if w.None? then None else Path(w.value, ks[1..])
  }

  predicate IsPrimitive(v: Value) {
    !v.Arr? && !v.Obj?
  }

  /** `a === b` where `b` is one of the primitive expectations the scenario
      compares against: a parsed array or object is never identical to it. */
  predicate StrictEquals(a: Value, b: Value) {
    IsPrimitive(a) && a == b
  }

  /** `for (const e of v)`: arrays yield their items, strings their characters;
      anything else throws. */
  function Iterate(v: Value): (r: Option<seq<Value>>)
    ensures v.Arr? ==> r == Some(v.items)
    ensures r.Some? ==> v.Arr? || v.Str?
  {
    match v
    case Arr(items) => Some(items)
    case Str(s) => Some(seq(|s|, i requires 0 <= i < |s| => Str([s[i]])))
    case _ => None
  }

  /** Reading along `a + b` is reading along `a`, then along `b`. */
  lemma {:induction false} PathConcat(v: Value, a: seq<Key>, b: seq<Key>)
    ensures Path(v, a + b) == if Path(v, a).None? then None else Path(Path(v, a).value, b)
    decreases |a|
  {
    if a == [] {
      assert a + b == b;
    } else {
      assert (a + b)[0] == a[0];
      assert (a + b)[1..] == a[1..] + b;
      var w := Lookup(v, a[0]);
      if w.Some? {
        PathConcat(w.value, a[1..], b);
      }
    }
  }
}
