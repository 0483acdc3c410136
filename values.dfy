/** JavaScript values as the models see them: the JSON types plus `undefined`
    and `NaN`, JavaScript truthiness, `instanceof Object`, the own enumerable
    properties that spread (`{...v}`) and `for…in` visit, `parseFloat` and
    `Number.prototype.toFixed(4)`. */
module JsValues {
  import opened Strings

  /** A JavaScript value. Numbers are exact reals (no infinities, no -0);
      objects are maps from property names to values (property order is not
      kept). */
  datatype Value =
    | Undefined
    | Null
    | Bool(b: bool)
    | Num(x: real)
    | NaN
    | Str(s: string)
    | Arr(items: seq<Value>)
    | Obj(props: map<string, Value>)

  /** `Boolean(v)`. */
  predicate Truthy(v: Value) {
    match v
    case Bool(b) => b
    case Num(x) => x != 0.0
    case Str(s) => s != ""
    case Arr(_) => true
    case Obj(_) => true
    case _ => false
  }

  /** `v instanceof Object`: arrays and plain objects. */
  predicate IsObject(v: Value) {
    v.Arr? || v.Obj?
  }

  /** The own enumerable string-keyed properties of `v`: what `{...v}` copies
      and what `for (k in v)` with `hasOwnProperty` visits. Arrays expose
      their indices; primitives are taken to have none (the character indices
      of a string are not modelled). */
  function OwnProps(v: Value): (m: map<string, Value>)
    ensures v.Obj? ==> m == v.props
    ensures v.Arr? ==> forall i :: 0 <= i < |v.items| ==> NatToString(i) in m && m[NatToString(i)] == v.items[i]
    ensures !v.Obj? && !v.Arr? ==> m == map[]
  {
    match v
    case Obj(m) => m
    case Arr(a) => IndexMap(a)
    case _ => map[]
  }

  /** The index-keyed object an array spreads into. */
  function IndexMap(a: seq<Value>): (m: map<string, Value>)
    ensures forall i :: 0 <= i < |a| ==> NatToString(i) in m && m[NatToString(i)] == a[i]
    ensures forall k :: k in m ==> exists i :: 0 <= i < |a| && k == NatToString(i)
  {
    NatToStringInjectiveAll();
    map i | 0 <= i < |a| :: NatToString(i) := a[i]
  }

  lemma {:induction false} NatToStringInjectiveAll()
    ensures forall m: nat, n: nat :: NatToString(m) == NatToString(n) ==> m == n
  {
    forall m: nat, n: nat | NatToString(m) == NatToString(n)
      ensures m == n
    {
      NatToStringInjective(m, n);
    }
  }

  /** `{...a, ...b}`. */
  function Spread(a: Value, b: Value): (r: Value)
    ensures r.Obj? && r.props.Keys == OwnProps(a).Keys + OwnProps(b).Keys
    ensures forall k :: k in OwnProps(b) ==> r.props[k] == OwnProps(b)[k]
    ensures forall k :: k in OwnProps(a) && k !in OwnProps(b) ==> r.props[k] == OwnProps(a)[k]
  {
    Obj(OwnProps(a) + OwnProps(b))
  }

  /** The characters of the `\s` class of a JavaScript regular expression,
      which are also the characters `parseFloat` skips at the start. */
  predicate IsSpace(c: char) {
    var n := c as int;
    (0x09 <= n <= 0x0D) || n == 0x20 || n == 0xA0 || n == 0x1680 ||
    (0x2000 <= n <= 0x200A) || n == 0x2028 || n == 0x2029 || n == 0x202F ||
    n == 0x205F || n == 0x3000 || n == 0xFEFF
  }

  function TrimStart(s: string): (r: string)
    ensures |r| <= |s| && r == s[|s| - |r|..]
    ensures |r| > 0 ==> !IsSpace(r[0])
  {
    if |s| > 0 && IsSpace(s[0]) then TrimStart(s[1..]) else s
  }

  /** The longest prefix of `s` made of digits. */
  function DigitPrefix(s: string): (d: string)
    ensures AllDigits(d) && |d| <= |s| && d == s[..|d|]
    ensures |d| < |s| ==> !IsDigit(s[|d|])
  {
    if |s| > 0 && IsDigit(s[0]) then [s[0]] + DigitPrefix(s[1..]) else ""
  }

  /** Digits followed by a character that is not one form the digit prefix. */
  lemma {:induction false} DigitPrefixOf(d: string, rest: string)
    requires AllDigits(d)
    requires |rest| > 0 ==> !IsDigit(rest[0])
    ensures DigitPrefix(d + rest) == d
  {
    if |d| > 0 {
      assert (d + rest)[1..] == d[1..] + rest;
      DigitPrefixOf(d[1..], rest);
      assert [d[0]] + d[1..] == d;
    } else {
      assert d + rest == rest;
    }
  }

  function Pow10(n: nat): (p: nat)
    ensures p >= 1
  {
    if n == 0 then 1 else 10 * Pow10(n - 1)
  }

  /** `parseFloat(s)` for the forms `[+|-]digits[.digits]` and
      `[+|-].digits` after leading white space; the longest such prefix is
      read, and a string without one gives `NaN`. */
  function ParseFloat(s: string): (v: Value)
    ensures v.Num? || v.NaN?
  {
    var t := TrimStart(s);
    var u := Unsigned(t);
    var whole := DigitPrefix(u);
    var frac := FractionDigits(u[|whole|..]);
    if |whole| == 0 && |frac| == 0 then NaN
    else
      var magnitude := DecimalValue(whole, frac);
      Num(if |t| > 0 && t[0] == '-' then -magnitude else magnitude)
  }

  /** The text after a leading sign. */
  function Unsigned(t: string): string {
    if |t| > 0 && (t[0] == '-' || t[0] == '+') then t[1..] else t
  }

  /** The digits after a leading decimal point. */
  function FractionDigits(rest: string): (d: string)
    ensures AllDigits(d)
  {
    if |rest| > 0 && rest[0] == '.' then DigitPrefix(rest[1..]) else ""
  }

  /** The value of `whole.frac`. */
  function DecimalValue(whole: string, frac: string): real
    requires AllDigits(whole) && AllDigits(frac)
  {
    ParseDigits(whole) as real + ParseDigits(frac) as real / Pow10(|frac|) as real
  }

  /** A text that starts with an unsigned decimal — digits `s[..i]`, a point,
      digits `s[i + 1..j]`, then nothing or a character that is not a digit —
      is read as that decimal. */
  lemma {:induction false} ParseFloatDecimal(s: string, i: nat, j: nat)
    requires 0 < i < j <= |s| && s[i] == '.'
    requires AllDigits(s[..i]) && AllDigits(s[i + 1..j])
    requires j < |s| ==> !IsDigit(s[j])
    ensures ParseFloat(s) == Num(DecimalValue(s[..i], s[i + 1..j]))
  {
    assert !IsDigit(s[i]);
    LeadingDigits(s, i);
    assert s[i..][1..j - i] == s[i + 1..j];
    FractionOf(s[i..], j - i);
  }

  /** A text that starts with a digit is its own trimmed, unsigned text, and
      its digit prefix ends where the digits do. */
  lemma {:induction false} LeadingDigits(s: string, i: nat)
    requires 0 < i < |s| && AllDigits(s[..i]) && !IsDigit(s[i])
    ensures TrimStart(s) == s && Unsigned(s) == s && DigitPrefix(s) == s[..i]
  {
    assert IsDigit(s[..i][0]);
    assert s == s[..i] + s[i..];
    DigitPrefixOf(s[..i], s[i..]);
  }

  /** The fraction digits after a point run to the first character that is
      not a digit. */
  lemma {:induction false} FractionOf(rest: string, j: nat)
    requires 0 < j <= |rest| && rest[0] == '.' && AllDigits(rest[1..j])
    requires j < |rest| ==> !IsDigit(rest[j])
    ensures FractionDigits(rest) == rest[1..j]
  {
    var frac, tail := rest[1..j], rest[j..];
    assert rest[1..] == frac + tail;
    DigitPrefixOf(frac, tail);
  }

  /** `+x.toFixed(4)`: the nearest multiple of 1/10000, halves rounded away
      from zero. */
  function Round4(x: real): (r: real)
    ensures -0.00005 <= r - x <= 0.00005
    ensures x >= 0.0 ==> r >= 0.0
  {
    if x >= 0.0 then ((x * 10000.0 + 0.5).Floor as real) / 10000.0
    else -(((-x) * 10000.0 + 0.5).Floor as real) / 10000.0
  }

  /** `+(v * 100).toFixed(4)` for a number: a fraction as a percentage. */
  function Percent(v: Value): (p: Value)
    requires v.Num? || v.NaN?
    ensures p.Num? <==> v.Num?
    ensures v.Num? ==> -0.00005 <= p.x - v.x * 100.0 <= 0.00005
  {
    if v.Num? then Num(Round4(v.x * 100.0)) else NaN
  }

  // ---------------------------------------------------------------------
  // JSON round trip
  // ---------------------------------------------------------------------

  /** `JSON.parse(JSON.stringify(v))` for a value `stringify` can write:
      `NaN` becomes `null`, an `undefined` array element becomes `null` and
      an `undefined` property is dropped. */
  function Jsonify(v: Value): Value
    decreases v, 1
  {
    match v
    case NaN => Null
    case Arr(items) => Arr(seq(|items|, i requires 0 <= i < |items| => JsonifyElement(items[i])))
    case Obj(props) => Obj(map k | k in props && !props[k].Undefined? :: Jsonify(props[k]))
    case _ => v
  }

  function JsonifyElement(v: Value): Value
    decreases v, 2
  {
    if v.Undefined? then Null else Jsonify(v)
  }

  /** A value JSON represents exactly: no `NaN` and no `undefined` anywhere. */
  predicate JsonSafe(v: Value) {
    match v
    case Undefined => false
    case NaN => false
    case Arr(items) => forall i :: 0 <= i < |items| ==> JsonSafe(items[i])
    case Obj(props) => forall k :: k in props ==> JsonSafe(props[k])
    case _ => true
  }

  /** A JSON-safe value survives the round trip unchanged. */
  lemma {:induction false} JsonSafeRoundTrip(v: Value)
    requires JsonSafe(v)
    ensures Jsonify(v) == v
  {
    match v
    case Arr(items) =>
      forall i | 0 <= i < |items|
        ensures JsonifyElement(items[i]) == items[i]
      {
        JsonSafeRoundTrip(items[i]);
      }
    case Obj(props) =>
      forall k | k in props
        ensures Jsonify(props[k]) == props[k]
      {
        JsonSafeRoundTrip(props[k]);
      }
    case _ =>
  }

  /** What the round trip gives is JSON-safe, so a second round trip changes
      nothing. */
  lemma {:induction false} JsonifySafe(v: Value)
    requires !v.Undefined?
    ensures JsonSafe(Jsonify(v))
  {
    match v
    case Arr(items) =>
      forall i | 0 <= i < |items|
        ensures JsonSafe(JsonifyElement(items[i]))
      {
        if !items[i].Undefined? {
          JsonifySafe(items[i]);
        }
      }
    case Obj(props) =>
      forall k | k in props && !props[k].Undefined?
        ensures JsonSafe(Jsonify(props[k]))
      {
        JsonifySafe(props[k]);
      }
    case _ =>
  }

  lemma {:induction false} JsonifyIdempotent(v: Value)
    requires !v.Undefined?
    ensures Jsonify(Jsonify(v)) == Jsonify(v)
  {
    JsonifySafe(v);
    JsonSafeRoundTrip(Jsonify(v));
  }
}
