/** The shared helpers of the tools' pages: Australian Business Number and
    phone number checks, the e-mail shape rule, pass/warn/fail
    classification against thresholds, relative-time wording and
    emptiness of a value. */
module Utils {
  import opened Wrappers
  import opened Strings
  import opened JsValues

  // ---------------------------------------------------------------------
  // ABN
  // ---------------------------------------------------------------------

  /** The Australian Business Register's weights for the eleven digits. */
  const AbnWeights: seq<int> := [10, 1, 3, 5, 7, 9, 11, 13, 15, 17, 19]

  /** JavaScript's `%` for a positive divisor: the remainder takes the
      sign of the dividend, so a negative non-multiple gives a negative
      remainder. */
  function JsRem(a: int, b: int): (r: int)
    requires b > 0
    ensures r == 0 <==> a % b == 0
    ensures -b < r < b && (a >= 0 ==> r >= 0) && (a <= 0 ==> r <= 0)
  {
    if a >= 0 || a % b == 0 then a % b else a % b - b
  }

  /** The weighted checksum of eleven digits, with one taken off the first
      digit, written out term by term. */
  function AbnChecksum(d: string): int
    requires |d| == 11 && AllDigits(d)
  {
    (DigitValue(d[0]) - 1) * 10 + DigitValue(d[1]) * 1 + DigitValue(d[2]) * 3 +
    DigitValue(d[3]) * 5 + DigitValue(d[4]) * 7 + DigitValue(d[5]) * 9 +
    DigitValue(d[6]) * 11 + DigitValue(d[7]) * 13 + DigitValue(d[8]) * 15 +
    DigitValue(d[9]) * 17 + DigitValue(d[10]) * 19
  }

  /** A valid ABN: exactly eleven digits once everything else is dropped,
      and a checksum divisible by 89. */
  predicate AbnValid(abn: string) {
    var d := Digits(abn);
    |d| == 11 && AbnChecksum(d) % 89 == 0
  }

  /** The sum the checking loop has built after its first `n` digits. */
  function PartialSum(d: string, n: nat): int
    requires n <= |d| && n <= 11 && AllDigits(d)
  {
    if n == 0 then 0
    else PartialSum(d, n - 1) + (if n - 1 == 0 then DigitValue(d[0]) - 1 else DigitValue(d[n - 1])) * AbnWeights[n - 1]
  }

  lemma {:induction false} PartialSumChecksum(d: string)
    requires |d| == 11 && AllDigits(d)
    ensures PartialSum(d, 11) == AbnChecksum(d)
  {
    var v := seq(11, i requires 0 <= i < 11 => DigitValue(d[i]));
    assert PartialSum(d, 1) == (v[0] - 1) * 10;
    assert PartialSum(d, 2) == PartialSum(d, 1) + v[1];
    assert PartialSum(d, 3) == PartialSum(d, 2) + v[2] * 3;
    assert PartialSum(d, 4) == PartialSum(d, 3) + v[3] * 5;
    assert PartialSum(d, 5) == PartialSum(d, 4) + v[4] * 7;
    assert PartialSum(d, 6) == PartialSum(d, 5) + v[5] * 9;
    assert PartialSum(d, 7) == PartialSum(d, 6) + v[6] * 11;
    assert PartialSum(d, 8) == PartialSum(d, 7) + v[7] * 13;
    assert PartialSum(d, 9) == PartialSum(d, 8) + v[8] * 15;
    assert PartialSum(d, 10) == PartialSum(d, 9) + v[9] * 17;
  }

  /** `isValidABN(abn)`. */
  method IsValidAbn(abn: string) returns (valid: bool)
    ensures valid <==> AbnValid(abn)
  {
    var cleaned := Digits(abn);
    if |cleaned| != 11 {
      return false;
    }
    var sum := 0;
    for i := 0 to 11
      invariant sum == PartialSum(cleaned, i)
    {
      var digit := DigitValue(cleaned[i]);
      sum := sum + (if i == 0 then digit - 1 else digit) * AbnWeights[i];
    }
    PartialSumChecksum(cleaned);
    valid := JsRem(sum, 89) == 0;
  }

  /** Spaces, dashes or any other non-digits inserted anywhere do not change
      whether a string is a valid ABN. */
  lemma {:induction false} AbnIgnoresSeparators(s: string, i: nat, junk: string)
    requires i <= |s|
    requires forall j :: 0 <= j < |junk| ==> !IsDigit(junk[j])
    ensures AbnValid(s[..i] + junk + s[i..]) <==> AbnValid(s)
  {
    DigitsIgnoreInsertion(s, i, junk);
  }

  /** A number with anything other than eleven digits is never valid. */
  lemma {:induction false} AbnNeedsElevenDigits(abn: string)
    requires |Digits(abn)| != 11
    ensures !AbnValid(abn)
  {
  }

  /** The Register's published example, 51 824 753 556, is valid: its
      checksum is 534 = 6 * 89. */
  lemma {:induction false} AbnExample()
    ensures AbnValid("51824753556")
  {
    var s := "51824753556";
    assert AllDigits(s) by {
      forall i | 0 <= i < |s|
        ensures IsDigit(s[i])
      {
      }
    }
    DigitsOfDigitString(s);
    ExampleChecksum(s);
    var d := Digits(s);
    assert d == s && |d| == 11;
    ExampleRemainder(AbnChecksum(d));
  }

  lemma {:induction false} ExampleRemainder(x: int)
    requires x == 534
    ensures x % 89 == 0
  {
  }

  lemma {:induction false} ExampleChecksum(s: string)
    requires s == "51824753556"
    ensures AllDigits(s) && AbnChecksum(s) == 534
  {
    forall i | 0 <= i < |s|
      ensures IsDigit(s[i])
    {
    }
    assert s[0] == '5' && s[1] == '1' && s[2] == '8' && s[3] == '2' && s[4] == '4' && s[5] == '7' &&
      s[6] == '5' && s[7] == '3' && s[8] == '5' && s[9] == '5' && s[10] == '6';
  }

  lemma {:induction false} DigitsOfDigitString(s: string)
    requires AllDigits(s)
    ensures Digits(s) == s
  {
    if |s| > 0 {
      DigitsOfDigitString(s[1..]);
      assert [s[0]] + s[1..] == s;
    }
  }

  // ---------------------------------------------------------------------
  // Phone
  // ---------------------------------------------------------------------

  /** How many characters of `s` are digits. */
  function CountDigits(s: string): nat {
    if |s| == 0 then 0 else CountDigits(s[..|s| - 1]) + (if IsDigit(s[|s| - 1]) then 1 else 0)
  }

  /** `isValidPhone(phone)`: between 8 and 12 digits once non-digits are
      dropped. */
  function IsValidPhone(phone: string): (ok: bool)
    ensures ok <==> 8 <= CountDigits(phone) <= 12
  {
    DigitsCount(phone);
    var cleaned := Digits(phone);
    8 <= |cleaned| && |cleaned| <= 12
  }

  lemma {:induction false} DigitsCount(s: string)
    ensures |Digits(s)| == CountDigits(s)
  {
    if |s| > 0 {
      var init, last := s[..|s| - 1], s[|s| - 1];
      DigitsCount(init);
      assert s == init + [last];
      DigitsAppend(init, [last]);
    }
  }

  /** Inserting separators never changes whether a phone number is valid. */
  lemma {:induction false} PhoneIgnoresSeparators(s: string, i: nat, junk: string)
    requires i <= |s|
    requires forall j :: 0 <= j < |junk| ==> !IsDigit(junk[j])
    ensures IsValidPhone(s[..i] + junk + s[i..]) <==> IsValidPhone(s)
  {
    DigitsIgnoreInsertion(s, i, junk);
    DigitsCount(s);
    DigitsCount(s[..i] + junk + s[i..]);
  }

  // ---------------------------------------------------------------------
  // E-mail
  // ---------------------------------------------------------------------

  /** A run of the class `[^\s@]`: no white space and no `@`. */
  predicate Plain(t: string) {
    forall k :: 0 <= k < |t| ==> !IsSpace(t[k]) && t[k] != '@'
  }

  /** What the tail `[^\s@]+\.[^\s@]+$` matches. */
  predicate DomainMatches(d: string) {
    exists j :: 0 < j < |d| - 1 && d[j] == '.' && Plain(d[..j]) && Plain(d[j + 1..])
  }

  /** `isValidEmail(email)`: `/^[^\s@]+@[^\s@]+\.[^\s@]+$/.test(email)`,
      written as the regular expression's split points. */
  predicate IsValidEmail(email: string): (ok: bool)
    ensures ok ==> |email| >= 5 && '@' in email
  {
    exists i :: 0 < i < |email| && email[i] == '@' && Plain(email[..i]) && DomainMatches(email[i + 1..])
  }

  predicate NoSpace(s: string) {
    forall k :: 0 <= k < |s| ==> !IsSpace(s[k])
  }

  /** The shape the rule asks for: no white space; exactly one `@`, with
      something before it; after it, a `.` with something on both sides. */
  predicate EmailShape(s: string) {
    NoSpace(s) &&
    exists i :: 0 < i < |s| && s[i] == '@' && Free(s[..i], '@') && Free(s[i + 1..], '@') &&
      exists j :: i + 1 < j < |s| - 1 && s[j] == '.'
  }

  lemma {:induction false} EmailMatchIsShape(s: string)
    requires IsValidEmail(s)
    ensures EmailShape(s)
  {
    var i :| 0 < i < |s| && s[i] == '@' && Plain(s[..i]) && DomainMatches(s[i + 1..]);
    var local, d := s[..i], s[i + 1..];
    var j :| 0 < j < |d| - 1 && d[j] == '.' && Plain(d[..j]) && Plain(d[j + 1..]);
    PlainAround(d, j);
    forall k | 0 <= k < |s|
      ensures !IsSpace(s[k])
    {
      if k < i {
        assert s[k] == local[k];
      } else if k > i {
        assert s[k] == d[k - i - 1];
      }
    }
    assert Free(local, '@') && Free(d, '@');
    assert s[i + 1 + j] == d[j];
  }

  /** A string that is plain on both sides of a `.` is plain. */
  lemma {:induction false} PlainAround(d: string, j: nat)
    requires j < |d| && d[j] == '.' && Plain(d[..j]) && Plain(d[j + 1..])
    ensures Plain(d)
  {
    var head, tail := d[..j], d[j + 1..];
    forall k | 0 <= k < |d|
      ensures !IsSpace(d[k]) && d[k] != '@'
    {
      if k < j {
        assert d[k] == head[k];
      } else if k > j {
        assert d[k] == tail[k - j - 1];
      }
    }
  }

  /** Every slice of a plain string is plain. */
  lemma {:induction false} PlainSlice(t: string, lo: nat, hi: nat)
    requires lo <= hi <= |t| && Plain(t)
    ensures Plain(t[lo..hi])
  {
    var u := t[lo..hi];
    forall k | 0 <= k < |u|
      ensures !IsSpace(u[k]) && u[k] != '@'
    {
      assert u[k] == t[lo + k];
    }
  }

  lemma {:induction false} EmailShapeMatches(s: string)
    requires EmailShape(s)
    ensures IsValidEmail(s)
  {
    var i :| 0 < i < |s| && s[i] == '@' && Free(s[..i], '@') && Free(s[i + 1..], '@') &&
      exists j :: i + 1 < j < |s| - 1 && s[j] == '.';
    var j :| i + 1 < j < |s| - 1 && s[j] == '.';
    var local, d := s[..i], s[i + 1..];
    assert Plain(local) by {
      forall k | 0 <= k < |local|
        ensures !IsSpace(local[k]) && local[k] != '@'
      {
        assert local[k] == s[k];
      }
    }
    assert Plain(d) by {
      forall k | 0 <= k < |d|
        ensures !IsSpace(d[k]) && d[k] != '@'
      {
        assert d[k] == s[i + 1 + k];
      }
    }
    var jd := j - i - 1;
    assert d[jd] == '.';
    PlainSlice(d, 0, jd);
    PlainSlice(d, jd + 1, |d|);
    assert d[jd + 1..|d|] == d[jd + 1..];
    assert DomainMatches(d);
  }

  /** The regular expression accepts exactly the strings of that shape. */
  lemma {:induction false} EmailRule(s: string)
    ensures IsValidEmail(s) <==> EmailShape(s)
  {
    if IsValidEmail(s) {
      EmailMatchIsShape(s);
    }
    if EmailShape(s) {
      EmailShapeMatches(s);
    }
  }

  // ---------------------------------------------------------------------
  // Thresholds
  // ---------------------------------------------------------------------

  /** `'pass'`, `'warn'` or `'fail'`. */
  datatype Status = Pass | Warn | Fail

  /** `getStatus(value, passThreshold, warnThreshold, isHigherBetter)`. */
  function GetStatus(value: real, passThreshold: real, warnThreshold: real, higherIsBetter: bool): (s: Status)
    ensures s == Pass <==> if higherIsBetter then value >= passThreshold else value <= passThreshold
    ensures s == Fail ==>
      if higherIsBetter then value < passThreshold && value < warnThreshold
      else value > passThreshold && value > warnThreshold
    ensures passThreshold == warnThreshold ==> s != Warn
  {
    if higherIsBetter then
      if value >= passThreshold then Pass else if value >= warnThreshold then Warn else Fail
    else
      if value <= passThreshold then Pass else if value <= warnThreshold then Warn else Fail
  }

  /** How good a status is: `Fail` < `Warn` < `Pass`. */
  function Rank(s: Status): nat {
    match s
    case Fail => 0
    case Warn => 1
    case Pass => 2
  }

  /** Higher-is-better: pass at or above the pass threshold; otherwise warn
      at or above the warn threshold; otherwise fail. */
  lemma {:induction false} StatusHigherIsBetter(value: real, pass: real, warn: real)
    ensures GetStatus(value, pass, warn, true) == Pass <==> value >= pass
    ensures GetStatus(value, pass, warn, true) == Warn <==> value < pass && value >= warn
    ensures GetStatus(value, pass, warn, true) == Fail <==> value < pass && value < warn
  {
  }

  /** Lower-is-better is the mirror image: negating the value and both
      thresholds turns it into higher-is-better. */
  lemma {:induction false} StatusMirror(value: real, pass: real, warn: real)
    ensures GetStatus(value, pass, warn, false) == GetStatus(-value, -pass, -warn, true)
  {
  }

  /** With higher-is-better, a larger value never gets a worse status. */
  lemma {:induction false} StatusMonotone(v1: real, v2: real, pass: real, warn: real)
    requires v1 <= v2
    ensures Rank(GetStatus(v1, pass, warn, true)) <= Rank(GetStatus(v2, pass, warn, true))
  {
  }

  // ---------------------------------------------------------------------
  // Relative time
  // ---------------------------------------------------------------------

  /** The units `timeAgo` tries, longest first, with their lengths in seconds. */
  const Intervals: seq<(string, nat)> := [
    ("year", 31536000), ("month", 2592000), ("week", 604800),
    ("day", 86400), ("hour", 3600), ("minute", 60)]

  /** The first unit at or after `from` that fits at least once. */
  function FirstUnit(seconds: int, from: nat): (r: Option<nat>)
    requires from <= |Intervals|
    ensures r.Some? ==> from <= r.value < |Intervals| && seconds / Intervals[r.value].1 >= 1
    decreases |Intervals| - from
  {
    if from == |Intervals| then None
    else if seconds / Intervals[from].1 >= 1 then Some(from)
    else FirstUnit(seconds, from + 1)
  }

  /** `"<n> <unit>[s] ago"`. */
  function Phrase(count: nat, unit: string): string {
    NatToString(count) + " " + unit + (if count > 1 then "s" else "") + " ago"
  }

  /** What `timeAgo` says for `seconds` elapsed. */
  function TimeAgoOf(seconds: int): string {
    match FirstUnit(seconds, 0)
    case None => "just now"
    case Some(k) =>
      Phrase(seconds / Intervals[k].1, Intervals[k].0)
  }

  /** `timeAgo(date)`, given the whole seconds elapsed since `date`. */
  method TimeAgo(seconds: int) returns (text: string)
    ensures text == TimeAgoOf(seconds)
  {
    for i := 0 to |Intervals|
      invariant FirstUnit(seconds, 0) == FirstUnit(seconds, i)
    {
      var (unit, secs) := Intervals[i];
      var interval := seconds / secs;
      if interval >= 1 {
        return NatToString(interval) + " " + unit + (if interval > 1 then "s" else "") + " ago";
      }
    }
    return "just now";
  }

  /** The unit chosen is the first, longest first, that fits at least once. */
  lemma {:induction false} FirstUnitSpec(seconds: int, from: nat, k: nat)
    requires from <= k < |Intervals|
    ensures FirstUnit(seconds, from) == Some(k) <==>
      seconds / Intervals[k].1 >= 1 && forall j :: from <= j < k ==> seconds / Intervals[j].1 < 1
    decreases k - from
  {
    if from < k {
      FirstUnitSpec(seconds, from + 1, k);
    }
  }

  /** No unit is chosen exactly when none fits even once. */
  lemma {:induction false} FirstUnitNone(seconds: int, from: nat)
    requires from <= |Intervals|
    ensures FirstUnit(seconds, from) == None <==> forall j :: from <= j < |Intervals| ==> seconds / Intervals[j].1 < 1
    decreases |Intervals| - from
  {
    if from < |Intervals| {
      FirstUnitNone(seconds, from + 1);
    }
  }

  /** `timeAgo` says "just now" exactly when less than a minute has passed. */
  lemma {:induction false} JustNow(seconds: int)
    ensures TimeAgoOf(seconds) == "just now" <==> seconds < 60
  {
    FirstUnitNone(seconds, 0);
    if seconds >= 60 {
      assert seconds / Intervals[5].1 >= 1;
      var k := FirstUnit(seconds, 0).value;
      var n := seconds / Intervals[k].1;
      assert TimeAgoOf(seconds)[0] == NatToString(n)[0];
    }
  }

  /** Once a minute has passed, the wording is the count of the first unit
      that fits, the unit, and the plural `s` exactly when the count is more
      than one. */
  lemma {:induction false} TimeAgoWording(seconds: int, k: nat)
    requires k < |Intervals|
    requires seconds / Intervals[k].1 >= 1
    requires forall j :: 0 <= j < k ==> seconds / Intervals[j].1 < 1
    ensures TimeAgoOf(seconds) ==
      NatToString(seconds / Intervals[k].1) + " " + Intervals[k].0 +
      (if seconds / Intervals[k].1 > 1 then "s" else "") + " ago"
  {
    FirstUnitSpec(seconds, 0, k);
  }

  /** Half a minute is "just now"; one and two hours are worded with the
      count and the singular or plural unit. */
  lemma {:induction false} TimeAgoHalfMinute()
    ensures TimeAgoOf(30) == "just now"
  {
    JustNow(30);
  }

  lemma {:induction false} TimeAgoOneHour()
    ensures TimeAgoOf(3600) == "1 hour ago"
  {
    TimeAgoWording(3600, 4);
    assert NatToString(1) == "1";
  }

  lemma {:induction false} TimeAgoTwoHours()
    ensures TimeAgoOf(7200) == "2 hours ago"
  {
    TimeAgoWording(7200, 4);
    assert NatToString(2) == "2";
  }

  // ---------------------------------------------------------------------
  // Emptiness
  // ---------------------------------------------------------------------

  /** `isEmpty(obj)`. */
  predicate IsEmpty(v: Value): (r: bool)
    ensures !Truthy(v) ==> r
    ensures r ==> !Truthy(v) || v.Arr? || v.Obj?
  {
    if !Truthy(v) then true
    else if v.Arr? then |v.items| == 0
    else if v.Obj? then |v.props| == 0
    else false
  }

  /** Falsy values are empty, arrays and objects are empty exactly when they
      have no own properties, and every other truthy value is not empty. */
  lemma {:induction false} IsEmptyMeaning(v: Value)
    ensures !Truthy(v) ==> IsEmpty(v)
    ensures IsObject(v) ==> (IsEmpty(v) <==> OwnProps(v) == map[])
    ensures Truthy(v) && !IsObject(v) ==> !IsEmpty(v)
  {
    if v.Arr? && |v.items| > 0 {
      assert NatToString(0) in OwnProps(v);
    }
  }
}
