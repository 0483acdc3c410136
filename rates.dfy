/** The rate-snapshot transformation of the bank rate fetcher: turning one
    product payload of the Australian Consumer Data Standards banking API
    (`GET /banking/products/{productId}`) into flat rate entries, and reducing
    those entries to the nested quick-lookup summary. */
module Rates {
  import opened Wrappers
  import opened Strings
  import opened JsValues

  // ---------------------------------------------------------------------
  // The payload, as far as the fetcher reads it
  // ---------------------------------------------------------------------

  /** One entry of a lending rate's `tiers` list. */
  datatype Tier = Tier(name: Option<string>, minimumValue: Option<real>, maximumValue: Option<real>)

  /** One entry of a product's `lendingRates` list; the rates are decimal
      strings, as the standard sends them. */
  datatype RawRate = RawRate(
    lendingRateType: Option<string>,
    rate: Option<string>,
    comparisonRate: Option<string>,
    repaymentType: Option<string>,
    loanPurpose: Option<string>,
    additionalValue: Option<string>,
    additionalInfo: Option<string>,
    additionalInfoUri: Option<string>,
    tiers: Option<seq<Tier>>)

  /** The `data` member of a product-detail response. */
  datatype ProductPayload = ProductPayload(
    productId: Option<string>,
    name: Option<string>,
    description: Option<string>,
    lastUpdated: Option<string>,
    lendingRates: Option<seq<RawRate>>)

  /** One flat rate entry. `rate`, `ratePercent` and the comparison rates are
      `Null` or numbers (possibly `NaN`). */
  datatype RateEntry = RateEntry(
    lendingRateType: Option<string>,
    rate: Value,
    ratePercent: Value,
    comparisonRate: Value,
    comparisonRatePercent: Value,
    repaymentType: Option<string>,
    loanPurpose: Option<string>,
    fixedYears: Option<nat>,
    lvrMin: Option<real>,
    lvrMax: Option<real>,
    additionalInfo: Option<string>,
    additionalInfoUri: Option<string>)

  /** A string property that is truthy: present and not empty. */
  predicate Present(o: Option<string>) {
    o.Some? && o.value != ""
  }

  /** `x || null` for a string property. */
  function OrNull(o: Option<string>): (r: Option<string>)
    ensures r.Some? <==> Present(o)
    ensures r.Some? ==> r == o
  {
    if Present(o) then o else None
  }

  /** `x ? parseFloat(x) : null`. */
  function ParseRate(o: Option<string>): (v: Value)
    ensures v.Null? <==> !Present(o)
    ensures v.Null? || v.Num? || v.NaN?
  {
    if Present(o) then ParseFloat(o.value) else Null
  }

  /** `x ? +(parseFloat(x) * 100).toFixed(4) : null`. */
  function RatePercent(o: Option<string>): (v: Value)
    ensures v.Null? <==> !Present(o)
    ensures v.Num? <==> ParseRate(o).Num?
    ensures v.Num? ==> -0.00005 <= v.x - ParseRate(o).x * 100.0 <= 0.00005
  {
    if Present(o) then Percent(ParseFloat(o.value)) else Null
  }

  // ---------------------------------------------------------------------
  // The fixed term: the first match of /P(\d+)Y/
  // ---------------------------------------------------------------------

  /** `s[p..j+1]` is an occurrence of the pattern `P<digits>Y`. */
  predicate Occurs(s: string, p: int, j: int) {
    0 <= p && p + 1 < j < |s| && s[p] == 'P' && AllDigits(s[p + 1..j]) && s[j] == 'Y'
  }

  /** The match of `P\d+Y` that starts at `p`, if any, and the number its
      digits spell. */
  function MatchAt(s: string, p: nat): Option<nat>
  {
    if p < |s| && s[p] == 'P' then
      var d := DigitPrefix(s[p + 1..]);
      if |d| > 0 && p + 1 + |d| < |s| && s[p + 1 + |d|] == 'Y' then Some(ParseDigits(d)) else None
    else None
  }

  /** The leftmost match at or after `from`. */
  function FirstMatch(s: string, from: nat): Option<nat>
    decreases |s| - from
  {
    if from >= |s| then None
    else if MatchAt(s, from).Some? then MatchAt(s, from)
    else FirstMatch(s, from + 1)
  }

  /** `fixedYears`: `parseInt` of the digits of the first `P<n>Y` in a
      truthy `additionalValue`, and `null` otherwise. */
  function FixedYears(additionalValue: Option<string>): Option<nat> {
    if Present(additionalValue) then FirstMatch(additionalValue.value, 0) else None
  }

  lemma {:induction false} MatchAtOccurs(s: string, p: nat)
    ensures MatchAt(s, p).Some? <==> exists j :: Occurs(s, p, j)
    ensures forall j :: Occurs(s, p, j) ==> MatchAt(s, p) == Some(ParseDigits(s[p + 1..j]))
  {
    if p < |s| && s[p] == 'P' {
      var d := DigitPrefix(s[p + 1..]);
      assert forall j :: Occurs(s, p, j) ==> j == p + 1 + |d|;
      if |d| > 0 && p + 1 + |d| < |s| && s[p + 1 + |d|] == 'Y' {
        assert s[p + 1..p + 1 + |d|] == d;
        assert Occurs(s, p, p + 1 + |d|);
      }
    }
  }

  lemma {:induction false} FirstMatchSpec(s: string, from: nat, n: nat)
    ensures FirstMatch(s, from) == Some(n) <==>
      exists p, j :: from <= p && Occurs(s, p, j) && ParseDigits(s[p + 1..j]) == n &&
        forall q, k :: from <= q < p ==> !Occurs(s, q, k)
    decreases |s| - from
  {
    MatchAtOccurs(s, from);
    if from < |s| {
      if MatchAt(s, from).Some? {
        var j :| Occurs(s, from, j);
        if FirstMatch(s, from) != Some(n) {
          forall p, j' | from <= p && Occurs(s, p, j') && ParseDigits(s[p + 1..j']) == n
            ensures exists q, k :: from <= q < p && Occurs(s, q, k)
          {
            assert from < p;
            assert Occurs(s, from, j);
          }
        }
      } else {
        FirstMatchSpec(s, from + 1, n);
        if FirstMatch(s, from) == Some(n) {
          var p, j :| from + 1 <= p && Occurs(s, p, j) && ParseDigits(s[p + 1..j]) == n &&
            forall q, k :: from + 1 <= q < p ==> !Occurs(s, q, k);
          assert forall q, k :: from <= q < p ==> !Occurs(s, q, k);
        }
      }
    } else {
      forall p, j | from <= p && Occurs(s, p, j) ensures false {}
    }
  }

  /** `fixedYears` is N exactly when the leftmost occurrence of `P<digits>Y`
      in a truthy `additionalValue` spells N. */
  lemma {:induction false} FixedYearsLeftmost(v: string, n: nat)
    requires v != ""
    ensures FixedYears(Some(v)) == Some(n) <==>
      exists p, j :: Occurs(v, p, j) && ParseDigits(v[p + 1..j]) == n &&
        forall q, k :: q < p ==> !Occurs(v, q, k)
  {
    FirstMatchSpec(v, 0, n);
  }

  /** `fixedYears` is null exactly when no `P<digits>Y` occurs, or the
      property is falsy. */
  lemma {:induction false} FixedYearsNone(s: string, from: nat)
    ensures FirstMatch(s, from) == None <==> forall p, j :: from <= p ==> !Occurs(s, p, j)
    decreases |s| - from
  {
    MatchAtOccurs(s, from);
    if from < |s| {
      FixedYearsNone(s, from + 1);
      if MatchAt(s, from).None? {
        forall p, j | from <= p && Occurs(s, p, j) ensures from + 1 <= p {}
      }
    } else {
      forall p, j | from <= p && Occurs(s, p, j) ensures false {}
    }
  }

  /** The canonical duration "P<n>Y" reads back as n years. */
  lemma {:induction false} FixedYearsCanonical(n: nat)
    ensures FixedYears(Some("P" + NatToString(n) + "Y")) == Some(n)
  {
    var d := NatToString(n);
    var s := "P" + d + "Y";
    assert s[1..] == d + "Y";
    DigitPrefixOf(d, "Y");
    NatToStringRoundTrip(n);
    assert s[1 + |d|] == 'Y';
  }

  /** A month duration has no fixed term in years. */
  lemma {:induction false} FixedYearsMonths()
    ensures FixedYears(Some("P10M")) == None
  {
    FixedYearsNone("P10M", 0);
    forall p, j | Occurs("P10M", p, j) ensures false {}
  }

  // ---------------------------------------------------------------------
  // The LVR tier and one flat entry
  // ---------------------------------------------------------------------

  /** A tier whose truthy name, upper-cased, contains "LVR". */
  predicate IsLvrTier(t: Tier) {
    Present(t.name) && Contains(ToUpper(t.name.value), "LVR")
  }

  /** `tiers.find(...)`, as an index: the first LVR tier. */
  function FirstLvrTier(tiers: seq<Tier>): (r: Option<nat>)
    ensures r.Some? ==> r.value < |tiers| && IsLvrTier(tiers[r.value])
    ensures r.Some? ==> forall j :: 0 <= j < r.value ==> !IsLvrTier(tiers[j])
    ensures r.None? ==> forall j :: 0 <= j < |tiers| ==> !IsLvrTier(tiers[j])
  {
    if |tiers| == 0 then None
    else if IsLvrTier(tiers[0]) then Some(0)
    else
      var r := FirstLvrTier(tiers[1..]);
      if r.Some? then Some(r.value + 1) else None
  }

  function TiersOf(r: RawRate): seq<Tier> {
    if r.tiers.Some? then r.tiers.value else []
  }

  /** One lending rate as a flat entry. */
  function ExtractRate(r: RawRate): (e: RateEntry)
    ensures e.rate.Null? <==> !Present(r.rate)
    ensures e.ratePercent.Null? <==> !Present(r.rate)
    ensures e.fixedYears == FixedYears(r.additionalValue)
    ensures FirstLvrTier(TiersOf(r)).None? ==> e.lvrMin.None? && e.lvrMax.None?
    ensures FirstLvrTier(TiersOf(r)).Some? ==>
      var t := TiersOf(r)[FirstLvrTier(TiersOf(r)).value];
      e.lvrMin == t.minimumValue && e.lvrMax == t.maximumValue
    ensures e.lendingRateType.Some? <==> Present(r.lendingRateType)
    ensures e.comparisonRate == ParseRate(r.comparisonRate) && e.comparisonRatePercent == RatePercent(r.comparisonRate)
    ensures e.comparisonRate.Null? <==> !Present(r.comparisonRate)
    ensures e.repaymentType == OrNull(r.repaymentType) && e.loanPurpose == OrNull(r.loanPurpose)
    ensures e.additionalInfo == OrNull(r.additionalInfo) && e.additionalInfoUri == OrNull(r.additionalInfoUri)
  {
    var tier := FirstLvrTier(TiersOf(r));
    RateEntry(
      OrNull(r.lendingRateType),
      ParseRate(r.rate),
      RatePercent(r.rate),
      ParseRate(r.comparisonRate),
      RatePercent(r.comparisonRate),
      OrNull(r.repaymentType),
      OrNull(r.loanPurpose),
      FixedYears(r.additionalValue),
      if tier.Some? then TiersOf(r)[tier.value].minimumValue else None,
      if tier.Some? then TiersOf(r)[tier.value].maximumValue else None,
      OrNull(r.additionalInfo),
      OrNull(r.additionalInfoUri))
  }

  /** `extractLendingRates`: one entry per lending rate, in order; a payload
      without `lendingRates` gives none. */
  function ExtractLendingRates(p: ProductPayload): (es: seq<RateEntry>)
    ensures p.lendingRates.None? ==> es == []
    ensures p.lendingRates.Some? ==> |es| == |p.lendingRates.value|
    ensures p.lendingRates.Some? ==> forall i :: 0 <= i < |es| ==> es[i] == ExtractRate(p.lendingRates.value[i])
  {
    if p.lendingRates.None? then []
    else
      var rs := p.lendingRates.value;
      seq(|rs|, i requires 0 <= i < |rs| => ExtractRate(rs[i]))
  }

  // ---------------------------------------------------------------------
  // The summary
  // ---------------------------------------------------------------------

  /** The purpose bucket: "oo" or "inv". */
  datatype Purpose = OwnerOccupied | Investment

  /** The LVR key: "lvr<max>" or "default". */
  datatype LvrKey = LvrUpTo(max: real) | AnyLvr

  /** The repayment key: "pi", "io" or "default". */
  datatype RepaymentKey = PrincipalAndInterest | InterestOnly | OtherRepayment

  type Cell = map<RepaymentKey, Value>

  /** `{ variable: { oo, inv }, fixed: { oo, inv } }`; a fixed rate is keyed
      by its term in years ("<n>yr"). */
  datatype Summary = Summary(
    variable: map<Purpose, map<LvrKey, Cell>>,
    fixed: map<Purpose, map<nat, map<LvrKey, Cell>>>)

  function PurposeOf(e: RateEntry): Purpose {
    if e.loanPurpose == Some("INVESTMENT") then Investment else OwnerOccupied
  }

  function LvrKeyOf(e: RateEntry): LvrKey {
    if e.lvrMax.Some? && e.lvrMax.value != 0.0 then LvrUpTo(e.lvrMax.value) else AnyLvr
  }

  function RepaymentKeyOf(e: RateEntry): RepaymentKey {
    if e.repaymentType == Some("PRINCIPAL_AND_INTEREST") then PrincipalAndInterest
    else if e.repaymentType == Some("INTEREST_ONLY") then InterestOnly
    else OtherRepayment
  }

  /** The entry is placed in the variable table. */
  predicate InVariable(e: RateEntry) {
    Truthy(e.rate) && e.lendingRateType == Some("VARIABLE")
  }

  /** The entry is placed in the fixed table. */
  predicate InFixed(e: RateEntry) {
    Truthy(e.rate) && e.lendingRateType == Some("FIXED") && e.fixedYears.Some? && e.fixedYears.value != 0
  }

  const EmptySummary: Summary :=
    Summary(map[OwnerOccupied := map[], Investment := map[]], map[OwnerOccupied := map[], Investment := map[]])

  function CellOf<K>(m: map<K, Cell>, k: K): Cell {
    if k in m then m[k] else map[]
  }

  /** The summary after folding in one more entry. */
  function Add(s: Summary, e: RateEntry): Summary {
    var p, l, k := PurposeOf(e), LvrKeyOf(e), RepaymentKeyOf(e);
    var s1 :=
      if InVariable(e) then
        var byLvr := if p in s.variable then s.variable[p] else map[];
        s.(variable := s.variable[p := byLvr[l := CellOf(byLvr, l)[k := e.ratePercent]]])
      else s;
    if InFixed(e) then
      var n := e.fixedYears.value;
      var byTerm := if p in s1.fixed then s1.fixed[p] else map[];
      var byLvr := if n in byTerm then byTerm[n] else map[];
      s1.(fixed := s1.fixed[p := byTerm[n := byLvr[l := CellOf(byLvr, l)[k := e.ratePercent]]]])
    else s1
  }

  /** The summary of a list of entries, folded left to right. */
  function SummaryOf(rates: seq<RateEntry>): Summary {
    if |rates| == 0 then EmptySummary else Add(SummaryOf(rates[..|rates| - 1]), rates[|rates| - 1])
  }

  /** `summarizeRates`: one pass over the entries, writing each placed entry's
      percentage into its slot. */
  method SummarizeRates(rates: seq<RateEntry>) returns (summary: Summary)
    ensures summary == SummaryOf(rates)
  {
    summary := EmptySummary;
    var i := 0;
    while i < |rates|
      invariant 0 <= i <= |rates|
      invariant summary == SummaryOf(rates[..i])
    {
      var r := rates[i];
      assert rates[..i + 1][..i] == rates[..i];
      if Truthy(r.rate) {
        var isVariable := r.lendingRateType == Some("VARIABLE");
        var isFixed := r.lendingRateType == Some("FIXED");
        var purposeKey := if r.loanPurpose == Some("INVESTMENT") then Investment else OwnerOccupied;
        var lvrKey := if r.lvrMax.Some? && r.lvrMax.value != 0.0 then LvrUpTo(r.lvrMax.value) else AnyLvr;
        var key := RepaymentKeyOf(r);
        if isVariable {
          var byLvr := if purposeKey in summary.variable then summary.variable[purposeKey] else map[];
          var cell := if lvrKey in byLvr then byLvr[lvrKey] else map[];
          summary := summary.(variable := summary.variable[purposeKey := byLvr[lvrKey := cell[key := r.ratePercent]]]);
        }
        if isFixed && r.fixedYears.Some? && r.fixedYears.value != 0 {
          var fixedKey := r.fixedYears.value;
          var byTerm := if purposeKey in summary.fixed then summary.fixed[purposeKey] else map[];
          var byLvr := if fixedKey in byTerm then byTerm[fixedKey] else map[];
          var cell := if lvrKey in byLvr then byLvr[lvrKey] else map[];
          summary := summary.(fixed := summary.fixed[purposeKey := byTerm[fixedKey := byLvr[lvrKey := cell[key := r.ratePercent]]]]);
        }
      }
      i := i + 1;
    }
    assert rates[..i] == rates;
  }

  // ---------------------------------------------------------------------
  // What the summary holds
  // ---------------------------------------------------------------------

  function VariableRate(s: Summary, p: Purpose, l: LvrKey, k: RepaymentKey): Option<Value> {
    if p in s.variable && l in s.variable[p] && k in s.variable[p][l] then Some(s.variable[p][l][k]) else None
  }

  function FixedRate(s: Summary, p: Purpose, n: nat, l: LvrKey, k: RepaymentKey): Option<Value> {
    if p in s.fixed && n in s.fixed[p] && l in s.fixed[p][n] && k in s.fixed[p][n][l]
    then Some(s.fixed[p][n][l][k]) else None
  }

  /** The percentage of the last placed variable entry with these keys. */
  function LastVariable(rates: seq<RateEntry>, p: Purpose, l: LvrKey, k: RepaymentKey): Option<Value> {
    if |rates| == 0 then None
    else
      var e := rates[|rates| - 1];
      if InVariable(e) && PurposeOf(e) == p && LvrKeyOf(e) == l && RepaymentKeyOf(e) == k
      then Some(e.ratePercent)
      else LastVariable(rates[..|rates| - 1], p, l, k)
  }

  /** The percentage of the last placed fixed entry with these keys. */
  function LastFixed(rates: seq<RateEntry>, p: Purpose, n: nat, l: LvrKey, k: RepaymentKey): Option<Value> {
    if |rates| == 0 then None
    else
      var e := rates[|rates| - 1];
      if InFixed(e) && PurposeOf(e) == p && e.fixedYears == Some(n) && LvrKeyOf(e) == l && RepaymentKeyOf(e) == k
      then Some(e.ratePercent)
      else LastFixed(rates[..|rates| - 1], p, n, l, k)
  }

  /** The summary always has exactly the owner-occupied and investment
      buckets under both `variable` and `fixed`. */
  lemma {:induction false} SummaryBuckets(rates: seq<RateEntry>)
    ensures SummaryOf(rates).variable.Keys == {OwnerOccupied, Investment}
    ensures SummaryOf(rates).fixed.Keys == {OwnerOccupied, Investment}
  {
    if |rates| > 0 {
      SummaryBuckets(rates[..|rates| - 1]);
    }
  }

  lemma {:induction false} AddVariable(s: Summary, e: RateEntry, p: Purpose, l: LvrKey, k: RepaymentKey)
    ensures VariableRate(Add(s, e), p, l, k) ==
      if InVariable(e) && PurposeOf(e) == p && LvrKeyOf(e) == l && RepaymentKeyOf(e) == k
      then Some(e.ratePercent) else VariableRate(s, p, l, k)
  {
  }

  lemma {:induction false} AddFixed(s: Summary, e: RateEntry, p: Purpose, n: nat, l: LvrKey, k: RepaymentKey)
    ensures FixedRate(Add(s, e), p, n, l, k) ==
      if InFixed(e) && PurposeOf(e) == p && e.fixedYears == Some(n) && LvrKeyOf(e) == l && RepaymentKeyOf(e) == k
      then Some(e.ratePercent) else FixedRate(s, p, n, l, k)
  {
  }

  /** A variable slot holds the percentage of the last variable entry with a
      truthy rate and the same purpose, LVR key and repayment key, and is
      absent when there is none. */
  lemma {:induction false} SummaryVariableSlot(rates: seq<RateEntry>, p: Purpose, l: LvrKey, k: RepaymentKey)
    ensures VariableRate(SummaryOf(rates), p, l, k) == LastVariable(rates, p, l, k)
  {
    if |rates| > 0 {
      SummaryVariableSlot(rates[..|rates| - 1], p, l, k);
      AddVariable(SummaryOf(rates[..|rates| - 1]), rates[|rates| - 1], p, l, k);
    }
  }

  /** A fixed slot holds the percentage of the last fixed entry with a truthy
      rate, a truthy term of that many years and the same purpose, LVR key and
      repayment key, and is absent when there is none. */
  lemma {:induction false} SummaryFixedSlot(rates: seq<RateEntry>, p: Purpose, n: nat, l: LvrKey, k: RepaymentKey)
    ensures FixedRate(SummaryOf(rates), p, n, l, k) == LastFixed(rates, p, n, l, k)
  {
    if |rates| > 0 {
      SummaryFixedSlot(rates[..|rates| - 1], p, n, l, k);
      AddFixed(SummaryOf(rates[..|rates| - 1]), rates[|rates| - 1], p, n, l, k);
    }
  }

  /** An entry that is placed in neither table (a falsy rate, another rate
      type, or a fixed rate without a truthy term) leaves the summary as if it
      were not there. */
  lemma {:induction false} SummaryIgnores(a: seq<RateEntry>, e: RateEntry, b: seq<RateEntry>)
    requires !InVariable(e) && !InFixed(e)
    ensures SummaryOf(a + [e] + b) == SummaryOf(a + b)
  {
    if |b| == 0 {
      assert a + [e] + b == a + [e];
      assert (a + [e])[..|a|] == a;
      assert a + b == a;
    } else {
      var b' := b[..|b| - 1];
      SummaryIgnores(a, e, b');
      assert (a + [e] + b)[..|a + [e] + b| - 1] == a + [e] + b';
      assert (a + b)[..|a + b| - 1] == a + b';
    }
  }

  lemma {:induction false} ParseDigitsExample()
    ensures ParseDigits("0539") == 539
  {
    assert "0539"[..3] == "053" && "053"[..2] == "05" && "05"[..1] == "0" && "0"[..0] == "";
  }

  /** `parseFloat("0.0539")` is 0.0539. */
  lemma {:induction false} ParseFloatExample()
    ensures ParseFloat("0.0539") == Num(0.0539)
  {
    var s := "0.0539";
    assert s[..1] == "0" && s[2..6] == "0539";
    assert AllDigits(s[..1]) && AllDigits(s[2..6]);
    ParseFloatDecimal(s, 1, 6);
    DecimalValueExample();
  }

  lemma {:induction false} DecimalValueExample()
    ensures DecimalValue("0", "0539") == 0.0539
  {
    ParseDigitsExample();
    var w, f, p := ParseDigits("0"), ParseDigits("0539"), Pow10(|"0539"|);
    assert w == 0 && f == 539;
    assert |"0539"| == 4;
    assert p == Pow10(4) == 10000;
    ExampleQuotient(w, f, p);
  }

  lemma {:induction false} ExampleQuotient(w: nat, f: nat, p: nat)
    requires w == 0 && f == 539 && p == 10000
    ensures w as real + f as real / p as real == 0.0539
  {
  }

  /** The raw decimal "0.0539" becomes the percentage 5.39. */
  lemma {:induction false} RatePercentExample()
    ensures ParseRate(Some("0.0539")) == Num(0.0539)
    ensures RatePercent(Some("0.0539")) == Num(5.39)
  {
    ParseFloatExample();
    assert 0.0539 * 100.0 == 5.39;
    RoundExample();
  }

  lemma {:induction false} RoundExample()
    ensures Round4(5.39) == 5.39
  {
    assert (5.39 * 10000.0 + 0.5).Floor == 53900;
  }

  /** Two owner-occupied variable entries without an LVR tier, one
      principal-and-interest and one interest-only, fill one `default` cell. */
  lemma {:induction false} SummaryExample(a: RateEntry, b: RateEntry)
    requires a.rate == Num(0.0599) && a.ratePercent == Num(5.99) && b.rate == Num(0.0649) && b.ratePercent == Num(6.49)
    requires a.lendingRateType == Some("VARIABLE") && b.lendingRateType == Some("VARIABLE")
    requires a.loanPurpose == Some("OWNER_OCCUPIED") && b.loanPurpose == Some("OWNER_OCCUPIED")
    requires a.repaymentType == Some("PRINCIPAL_AND_INTEREST") && b.repaymentType == Some("INTEREST_ONLY")
    requires a.lvrMax.None? && b.lvrMax.None?
    ensures SummaryOf([a, b]).variable[OwnerOccupied] == map[AnyLvr := map[PrincipalAndInterest := Num(5.99), InterestOnly := Num(6.49)]]
  {
    assert [a, b][..1] == [a];
    assert [a][..0] == [];
    assert SummaryOf([a]) == Add(EmptySummary, a);
    var s1 := Add(EmptySummary, a);
    assert s1.variable[OwnerOccupied] == map[AnyLvr := map[PrincipalAndInterest := Num(5.99)]];
    assert SummaryOf([a, b]) == Add(s1, b);
  }
}
