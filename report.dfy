/** The fetcher's main run: every product of every configured bank is
    fetched (with retries), turned into rate entries and a summary, and the
    outcomes are gathered into one report with per-bank status, an error
    list and counters. */
module RateReport {
  import opened Wrappers
  import opened Strings
  import opened Rates
  import opened Fetch

  // ---------------------------------------------------------------------
  // Configuration
  // ---------------------------------------------------------------------

  /** One bank: its key in the report, display name, API base URL and its
      products as (product name, product id) pairs in declaration order. */
  datatype BankConfig = BankConfig(key: string, displayName: string, baseUrl: string, products: seq<(string, string)>)

  /** The pause between two banks. */
  const DelayBetweenBanksMs: nat := 500

  /** The seven configured banks. */
  const Registry: seq<BankConfig> := [
    BankConfig("CBA", "Commonwealth Bank", "https://api.commbank.com.au/public/cds-au/v1", [
      ("Digi Home Loan (OO)", "c1d7e8ef741e45e5b013fa7d05574e80"),
      ("Digi Home Loan (Inv)", "b071254b466a420ea2ae755d9fc02141"),
      ("Simple Home Loan (Inv)", "96b471de2e5e48328201abb352d0ed98")]),
    BankConfig("Westpac", "Westpac", "https://digital-api.westpac.com.au/cds-au/v1", [
      ("Flexi First (OO)", "HLVariableFlexiOwnerOccupied"),
      ("Flexi First (Inv)", "HLVariableFlexiInvestment"),
      ("Rocket Loan (OO)", "HLVariableOffsetOwnerOccupied"),
      ("Fixed Rate", "HLFixed"),
      ("Secured Business Loan", "SecuredBusinessLoan"),
      ("Business Overdraft", "BusinessOverdraft"),
      ("Unsecured Business Overdraft", "UnsecuredBusinessOverdraft"),
      ("Unsecured Business Loan", "UnsecuredBusinessLoan"),
      ("Bank Bill Business Loan", "BankBillBusinessLoan")]),
    BankConfig("NAB", "National Australia Bank", "https://openbank.api.nab.com.au/cds-au/v1", [
      ("Base Variable", "e34c524c-6323-468f-8e20-36130e256fd5"),
      ("Tailored", "65bcb7bd-e50c-4b65-b7d7-9d5abc089a5a")]),
    BankConfig("ANZ", "ANZ", "https://api.anz/cds-au/v1", [
      ("Standard Variable", "f71660e7-51a9-4029-b4d0-39d09489d7bc"),
      ("Simplicity PLUS", "544ad5cb-7e52-4a30-b1d7-a080abafbfac"),
      ("Fixed Rate", "3a86f9e4-1b41-4222-9091-5934d1fc9178")]),
    BankConfig("Macquarie", "Macquarie Bank", "https://api.macquariebank.io/cds-au/v1", [
      ("Basic Home Loan", "LN001MBLBAS001"),
      ("Offset Home Loan", "LN001MBLSTD001")]),
    BankConfig("ING", "ING", "https://id.ob.ing.com.au/cds-au/v1", [
      ("Mortgage Simplifier", "f53a58f1-a964-4d9f-aa9d-23fec9148451"),
      ("Orange Advantage", "9b408eec-e2ff-4c65-a19f-d72fbaa181f9"),
      ("Fixed Rate", "4bacdad3-d6f4-4c99-a50b-690a46bd9a23")]),
    BankConfig("Bendigo", "Bendigo Bank", "https://api.cdr.bendigobank.com.au/cds-au/v1", [
      ("Easy Home Loan", "2e082120-40d6-4587-8ca9-eaafd8201877"),
      ("Flex Home Loan", "7a5853d0-6ef4-4c90-9e22-1c091c0de69d"),
      ("Express Home Loan", "01fec5c4-a888-4330-a8cc-4a0a0ac931b5")])
  ]


  // ---------------------------------------------------------------------
  // One product
  // ---------------------------------------------------------------------

  /** A product-detail response body: its `data` member, when it has one. */
  datatype Envelope = Envelope(data: Option<ProductPayload>)

  /** The network: for a (base URL, product id) pair, what each attempt of
      that product's request runs into. */
  type Network = (string, string) -> (nat -> Outcome<Envelope>)

  /** The `TypeError` that reading a field of a missing `data` member throws. */
  const MissingDataMessage: string := "Cannot read properties of undefined (reading 'productId')"
  /** The `TypeError` that reading `data` of an `undefined` body throws. */
  const MissingBodyMessage: string := "Cannot read properties of undefined (reading 'data')"

  /** What `fetchProductRates` resolves with. */
  datatype ProductRecord = ProductRecord(
    productId: Option<string>,
    name: string,
    description: Option<string>,
    lastUpdated: Option<string>,
    rates: seq<RateEntry>)

  /** How `fetchProductRates` settles. */
  datatype ProductFetch = Fetched(record: ProductRecord) | FetchFailed(message: string)

  /** The record built from a product payload; the name falls back to the id. */
  function RecordOf(p: ProductPayload, productId: string): ProductRecord {
    ProductRecord(
      p.productId,
      if Present(p.name) then p.name.value else productId,
      OrNull(p.description),
      OrNull(p.lastUpdated),
      ExtractLendingRates(p))
  }

  /** The settled value of `fetchProductRates`, from the retry outcome. */
  function ProductFetchOf(network: nat -> Outcome<Envelope>, productId: string): ProductFetch {
    match RetryOutcome(network, MaxRetries)
    case Resolved(env) =>
      if env.data.Some? then Fetched(RecordOf(env.data.value, productId)) else FetchFailed(MissingDataMessage)
    case Rejected(m) => FetchFailed(m)
    case NoAttempt => FetchFailed(MissingBodyMessage)
  }

  /** `fetchProductRates(baseUrl, productId)`, given what its attempts run into. */
  method FetchProductRates(network: nat -> Outcome<Envelope>, productId: string) returns (pf: ProductFetch)
    ensures pf == ProductFetchOf(network, productId)
    ensures pf.Fetched? ==>
      exists k :: 1 <= k <= MaxRetries && Succeeds(network(k)) &&
        network(k).body.value.data.Some? && pf.record == RecordOf(network(k).body.value.data.value, productId)
    ensures (forall k :: 1 <= k <= MaxRetries ==> !Succeeds(network(k))) ==>
      pf == FetchFailed(FailureMessage(MaxRetries, ErrorMessage(network(MaxRetries))))
  {
    var json, attempts, delays := FetchWithRetry(network, MaxRetries);
    match json {
      case Resolved(env) =>
        if env.data.Some? {
          pf := Fetched(RecordOf(env.data.value, productId));
        } else {
          pf := FetchFailed(MissingDataMessage);
        }
      case Rejected(m) =>
        pf := FetchFailed(m);
      case NoAttempt =>
        pf := FetchFailed(MissingBodyMessage);
    }
  }

  // ---------------------------------------------------------------------
  // The report
  // ---------------------------------------------------------------------

  /** An entry of a bank's `products` object. */
  datatype ProductResult =
    | ProductData(record: ProductRecord, summary: Summary)
    | ProductError(error: string, productId: string)

  datatype BankResult = BankResult(displayName: string, products: seq<(string, ProductResult)>, success: bool)

  /** An entry of the report's `errors` list. */
  datatype ErrorEntry = ErrorEntry(bank: string, product: string, productId: string, error: string)

  datatype Stats = Stats(
    totalBanks: nat, successBanks: nat, failedBanks: nat,
    totalProducts: nat, successProducts: nat, failedProducts: nat)

  /** The report, without its timestamps; `banks` pairs each bank key with
      its result, in configuration order. */
  datatype Report = Report(banks: seq<(string, BankResult)>, errors: seq<ErrorEntry>, stats: Stats)

  function FetchOf(network: Network, b: BankConfig, p: (string, string)): ProductFetch {
    ProductFetchOf(network(b.baseUrl, p.1), p.1)
  }

  /** The entry a settled fetch puts in the bank's `products` object. */
  function ResultOf(f: ProductFetch, productId: string): ProductResult {
    match f
    case Fetched(rec) => ProductData(rec, SummaryOf(rec.rates))
    case FetchFailed(m) => ProductError(m, productId)
  }

  function ResultsOf(network: Network, b: BankConfig, ps: seq<(string, string)>): seq<(string, ProductResult)> {
    if |ps| == 0 then []
    else
      var p := ps[|ps| - 1];
      ResultsOf(network, b, ps[..|ps| - 1]) + [(p.0, ResultOf(FetchOf(network, b, p), p.1))]
  }

  function BankErrorsOf(network: Network, b: BankConfig, ps: seq<(string, string)>): seq<ErrorEntry> {
    if |ps| == 0 then []
    else
      var p := ps[|ps| - 1];
      var f := FetchOf(network, b, p);
      BankErrorsOf(network, b, ps[..|ps| - 1]) +
        (if f.FetchFailed? then [ErrorEntry(b.key, p.0, p.1, f.message)] else [])
  }

  function FetchedIn(network: Network, b: BankConfig, ps: seq<(string, string)>): nat {
    if |ps| == 0 then 0
    else FetchedIn(network, b, ps[..|ps| - 1]) + (if FetchOf(network, b, ps[|ps| - 1]).Fetched? then 1 else 0)
  }

  function FailedIn(network: Network, b: BankConfig, ps: seq<(string, string)>): nat {
    if |ps| == 0 then 0
    else FailedIn(network, b, ps[..|ps| - 1]) + (if FetchOf(network, b, ps[|ps| - 1]).FetchFailed? then 1 else 0)
  }

  /** `Object.values(products).every(p => p.error)`. */
  predicate EveryErrored(products: seq<(string, ProductResult)>) {
    forall i :: 0 <= i < |products| ==> products[i].1.ProductError? && products[i].1.error != ""
  }

  function BankResultOf(network: Network, b: BankConfig): BankResult {
    var rs := ResultsOf(network, b, b.products);
    BankResult(b.displayName, rs, !(FailedIn(network, b, b.products) > 0 && EveryErrored(rs)))
  }

  function BanksOf(network: Network, reg: seq<BankConfig>): seq<(string, BankResult)> {
    if |reg| == 0 then []
    else BanksOf(network, reg[..|reg| - 1]) + [(reg[|reg| - 1].key, BankResultOf(network, reg[|reg| - 1]))]
  }

  function ErrorsOf(network: Network, reg: seq<BankConfig>): seq<ErrorEntry> {
    if |reg| == 0 then []
    else
      var b := reg[|reg| - 1];
      ErrorsOf(network, reg[..|reg| - 1]) + BankErrorsOf(network, b, b.products)
  }

  function ProductsIn(reg: seq<BankConfig>): nat {
    if |reg| == 0 then 0 else ProductsIn(reg[..|reg| - 1]) + |reg[|reg| - 1].products|
  }

  function FetchedProducts(network: Network, reg: seq<BankConfig>): nat {
    if |reg| == 0 then 0
    else
      var b := reg[|reg| - 1];
      FetchedProducts(network, reg[..|reg| - 1]) + FetchedIn(network, b, b.products)
  }

  function FailedProducts(network: Network, reg: seq<BankConfig>): nat {
    if |reg| == 0 then 0
    else
      var b := reg[|reg| - 1];
      FailedProducts(network, reg[..|reg| - 1]) + FailedIn(network, b, b.products)
  }

  function SucceededBanks(network: Network, reg: seq<BankConfig>): nat {
    if |reg| == 0 then 0
    else SucceededBanks(network, reg[..|reg| - 1]) + (if BankResultOf(network, reg[|reg| - 1]).success then 1 else 0)
  }

  function FailedBanks(network: Network, reg: seq<BankConfig>): nat {
    if |reg| == 0 then 0
    else FailedBanks(network, reg[..|reg| - 1]) + (if BankResultOf(network, reg[|reg| - 1]).success then 0 else 1)
  }

  /** The report a run over `reg` produces. */
  function ReportOf(network: Network, reg: seq<BankConfig>): Report {
    Report(
      BanksOf(network, reg),
      ErrorsOf(network, reg),
      Stats(|reg|, SucceededBanks(network, reg), FailedBanks(network, reg),
            ProductsIn(reg), FetchedProducts(network, reg), FailedProducts(network, reg)))
  }

  /** One bank's pass of `main`: its products fetched in order, the errors
      it logs, how many products loaded and how many failed. */
  method RunBank(network: Network, bank: BankConfig)
    returns (result: BankResult, bankErrors: seq<ErrorEntry>, fetched: nat, failed: nat)
    ensures result == BankResultOf(network, bank)
    ensures bankErrors == BankErrorsOf(network, bank, bank.products)
    ensures fetched == FetchedIn(network, bank, bank.products)
    ensures failed == FailedIn(network, bank, bank.products)
  {
    var products: seq<(string, ProductResult)> := [];
    var bankHasError := false;
    bankErrors, fetched, failed := [], 0, 0;
    for j := 0 to |bank.products|
      invariant products == ResultsOf(network, bank, bank.products[..j])
      invariant bankHasError == (FailedIn(network, bank, bank.products[..j]) > 0)
      invariant bankErrors == BankErrorsOf(network, bank, bank.products[..j])
      invariant fetched == FetchedIn(network, bank, bank.products[..j])
      invariant failed == FailedIn(network, bank, bank.products[..j])
    {
      var (productName, productId) := bank.products[j];
      assert bank.products[..j + 1][..j] == bank.products[..j];
      var pf := FetchProductRates(network(bank.baseUrl, productId), productId);
      match pf {
        case Fetched(productData) =>
          var summary := SummarizeRates(productData.rates);
          products := products + [(productName, ProductData(productData, summary))];
          fetched := fetched + 1;
        case FetchFailed(message) =>
          products := products + [(productName, ProductError(message, productId))];
          bankErrors := bankErrors + [ErrorEntry(bank.key, productName, productId, message)];
          bankHasError := true;
          failed := failed + 1;
      }
    }
    assert bank.products[..|bank.products|] == bank.products;
    result := BankResult(bank.displayName, products, !(bankHasError && EveryErrored(products)));
  }

  /** `main`: the banks in order, the products of each in order. */
  method Run(network: Network, registry: seq<BankConfig>) returns (report: Report)
    ensures report == ReportOf(network, registry)
  {
    var banks: seq<(string, BankResult)> := [];
    var errors: seq<ErrorEntry> := [];
    var successBanks, failedBanks, totalProducts, successProducts, failedProducts := 0, 0, 0, 0, 0;
    for i := 0 to |registry|
      invariant banks == BanksOf(network, registry[..i])
      invariant errors == ErrorsOf(network, registry[..i])
      invariant successBanks == SucceededBanks(network, registry[..i])
      invariant failedBanks == FailedBanks(network, registry[..i])
      invariant totalProducts == ProductsIn(registry[..i])
      invariant successProducts == FetchedProducts(network, registry[..i])
      invariant failedProducts == FailedProducts(network, registry[..i])
    {
      var bank := registry[i];
      assert registry[..i + 1][..i] == registry[..i];
      var bankResult, bankErrors, fetched, failed := RunBank(network, bank);
      totalProducts := totalProducts + |bank.products|;
      successProducts := successProducts + fetched;
      failedProducts := failedProducts + failed;
      errors := errors + bankErrors;
      if bankResult.success {
        successBanks := successBanks + 1;
      } else {
        failedBanks := failedBanks + 1;
      }
      banks := banks + [(bank.key, bankResult)];
    }
    assert registry[..|registry|] == registry;
    report := Report(banks, errors,
      Stats(|registry|, successBanks, failedBanks, totalProducts, successProducts, failedProducts));
  }

  // ---------------------------------------------------------------------
  // What the report says
  // ---------------------------------------------------------------------

  /** Every product of a bank has exactly one entry, in order, under its
      name; the entry is an error exactly when its fetch failed, and then
      carries that failure's message; otherwise it carries the record and
      its summary. */
  lemma {:induction false} BankProducts(network: Network, b: BankConfig, ps: seq<(string, string)>)
    ensures |ResultsOf(network, b, ps)| == |ps|
    ensures forall j :: 0 <= j < |ps| ==>
      var r := ResultsOf(network, b, ps)[j];
      var f := FetchOf(network, b, ps[j]);
      r.0 == ps[j].0 &&
      (r.1.ProductError? <==> f.FetchFailed?) &&
      (f.FetchFailed? ==> r.1 == ProductError(f.message, ps[j].1)) &&
      (f.Fetched? ==> r.1 == ProductData(f.record, SummaryOf(f.record.rates)))
  {
    if |ps| > 0 {
      BankProducts(network, b, ps[..|ps| - 1]);
    }
  }

  /** Each bank's counters add up: every product is counted once, as a
      success or as a failure, and each failure logs one error. */
  lemma {:induction false} BankCounts(network: Network, b: BankConfig, ps: seq<(string, string)>)
    ensures FetchedIn(network, b, ps) + FailedIn(network, b, ps) == |ps|
    ensures |BankErrorsOf(network, b, ps)| == FailedIn(network, b, ps)
  {
    if |ps| > 0 {
      BankCounts(network, b, ps[..|ps| - 1]);
    }
  }

  /** Each logged error names the bank, the product and the id of a product
      whose fetch failed with that message; and every failed product has
      its own entry in the list. */
  lemma {:induction false} BankErrorsFailed(network: Network, b: BankConfig, ps: seq<(string, string)>)
    ensures forall e :: e in BankErrorsOf(network, b, ps) ==>
      e.bank == b.key &&
      exists j :: 0 <= j < |ps| && ps[j] == (e.product, e.productId) &&
        FetchOf(network, b, ps[j]) == FetchFailed(e.error)
    ensures forall j :: 0 <= j < |ps| && FetchOf(network, b, ps[j]).FetchFailed? ==>
      ErrorEntry(b.key, ps[j].0, ps[j].1, FetchOf(network, b, ps[j]).message) in BankErrorsOf(network, b, ps)
  {
    if |ps| > 0 {
      var init := ps[..|ps| - 1];
      BankErrorsFailed(network, b, init);
      forall j | 0 <= j < |init| && FetchOf(network, b, ps[j]).FetchFailed?
        ensures ErrorEntry(b.key, ps[j].0, ps[j].1, FetchOf(network, b, ps[j]).message) in BankErrorsOf(network, b, ps)
      {
        assert ps[j] == init[j];
      }
      forall e | e in BankErrorsOf(network, b, ps)
        ensures exists j :: (0 <= j < |ps| && ps[j] == (e.product, e.productId) &&
          FetchOf(network, b, ps[j]) == FetchFailed(e.error))
      {
        if e in BankErrorsOf(network, b, init) {
          var j :| 0 <= j < |init| && init[j] == (e.product, e.productId) &&
            FetchOf(network, b, init[j]) == FetchFailed(e.error);
          assert ps[j] == init[j];
        } else {
          assert ps[|ps| - 1] == (e.product, e.productId);
        }
      }
    }
  }

  lemma {:induction false} EveryErroredResults(network: Network, b: BankConfig)
    ensures EveryErrored(ResultsOf(network, b, b.products)) <==>
      forall j :: 0 <= j < |b.products| ==>
        FetchOf(network, b, b.products[j]).FetchFailed? && FetchOf(network, b, b.products[j]).message != ""
  {
    BankProducts(network, b, b.products);
    var rs := ResultsOf(network, b, b.products);
    if EveryErrored(rs) {
      forall j | 0 <= j < |b.products|
        ensures FetchOf(network, b, b.products[j]).FetchFailed? && FetchOf(network, b, b.products[j]).message != ""
      {
        assert rs[j].1.ProductError?;
      }
    }
  }

  lemma {:induction false} FailedInPositive(network: Network, b: BankConfig, ps: seq<(string, string)>)
    ensures FailedIn(network, b, ps) > 0 <==> exists j :: 0 <= j < |ps| && FetchOf(network, b, ps[j]).FetchFailed?
  {
    if |ps| > 0 {
      var init := ps[..|ps| - 1];
      FailedInPositive(network, b, init);
      if exists j :: 0 <= j < |ps| && FetchOf(network, b, ps[j]).FetchFailed? {
        var j :| 0 <= j < |ps| && FetchOf(network, b, ps[j]).FetchFailed?;
        if j < |init| {
          assert init[j] == ps[j];
        }
      }
      if exists j :: 0 <= j < |init| && FetchOf(network, b, init[j]).FetchFailed? {
        var j :| 0 <= j < |init| && FetchOf(network, b, init[j]).FetchFailed?;
        assert ps[j] == init[j];
      }
    }
  }

  /** A bank is marked failed exactly when it has at least one product and
      every one of its products failed with a non-empty message; a bank with
      no products, or with one product that loaded, is a success. */
  lemma {:induction false} BankStatus(network: Network, b: BankConfig)
    ensures !BankResultOf(network, b).success <==>
      |b.products| > 0 &&
      forall j :: 0 <= j < |b.products| ==>
        FetchOf(network, b, b.products[j]).FetchFailed? && FetchOf(network, b, b.products[j]).message != ""
  {
    EveryErroredResults(network, b);
    FailedInPositive(network, b, b.products);
    if |b.products| > 0 {
      assert 0 <= 0 < |b.products|;
    }
  }

  /** The report has one entry per configured bank, in order, under its key. */
  lemma {:induction false} ReportBanks(network: Network, reg: seq<BankConfig>)
    ensures |ReportOf(network, reg).banks| == |reg|
    ensures forall i :: 0 <= i < |reg| ==> ReportOf(network, reg).banks[i] == (reg[i].key, BankResultOf(network, reg[i]))
  {
    if |reg| > 0 {
      ReportBanks(network, reg[..|reg| - 1]);
    }
  }

  /** The report's counters add up: products split into successes and
      failures, one logged error per failed product, and banks split into
      successes and failures that together are all the configured banks. */
  lemma {:induction false} ReportCounts(network: Network, reg: seq<BankConfig>)
    ensures ReportOf(network, reg).stats.totalProducts ==
      ReportOf(network, reg).stats.successProducts + ReportOf(network, reg).stats.failedProducts
    ensures |ReportOf(network, reg).errors| == ReportOf(network, reg).stats.failedProducts
    ensures ReportOf(network, reg).stats.successBanks + ReportOf(network, reg).stats.failedBanks ==
      ReportOf(network, reg).stats.totalBanks == |reg|
  {
    if |reg| > 0 {
      var b := reg[|reg| - 1];
      ReportCounts(network, reg[..|reg| - 1]);
      BankCounts(network, b, b.products);
    }
  }

  /** One bank with two products, where the first loads at its first
      attempt and the second fails all three: two products counted, one
      success and one failure, one logged error for the second product, and
      the bank is a success. */
  lemma {:induction false} TwoProductRun(network: Network, b: BankConfig, idA: string, idB: string, payload: ProductPayload)
    requires b.products == [("A", idA), ("B", idB)]
    requires network(b.baseUrl, idA)(1) == Response(200, "OK", Parsed(Envelope(Some(payload))))
    requires forall k :: !Succeeds(network(b.baseUrl, idB)(k))
    ensures ReportOf(network, [b]).stats == Stats(1, 1, 0, 2, 1, 1)
    ensures |ReportOf(network, [b]).errors| == 1
    ensures ReportOf(network, [b]).errors[0] ==
      ErrorEntry(b.key, "B", idB, FailureMessage(3, ErrorMessage(network(b.baseUrl, idB)(3))))
    ensures ReportOf(network, [b]).banks == [(b.key, BankResultOf(network, b))]
    ensures BankResultOf(network, b).success
  {
    RetryFirstSuccess(network(b.baseUrl, idA), 1, MaxRetries, 1);
    RetryAllFail(network(b.baseUrl, idB), 1, MaxRetries);
    var ps := b.products;
    assert ps[..1] == [("A", idA)] && ps[..1][..0] == [];
    assert FetchOf(network, b, ps[0]).Fetched?;
    assert FetchOf(network, b, ps[1]).FetchFailed?;
    assert FetchedIn(network, b, ps[..1]) == 1 && FailedIn(network, b, ps[..1]) == 0;
    assert FetchedIn(network, b, ps) == 1 && FailedIn(network, b, ps) == 1;
    BankStatus(network, b);
    var reg := [b];
    assert reg[..|reg| - 1] == [];
    assert BanksOf(network, reg) == [(b.key, BankResultOf(network, b))];
    assert ErrorsOf(network, reg) == BankErrorsOf(network, b, ps);
    assert BankErrorsOf(network, b, ps[..1]) == [];
    assert SucceededBanks(network, reg) == 1 && FailedBanks(network, reg) == 0;
    assert ProductsIn(reg) == 2;
    assert FetchedProducts(network, reg) == 1 && FailedProducts(network, reg) == 1;
  }
}
