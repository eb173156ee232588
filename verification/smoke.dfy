/**
 * The repository's smoke scenario for the default configuration: one donor with a gift
 * this year and a gift last year, both in GBP, rolled up in 2025.
 */
module SmokeScenario {
  import opened Wrappers
  import opened JsonValue
  import opened Calendar
  import opened RollupConfig
  import opened DefaultConfig
  import opened FieldPath
  import opened Filters
  import opened Aggregation
  import opened Extremes
  import opened Compute

  const Gift1Date := "2025-01-15T12:00:00.000Z"
  const Gift1Ms := 1736942400000
  const Gift2Date := "2024-12-20T09:00:00.000Z"
  const Gift2Ms := 1734685200000

  /** A gift from person-1 to appeal-1 of the given micro-units of GBP. */
  function Gift(id: string, micros: real, date: string): Value {
    Obj(map[
      "id" := Str(id),
      "donorId" := Str("person-1"),
      "appealId" := Str("appeal-1"),
      "amount" := Obj(map["amountMicros" := Num(micros), "currencyCode" := Str("GBP")]),
      "giftDate" := Str(date)])
  }

  const Gift1 := Gift("gift-1", 120_500_000.0, Gift1Date)
  const Gift2 := Gift("gift-2", 79_500_000.0, Gift2Date)

  function Gbp(micros: real): Value {
    Obj(map["amountMicros" := Num(micros), "currencyCode" := Str("GBP")])
  }

  /** The payload the scenario expects for person-1. */
  const ExpectedPayload: Payload := map[
    "lifetimeGiftAmount" := Gbp(200_000_000.0),
    "lifetimeGiftCount" := Num(2.0),
    "lastGiftDate" := Str("2025-01-15"),
    "firstGiftDate" := Str("2024-12-20"),
    "yearToDateGiftAmount" := Gbp(120_500_000.0),
    "yearToDateGiftCount" := Num(1.0)]

  /** `"a.b".split('.')` for the two dotted paths of the default configuration. */
  lemma SplitPath(first: string, second: string)
    requires '.' !in first && '.' !in second
    ensures Split(first + "." + second, '.') == [first, second]
    ensures '.' in first + "." + second
  {
    SplitJoin([first, second], '.');
    assert ([first, second])[1..] == [second];
    assert (first + "." + second)[|first|] == '.';
  }

  lemma WalkTwo(v: Value, first: string, second: string)
    ensures Walk(v, [first, second]) == Walk(Walk(v, [first]), [second])
  {
    WalkAppend(v, [first], [second]);
    assert [first] + [second] == [first, second];
  }

  /** `getNestedValue` along "first.second" walks the two keys. */
  lemma DottedPath(v: Value, first: string, second: string)
    requires '.' !in first && '.' !in second
    ensures GetNestedValue(v, first + "." + second) == Walk(Walk(v, [first]), [second])
  {
    SplitPath(first, second);
    WalkTwo(v, first, second);
  }

  lemma AmountNames()
    ensures '.' !in "amount" && '.' !in "amountMicros" && '.' !in "currencyCode"
    ensures "amount.amountMicros" == "amount" + "." + "amountMicros"
    ensures "amount.currencyCode" == "amount" + "." + "currencyCode"
  {
  }

  lemma GiftAmountWalk(id: string, micros: real, date: string)
    ensures Walk(Walk(Gift(id, micros, date), ["amount"]), ["amountMicros"]) == Num(micros)
  {
  }

  lemma GiftCurrencyWalk(id: string, micros: real, date: string)
    ensures Walk(Walk(Gift(id, micros, date), ["amount"]), ["currencyCode"]) == Str("GBP")
  {
  }

  /** The dotted paths of the default configuration read the nested amount and currency. */
  lemma GiftAmount(id: string, micros: real, date: string)
    ensures GetNestedValue(Gift(id, micros, date), "amount.amountMicros") == Num(micros)
  {
    AmountNames();
    DottedPath(Gift(id, micros, date), "amount", "amountMicros");
    GiftAmountWalk(id, micros, date);
  }

  lemma GiftCurrency(id: string, micros: real, date: string)
    ensures GetNestedValue(Gift(id, micros, date), "amount.currencyCode") == Str("GBP")
  {
    AmountNames();
    DottedPath(Gift(id, micros, date), "amount", "currencyCode");
    GiftCurrencyWalk(id, micros, date);
  }

  lemma GiftDate(id: string, micros: real, date: string)
    ensures GetNestedValue(Gift(id, micros, date), "giftDate") == Str(date)
  {
  }

  /** What the scenario assumes of the host: ISO strings parse back, and both gift dates are canonical. */
  ghost predicate ScenarioHost(host: Host) {
    IsoRoundTrips(host) && host.isoString(Gift1Ms) == Gift1Date && host.isoString(Gift2Ms) == Gift2Date
  }

  lemma GiftDatesComparable(host: Host)
    requires ScenarioHost(host)
    ensures ToComparableNumber(host, Str(Gift1Date)) == Some(Gift1Ms as real)
    ensures ToComparableNumber(host, Str(Gift2Date)) == Some(Gift2Ms as real)
    ensures host.dateParse(Gift1Date) == Some(Gift1Ms) && host.dateParse(Gift2Date) == Some(Gift2Ms)
  {
    assert host.numberOf(host.isoString(Gift1Ms)) == None;
    assert host.numberOf(host.isoString(Gift2Ms)) == None;
  }

  /** `applyFilters` on two records with a non-empty filter list. */
  lemma {:induction false} ApplyFiltersPair(host: Host, now: int, a: Value, b: Value, fs: seq<FilterConfig>)
    requires fs != []
    ensures ApplyFilters(host, now, [a, b], fs)
         == (if PassesAll(host, now, a, fs) then [a] else []) + (if PassesAll(host, now, b, fs) then [b] else [])
  {
    assert [a, b][1..] == [b];
    assert [b][1..] == [];
    assert Retain(host, now, [b], fs) == if PassesAll(host, now, b, fs) then [b] else [];
  }

  /** A record passes a one-filter list exactly when its field value passes that filter. */
  lemma PassesSingle(host: Host, now: int, record: Value, f: FilterConfig)
    ensures PassesAll(host, now, record, [f]) <==> EvaluateFilter(host, now, GetNestedValue(record, f.field), f)
  {
    assert [f][0] == f;
  }

  lemma PositiveAmount(host: Host, now: int, m: real)
    ensures EvaluateFilter(host, now, Num(m), PositiveAmountFilter) <==> m > 0.0
  {
  }

  lemma GiftPositive(host: Host, now: int, id: string, micros: real, date: string)
    requires micros > 0.0
    ensures PassesAll(host, now, Gift(id, micros, date), [PositiveAmountFilter])
  {
    GiftAmount(id, micros, date);
    PositiveAmount(host, now, micros);
    PassesSingle(host, now, Gift(id, micros, date), PositiveAmountFilter);
  }

  /** A gift passes the year-to-date filter exactly when its instant is in the current UTC year or later. */
  lemma GiftThisYear(host: Host, now: int, id: string, micros: real, date: string, ms: int)
    requires IsoRoundTrips(host) && host.isoString(ms) == date
    ensures PassesAll(host, now, Gift(id, micros, date), [YearToDateFilter]) <==> ms >= StartOfYearMs(now)
  {
    GiftDate(id, micros, date);
    assert host.numberOf(host.isoString(ms)) == None;
    assert ToComparableNumber(host, Str(date)) == Some(ms as real);
    StartOfYearFilter(host, now, Str(date), "giftDate", Undef);
    PassesSingle(host, now, Gift(id, micros, date), YearToDateFilter);
  }

  /** Both gifts have a positive amount. */
  lemma BothGiftsPositive(host: Host, now: int)
    ensures ApplyFilters(host, now, [Gift1, Gift2], [PositiveAmountFilter]) == [Gift1, Gift2]
  {
    GiftPositive(host, now, "gift-1", 120_500_000.0, Gift1Date);
    GiftPositive(host, now, "gift-2", 79_500_000.0, Gift2Date);
    ApplyFiltersPair(host, now, Gift1, Gift2, [PositiveAmountFilter]);
  }

  /** In 2025 only the first gift is dated this year. */
  lemma OnlyFirstGiftThisYear(host: Host, now: int)
    requires ScenarioHost(host)
    requires 1735689600000 <= now < 1767225600000
    ensures ApplyFilters(host, now, [Gift1, Gift2], [YearToDateFilter]) == [Gift1]
  {
    StartOf2025(now);
    GiftThisYear(host, now, "gift-1", 120_500_000.0, Gift1Date, Gift1Ms);
    GiftThisYear(host, now, "gift-2", 79_500_000.0, Gift2Date, Gift2Ms);
    ApplyFiltersPair(host, now, Gift1, Gift2, [YearToDateFilter]);
  }

  // ---------------------------------------------------------------------------
  // The six aggregations

  /** A SUM over the gift amount, labelled with the gift currency. */
  predicate AmountInGbp(agg: AggregationConfig) {
    agg.childField == "amount.amountMicros" && agg.currencyField == Some("amount.currencyCode")
  }

  lemma SumStepGbp(host: Host, agg: AggregationConfig, acc: SumState, record: Value, micros: real)
    requires agg.currencyField.Some?
    requires GetNestedValue(record, agg.childField) == Num(micros)
    requires GetNestedValue(record, agg.currencyField.value) == Str("GBP")
    ensures SumStep(host, agg, acc, record) == SumState(acc.amount + micros, Some("GBP"))
  {
    assert !IsWhiteSpace("GBP"[0]);
  }

  lemma SumFoldPair(host: Host, agg: AggregationConfig, a: Value, b: Value)
    ensures SumFold(host, agg, [a]) == SumStep(host, agg, SumState(0.0, None), a)
    ensures SumFold(host, agg, [a, b]) == SumStep(host, agg, SumFold(host, agg, [a]), b)
  {
    assert [a][..0] == [];
    assert [a, b][..1] == [a];
  }

  lemma SumOfGifts(host: Host, agg: AggregationConfig)
    requires AmountInGbp(agg)
    ensures SumValue(host, agg, [Gift1]) == Gbp(120_500_000.0)
    ensures SumValue(host, agg, [Gift1, Gift2]) == Gbp(200_000_000.0)
  {
    GiftAmount("gift-1", 120_500_000.0, Gift1Date);
    GiftCurrency("gift-1", 120_500_000.0, Gift1Date);
    GiftAmount("gift-2", 79_500_000.0, Gift2Date);
    GiftCurrency("gift-2", 79_500_000.0, Gift2Date);
    SumFoldPair(host, agg, Gift1, Gift2);
    SumStepGbp(host, agg, SumState(0.0, None), Gift1, 120_500_000.0);
    SumStepGbp(host, agg, SumState(120_500_000.0, Some("GBP")), Gift2, 79_500_000.0);
    JsRoundInteger(120_500_000);
    JsRoundInteger(200_000_000);
  }

  /** The scan over two records with comparable values keeps the second only when it beats the first. */
  lemma ExtremePair(host: Host, d: Direction, field: string, a: Value, b: Value, ca: real, cb: real)
    requires Comparable(host, field, a) == Some(ca) && Comparable(host, field, b) == Some(cb)
    ensures Extreme(host, d, field, [a, b])
         == if Beats(d, cb, ca) then Some(Chosen(GetNestedValue(b, field), cb)) else Some(Chosen(GetNestedValue(a, field), ca))
  {
    assert [a][..0] == [];
    assert Extreme(host, d, field, [a]) == Some(Chosen(GetNestedValue(a, field), ca));
    assert [a, b][..1] == [a];
  }

  /** The last gift date is the first gift's day, the first gift date the second gift's day. */
  lemma GiftDateExtremes(host: Host)
    requires ScenarioHost(host)
    ensures Extreme(host, Highest, "giftDate", [Gift1, Gift2]) == Some(Chosen(Str(Gift1Date), Gift1Ms as real))
    ensures Extreme(host, Lowest, "giftDate", [Gift1, Gift2]) == Some(Chosen(Str(Gift2Date), Gift2Ms as real))
  {
    GiftDatesComparable(host);
    GiftDate("gift-1", 120_500_000.0, Gift1Date);
    GiftDate("gift-2", 79_500_000.0, Gift2Date);
    ExtremePair(host, Highest, "giftDate", Gift1, Gift2, Gift1Ms as real, Gift2Ms as real);
    ExtremePair(host, Lowest, "giftDate", Gift1, Gift2, Gift1Ms as real, Gift2Ms as real);
  }

  lemma GiftDateOutputs(host: Host)
    requires ScenarioHost(host)
    ensures ExtremeOutput(host, Some(Chosen(Str(Gift1Date), Gift1Ms as real))) == Str("2025-01-15")
    ensures ExtremeOutput(host, Some(Chosen(Str(Gift2Date), Gift2Ms as real))) == Str("2024-12-20")
  {
    GiftDatesComparable(host);
  }

  /** The value of default aggregation k over the two gifts. */
  function GiftValue(host: Host, now: int, k: nat): Result<Value, string>
    requires k < |GiftAggregations|
  {
    AggregationValue(host, GiftAggregations[k], ApplyFilters(host, now, [Gift1, Gift2], GiftAggregations[k].filters))
  }

  lemma LifetimeAmount(host: Host, now: int)
    ensures GiftValue(host, now, 0) == Success(Gbp(200_000_000.0))
  {
    SumOfGifts(host, GiftAggregations[0]);
  }

  lemma LifetimeCount(host: Host, now: int)
    ensures GiftValue(host, now, 1) == Success(Num(2.0))
  {
  }

  lemma DateValues(host: Host, now: int)
    requires ScenarioHost(host)
    ensures GiftValue(host, now, 2) == Success(Str("2025-01-15"))
    ensures GiftValue(host, now, 3) == Success(Str("2024-12-20"))
  {
    GiftDateExtremes(host);
    GiftDateOutputs(host);
  }

  lemma YearToDateValues(host: Host, now: int)
    requires ScenarioHost(host)
    requires 1735689600000 <= now < 1767225600000
    ensures GiftValue(host, now, 4) == Success(Gbp(120_500_000.0))
    ensures GiftValue(host, now, 5) == Success(Num(1.0))
  {
    OnlyFirstGiftThisYear(host, now);
    SumOfGifts(host, GiftAggregations[4]);
  }

  /** The payload left by writing `values[k]` under the k-th parent field, in order. */
  function Written(aggs: seq<AggregationConfig>, values: seq<Value>, n: nat): Payload
    requires n <= |aggs| && n <= |values|
  {
    if n == 0 then map[] else Written(aggs, values, n - 1)[aggs[n - 1].parentField := values[n - 1]]
  }

  /** When every aggregation succeeds with a known value, the payload is those values written in order. */
  lemma {:induction false} PayloadOfValues(value: AggregationConfig -> Result<Value, string>, aggs: seq<AggregationConfig>,
                                           values: seq<Value>, n: nat)
    requires n <= |aggs| && n <= |values|
    requires forall k :: 0 <= k < n ==> value(aggs[k]) == Success(values[k])
    ensures PayloadUpTo(value, aggs, n) == Success(Written(aggs, values, n))
  {
    if n > 0 {
      PayloadOfValues(value, aggs, values, n - 1);
    }
  }

  const ExpectedValues: seq<Value> := [
    Gbp(200_000_000.0), Num(2.0), Str("2025-01-15"), Str("2024-12-20"), Gbp(120_500_000.0), Num(1.0)]

  lemma ExpectedIsWritten()
    ensures Written(GiftAggregations, ExpectedValues, 6) == ExpectedPayload
  {
    var aggs, v := GiftAggregations, ExpectedValues;
    var w1 := map["lifetimeGiftAmount" := Gbp(200_000_000.0)];
    assert Written(aggs, v, 1) == w1;
    var w2 := w1["lifetimeGiftCount" := Num(2.0)];
    assert Written(aggs, v, 2) == w2;
    var w3 := w2["lastGiftDate" := Str("2025-01-15")];
    assert Written(aggs, v, 3) == w3;
    var w4 := w3["firstGiftDate" := Str("2024-12-20")];
    assert Written(aggs, v, 4) == w4;
    var w5 := w4["yearToDateGiftAmount" := Gbp(120_500_000.0)];
    assert Written(aggs, v, 5) == w5;
    assert Written(aggs, v, 6) == w5["yearToDateGiftCount" := Num(1.0)];
  }

  lemma AllGiftValues(host: Host, now: int)
    requires ScenarioHost(host)
    requires 1735689600000 <= now < 1767225600000
    ensures forall k :: 0 <= k < 6 ==> GiftValue(host, now, k) == Success(ExpectedValues[k])
  {
    forall k | 0 <= k < 6
      ensures GiftValue(host, now, k) == Success(ExpectedValues[k])
    {
      if k == 0 {
        LifetimeAmount(host, now);
      } else if k == 1 {
        LifetimeCount(host, now);
      } else if k < 4 {
        DateValues(host, now);
      } else {
        YearToDateValues(host, now);
      }
    }
  }

  /** A definition whose child filters keep every record computes the given values, written in order. */
  lemma AggregatesOfValues(host: Host, now: int, d: RollupDefinition, records: seq<Value>, values: seq<Value>)
    requires |values| == |d.aggregations|
    requires ApplyFilters(host, now, records, d.childFilters) == records
    requires forall k :: 0 <= k < |values| ==>
      AggregationValue(host, d.aggregations[k], ApplyFilters(host, now, records, d.aggregations[k].filters)) == Success(values[k])
    ensures Aggregates(host, now, d, records) == Success(Written(d.aggregations, values, |values|))
  {
    var over := AggregateOver(host, now, records);
    assert forall k :: 0 <= k < |values| ==> over(d.aggregations[k]) == Success(values[k]);
    PayloadOfValues(over, d.aggregations, values, |values|);
  }

  /**
   * With the default configuration in 2025, person-1's two gifts roll up to a lifetime
   * total of 200 GBP over two gifts, last given on 2025-01-15 and first on 2024-12-20,
   * and a year-to-date total of 120.5 GBP over one gift.
   */
  lemma SmokePayload(host: Host, now: int)
    requires ScenarioHost(host)
    requires 1735689600000 <= now < 1767225600000
    ensures Aggregates(host, now, GiftDefinition, [Gift1, Gift2]) == Success(ExpectedPayload)
  {
    BothGiftsPositive(host, now);
    AllGiftValues(host, now);
    AggregatesOfValues(host, now, GiftDefinition, [Gift1, Gift2], ExpectedValues);
    ExpectedIsWritten();
  }
}
