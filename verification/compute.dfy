/**
 * `computeAggregations`: the payload written to one parent record, built by running every
 * aggregation of a definition over that parent's child records, and `sanitizePayload`.
 */
module Compute {
  import opened Wrappers
  import opened JsonValue
  import opened RollupConfig
  import opened Filters
  import opened Aggregation
  import opened Extremes

  /** Parent field name to the value written there. */
  type Payload = map<string, Value>

  /** A non-COUNT aggregation with no child field, which the computation rejects. */
  predicate LacksChildField(agg: AggregationConfig) {
    agg.kind != Count && agg.childField == ""
  }

  /** The message thrown for an aggregation without its child field. */
  function MissingChildFieldMessage(agg: AggregationConfig): string {
    AggregationTypeName(agg.kind) + " aggregation requires childField"
  }

  /**
   * The value one aggregation computes over its scoped records: COUNT their number, SUM the
   * amount and currency, AVG the rounded mean, MAX and MIN the formatted extreme value; the
   * other four fail when the child field is missing.
   */
  function AggregationValue(host: Host, agg: AggregationConfig, scoped: seq<Value>): (r: Result<Value, string>)
    ensures r.Failure? <==> LacksChildField(agg)
    ensures r.Failure? ==> r.error == MissingChildFieldMessage(agg)
    ensures r.Success? ==> r.value != Undef
    ensures agg.kind == Count ==> r == Success(Num(|scoped| as real))
  {
    if LacksChildField(agg) then Failure(MissingChildFieldMessage(agg))
    else
      match agg.kind
      case Count => Success(Num(|scoped| as real))
      case Sum => Success(SumValue(host, agg, scoped))
      case Avg => Success(AvgValue(host, agg.childField, scoped))
      case Max => Success(ExtremeOutput(host, Extreme(host, Highest, agg.childField, scoped)))
      case Min => Success(ExtremeOutput(host, Extreme(host, Lowest, agg.childField, scoped)))
  }

  /** One aggregation over `base`: its own filters applied, then its value computed. */
  function AggregateOver(host: Host, now: int, base: seq<Value>): AggregationConfig -> Result<Value, string> {
    (agg: AggregationConfig) => AggregationValue(host, agg, ApplyFilters(host, now, base, agg.filters))
  }

  /**
   * The payload after the first n aggregations, `value` giving each one's value: the first
   * failure ends the computation, and each value is written under its parent field.
   */
  function PayloadUpTo(value: AggregationConfig -> Result<Value, string>, aggs: seq<AggregationConfig>, n: nat)
    : Result<Payload, string>
    requires n <= |aggs|
  {
    if n == 0 then Success(map[])
    else
      var prev :- PayloadUpTo(value, aggs, n - 1);
      var v :- value(aggs[n - 1]);
      Success(prev[aggs[n - 1].parentField := v])
  }

  /** The payload for a definition and one parent's child records. */
  function Aggregates(host: Host, now: int, d: RollupDefinition, records: seq<Value>): (r: Result<Payload, string>)
    ensures r.Success? ==> r.value.Keys == set k | 0 <= k < |d.aggregations| :: d.aggregations[k].parentField
  {
    var base := ApplyFilters(host, now, records, d.childFilters);
    var payload := PayloadUpTo(AggregateOver(host, now, base), d.aggregations, |d.aggregations|);
    if payload.Success? then
      PayloadKeys(AggregateOver(host, now, base), d.aggregations, |d.aggregations|);
      payload
    else payload
  }

  /** `computeAggregations`: the definition's child filters, then each aggregation in turn. */
  method ComputeAggregations(host: Host, now: int, d: RollupDefinition, records: seq<Value>)
    returns (result: Result<Payload, string>)
    ensures result == Aggregates(host, now, d, records)
  {
    var base := ApplyFilters(host, now, records, d.childFilters);
    result := AggregateEach(host, now, base, d.aggregations);
  }

  /**
   * The loop over the aggregations: each one's own filters narrow the base records, a missing
   * child field ends the computation with its message, and each value is written under its
   * parent field.
   */
  method AggregateEach(host: Host, now: int, base: seq<Value>, aggs: seq<AggregationConfig>)
    returns (result: Result<Payload, string>)
    ensures result == PayloadUpTo(AggregateOver(host, now, base), aggs, |aggs|)
  {
    var payload: Payload := map[];
    for i := 0 to |aggs|
      invariant PayloadUpTo(AggregateOver(host, now, base), aggs, i) == Success(payload)
    {
      var agg := aggs[i];
      var scoped := ApplyFilters(host, now, base, agg.filters);
      if LacksChildField(agg) {
        result := Failure(MissingChildFieldMessage(agg));
        PayloadStop(host, now, base, aggs, i);
        return;
      }
      var value := ComputeValue(host, agg, scoped);
      PayloadStep(host, now, base, aggs, i, payload, value);
      payload := payload[agg.parentField := value];
    }
    result := Success(payload);
  }

  /** An aggregation without its child field fails the whole computation with its message. */
  lemma PayloadStop(host: Host, now: int, base: seq<Value>, aggs: seq<AggregationConfig>, i: nat)
    requires i < |aggs|
    requires PayloadUpTo(AggregateOver(host, now, base), aggs, i).Success?
    requires LacksChildField(aggs[i])
    ensures PayloadUpTo(AggregateOver(host, now, base), aggs, |aggs|) == Failure(MissingChildFieldMessage(aggs[i]))
  {
    var over := AggregateOver(host, now, base);
    var stop := AggregationValue(host, aggs[i], ApplyFilters(host, now, base, aggs[i].filters));
    assert stop == Failure(MissingChildFieldMessage(aggs[i]));
    assert over(aggs[i]) == stop;
    PayloadFailurePersists(over, aggs, i + 1, |aggs|);
  }

  /** One more successful aggregation writes its value under its parent field. */
  lemma PayloadStep(host: Host, now: int, base: seq<Value>, aggs: seq<AggregationConfig>, i: nat,
                    payload: Payload, value: Value)
    requires i < |aggs|
    requires PayloadUpTo(AggregateOver(host, now, base), aggs, i) == Success(payload)
    requires AggregationValue(host, aggs[i], ApplyFilters(host, now, base, aggs[i].filters)) == Success(value)
    ensures PayloadUpTo(AggregateOver(host, now, base), aggs, i + 1) == Success(payload[aggs[i].parentField := value])
  {
  }

  /** The `switch` on the aggregation type, for an aggregation that has its child field. */
  method ComputeValue(host: Host, agg: AggregationConfig, scoped: seq<Value>) returns (value: Value)
    requires !LacksChildField(agg)
    ensures AggregationValue(host, agg, scoped) == Success(value)
  {
    match agg.kind {
      case Count =>
        value := Num(|scoped| as real);
      case Sum =>
        value := SumValue(host, agg, scoped);
      case Avg =>
        value := AvgValue(host, agg.childField, scoped);
      case Max =>
        var chosen := ChooseExtreme(host, Highest, agg.childField, scoped);
        value := ExtremeOutput(host, chosen);
      case Min =>
        var chosen := ChooseExtreme(host, Lowest, agg.childField, scoped);
        value := ExtremeOutput(host, chosen);
    }
  }

  /** Once an aggregation fails, the whole computation fails with its message. */
  lemma {:induction false} PayloadFailurePersists(value: AggregationConfig -> Result<Value, string>,
                                                  aggs: seq<AggregationConfig>, k: nat, m: nat)
    requires k <= m <= |aggs|
    requires PayloadUpTo(value, aggs, k).Failure?
    ensures PayloadUpTo(value, aggs, m) == PayloadUpTo(value, aggs, k)
    decreases m - k
  {
    if k < m {
      PayloadFailurePersists(value, aggs, k, m - 1);
    }
  }

  /**
   * The computation fails exactly when some aggregation fails, and then with the message
   * of the first one that does.
   */
  lemma {:induction false} PayloadFailure(value: AggregationConfig -> Result<Value, string>,
                                          aggs: seq<AggregationConfig>, n: nat)
    requires n <= |aggs|
    ensures PayloadUpTo(value, aggs, n).Failure? <==> exists k :: 0 <= k < n && value(aggs[k]).Failure?
    ensures PayloadUpTo(value, aggs, n).Failure? ==>
      exists k :: 0 <= k < n && value(aggs[k]).Failure?
        && PayloadUpTo(value, aggs, n).error == value(aggs[k]).error
        && forall j :: 0 <= j < k ==> value(aggs[j]).Success?
  {
    if n > 0 {
      PayloadFailure(value, aggs, n - 1);
    }
  }

  /** On success every aggregation's parent field is written, and nothing else. */
  lemma {:induction false} PayloadKeys(value: AggregationConfig -> Result<Value, string>,
                                       aggs: seq<AggregationConfig>, n: nat)
    requires n <= |aggs|
    requires PayloadUpTo(value, aggs, n).Success?
    ensures PayloadUpTo(value, aggs, n).value.Keys == set k | 0 <= k < n :: aggs[k].parentField
  {
    if n > 0 {
      PayloadKeys(value, aggs, n - 1);
      assert (set k | 0 <= k < n :: aggs[k].parentField)
          == (set k | 0 <= k < n - 1 :: aggs[k].parentField) + {aggs[n - 1].parentField};
    }
  }

  /**
   * On success the value under each parent field is the one computed by the last
   * aggregation writing that field: a later aggregation overwrites an earlier one.
   */
  lemma {:induction false} PayloadLastWins(value: AggregationConfig -> Result<Value, string>,
                                           aggs: seq<AggregationConfig>, n: nat, k: nat)
    requires k < n <= |aggs|
    requires PayloadUpTo(value, aggs, n).Success?
    requires forall j :: k < j < n ==> aggs[j].parentField != aggs[k].parentField
    ensures aggs[k].parentField in PayloadUpTo(value, aggs, n).value
    ensures value(aggs[k]).Success?
    ensures PayloadUpTo(value, aggs, n).value[aggs[k].parentField] == value(aggs[k]).value
    decreases n
  {
    if k < n - 1 {
      PayloadLastWins(value, aggs, n - 1, k);
    }
  }

  /** When no aggregation yields an undefined value, none is written. */
  lemma {:induction false} PayloadDefined(value: AggregationConfig -> Result<Value, string>,
                                          aggs: seq<AggregationConfig>, n: nat)
    requires n <= |aggs|
    requires PayloadUpTo(value, aggs, n).Success?
    requires forall k :: 0 <= k < n && value(aggs[k]).Success? ==> value(aggs[k]).value != Undef
    ensures forall key :: key in PayloadUpTo(value, aggs, n).value ==> PayloadUpTo(value, aggs, n).value[key] != Undef
  {
    if n > 0 {
      PayloadDefined(value, aggs, n - 1);
    }
  }

  /**
   * The computation fails exactly when some non-COUNT aggregation lacks its child field,
   * and then with the message of the first such aggregation.
   */
  lemma AggregatesFailure(host: Host, now: int, d: RollupDefinition, records: seq<Value>)
    ensures Aggregates(host, now, d, records).Failure? <==>
      exists k :: 0 <= k < |d.aggregations| && LacksChildField(d.aggregations[k])
    ensures Aggregates(host, now, d, records).Failure? ==>
      exists k :: 0 <= k < |d.aggregations| && LacksChildField(d.aggregations[k])
        && Aggregates(host, now, d, records).error == MissingChildFieldMessage(d.aggregations[k])
        && forall j :: 0 <= j < k ==> !LacksChildField(d.aggregations[j])
  {
    var aggs := d.aggregations;
    var over := AggregateOver(host, now, ApplyFilters(host, now, records, d.childFilters));
    assert forall k :: 0 <= k < |aggs| ==>
      over(aggs[k]) == AggregationValue(host, aggs[k], ApplyFilters(host, now, ApplyFilters(host, now, records, d.childFilters), aggs[k].filters));
    PayloadFailure(over, aggs, |aggs|);
  }

  /** A valid definition always computes, writing exactly its aggregations' parent fields. */
  lemma ValidDefinitionComputes(host: Host, now: int, d: RollupDefinition, records: seq<Value>)
    requires ValidDefinition(d)
    ensures Aggregates(host, now, d, records).Success?
    ensures Aggregates(host, now, d, records).value.Keys
         == set k | 0 <= k < |d.aggregations| :: d.aggregations[k].parentField
  {
    var over := AggregateOver(host, now, ApplyFilters(host, now, records, d.childFilters));
    AggregatesFailure(host, now, d, records);
    PayloadKeys(over, d.aggregations, |d.aggregations|);
  }

  /**
   * The value of the last aggregation writing a parent field is that aggregation's value
   * over the records passing the definition's child filters followed by its own filters;
   * for COUNT it is the number of those records.
   */
  lemma AggregationResult(host: Host, now: int, d: RollupDefinition, records: seq<Value>, k: nat)
    requires k < |d.aggregations|
    requires Aggregates(host, now, d, records).Success?
    requires forall j :: k < j < |d.aggregations| ==> d.aggregations[j].parentField != d.aggregations[k].parentField
    ensures var agg := d.aggregations[k];
      var scoped := ApplyFilters(host, now, records, d.childFilters + agg.filters);
      && agg.parentField in Aggregates(host, now, d, records).value
      && AggregationValue(host, agg, scoped).Success?
      && Aggregates(host, now, d, records).value[agg.parentField] == AggregationValue(host, agg, scoped).value
      && (agg.kind == Count ==> Aggregates(host, now, d, records).value[agg.parentField] == Num(|scoped| as real))
  {
    var base := ApplyFilters(host, now, records, d.childFilters);
    PayloadLastWins(AggregateOver(host, now, base), d.aggregations, |d.aggregations|, k);
    ApplyFiltersCompose(host, now, records, d.childFilters, d.aggregations[k].filters);
  }

  /**
   * `sanitizePayload`: the entries whose value is defined. (Non-finite numbers, which it
   * also drops, do not arise among real numbers.)
   */
  function Sanitize(payload: Payload): (r: Payload)
    ensures forall key :: key in r <==> key in payload && payload[key] != Undef
    ensures forall key :: key in r ==> r[key] == payload[key]
  {
    map key | key in payload && payload[key] != Undef :: payload[key]
  }

  /** Sanitising a computed payload changes nothing. */
  lemma SanitizeComputedPayload(host: Host, now: int, d: RollupDefinition, records: seq<Value>)
    requires Aggregates(host, now, d, records).Success?
    ensures Sanitize(Aggregates(host, now, d, records).value) == Aggregates(host, now, d, records).value
  {
    var over := AggregateOver(host, now, ApplyFilters(host, now, records, d.childFilters));
    PayloadDefined(over, d.aggregations, |d.aggregations|);
  }
}
