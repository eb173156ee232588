/**
 * The SUM and AVG aggregations: the numeric reading of a field value, the two `reduce`
 * folds over the scoped child records, and the rounding applied to their results.
 */
module Aggregation {
  import opened Wrappers
  import opened JsonValue
  import opened RollupConfig
  import opened FieldPath

  /** `Math.round`: the nearest integer, halves rounded up. */
  function JsRound(x: real): (r: int)
    ensures x - 1.0 / 2.0 < r as real <= x + 1.0 / 2.0
  {
    (x + 1.0 / 2.0).Floor
  }

  /** `Number.isInteger`. */
  predicate IsInteger(x: real) {
    x == x.Floor as real
  }

  /** Rounding an integer leaves it alone. */
  lemma JsRoundInteger(k: int)
    ensures JsRound(k as real) == k
  {
    var r := JsRound(k as real);
    assert r as real < (k + 1) as real;
    assert (k - 1) as real < r as real;
  }

  /** `roundForSum`: integers as they are, anything else to the nearest hundredth. */
  function RoundForSum(x: real): (r: real)
    ensures IsInteger(x) ==> r == x
    ensures x - 1.0 / 200.0 < r <= x + 1.0 / 200.0
  {
    if IsInteger(x) then x else JsRound(x * 100.0) as real / 100.0
  }

  /**
   * The amount written for a SUM, as the source computes it: `Math.round(roundForSum(total))`,
   * which rounds twice.
   */
  function SumMicrosAsWritten(total: real): (r: int)
    ensures IsInteger(total) ==> r as real == total
    ensures total - 1.0 / 2.0 - 1.0 / 200.0 < r as real <= total + 1.0 / 2.0 + 1.0 / 200.0
  {
    var hundredths := RoundForSum(total);
    if IsInteger(total) then
      assert hundredths == total.Floor as real;
      JsRoundInteger(total.Floor);
      JsRound(hundredths)
    else
      JsRound(hundredths)
  }

  /** The amount a SUM would write with a single rounding: the total to the nearest integer. */
  function SumMicros(total: real): (r: int)
    ensures total - 1.0 / 2.0 < r as real <= total + 1.0 / 2.0
  {
    JsRound(total)
  }

  /**
   * Rounding to hundredths first moves a total just below one half up to one half, and the
   * second rounding then carries it to the next integer: 0.496 becomes 1 instead of 0.
   */
  lemma DoubleRoundingDiffers()
    ensures SumMicrosAsWritten(0.496) == 1
    ensures SumMicros(0.496) == 0
  {
    assert !IsInteger(0.496);
    assert JsRound(49.6) == 50;
  }

  /** The two roundings agree on integer totals, the usual case for sums of micro-units. */
  lemma SumRoundingsAgreeOnIntegers(total: int)
    ensures SumMicrosAsWritten(total as real) == SumMicros(total as real) == total
  {
    assert IsInteger(total as real);
    JsRoundInteger(total);
  }

  /**
   * The numeric reading of a field value: numbers as they are, strings through `Number`,
   * anything else NaN (None), which the folds skip.
   */
  function NumericValue(host: Host, v: Value): (r: Option<real>)
    ensures r.Some? ==> v.Num? || v.Str?
    ensures v.Num? ==> r == Some(v.n)
  {
    match v
    case Num(n) => Some(n)
    case Str(s) => host.numberOf(s)
    case _ => None
  }

  /** The numeric reading of a record's field, when it has one. */
  function FieldNumber(host: Host, field: string, record: Value): Option<real> {
    NumericValue(host, GetNestedValue(record, field))
  }

  /** The records' numeric field values added up, first record first. */
  function Total(host: Host, field: string, records: seq<Value>): real
    decreases |records|
  {
    if records == [] then 0.0
    else
      var n := FieldNumber(host, field, records[0]);
      (if n.Some? then n.value else 0.0) + Total(host, field, records[1..])
  }

  /** How many records have a numeric field value. */
  function NumericCount(host: Host, field: string, records: seq<Value>): (r: nat)
    ensures r <= |records|
    decreases |records|
  {
    if records == [] then 0
    else (if FieldNumber(host, field, records[0]).Some? then 1 else 0) + NumericCount(host, field, records[1..])
  }

  lemma {:induction false} TotalAppend(host: Host, field: string, a: seq<Value>, b: seq<Value>)
    ensures Total(host, field, a + b) == Total(host, field, a) + Total(host, field, b)
    ensures NumericCount(host, field, a + b) == NumericCount(host, field, a) + NumericCount(host, field, b)
    decreases |a|
  {
    if a == [] {
      assert a + b == b;
    } else {
      TotalAppend(host, field, a[1..], b);
      assert (a + b)[0] == a[0];
      assert (a + b)[1..] == a[1..] + b;
    }
  }

  /** Taking out the record at `i` takes out its contribution to the total and the count. */
  lemma TotalRemove(host: Host, field: string, b: seq<Value>, i: nat)
    requires i < |b|
    ensures Total(host, field, b) == Total(host, field, [b[i]]) + Total(host, field, b[..i] + b[i + 1..])
    ensures NumericCount(host, field, b) == NumericCount(host, field, [b[i]]) + NumericCount(host, field, b[..i] + b[i + 1..])
  {
    TotalAppend(host, field, b[..i], [b[i]] + b[i + 1..]);
    TotalAppend(host, field, [b[i]], b[i + 1..]);
    TotalAppend(host, field, b[..i], b[i + 1..]);
    assert [b[i]] + b[i + 1..] == b[i..];
    assert b[..i] + b[i..] == b;
  }

  /** Removing the same element from two permutations of each other leaves permutations. */
  lemma PermutationRemove(a: seq<Value>, b: seq<Value>, i: nat)
    requires multiset(a) == multiset(b) && a != [] && i < |b| && b[i] == a[0]
    ensures multiset(a[1..]) == multiset(b[..i] + b[i + 1..])
  {
    assert b == b[..i] + [b[i]] + b[i + 1..];
    assert a == [a[0]] + a[1..];
    assert multiset(b) == multiset(b[..i]) + multiset([b[i]]) + multiset(b[i + 1..]);
    assert multiset(a) == multiset([a[0]]) + multiset(a[1..]);
    assert multiset(b[..i] + b[i + 1..]) == multiset(b[..i]) + multiset(b[i + 1..]);
    assert multiset(a[1..]) == multiset(a) - multiset{a[0]};
    assert multiset(b[..i] + b[i + 1..]) == multiset(b) - multiset{b[i]};
  }

  /** The total and the count do not depend on the order of the records. */
  lemma {:induction false} TotalPermutation(host: Host, field: string, a: seq<Value>, b: seq<Value>)
    requires multiset(a) == multiset(b)
    ensures Total(host, field, a) == Total(host, field, b)
    ensures NumericCount(host, field, a) == NumericCount(host, field, b)
    decreases |a|
  {
    if a == [] {
      assert |b| == |multiset(b)| == 0;
    } else {
      assert a[0] in multiset(b);
      var i :| 0 <= i < |b| && b[i] == a[0];
      PermutationRemove(a, b, i);
      TotalPermutation(host, field, a[1..], b[..i] + b[i + 1..]);
      TotalRemove(host, field, b, i);
      TotalRemove(host, field, a, 0);
      assert a[..0] + a[1..] == a[1..];
    }
  }

  // ---------------------------------------------------------------------------
  // SUM

  /** The SUM accumulator: the running amount and the currency seen so far. */
  datatype SumState = SumState(amount: real, currency: Option<string>)

  /** The currency value of a record, read only when the aggregation names a currency field. */
  function CurrencyOf(agg: AggregationConfig, record: Value): Value {
    if agg.currencyField.Some? then GetNestedValue(record, agg.currencyField.value) else Undef
  }

  /** A record whose amount is added and whose currency is a non-blank string. */
  predicate LabelsCurrency(host: Host, agg: AggregationConfig, record: Value) {
    FieldNumber(host, agg.childField, record).Some? && NonBlankString(CurrencyOf(agg, record))
  }

  /** One step of the SUM `reduce`. */
  function SumStep(host: Host, agg: AggregationConfig, acc: SumState, record: Value): SumState {
    var numeric := FieldNumber(host, agg.childField, record);
    var currencyRaw := CurrencyOf(agg, record);
    if numeric.None? then acc
    else SumState(acc.amount + numeric.value, if NonBlankString(currencyRaw) then Some(currencyRaw.s) else acc.currency)
  }

  /** The SUM `reduce`, from `{ amount: 0, currency: undefined }`. */
  function SumFold(host: Host, agg: AggregationConfig, records: seq<Value>): (r: SumState)
    ensures r.currency.Some? ==> !IsBlank(r.currency.value)
    decreases |records|
  {
    if records == [] then SumState(0.0, None)
    else SumStep(host, agg, SumFold(host, agg, records[..|records| - 1]), records[|records| - 1])
  }

  /** The SUM amount is the total of the numeric values; non-numeric values add nothing. */
  lemma {:induction false} SumFoldAmount(host: Host, agg: AggregationConfig, records: seq<Value>)
    ensures SumFold(host, agg, records).amount == Total(host, agg.childField, records)
    decreases |records|
  {
    if records != [] {
      var init := records[..|records| - 1];
      var last := records[|records| - 1];
      SumFoldAmount(host, agg, init);
      TotalAppend(host, agg.childField, init, [last]);
      assert records == init + [last];
      assert [last][1..] == [];
    }
  }

  /** One SUM step takes the record's currency exactly when the record labels one. */
  lemma CurrencyStep(host: Host, agg: AggregationConfig, acc: SumState, record: Value)
    ensures SumStep(host, agg, acc, record).currency
         == if LabelsCurrency(host, agg, record) then Some(CurrencyOf(agg, record).s) else acc.currency
  {
  }

  /** The SUM ends without a currency exactly when no added record carries a non-blank one. */
  lemma {:induction false} SumFoldNoCurrency(host: Host, agg: AggregationConfig, records: seq<Value>)
    ensures SumFold(host, agg, records).currency.None? <==>
      forall i :: 0 <= i < |records| ==> !LabelsCurrency(host, agg, records[i])
    decreases |records|
  {
    if records != [] {
      var init := records[..|records| - 1];
      var n := |records| - 1;
      SumFoldNoCurrency(host, agg, init);
      CurrencyStep(host, agg, SumFold(host, agg, init), records[n]);
      assert SumFold(host, agg, records) == SumStep(host, agg, SumFold(host, agg, init), records[n]);
      assert forall i :: 0 <= i < n ==> init[i] == records[i];
    }
  }

  /** A record labelling `currency`, with no labelling record after it, witnesses the currency. */
  lemma LastLabelWitness(host: Host, agg: AggregationConfig, records: seq<Value>, i: nat, currency: string)
    requires i < |records| && LabelsCurrency(host, agg, records[i]) && CurrencyOf(agg, records[i]) == Str(currency)
    requires forall j :: i < j < |records| ==> !LabelsCurrency(host, agg, records[j])
    ensures
      exists k :: 0 <= k < |records| && LabelsCurrency(host, agg, records[k])
        && CurrencyOf(agg, records[k]) == Str(currency)
        && forall j :: k < j < |records| ==> !LabelsCurrency(host, agg, records[j])
  {
  }

  /**
   * The SUM currency is that of the last record that is added and carries a non-blank
   * currency; with no such record there is none.
   */
  lemma {:induction false} SumFoldCurrency(host: Host, agg: AggregationConfig, records: seq<Value>)
    ensures SumFold(host, agg, records).currency.None? <==>
      forall i :: 0 <= i < |records| ==> !LabelsCurrency(host, agg, records[i])
    ensures SumFold(host, agg, records).currency.Some? ==>
      exists i :: 0 <= i < |records| && LabelsCurrency(host, agg, records[i])
        && CurrencyOf(agg, records[i]) == Str(SumFold(host, agg, records).currency.value)
        && forall j :: i < j < |records| ==> !LabelsCurrency(host, agg, records[j])
    decreases |records|
  {
    SumFoldNoCurrency(host, agg, records);
    if records != [] {
      var init := records[..|records| - 1];
      var n := |records| - 1;
      var sum := SumFold(host, agg, records);
      SumFoldCurrency(host, agg, init);
      CurrencyStep(host, agg, SumFold(host, agg, init), records[n]);
      assert sum == SumStep(host, agg, SumFold(host, agg, init), records[n]);
      if !LabelsCurrency(host, agg, records[n]) {
        if SumFold(host, agg, init).currency.Some? {
          var i :| 0 <= i < n && LabelsCurrency(host, agg, init[i])
            && CurrencyOf(agg, init[i]) == Str(SumFold(host, agg, init).currency.value)
            && forall j :: i < j < n ==> !LabelsCurrency(host, agg, init[j]);
          assert init[i] == records[i];
          forall j | i < j < |records| ensures !LabelsCurrency(host, agg, records[j]) {
            if j < n { assert init[j] == records[j]; }
          }
          LastLabelWitness(host, agg, records, i, sum.currency.value);
        }
      } else {
        LastLabelWitness(host, agg, records, n, sum.currency.value);
      }
    }
  }

  /**
   * The SUM output: the total of the numeric values, rounded as the source rounds it, in
   * micro-units, and the currency code of the last record labelling one, "" when none does.
   */
  function SumValue(host: Host, agg: AggregationConfig, records: seq<Value>): (r: Value)
    ensures r.Obj? && r.fields.Keys == {"amountMicros", "currencyCode"}
    ensures r.fields["amountMicros"] == Num(SumMicrosAsWritten(Total(host, agg.childField, records)) as real)
    ensures (forall i :: 0 <= i < |records| ==> !LabelsCurrency(host, agg, records[i]))
        ==> r.fields["currencyCode"] == Str("")
  {
    var total := SumFold(host, agg, records);
    SumFoldAmount(host, agg, records);
    SumFoldCurrency(host, agg, records);
    Obj(map[
      "amountMicros" := Num(SumMicrosAsWritten(total.amount) as real),
      "currencyCode" := Str(if total.currency.Some? then total.currency.value else "")])
  }

  // ---------------------------------------------------------------------------
  // AVG

  datatype AvgState = AvgState(total: real, count: nat)

  function AvgStep(host: Host, field: string, acc: AvgState, record: Value): AvgState {
    var numeric := FieldNumber(host, field, record);
    if numeric.None? then acc else AvgState(acc.total + numeric.value, acc.count + 1)
  }

  /** The AVG `reduce`, from `{ total: 0, count: 0 }`. */
  function AvgFold(host: Host, field: string, records: seq<Value>): (r: AvgState)
    ensures r.count <= |records|
    decreases |records|
  {
    if records == [] then AvgState(0.0, 0)
    else AvgStep(host, field, AvgFold(host, field, records[..|records| - 1]), records[|records| - 1])
  }

  /** The AVG accumulator holds the total and the number of the numeric values. */
  lemma {:induction false} AvgFoldIsTotalAndCount(host: Host, field: string, records: seq<Value>)
    ensures AvgFold(host, field, records) == AvgState(Total(host, field, records), NumericCount(host, field, records))
    decreases |records|
  {
    if records != [] {
      var init := records[..|records| - 1];
      var last := records[|records| - 1];
      AvgFoldIsTotalAndCount(host, field, init);
      TotalAppend(host, field, init, [last]);
      assert records == init + [last];
      assert [last][1..] == [];
    }
  }

  /** The AVG output: null without numeric values, else the mean rounded by `roundForSum`. */
  function AvgValue(host: Host, field: string, records: seq<Value>): (r: Value)
    ensures r == Null || r.Num?
    ensures records == [] ==> r == Null
  {
    var acc := AvgFold(host, field, records);
    if acc.count == 0 then Null else Num(RoundForSum(acc.total / acc.count as real))
  }

  /**
   * AVG is null exactly when no record has a numeric value; otherwise it is the mean of
   * those values to within half a hundredth.
   */
  lemma AvgValueMeaning(host: Host, field: string, records: seq<Value>)
    ensures AvgValue(host, field, records) == Null <==> NumericCount(host, field, records) == 0
    ensures NumericCount(host, field, records) > 0 ==>
      var mean := Total(host, field, records) / NumericCount(host, field, records) as real;
      AvgValue(host, field, records).Num? &&
      mean - 1.0 / 200.0 < AvgValue(host, field, records).n <= mean + 1.0 / 200.0
  {
    AvgFoldIsTotalAndCount(host, field, records);
  }
}
