/**
 * Filter evaluation: how a child record's field value is compared with a filter's value
 * (loose equality after normalisation, membership, and numeric or date ordering), and how
 * a list of filters selects child records.
 */
module Filters {
  import opened Wrappers
  import opened JsonValue
  import opened Calendar
  import opened RollupConfig
  import opened FieldPath

  /** What `normalizeForEquality` yields: null, a number, a boolean or a string. */
  datatype Normalized = NNull | NNum(n: real) | NBool(b: bool) | NStr(s: string)

  /**
   * `normalizeForEquality`: numbers and booleans as they are, numeric strings as numbers,
   * other strings as they are, dates as their ISO string, everything else as null.
   */
  function NormalizeForEquality(host: Host, v: Value): (r: Normalized)
    ensures r.NNull? <==> v.Undef? || v.Null? || v.Arr? || v.Obj?
    ensures r.NBool? <==> v.Bool?
    ensures r.NNum? ==> v.Num? || (v.Str? && host.numberOf(v.s) == Some(r.n))
  {
    match v
    case Num(n) => NNum(n)
    case Bool(b) => NBool(b)
    case Str(s) => if host.numberOf(s).Some? then NNum(host.numberOf(s).value) else NStr(s)
    case DateV(ms) => NStr(host.isoString(ms))
    case _ => NNull
  }

  /**
   * `toComparableNumber`: numbers as they are; strings as `Number(s)`, else as
   * `Date.parse(s)`, else none; dates as their time value; everything else none.
   */
  function ToComparableNumber(host: Host, v: Value): (r: Option<real>)
    ensures r.Some? ==> v.Num? || v.Str? || v.DateV?
    ensures v.Num? ==> r == Some(v.n)
  {
    match v
    case Num(n) => Some(n)
    case Str(s) =>
      if host.numberOf(s).Some? then host.numberOf(s)
      else if host.dateParse(s).Some? then Some(host.dateParse(s).value as real)
      else None
    case DateV(ms) => Some(ms as real)
    case _ => None
  }

  /** `compareValues`: the difference of the two comparable numbers, when both exist. */
  function CompareValues(host: Host, left: Value, right: Value): (r: Option<real>)
    ensures r.Some? <==> ToComparableNumber(host, left).Some? && ToComparableNumber(host, right).Some?
    ensures r.Some? ==> r.value + ToComparableNumber(host, right).value == ToComparableNumber(host, left).value
  {
    var l := ToComparableNumber(host, left);
    var r := ToComparableNumber(host, right);
    if l.None? || r.None? then None else Some(l.value - r.value)
  }

  /** `resolveDynamicValue`: `startOfYear` is the ISO string of the current UTC year's first instant. */
  function ResolveDynamicValue(host: Host, d: DynamicValue, now: int): (r: Value)
    ensures r.Str?
    ensures IsoRoundTrips(host) ==> host.dateParse(r.s) == Some(StartOfYearMs(now))
  {
    match d
    case StartOfYear => Str(host.isoString(StartOfYearMs(now)))
  }

  /** The value a filter compares against: its dynamic value when it has one, else its literal value. */
  function ComparisonSource(host: Host, f: FilterConfig, now: int): (r: Value)
    ensures f.dynamicValue.None? ==> r == f.value
  {
    if f.dynamicValue.Some? then ResolveDynamicValue(host, f.dynamicValue.value, now) else f.value
  }

  /** Loose equality of the `equals` operator: normalised values when both exist, else strict equality. */
  function LooseEquals(host: Host, a: Value, b: Value): (r: bool)
    ensures StrictEquals(a, b) ==> r
  {
    var l := NormalizeForEquality(host, a);
    var r := NormalizeForEquality(host, b);
    if !l.NNull? && !r.NNull? then l == r else StrictEquals(a, b)
  }

  /** `candidates.map(normalizeForEquality).some(c => c === left)`. */
  predicate SomeNormalizesTo(host: Host, candidates: seq<Value>, left: Normalized) {
    exists k :: 0 <= k < |candidates| && NormalizeForEquality(host, candidates[k]) == left
  }

  /** `evaluateFilter`: whether a field value passes one filter. */
  function EvaluateFilter(host: Host, now: int, raw: Value, f: FilterConfig): (r: bool)
    ensures r && (f.operator.In? || f.operator.Gt? || f.operator.Gte? || f.operator.Lt? || f.operator.Lte?)
        ==> raw != Undef && raw != Null
  {
    var source := ComparisonSource(host, f, now);
    var left := NormalizeForEquality(host, raw);
    var right := NormalizeForEquality(host, source);
    var comparison := CompareValues(host, raw, source);
    match f.operator
    case Equals => LooseEquals(host, raw, source)
    case NotEquals => if !left.NNull? && !right.NNull? then left != right else !StrictEquals(raw, source)
    case In =>
      if !source.Arr? then false
      else if left.NNull? then false
      else SomeNormalizesTo(host, source.items, left)
    case NotIn =>
      if !source.Arr? then true
      else if left.NNull? then true
      else !SomeNormalizesTo(host, source.items, left)
    case Gt => comparison.Some? && comparison.value > 0.0
    case Gte => comparison.Some? && comparison.value >= 0.0
    case Lt => comparison.Some? && comparison.value < 0.0
    case Lte => comparison.Some? && comparison.value <= 0.0
  }

  /** Loose equality does not depend on the order of its operands. */
  lemma LooseEqualsSymmetric(host: Host, a: Value, b: Value)
    ensures LooseEquals(host, a, b) == LooseEquals(host, b, a)
  {
  }

  /** `notEquals` passes exactly the values `equals` rejects. */
  lemma NotEqualsNegatesEquals(host: Host, now: int, raw: Value, f: FilterConfig)
    ensures EvaluateFilter(host, now, raw, f.(operator := NotEquals))
        == !EvaluateFilter(host, now, raw, f.(operator := Equals))
  {
  }

  /**
   * `notIn` passes exactly the values `in` rejects; without a list to search, `in` passes
   * nothing and `notIn` everything.
   */
  lemma NotInNegatesIn(host: Host, now: int, raw: Value, f: FilterConfig)
    ensures EvaluateFilter(host, now, raw, f.(operator := NotIn))
        == !EvaluateFilter(host, now, raw, f.(operator := In))
    ensures !ComparisonSource(host, f, now).Arr? ==>
      !EvaluateFilter(host, now, raw, f.(operator := In)) && EvaluateFilter(host, now, raw, f.(operator := NotIn))
  {
    assert ComparisonSource(host, f.(operator := In), now) == ComparisonSource(host, f, now);
    assert ComparisonSource(host, f.(operator := NotIn), now) == ComparisonSource(host, f, now);
  }

  /** `in` passes a value exactly when some listed value normalises to the same non-null value. */
  lemma InMeansListed(host: Host, now: int, raw: Value, f: FilterConfig)
    requires f.operator == In && ComparisonSource(host, f, now).Arr?
    ensures EvaluateFilter(host, now, raw, f) <==>
      exists k :: 0 <= k < |ComparisonSource(host, f, now).items| &&
        NormalizeForEquality(host, ComparisonSource(host, f, now).items[k]) == NormalizeForEquality(host, raw) &&
        !NormalizeForEquality(host, raw).NNull?
  {
  }

  /**
   * The ordering operators order the comparable numbers of the two sides: when both sides
   * are comparable `gt` and `lte` (and `lt` and `gte`) split the values between them, and
   * when either side is not comparable no ordering operator passes.
   */
  lemma OrderingOperators(host: Host, now: int, raw: Value, f: FilterConfig)
    ensures var l := ToComparableNumber(host, raw);
      var r := ToComparableNumber(host, ComparisonSource(host, f, now));
      && (EvaluateFilter(host, now, raw, f.(operator := Gt)) <==> l.Some? && r.Some? && l.value > r.value)
      && (EvaluateFilter(host, now, raw, f.(operator := Gte)) <==> l.Some? && r.Some? && l.value >= r.value)
      && (EvaluateFilter(host, now, raw, f.(operator := Lt)) <==> l.Some? && r.Some? && l.value < r.value)
      && (EvaluateFilter(host, now, raw, f.(operator := Lte)) <==> l.Some? && r.Some? && l.value <= r.value)
  {
    var source := ComparisonSource(host, f, now);
    assert ComparisonSource(host, f.(operator := Gt), now) == source;
    assert ComparisonSource(host, f.(operator := Gte), now) == source;
    assert ComparisonSource(host, f.(operator := Lt), now) == source;
    assert ComparisonSource(host, f.(operator := Lte), now) == source;
  }

  /** A numeric string equals the number it denotes. */
  lemma NumericStringEqualsNumber(host: Host, now: int, s: string, n: real, field: string)
    requires host.numberOf(s) == Some(n)
    ensures EvaluateFilter(host, now, Str(s), FilterConfig(field, Equals, Num(n), None))
  {
  }

  /**
   * The year-to-date filter `gte startOfYear` passes a value exactly when it is comparable
   * and not earlier than the first instant of the current UTC year (given that ISO strings
   * parse back to their instant and are not numbers).
   */
  lemma StartOfYearFilter(host: Host, now: int, raw: Value, field: string, value: Value)
    requires IsoRoundTrips(host)
    ensures var l := ToComparableNumber(host, raw);
      (EvaluateFilter(host, now, raw, FilterConfig(field, Gte, value, Some(StartOfYear))) <==>
        l.Some? && l.value >= StartOfYearMs(now) as real)
  {
    var iso := host.isoString(StartOfYearMs(now));
    assert host.numberOf(iso) == None && host.dateParse(iso) == Some(StartOfYearMs(now));
  }

  // ---------------------------------------------------------------------------
  // Selecting records

  /** `filters.every(...)` for one record. */
  predicate PassesAll(host: Host, now: int, record: Value, filters: seq<FilterConfig>) {
    forall k :: 0 <= k < |filters| ==> EvaluateFilter(host, now, GetNestedValue(record, filters[k].field), filters[k])
  }

  /** `records.filter(...)`: the passing records, in their order. */
  function Retain(host: Host, now: int, records: seq<Value>, filters: seq<FilterConfig>): (r: seq<Value>)
    ensures |r| <= |records|
    decreases |records|
  {
    if records == [] then []
    else
      var rest := Retain(host, now, records[1..], filters);
      if PassesAll(host, now, records[0], filters) then [records[0]] + rest else rest
  }

  /** `applyFilters`: no filters keep every record; otherwise the records passing all of them. */
  function ApplyFilters(host: Host, now: int, records: seq<Value>, filters: seq<FilterConfig>): (r: seq<Value>)
    ensures |r| <= |records|
    ensures filters == [] ==> r == records
  {
    if filters == [] then records else Retain(host, now, records, filters)
  }

  /** `a` is `b` with some elements removed, order kept. */
  predicate IsSubsequence(a: seq<Value>, b: seq<Value>)
    decreases |b|
  {
    if a == [] then true
    else if b == [] then false
    else (a[0] == b[0] && IsSubsequence(a[1..], b[1..])) || IsSubsequence(a, b[1..])
  }

  lemma {:induction false} RetainExact(host: Host, now: int, records: seq<Value>, filters: seq<FilterConfig>)
    ensures IsSubsequence(Retain(host, now, records, filters), records)
    ensures forall x :: (multiset(Retain(host, now, records, filters))[x]
      == if PassesAll(host, now, x, filters) then multiset(records)[x] else 0)
    decreases |records|
  {
    if records != [] {
      RetainExact(host, now, records[1..], filters);
      assert records == [records[0]] + records[1..];
      var rest := Retain(host, now, records[1..], filters);
      if PassesAll(host, now, records[0], filters) {
        assert ([records[0]] + rest)[1..] == rest;
      }
    }
  }

  /**
   * `applyFilters` keeps the record order and keeps each record exactly as often as it
   * occurs when it passes every filter, and never otherwise.
   */
  lemma ApplyFiltersExact(host: Host, now: int, records: seq<Value>, filters: seq<FilterConfig>)
    ensures IsSubsequence(ApplyFilters(host, now, records, filters), records)
    ensures forall x :: (multiset(ApplyFilters(host, now, records, filters))[x]
      == if PassesAll(host, now, x, filters) then multiset(records)[x] else 0)
    ensures forall x :: x in ApplyFilters(host, now, records, filters) <==> x in records && PassesAll(host, now, x, filters)
  {
    if filters == [] {
      IsSubsequenceReflexive(records);
    } else {
      RetainExact(host, now, records, filters);
    }
    forall x ensures x in ApplyFilters(host, now, records, filters) <==> x in records && PassesAll(host, now, x, filters) {
      assert x in ApplyFilters(host, now, records, filters) <==> x in multiset(ApplyFilters(host, now, records, filters));
      assert x in records <==> x in multiset(records);
    }
  }

  lemma {:induction false} IsSubsequenceReflexive(a: seq<Value>)
    ensures IsSubsequence(a, a)
    decreases |a|
  {
    if a != [] {
      IsSubsequenceReflexive(a[1..]);
    }
  }

  lemma PassesAllAppend(host: Host, now: int, x: Value, f1: seq<FilterConfig>, f2: seq<FilterConfig>)
    ensures PassesAll(host, now, x, f1 + f2) <==> PassesAll(host, now, x, f1) && PassesAll(host, now, x, f2)
  {
    if PassesAll(host, now, x, f1) && PassesAll(host, now, x, f2) {
      forall k | 0 <= k < |f1 + f2|
        ensures EvaluateFilter(host, now, GetNestedValue(x, (f1 + f2)[k].field), (f1 + f2)[k])
      {
        if k >= |f1| { assert (f1 + f2)[k] == f2[k - |f1|]; }
      }
    }
    if PassesAll(host, now, x, f1 + f2) {
      forall k | 0 <= k < |f1| ensures EvaluateFilter(host, now, GetNestedValue(x, f1[k].field), f1[k]) {
        assert (f1 + f2)[k] == f1[k];
      }
      forall k | 0 <= k < |f2| ensures EvaluateFilter(host, now, GetNestedValue(x, f2[k].field), f2[k]) {
        assert (f1 + f2)[|f1| + k] == f2[k];
      }
    }
  }

  lemma {:induction false} RetainCompose(host: Host, now: int, records: seq<Value>, f1: seq<FilterConfig>, f2: seq<FilterConfig>)
    ensures Retain(host, now, Retain(host, now, records, f1), f2) == Retain(host, now, records, f1 + f2)
    decreases |records|
  {
    if records != [] {
      RetainCompose(host, now, records[1..], f1, f2);
      PassesAllAppend(host, now, records[0], f1, f2);
      var rest := Retain(host, now, records[1..], f1);
      if PassesAll(host, now, records[0], f1) {
        assert ([records[0]] + rest)[0] == records[0];
        assert ([records[0]] + rest)[1..] == rest;
      }
    }
  }

  /** Filtering by one list and then another selects what filtering by both lists at once selects. */
  lemma ApplyFiltersCompose(host: Host, now: int, records: seq<Value>, f1: seq<FilterConfig>, f2: seq<FilterConfig>)
    ensures ApplyFilters(host, now, ApplyFilters(host, now, records, f1), f2)
         == ApplyFilters(host, now, records, f1 + f2)
  {
    if f1 == [] {
      assert f1 + f2 == f2;
    } else if f2 == [] {
      assert f1 + f2 == f1;
    } else {
      RetainCompose(host, now, records, f1, f2);
    }
  }
}
