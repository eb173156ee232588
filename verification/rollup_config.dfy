/**
 * The declarative rollup configuration: its typed form, the validator that checks a
 * parsed JSON configuration in source order and stops at the first defect, the reading
 * of an accepted configuration into the typed form, and override resolution.
 */
module RollupConfig {
  import opened Wrappers
  import opened JsonValue

  datatype AggregationType = Sum | Count | Max | Min | Avg
  datatype Operator = Equals | NotEquals | In | NotIn | Gt | Gte | Lt | Lte
  datatype DynamicValue = StartOfYear

  /** `value` is `Undef` when the filter has no literal value. */
  datatype FilterConfig = FilterConfig(
    field: string,
    operator: Operator,
    value: Value,
    dynamicValue: Option<DynamicValue>)

  /** `childField` is "" when absent (only COUNT may omit it). */
  datatype AggregationConfig = AggregationConfig(
    kind: AggregationType,
    parentField: string,
    childField: string,
    currencyField: Option<string>,
    filters: seq<FilterConfig>)

  datatype RollupDefinition = RollupDefinition(
    parentObject: string,
    childObject: string,
    relationField: string,
    childFilters: seq<FilterConfig>,
    aggregations: seq<AggregationConfig>)

  type Config = seq<RollupDefinition>

  /** `aggregationTypes.has(type)`. */
  function AggregationTypeOf(v: Value): (r: Option<AggregationType>)
    ensures r.Some? ==> v.Str?
  {
    match v
    case Str(s) =>
      if s == "SUM" then Some(Sum)
      else if s == "COUNT" then Some(Count)
      else if s == "MAX" then Some(Max)
      else if s == "MIN" then Some(Min)
      else if s == "AVG" then Some(Avg)
      else None
    case _ => None
  }

  /** `operatorSet.has(operator)`. */
  function OperatorOf(v: Value): (r: Option<Operator>)
    ensures r.Some? ==> v.Str?
  {
    match v
    case Str(s) =>
      if s == "equals" then Some(Equals)
      else if s == "notEquals" then Some(NotEquals)
      else if s == "in" then Some(In)
      else if s == "notIn" then Some(NotIn)
      else if s == "gt" then Some(Gt)
      else if s == "gte" then Some(Gte)
      else if s == "lt" then Some(Lt)
      else if s == "lte" then Some(Lte)
      else None
    case _ => None
  }

  /** The errors the validator throws; indices are the definition, aggregation and filter positions. */
  datatype ConfigError =
    | NotAnArray
    | DefinitionNotObject(definition: nat)
    | MissingParentObject(definition: nat)
    | MissingChildObject(definition: nat)
    | MissingRelationField(definition: nat)
    | NoAggregations(definition: nat)
    | AggregationNotObject(definition: nat, aggregation: nat)
    | UnsupportedType(definition: nat, aggregation: nat)
    | MissingParentField(definition: nat, aggregation: nat)
    | MissingChildField(definition: nat, aggregation: nat)
    | InvalidFiltersShape(definition: nat, aggregation: nat)
    | FilterNotObject(definition: nat, filter: nat)
    | MissingFilterField(definition: nat, filter: nat)
    | UnsupportedOperator(definition: nat, filter: nat)
  {
    predicate IsFilterError() {
      FilterNotObject? || MissingFilterField? || UnsupportedOperator?
    }
  }

  datatype Verdict = Accept | Reject(error: ConfigError)

  /** `typeof v === 'string' && v.length > 0` (the childField check does not trim). */
  predicate NonEmptyString(v: Value) {
    v.Str? && v.s != ""
  }

  // ---------------------------------------------------------------------------
  // The validator, check by check in source order

  /** The per-filter checks. */
  function FilterCheck(f: Value, index: nat, filterIndex: nat): Option<ConfigError> {
    if !IsObject(f) then Some(FilterNotObject(index, filterIndex))
    else if !NonBlankString(Prop(f, "field")) then Some(MissingFilterField(index, filterIndex))
    else if OperatorOf(Prop(f, "operator")).None? then Some(UnsupportedOperator(index, filterIndex))
    else None
  }

  /**
   * Runs `check` on each element in order, numbering them from `index`, and stops at the
   * first error: the shape of both `forEach` loops of the validator.
   */
  function FirstError<T>(xs: seq<T>, check: (T, nat) -> Option<ConfigError>, index: nat): Option<ConfigError>
    decreases |xs|
  {
    if xs == [] then None
    else if check(xs[0], index).Some? then check(xs[0], index)
    else FirstError(xs[1..], check, index + 1)
  }

  /** `allFilters.forEach(...)`: the first filter that fails its checks. */
  function ValidateFilters(fs: seq<Value>, index: nat, filterIndex: nat): Option<ConfigError> {
    FirstError(fs, (f, k) => FilterCheck(f, index, k), filterIndex)
  }

  /** The per-aggregation checks made inside `flatMap`. */
  function AggregationCheck(a: Value, index: nat, aggIndex: nat): (r: Option<ConfigError>)
    ensures r.Some? ==> !r.value.NotAnArray? && r.value.definition == index && !r.value.IsFilterError()
    ensures r.None? ==> IsObject(a) && AggregationTypeOf(Prop(a, "type")).Some? && NonBlankString(Prop(a, "parentField"))
  {
    var kind := Prop(a, "type");
    var filters := Prop(a, "filters");
    if !IsObject(a) then Some(AggregationNotObject(index, aggIndex))
    else if AggregationTypeOf(kind).None? then Some(UnsupportedType(index, aggIndex))
    else if !NonBlankString(Prop(a, "parentField")) then Some(MissingParentField(index, aggIndex))
    else if kind != Str("COUNT") && !NonEmptyString(Prop(a, "childField")) then
      Some(MissingChildField(index, aggIndex))
    else if Truthy(filters) && !filters.Arr? then Some(InvalidFiltersShape(index, aggIndex))
    else None
  }

  /**
   * What `flatMap` takes from one aggregation, `filters ?? []`: the array's elements,
   * nothing for null or undefined, and the value itself for any other (falsy) value.
   */
  function ContributedFilters(a: Value): seq<Value> {
    var filters := Prop(a, "filters");
    if filters.Arr? then filters.items
    else if filters == Undef || filters == Null then []
    else [filters]
  }

  /** `aggregations.flatMap(...)`: all aggregation filters, or the first aggregation error. */
  function CollectAggregationFilters(aggs: seq<Value>, index: nat, aggIndex: nat): Result<seq<Value>, ConfigError>
    decreases |aggs|
  {
    if aggs == [] then Success([])
    else if AggregationCheck(aggs[0], index, aggIndex).Some? then
      Failure(AggregationCheck(aggs[0], index, aggIndex).value)
    else
      var rest :- CollectAggregationFilters(aggs[1..], index, aggIndex + 1);
      Success(ContributedFilters(aggs[0]) + rest)
  }

  /** One definition: required names, aggregations, then every filter of the definition. */
  function ValidateDefinition(d: Value, index: nat): (r: Option<ConfigError>)
    ensures r.None? ==>
      && IsObject(d) && NonBlankString(Prop(d, "parentObject")) && NonBlankString(Prop(d, "childObject"))
      && NonBlankString(Prop(d, "relationField"))
      && Prop(d, "aggregations").Arr? && |Prop(d, "aggregations").items| > 0
  {
    var aggregations := Prop(d, "aggregations");
    var childFilters := Prop(d, "childFilters");
    if !IsObject(d) then Some(DefinitionNotObject(index))
    else if !NonBlankString(Prop(d, "parentObject")) then Some(MissingParentObject(index))
    else if !NonBlankString(Prop(d, "childObject")) then Some(MissingChildObject(index))
    else if !NonBlankString(Prop(d, "relationField")) then Some(MissingRelationField(index))
    else if !aggregations.Arr? || |aggregations.items| == 0 then Some(NoAggregations(index))
    else
      var baseFilters := if childFilters.Arr? then childFilters.items else [];
      match CollectAggregationFilters(aggregations.items, index, 0)
      case Failure(e) => Some(e)
      case Success(aggFilters) => ValidateFilters(baseFilters + aggFilters, index, 0)
  }

  function ValidateDefinitions(defs: seq<Value>, index: nat): Option<ConfigError> {
    FirstError(defs, ValidateDefinition, index)
  }

  /** `validateRollupConfig`: accept, or the first defect of the whole configuration. */
  function ValidateRollupConfig(config: Value): (r: Verdict)
    ensures r.Accept? ==> config.Arr?
    ensures r.Accept? ==> forall i :: 0 <= i < |config.items| ==> ValidateDefinition(config.items[i], i).None?
  {
    if !config.Arr? then Reject(NotAnArray)
    else match ValidateDefinitions(config.items, 0)
      case None =>
        FirstErrorNone(config.items, ValidateDefinition, 0);
        Accept
      case Some(e) => Reject(e)
  }

  // ---------------------------------------------------------------------------
  // What the validator accepts, stated declaratively

  ghost predicate FilterOk(f: Value) {
    IsObject(f) && NonBlankString(Prop(f, "field")) && OperatorOf(Prop(f, "operator")).Some?
  }

  ghost predicate AllFiltersOk(fs: seq<Value>) {
    forall k :: 0 <= k < |fs| ==> FilterOk(fs[k])
  }

  /** An aggregation's `filters`: absent, null, or a list of well-formed filters. */
  ghost predicate AggregationFiltersOk(v: Value) {
    v == Undef || v == Null || (v.Arr? && AllFiltersOk(v.items))
  }

  ghost predicate AggregationOk(a: Value) {
    && IsObject(a)
    && AggregationTypeOf(Prop(a, "type")).Some?
    && NonBlankString(Prop(a, "parentField"))
    && (Prop(a, "type") == Str("COUNT") || NonEmptyString(Prop(a, "childField")))
    && AggregationFiltersOk(Prop(a, "filters"))
  }

  ghost predicate DefinitionOk(d: Value) {
    var aggregations := Prop(d, "aggregations");
    var childFilters := Prop(d, "childFilters");
    && IsObject(d)
    && NonBlankString(Prop(d, "parentObject"))
    && NonBlankString(Prop(d, "childObject"))
    && NonBlankString(Prop(d, "relationField"))
    && aggregations.Arr? && |aggregations.items| > 0
    && (forall k :: 0 <= k < |aggregations.items| ==> AggregationOk(aggregations.items[k]))
    && (childFilters.Arr? ==> AllFiltersOk(childFilters.items))
  }

  ghost predicate ConfigOk(config: Value) {
    config.Arr? && forall i :: 0 <= i < |config.items| ==> DefinitionOk(config.items[i])
  }

  /** `FirstError` finds nothing exactly when every check passes. */
  lemma {:induction false} FirstErrorNone<T>(xs: seq<T>, check: (T, nat) -> Option<ConfigError>, index: nat)
    ensures FirstError(xs, check, index).None? <==> forall i :: 0 <= i < |xs| ==> check(xs[i], index + i).None?
    decreases |xs|
  {
    if xs != [] {
      FirstErrorNone(xs[1..], check, index + 1);
      assert forall i :: 0 <= i < |xs[1..]| ==> xs[1..][i] == xs[i + 1];
    }
  }

  /**
   * The position of the element whose error `FirstError` reports: every element before it
   * passes its check, and the error is the one that element's own check raises.
   */
  ghost function FirstErrorAt<T>(xs: seq<T>, check: (T, nat) -> Option<ConfigError>, index: nat): (i: nat)
    requires FirstError(xs, check, index).Some?
    ensures i < |xs|
    ensures check(xs[i], index + i) == FirstError(xs, check, index)
    ensures forall j :: 0 <= j < i ==> check(xs[j], index + j).None?
    decreases |xs|
  {
    if check(xs[0], index).Some? then 0
    else
      var i := FirstErrorAt(xs[1..], check, index + 1);
      assert xs[1..][i] == xs[i + 1];
      assert forall j :: 0 < j <= i ==> xs[j] == xs[1..][j - 1];
      1 + i
  }

  lemma {:induction false} AllFiltersOkAppend(a: seq<Value>, b: seq<Value>)
    ensures AllFiltersOk(a + b) <==> AllFiltersOk(a) && AllFiltersOk(b)
  {
    if AllFiltersOk(a) && AllFiltersOk(b) {
      forall k | 0 <= k < |a + b| ensures FilterOk((a + b)[k]) {
        if k < |a| { assert (a + b)[k] == a[k]; } else { assert (a + b)[k] == b[k - |a|]; }
      }
    }
    if AllFiltersOk(a + b) {
      forall k | 0 <= k < |a| ensures FilterOk(a[k]) { assert (a + b)[k] == a[k]; }
      forall k | 0 <= k < |b| ensures FilterOk(b[k]) { assert (a + b)[|a| + k] == b[k]; }
    }
  }

  lemma ValidateFiltersExact(fs: seq<Value>, index: nat, filterIndex: nat)
    ensures ValidateFilters(fs, index, filterIndex).None? <==> AllFiltersOk(fs)
    ensures ValidateFilters(fs, index, filterIndex).Some? ==>
      ValidateFilters(fs, index, filterIndex).value.IsFilterError()
  {
    var check := (f, k) => FilterCheck(f, index, k);
    FirstErrorNone(fs, check, filterIndex);
    if FirstError(fs, check, filterIndex).Some? {
      var i := FirstErrorAt(fs, check, filterIndex);
    }
  }

  /** An aggregation that passes its own checks contributes well-formed filters exactly when its `filters` is. */
  lemma ContributedFiltersOk(a: Value, index: nat, aggIndex: nat)
    requires AggregationCheck(a, index, aggIndex).None?
    ensures AllFiltersOk(ContributedFilters(a)) <==> AggregationFiltersOk(Prop(a, "filters"))
  {
    var filters := Prop(a, "filters");
    if !filters.Arr? && filters != Undef && filters != Null {
      assert !IsObject(ContributedFilters(a)[0]);
    }
  }

  /** The aggregation filters are collected exactly when every aggregation passes its checks. */
  lemma {:induction false} CollectSucceedsExact(aggs: seq<Value>, index: nat, aggIndex: nat)
    ensures CollectAggregationFilters(aggs, index, aggIndex).Success? <==>
      forall k :: 0 <= k < |aggs| ==> AggregationCheck(aggs[k], index, aggIndex + k).None?
    decreases |aggs|
  {
    if aggs != [] {
      CollectSucceedsExact(aggs[1..], index, aggIndex + 1);
      if AggregationCheck(aggs[0], index, aggIndex).None? {
        forall k | 0 <= k < |aggs[1..]|
          ensures AggregationCheck(aggs[1..][k], index, aggIndex + 1 + k)
               == AggregationCheck(aggs[k + 1], index, aggIndex + (k + 1))
        {
          assert aggs[1..][k] == aggs[k + 1];
        }
      }
    }
  }

  /** A failed collection reports an aggregation error, never a filter error. */
  lemma {:induction false} CollectErrorIsAggregationError(aggs: seq<Value>, index: nat, aggIndex: nat)
    ensures CollectAggregationFilters(aggs, index, aggIndex).Failure? ==>
      !CollectAggregationFilters(aggs, index, aggIndex).error.IsFilterError()
    decreases |aggs|
  {
    if aggs != [] {
      CollectErrorIsAggregationError(aggs[1..], index, aggIndex + 1);
    }
  }

  /** The collected filters are well formed exactly when every aggregation's `filters` is acceptable. */
  lemma {:induction false} CollectedFiltersOk(aggs: seq<Value>, index: nat, aggIndex: nat)
    requires CollectAggregationFilters(aggs, index, aggIndex).Success?
    ensures AllFiltersOk(CollectAggregationFilters(aggs, index, aggIndex).value) <==>
      forall k :: 0 <= k < |aggs| ==> AggregationFiltersOk(Prop(aggs[k], "filters"))
    decreases |aggs|
  {
    if aggs != [] {
      var rest := CollectAggregationFilters(aggs[1..], index, aggIndex + 1);
      CollectedFiltersOk(aggs[1..], index, aggIndex + 1);
      ContributedFiltersOk(aggs[0], index, aggIndex);
      AllFiltersOkAppend(ContributedFilters(aggs[0]), rest.value);
      assert forall k :: 0 <= k < |aggs[1..]| ==> aggs[1..][k] == aggs[k + 1];
    }
  }

  /** Per aggregation, passing `AggregationCheck` and having acceptable filters is exactly `AggregationOk`. */
  lemma AggregationOkSplit(a: Value, index: nat, aggIndex: nat)
    ensures AggregationOk(a) <==>
      AggregationCheck(a, index, aggIndex).None? && AggregationFiltersOk(Prop(a, "filters"))
  {
  }

  /** The validator accepts one definition exactly when it is well formed; its errors name that definition. */
  lemma {:induction false} ValidateDefinitionExact(d: Value, index: nat)
    ensures ValidateDefinition(d, index).None? <==> DefinitionOk(d)
  {
    var aggregations := Prop(d, "aggregations");
    var childFilters := Prop(d, "childFilters");
    if IsObject(d) && NonBlankString(Prop(d, "parentObject")) && NonBlankString(Prop(d, "childObject"))
      && NonBlankString(Prop(d, "relationField")) && aggregations.Arr? && |aggregations.items| > 0
    {
      var aggs := aggregations.items;
      var baseFilters := if childFilters.Arr? then childFilters.items else [];
      CollectSucceedsExact(aggs, index, 0);
      forall k | 0 <= k < |aggs| ensures AggregationOk(aggs[k]) <==>
        AggregationCheck(aggs[k], index, 0 + k).None? && AggregationFiltersOk(Prop(aggs[k], "filters"))
      {
        AggregationOkSplit(aggs[k], index, 0 + k);
      }
      var collected := CollectAggregationFilters(aggs, index, 0);
      if collected.Success? {
        CollectedFiltersOk(aggs, index, 0);
        ValidateFiltersExact(baseFilters + collected.value, index, 0);
        AllFiltersOkAppend(baseFilters, collected.value);
      }
    }
  }

  /**
   * `validateRollupConfig` accepts exactly the well-formed configurations: an array whose
   * every definition names its parent, child and relation, declares aggregations of a known
   * type with a parent field (and a child field unless COUNT), and whose every filter has a
   * field and a known operator.
   */
  lemma {:induction false} ValidateRollupConfigExact(config: Value)
    ensures ValidateRollupConfig(config).Accept? <==> ConfigOk(config)
  {
    if config.Arr? {
      ValidateDefinitionsExact(config.items, 0);
    }
  }

  /**
   * A rejected array names the first definition that is not well formed: every definition
   * before it is, and the error is the one that definition's own checks raise.
   */
  lemma ValidateRollupConfigFirstDefect(config: Value)
    requires ValidateRollupConfig(config).Reject?
    ensures !config.Arr? ==> ValidateRollupConfig(config).error == NotAnArray
    ensures config.Arr? ==>
      var e := ValidateRollupConfig(config).error;
      && !e.NotAnArray?
      && e.definition < |config.items|
      && !DefinitionOk(config.items[e.definition])
      && (forall j :: 0 <= j < e.definition ==> DefinitionOk(config.items[j]))
      && ValidateDefinition(config.items[e.definition], e.definition) == Some(e)
  {
    if config.Arr? {
      var defs := config.items;
      var i := FirstErrorAt(defs, ValidateDefinition, 0);
      DefinitionDefect(defs[i], i);
      forall j | 0 <= j < i ensures DefinitionOk(defs[j]) {
        ValidateDefinitionExact(defs[j], j);
      }
    }
  }

  lemma {:induction false} ValidateDefinitionsExact(defs: seq<Value>, index: nat)
    ensures ValidateDefinitions(defs, index).None? <==> forall i :: 0 <= i < |defs| ==> DefinitionOk(defs[i])
    decreases |defs|
  {
    if defs != [] {
      ValidateDefinitionExact(defs[0], index);
      ValidateDefinitionsExact(defs[1..], index + 1);
      assert forall i :: 0 <= i < |defs[1..]| ==> defs[1..][i] == defs[i + 1];
    }
  }

  /** Every error a definition's checks raise names that definition's position. */
  lemma ValidateDefinitionNamesDefinition(d: Value, index: nat)
    requires ValidateDefinition(d, index).Some?
    ensures !ValidateDefinition(d, index).value.NotAnArray?
    ensures ValidateDefinition(d, index).value.definition == index
  {
    var aggregations := Prop(d, "aggregations");
    if IsObject(d) && NonBlankString(Prop(d, "parentObject")) && NonBlankString(Prop(d, "childObject"))
      && NonBlankString(Prop(d, "relationField")) && aggregations.Arr? && |aggregations.items| > 0
    {
      CollectNamesDefinition(aggregations.items, index, 0);
      var childFilters := Prop(d, "childFilters");
      var baseFilters := if childFilters.Arr? then childFilters.items else [];
      var collected := CollectAggregationFilters(aggregations.items, index, 0);
      if collected.Success? {
        var check := (f, k) => FilterCheck(f, index, k);
        var i := FirstErrorAt(baseFilters + collected.value, check, 0);
      }
    }
  }

  lemma {:induction false} CollectNamesDefinition(aggs: seq<Value>, index: nat, aggIndex: nat)
    ensures CollectAggregationFilters(aggs, index, aggIndex).Failure? ==>
      !CollectAggregationFilters(aggs, index, aggIndex).error.NotAnArray? &&
      CollectAggregationFilters(aggs, index, aggIndex).error.definition == index
    decreases |aggs|
  {
    if aggs != [] {
      CollectNamesDefinition(aggs[1..], index, aggIndex + 1);
    }
  }

  /** A definition whose checks fail is not well formed, and the error names its position. */
  lemma DefinitionDefect(d: Value, index: nat)
    requires ValidateDefinition(d, index).Some?
    ensures !DefinitionOk(d)
    ensures !ValidateDefinition(d, index).value.NotAnArray?
    ensures ValidateDefinition(d, index).value.definition == index
  {
    ValidateDefinitionExact(d, index);
    ValidateDefinitionNamesDefinition(d, index);
  }

  /**
   * Within a definition every aggregation is checked before any filter: a filter error is
   * reported only when all aggregations pass their own checks.
   */
  lemma AggregationChecksComeFirst(d: Value, index: nat)
    requires ValidateDefinition(d, index).Some? && ValidateDefinition(d, index).value.IsFilterError()
    ensures Prop(d, "aggregations").Arr?
    ensures forall k :: 0 <= k < |Prop(d, "aggregations").items| ==>
      AggregationCheck(Prop(d, "aggregations").items[k], index, k).None?
  {
    var aggs := Prop(d, "aggregations").items;
    CollectErrorIsAggregationError(aggs, index, 0);
    CollectSucceedsExact(aggs, index, 0);
  }

  /** A `childFilters` that is not an array is ignored by the validator. */
  lemma ChildFiltersNonArrayIgnored(fields: map<string, Value>, x: Value, index: nat)
    requires !x.Arr?
    ensures ValidateDefinition(Obj(fields["childFilters" := x]), index)
         == ValidateDefinition(Obj(fields - {"childFilters"}), index)
  {
    var d1 := Obj(fields["childFilters" := x]);
    var d2 := Obj(fields - {"childFilters"});
    assert Prop(d1, "parentObject") == Prop(d2, "parentObject");
    assert Prop(d1, "childObject") == Prop(d2, "childObject");
    assert Prop(d1, "relationField") == Prop(d2, "relationField");
    assert Prop(d1, "aggregations") == Prop(d2, "aggregations");
  }

  // ---------------------------------------------------------------------------
  // The typed reading of an accepted configuration

  predicate ValidFilter(f: FilterConfig) {
    !IsBlank(f.field)
  }

  predicate ValidAggregation(a: AggregationConfig) {
    && !IsBlank(a.parentField)
    && (a.kind != Count ==> a.childField != "")
    && forall k :: 0 <= k < |a.filters| ==> ValidFilter(a.filters[k])
  }

  /** The invariants of a rollup definition: non-blank names, at least one aggregation. */
  predicate ValidDefinition(d: RollupDefinition) {
    && !IsBlank(d.parentObject)
    && !IsBlank(d.childObject)
    && !IsBlank(d.relationField)
    && |d.aggregations| > 0
    && (forall k :: 0 <= k < |d.childFilters| ==> ValidFilter(d.childFilters[k]))
    && (forall k :: 0 <= k < |d.aggregations| ==> ValidAggregation(d.aggregations[k]))
  }

  predicate ValidConfig(c: Config) {
    forall i :: 0 <= i < |c| ==> ValidDefinition(c[i])
  }

  /**
   * A filter object. A `dynamicValue` other than "startOfYear" is outside the typed model
   * (None).
   */
  function DecodeFilter(f: Value): (r: Option<FilterConfig>)
    requires FilterOk(f)
    ensures r.Some? ==> ValidFilter(r.value) && r.value.field == Prop(f, "field").s
    ensures r.Some? ==> r.value.value == Prop(f, "value")
  {
    var dynamicValue := Prop(f, "dynamicValue");
    var field := Prop(f, "field").s;
    var operator := OperatorOf(Prop(f, "operator")).value;
    if dynamicValue == Undef then Some(FilterConfig(field, operator, Prop(f, "value"), None))
    else if dynamicValue == Str("startOfYear") then
      Some(FilterConfig(field, operator, Prop(f, "value"), Some(StartOfYear)))
    else None
  }

  /**
   * Reads every element with `decode`, in order; nothing when any element falls outside
   * the typed model.
   */
  function DecodeAll<T, U>(xs: seq<T>, decode: T --> Option<U>): (r: Option<seq<U>>)
    requires forall k :: 0 <= k < |xs| ==> decode.requires(xs[k])
    ensures r.Some? <==> forall k :: 0 <= k < |xs| ==> decode(xs[k]).Some?
    ensures r.Some? ==> |r.value| == |xs| && forall k :: 0 <= k < |xs| ==> decode(xs[k]) == Some(r.value[k])
    decreases |xs|
  {
    if xs == [] then Some([])
    else
      var rest := DecodeAll(xs[1..], decode);
      assert forall k :: 0 < k < |xs| ==> xs[k] == xs[1..][k - 1];
      match decode(xs[0])
      case None => None
      case Some(y) => if rest.None? then None else Some([y] + rest.value)
  }

  /** `DecodeAll` is determined by what it does to each element. */
  lemma DecodeAllPointwise<T, U>(xs: seq<T>, decode: T --> Option<U>, ys: seq<U>)
    requires forall k :: 0 <= k < |xs| ==> decode.requires(xs[k])
    requires |xs| == |ys| && forall k :: 0 <= k < |xs| ==> decode(xs[k]) == Some(ys[k])
    ensures DecodeAll(xs, decode) == Some(ys)
  {
    var r := DecodeAll(xs, decode);
    assert r.Some?;
    assert r.value == ys;
  }

  function DecodeFilters(fs: seq<Value>): (r: Option<seq<FilterConfig>>)
    requires AllFiltersOk(fs)
    ensures r.Some? ==> |r.value| == |fs| && forall k :: 0 <= k < |fs| ==> ValidFilter(r.value[k])
  {
    DecodeAll(fs, DecodeFilter)
  }

  function DecodeAggregation(a: Value): (r: Option<AggregationConfig>)
    requires AggregationOk(a)
    ensures r.Some? ==> ValidAggregation(r.value)
  {
    var kind := AggregationTypeOf(Prop(a, "type")).value;
    var childField := Prop(a, "childField");
    var currencyField := Prop(a, "currencyField");
    var filters := Prop(a, "filters");
    var decodedFilters := if filters.Arr? then DecodeFilters(filters.items) else Some([]);
    if decodedFilters.None? || !(currencyField == Undef || currencyField.Str?) then None
    else
      Some(AggregationConfig(
        kind,
        Prop(a, "parentField").s,
        if childField.Str? then childField.s else "",
        if currencyField.Str? then Some(currencyField.s) else None,
        decodedFilters.value))
  }

  function DecodeAggregations(aggs: seq<Value>): (r: Option<seq<AggregationConfig>>)
    requires forall k :: 0 <= k < |aggs| ==> AggregationOk(aggs[k])
    ensures r.Some? ==> |r.value| == |aggs| && forall k :: 0 <= k < |aggs| ==> ValidAggregation(r.value[k])
  {
    DecodeAll(aggs, DecodeAggregation)
  }

  /**
   * A definition object. A truthy `childFilters` that is not an array is outside the typed
   * model (None); a falsy one reads as no filters, as `applyFilters` treats it.
   */
  function DecodeDefinition(d: Value): (r: Option<RollupDefinition>)
    requires DefinitionOk(d)
    ensures r.Some? ==> ValidDefinition(r.value)
    ensures r.Some? ==> r.value.parentObject == Prop(d, "parentObject").s
    ensures r.Some? ==> r.value.relationField == Prop(d, "relationField").s
    ensures r.Some? ==> |r.value.aggregations| == |Prop(d, "aggregations").items|
  {
    var childFilters := Prop(d, "childFilters");
    var decodedChildFilters :=
      if childFilters.Arr? then DecodeFilters(childFilters.items)
      else if Truthy(childFilters) then None
      else Some([]);
    var decodedAggregations := DecodeAggregations(Prop(d, "aggregations").items);
    if decodedChildFilters.None? || decodedAggregations.None? then None
    else
      Some(RollupDefinition(
        Prop(d, "parentObject").s,
        Prop(d, "childObject").s,
        Prop(d, "relationField").s,
        decodedChildFilters.value,
        decodedAggregations.value))
  }

  function DecodeDefinitions(defs: seq<Value>): (r: Option<Config>)
    requires forall i :: 0 <= i < |defs| ==> DefinitionOk(defs[i])
    ensures r.Some? ==> |r.value| == |defs| && ValidConfig(r.value)
  {
    DecodeAll(defs, DecodeDefinition)
  }

  /** The typed reading of a configuration the validator accepted. */
  function DecodeConfig(config: Value): (r: Option<Config>)
    requires ValidateRollupConfig(config).Accept?
    ensures r.Some? ==> |r.value| == |config.items| && ValidConfig(r.value)
  {
    ValidateRollupConfigExact(config);
    DecodeDefinitions(config.items)
  }

  // ---------------------------------------------------------------------------
  // Writing a typed configuration as JSON, and reading it back

  function OperatorName(op: Operator): (r: string)
    ensures OperatorOf(Str(r)) == Some(op)
  {
    match op
    case Equals => "equals"
    case NotEquals => "notEquals"
    case In => "in"
    case NotIn => "notIn"
    case Gt => "gt"
    case Gte => "gte"
    case Lt => "lt"
    case Lte => "lte"
  }

  function AggregationTypeName(kind: AggregationType): (r: string)
    ensures AggregationTypeOf(Str(r)) == Some(kind)
    ensures r == "COUNT" <==> kind == Count
  {
    match kind
    case Sum => "SUM"
    case Count => "COUNT"
    case Max => "MAX"
    case Min => "MIN"
    case Avg => "AVG"
  }

  /** The filter as a JSON object; `value` and `dynamicValue` appear only when present. */
  function EncodeFilter(f: FilterConfig): Value {
    var m := map["field" := Str(f.field), "operator" := Str(OperatorName(f.operator))];
    var m := if f.value != Undef then m["value" := f.value] else m;
    Obj(if f.dynamicValue.Some? then m["dynamicValue" := Str("startOfYear")] else m)
  }

  function EncodeFilters(fs: seq<FilterConfig>): (r: seq<Value>)
    ensures |r| == |fs| && forall k :: 0 <= k < |fs| ==> r[k] == EncodeFilter(fs[k])
  {
    seq(|fs|, k requires 0 <= k < |fs| => EncodeFilter(fs[k]))
  }

  /** The aggregation as a JSON object; optional members appear only when present. */
  function EncodeAggregation(a: AggregationConfig): Value {
    var m := map["type" := Str(AggregationTypeName(a.kind)), "parentField" := Str(a.parentField)];
    var m := if a.childField != "" then m["childField" := Str(a.childField)] else m;
    var m := if a.currencyField.Some? then m["currencyField" := Str(a.currencyField.value)] else m;
    Obj(if a.filters != [] then m["filters" := Arr(EncodeFilters(a.filters))] else m)
  }

  function EncodeAggregations(aggs: seq<AggregationConfig>): (r: seq<Value>)
    ensures |r| == |aggs| && forall k :: 0 <= k < |aggs| ==> r[k] == EncodeAggregation(aggs[k])
  {
    seq(|aggs|, k requires 0 <= k < |aggs| => EncodeAggregation(aggs[k]))
  }

  /** The definition as a JSON object; `childFilters` appears only when there are some. */
  function EncodeDefinition(d: RollupDefinition): Value {
    var m := map[
      "parentObject" := Str(d.parentObject),
      "childObject" := Str(d.childObject),
      "relationField" := Str(d.relationField),
      "aggregations" := Arr(EncodeAggregations(d.aggregations))];
    Obj(if d.childFilters != [] then m["childFilters" := Arr(EncodeFilters(d.childFilters))] else m)
  }

  function EncodeConfig(c: Config): Value {
    Arr(seq(|c|, i requires 0 <= i < |c| => EncodeDefinition(c[i])))
  }

  lemma EncodeFilterFields(f: FilterConfig)
    ensures Prop(EncodeFilter(f), "field") == Str(f.field)
    ensures Prop(EncodeFilter(f), "operator") == Str(OperatorName(f.operator))
    ensures Prop(EncodeFilter(f), "value") == f.value
    ensures Prop(EncodeFilter(f), "dynamicValue") == if f.dynamicValue.Some? then Str("startOfYear") else Undef
  {
  }

  /** A valid filter, written out, is accepted and reads back as itself. */
  lemma EncodeFilterRoundTrip(f: FilterConfig)
    requires ValidFilter(f)
    ensures FilterOk(EncodeFilter(f)) && DecodeFilter(EncodeFilter(f)) == Some(f)
  {
    EncodeFilterFields(f);
    if f.dynamicValue.Some? {
      assert f.dynamicValue.value.StartOfYear?;
    }
  }

  lemma EncodeFiltersRoundTrip(fs: seq<FilterConfig>)
    requires forall k :: 0 <= k < |fs| ==> ValidFilter(fs[k])
    ensures var json := EncodeFilters(fs);
      AllFiltersOk(json) && DecodeFilters(json) == Some(fs)
  {
    var json := EncodeFilters(fs);
    forall k | 0 <= k < |fs| ensures FilterOk(json[k]) && DecodeFilter(json[k]) == Some(fs[k]) {
      EncodeFilterRoundTrip(fs[k]);
    }
    DecodeAllPointwise(json, DecodeFilter, fs);
  }

  lemma EncodeAggregationFields(a: AggregationConfig)
    ensures Prop(EncodeAggregation(a), "type") == Str(AggregationTypeName(a.kind))
    ensures Prop(EncodeAggregation(a), "parentField") == Str(a.parentField)
    ensures Prop(EncodeAggregation(a), "childField") == if a.childField != "" then Str(a.childField) else Undef
    ensures Prop(EncodeAggregation(a), "currencyField") == if a.currencyField.Some? then Str(a.currencyField.value) else Undef
    ensures Prop(EncodeAggregation(a), "filters")
      == if a.filters != [] then Arr(EncodeFilters(a.filters)) else Undef
  {
  }

  /** A valid aggregation, written out, is accepted and reads back as itself. */
  lemma EncodeAggregationRoundTrip(a: AggregationConfig)
    requires ValidAggregation(a)
    ensures AggregationOk(EncodeAggregation(a)) && DecodeAggregation(EncodeAggregation(a)) == Some(a)
  {
    EncodeAggregationFields(a);
    EncodeFiltersRoundTrip(a.filters);
  }

  lemma EncodeDefinitionFields(d: RollupDefinition)
    ensures Prop(EncodeDefinition(d), "parentObject") == Str(d.parentObject)
    ensures Prop(EncodeDefinition(d), "childObject") == Str(d.childObject)
    ensures Prop(EncodeDefinition(d), "relationField") == Str(d.relationField)
    ensures Prop(EncodeDefinition(d), "aggregations")
      == Arr(EncodeAggregations(d.aggregations))
    ensures Prop(EncodeDefinition(d), "childFilters")
      == if d.childFilters != [] then Arr(EncodeFilters(d.childFilters)) else Undef
  {
  }

  /** A valid definition, written out, is accepted and reads back as itself. */
  lemma EncodeDefinitionRoundTrip(d: RollupDefinition)
    requires ValidDefinition(d)
    ensures DefinitionOk(EncodeDefinition(d)) && DecodeDefinition(EncodeDefinition(d)) == Some(d)
  {
    var json := EncodeDefinition(d);
    var aggs := EncodeAggregations(d.aggregations);
    EncodeDefinitionFields(d);
    EncodeFiltersRoundTrip(d.childFilters);
    forall k | 0 <= k < |aggs| ensures AggregationOk(aggs[k]) && DecodeAggregation(aggs[k]) == Some(d.aggregations[k]) {
      EncodeAggregationRoundTrip(d.aggregations[k]);
    }
    DecodeAllPointwise(aggs, DecodeAggregation, d.aggregations);
  }

  /**
   * Every valid typed configuration, written out as JSON, passes `validateRollupConfig`
   * and reads back as itself.
   */
  lemma EncodeConfigRoundTrip(c: Config)
    requires ValidConfig(c)
    ensures ValidateRollupConfig(EncodeConfig(c)) == Accept
    ensures DecodeConfig(EncodeConfig(c)) == Some(c)
  {
    var json := EncodeConfig(c);
    forall i | 0 <= i < |c| ensures DefinitionOk(json.items[i]) && DecodeDefinition(json.items[i]) == Some(c[i]) {
      EncodeDefinitionRoundTrip(c[i]);
    }
    ValidateRollupConfigExact(json);
    DecodeAllPointwise(json.items, DecodeDefinition, c);
  }

  // ---------------------------------------------------------------------------
  // Resolution: an override takes precedence over the built-in default

  /**
   * The three environment settings an override may come from, in the order they are
   * consulted; None is an unset variable.
   */
  datatype Environment = Environment(
    rollupEngineConfig: Option<string>,
    rollupsConfig: Option<string>,
    calculateRollupsConfig: Option<string>)

  /** The `??` chain: the first variable that is set, even when it is set to "". */
  function OverrideText(env: Environment): Option<string> {
    if env.rollupEngineConfig.Some? then env.rollupEngineConfig
    else if env.rollupsConfig.Some? then env.rollupsConfig
    else env.calculateRollupsConfig
  }

  datatype ResolveError =
    | OverrideUnparseable
    | OverrideInvalid(error: ConfigError)
    | DefaultInvalid(error: ConfigError)
    | OutsideModel

  function ValidateAndDecode(config: Value, invalid: ConfigError -> ResolveError): (r: Result<Config, ResolveError>)
    ensures r.Success? <==> ValidateRollupConfig(config).Accept? && DecodeConfig(config).Some?
    ensures r.Success? ==> ValidConfig(r.value)
  {
    match ValidateRollupConfig(config)
    case Reject(e) => Failure(invalid(e))
    case Accept =>
      match DecodeConfig(config)
      case None => Failure(OutsideModel)
      case Some(c) => Success(c)
  }

  /**
   * `resolveRollupConfig`: a non-empty override is parsed (`parse` is `JSON.parse`, None
   * when it throws) and validated, and any failure is an error; without one the default
   * configuration is validated and used.
   */
  function ResolveRollupConfig(env: Environment, parse: string -> Option<Value>, defaultConfig: Value): (r: Result<Config, ResolveError>)
    ensures r.Success? ==> ValidConfig(r.value)
  {
    var text := OverrideText(env);
    if text.Some? && text.value != "" then
      match parse(text.value)
      case None => Failure(OverrideUnparseable)
      case Some(json) => ValidateAndDecode(json, e => OverrideInvalid(e))
    else ValidateAndDecode(defaultConfig, e => DefaultInvalid(e))
  }

  /**
   * A non-empty override decides the outcome whatever the default is: an unparseable or
   * invalid override is an error, never a fallback to the default.
   */
  lemma OverrideTakesPrecedence(env: Environment, parse: string -> Option<Value>, default1: Value, default2: Value)
    requires OverrideText(env).Some? && OverrideText(env).value != ""
    ensures ResolveRollupConfig(env, parse, default1) == ResolveRollupConfig(env, parse, default2)
    ensures parse(OverrideText(env).value).None? ==>
      ResolveRollupConfig(env, parse, default1) == Failure(OverrideUnparseable)
    ensures parse(OverrideText(env).value).Some? && ValidateRollupConfig(parse(OverrideText(env).value).value).Reject? ==>
      ResolveRollupConfig(env, parse, default1)
        == Failure(OverrideInvalid(ValidateRollupConfig(parse(OverrideText(env).value).value).error))
  {
  }

  /**
   * The first override variable, when set, hides the other two even if it is empty: an empty
   * `ROLLUP_ENGINE_CONFIG` selects the default configuration.
   */
  lemma EmptyFirstOverrideSelectsDefault(env: Environment, parse: string -> Option<Value>, defaultConfig: Value)
    requires env.rollupEngineConfig == Some("")
    ensures ResolveRollupConfig(env, parse, defaultConfig)
         == ResolveRollupConfig(Environment(None, None, None), parse, defaultConfig)
  {
  }
}
