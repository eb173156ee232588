# Rollup engine model

This is a Dafny model of the `calculaterollups` serverless function of the nonprofit CRM stack. The function rolls child records up into their parent records in the Twenty CRM, for example gifts into people. One run does the following:

1. It resolves the rollup configuration: an override from the environment, or the built-in default. It then validates it.
2. It decides between a full rebuild and a targeted run from the trigger payload.
3. For each rollup definition it builds an index from parent ids to child records. A targeted run lists the children of each parent id found in the payload, five parents at a time. A full rebuild lists every child record and groups them by their relation field.
4. For each parent it filters the children and computes the configured aggregations: COUNT, SUM, AVG, MAX or MIN. It sanitises the resulting payload and sends it as an update.
5. It summarises what it processed and updated, or reports a noop or an error.

The model has these modules:

| Module | Covers |
|---|---|
| `JsonValue` | JSON-like values |
| `Wrappers` | `Option` and `Result` |
| `RollupConfig` | the validator, the typed configuration read from an accepted one, and resolution |
| `DefaultConfig` | the built-in configuration |
| `Calendar` | UTC start of year |
| `FieldPath` | dotted paths |
| `Filters` | filter evaluation |
| `Aggregation` | the SUM and AVG folds |
| `Extremes` | MAX and MIN |
| `Compute` | `computeAggregations` and `sanitizePayload` |
| `Scope` | relation values in the payload, and the full-rebuild decision |
| `Client` | the request logic of the REST client without I/O |
| `ChildIndexing` | `buildChildRecordIndex` and `ensureMapHasTargets` |
| `Orchestrator` | `main` |
| `SmokeScenario` | the repository's smoke expectation for the default configuration |

What the engine calls from its host is passed in as parameters:

- The JavaScript `Number(string)`, `Date.parse` and `Date#toISOString` are fields of a `Host` value, because their behaviour is the JavaScript runtime's.
- The CRM is a `Backend` value: it lists all children of an object, lists the children related to one parent, and says whether an update succeeded. These listings are given functions of the backend. They are not derived from `Client.ListAllRecords` and `Client.ExtractRecords`, which model the client's paging and envelope logic separately.
- `JSON.parse` is a `parse` parameter that returns `None` where the source would throw.
- The environment variables are explicit records: `Environment` for the configuration and `CredentialEnv` for the credentials.
- The current time is `now`, in milliseconds, and the run's duration is `durationMs`.
- Numbers are exact reals, and NaN is "no number" (`None`).

Two behaviours of the code are worth stating on their own:

- The SUM currency is that of the last contributing record with a non-blank currency (`Aggregation.SumFoldCurrency`).
- The validator throws on the first defect of the whole configuration: it reports the first definition that is not well formed, and every definition before it is well formed (`RollupConfig.ValidateRollupConfigFirstDefect`). Within a definition, every aggregation is checked before any filter (`RollupConfig.AggregationChecksComeFirst`).

Three consequences of the code are proved:

- For an accepted configuration, the skip of empty payloads in `main` (index.ts:940-942) never applies (`Orchestrator.PayloadNeverEmpty`).
- `ensureMapHasTargets` changes nothing after a successful targeted build (`ChildIndexing.TargetedIndexHasTargets`).
- An empty `TWENTY_API_KEY` hides `TWENTY_API_TOKEN` and `API_KEY`, so the run is a noop (`Orchestrator.EmptyKeyShadowsOthers`).

`Date.UTC` maps the years 0 to 99 to 1900 to 1999, and the model keeps this. For such a `now`, the "start of year" lies after `now` (`Calendar.TwoDigitYearStart`).

## Model

`index.ts` stands for `rollup-engine/serverlessFunctions/calculaterollups/src/index.ts`.

| member | source | states |
|---|---|---|
| JsonValue.Prop | rollup-engine/serverlessFunctions/calculaterollups/src/index.ts:387-392 | a defined property read comes from a plain object's own field |
| JsonValue.Truthy | rollup-engine/serverlessFunctions/calculaterollups/src/index.ts:163 | a truthy value is none of undefined, null, `false`, `0` and `''` |
| RollupConfig.AggregationTypeOf | rollup-engine/serverlessFunctions/calculaterollups/src/index.ts:108-114 | only the five type names are known types, and only strings |
| RollupConfig.OperatorOf | rollup-engine/serverlessFunctions/calculaterollups/src/index.ts:97-106 | only the eight operator names are known operators, and only strings |
| RollupConfig.FirstErrorNone | rollup-engine/serverlessFunctions/calculaterollups/src/index.ts:121-189 | a `forEach` of throwing checks finds nothing exactly when every element passes its check |
| RollupConfig.ValidateFiltersExact | rollup-engine/serverlessFunctions/calculaterollups/src/index.ts:172-189 | the filter loop passes exactly when every filter is an object with a non-blank field and a known operator; otherwise it raises a filter error |
| RollupConfig.ContributedFiltersOk | rollup-engine/serverlessFunctions/calculaterollups/src/index.ts:163-168 | what `filters ?? []` contributes is well formed exactly when `filters` is absent, null, or a list of well-formed filters |
| RollupConfig.CollectSucceedsExact | rollup-engine/serverlessFunctions/calculaterollups/src/index.ts:143-169 | the `flatMap` over aggregations succeeds exactly when every aggregation passes its own checks |
| RollupConfig.CollectErrorIsAggregationError | rollup-engine/serverlessFunctions/calculaterollups/src/index.ts:143-169 | a failing `flatMap` reports an aggregation error, never a filter error |
| RollupConfig.CollectedFiltersOk | rollup-engine/serverlessFunctions/calculaterollups/src/index.ts:141-170 | the collected aggregation filters are well formed exactly when each aggregation's `filters` is acceptable |
| RollupConfig.AggregationOkSplit | rollup-engine/serverlessFunctions/calculaterollups/src/index.ts:144-167 | a well-formed aggregation has a known type, a non-blank parent field, a non-empty child field unless COUNT (untrimmed), and acceptable filters |
| RollupConfig.ValidateDefinitionExact | rollup-engine/serverlessFunctions/calculaterollups/src/index.ts:121-190 | one definition passes exactly when it is well formed |
| RollupConfig.ValidateDefinitionsExact | rollup-engine/serverlessFunctions/calculaterollups/src/index.ts:121-190 | the definitions pass exactly when every one of them is well formed |
| RollupConfig.AggregationCheck | rollup-engine/serverlessFunctions/calculaterollups/src/index.ts:144-168 | an aggregation's own checks raise an aggregation error naming its definition; passing them means an object with a known type and a non-blank parent field |
| RollupConfig.ValidateDefinition | rollup-engine/serverlessFunctions/calculaterollups/src/index.ts:121-190 | a definition that raises nothing is an object with non-blank parent object, child object and relation field and a non-empty aggregations array |
| RollupConfig.ValidateRollupConfig | rollup-engine/serverlessFunctions/calculaterollups/src/index.ts:116-191 | an accepted configuration is an array whose every definition raises nothing |
| RollupConfig.ValidateRollupConfigFirstDefect | rollup-engine/serverlessFunctions/calculaterollups/src/index.ts:116-191 | a rejected non-array raises the array error; a rejected array raises the error of the first definition that is not well formed, and every earlier one is well formed |
| RollupConfig.ValidateRollupConfigExact | rollup-engine/serverlessFunctions/calculaterollups/src/index.ts:116-191 | `validateRollupConfig` accepts exactly the arrays whose every definition, aggregation and filter is well formed |
| RollupConfig.ValidateDefinitionNamesDefinition | rollup-engine/serverlessFunctions/calculaterollups/src/index.ts:122-188 | every error raised for a definition carries that definition's index |
| RollupConfig.CollectNamesDefinition | rollup-engine/serverlessFunctions/calculaterollups/src/index.ts:144-167 | every aggregation error carries its definition's index |
| RollupConfig.DefinitionDefect | rollup-engine/serverlessFunctions/calculaterollups/src/index.ts:121-190 | a definition that raises an error is not well formed, and the error names its index |
| RollupConfig.AggregationChecksComeFirst | rollup-engine/serverlessFunctions/calculaterollups/src/index.ts:141-189 | a filter error is raised only when every aggregation of the definition passed its own checks |
| RollupConfig.ChildFiltersNonArrayIgnored | rollup-engine/serverlessFunctions/calculaterollups/src/index.ts:141-142 | a `childFilters` that is not an array is ignored by validation, as if absent |
| RollupConfig.DecodeFilter | rollup-engine/serverlessFunctions/calculaterollups/src/index.ts:10-15 | an accepted filter reads as a typed filter with the same field and value and a non-blank field |
| RollupConfig.DecodeFilters | rollup-engine/serverlessFunctions/calculaterollups/src/index.ts:10-15 | accepted filters read as typed filters, one each |
| RollupConfig.DecodeAggregation | rollup-engine/serverlessFunctions/calculaterollups/src/index.ts:17-23 | an accepted aggregation reads as one with a non-blank parent field, and a child field unless COUNT |
| RollupConfig.DecodeAggregations | rollup-engine/serverlessFunctions/calculaterollups/src/index.ts:17-23 | accepted aggregations read as valid typed aggregations, one each |
| RollupConfig.DecodeDefinition | rollup-engine/serverlessFunctions/calculaterollups/src/index.ts:25-31 | an accepted definition reads as a valid definition with the same parent, relation field and number of aggregations |
| RollupConfig.DecodeDefinitions | rollup-engine/serverlessFunctions/calculaterollups/src/index.ts:25-33 | accepted definitions read as a valid configuration, one definition each |
| RollupConfig.DecodeConfig | rollup-engine/serverlessFunctions/calculaterollups/src/index.ts:116-191 | an accepted configuration reads as a valid configuration of the same length |
| RollupConfig.OperatorName | rollup-engine/serverlessFunctions/calculaterollups/src/index.ts:97-106 | each operator's name reads back as that operator |
| RollupConfig.AggregationTypeName | rollup-engine/serverlessFunctions/calculaterollups/src/index.ts:108-114 | each type's name reads back as that type; "COUNT" is exactly the name of COUNT |
| RollupConfig.EncodeFilterFields | rollup-engine/serverlessFunctions/calculaterollups/src/index.ts:10-15 | a filter written as JSON carries its field, operator, value and dynamic value |
| RollupConfig.EncodeFilterRoundTrip | rollup-engine/serverlessFunctions/calculaterollups/src/index.ts:172-189 | a valid typed filter written as JSON is accepted and reads back as itself |
| RollupConfig.EncodeFiltersRoundTrip | rollup-engine/serverlessFunctions/calculaterollups/src/index.ts:172-189 | valid filters written as JSON are accepted and read back as themselves |
| RollupConfig.EncodeAggregationFields | rollup-engine/serverlessFunctions/calculaterollups/src/index.ts:17-23 | an aggregation written as JSON carries its type, fields and filters |
| RollupConfig.EncodeAggregationRoundTrip | rollup-engine/serverlessFunctions/calculaterollups/src/index.ts:144-168 | a valid aggregation written as JSON passes the aggregation checks and reads back as itself |
| RollupConfig.EncodeDefinitionFields | rollup-engine/serverlessFunctions/calculaterollups/src/index.ts:25-31 | a definition written as JSON carries its names, child filters and aggregations |
| RollupConfig.EncodeDefinitionRoundTrip | rollup-engine/serverlessFunctions/calculaterollups/src/index.ts:121-190 | a valid definition written as JSON is well formed and reads back as itself |
| RollupConfig.EncodeConfigRoundTrip | rollup-engine/serverlessFunctions/calculaterollups/src/index.ts:116-191 | every valid configuration written as JSON is accepted by `validateRollupConfig` and reads back as itself |
| RollupConfig.ValidateAndDecode | rollup-engine/serverlessFunctions/calculaterollups/src/index.ts:202-213 | a configuration is used exactly when the validator accepts it and it reads as a typed configuration |
| RollupConfig.ResolveRollupConfig | rollup-engine/serverlessFunctions/calculaterollups/src/index.ts:193-214 | a resolved configuration is always valid |
| RollupConfig.OverrideTakesPrecedence | rollup-engine/serverlessFunctions/calculaterollups/src/index.ts:194-208 | a non-empty override decides the outcome whatever the default; an unparseable or rejected override is an error, never a fallback |
| RollupConfig.EmptyFirstOverrideSelectsDefault | rollup-engine/serverlessFunctions/calculaterollups/src/index.ts:194-199 | an empty `ROLLUP_ENGINE_CONFIG` hides the other two variables and selects the default |
| DefaultConfig.DefaultConfigAccepted | rollup-engine/serverlessFunctions/calculaterollups/src/rollupConfig.ts:3-62 | the default configuration is accepted, reads as the person-from-gift definition, and is what runs without an override |
| Calendar.YearLength | rollup-engine/serverlessFunctions/calculaterollups/src/index.ts:247 | a year has 366 days when leap, else 365 |
| Calendar.UtcYear | rollup-engine/serverlessFunctions/calculaterollups/src/index.ts:247 | `getUTCFullYear`: the year whose first instant is at or before `now` and whose successor's is after it |
| Calendar.UtcYearUnique | rollup-engine/serverlessFunctions/calculaterollups/src/index.ts:247 | that year is the only one with this property |
| Calendar.StartOfYearMs | rollup-engine/serverlessFunctions/calculaterollups/src/index.ts:244-249 | outside the years 0-99, the start of year is at or before `now` and before the next year |
| Calendar.TwoDigitYearStart | rollup-engine/serverlessFunctions/calculaterollups/src/index.ts:247 | for the years 0-99, `Date.UTC` lands in the 1900s, after `now` |
| Calendar.StartOf2025 | rollup-engine/serverlessFunctions/calculaterollups/src/index.ts:244-249 | any instant of 2025 has start of year 1735689600000 (2025-01-01T00:00:00Z) |
| FieldPath.Split | rollup-engine/serverlessFunctions/calculaterollups/src/index.ts:387 | `split('.')` yields at least one part, none containing the separator |
| FieldPath.JoinSplit | rollup-engine/serverlessFunctions/calculaterollups/src/index.ts:387 | joining the parts of a split gives back the path |
| FieldPath.SplitJoin | rollup-engine/serverlessFunctions/calculaterollups/src/index.ts:387 | splitting the join of separator-free parts gives back the parts |
| FieldPath.SplitWithoutSeparator | rollup-engine/serverlessFunctions/calculaterollups/src/index.ts:383-385 | a path without a dot splits into itself |
| FieldPath.Walk | rollup-engine/serverlessFunctions/calculaterollups/src/index.ts:387-392 | stepping from a non-object gives undefined |
| FieldPath.WalkAppend | rollup-engine/serverlessFunctions/calculaterollups/src/index.ts:387-392 | walking a joined key list is walking one list and then the other |
| FieldPath.GetNestedValue | rollup-engine/serverlessFunctions/calculaterollups/src/index.ts:382-393 | only an object yields a defined value |
| FieldPath.NestedValueIsWalk | rollup-engine/serverlessFunctions/calculaterollups/src/index.ts:382-393 | in the model, `getNestedValue` is the walk along the dot-split path, with or without a dot (the source throws instead on a null or undefined record without a dot) |
| FieldPath.WalkNest | rollup-engine/serverlessFunctions/calculaterollups/src/index.ts:387-392 | walking the keys of a value nested under those keys reaches the value |
| FieldPath.GetNestedValueOfNest | rollup-engine/serverlessFunctions/calculaterollups/src/index.ts:382-393 | `getNestedValue` finds a value stored at its dotted path |
| Filters.NormalizeForEquality | rollup-engine/serverlessFunctions/calculaterollups/src/index.ts:255-273 | null, undefined, arrays and objects normalise to null; booleans stay booleans; numbers come from numbers or numeric strings |
| Filters.ToComparableNumber | rollup-engine/serverlessFunctions/calculaterollups/src/index.ts:275-294 | only numbers, strings and dates are comparable, and a number is itself |
| Filters.CompareValues | rollup-engine/serverlessFunctions/calculaterollups/src/index.ts:296-303 | a comparison exists exactly when both sides are comparable, and it is their difference |
| Filters.ComparisonSource | rollup-engine/serverlessFunctions/calculaterollups/src/index.ts:306-309 | without a dynamic value the filter compares against its literal value |
| Filters.ResolveDynamicValue | rollup-engine/serverlessFunctions/calculaterollups/src/index.ts:244-249 | `startOfYear` is an ISO string that parses back to the UTC start of the current year, when the host's ISO formatting round-trips |
| Filters.LooseEquals | rollup-engine/serverlessFunctions/calculaterollups/src/index.ts:312-316 | strictly equal values are loosely equal |
| Filters.EvaluateFilter | rollup-engine/serverlessFunctions/calculaterollups/src/index.ts:305-363 | `in`, `gt`, `gte`, `lt` and `lte` never pass an undefined or null field value |
| Filters.LooseEqualsSymmetric | rollup-engine/serverlessFunctions/calculaterollups/src/index.ts:312-316 | `equals` does not depend on the order of its operands |
| Filters.NotEqualsNegatesEquals | rollup-engine/serverlessFunctions/calculaterollups/src/index.ts:312-321 | `notEquals` passes exactly what `equals` rejects |
| Filters.NotInNegatesIn | rollup-engine/serverlessFunctions/calculaterollups/src/index.ts:322-345 | `notIn` passes exactly what `in` rejects; without an array, `in` is false and `notIn` is true |
| Filters.InMeansListed | rollup-engine/serverlessFunctions/calculaterollups/src/index.ts:322-333 | `in` passes exactly when some listed value normalises to the same non-null value |
| Filters.OrderingOperators | rollup-engine/serverlessFunctions/calculaterollups/src/index.ts:346-361 | `gt`, `gte`, `lt` and `lte` hold exactly when both sides are comparable and ordered so |
| Filters.NumericStringEqualsNumber | rollup-engine/serverlessFunctions/calculaterollups/src/index.ts:312-316 | a numeric string `equals` the number it denotes |
| Filters.StartOfYearFilter | rollup-engine/serverlessFunctions/calculaterollups/src/index.ts:305-353 | `gte startOfYear` passes exactly the comparable values not earlier than the UTC start of the current year |
| Filters.Retain | rollup-engine/serverlessFunctions/calculaterollups/src/index.ts:375-379 | the filtered records are no more than the records |
| Filters.RetainExact | rollup-engine/serverlessFunctions/calculaterollups/src/index.ts:375-379 | the retained records are an in-order subsequence holding each passing record as often as it occurs, and no other |
| Filters.ApplyFilters | rollup-engine/serverlessFunctions/calculaterollups/src/index.ts:367-380 | never more records than given; no filters keep every record |
| Filters.ApplyFiltersExact | rollup-engine/serverlessFunctions/calculaterollups/src/index.ts:367-380 | `applyFilters` returns the in-order subsequence of the records that pass every filter; no filters returns the input |
| Filters.PassesAllAppend | rollup-engine/serverlessFunctions/calculaterollups/src/index.ts:376-378 | passing a concatenation of filters is passing both parts |
| Filters.RetainCompose | rollup-engine/serverlessFunctions/calculaterollups/src/index.ts:375-379 | filtering twice is filtering once by both lists |
| Filters.ApplyFiltersCompose | rollup-engine/serverlessFunctions/calculaterollups/src/index.ts:403-411 | the aggregation-scoped records are those passing the child filters followed by the aggregation's filters |
| Aggregation.JsRound | rollup-engine/serverlessFunctions/calculaterollups/src/index.ts:447 | `Math.round` lies within one half of its argument, halves up |
| Aggregation.JsRoundInteger | rollup-engine/serverlessFunctions/calculaterollups/src/index.ts:447 | rounding an integer leaves it unchanged |
| Aggregation.RoundForSum | rollup-engine/serverlessFunctions/calculaterollups/src/index.ts:395-396 | integers unchanged; anything else within half a hundredth |
| Aggregation.SumMicrosAsWritten | rollup-engine/serverlessFunctions/calculaterollups/src/index.ts:447 | `Math.round(roundForSum(total))`: an integer total is written unchanged; any other lies within one half plus half a hundredth of the written amount |
| Aggregation.DoubleRoundingDiffers | rollup-engine/serverlessFunctions/calculaterollups/src/index.ts:447 | rounding to hundredths first turns 0.496 into 1 where a single rounding gives 0 |
| Aggregation.SumRoundingsAgreeOnIntegers | rollup-engine/serverlessFunctions/calculaterollups/src/index.ts:447 | on integer totals both roundings give the total |
| Aggregation.NumericValue | rollup-engine/serverlessFunctions/calculaterollups/src/index.ts:428-432 | only numbers and strings have a numeric value, and a number is itself |
| Aggregation.TotalAppend | rollup-engine/serverlessFunctions/calculaterollups/src/index.ts:421-445 | the total and the numeric count of a concatenation are the sums of the parts' |
| Aggregation.TotalPermutation | rollup-engine/serverlessFunctions/calculaterollups/src/index.ts:421-473 | the total and the numeric count do not depend on the order of the records |
| Aggregation.SumFold | rollup-engine/serverlessFunctions/calculaterollups/src/index.ts:421-445 | the folded currency, when there is one, is non-blank |
| Aggregation.SumFoldAmount | rollup-engine/serverlessFunctions/calculaterollups/src/index.ts:421-445 | the SUM amount is the total of the numeric values, skipping NaN |
| Aggregation.SumFoldNoCurrency | rollup-engine/serverlessFunctions/calculaterollups/src/index.ts:436-442 | the SUM ends without a currency exactly when no added record carries a non-blank one |
| Aggregation.SumFoldCurrency | rollup-engine/serverlessFunctions/calculaterollups/src/index.ts:436-442 | the SUM currency is that of the last added record with a non-blank currency, and none exactly when no such record exists |
| Aggregation.SumValue | rollup-engine/serverlessFunctions/calculaterollups/src/index.ts:421-449 | SUM writes exactly `amountMicros` and `currencyCode`; the amount is the doubly rounded total of the numeric values; no record with a non-blank currency gives the currency `''` |
| Aggregation.AvgFold | rollup-engine/serverlessFunctions/calculaterollups/src/index.ts:456-473 | no more numeric values are counted than there are records |
| Aggregation.AvgFoldIsTotalAndCount | rollup-engine/serverlessFunctions/calculaterollups/src/index.ts:456-473 | the AVG fold holds the total and the count of the numeric values |
| Aggregation.AvgValue | rollup-engine/serverlessFunctions/calculaterollups/src/index.ts:452-476 | AVG is null or a number, and null over no records |
| Aggregation.AvgValueMeaning | rollup-engine/serverlessFunctions/calculaterollups/src/index.ts:452-476 | AVG is null exactly when no value is numeric, else the mean within half a hundredth |
| Extremes.Beats | rollup-engine/serverlessFunctions/calculaterollups/src/index.ts:491-495 | a candidate replaces the chosen record only when strictly greater (MAX) or strictly smaller (MIN) |
| Extremes.Extreme | rollup-engine/serverlessFunctions/calculaterollups/src/index.ts:484-498 | the chosen value's comparable number is the one recorded with it |
| Extremes.ChooseExtreme | rollup-engine/serverlessFunctions/calculaterollups/src/index.ts:483-498 | the `forEach` loop chooses the record `Extreme` specifies |
| Extremes.ExtremeNone | rollup-engine/serverlessFunctions/calculaterollups/src/index.ts:484-500 | nothing is chosen exactly when no record has a comparable value |
| Extremes.ExtremeIsFirstBest | rollup-engine/serverlessFunctions/calculaterollups/src/index.ts:484-498 | the chosen record is the first with the greatest (MAX) or least (MIN) comparable value, so ties keep the first |
| Extremes.Prefix10 | rollup-engine/serverlessFunctions/calculaterollups/src/index.ts:504 | `slice(0, 10)` is the prefix of length at most 10 |
| Extremes.ExtremeOutput | rollup-engine/serverlessFunctions/calculaterollups/src/index.ts:499-513 | null exactly when nothing is chosen; a numeric raw value is returned unchanged; otherwise a date prefix or the raw string |
| Compute.AggregationValue | rollup-engine/serverlessFunctions/calculaterollups/src/index.ts:413-518 | an aggregation fails exactly when it is not COUNT and lacks its child field, with the source's message; COUNT is the number of scoped records; no value is undefined |
| Compute.Aggregates | rollup-engine/serverlessFunctions/calculaterollups/src/index.ts:398-522 | a successful computation writes exactly the aggregations' parent fields |
| Compute.ComputeAggregations | rollup-engine/serverlessFunctions/calculaterollups/src/index.ts:398-404 | `computeAggregations` applies the child filters and then yields the payload `Aggregates` specifies, or its failure |
| Compute.AggregateEach | rollup-engine/serverlessFunctions/calculaterollups/src/index.ts:406-519 | the `forEach` over aggregations yields the payload `PayloadUpTo` specifies for all of them, or the first failure |
| Compute.PayloadStop | rollup-engine/serverlessFunctions/calculaterollups/src/index.ts:418-420 | an aggregation without its child field ends the whole computation with its message |
| Compute.PayloadStep | rollup-engine/serverlessFunctions/calculaterollups/src/index.ts:406-518 | one more successful aggregation writes its value under its parent field |
| Compute.ComputeValue | rollup-engine/serverlessFunctions/calculaterollups/src/index.ts:413-518 | the `switch` on the type yields the value `AggregationValue` specifies |
| Compute.PayloadFailurePersists | rollup-engine/serverlessFunctions/calculaterollups/src/index.ts:406-419 | once an aggregation throws, the computation ends with that error |
| Compute.PayloadFailure | rollup-engine/serverlessFunctions/calculaterollups/src/index.ts:406-482 | the computation fails exactly when some aggregation fails, with the first failing one's error |
| Compute.PayloadKeys | rollup-engine/serverlessFunctions/calculaterollups/src/index.ts:406-519 | a computed payload has exactly the aggregations' parent fields as keys |
| Compute.PayloadLastWins | rollup-engine/serverlessFunctions/calculaterollups/src/index.ts:406-519 | each parent field holds the value of the last aggregation writing it |
| Compute.PayloadDefined | rollup-engine/serverlessFunctions/calculaterollups/src/index.ts:404-519 | no payload value is undefined when no aggregation yields undefined |
| Compute.AggregatesFailure | rollup-engine/serverlessFunctions/calculaterollups/src/index.ts:413-482 | `computeAggregations` throws exactly when a non-COUNT aggregation lacks its child field, with the first such one's message |
| Compute.ValidDefinitionComputes | rollup-engine/serverlessFunctions/calculaterollups/src/index.ts:398-522 | a valid definition always computes, writing exactly its parent fields |
| Compute.AggregationResult | rollup-engine/serverlessFunctions/calculaterollups/src/index.ts:403-416 | the last aggregation on a parent field is computed over the records passing the child filters and then its own filters; COUNT is their number |
| Compute.Sanitize | rollup-engine/serverlessFunctions/calculaterollups/src/index.ts:81-92 | the entries kept are exactly those with a defined value, unchanged |
| Compute.SanitizeComputedPayload | rollup-engine/serverlessFunctions/calculaterollups/src/index.ts:81-92 | sanitising a computed payload changes nothing |
| Scope.Harvest | rollup-engine/serverlessFunctions/calculaterollups/src/index.ts:216-233 | the relation values found are non-blank strings |
| Scope.ItemsValuesStep | rollup-engine/serverlessFunctions/calculaterollups/src/index.ts:217-219 | scanning one more array entry adds that entry's values |
| Scope.FieldsValuesStep | rollup-engine/serverlessFunctions/calculaterollups/src/index.ts:226-232 | scanning one more object entry adds that entry's values |
| Scope.RelationValues.constructor | rollup-engine/serverlessFunctions/calculaterollups/src/index.ts:239 | the result set starts empty |
| Scope.RelationValues.Collect | rollup-engine/serverlessFunctions/calculaterollups/src/index.ts:216-233 | `collectValuesByKey` adds exactly the values `Harvest` specifies to the shared set |
| Scope.ExtractRelationValues | rollup-engine/serverlessFunctions/calculaterollups/src/index.ts:235-242 | `extractRelationValues` returns `Harvest` of the payload |
| Scope.HarvestSound | rollup-engine/serverlessFunctions/calculaterollups/src/index.ts:216-233 | every value found is stored under the key at some reachable place |
| Scope.HarvestComplete | rollup-engine/serverlessFunctions/calculaterollups/src/index.ts:216-233 | every non-blank string stored under the key at a reachable place is found |
| Scope.HarvestExact | rollup-engine/serverlessFunctions/calculaterollups/src/index.ts:216-242 | the values found are exactly the non-blank strings stored under the key anywhere in the nested objects and arrays |
| Scope.DetermineFullRebuild | rollup-engine/serverlessFunctions/calculaterollups/src/index.ts:760-774 | only an object payload asks for a full rebuild |
| Scope.DetermineFullRebuildExact | rollup-engine/serverlessFunctions/calculaterollups/src/index.ts:760-774 | a full rebuild is asked exactly when the payload is an object with `recalculateAll` or `fullRebuild` literally `true`, or a `'cron'` trigger, bare or as `{ type: 'cron' }` |
| Scope.FullRebuildFlags | rollup-engine/serverlessFunctions/calculaterollups/src/index.ts:764-766 | only the literal `true` of `recalculateAll` asks for a rebuild |
| Scope.CronTriggerRebuilds | rollup-engine/serverlessFunctions/calculaterollups/src/index.ts:767-772 | a `'cron'` trigger, bare or as `{ type: 'cron' }`, asks for a rebuild |
| Scope.DatabaseEventIsTargeted | rollup-engine/serverlessFunctions/calculaterollups/src/index.ts:760-774 | a database-event payload is a targeted run |
| Client.ResourceName | rollup-engine/serverlessFunctions/calculaterollups/src/index.ts:94-95 | the irregular plural when listed, else the name with an `s` |
| Client.Singular | rollup-engine/serverlessFunctions/calculaterollups/src/index.ts:643-645 | a resource ending in `s` loses it; any other resource is unchanged |
| Client.SingularOfResourceName | rollup-engine/serverlessFunctions/calculaterollups/src/index.ts:643-645 | the singular fallback recovers regular names and `gift`, but not `person` from `people` |
| Client.StripTrailingSlashes | rollup-engine/serverlessFunctions/calculaterollups/src/index.ts:536 | a prefix of the string, not ending in `/`, with only slashes removed |
| Client.StripLeadingSlashes | rollup-engine/serverlessFunctions/calculaterollups/src/index.ts:587 | a suffix of the string, not starting with `/`, with only slashes removed |
| Client.StripIdempotent | rollup-engine/serverlessFunctions/calculaterollups/src/index.ts:536 | stripping twice strips nothing more |
| Client.NewClient | rollup-engine/serverlessFunctions/calculaterollups/src/index.ts:532-537 | the client keeps its key and the base URL minus trailing slashes |
| Client.RequestUrl | rollup-engine/serverlessFunctions/calculaterollups/src/index.ts:585-587 | an absolute `http…` path is used as it is |
| Client.RequestUrlJoinsWithOneSlash | rollup-engine/serverlessFunctions/calculaterollups/src/index.ts:585-587 | a relative path is joined to the base URL with exactly one slash |
| Client.FetchWithRetry | rollup-engine/serverlessFunctions/calculaterollups/src/index.ts:539-562 | the retry loop ends with the response and the sleeps `Retry` specifies |
| Client.Retry | rollup-engine/serverlessFunctions/calculaterollups/src/index.ts:539-562 | no more sleeps than attempts left; a response is returned exactly when its status is ok |
| Client.RetrySchedule | rollup-engine/serverlessFunctions/calculaterollups/src/index.ts:549-556 | at most three calls; a retry only after a retriable non-ok status; the delay before call k+1 is 300·k; success exactly on an ok status |
| Client.RetryStops | rollup-engine/serverlessFunctions/calculaterollups/src/index.ts:544-561 | an ok first response returns at once; a non-retriable failure fails after one call; at most two sleeps |
| Client.TwoOutagesThenSuccess | rollup-engine/serverlessFunctions/calculaterollups/src/index.ts:549-556 | 503, 503, 200 succeeds after sleeping 300 and 600 ms |
| Client.ThreeOutages | rollup-engine/serverlessFunctions/calculaterollups/src/index.ts:549-561 | three 503s fail with 503 after two retries |
| Client.ResponseBody | rollup-engine/serverlessFunctions/calculaterollups/src/index.ts:614-629 | 204 or an empty body is `{}`; the request fails exactly when a non-empty body does not parse |
| Client.Capitalize | rollup-engine/serverlessFunctions/calculaterollups/src/index.ts:652 | the first character upper-cased, the rest unchanged |
| Client.EnvelopeKeys | rollup-engine/serverlessFunctions/calculaterollups/src/index.ts:638-653 | three keys, the resource first |
| Client.Data | rollup-engine/serverlessFunctions/calculaterollups/src/index.ts:632-636 | `data` is used only when the body and its `data` are both objects |
| Client.ExtractRecords | rollup-engine/serverlessFunctions/calculaterollups/src/index.ts:632-662 | records come only from an array under one of the envelope keys of `data` |
| Client.ExtractRecordsPrecedence | rollup-engine/serverlessFunctions/calculaterollups/src/index.ts:636-659 | the first envelope key holding an array wins: direct, then singular, then `findMany…` |
| Client.ExtractRecordsNone | rollup-engine/serverlessFunctions/calculaterollups/src/index.ts:633-661 | no data object or no array under any key gives no records |
| Client.ExtractRecordsOfEnvelope | rollup-engine/serverlessFunctions/calculaterollups/src/index.ts:636-641 | `{ data: { <resource>: records } }` yields the records |
| Client.ExtractPageInfo | rollup-engine/serverlessFunctions/calculaterollups/src/index.ts:664-675 | an object page info; the top-level `pageInfo` takes precedence |
| Client.CursorOf | rollup-engine/serverlessFunctions/calculaterollups/src/index.ts:713-716 | a cursor is a non-empty string property |
| Client.ReadPage | rollup-engine/serverlessFunctions/calculaterollups/src/index.ts:706-722 | items are the extracted records; a cursor implies a next page; no page info means no next page and no cursor |
| Client.NextPageWithoutCursorStops | rollup-engine/serverlessFunctions/calculaterollups/src/index.ts:708-740 | `hasNextPage: true` without a cursor stops the listing |
| Client.ListAllRecords | rollup-engine/serverlessFunctions/calculaterollups/src/index.ts:725-745 | records are the concatenated items of the pages read; every page but the last continues; the first request has no cursor and each next uses the previous page's cursor |
| ChildIndexing.Matching | rollup-engine/serverlessFunctions/calculaterollups/src/index.ts:828-831 | only records whose relation value is the parent id are kept |
| ChildIndexing.MatchingExact | rollup-engine/serverlessFunctions/calculaterollups/src/index.ts:828-831 | every record naming the parent is kept as often as it occurs, and no other |
| ChildIndexing.RelationKey | rollup-engine/serverlessFunctions/calculaterollups/src/index.ts:847-850 | a record is grouped exactly when its relation value is a non-blank string |
| ChildIndexing.Grouped | rollup-engine/serverlessFunctions/calculaterollups/src/index.ts:844-856 | every group's key is non-blank and every group is non-empty |
| ChildIndexing.GroupedIsMatching | rollup-engine/serverlessFunctions/calculaterollups/src/index.ts:844-856 | a key has a group exactly when it is non-blank and named by some record; its group is those records in order |
| ChildIndexing.UngroupedRecord | rollup-engine/serverlessFunctions/calculaterollups/src/index.ts:846-850 | a record with a blank or non-string relation value is in no group |
| ChildIndexing.WithTargets | rollup-engine/serverlessFunctions/calculaterollups/src/index.ts:780-782 | without target ids nothing changes |
| ChildIndexing.WithTargetsAdds | rollup-engine/serverlessFunctions/calculaterollups/src/index.ts:776-788 | targets are added with empty groups, existing groups kept; applying it twice is applying it once |
| ChildIndexing.ChildIndex.constructor | rollup-engine/serverlessFunctions/calculaterollups/src/index.ts:816 | the map starts empty |
| ChildIndexing.ChildIndex.Set | rollup-engine/serverlessFunctions/calculaterollups/src/index.ts:836 | `result.set` replaces the entry of that id |
| ChildIndexing.ChildIndex.Push | rollup-engine/serverlessFunctions/calculaterollups/src/index.ts:851-854 | the record is appended to its key's group, created empty if missing |
| ChildIndexing.ChildIndex.EnsureTargets | rollup-engine/serverlessFunctions/calculaterollups/src/index.ts:776-788 | the map becomes `WithTargets` of the old map |
| ChildIndexing.GroupByRelation | rollup-engine/serverlessFunctions/calculaterollups/src/index.ts:844-856 | the grouping loop builds `Grouped` of the records |
| ChildIndexing.TargetedIndex | rollup-engine/serverlessFunctions/calculaterollups/src/index.ts:814-841 | no index exactly when some parent's listing fails; otherwise its keys are the target ids |
| ChildIndexing.TargetedIndexHasTargets | rollup-engine/serverlessFunctions/calculaterollups/src/index.ts:840 | `ensureMapHasTargets` changes nothing after a successful targeted build |
| ChildIndexing.RequestedFrom | rollup-engine/serverlessFunctions/calculaterollups/src/index.ts:819-838 | the number of listings requested lies between the start and the end |
| ChildIndexing.RequestedBatches | rollup-engine/serverlessFunctions/calculaterollups/src/index.ts:819-838 | requests go in whole batches of five; everything before the last batch succeeds; a shortfall means a failure in the last batch; with no failure all are requested |
| ChildIndexing.Enumerate | rollup-engine/serverlessFunctions/calculaterollups/src/index.ts:815 | `Array.from(parentIds)` lists each id exactly once |
| ChildIndexing.ListBatch | rollup-engine/serverlessFunctions/calculaterollups/src/index.ts:821-834 | one listing per parent of the batch, in order |
| ChildIndexing.SetBatch | rollup-engine/serverlessFunctions/calculaterollups/src/index.ts:835-837 | after a successful batch the map is the listed index of all parents so far |
| ChildIndexing.FailingBatch | rollup-engine/serverlessFunctions/calculaterollups/src/index.ts:819-838 | a failing listing ends the requests with its batch and leaves no index |
| ChildIndexing.AllListed | rollup-engine/serverlessFunctions/calculaterollups/src/index.ts:819-841 | when every listing succeeds the map built is the targeted index |
| ChildIndexing.BuildTargetedIndex | rollup-engine/serverlessFunctions/calculaterollups/src/index.ts:814-842 | the batch loop yields `TargetedIndex`, enumerating every id once and requesting exactly `RequestedFrom` of them |
| ChildIndexing.ChildRecordIndex | rollup-engine/serverlessFunctions/calculaterollups/src/index.ts:809-857 | a targeted index has the target ids as keys; a full rebuild fails exactly when listing fails, and files each child under its non-blank relation value |
| ChildIndexing.BuildChildRecordIndex | rollup-engine/serverlessFunctions/calculaterollups/src/index.ts:809-857 | `buildChildRecordIndex` yields `ChildRecordIndex` |
| Orchestrator.FirstSet | rollup-engine/serverlessFunctions/calculaterollups/src/index.ts:791-794 | `??` yields a value exactly when either side is set |
| Orchestrator.GetApiCredentials | rollup-engine/serverlessFunctions/calculaterollups/src/index.ts:790-807 | credentials exist exactly when the first set key variable is non-empty |
| Orchestrator.EmptyKeyShadowsOthers | rollup-engine/serverlessFunctions/calculaterollups/src/index.ts:791-798 | an empty `TWENTY_API_KEY` gives no credentials |
| Orchestrator.FallbackKeyAndDefaultUrl | rollup-engine/serverlessFunctions/calculaterollups/src/index.ts:790-807 | `API_KEY` alone is used with the public REST URL |
| Orchestrator.ParentPayload | rollup-engine/serverlessFunctions/calculaterollups/src/index.ts:938-939 | a parent's payload has exactly the definition's parent fields |
| Orchestrator.PayloadNeverEmpty | rollup-engine/serverlessFunctions/calculaterollups/src/index.ts:938-942 | a valid definition's payload is never empty, so none is skipped |
| Orchestrator.UpdatedIds | rollup-engine/serverlessFunctions/calculaterollups/src/index.ts:931-968 | the updated parents are among the indexed ones |
| Orchestrator.EveryParentIsSent | rollup-engine/serverlessFunctions/calculaterollups/src/index.ts:931-968 | the updated parents are exactly the indexed ones whose update succeeded |
| Orchestrator.DefinitionSummary | rollup-engine/serverlessFunctions/calculaterollups/src/index.ts:903-976 | a summary never counts more updates than parents processed, names its definition, and has the run's mode |
| Orchestrator.TargetedSummary | rollup-engine/serverlessFunctions/calculaterollups/src/index.ts:904-918 | a targeted summary processes every payload relation value, and is skipped exactly when there are none |
| Orchestrator.FullRebuildSummary | rollup-engine/serverlessFunctions/calculaterollups/src/index.ts:904-976 | a full rebuild fails exactly when listing fails, and processes the distinct non-blank relation values |
| Orchestrator.ComputePayload | rollup-engine/serverlessFunctions/calculaterollups/src/index.ts:938-939 | the computed and sanitised payload is `ParentPayload`, never empty |
| Orchestrator.AppendUpdate | rollup-engine/serverlessFunctions/calculaterollups/src/index.ts:946 | pushing an update for a new parent adds that parent and keeps parents distinct |
| Orchestrator.CollectUpdates | rollup-engine/serverlessFunctions/calculaterollups/src/index.ts:926-947 | one update per indexed parent, each with its payload, none empty |
| Orchestrator.SucceededStep | rollup-engine/serverlessFunctions/calculaterollups/src/index.ts:950-968 | one more update adds its new parent to the successes exactly when it succeeds |
| Orchestrator.SendUpdates | rollup-engine/serverlessFunctions/calculaterollups/src/index.ts:949-968 | `updatedCount` is the number of successful updates; failures are not counted |
| Orchestrator.SucceededAreUpdated | rollup-engine/serverlessFunctions/calculaterollups/src/index.ts:926-968 | the successful updates are the updated parents of `UpdatedIds` |
| Orchestrator.ProcessDefinition | rollup-engine/serverlessFunctions/calculaterollups/src/index.ts:903-976 | one pass of the loop yields `DefinitionSummary` |
| Orchestrator.GatherExact | rollup-engine/serverlessFunctions/calculaterollups/src/index.ts:903-977 | the loop fails exactly when some definition fails, and otherwise keeps every summary in place |
| Orchestrator.Summaries | rollup-engine/serverlessFunctions/calculaterollups/src/index.ts:903-977 | one summary per definition |
| Orchestrator.SummariesExact | rollup-engine/serverlessFunctions/calculaterollups/src/index.ts:903-977 | the summaries are the definitions' own, in order, and none exactly when a definition fails |
| Orchestrator.SummariesDetermined | rollup-engine/serverlessFunctions/calculaterollups/src/index.ts:903-977 | the definitions' summaries determine the run's |
| Orchestrator.TotalProcessedZero | rollup-engine/serverlessFunctions/calculaterollups/src/index.ts:979-982 | nothing is processed exactly when no definition processes anything |
| Orchestrator.TotalsOrdered | rollup-engine/serverlessFunctions/calculaterollups/src/index.ts:866-867 | the updated total does not exceed the processed total when no item's does |
| Orchestrator.FormatSummary | rollup-engine/serverlessFunctions/calculaterollups/src/index.ts:859-870 | status ok with the duration and details; updated ≤ processed; processed is 0 exactly when every item's is |
| Orchestrator.Execute | rollup-engine/serverlessFunctions/calculaterollups/src/index.ts:875-896 | no definitions or no API key is the corresponding noop |
| Orchestrator.Conclude | rollup-engine/serverlessFunctions/calculaterollups/src/index.ts:979-995 | a failed definition is an error; a full rebuild that succeeds is summarised |
| Orchestrator.EarlyOutcomes | rollup-engine/serverlessFunctions/calculaterollups/src/index.ts:874-878 | a configuration error is reported; otherwise the run depends on the resolved configuration |
| Orchestrator.OkRun | rollup-engine/serverlessFunctions/calculaterollups/src/index.ts:979-995 | a summarised run has one detail per definition, each its own summary, and updated ≤ processed |
| Orchestrator.TargetedNoop | rollup-engine/serverlessFunctions/calculaterollups/src/index.ts:984-989 | a successful targeted run is the "No matching relation ids" noop exactly when the payload has no relation value of any definition |
| Orchestrator.TargetedProcessed | rollup-engine/serverlessFunctions/calculaterollups/src/index.ts:904-918 | in a targeted run each summary's processed count is the number of its relation values |
| Orchestrator.BuildRelationCache | rollup-engine/serverlessFunctions/calculaterollups/src/index.ts:881-890 | `relationCache` has every relation field, each with its payload values |
| Orchestrator.ProcessAll | rollup-engine/serverlessFunctions/calculaterollups/src/index.ts:903-977 | the loop pushes every definition's own summary, or stops when one fails |
| Orchestrator.ExecuteRun | rollup-engine/serverlessFunctions/calculaterollups/src/index.ts:875-995 | the run from the resolved configuration on is `Execute` |
| Orchestrator.Main | rollup-engine/serverlessFunctions/calculaterollups/src/index.ts:872-1012 | the run is a configuration error exactly when the configuration does not resolve; a summarised run never counts more updates than parents processed |
| Orchestrator.Run | rollup-engine/serverlessFunctions/calculaterollups/src/index.ts:872-1012 | `main` is `Main` |
| SmokeScenario.SmokePayload | rollup-engine/scripts/run-rollup-smoke.ts:119-130 | with the default configuration in 2025, person-1's two GBP gifts give the payload the smoke script expects |

## Left out

- I/O: the model performs no `fetch`, no HTTP, no `URL` building, no `.text()`, no `JSON.parse` or `JSON.stringify`, and no request or header serialisation. Responses are statuses, bodies, and already-parsed values.
- Query parameters (`appendQueryParams`, `limit`, `starting_after`, `filter[...]`, `order_by[...]`) are left out. A listing by parent is the backend's `listRelated` function.
- `console` logging is left out.
- `sleep` is left out: `Client.FetchWithRetry` returns the delays it would sleep.
- The error message of a failed request is left out. A failed listing ends the run as `RequestError`. The outer `try/catch` message formatting is left out.
- `Promise.all`: each batch's listings are taken in order. When several listings fail, the model does not say which rejection `Promise.all` reports.
- `process.env` and `Date.now()` are parameters.
- The configuration is read before the relation cache and the credentials. These steps have no side effects that can be observed here.
- Key order of JavaScript objects, `Map` and `Set` is not modelled:
  - `Array.from(parentIds)` takes the ids in some order, proved to list each once (`ChildIndexing.Enumerate`).
  - `childIndex.forEach` visits the parents in some order.
  - The summaries and the index do not depend on either order.
- Floating point is not modelled, and numbers are exact reals:
  - NaN is "no number".
  - `Infinity` and the non-finite check of `sanitizePayload` do not arise.
  - Rounding error in additions is not modelled.
- Compute.Sanitize: it drops only undefined values, because non-finite numbers do not exist among reals.
- `Number(string)`, `Date.parse` and `toISOString` are abstract host functions. Facts such as `Number("") == 0` are the host's, and some lemmas take them as hypotheses.
- `Client.Capitalize` upper-cases ASCII letters only, where `toUpperCase` handles all of Unicode.
- Strict equality of objects, arrays and dates compares references. The model treats two such values from a record and a filter as never identical.
- Some accepted configurations fall outside the typed model and resolve to `OutsideModel`:
  - a `dynamicValue` other than `startOfYear`, which the source throws on at evaluation time;
  - a non-string `currencyField`;
  - a truthy `childFilters` that is not an array.
- The `default` branches of `evaluateFilter` and `computeAggregations` cannot be reached after validation, so they are not modelled.
- FieldPath.GetNestedValue: a path without a dot read from a null or undefined record throws a `TypeError` in the source (index.ts:384, reached from the reads at index.ts:377 and 847), which `main`'s `catch` turns into an error run. The model reads undefined instead. Records listed by the CRM are objects, so this arises only with a malformed listing.
- FieldPath.GetNestedValue: the own properties of arrays (index keys such as `"0"`, and `length`) and inherited properties (`toString` and the like) read as undefined. The source reads them when a path steps into an array (index.ts:391) or names such a property.
- FieldPath.Walk: a step into an array by index or by `length` gives undefined in the model, where the source reads the element or the length.
- FieldPath.NestedValueIsWalk: it holds of the model only; for a null or undefined record and a path without a dot the source throws instead of walking.
- Client.ListAllRecords: it takes the pages already read (`Client.ReadPage`) and stops when the given pages run out. The source keeps requesting from the server.
- `updateObject` is the backend's `updateObject`: only whether the update succeeded is modelled.
- The smoke script also expects an update of `appeal-1` (run-rollup-smoke.ts:132-137). The default configuration of this engine (rollupConfig.ts:3-62) has no appeal definition, so that expectation cannot hold against it and is not modelled. The copy under `apps/core` defines one (an appeal rollup from gifts over `appealId`), but that configuration is not part of this model. Only the person payload is modelled (`SmokeScenario.SmokePayload`).
- The second copy of the engine and its configuration under `apps/core` is not part of this model.

## Findings

| source | as written | input that shows it | evidently intended | confidence | as-written member | corrected member |
|---|---|---|---|---|---|---|
| rollup-engine/serverlessFunctions/calculaterollups/src/index.ts:447 | `Math.round(roundForSum(total))` rounds a non-integer total to hundredths and then to an integer | a SUM total of 0.496 gives `amountMicros` 1 (0.496 → 0.5 → 1), where rounding once gives 0 | the total rounded once to the nearest integer | low (not executed; integer micro amounts never hit it) | Aggregation.SumMicrosAsWritten, Aggregation.DoubleRoundingDiffers | Aggregation.SumMicros |

The model follows the code here: `Aggregation.SumValue` writes `SumMicrosAsWritten` of the total. `Aggregation.SumMicros` states the single rounding, proved to lie within one half of the total, and `Aggregation.SumRoundingsAgreeOnIntegers` shows that the two agree on every integer total, which is what sums of integer micro amounts produce.
