/**
 * One run of the rollup function: resolve the configuration, decide between a full
 * rebuild and a targeted run, build each definition's child-record index, compute and
 * send one payload per parent, and summarise.
 */
module Orchestrator {
  import opened Wrappers
  import opened JsonValue
  import opened RollupConfig
  import opened Compute
  import opened Scope
  import opened ChildIndexing

  // ---------------------------------------------------------------------------
  // Credentials

  /** The environment variables credentials are read from; None is an unset variable. */
  datatype CredentialEnv = CredentialEnv(
    twentyApiKey: Option<string>, twentyApiToken: Option<string>, apiKey: Option<string>,
    twentyApiBaseUrl: Option<string>, twentyRestBaseUrl: Option<string>, twentyApiUrl: Option<string>)

  datatype Credentials = Credentials(apiKey: string, baseUrl: string)

  const DefaultBaseUrl := "https://api.twentycrm.com/rest"

  /** `a ?? b`: the first value that is set, even when it is empty. */
  function FirstSet(a: Option<string>, b: Option<string>): (r: Option<string>)
    ensures r.Some? <==> a.Some? || b.Some?
  {
    if a.Some? then a else b
  }

  /**
   * `getApiCredentials`: the first key variable that is set, none when it is empty; the
   * first base URL variable that is set, else the public API.
   */
  function GetApiCredentials(env: CredentialEnv): (r: Option<Credentials>)
    ensures r.Some? ==> r.value.apiKey != ""
    ensures r.Some? <==> FirstSet(FirstSet(env.twentyApiKey, env.twentyApiToken), env.apiKey).Some?
                         && FirstSet(FirstSet(env.twentyApiKey, env.twentyApiToken), env.apiKey).value != ""
  {
    var key := FirstSet(FirstSet(env.twentyApiKey, env.twentyApiToken), env.apiKey);
    if key.None? || key.value == "" then None
    else
      var baseUrl := FirstSet(FirstSet(env.twentyApiBaseUrl, env.twentyRestBaseUrl), env.twentyApiUrl);
      Some(Credentials(key.value, if baseUrl.Some? then baseUrl.value else DefaultBaseUrl))
  }

  /** An empty `TWENTY_API_KEY` hides the other key variables: there are no credentials. */
  lemma EmptyKeyShadowsOthers(env: CredentialEnv)
    requires env.twentyApiKey == Some("")
    ensures GetApiCredentials(env).None?
  {
  }

  /** With only `API_KEY` set, it is the key, and the base URL defaults to the public API. */
  lemma FallbackKeyAndDefaultUrl(key: string)
    requires key != ""
    ensures GetApiCredentials(CredentialEnv(None, None, Some(key), None, None, None))
         == Some(Credentials(key, DefaultBaseUrl))
  {
  }

  // ---------------------------------------------------------------------------
  // One definition

  datatype Mode = Targeted | FullRebuild

  /** One entry of the run's `details`. */
  datatype SummaryItem = SummaryItem(
    parentObject: string, processed: nat, updated: nat, relationField: string,
    mode: Mode, skipped: Option<string>)

  /**
   * The CRM as a run sees it: `listAll(childObject)` lists every child record,
   * `listRelated(childObject, relationField, parentId)` lists the children the server
   * filters by parent id, each failing with the error a request throws; `updateObject`
   * says whether an update of a parent succeeded.
   */
  datatype Backend = Backend(
    listAll: string -> Result<seq<Value>, string>,
    listRelated: (string, string, string) -> Result<seq<Value>, string>,
    updateObject: (string, string, Payload) -> bool)

  /** The per-parent listing a definition's targeted index uses. */
  function RelatedLister(backend: Backend, d: RollupDefinition): string -> Result<seq<Value>, string> {
    id => backend.listRelated(d.childObject, d.relationField, id)
  }

  /** The payload computed for one parent: its aggregates, sanitized. */
  function ParentPayload(host: Host, now: int, d: RollupDefinition, records: seq<Value>): (p: Payload)
    requires ValidDefinition(d)
    ensures p.Keys == set k | 0 <= k < |d.aggregations| :: d.aggregations[k].parentField
  {
    ValidDefinitionComputes(host, now, d, records);
    SanitizeComputedPayload(host, now, d, records);
    Sanitize(Aggregates(host, now, d, records).value)
  }

  /**
   * A valid definition has an aggregation, so the payload of a parent is never empty and
   * the skip of empty payloads never applies.
   */
  lemma PayloadNeverEmpty(host: Host, now: int, d: RollupDefinition, records: seq<Value>)
    requires ValidDefinition(d)
    ensures ParentPayload(host, now, d, records) != map[]
  {
    assert d.aggregations[0].parentField in ParentPayload(host, now, d, records);
  }

  /** The parents updated: those with a non-empty payload whose update succeeded. */
  function UpdatedIds(backend: Backend, host: Host, now: int, d: RollupDefinition, index: map<string, seq<Value>>)
    : (r: set<string>)
    requires ValidDefinition(d)
    ensures r <= index.Keys
  {
    set id | id in index && ParentPayload(host, now, d, index[id]) != map[]
                         && backend.updateObject(d.parentObject, id, ParentPayload(host, now, d, index[id]))
  }

  /** Every indexed parent of a valid definition is sent its payload: the updated ones are those whose update succeeded. */
  lemma EveryParentIsSent(backend: Backend, host: Host, now: int, d: RollupDefinition, index: map<string, seq<Value>>)
    requires ValidDefinition(d)
    ensures UpdatedIds(backend, host, now, d, index)
         == set id | id in index && backend.updateObject(d.parentObject, id, ParentPayload(host, now, d, index[id]))
  {
    forall id | id in index ensures ParentPayload(host, now, d, index[id]) != map[] {
      PayloadNeverEmpty(host, now, d, index[id]);
    }
  }

  lemma SubsetCardinality(a: set<string>, b: set<string>)
    requires a <= b
    ensures |a| <= |b|
  {
    assert b == a + (b - a);
  }

  /**
   * The summary of one definition in `main`'s loop: a targeted run with no relation values
   * is skipped; otherwise `processed` is the number of parents in the child index and
   * `updated` the number of successful updates. None when a listing fails.
   */
  function DefinitionSummary(backend: Backend, host: Host, now: int, params: Value, fullRebuild: bool, d: RollupDefinition)
    : (r: Option<SummaryItem>)
    requires ValidDefinition(d)
    ensures r.Some? ==> r.value.updated <= r.value.processed
    ensures r.Some? ==> r.value.parentObject == d.parentObject && r.value.relationField == d.relationField
    ensures r.Some? ==> (r.value.mode == FullRebuild <==> fullRebuild)
  {
    var targets := Harvest(params, d.relationField);
    if !fullRebuild && targets == {} then
      Some(SummaryItem(d.parentObject, 0, 0, d.relationField, Targeted,
                       Some("No " + d.relationField + " values found in payload")))
    else
      var index := ChildRecordIndex(d.relationField, if fullRebuild then None else Some(targets),
                                    backend.listAll(d.childObject), RelatedLister(backend, d));
      if index.None? then None
      else
        var updated := UpdatedIds(backend, host, now, d, index.value);
        SubsetCardinality(updated, index.value.Keys);
        Some(SummaryItem(d.parentObject, |index.value.Keys|, |updated|, d.relationField,
                         if fullRebuild then FullRebuild else Targeted, None))
  }

  /**
   * In a targeted run, every relation id of the payload is processed, and a definition is
   * skipped exactly when the payload has none.
   */
  lemma TargetedSummary(backend: Backend, host: Host, now: int, params: Value, d: RollupDefinition)
    requires ValidDefinition(d)
    requires DefinitionSummary(backend, host, now, params, false, d).Some?
    ensures var item := DefinitionSummary(backend, host, now, params, false, d).value;
      && item.processed == |Harvest(params, d.relationField)|
      && (item.skipped.Some? <==> Harvest(params, d.relationField) == {})
  {
  }

  /**
   * In a full rebuild, the parents processed are the non-blank relation values of all the
   * child records, and the run fails exactly when listing them does.
   */
  lemma FullRebuildSummary(backend: Backend, host: Host, now: int, params: Value, d: RollupDefinition)
    requires ValidDefinition(d)
    ensures DefinitionSummary(backend, host, now, params, true, d).None? <==> backend.listAll(d.childObject).Failure?
    ensures DefinitionSummary(backend, host, now, params, true, d).Some? ==>
      var item := DefinitionSummary(backend, host, now, params, true, d).value;
      && item.skipped.None?
      && item.processed == |Grouped(backend.listAll(d.childObject).value, d.relationField).Keys|
  {
  }

  /** A parent's update: its id and payload. */
  datatype Update = Update(id: string, payload: Payload)

  /** `sanitizePayload(computeAggregations(definition, records, now))`. */
  method ComputePayload(host: Host, now: int, d: RollupDefinition, records: seq<Value>) returns (payload: Payload)
    requires ValidDefinition(d)
    ensures payload == ParentPayload(host, now, d, records)
    ensures payload != map[]
  {
    var aggregates := ComputeAggregations(host, now, d, records);
    ValidDefinitionComputes(host, now, d, records);
    payload := Sanitize(aggregates.value);
    PayloadNeverEmpty(host, now, d, records);
  }

  /** The parents the updates are for. */
  function IdsOf(updates: seq<Update>): set<string> {
    set u | u in updates :: u.id
  }

  /** Appending an update for a new parent keeps the parents distinct and adds that parent. */
  lemma AppendUpdate(updates: seq<Update>, u: Update)
    requires forall i, j :: 0 <= i < j < |updates| ==> updates[i].id != updates[j].id
    requires u.id !in IdsOf(updates)
    ensures IdsOf(updates + [u]) == IdsOf(updates) + {u.id}
    ensures forall i, j :: 0 <= i < j < |updates + [u]| ==> (updates + [u])[i].id != (updates + [u])[j].id
    ensures forall v :: v in updates + [u] <==> v in updates || v == u
  {
    forall j | 0 <= j < |updates| ensures updates[j].id != u.id {
      assert updates[j] in updates;
    }
  }

  /**
   * `childIndex.forEach`: the payload of each parent, computed from its child records and
   * sanitized, kept when non-empty, which for a valid definition is always; each parent
   * appears once.
   */
  method CollectUpdates(host: Host, now: int, d: RollupDefinition, index: map<string, seq<Value>>)
    returns (updates: seq<Update>)
    requires ValidDefinition(d)
    ensures IdsOf(updates) == index.Keys
    ensures forall i, j :: 0 <= i < j < |updates| ==> updates[i].id != updates[j].id
    ensures forall u :: u in updates ==>
      u.id in index && u.payload == ParentPayload(host, now, d, index[u.id]) && u.payload != map[]
  {
    updates := [];
    var todo := index.Keys;
    while todo != {}
      invariant todo <= index.Keys
      invariant IdsOf(updates) == index.Keys - todo
      invariant forall i, j :: 0 <= i < j < |updates| ==> updates[i].id != updates[j].id
      invariant forall u :: u in updates ==>
        u.id in index && u.payload == ParentPayload(host, now, d, index[u.id]) && u.payload != map[]
      decreases todo
    {
      var id :| id in todo;
      var payload := ComputePayload(host, now, d, index[id]);
      if payload != map[] {
        AppendUpdate(updates, Update(id, payload));
        updates := updates + [Update(id, payload)];
      }
      todo := todo - {id};
    }
  }

  /** The ids of the updates that succeed. */
  function SucceededIds(backend: Backend, parentObject: string, updates: seq<Update>): set<string> {
    set j | 0 <= j < |updates| && backend.updateObject(parentObject, updates[j].id, updates[j].payload) :: updates[j].id
  }

  /** One more update adds its parent to the successes exactly when it succeeds, and that parent is new. */
  lemma SucceededStep(backend: Backend, parentObject: string, updates: seq<Update>, i: nat)
    requires i < |updates|
    requires forall i, j :: 0 <= i < j < |updates| ==> updates[i].id != updates[j].id
    ensures updates[i].id !in SucceededIds(backend, parentObject, updates[..i])
    ensures SucceededIds(backend, parentObject, updates[..i + 1])
         == SucceededIds(backend, parentObject, updates[..i])
          + (if backend.updateObject(parentObject, updates[i].id, updates[i].payload) then {updates[i].id} else {})
  {
    var before := updates[..i];
    var after := updates[..i + 1];
    assert forall j :: 0 <= j < i ==> after[j] == before[j] && before[j] == updates[j];
    assert after[i] == updates[i];
  }

  /** The update loop: each update is sent, and a failure is logged and not counted. */
  method SendUpdates(backend: Backend, parentObject: string, updates: seq<Update>) returns (updatedCount: nat)
    requires forall i, j :: 0 <= i < j < |updates| ==> updates[i].id != updates[j].id
    ensures updatedCount == |SucceededIds(backend, parentObject, updates)|
  {
    updatedCount := 0;
    for i := 0 to |updates|
      invariant updatedCount == |SucceededIds(backend, parentObject, updates[..i])|
    {
      var update := updates[i];
      var ok := backend.updateObject(parentObject, update.id, update.payload);
      SucceededStep(backend, parentObject, updates, i);
      if ok {
        updatedCount := updatedCount + 1;
      }
    }
    assert updates[..|updates|] == updates;
  }

  /** The collected updates that succeed are the updated parents. */
  lemma SucceededAreUpdated(backend: Backend, host: Host, now: int, d: RollupDefinition,
                            index: map<string, seq<Value>>, updates: seq<Update>)
    requires ValidDefinition(d)
    requires IdsOf(updates) == index.Keys
    requires forall u :: u in updates ==>
      u.id in index && u.payload == ParentPayload(host, now, d, index[u.id]) && u.payload != map[]
    ensures SucceededIds(backend, d.parentObject, updates) == UpdatedIds(backend, host, now, d, index)
  {
    EveryParentIsSent(backend, host, now, d, index);
    forall id | id in UpdatedIds(backend, host, now, d, index)
      ensures id in SucceededIds(backend, d.parentObject, updates)
    {
      var j :| 0 <= j < |updates| && updates[j].id == id;
    }
  }

  /** One pass of `main`'s loop over the definitions. */
  method ProcessDefinition(backend: Backend, host: Host, now: int, params: Value, fullRebuild: bool,
                           d: RollupDefinition, targets: set<string>)
    returns (item: Option<SummaryItem>)
    requires ValidDefinition(d)
    requires targets == Harvest(params, d.relationField)
    ensures item == DefinitionSummary(backend, host, now, params, fullRebuild, d)
  {
    if !fullRebuild && targets == {} {
      return Some(SummaryItem(d.parentObject, 0, 0, d.relationField, Targeted,
                              Some("No " + d.relationField + " values found in payload")));
    }
    var index := BuildChildRecordIndex(d.relationField, if fullRebuild then None else Some(targets),
                                       backend.listAll(d.childObject), RelatedLister(backend, d));
    if index.None? {
      return None;
    }
    var updates := CollectUpdates(host, now, d, index.value);
    var updatedCount := SendUpdates(backend, d.parentObject, updates);
    SucceededAreUpdated(backend, host, now, d, index.value, updates);
    item := Some(SummaryItem(d.parentObject, |index.value.Keys|, updatedCount, d.relationField,
                             if fullRebuild then FullRebuild else Targeted, None));
  }

  // ---------------------------------------------------------------------------
  // The run

  /** The items in order, or None as soon as one of them is missing. */
  function Gather(items: seq<Option<SummaryItem>>): (r: Option<seq<SummaryItem>>)
    ensures r.Some? ==> |r.value| == |items|
    decreases |items|
  {
    if items == [] then Some([])
    else
      var earlier := Gather(items[..|items| - 1]);
      var last := items[|items| - 1];
      if earlier.None? || last.None? then None else Some(earlier.value + [last.value])
  }

  /** Gathering fails exactly when some item is missing, and otherwise keeps every item in place. */
  lemma {:induction false} GatherExact(items: seq<Option<SummaryItem>>)
    ensures Gather(items).None? <==> exists i :: 0 <= i < |items| && items[i].None?
    ensures Gather(items).Some? ==> forall i :: 0 <= i < |items| ==> items[i] == Some(Gather(items).value[i])
    decreases |items|
  {
    if items != [] {
      var init := items[..|items| - 1];
      GatherExact(init);
      assert forall i :: 0 <= i < |init| ==> init[i] == items[i];
    }
  }

  /** Each definition's own summary, in configuration order. */
  function DefinitionSummaries(backend: Backend, host: Host, now: int, params: Value, fullRebuild: bool, config: Config)
    : (r: seq<Option<SummaryItem>>)
    requires ValidConfig(config)
    ensures |r| == |config|
  {
    seq(|config|, i requires 0 <= i < |config| => DefinitionSummary(backend, host, now, params, fullRebuild, config[i]))
  }

  /** The summaries of all definitions, or None when one of them fails. */
  function Summaries(backend: Backend, host: Host, now: int, params: Value, fullRebuild: bool, config: Config)
    : (r: Option<seq<SummaryItem>>)
    requires ValidConfig(config)
    ensures r.Some? ==> |r.value| == |config|
  {
    Gather(DefinitionSummaries(backend, host, now, params, fullRebuild, config))
  }

  /**
   * The summaries are the definitions' own summaries, in order, and there are none
   * exactly when some definition fails.
   */
  lemma SummariesExact(backend: Backend, host: Host, now: int, params: Value, fullRebuild: bool, config: Config)
    requires ValidConfig(config)
    ensures var r := Summaries(backend, host, now, params, fullRebuild, config);
      && (r.None? <==> exists i :: 0 <= i < |config| && DefinitionSummary(backend, host, now, params, fullRebuild, config[i]).None?)
      && (r.Some? ==> forall i :: 0 <= i < |config| ==>
            DefinitionSummary(backend, host, now, params, fullRebuild, config[i]) == Some(r.value[i]))
  {
    var items := DefinitionSummaries(backend, host, now, params, fullRebuild, config);
    GatherExact(items);
    assert forall i :: 0 <= i < |config| ==> items[i] == DefinitionSummary(backend, host, now, params, fullRebuild, config[i]);
  }

  /** The definitions' own summaries determine the summaries of the run. */
  lemma SummariesDetermined(backend: Backend, host: Host, now: int, params: Value, fullRebuild: bool,
                            config: Config, items: Option<seq<SummaryItem>>)
    requires ValidConfig(config)
    requires items.None? ==>
      exists i :: 0 <= i < |config| && DefinitionSummary(backend, host, now, params, fullRebuild, config[i]).None?
    requires items.Some? ==> |items.value| == |config| && forall i :: 0 <= i < |config| ==>
      DefinitionSummary(backend, host, now, params, fullRebuild, config[i]) == Some(items.value[i])
    ensures items == Summaries(backend, host, now, params, fullRebuild, config)
  {
    SummariesExact(backend, host, now, params, fullRebuild, config);
    var r := Summaries(backend, host, now, params, fullRebuild, config);
    if items.Some? {
      assert r.Some?;
      assert forall i :: 0 <= i < |config| ==> r.value[i] == items.value[i];
      assert r.value == items.value;
    }
  }

  /** `summaries.reduce((accumulator, item) => accumulator + item.processed, 0)`. */
  function TotalProcessed(items: seq<SummaryItem>): nat
    decreases |items|
  {
    if items == [] then 0 else TotalProcessed(items[..|items| - 1]) + items[|items| - 1].processed
  }

  /** The same sum over `updated`. */
  function TotalUpdated(items: seq<SummaryItem>): nat
    decreases |items|
  {
    if items == [] then 0 else TotalUpdated(items[..|items| - 1]) + items[|items| - 1].updated
  }

  /** Nothing is processed exactly when no definition processes anything. */
  lemma {:induction false} TotalProcessedZero(items: seq<SummaryItem>)
    ensures TotalProcessed(items) == 0 <==> forall i :: 0 <= i < |items| ==> items[i].processed == 0
    decreases |items|
  {
    if items != [] {
      TotalProcessedZero(items[..|items| - 1]);
      assert forall i :: 0 <= i < |items| - 1 ==> items[..|items| - 1][i] == items[i];
    }
  }

  /** When no definition updates more parents than it processes, neither do the totals. */
  lemma {:induction false} TotalsOrdered(items: seq<SummaryItem>)
    ensures (forall i :: 0 <= i < |items| ==> items[i].updated <= items[i].processed) ==>
      TotalUpdated(items) <= TotalProcessed(items)
    decreases |items|
  {
    if items != [] {
      TotalsOrdered(items[..|items| - 1]);
      assert forall i :: 0 <= i < |items| - 1 ==> items[..|items| - 1][i] == items[i];
    }
  }

  /** What a run returns. A failed listing is reported as `RequestError`; its message is not modelled. */
  datatype RunOutcome =
    | Ok(tookMs: int, processed: nat, updated: nat, details: seq<SummaryItem>)
    | Noop(reason: string)
    | ConfigError(error: ResolveError)
    | RequestError

  /** `formatSummary`: status ok, the duration, the totals and the details. */
  function FormatSummary(items: seq<SummaryItem>, durationMs: int): (r: RunOutcome)
    ensures r.Ok? && r.details == items && r.tookMs == durationMs
    ensures (forall i :: 0 <= i < |items| ==> items[i].updated <= items[i].processed) ==> r.updated <= r.processed
    ensures r.processed == 0 <==> forall i :: 0 <= i < |items| ==> items[i].processed == 0
  {
    TotalProcessedZero(items);
    TotalsOrdered(items);
    Ok(durationMs, TotalProcessed(items), TotalUpdated(items), items)
  }

  /** The inputs of a run other than the trigger payload. */
  datatype Setting = Setting(
    env: Environment, parse: string -> Option<Value>, defaultConfig: Value,
    credentials: CredentialEnv, backend: Backend, host: Host, now: int, durationMs: int)

  /**
   * `main(params)`: a configuration error is reported; everything else depends on the
   * resolved configuration.
   */
  function Main(params: Value, s: Setting): (r: RunOutcome)
    ensures r.ConfigError? <==> ResolveRollupConfig(s.env, s.parse, s.defaultConfig).Failure?
    ensures r.Ok? ==> r.updated <= r.processed
  {
    match ResolveRollupConfig(s.env, s.parse, s.defaultConfig)
    case Failure(e) => ConfigError(e)
    case Success(config) =>
      if Execute(params, s, config).Ok? then
        OkRun(params, s, config);
        Execute(params, s, config)
      else Execute(params, s, config)
  }

  /**
   * `main` once the configuration is resolved: no definitions or no API key is a noop;
   * otherwise each definition is processed, a failed listing is an error, a targeted run
   * that processed nothing is a noop, and anything else is summarised.
   */
  function Execute(params: Value, s: Setting, config: Config): (r: RunOutcome)
    requires ValidConfig(config)
    ensures config == [] ==> r == Noop("No rollup definitions configured")
    ensures config != [] && GetApiCredentials(s.credentials).None? ==> r == Noop("TWENTY_API_KEY not configured")
  {
    if config == [] then Noop("No rollup definitions configured")
    else if GetApiCredentials(s.credentials).None? then Noop("TWENTY_API_KEY not configured")
    else
      var fullRebuild := DetermineFullRebuild(params);
      Conclude(fullRebuild, Summaries(s.backend, s.host, s.now, params, fullRebuild, config), s.durationMs)
  }

  /** The end of `main`: the summaries, or the error or noop that replaces them. */
  function Conclude(fullRebuild: bool, summaries: Option<seq<SummaryItem>>, durationMs: int): (r: RunOutcome)
    ensures summaries.None? <==> r == RequestError
    ensures r.Ok? ==> summaries == Some(r.details)
    ensures summaries.Some? && fullRebuild ==> r.Ok?
  {
    if summaries.None? then RequestError
    else if !fullRebuild && TotalProcessed(summaries.value) == 0 then Noop("No matching relation ids found in payload")
    else FormatSummary(summaries.value, durationMs)
  }

  /** The run stops at the first problem: a bad configuration, no definitions, no API key. */
  lemma EarlyOutcomes(params: Value, s: Setting)
    ensures ResolveRollupConfig(s.env, s.parse, s.defaultConfig).Failure? ==>
      Main(params, s) == ConfigError(ResolveRollupConfig(s.env, s.parse, s.defaultConfig).error)
    ensures ResolveRollupConfig(s.env, s.parse, s.defaultConfig).Success? ==>
      Main(params, s) == Execute(params, s, ResolveRollupConfig(s.env, s.parse, s.defaultConfig).value)
  {
  }

  /**
   * A summarised run has one detail per definition, in order, and never more updated
   * parents than processed ones.
   */
  lemma OkRun(params: Value, s: Setting, config: Config)
    requires ValidConfig(config)
    requires Execute(params, s, config).Ok?
    ensures var r := Execute(params, s, config);
      && |r.details| == |config|
      && (forall i :: 0 <= i < |config| ==>
            Some(r.details[i]) == DefinitionSummary(s.backend, s.host, s.now, params, DetermineFullRebuild(params), config[i]))
      && r.updated <= r.processed
  {
    var summaries := Summaries(s.backend, s.host, s.now, params, DetermineFullRebuild(params), config);
    assert summaries == Some(Execute(params, s, config).details);
    SummariesExact(s.backend, s.host, s.now, params, DetermineFullRebuild(params), config);
  }

  /**
   * A targeted run whose listings all succeed is the noop "No matching relation ids found
   * in payload" exactly when the payload holds no relation value of any definition.
   */
  lemma TargetedNoop(params: Value, s: Setting, config: Config)
    requires ValidConfig(config) && config != []
    requires GetApiCredentials(s.credentials).Some?
    requires !DetermineFullRebuild(params)
    requires Execute(params, s, config) != RequestError
    ensures Execute(params, s, config) == Noop("No matching relation ids found in payload") <==>
      forall i :: 0 <= i < |config| ==> Harvest(params, config[i].relationField) == {}
  {
    var summaries := Summaries(s.backend, s.host, s.now, params, false, config);
    TargetedProcessed(s.backend, s.host, s.now, params, config);
    TotalProcessedZero(summaries.value);
  }

  /** In a targeted run, each definition's summary counts the relation values of the payload. */
  lemma TargetedProcessed(backend: Backend, host: Host, now: int, params: Value, config: Config)
    requires ValidConfig(config)
    requires Summaries(backend, host, now, params, false, config).Some?
    ensures forall i :: 0 <= i < |config| ==>
      Summaries(backend, host, now, params, false, config).value[i].processed == |Harvest(params, config[i].relationField)|
  {
    SummariesExact(backend, host, now, params, false, config);
    forall i | 0 <= i < |config|
      ensures Summaries(backend, host, now, params, false, config).value[i].processed == |Harvest(params, config[i].relationField)|
    {
      TargetedSummary(backend, host, now, params, config[i]);
    }
  }

  /**
   * `relationCache`: the relation values of the payload for each relation field of the
   * configuration, extracted once per field.
   */
  method BuildRelationCache(params: Value, config: Config) returns (relationCache: map<string, set<string>>)
    ensures forall i :: 0 <= i < |config| ==> config[i].relationField in relationCache
    ensures forall field :: field in relationCache ==> relationCache[field] == Harvest(params, field)
  {
    relationCache := map[];
    for i := 0 to |config|
      invariant forall field :: field in relationCache ==> relationCache[field] == Harvest(params, field)
      invariant forall j :: 0 <= j < i ==> config[j].relationField in relationCache
    {
      if config[i].relationField !in relationCache {
        var ids := ExtractRelationValues(params, config[i].relationField);
        relationCache := relationCache[config[i].relationField := ids];
      }
    }
  }

  /** `for (const definition of config)`: the summaries pushed, or None when a listing fails. */
  method ProcessAll(params: Value, s: Setting, fullRebuild: bool, config: Config, relationCache: map<string, set<string>>)
    returns (summaries: Option<seq<SummaryItem>>)
    requires ValidConfig(config)
    requires forall i :: 0 <= i < |config| ==> config[i].relationField in relationCache
    requires forall field :: field in relationCache ==> relationCache[field] == Harvest(params, field)
    ensures summaries.None? ==>
      exists i :: 0 <= i < |config| && DefinitionSummary(s.backend, s.host, s.now, params, fullRebuild, config[i]).None?
    ensures summaries.Some? ==> |summaries.value| == |config| && forall i :: 0 <= i < |config| ==>
      DefinitionSummary(s.backend, s.host, s.now, params, fullRebuild, config[i]) == Some(summaries.value[i])
  {
    var pushed: seq<SummaryItem> := [];
    for i := 0 to |config|
      invariant |pushed| == i
      invariant forall j :: 0 <= j < i ==>
        DefinitionSummary(s.backend, s.host, s.now, params, fullRebuild, config[j]) == Some(pushed[j])
    {
      var item := ProcessDefinition(s.backend, s.host, s.now, params, fullRebuild, config[i],
                                    relationCache[config[i].relationField]);
      if item.None? {
        return None;
      }
      pushed := pushed + [item.value];
    }
    summaries := Some(pushed);
  }

  /** `main(params)` from the resolved configuration on. */
  method ExecuteRun(params: Value, s: Setting, config: Config) returns (outcome: RunOutcome)
    requires ValidConfig(config)
    ensures outcome == Execute(params, s, config)
  {
    if |config| == 0 {
      return Noop("No rollup definitions configured");
    }
    var fullRebuild := DetermineFullRebuild(params);
    var relationCache := BuildRelationCache(params, config);
    var credentials := GetApiCredentials(s.credentials);
    if credentials.None? {
      return Noop("TWENTY_API_KEY not configured");
    }
    var summaries := ProcessAll(params, s, fullRebuild, config, relationCache);
    SummariesDetermined(s.backend, s.host, s.now, params, fullRebuild, config, summaries);
    if summaries.None? {
      return RequestError;
    }
    var totalProcessed := TotalProcessed(summaries.value);
    if !fullRebuild && totalProcessed == 0 {
      return Noop("No matching relation ids found in payload");
    }
    outcome := FormatSummary(summaries.value, s.durationMs);
  }

  /** `main(params)`. */
  method Run(params: Value, s: Setting) returns (outcome: RunOutcome)
    ensures outcome == Main(params, s)
  {
    var resolved := ResolveRollupConfig(s.env, s.parse, s.defaultConfig);
    if resolved.Failure? {
      return ConfigError(resolved.error);
    }
    outcome := ExecuteRun(params, s, resolved.value);
  }
}
