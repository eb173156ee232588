/**
 * What a run is about: whether the trigger asks for a full rebuild, and which relation
 * ids the trigger payload mentions (`collectValuesByKey`, `extractRelationValues`).
 */
module Scope {
  import opened Wrappers
  import opened JsonValue

  // ---------------------------------------------------------------------------
  // Relation values mentioned in the payload

  /**
   * What one entry of an object contributes: its value when the entry has the wanted key
   * and a non-blank string value, otherwise whatever lies below its value.
   */
  function EntryValues(fields: map<string, Value>, k: string, key: string): (r: set<string>)
    requires k in fields
    ensures forall s :: s in r ==> !IsBlank(s)
    decreases Obj(fields), 0
  {
    if k == key && NonBlankString(fields[k]) then {fields[k].s} else Harvest(fields[k], key)
  }

  /** The values found below the first n items of an array. */
  function ItemsValues(items: seq<Value>, key: string, n: nat): (r: set<string>)
    requires n <= |items|
    ensures forall s :: s in r ==> !IsBlank(s)
    decreases Arr(items), 1
  {
    set j, s | 0 <= j < n && s in Harvest(items[j], key) :: s
  }

  /** The values found below the entries of an object with the given keys. */
  function FieldsValues(fields: map<string, Value>, key: string, keys: set<string>): (r: set<string>)
    requires keys <= fields.Keys
    ensures forall s :: s in r ==> !IsBlank(s)
    decreases Obj(fields), 1
  {
    set k, s | k in keys && s in EntryValues(fields, k, key) :: s
  }

  /**
   * The non-blank strings stored under `key` anywhere in a value, looking through arrays
   * and the entries of objects (dates have no entries).
   */
  function Harvest(v: Value, key: string): (r: set<string>)
    ensures forall s :: s in r ==> !IsBlank(s)
    decreases v, 2
  {
    match v
    case Arr(items) => ItemsValues(items, key, |items|)
    case Obj(fields) => FieldsValues(fields, key, fields.Keys)
    case _ => {}
  }

  lemma ItemsValuesStep(items: seq<Value>, key: string, n: nat)
    requires n < |items|
    ensures ItemsValues(items, key, n + 1) == ItemsValues(items, key, n) + Harvest(items[n], key)
  {
    assert forall s :: s in Harvest(items[n], key) ==> s in ItemsValues(items, key, n + 1);
  }

  lemma FieldsValuesStep(fields: map<string, Value>, key: string, keys: set<string>, k: string)
    requires keys <= fields.Keys && k in fields
    ensures FieldsValues(fields, key, keys + {k}) == FieldsValues(fields, key, keys) + EntryValues(fields, k, key)
  {
    assert forall s :: s in EntryValues(fields, k, key) ==> s in FieldsValues(fields, key, keys + {k});
  }

  /** The `Set` that `collectValuesByKey` adds to. */
  class RelationValues {
    var values: set<string>

    constructor ()
      ensures values == {}
    {
      values := {};
    }

    /** `collectValuesByKey(value, key, this)`: adds every value `Harvest` finds. */
    method Collect(v: Value, key: string)
      modifies this
      ensures values == old(values) + Harvest(v, key)
      decreases v
    {
      match v {
        case Arr(items) =>
          for i := 0 to |items|
            invariant values == old(values) + ItemsValues(items, key, i)
          {
            Collect(items[i], key);
            ItemsValuesStep(items, key, i);
          }
        case Obj(fields) =>
          var todo := fields.Keys;
          while todo != {}
            invariant todo <= fields.Keys
            invariant values == old(values) + FieldsValues(fields, key, fields.Keys - todo)
            decreases todo
          {
            var k :| k in todo;
            FieldsValuesStep(fields, key, fields.Keys - todo, k);
            if k == key && NonBlankString(fields[k]) {
              values := values + {fields[k].s};
            } else {
              Collect(fields[k], key);
            }
            assert fields.Keys - (todo - {k}) == (fields.Keys - todo) + {k};
            todo := todo - {k};
          }
        case _ =>
      }
    }
  }

  /** `extractRelationValues`: the relation ids the trigger payload mentions. */
  method ExtractRelationValues(params: Value, relationField: string) returns (ids: set<string>)
    ensures ids == Harvest(params, relationField)
  {
    var collector := new RelationValues();
    collector.Collect(params, relationField);
    ids := collector.values;
  }

  /** One step into a value: an array position or an object entry. */
  datatype Step = Index(i: nat) | Field(name: string)

  /** The value reached by following a path of steps, if every step exists. */
  function Follow(v: Value, path: seq<Step>): (r: Option<Value>)
    ensures path == [] ==> r == Some(v)
    decreases |path|
  {
    if path == [] then Some(v)
    else match path[0]
      case Index(i) => if v.Arr? && i < |v.items| then Follow(v.items[i], path[1..]) else None
      case Field(k) => if v.Obj? && k in v.fields then Follow(v.fields[k], path[1..]) else None
  }

  /** The object reached along `path` holds the non-blank string s under `key`. */
  predicate StoredAt(v: Value, path: seq<Step>, key: string, s: string) {
    var w := Follow(v, path);
    w.Some? && w.value.Obj? && key in w.value.fields && w.value.fields[key] == Str(s) && !IsBlank(s)
  }

  /** A path from an array item or object entry extends to a path from the container. */
  lemma StoredBelow(v: Value, step: Step, path: seq<Step>, key: string, s: string)
    requires step.Index? ==> v.Arr? && step.i < |v.items|
    requires step.Field? ==> v.Obj? && step.name in v.fields
    requires StoredAt(if step.Index? then v.items[step.i] else v.fields[step.name], path, key, s)
    ensures StoredAt(v, [step] + path, key, s)
  {
    assert ([step] + path)[1..] == path;
  }

  /** Everything `Harvest` finds is stored under the key somewhere in the value. */
  lemma {:induction false} HarvestSound(v: Value, key: string, s: string)
    requires s in Harvest(v, key)
    ensures exists path :: StoredAt(v, path, key, s)
    decreases v
  {
    match v
    case Arr(items) =>
      var j :| 0 <= j < |items| && s in Harvest(items[j], key);
      HarvestSound(items[j], key, s);
      var path :| StoredAt(items[j], path, key, s);
      StoredBelow(v, Index(j), path, key, s);
    case Obj(fields) =>
      var k :| k in fields && s in EntryValues(fields, k, key);
      if k == key && NonBlankString(fields[k]) {
        assert StoredAt(v, [], key, s);
      } else {
        HarvestSound(fields[k], key, s);
        var path :| StoredAt(fields[k], path, key, s);
        StoredBelow(v, Field(k), path, key, s);
      }
  }

  /** Every non-blank string stored under the key somewhere in the value is found. */
  lemma {:induction false} HarvestComplete(v: Value, path: seq<Step>, key: string, s: string)
    requires StoredAt(v, path, key, s)
    ensures s in Harvest(v, key)
    decreases |path|
  {
    if path == [] {
      assert EntryValues(v.fields, key, key) == {s};
    } else {
      assert StoredAt(if path[0].Index? then v.items[path[0].i] else v.fields[path[0].name], path[1..], key, s);
      match path[0]
      case Index(i) =>
        HarvestComplete(v.items[i], path[1..], key, s);
      case Field(k) =>
        if k == key && NonBlankString(v.fields[k]) {
          assert false;
        }
        HarvestComplete(v.fields[k], path[1..], key, s);
        assert s in EntryValues(v.fields, k, key);
    }
  }

  /**
   * `extractRelationValues` yields exactly the non-blank strings stored under the relation
   * field in some object reachable from the payload through arrays and objects.
   */
  lemma HarvestExact(v: Value, key: string, s: string)
    ensures s in Harvest(v, key) <==> exists path :: StoredAt(v, path, key, s)
  {
    if s in Harvest(v, key) {
      HarvestSound(v, key, s);
    }
    if exists path :: StoredAt(v, path, key, s) {
      var path :| StoredAt(v, path, key, s);
      HarvestComplete(v, path, key, s);
    }
  }

  // ---------------------------------------------------------------------------
  // Full rebuild

  /**
   * `determineFullRebuild`: an object whose `recalculateAll` or `fullRebuild` is `true`,
   * or whose trigger is `'cron'` or has type `'cron'`.
   */
  function DetermineFullRebuild(params: Value): (r: bool)
    ensures r ==> params.Obj?
  {
    if !IsObject(params) then false
    else if Prop(params, "recalculateAll") == Bool(true) || Prop(params, "fullRebuild") == Bool(true) then true
    else if IsObject(Prop(params, "trigger")) && Prop(Prop(params, "trigger"), "type") == Str("cron") then true
    else Prop(params, "trigger") == Str("cron")
  }

  /**
   * A payload asks for a full rebuild exactly when it is a plain object with `recalculateAll`
   * or `fullRebuild` strictly `true`, or a trigger that is `'cron'` or an object of type `'cron'`.
   */
  lemma DetermineFullRebuildExact(params: Value)
    ensures DetermineFullRebuild(params) <==>
      && params.Obj?
      && (|| Prop(params, "recalculateAll") == Bool(true)
          || Prop(params, "fullRebuild") == Bool(true)
          || Prop(params, "trigger") == Str("cron")
          || Prop(Prop(params, "trigger"), "type") == Str("cron"))
  {
  }

  /** Only the literal `true` asks for a rebuild: truthy values such as `1` or `"true"` do not. */
  lemma FullRebuildFlags(fields: map<string, Value>)
    requires "trigger" !in fields && "recalculateAll" in fields && "fullRebuild" !in fields
    ensures DetermineFullRebuild(Obj(fields)) <==> fields["recalculateAll"] == Bool(true)
  {
  }

  /** A cron trigger, written as `'cron'` or as `{ type: 'cron' }`, asks for a full rebuild. */
  lemma CronTriggerRebuilds(fields: map<string, Value>)
    requires "trigger" in fields
    requires fields["trigger"] == Str("cron") || Prop(fields["trigger"], "type") == Str("cron")
    ensures DetermineFullRebuild(Obj(fields))
  {
  }

  /** The database-event payload of a gift change is a targeted run. */
  lemma DatabaseEventIsTargeted(record: Value)
    ensures !DetermineFullRebuild(Obj(map["trigger" := Obj(map["type" := Str("databaseEvent")]), "record" := record]))
  {
  }
}
