/**
 * The child-record index: for each parent id, the child records that name it in their
 * relation field. A full rebuild groups every child record; a targeted run lists the
 * children of each requested parent, five parents at a time.
 */
module ChildIndexing {
  import opened Wrappers
  import opened JsonValue
  import opened FieldPath

  /** `typeof relationValue === 'string' && relationValue === parentId`. */
  predicate RelatesTo(record: Value, relationField: string, id: string) {
    GetNestedValue(record, relationField) == Str(id)
  }

  /** The records that name the parent id, in their original order. */
  function Matching(records: seq<Value>, relationField: string, id: string): (r: seq<Value>)
    ensures |r| <= |records|
    ensures forall x :: x in r ==> x in records && RelatesTo(x, relationField, id)
    decreases |records|
  {
    if records == [] then []
    else
      var rest := Matching(records[..|records| - 1], relationField, id);
      var last := records[|records| - 1];
      if RelatesTo(last, relationField, id) then rest + [last] else rest
  }

  /** Matching keeps every record that names the parent, as often as it occurs, and no other. */
  lemma {:induction false} MatchingExact(records: seq<Value>, relationField: string, id: string)
    ensures forall x :: (multiset(Matching(records, relationField, id))[x]
      == if RelatesTo(x, relationField, id) then multiset(records)[x] else 0)
    decreases |records|
  {
    if records != [] {
      var prefix := records[..|records| - 1];
      MatchingExact(prefix, relationField, id);
      assert records == prefix + [records[|records| - 1]];
    }
  }

  /**
   * The key a full rebuild files a record under: its relation value when that is a
   * non-blank string.
   */
  function RelationKey(record: Value, relationField: string): (r: Option<string>)
    ensures r.Some? <==> NonBlankString(GetNestedValue(record, relationField))
    ensures r.Some? ==> RelatesTo(record, relationField, r.value)
  {
    var v := GetNestedValue(record, relationField);
    if v.Str? && !IsBlank(v.s) then Some(v.s) else None
  }

  /** The group of a key, empty when the key has none yet (`grouped.get(key) ?? []`). */
  function GroupOf(groups: map<string, seq<Value>>, key: string): seq<Value> {
    if key in groups then groups[key] else []
  }

  /** The full-rebuild grouping of the records, pushed one at a time in order. */
  function Grouped(records: seq<Value>, relationField: string): (r: map<string, seq<Value>>)
    ensures forall key :: key in r ==> !IsBlank(key) && r[key] != []
    decreases |records|
  {
    if records == [] then map[]
    else
      var groups := Grouped(records[..|records| - 1], relationField);
      var last := records[|records| - 1];
      var key := RelationKey(last, relationField);
      if key.None? then groups else groups[key.value := GroupOf(groups, key.value) + [last]]
  }

  /**
   * The full rebuild files each record under its non-blank relation value: a key has a
   * group exactly when it is non-blank and some record names it, and its group is the
   * records naming it, in order.
   */
  lemma {:induction false} GroupedIsMatching(records: seq<Value>, relationField: string, key: string)
    ensures key in Grouped(records, relationField) <==>
      !IsBlank(key) && Matching(records, relationField, key) != []
    ensures !IsBlank(key) ==> GroupOf(Grouped(records, relationField), key) == Matching(records, relationField, key)
    decreases |records|
  {
    if records != [] {
      GroupedIsMatching(records[..|records| - 1], relationField, key);
    }
  }

  /** A record with a blank or non-string relation value is in no group. */
  lemma UngroupedRecord(records: seq<Value>, relationField: string, record: Value)
    requires !NonBlankString(GetNestedValue(record, relationField))
    ensures forall key :: key in Grouped(records, relationField) ==> record !in Grouped(records, relationField)[key]
  {
    forall key | key in Grouped(records, relationField)
      ensures record !in Grouped(records, relationField)[key]
    {
      GroupedIsMatching(records, relationField, key);
    }
  }

  /**
   * `ensureMapHasTargets`: every target id gets an entry, empty unless it had one; with no
   * target set nothing changes.
   */
  function WithTargets(groups: map<string, seq<Value>>, targetIds: Option<set<string>>): (r: map<string, seq<Value>>)
    ensures targetIds.None? ==> r == groups
  {
    if targetIds.None? then groups
    else map id | id in groups.Keys + targetIds.value :: GroupOf(groups, id)
  }

  /** Targets are added with empty groups and the existing groups are kept. */
  lemma WithTargetsAdds(groups: map<string, seq<Value>>, targetIds: set<string>)
    ensures WithTargets(groups, Some(targetIds)).Keys == groups.Keys + targetIds
    ensures forall id :: id in groups ==> WithTargets(groups, Some(targetIds))[id] == groups[id]
    ensures forall id :: id in targetIds && id !in groups ==> WithTargets(groups, Some(targetIds))[id] == []
    ensures WithTargets(WithTargets(groups, Some(targetIds)), Some(targetIds)) == WithTargets(groups, Some(targetIds))
  {
  }

  /** The mutable map `buildChildRecordIndex` fills. */
  class ChildIndex {
    var groups: map<string, seq<Value>>

    constructor ()
      ensures groups == map[]
    {
      groups := map[];
    }

    /** `result.set(parentId, records)`. */
    method Set(id: string, records: seq<Value>)
      modifies this
      ensures groups == old(groups)[id := records]
    {
      groups := groups[id := records];
    }

    /** `if (!grouped.has(key)) grouped.set(key, []); grouped.get(key)!.push(record)`. */
    method Push(key: string, record: Value)
      modifies this
      ensures groups == old(groups)[key := GroupOf(old(groups), key) + [record]]
    {
      if key !in groups {
        groups := groups[key := []];
      }
      groups := groups[key := groups[key] + [record]];
    }

    /** `ensureMapHasTargets(this, targetIds)`, one target at a time. */
    method EnsureTargets(targetIds: Option<set<string>>)
      modifies this
      ensures groups == WithTargets(old(groups), targetIds)
    {
      if targetIds.None? {
        return;
      }
      var todo := targetIds.value;
      ghost var original := groups;
      while todo != {}
        invariant todo <= targetIds.value
        invariant groups == WithTargets(original, Some(targetIds.value - todo))
        decreases todo
      {
        var id :| id in todo;
        if id !in groups {
          groups := groups[id := []];
        }
        todo := todo - {id};
        assert groups == WithTargets(original, Some(targetIds.value - todo));
      }
      assert targetIds.value - todo == targetIds.value;
    }
  }

  /** The full-rebuild branch of `buildChildRecordIndex`, once every child record is listed. */
  method GroupByRelation(records: seq<Value>, relationField: string) returns (grouped: map<string, seq<Value>>)
    ensures grouped == Grouped(records, relationField)
  {
    var index := new ChildIndex();
    for i := 0 to |records|
      invariant index.groups == Grouped(records[..i], relationField)
    {
      var record := records[i];
      assert records[..i + 1][..i] == records[..i];
      var v := GetNestedValue(record, relationField);
      if v.Str? && !IsBlank(v.s) {
        index.Push(v.s, record);
      }
    }
    assert records[..|records|] == records;
    grouped := index.groups;
  }

  // ---------------------------------------------------------------------------
  // Targeted runs

  /** How many parents are listed at once. */
  const Concurrency: nat := 5

  /**
   * The targeted index: when every listing succeeds, each target id maps to its listed
   * children that name it; when any listing fails, there is no index.
   */
  function TargetedIndex(ids: set<string>, relationField: string, list: string -> Result<seq<Value>, string>)
    : (r: Option<map<string, seq<Value>>>)
    ensures r.None? <==> exists id :: id in ids && list(id).Failure?
    ensures r.Some? ==> r.value.Keys == ids
  {
    if exists id :: id in ids && list(id).Failure? then None
    else Some(map id | id in ids :: Matching(list(id).value, relationField, id))
  }

  /** A successful targeted index already holds every target, so `ensureMapHasTargets` changes nothing. */
  lemma TargetedIndexHasTargets(ids: set<string>, relationField: string, list: string -> Result<seq<Value>, string>)
    requires TargetedIndex(ids, relationField, list).Some?
    ensures WithTargets(TargetedIndex(ids, relationField, list).value, Some(ids)) == TargetedIndex(ids, relationField, list).value
  {
  }

  /**
   * The number of ids, in the given order, whose listings are requested: whole batches of
   * five from `start` up to and including the first batch in which a listing fails.
   */
  function RequestedFrom(order: seq<string>, list: string -> Result<seq<Value>, string>, start: nat): (n: nat)
    requires start <= |order|
    ensures start <= n <= |order|
    decreases |order| - start
  {
    if start == |order| then start
    else
      var end := if start + Concurrency <= |order| then start + Concurrency else |order|;
      if exists j :: start <= j < end && list(order[j]).Failure? then end
      else RequestedFrom(order, list, end)
  }

  /**
   * Every listing before the requested prefix ends succeeds, and a failure stops the run
   * at the end of its batch: when the prefix is shorter than the order, the batch that
   * closes it holds a failing listing.
   */
  lemma {:induction false} RequestedBatches(order: seq<string>, list: string -> Result<seq<Value>, string>, start: nat)
    requires start <= |order|
    ensures var n := RequestedFrom(order, list, start);
      && (n == |order| || (n - start) % Concurrency == 0)
      && (n < |order| ==> exists j :: n - Concurrency <= j < n && list(order[j]).Failure?)
      && (forall j :: start <= j < n - Concurrency ==> list(order[j]).Success?)
      && ((forall j :: start <= j < |order| ==> list(order[j]).Success?) ==> n == |order|)
    decreases |order| - start
  {
    if start < |order| {
      var end := if start + Concurrency <= |order| then start + Concurrency else |order|;
      if !exists j :: start <= j < end && list(order[j]).Failure? {
        RequestedBatches(order, list, end);
      }
    }
  }

  /** Distinct elements listing exactly the given set (`Array.from(parentIds)`). */
  predicate Enumerates(order: seq<string>, ids: set<string>) {
    && (forall x :: x in order ==> x in ids)
    && (forall x :: x in ids ==> x in order)
    && (forall i, j :: 0 <= i < j < |order| ==> order[i] != order[j])
  }

  /** `Array.from(set)`: the set's elements one after another, in some order. */
  method Enumerate(ids: set<string>) returns (order: seq<string>)
    ensures Enumerates(order, ids)
  {
    order := [];
    var todo := ids;
    while todo != {}
      invariant forall x :: x in order ==> x in ids && x !in todo
      invariant forall x :: x in ids ==> x in order || x in todo
      invariant forall i, j :: 0 <= i < j < |order| ==> order[i] != order[j]
      decreases todo
    {
      var id :| id in todo;
      assert forall x :: x in order + [id] <==> x in order || x == id;
      order := order + [id];
      todo := todo - {id};
    }
  }

  /** `Promise.all(slice.map(list))`: the listing of each parent of a batch. */
  method ListBatch(slice: seq<string>, list: string -> Result<seq<Value>, string>)
    returns (batch: seq<Result<seq<Value>, string>>)
    ensures |batch| == |slice|
    ensures forall j :: 0 <= j < |slice| ==> batch[j] == list(slice[j])
  {
    batch := [];
    for k := 0 to |slice|
      invariant |batch| == k
      invariant forall j :: 0 <= j < k ==> batch[j] == list(slice[j])
    {
      batch := batch + [list(slice[k])];
    }
  }

  /** The index over the given parents, all of whose listings succeed. */
  function Listed(ids: seq<string>, relationField: string, list: string -> Result<seq<Value>, string>)
    : map<string, seq<Value>>
    requires forall j :: 0 <= j < |ids| ==> list(ids[j]).Success?
  {
    map id | id in ids :: Matching(list(id).value, relationField, id)
  }

  /** `batch.forEach(({ parentId, records }) => result.set(parentId, records))`. */
  method SetBatch(index: ChildIndex, done: seq<string>, slice: seq<string>, batch: seq<Result<seq<Value>, string>>,
                  relationField: string, list: string -> Result<seq<Value>, string>)
    requires |batch| == |slice|
    requires forall j :: 0 <= j < |slice| ==> batch[j] == list(slice[j]) && batch[j].Success?
    requires forall j :: 0 <= j < |done| ==> list(done[j]).Success?
    requires index.groups == Listed(done, relationField, list)
    modifies index
    ensures forall j :: 0 <= j < |done + slice| ==> list((done + slice)[j]).Success?
    ensures index.groups == Listed(done + slice, relationField, list)
  {
    for k := 0 to |slice|
      invariant forall j :: 0 <= j < |done + slice[..k]| ==> list((done + slice[..k])[j]).Success?
      invariant index.groups == Listed(done + slice[..k], relationField, list)
    {
      assert done + slice[..k + 1] == (done + slice[..k]) + [slice[k]];
      index.Set(slice[k], Matching(batch[k].value, relationField, slice[k]));
    }
    assert slice[..|slice|] == slice;
  }

  /** A batch whose listings all succeed is followed by the next one. */
  lemma BatchSucceeds(order: seq<string>, list: string -> Result<seq<Value>, string>, start: nat, end: nat)
    requires start < |order| && end == if start + Concurrency <= |order| then start + Concurrency else |order|
    requires forall j :: 0 <= j < end - start ==> list(order[start..end][j]).Success?
    ensures RequestedFrom(order, list, start) == RequestedFrom(order, list, end)
  {
    assert forall j :: start <= j < end ==> order[j] == order[start..end][j - start];
  }

  /** A failing listing in the batch from `start` ends the requests with that batch and leaves no index. */
  lemma FailingBatch(ids: set<string>, order: seq<string>, relationField: string,
                     list: string -> Result<seq<Value>, string>, start: nat, j: nat)
    requires Enumerates(order, ids)
    requires start <= j < |order| && j < start + Concurrency && list(order[j]).Failure?
    ensures RequestedFrom(order, list, start) == if start + Concurrency <= |order| then start + Concurrency else |order|
    ensures TargetedIndex(ids, relationField, list).None?
  {
  }

  /** When every parent's listing succeeds, the index over the order is the targeted index and holds every target. */
  lemma AllListed(ids: set<string>, order: seq<string>, relationField: string, list: string -> Result<seq<Value>, string>)
    requires Enumerates(order, ids)
    requires forall j :: 0 <= j < |order| ==> list(order[j]).Success?
    ensures TargetedIndex(ids, relationField, list).Some?
    ensures Listed(order, relationField, list) == TargetedIndex(ids, relationField, list).value
    ensures WithTargets(Listed(order, relationField, list), Some(ids)) == Listed(order, relationField, list)
  {
    forall id | id in ids
      ensures list(id).Success?
    {
      var j :| 0 <= j < |order| && order[j] == id;
    }
    TargetedIndexHasTargets(ids, relationField, list);
  }

  /**
   * The targeted branch of `buildChildRecordIndex`: parents are listed in batches of five
   * (`list(id)` is `listAllRecords` of the children filtered by the parent id), each
   * listing is narrowed to the records that name the parent, and the first batch with a
   * failing listing ends the run. Returns the index, the order the parents were taken in,
   * and the parents whose listings were requested.
   */
  method BuildTargetedIndex(ids: set<string>, relationField: string, list: string -> Result<seq<Value>, string>)
    returns (result: Option<map<string, seq<Value>>>, order: seq<string>, requested: seq<string>)
    ensures Enumerates(order, ids)
    ensures requested == order[..RequestedFrom(order, list, 0)]
    ensures result == TargetedIndex(ids, relationField, list)
  {
    order := Enumerate(ids);
    var index := new ChildIndex();
    requested := [];
    var start := 0;
    while start < |order|
      invariant start <= |order|
      invariant requested == order[..start]
      invariant RequestedFrom(order, list, 0) == RequestedFrom(order, list, start)
      invariant forall j :: 0 <= j < |requested| ==> list(requested[j]).Success?
      invariant index.groups == Listed(requested, relationField, list)
      decreases |order| - start
    {
      var end := if start + Concurrency <= |order| then start + Concurrency else |order|;
      var slice := order[start..end];
      var batch := ListBatch(slice, list);
      assert order[..end] == requested + slice;
      if exists j :: 0 <= j < |batch| && batch[j].Failure? {
        var j :| 0 <= j < |batch| && batch[j].Failure?;
        FailingBatch(ids, order, relationField, list, start, start + j);
        return None, order, requested + slice;
      }
      BatchSucceeds(order, list, start, end);
      SetBatch(index, requested, slice, batch, relationField, list);
      requested := requested + slice;
      start := end;
    }
    assert order[..start] == order;
    AllListed(ids, order, relationField, list);
    index.EnsureTargets(Some(ids));
    result := Some(index.groups);
  }

  /**
   * `buildChildRecordIndex`: a non-empty set of target ids is listed parent by parent;
   * otherwise `listAll`, the listing of every child record, is grouped. No index when a
   * listing fails.
   */
  function ChildRecordIndex(
    relationField: string, targetIds: Option<set<string>>,
    listAll: Result<seq<Value>, string>, list: string -> Result<seq<Value>, string>)
    : (r: Option<map<string, seq<Value>>>)
    ensures targetIds.Some? && targetIds.value != {} && r.Some? ==> r.value.Keys == targetIds.value
    ensures !(targetIds.Some? && targetIds.value != {}) ==>
      (r.None? <==> listAll.Failure?) &&
      (r.Some? ==> forall id :: id in r.value ==> !IsBlank(id) && r.value[id] == Matching(listAll.value, relationField, id))
  {
    if targetIds.Some? && targetIds.value != {} then TargetedIndex(targetIds.value, relationField, list)
    else if listAll.Failure? then None
    else
      var groups := Grouped(listAll.value, relationField);
      assert forall id :: id in groups ==> !IsBlank(id) && groups[id] == Matching(listAll.value, relationField, id) by {
        forall id | id in groups ensures !IsBlank(id) && groups[id] == Matching(listAll.value, relationField, id) {
          GroupedIsMatching(listAll.value, relationField, id);
        }
      }
      Some(groups)
  }

  method BuildChildRecordIndex(
    relationField: string, targetIds: Option<set<string>>,
    listAll: Result<seq<Value>, string>, list: string -> Result<seq<Value>, string>)
    returns (result: Option<map<string, seq<Value>>>)
    ensures result == ChildRecordIndex(relationField, targetIds, listAll, list)
  {
    if targetIds.Some? && targetIds.value != {} {
      var order, requested;
      result, order, requested := BuildTargetedIndex(targetIds.value, relationField, list);
      return;
    }
    if listAll.Failure? {
      return None;
    }
    var grouped := GroupByRelation(listAll.value, relationField);
    result := Some(grouped);
  }
}
