/**
 * The MAX and MIN aggregations: the `forEach` that keeps the record with the highest
 * (lowest) comparable value, first one on ties, and the formatting of the chosen value.
 */
module Extremes {
  import opened Wrappers
  import opened JsonValue
  import opened FieldPath
  import opened Filters

  /** MAX scans with direction 1, MIN with direction -1. */
  datatype Direction = Highest | Lowest

  function Sign(d: Direction): real {
    if d.Highest? then 1.0 else -1.0
  }

  /** `direction * (candidate - current) > 0`: the candidate replaces the current choice. */
  predicate Beats(d: Direction, candidate: real, current: real)
    ensures Beats(d, candidate, current) <==>
      (d.Highest? && candidate > current) || (d.Lowest? && candidate < current)
  {
    Sign(d) * (candidate - current) > 0.0
  }

  /** The chosen record's raw field value and its comparable number. */
  datatype Chosen = Chosen(raw: Value, comparable: real)

  /** The comparable number of a record's field, when it has one. */
  function Comparable(host: Host, field: string, record: Value): Option<real> {
    ToComparableNumber(host, GetNestedValue(record, field))
  }

  /** One step of the scan: records without a comparable value are skipped. */
  function ExtremeStep(host: Host, d: Direction, field: string, chosen: Option<Chosen>, record: Value): Option<Chosen> {
    var raw := GetNestedValue(record, field);
    var comparable := ToComparableNumber(host, raw);
    if comparable.None? then chosen
    else if chosen.None? || Beats(d, comparable.value, chosen.value.comparable) then Some(Chosen(raw, comparable.value))
    else chosen
  }

  /** The scan over the records, first to last, from `chosen = null`. */
  function Extreme(host: Host, d: Direction, field: string, records: seq<Value>): (r: Option<Chosen>)
    ensures r.Some? ==> ToComparableNumber(host, r.value.raw) == Some(r.value.comparable)
    decreases |records|
  {
    if records == [] then None
    else ExtremeStep(host, d, field, Extreme(host, d, field, records[..|records| - 1]), records[|records| - 1])
  }

  /** `scopedRecords.forEach(...)` choosing the extreme record. */
  method ChooseExtreme(host: Host, d: Direction, field: string, records: seq<Value>) returns (chosen: Option<Chosen>)
    ensures chosen == Extreme(host, d, field, records)
  {
    chosen := None;
    for i := 0 to |records|
      invariant chosen == Extreme(host, d, field, records[..i])
    {
      var raw := GetNestedValue(records[i], field);
      var comparable := ToComparableNumber(host, raw);
      if comparable.Some? && (chosen.None? || Beats(d, comparable.value, chosen.value.comparable)) {
        chosen := Some(Chosen(raw, comparable.value));
      }
      assert records[..i + 1][..i] == records[..i];
    }
    assert records[..|records|] == records;
  }

  /** No record's comparable value beats `best`. */
  predicate NoneBeats(host: Host, d: Direction, field: string, records: seq<Value>, best: real) {
    forall j :: 0 <= j < |records| && Comparable(host, field, records[j]).Some? ==>
      !Beats(d, Comparable(host, field, records[j]).value, best)
  }

  /** `best` beats the comparable value of every record before index i. */
  predicate BeatsEarlier(host: Host, d: Direction, field: string, records: seq<Value>, best: real, i: int)
    requires 0 <= i <= |records|
  {
    forall j :: 0 <= j < i && Comparable(host, field, records[j]).Some? ==>
      Beats(d, best, Comparable(host, field, records[j]).value)
  }

  /** c is the value of record i, nothing beats it, and it beats everything before record i. */
  predicate FirstBestAt(host: Host, d: Direction, field: string, records: seq<Value>, c: Chosen, i: int) {
    0 <= i < |records| && GetNestedValue(records[i], field) == c.raw
    && Comparable(host, field, records[i]) == Some(c.comparable)
    && NoneBeats(host, d, field, records, c.comparable)
    && BeatsEarlier(host, d, field, records, c.comparable, i)
  }

  /** The scan chooses nothing exactly when no record has a comparable value. */
  lemma {:induction false} ExtremeNone(host: Host, d: Direction, field: string, records: seq<Value>)
    ensures Extreme(host, d, field, records).None? <==>
      forall j :: 0 <= j < |records| ==> Comparable(host, field, records[j]).None?
    decreases |records|
  {
    if records != [] {
      var n := |records| - 1;
      ExtremeNone(host, d, field, records[..n]);
      assert forall j :: 0 <= j < n ==> records[..n][j] == records[j];
    }
  }

  /**
   * A chosen value is that of some record i: no record beats it, and it beats every
   * earlier record with a comparable value, so among equal values the first is kept.
   */
  lemma {:induction false} ExtremeIsFirstBest(host: Host, d: Direction, field: string, records: seq<Value>)
    requires Extreme(host, d, field, records).Some?
    ensures exists i :: FirstBestAt(host, d, field, records, Extreme(host, d, field, records).value, i)
    decreases |records|
  {
    var n := |records| - 1;
    var init := records[..n];
    assert forall j :: 0 <= j < n ==> init[j] == records[j];
    var prev := Extreme(host, d, field, init);
    var last := Comparable(host, field, records[n]);
    var c := Extreme(host, d, field, records).value;
    if prev.None? {
      ExtremeNone(host, d, field, init);
      assert FirstBestAt(host, d, field, records, c, n);
    } else {
      ExtremeIsFirstBest(host, d, field, init);
      var i :| FirstBestAt(host, d, field, init, prev.value, i);
      if last.Some? && Beats(d, last.value, prev.value.comparable) {
        assert FirstBestAt(host, d, field, records, c, n);
      } else {
        assert FirstBestAt(host, d, field, records, c, i);
      }
    }
  }

  /** `s.slice(0, 10)`: the first ten characters, or all of a shorter string. */
  function Prefix10(s: string): (r: string)
    ensures |r| <= 10 && |r| <= |s| && r == s[..|r|]
    ensures |s| >= 10 ==> |r| == 10
  {
    if |s| <= 10 then s else s[..10]
  }

  /**
   * The value written for MAX or MIN: null when nothing was chosen; a chosen number as it
   * is; a chosen date as its ISO calendar day; a chosen string as the ISO calendar day of
   * the date it parses to, or as it is when it does not parse as a date.
   */
  function ExtremeOutput(host: Host, chosen: Option<Chosen>): (r: Value)
    requires chosen.Some? ==> ToComparableNumber(host, chosen.value.raw).Some?
    ensures r.Null? <==> chosen.None?
    ensures chosen.Some? && chosen.value.raw.Num? ==> r == chosen.value.raw
    ensures !r.Null? && !r.Num? ==> r.Str? && (|r.s| <= 10 || r == chosen.value.raw)
  {
    if chosen.None? then Null
    else
      match chosen.value.raw
      case Num(_) => chosen.value.raw
      case DateV(ms) => Str(Prefix10(host.isoString(ms)))
      case Str(s) =>
        var parsed := host.dateParse(s);
        if parsed.None? then Str(s) else Str(Prefix10(host.isoString(parsed.value)))
  }
}
