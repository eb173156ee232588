/**
 * Dotted field paths such as "amount.amountMicros": splitting on a separator as
 * `String.prototype.split` does, and reading a nested value out of a record.
 */
module FieldPath {
  import opened JsonValue

  /** `s.split(sep)`: the pieces between separators, empty pieces included. */
  function Split(s: string, sep: char): (r: seq<string>)
    ensures |r| >= 1
    ensures forall k :: 0 <= k < |r| ==> sep !in r[k]
    decreases |s|
  {
    if s == [] then [[]]
    else
      var rest := Split(s[1..], sep);
      if s[0] == sep then [[]] + rest
      else [[s[0]] + rest[0]] + rest[1..]
  }

  /** `parts.join(sep)`. */
  function Join(parts: seq<string>, sep: char): string
    requires |parts| >= 1
    decreases |parts|
  {
    if |parts| == 1 then parts[0] else parts[0] + [sep] + Join(parts[1..], sep)
  }

  /** Splitting loses nothing: joining the pieces gives back the string. */
  lemma {:induction false} JoinSplit(s: string, sep: char)
    ensures Join(Split(s, sep), sep) == s
    decreases |s|
  {
    if s != [] {
      JoinSplit(s[1..], sep);
      var rest := Split(s[1..], sep);
      if s[0] != sep {
        if |rest| == 1 {
          assert s == [s[0]] + s[1..];
        } else {
          assert rest == [rest[0]] + rest[1..];
          assert ([[s[0]] + rest[0]] + rest[1..])[1..] == rest[1..];
          assert s == [s[0]] + s[1..];
        }
      } else {
        assert ([[]] + rest)[1..] == rest;
        assert s == [sep] + s[1..];
      }
    }
  }

  /** Joining pieces free of the separator and splitting again gives back the pieces. */
  lemma {:induction false} SplitJoin(parts: seq<string>, sep: char)
    requires |parts| >= 1
    requires forall k :: 0 <= k < |parts| ==> sep !in parts[k]
    ensures Split(Join(parts, sep), sep) == parts
    decreases |parts|, |parts[0]|
  {
    if parts[0] == [] {
      if |parts| > 1 {
        SplitJoin(parts[1..], sep);
        assert Join(parts, sep) == [sep] + Join(parts[1..], sep);
        assert Join(parts, sep)[1..] == Join(parts[1..], sep);
        assert parts == [[]] + parts[1..];
      }
    } else {
      var first := parts[0];
      var shorter := parts[0 := first[1..]];
      forall k | 0 <= k < |shorter| ensures sep !in shorter[k] {
        if k == 0 { assert forall c :: c in first[1..] ==> c in first; }
      }
      SplitJoin(shorter, sep);
      var joined := Join(parts, sep);
      assert joined[0] == first[0];
      assert joined[1..] == Join(shorter, sep) by {
        if |parts| == 1 {
        } else {
          assert shorter[1..] == parts[1..];
          assert joined == first + [sep] + Join(parts[1..], sep);
          assert joined[1..] == first[1..] + [sep] + Join(parts[1..], sep);
        }
      }
      assert first == [first[0]] + first[1..];
      assert parts == [first] + shorter[1..];
    }
  }

  /** A string without the separator splits into itself alone. */
  lemma {:induction false} SplitWithoutSeparator(s: string, sep: char)
    requires sep !in s
    ensures Split(s, sep) == [s]
    decreases |s|
  {
    if s != [] {
      SplitWithoutSeparator(s[1..], sep);
      assert s == [s[0]] + s[1..];
    }
  }

  /** The `reduce` over the keys: each step reads a property of an object, anything else gives undefined. */
  function Walk(v: Value, keys: seq<string>): (r: Value)
    ensures !IsObject(v) && keys != [] ==> r == Undef
    decreases |keys|
  {
    if keys == [] then v
    else Walk(if IsObject(v) then Prop(v, keys[0]) else Undef, keys[1..])
  }

  /** Walking a concatenated key list is walking one part then the other. */
  lemma {:induction false} WalkAppend(v: Value, a: seq<string>, b: seq<string>)
    ensures Walk(v, a + b) == Walk(Walk(v, a), b)
    decreases |a|
  {
    if a != [] {
      var next := if IsObject(v) then Prop(v, a[0]) else Undef;
      WalkAppend(next, a[1..], b);
      assert (a + b)[0] == a[0];
      assert (a + b)[1..] == a[1..] + b;
      assert Walk(v, a + b) == Walk(next, a[1..] + b);
    } else {
      assert a + b == b;
    }
  }

  /** `getNestedValue`: a path without a dot reads one property, a dotted path walks its pieces. */
  function GetNestedValue(record: Value, path: string): (r: Value)
    ensures r != Undef ==> IsObject(record)
  {
    if '.' !in path then Prop(record, path) else Walk(record, Split(path, '.'))
  }

  /** The shortcut for a path without a dot reads what the general walk would read. */
  lemma NestedValueIsWalk(record: Value, path: string)
    ensures GetNestedValue(record, path) == Walk(record, Split(path, '.'))
  {
    if '.' !in path {
      SplitWithoutSeparator(path, '.');
      assert Walk(record, [path])
          == Walk(if IsObject(record) then Prop(record, path) else Undef, []);
    }
  }

  /** A record holding `leaf` under the nested keys, one object per level. */
  function Nest(keys: seq<string>, leaf: Value): (r: Value)
    ensures keys != [] ==> r.Obj? && keys[0] in r.fields
    decreases |keys|
  {
    if keys == [] then leaf else Obj(map[keys[0] := Nest(keys[1..], leaf)])
  }

  /** Reading a nested path back out of the record built along it gives the leaf. */
  lemma {:induction false} WalkNest(keys: seq<string>, leaf: Value)
    ensures Walk(Nest(keys, leaf), keys) == leaf
    decreases |keys|
  {
    if keys != [] {
      WalkNest(keys[1..], leaf);
    }
  }

  /** `getNestedValue(record, "a.b.c")` reads what was stored under a, then b, then c. */
  lemma GetNestedValueOfNest(path: string, leaf: Value)
    ensures GetNestedValue(Nest(Split(path, '.'), leaf), path) == leaf
  {
    NestedValueIsWalk(Nest(Split(path, '.'), leaf), path);
    WalkNest(Split(path, '.'), leaf);
  }
}
