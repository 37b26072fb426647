/** The dotted-path configuration store of src/Support/ConfigTrait.php: a
    nested PHP array read, written and pruned through keys such as
    `some.nested.key`. */
module Config {
  import opened PhpValues
  import opened PhpStrings

  /** A segment names a key of the current array. */
  function Seg(k: string): Key {
    StrKey(k)
  }

  /** A value that is neither null nor an array: walking into it fails. */
  predicate IsScalar(v: PVal) {
    v != Null && !v.Arr?
  }

  /** Reading along a path: null as soon as the current value is not an
      array or the next segment is missing or holds null. */
  function ReadPath(cur: PVal, path: seq<string>): PVal
  {
    if path == [] then cur
    else if !IsSet(cur, Seg(path[0])) then Null
    else ReadPath(cur.vals[Seg(path[0])], path[1..])
  }

  /** `configRead($key)` for a null or string key. */
  function Read(config: PVal, key: PVal): PVal
    requires key.Null? || key.Str?
  {
    if key.Null? then config
    else if '.' !in key.s then Get(config, Seg(key.s))
    else ReadPath(config, Explode(key.s))
  }

  /** The level below `m` that a write walks into: the element under `k`,
      or a fresh `[]` written there when it is missing or null. */
  function WriteChild(m: PVal, k: string): (r: PVal)
    ensures Wf(m) ==> Wf(r)
  {
    if IsSet(m, Seg(k)) then m.vals[Seg(k)] else Empty
  }

  /** A dotted write: None is the "Cannot set" exception. */
  function WritePath(m: PVal, path: seq<string>, v: PVal): (r: Option<PVal>)
    requires m.Arr? && |path| >= 1
    ensures r.Some? ==> r.value.Arr?
    ensures r.Some? && Wf(m) && Wf(v) ==> Wf(r.value)
    decreases |path|
  {
    var k := path[0];
    if |path| == 1 then Some(Put(m, Seg(k), v))
    else
      var child := WriteChild(m, k);
      if !child.Arr? then None
      else match WritePath(child, path[1..], v)
        case None => None
        case Some(c) => Some(Put(m, Seg(k), c))
  }

  /** A dotted delete: None is the "Cannot unset" exception. */
  function DeletePath(m: PVal, path: seq<string>): (r: Option<PVal>)
    requires m.Arr? && |path| >= 1
    ensures r.Some? ==> r.value.Arr?
    ensures r.Some? && Wf(m) ==> Wf(r.value)
  {
    var k := Seg(path[0]);
    if !IsSet(m, k) then Some(m)
    else if |path| == 1 then Some(Remove(m, k))
    else if !m.vals[k].Arr? then None
    else match DeletePath(m.vals[k], path[1..])
      case None => None
      case Some(c) => Some(Put(m, k, c))
  }

  /** The config after a write or delete, and the message of the exception
      thrown, if one was. */
  datatype Outcome = Outcome(config: PVal, thrown: Option<string>)

  /** `configDelete($key)` */
  function Delete(config: PVal, key: string): Outcome
    requires config.Arr?
  {
    if '.' !in key then Outcome(Remove(config, Seg(key)), None)
    else match DeletePath(config, Explode(key))
      case None => Outcome(config, Some("Cannot unset " + key + " value"))
      case Some(c) => Outcome(c, None)
  }

  /** `configWrite($key, $value, false)` for a string or null key. A null
      key is not a string, so it never deletes, and it is written under
      `''`, the array key PHP makes of null. */
  function WriteKey(config: PVal, key: PVal, value: PVal): Outcome
    requires config.Arr? && (key.Null? || key.Str?)
  {
    if key.Str? && value == Null then Delete(config, key.s)
    else
      var k := if key.Str? then key.s else "";
      if '.' !in k then Outcome(Put(config, Seg(k), value), None)
      else match WritePath(config, Explode(k), value)
        case None => Outcome(config, Some("Cannot set " + k + " value"))
        case Some(c) => Outcome(c, None)
  }

  /** `configWrite($key, $value, false)` for an array key: each entry is
      written in order, and the first exception stops the rest, leaving the
      entries already written in place. */
  function WriteAll(config: PVal, keys: seq<Key>, entries: map<Key, PVal>): Outcome
    requires config.Arr?
    requires forall i :: 0 <= i < |keys| ==> keys[i].StrKey? && keys[i] in entries
    decreases |keys|
  {
    if keys == [] then Outcome(config, None)
    else
      var o := WriteKey(config, Str(keys[0].s), entries[keys[0]]);
      if o.thrown.Some? then o
      else WriteAll(o.config, keys[1..], entries)
  }

  /** `configWrite($key, $value, false)` */
  function Write(config: PVal, key: PVal, value: PVal): Outcome
    requires config.Arr? && (key.Null? || key.Str? || (StringKeyed(key) && Wf(key)))
  {
    if key.Arr? then WriteAll(config, key.keys, key.vals) else WriteKey(config, key, value)
  }

  /** `configHas($key)`: only the top level is consulted, the key is not
      split at dots. */
  predicate Has(config: PVal, key: string) {
    IsSet(config, Seg(key))
  }

  /** What `config()` hands back: the object itself after a write, the value
      read, or the exception thrown. */
  datatype Returned = ReturnedThis | ReturnedValue(value: PVal) | Threw(message: string)

  // ---------------------------------------------------------------------
  // The walks of configWrite and configDelete, level by level
  // ---------------------------------------------------------------------

  /** `frames[j]` is the array a write walking `path` stands on after `j`
      segments, for the first `n` levels, and each of them is an array. */
  ghost predicate WriteChain(frames: seq<PVal>, path: seq<string>, n: nat) {
    && n < |frames| && n <= |path|
    && (forall j :: 0 <= j < n ==> frames[j].Arr? && frames[j + 1] == WriteChild(frames[j], path[j]))
  }

  /** Walking into a non-array before the last segment makes the whole
      write fail. */
  lemma {:induction false} WriteChainFails(frames: seq<PVal>, path: seq<string>, v: PVal, i: nat, j: nat)
    requires WriteChain(frames, path, i) && i < |path| && !frames[i].Arr?
    requires j < i && frames[j].Arr?
    ensures WritePath(frames[j], path[j..], v) == None
    decreases i - j
  {
    assert path[j..][1..] == path[j + 1..];
    if j + 1 < i {
      WriteChainFails(frames, path, v, i, j + 1);
    }
  }

  /** One level of the rebuild after a write: putting the written child
      back into its parent is the write one level up. */
  lemma WriteChainStep(frames: seq<PVal>, path: seq<string>, v: PVal, j: nat, acc: PVal)
    requires WriteChain(frames, path, |path|) && j + 1 < |path|
    requires WritePath(frames[j + 1], path[j + 1..], v) == Some(acc)
    ensures WritePath(frames[j], path[j..], v) == Some(Put(frames[j], Seg(path[j]), acc))
  {
    assert path[j..][1..] == path[j + 1..];
  }

  /** `frames[j]` is the array a delete walking `path` stands on after `j`
      segments; every segment passed so far was set. */
  ghost predicate DeleteChain(frames: seq<PVal>, path: seq<string>, n: nat) {
    && n < |frames| && n <= |path|
    && (forall j :: 0 <= j < n ==>
          frames[j].Arr? && IsSet(frames[j], Seg(path[j])) && frames[j + 1] == frames[j].vals[Seg(path[j])])
  }

  lemma {:induction false} DeleteChainFails(frames: seq<PVal>, path: seq<string>, i: nat, j: nat)
    requires DeleteChain(frames, path, i) && i < |path| && !frames[i].Arr?
    requires j < i
    ensures DeletePath(frames[j], path[j..]) == None
    decreases i - j
  {
    assert path[j..][1..] == path[j + 1..];
    if j + 1 < i {
      DeleteChainFails(frames, path, i, j + 1);
    }
  }

  /** Stopping at a missing segment leaves every level as it was. */
  lemma {:induction false} DeleteChainStops(frames: seq<PVal>, path: seq<string>, i: nat, j: nat)
    requires DeleteChain(frames, path, i) && i < |path| && frames[i].Arr? && !IsSet(frames[i], Seg(path[i]))
    requires forall l :: 0 <= l <= i ==> Wf(frames[l])
    requires j <= i
    ensures DeletePath(frames[j], path[j..]) == Some(frames[j])
    decreases i - j
  {
    if j < i {
      assert path[j..][1..] == path[j + 1..];
      DeleteChainStops(frames, path, i, j + 1);
      PutSame(frames[j], Seg(path[j]));
    }
  }

  lemma DeleteChainStep(frames: seq<PVal>, path: seq<string>, j: nat, acc: PVal)
    requires j + 1 < |path| && DeleteChain(frames, path, |path| - 1)
    requires frames[j + 1].Arr? && DeletePath(frames[j + 1], path[j + 1..]) == Some(acc)
    ensures DeletePath(frames[j], path[j..]) == Some(Put(frames[j], Seg(path[j]), acc))
  {
    assert path[j..][1..] == path[j + 1..];
  }

  /** The runtime config of a class using the trait. */
  class ConfigStore {
    var config: PVal

    ghost predicate Valid()
      reads this
    {
      config.Arr? && Wf(config)
    }

    constructor ()
      ensures Valid() && config == Empty
    {
      config := Empty;
    }

    /** `config($key, $value, $merge)` called with `argCount` arguments:
        an array key or a second argument makes it a write that returns the
        object, anything else a read. */
    method Config(key: PVal, value: PVal, merge: bool, argCount: nat) returns (r: Returned)
      requires Valid() && Wf(value)
      requires argCount <= 3
      requires argCount < 1 ==> key.Null?
      requires argCount < 2 ==> value.Null?
      requires argCount < 3 ==> merge
      requires key.Null? || key.Str? || (StringKeyed(key) && Wf(key))
      requires (key.Arr? || argCount >= 2) && merge ==> key.Str? && value.Null?
      modifies this
      ensures Valid()
      ensures (key.Arr? || argCount >= 2) ==>
        var o := Write(old(config), key, value);
        config == o.config && r == (if o.thrown.Some? then Threw(o.thrown.value) else ReturnedThis)
      ensures !(key.Arr? || argCount >= 2) ==> config == old(config) && r == ReturnedValue(Read(config, key))
    {
      if key.Arr? || argCount >= 2 {
        var thrown := ConfigWrite(key, value, merge);
        r := if thrown.Some? then Threw(thrown.value) else ReturnedThis;
      } else {
        var v := ConfigRead(key);
        r := ReturnedValue(v);
      }
    }

    /** `configRead($key)` */
    method ConfigRead(key: PVal) returns (r: PVal)
      requires Valid() && (key.Null? || key.Str?)
      ensures r == Read(config, key)
    {
      if key.Null? {
        return config;
      }
      if '.' !in key.s {
        return Get(config, Seg(key.s));
      }
      var path := Explode(key.s);
      r := config;
      var i := 0;
      while i < |path|
        invariant 0 <= i <= |path|
        invariant ReadPath(r, path[i..]) == ReadPath(config, path)
      {
        assert path[i..][1..] == path[i + 1..];
        if !IsSet(r, Seg(path[i])) {
          r := Null;
          break;
        }
        r := r.vals[Seg(path[i])];
        i := i + 1;
      }
    }

    /** `configWrite($key, $value, $merge)`; the merging paths are not part
        of the model, so a merge is only asked for a string key with a null
        value, which deletes before merging is looked at. */
    method ConfigWrite(key: PVal, value: PVal, merge: bool) returns (thrown: Option<string>)
      requires Valid() && Wf(value)
      requires key.Null? || key.Str? || (StringKeyed(key) && Wf(key))
      requires merge ==> key.Str? && value.Null?
      modifies this
      ensures Valid()
      ensures Outcome(config, thrown) == Write(old(config), key, value)
      decreases if key.Arr? then 2 else 0
    {
      if key.Str? && value == Null {
        thrown := ConfigDelete(key.s);
        return;
      }
      if key.Arr? {
        thrown := WriteEach(key);
        return;
      }
      var k := if key.Str? then key.s else "";
      if '.' !in k {
        config := Put(config, Seg(k), value);
        return None;
      }
      var ok := SetPath(Explode(k), value);
      thrown := if ok then None else Some("Cannot set " + k + " value");
    }

    /** `configWrite` on an array of keys: each entry is written in turn,
        stopping at the first one that throws. */
    method WriteEach(key: PVal) returns (thrown: Option<string>)
      requires Valid() && key.Arr? && StringKeyed(key) && Wf(key)
      modifies this
      ensures Valid()
      ensures Outcome(config, thrown) == WriteAll(old(config), key.keys, key.vals)
      decreases 1
    {
      var i := 0;
      while i < |key.keys|
        invariant 0 <= i <= |key.keys| && Valid()
        invariant WriteAll(old(config), key.keys, key.vals) == WriteAll(config, key.keys[i..], key.vals)
      {
        var k := key.keys[i];
        assert key.keys[i..][0] == k && key.keys[i..][1..] == key.keys[i + 1..];
        thrown := ConfigWrite(Str(k.s), key.vals[k], false);
        if thrown.Some? {
          return;
        }
        i := i + 1;
      }
      return None;
    }

    /** The dotted part of `configWrite`: walk down the path, putting `[]`
        where a level is missing or null and failing on a level that is not
        an array, then store the value at the end. */
    method SetPath(path: seq<string>, value: PVal) returns (ok: bool)
      requires Valid() && Wf(value) && |path| >= 1
      modifies this
      ensures Valid()
      ensures ok <==> WritePath(old(config), path, value).Some?
      ensures config == if ok then WritePath(old(config), path, value).value else old(config)
    {
      var frames := [config];
      var i := 0;
      while i < |path|
        invariant 0 <= i <= |path|
        invariant |frames| == i + 1 && frames[0] == config
        invariant WriteChain(frames, path, i)
        invariant forall j :: 0 <= j <= i ==> Wf(frames[j])
      {
        var update := frames[i];
        if !update.Arr? {
          WriteChainFails(frames, path, value, i, 0);
          assert path[0..] == path;
          return false;
        }
        frames := frames + [WriteChild(update, path[i])];
        i := i + 1;
      }
      var acc := value;
      var j := |path|;
      while j > 0
        invariant 0 <= j <= |path|
        invariant j == |path| ==> acc == value
        invariant j < |path| ==> WritePath(frames[j], path[j..], value) == Some(acc)
        invariant Wf(acc)
      {
        j := j - 1;
        if j + 1 < |path| {
          WriteChainStep(frames, path, value, j, acc);
        } else {
          assert path[j..] == [path[j]];
        }
        acc := Put(frames[j], Seg(path[j]), acc);
      }
      assert path[0..] == path;
      config := acc;
      ok := true;
    }

    /** `configDelete($key)` */
    method ConfigDelete(key: string) returns (thrown: Option<string>)
      requires Valid()
      modifies this
      ensures Valid()
      ensures Outcome(config, thrown) == Delete(old(config), key)
    {
      if '.' !in key {
        config := Remove(config, Seg(key));
        return None;
      }
      var ok := UnsetPath(Explode(key));
      thrown := if ok then None else Some("Cannot unset " + key + " value");
    }

    /** The dotted part of `configDelete`: walk down while the segments are
        set, failing on a level that is not an array, and unset the last
        segment if the walk gets there. */
    method UnsetPath(path: seq<string>) returns (ok: bool)
      requires Valid() && |path| >= 1
      modifies this
      ensures Valid()
      ensures ok <==> DeletePath(old(config), path).Some?
      ensures config == if ok then DeletePath(old(config), path).value else old(config)
    {
      var frames := [config];
      var i := 0;
      while i < |path| - 1
        invariant 0 <= i <= |path| - 1
        invariant |frames| == i + 1 && frames[0] == config
        invariant DeleteChain(frames, path, i)
        invariant forall j :: 0 <= j <= i ==> Wf(frames[j])
      {
        var update := frames[i];
        if !update.Arr? {
          DeleteChainFails(frames, path, i, 0);
          assert path[0..] == path;
          return false;
        }
        if !IsSet(update, Seg(path[i])) {
          DeleteChainStops(frames, path, i, 0);
          assert path[0..] == path;
          return true;
        }
        frames := frames + [update.vals[Seg(path[i])]];
        i := i + 1;
      }
      var last := frames[i];
      if !last.Arr? {
        DeleteChainFails(frames, path, i, 0);
        assert path[0..] == path;
        return false;
      }
      if !IsSet(last, Seg(path[i])) {
        DeleteChainStops(frames, path, i, 0);
        assert path[0..] == path;
        return true;
      }
      assert path[i..] == [path[i]];
      var acc := Remove(last, Seg(path[i]));
      var j := i;
      while j > 0
        invariant 0 <= j <= i
        invariant DeletePath(frames[j], path[j..]) == Some(acc)
        invariant Wf(acc) && acc.Arr?
      {
        j := j - 1;
        DeleteChainStep(frames, path, j, acc);
        acc := Put(frames[j], Seg(path[j]), acc);
      }
      assert path[0..] == path;
      config := acc;
      ok := true;
    }

    /** `configHas($key)` */
    function ConfigHas(key: string): (b: bool)
      reads this
      ensures b <==> Has(config, key)
    {
      IsSet(config, Seg(key))
    }
  }

  // ---------------------------------------------------------------------
  // Properties of reading, writing and deleting by path
  // ---------------------------------------------------------------------

  /** An undotted read is the one-segment walk. */
  lemma ReadUndotted(config: PVal, k: string)
    requires '.' !in k
    ensures Read(config, Str(k)) == ReadPath(config, [k])
  {
  }

  /** `configHas` is true exactly when an undotted read finds a value. */
  lemma HasIffReadNotNull(config: PVal, k: string)
    requires '.' !in k
    ensures Has(config, k) <==> Read(config, Str(k)) != Null
  {
  }

  /** Round trip: after a successful write, reading the same path gives the
      value written. */
  lemma {:induction false} WriteThenRead(m: PVal, path: seq<string>, v: PVal)
    requires m.Arr? && |path| >= 1 && WritePath(m, path, v).Some?
    ensures ReadPath(WritePath(m, path, v).value, path) == v
    decreases |path|
  {
    var k := path[0];
    var r := WritePath(m, path, v).value;
    if |path| > 1 {
      WriteThenRead(WriteChild(m, k), path[1..], v);
    }
  }

  /** A write fails exactly when some proper prefix of the path leads to a
      value that is neither null nor an array. */
  lemma {:induction false} WriteFailsIff(m: PVal, path: seq<string>, v: PVal)
    requires m.Arr? && |path| >= 1
    ensures WritePath(m, path, v).None? <==>
      exists j :: 1 <= j < |path| && IsScalar(ReadPath(m, path[..j]))
    decreases |path|
  {
    var k := path[0];
    if |path| > 1 {
      var child := WriteChild(m, k);
      assert ReadPath(m, path[..1]) == Get(m, Seg(k)) by {
        assert path[..1][1..] == [];
      }
      if child.Arr? {
        WriteFailsIff(child, path[1..], v);
        if WritePath(m, path, v).None? {
          var j :| 1 <= j < |path[1..]| && IsScalar(ReadPath(child, path[1..][..j]));
          ReadPrefixShift(m, path, j + 1);
          assert IsScalar(ReadPath(m, path[..j + 1]));
        } else {
          forall j | 1 <= j < |path|
            ensures !IsScalar(ReadPath(m, path[..j]))
          {
            if j > 1 {
              ReadPrefixShift(m, path, j);
              assert !IsScalar(ReadPath(child, path[1..][..j - 1]));
            }
          }
        }
      } else {
        assert IsScalar(ReadPath(m, path[..1]));
      }
    }
  }

  /** Reading `path[..j]` from `m` goes through the first segment's child. */
  lemma ReadPrefixShift(m: PVal, path: seq<string>, j: nat)
    requires 2 <= j <= |path|
    ensures IsSet(m, Seg(path[0])) ==>
      ReadPath(m, path[..j]) == ReadPath(m.vals[Seg(path[0])], path[1..][..j - 1])
    ensures !IsSet(m, Seg(path[0])) ==> ReadPath(m, path[..j]) == Null
  {
    assert path[..j][0] == path[0];
    assert path[..j][1..] == path[1..][..j - 1];
  }

  /** Nothing else changes: a write leaves every path that parts from the
      written one at some segment reading as before. */
  lemma {:induction false} WriteKeepsOtherPaths(m: PVal, path: seq<string>, v: PVal, q: seq<string>, i: nat)
    requires m.Arr? && |path| >= 1 && WritePath(m, path, v).Some?
    requires i < |path| && i < |q| && path[..i] == q[..i] && path[i] != q[i]
    ensures ReadPath(WritePath(m, path, v).value, q) == ReadPath(m, q)
    decreases |path|
  {
    var k := path[0];
    var r := WritePath(m, path, v).value;
    if i == 0 {
      assert Seg(q[0]) != Seg(path[0]);
    } else {
      assert q[0] == path[0] by {
        assert path[..i][0] == q[..i][0];
      }
      var child := WriteChild(m, k);
      assert path[1..][..i - 1] == q[1..][..i - 1] by {
        assert path[1..][..i - 1] == path[..i][1..];
        assert q[1..][..i - 1] == q[..i][1..];
      }
      WriteKeepsOtherPaths(child, path[1..], v, q[1..], i - 1);
      if !IsSet(m, Seg(k)) {
        EmptyReadsNull(q[1..]);
      }
    }
  }

  /** Every non-empty path reads null from `[]`. */
  lemma EmptyReadsNull(q: seq<string>)
    ensures q != [] ==> ReadPath(Empty, q) == Null
  {
  }

  /** After a successful delete the path reads null. */
  lemma {:induction false} DeleteThenRead(m: PVal, path: seq<string>)
    requires m.Arr? && |path| >= 1 && DeletePath(m, path).Some?
    ensures ReadPath(DeletePath(m, path).value, path) == Null
  {
    var k := Seg(path[0]);
    if IsSet(m, k) && |path| > 1 {
      DeleteThenRead(m.vals[k], path[1..]);
    } else if !IsSet(m, k) && |path| > 1 {
      ReadMissing(m, path);
    }
  }

  lemma ReadMissing(m: PVal, path: seq<string>)
    requires path != [] && !IsSet(m, Seg(path[0]))
    ensures ReadPath(m, path) == Null
  {
  }

  /** A delete of a path that does not lead to a value changes nothing. */
  lemma {:induction false} DeleteAbsentUnchanged(m: PVal, path: seq<string>)
    requires m.Arr? && Wf(m) && |path| >= 1 && DeletePath(m, path).Some?
    requires ReadPath(m, path) == Null
    ensures DeletePath(m, path).value == m
  {
    var k := Seg(path[0]);
    if IsSet(m, k) && |path| > 1 {
      DeleteAbsentUnchanged(m.vals[k], path[1..]);
      PutSame(m, k);
    }
  }

  /** A delete fails exactly when some proper prefix of the path leads to a
      value that is neither null nor an array, like a write. */
  lemma {:induction false} DeleteFailsIff(m: PVal, path: seq<string>)
    requires m.Arr? && |path| >= 1
    ensures DeletePath(m, path).None? <==>
      exists j :: 1 <= j < |path| && IsScalar(ReadPath(m, path[..j]))
  {
    var k := Seg(path[0]);
    if |path| > 1 {
      assert ReadPath(m, path[..1]) == Get(m, k) by {
        assert path[..1][1..] == [];
      }
      if !IsSet(m, k) {
        forall j | 1 <= j < |path|
          ensures !IsScalar(ReadPath(m, path[..j]))
        {
          if j > 1 {
            ReadPrefixShift(m, path, j);
          }
        }
      } else if m.vals[k].Arr? {
        var child := m.vals[k];
        DeleteFailsIff(child, path[1..]);
        if DeletePath(m, path).None? {
          var j :| 1 <= j < |path[1..]| && IsScalar(ReadPath(child, path[1..][..j]));
          ReadPrefixShift(m, path, j + 1);
          assert IsScalar(ReadPath(m, path[..j + 1]));
        } else {
          forall j | 1 <= j < |path|
            ensures !IsScalar(ReadPath(m, path[..j]))
          {
            if j > 1 {
              ReadPrefixShift(m, path, j);
              assert !IsScalar(ReadPath(child, path[1..][..j - 1]));
            }
          }
        }
      } else {
        assert IsScalar(ReadPath(m, path[..1]));
      }
    }
  }

  /** Nothing else changes: a delete leaves every path that parts from the
      deleted one at some segment reading as before. */
  lemma {:induction false} DeleteKeepsOtherPaths(m: PVal, path: seq<string>, q: seq<string>, i: nat)
    requires m.Arr? && |path| >= 1 && DeletePath(m, path).Some?
    requires i < |path| && i < |q| && path[..i] == q[..i] && path[i] != q[i]
    ensures ReadPath(DeletePath(m, path).value, q) == ReadPath(m, q)
  {
    var k := Seg(path[0]);
    if i > 0 && IsSet(m, k) && |path| > 1 {
      assert q[0] == path[0] by {
        assert path[..i][0] == q[..i][0];
      }
      assert path[1..][..i - 1] == q[1..][..i - 1] by {
        assert path[1..][..i - 1] == path[..i][1..];
        assert q[1..][..i - 1] == q[..i][1..];
      }
      DeleteKeepsOtherPaths(m.vals[k], path[1..], q[1..], i - 1);
    }
  }
}
