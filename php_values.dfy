/** PHP values as the three modelled components see them: scalars, object
    handles and ordered arrays. A PHP array is an insertion order of keys
    together with a map from those keys to elements. */
module PhpValues {

  datatype Option<+T> = None | Some(value: T)

  /** An array key: PHP arrays are keyed by integers or by strings. */
  datatype Key = IntKey(i: int) | StrKey(s: string)

  /** A PHP value. An object is a handle `id` together with the name of its
      class, which never changes for the life of the object. */
  datatype PVal =
    | Null
    | Bool(b: bool)
    | Int(i: int)
    | Str(s: string)
    | Obj(id: nat, cls: string)
    | Arr(keys: seq<Key>, vals: map<Key, PVal>)

  /** `[]` */
  const Empty: PVal := Arr([], map[])

  ghost predicate Distinct<T>(s: seq<T>) {
    forall i, j :: 0 <= i < j < |s| ==> s[i] != s[j]
  }

  /** Every array lists each of its keys exactly once, and so do the arrays
      nested in it. */
  ghost predicate Wf(v: PVal)
    decreases v
  {
    v.Arr? ==>
      && Distinct(v.keys)
      && (forall k :: k in v.vals <==> k in v.keys)
      && (forall k :: k in v.vals ==> Wf(v.vals[k]))
  }

  ghost predicate WfAll(vs: seq<PVal>) {
    forall i :: 0 <= i < |vs| ==> Wf(vs[i])
  }

  /** `array_key_exists($k, $a)` */
  predicate HasKey(a: PVal, k: Key) {
    a.Arr? && k in a.vals
  }

  /** `isset($a[$k])`: the key is present and does not hold null. */
  predicate IsSet(a: PVal, k: Key) {
    a.Arr? && k in a.vals && a.vals[k] != Null
  }

  /** `$a[$k] ?? null` */
  function Get(a: PVal, k: Key): (r: PVal)
    ensures r != Null <==> IsSet(a, k)
    ensures Wf(a) ==> Wf(r)
  {
    if a.Arr? && k in a.vals then a.vals[k] else Null
  }

  /** `$a[$k] = $x`: a key already present keeps its place, a new key goes last. */
  function Put(a: PVal, k: Key, x: PVal): (r: PVal)
    requires a.Arr?
    ensures r.Arr? && r.vals == a.vals[k := x]
    ensures k in a.vals ==> r.keys == a.keys
    ensures k !in a.vals ==> r.keys == a.keys + [k]
    ensures Wf(a) && Wf(x) ==> Wf(r)
  {
    var r := Arr(if k in a.vals then a.keys else a.keys + [k], a.vals[k := x]);
    assert Wf(a) && Wf(x) ==> Wf(r) by {
      if Wf(a) && Wf(x) && k !in a.vals {
        assert k !in a.keys;
      }
    }
    r
  }

  /** `$a[$k] = $a[$k]` changes nothing. */
  lemma PutSame(a: PVal, k: Key)
    requires a.Arr? && Wf(a) && k in a.vals
    ensures Put(a, k, a.vals[k]) == a
  {
    assert a.vals[k := a.vals[k]] == a.vals;
  }

  /** The `i`-th key of a well-formed array holds a well-formed element. */
  lemma KeyAt(a: PVal, i: nat)
    requires a.Arr? && Wf(a) && i < |a.keys|
    ensures a.keys[i] in a.vals && Wf(a.vals[a.keys[i]])
  {
    assert a.keys[i] in a.keys;
  }

  /** In a list without repetitions, an element does not recur after its place. */
  lemma DistinctAfter<T>(s: seq<T>, i: nat)
    requires Distinct(s) && i < |s|
    ensures s[i] !in s[i + 1..]
  {
  }

  lemma DistinctHead<T>(s: seq<T>)
    ensures Distinct(s) && s != [] ==> s[0] !in s[1..]
  {
    if Distinct(s) && s != [] {
      DistinctAfter(s, 0);
    }
  }

  /** `s` with every occurrence of `x` taken out, order kept. */
  function Without(s: seq<Key>, x: Key): (r: seq<Key>)
    ensures forall y :: y in r <==> y in s && y != x
    ensures Distinct(s) ==> Distinct(r)
  {
    if s == [] then []
    else if s[0] == x then Without(s[1..], x)
    else
      var rest := Without(s[1..], x);
      DistinctHead(s);
      [s[0]] + rest
  }

  /** `unset($a[$k])` */
  function Remove(a: PVal, k: Key): (r: PVal)
    requires a.Arr?
    ensures r.Arr? && r.vals == a.vals - {k}
    ensures Wf(a) ==> Wf(r)
  {
    Arr(Without(a.keys, k), a.vals - {k})
  }

  /** The elements of an array in key order: what `foreach` visits and what
      `array_merge` copies. */
  function Values(a: PVal): (r: seq<PVal>)
    requires a.Arr? && Wf(a)
    ensures |r| == |a.keys|
    ensures forall i :: 0 <= i < |r| ==> r[i] == a.vals[a.keys[i]]
    ensures WfAll(r)
  {
    seq(|a.keys|, i requires 0 <= i < |a.keys| => a.vals[a.keys[i]])
  }

  /** An array whose keys are all strings. */
  predicate StringKeyed(a: PVal) {
    a.Arr? && forall i :: 0 <= i < |a.keys| ==> a.keys[i].StrKey?
  }

  /** `(bool)$v`; `empty($v)` is its negation. */
  predicate Truthy(v: PVal) {
    match v
    case Null => false
    case Bool(b) => b
    case Int(i) => i != 0
    case Str(s) => s != "" && s != "0"
    case Obj(_, _) => true
    case Arr(keys, _) => keys != []
  }

  /** `array_replace_recursive($base, $repl)` on two arrays: each key of
      `$repl`, in `$repl`'s order, is written into `$base`; where both sides
      hold an array under that key the two are replaced the same way, one
      level down, otherwise `$repl`'s element wins. Keys only in `$base` keep
      their elements. */
  function Replace(base: PVal, repl: PVal): (r: PVal)
    requires base.Arr? && repl.Arr? && Wf(base) && Wf(repl)
    ensures r.Arr? && Wf(r)
    ensures forall k :: k in r.vals <==> k in base.vals || k in repl.vals
    decreases repl, 1
  {
    ReplaceFrom(base, repl, 0)
  }

  /** What key `k` of the replacement turns `acc`'s element into. */
  function Merged(acc: PVal, k: Key, x: PVal): (r: PVal)
    requires acc.Arr? && Wf(acc) && Wf(x)
    ensures Wf(r)
    decreases x, 2
  {
    if k in acc.vals && acc.vals[k].Arr? && x.Arr? then Replace(acc.vals[k], x) else x
  }

  /** The replacement loop from position `i` of `repl`'s keys on. */
  function ReplaceFrom(acc: PVal, repl: PVal, i: nat): (r: PVal)
    requires acc.Arr? && repl.Arr? && Wf(acc) && Wf(repl) && i <= |repl.keys|
    ensures r.Arr? && Wf(r)
    ensures forall k :: k in r.vals <==> k in acc.vals || k in repl.keys[i..]
    decreases repl, 0, |repl.keys| - i
  {
    if i == |repl.keys| then acc
    else
      var r := ReplaceFrom(Step(acc, repl, i), repl, i + 1);
      SliceCons(repl.keys, i);
      r
  }

  /** One turn of the replacement loop: key `i` of `repl` written into `acc`. */
  function Step(acc: PVal, repl: PVal, i: nat): (r: PVal)
    requires acc.Arr? && repl.Arr? && Wf(acc) && Wf(repl) && i < |repl.keys|
    ensures r.Arr? && Wf(r)
    ensures r.vals == acc.vals[repl.keys[i] := Merged(acc, repl.keys[i], repl.vals[repl.keys[i]])]
    decreases repl, 0, |repl.keys| - i - 1
  {
    var k := repl.keys[i];
    Put(acc, k, Merged(acc, k, repl.vals[k]))
  }

  lemma SliceCons<T>(s: seq<T>, i: nat)
    requires i < |s|
    ensures s[i..] == [s[i]] + s[i + 1..]
    ensures forall x :: x in s[i..] <==> x == s[i] || x in s[i + 1..]
  {
  }

  /** The keys of `repl` not yet in `base`, in `repl`'s order. */
  function FreshKeys(base: PVal, ks: seq<Key>): (r: seq<Key>)
    requires base.Arr?
  {
    if ks == [] then []
    else (if ks[0] in base.vals then [] else [ks[0]]) + FreshKeys(base, ks[1..])
  }

  lemma ReplaceFromUnfold(acc: PVal, repl: PVal, i: nat)
    requires acc.Arr? && repl.Arr? && Wf(acc) && Wf(repl) && i < |repl.keys|
    ensures ReplaceFrom(acc, repl, i) == ReplaceFrom(Step(acc, repl, i), repl, i + 1)
  {
  }

  /** Writing key `i` leaves the element under every other key alone, so the
      merge of a later key sees the same element. */
  lemma StepKeepsOthers(acc: PVal, repl: PVal, i: nat, k: Key)
    requires acc.Arr? && repl.Arr? && Wf(acc) && Wf(repl) && i < |repl.keys|
    requires k in repl.keys[i + 1..]
    ensures k != repl.keys[i]
    ensures Merged(Step(acc, repl, i), k, repl.vals[k]) == Merged(acc, k, repl.vals[k])
  {
    DistinctAfter(repl.keys, i);
  }

  lemma {:induction false} ReplaceFromEntry(acc: PVal, repl: PVal, i: nat, k: Key)
    requires acc.Arr? && repl.Arr? && Wf(acc) && Wf(repl) && i <= |repl.keys|
    requires k in acc.vals || k in repl.keys[i..]
    ensures k in repl.keys[i..] ==> ReplaceFrom(acc, repl, i).vals[k] == Merged(acc, k, repl.vals[k])
    ensures k !in repl.keys[i..] ==> ReplaceFrom(acc, repl, i).vals[k] == acc.vals[k]
    decreases |repl.keys| - i
  {
    if i < |repl.keys| {
      var next := Step(acc, repl, i);
      ReplaceFromUnfold(acc, repl, i);
      SliceCons(repl.keys, i);
      ReplaceFromEntry(next, repl, i + 1, k);
      if k in repl.keys[i + 1..] {
        StepKeepsOthers(acc, repl, i, k);
      } else if k == repl.keys[i] {
        DistinctAfter(repl.keys, i);
      }
    }
  }

  /** Element by element: a key of the replacement holds the merged element,
      a key only in the base keeps the base's element. */
  lemma ReplaceEntry(base: PVal, repl: PVal, k: Key)
    requires base.Arr? && repl.Arr? && Wf(base) && Wf(repl)
    ensures k in repl.vals ==> Replace(base, repl).vals[k] == Merged(base, k, repl.vals[k])
    ensures k in base.vals && k !in repl.vals ==> Replace(base, repl).vals[k] == base.vals[k]
  {
    if k in base.vals || k in repl.vals {
      assert repl.keys[0..] == repl.keys;
      ReplaceFromEntry(base, repl, 0, k);
    }
  }

  lemma FreshKeysStep(acc: PVal, repl: PVal, i: nat)
    requires acc.Arr? && repl.Arr? && Wf(acc) && Wf(repl) && i < |repl.keys|
    ensures Step(acc, repl, i).keys + FreshKeys(Step(acc, repl, i), repl.keys[i + 1..])
         == acc.keys + FreshKeys(acc, repl.keys[i..])
  {
    var k := repl.keys[i];
    SliceCons(repl.keys, i);
    DistinctAfter(repl.keys, i);
    FreshKeysAfterPut(acc, k, Merged(acc, k, repl.vals[k]), repl.keys[i + 1..]);
  }

  lemma {:induction false} ReplaceFromOrder(acc: PVal, repl: PVal, i: nat)
    requires acc.Arr? && repl.Arr? && Wf(acc) && Wf(repl) && i <= |repl.keys|
    ensures ReplaceFrom(acc, repl, i).keys == acc.keys + FreshKeys(acc, repl.keys[i..])
    decreases |repl.keys| - i
  {
    if i < |repl.keys| {
      ReplaceFromUnfold(acc, repl, i);
      ReplaceFromOrder(Step(acc, repl, i), repl, i + 1);
      FreshKeysStep(acc, repl, i);
    } else {
      assert repl.keys[i..] == [];
    }
  }

  lemma {:induction false} FreshKeysAfterPut(acc: PVal, k: Key, x: PVal, ks: seq<Key>)
    requires acc.Arr? && k !in ks
    ensures FreshKeys(Put(acc, k, x), ks) == FreshKeys(acc, ks)
  {
    if ks != [] {
      FreshKeysAfterPut(acc, k, x, ks[1..]);
    }
  }

  /** The merged array keeps the base's key order and appends the
      replacement's new keys in the replacement's order. */
  lemma ReplaceOrder(base: PVal, repl: PVal)
    requires base.Arr? && repl.Arr? && Wf(base) && Wf(repl)
    ensures Replace(base, repl).keys == base.keys + FreshKeys(base, repl.keys)
  {
    ReplaceFromOrder(base, repl, 0);
    assert repl.keys[0..] == repl.keys;
  }
}
