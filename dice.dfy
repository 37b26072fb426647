/** The Dice dependency-injection container of src/Support/Dice.php: the
    rule store, the per-name cache of reflected classes (the closures
    `getClosure` builds), the shared instances, and object creation with
    its dependencies resolved by `getParams` and `expand`.

    Objects are handles `Obj(id, class)`; the container hands out fresh
    ids. What a constructor does with its arguments is foreign code: the
    model records the arguments each constructor received, and the methods
    a `call` rule invokes, and nothing else about them. */
module DiceContainer {
  import opened PhpValues
  import opened PhpStrings
  import opened DiceWorld
  import opened DiceRules
  import opened DiceArgs

  const InstanceKey: Key := StrKey("CI::INSTANCE")
  const GeneralKey: Key := StrKey("CI::GENERAL")
  const FixedKey: Key := StrKey("CI::FIXED")
  const ParamsKey: Key := StrKey("params")
  const SharedKey: Key := StrKey("shared")
  const ShareInstancesKey: Key := StrKey("shareInstances")
  const CallKey: Key := StrKey("call")
  const ParametersKey: Key := StrKey("parameters")

  /** Why a creation stopped. */
  datatype Failure =
    | InvalidArgument   // InvalidArgumentException: an interface was created
    | ReflectionFailure // ReflectionException: a missing class or method
    | FatalError        // a PHP Error or TypeError
    | ForeignCall       // a user callable ran; its result is not modelled
    | OutOfFuel         // the bound on nested creations ran out

  datatype Res<T> = Ok(value: T) | Fail(err: Failure)

  /** The closure `getClosure` caches for a name: the rule it captured and
      the class it reflected. */
  datatype Recipe = Recipe(name: string, rule: PVal, cls: ClassInfo)

  /** A value passed where PHP expects a `string`: strings as they are,
      integers and booleans converted, anything else a TypeError. */
  function NameOf(v: PVal): Option<string> {
    match v
    case Str(s) => Some(s)
    case Int(i) => Some(IntToString(i))
    case Bool(b) => Some(if b then "1" else "")
    case _ => None
  }

  /** The class `getClosure` reflects: `instanceOf` when set, else the name. */
  function ClassNameFor(name: string, rule: PVal): PVal {
    if IsSet(rule, InstanceOfKey) then rule.vals[InstanceOfKey] else Str(name)
  }

  /** The rule substitutes class `cls`: `array_key_exists` on the rule's
      own `substitutions` entry, with the class's declared name. */
  predicate Substitutes(rule: PVal, cls: string) {
    IsSet(rule, SubstitutionsKey) && HasKey(rule.vals[SubstitutionsKey], StrKey(cls))
  }

  /** Reflecting the constructor's parameters in `getParams`, one by one: a
      class hint naming a missing class throws, and `array_key_exists` on a
      `substitutions` entry that is not an array is a TypeError. */
  function CheckParams(w: World, ps: seq<ParamInfo>, subsBad: bool): (r: Option<Failure>)
    ensures r.None? ==> forall i :: 0 <= i < |ps| && ps[i].hint.ClassHint? ==> Canon(ps[i].hint.cls) in w.classes
    ensures r.None? && subsBad ==> ps == []
  {
    if ps == [] then None
    else if ps[0].hint.ClassHint? && Canon(ps[0].hint.cls) !in w.classes then Some(ReflectionFailure)
    else if subsBad then Some(FatalError)
    else
      var r := CheckParams(w, ps[1..], subsBad);
      assert r.None? ==> forall i :: 1 <= i < |ps| && ps[i].hint.ClassHint? ==> Canon(ps[i].hint.cls) in w.classes by {
        if r.None? {
          forall i | 1 <= i < |ps| && ps[i].hint.ClassHint?
            ensures Canon(ps[i].hint.cls) in w.classes
          {
            assert ps[1..][i - 1] == ps[i];
          }
        }
      }
      r
  }

  /** The part of `getClosure($name, $rule)` that can throw: reflecting the
      class (the `instanceOf` alias when the rule sets one) and its
      constructor's parameters. */
  function Reflect(w: World, name: string, rule: PVal): (r: Res<Recipe>)
    ensures r.Ok? ==> r.value.name == name && r.value.rule == rule
    ensures var cn := ClassNameFor(name, rule);
      cn.Str? ==>
        && (Canon(cn.s) !in w.classes ==> r == Fail(ReflectionFailure))
        && (r.Ok? ==> r.value.cls == w.classes[Canon(cn.s)])
    ensures r.Ok? && r.value.cls.ctor.Some? ==>
      forall i :: 0 <= i < |r.value.cls.ctor.value| && r.value.cls.ctor.value[i].hint.ClassHint? ==>
        Canon(r.value.cls.ctor.value[i].hint.cls) in w.classes
  {
    var cn := ClassNameFor(name, rule);
    var target := if cn.Obj? then Some(cn.cls) else NameOf(cn);
    if target.None? then Fail(FatalError)
    else match FindClass(w, target.value)
      case None => Fail(ReflectionFailure)
      case Some(c) =>
        var subsBad := IsSet(rule, SubstitutionsKey) && !rule.vals[SubstitutionsKey].Arr?;
        match (if c.ctor.Some? then CheckParams(w, c.ctor.value, subsBad) else None)
        case Some(f) => Fail(f)
        case None => Ok(Recipe(name, rule, c))
  }

  /** A plain array for `expand`: none of the three markers is set. */
  predicate Plain(v: PVal) {
    v.Arr? && !IsSet(v, InstanceKey) && !IsSet(v, GeneralKey) && !IsSet(v, FixedKey)
  }

  /** A rule `addRule` accepts: an array whose `instanceOf`, when set, is a
      string. */
  predicate Usable(rule: PVal) {
    rule.Arr? && (IsSet(rule, InstanceOfKey) ==> rule.vals[InstanceOfKey].Str?)
  }

  /** The entries of `addRules`' argument in order, an integer key naming
      the class by its decimal digits. */
  function Entries(batch: PVal): (r: seq<(string, PVal)>)
    requires batch.Arr? && Wf(batch)
    ensures |r| == |batch.keys|
    ensures forall i :: 0 <= i < |r| ==> r[i] == (KeyText(batch.keys[i]), batch.vals[batch.keys[i]])
  {
    var vs := Values(batch);
    seq(|vs|, i requires 0 <= i < |vs| => (KeyText(batch.keys[i]), vs[i]))
  }

  /** Every entry is a rule `addRule` accepts. */
  ghost predicate AllUsable(entries: seq<(string, PVal)>) {
    forall i :: 0 <= i < |entries| ==> Usable(entries[i].1) && Wf(entries[i].1)
  }

  /** The store after `addRule` for each entry in order. */
  function AddedAll(w: World, rules: PVal, entries: seq<(string, PVal)>): (r: PVal)
    requires Registry(rules) && AllUsable(entries)
    ensures Registry(r)
  {
    if entries == [] then rules
    else
      var last := |entries| - 1;
      AddedRule(w, AddedAll(w, rules, entries[..last]), entries[last].0, entries[last].1)
  }

  /** One more entry: `addRule` on it over the store the earlier ones left. */
  lemma AddedAllStep(w: World, rules: PVal, entries: seq<(string, PVal)>, i: nat)
    requires Registry(rules) && AllUsable(entries) && i < |entries|
    ensures AllUsable(entries[..i]) && AllUsable(entries[..i + 1])
    ensures AddedAll(w, rules, entries[..i + 1])
         == AddedRule(w, AddedAll(w, rules, entries[..i]), entries[i].0, entries[i].1)
  {
    assert entries[..i + 1][..i] == entries[..i];
  }

  /** The storage keys of the entries' names. */
  function StoredKeys(entries: seq<(string, PVal)>): (r: set<Key>)
    ensures forall i :: 0 <= i < |entries| ==> StrKey(StorageKey(entries[i].0)) in r
  {
    if entries == [] then {}
    else
      var last := |entries| - 1;
      assert forall i :: 0 <= i < last ==> entries[..last][i] == entries[i];
      StoredKeys(entries[..last]) + {StrKey(StorageKey(entries[last].0))}
  }

  /** After `addRules`, the store holds exactly the keys it held before
      and the storage key of every entry's name. */
  lemma {:induction false} AddedAllKeys(w: World, rules: PVal, entries: seq<(string, PVal)>)
    requires Registry(rules) && AllUsable(entries)
    ensures AddedAll(w, rules, entries).vals.Keys == rules.vals.Keys + StoredKeys(entries)
  {
    if entries != [] {
      var last := |entries| - 1;
      var init := entries[..last];
      assert AllUsable(init) by {
        assert forall i :: 0 <= i < last ==> init[i] == entries[i];
      }
      AddedAllKeys(w, rules, init);
      AddedRuleKeys(w, AddedAll(w, rules, init), entries[last].0, entries[last].1);
    }
  }

  /** The substitutions loop of `addRule`: each substitution is copied to
      the top level of the rule under its key without leading backslashes. */
  method LiftSubstitutions(rule: PVal, subs: PVal) returns (r: PVal)
    requires rule.Arr? && subs.Arr? && Wf(subs)
    ensures r == Lifted(rule, subs, |subs.keys|)
  {
    r := rule;
    var i := 0;
    while i < |subs.keys|
      invariant i <= |subs.keys|
      invariant r == Lifted(rule, subs, i)
    {
      var key := subs.keys[i];
      KeyAt(subs, i);
      r := Put(r, StrKey(LTrim(KeyText(key), '\\')), subs.vals[key]);
      i := i + 1;
    }
  }

  /** The container's state, for comparing before and after. */
  datatype Snapshot = Snapshot(
    rules: PVal,
    cache: map<string, Recipe>,
    instances: map<string, PVal>,
    nextId: nat,
    constructed: map<nat, seq<PVal>>,
    calls: seq<(nat, string)>)

  /** What creating objects may do to the container: the rules stay as they
      are, a cached closure is never replaced, a shared name is never
      forgotten, ids only grow, and what was constructed and called stays
      recorded. */
  ghost predicate Grows(a: Snapshot, b: Snapshot) {
    && b.rules == a.rules
    && (forall k :: k in a.cache ==> k in b.cache && b.cache[k] == a.cache[k])
    && (forall k :: k in a.instances ==> k in b.instances)
    && a.nextId <= b.nextId
    && (forall id :: id in a.constructed ==> id in b.constructed && b.constructed[id] == a.constructed[id])
    && a.calls <= b.calls
  }

  /** What `create` hands back: null (a shared internal class) or an object. */
  predicate Created(v: PVal) {
    v == Null || v.Obj?
  }

  /** `r` is a value `expand($v, $share, $createFromString)` can return: a
      value that is not an array comes back as it is, except that a string
      to create yields what `create` returns; `CI::INSTANCE` yields what it
      creates, `CI::GENERAL` its value and `CI::FIXED` nothing; any other
      array keeps its keys in order, each element expanded in turn. */
  ghost predicate Expands(v: PVal, createFromString: bool, r: PVal)
    decreases v
  {
    if !v.Arr? then
      if createFromString && v.Str? then Created(r) else r == v
    else if IsSet(v, InstanceKey) then Created(r)
    else if IsSet(v, GeneralKey) then r == v.vals[GeneralKey]
    else if IsSet(v, FixedKey) then false
    else
      && r.Arr? && r.keys == v.keys
      && forall i :: 0 <= i < |v.keys| ==>
           && v.keys[i] in v.vals && v.keys[i] in r.vals
           && Expands(v.vals[v.keys[i]], false, r.vals[v.keys[i]])
  }

  /** The values the argument closure draws from: `$args`, then the rule's
      `parameters` expanded, then `$share`. */
  ghost predicate PoolOf(rule: PVal, args: seq<PVal>, share: seq<PVal>, pool: seq<PVal>) {
    if !IsSet(rule, ParametersKey) then pool == args + share
    else exists e: PVal :: e.Arr? && Wf(e) && Expands(rule.vals[ParametersKey], false, e) && pool == args + Values(e) + share
  }

  /** What the argument closure produced for one slot of the plan: the
      value expanded or created for it (or the exception creating it
      threw), the instances stored just before, and how a dependency
      created by name came about. */
  datatype Outcome = Outcome(value: Res<PVal>, before: map<string, PVal>, b: Build)

  /** How an object came about: the shared instances its closure was
      called with, the object built, and where its constructor arguments
      came from. */
  datatype Build = Build(share: seq<PVal>, made: PVal, sup: Supply)

  /** The values the constructor arguments were drawn from, and what each
      slot of the plan produced. */
  datatype Supply = Supply(pool: seq<PVal>, fills: seq<Outcome>)

  /** No object of an interface or an abstract class can be made. */
  predicate Uninstantiable(c: ClassInfo) {
    c.isInterface || c.isAbstract
  }

  /** The closure of `recipe` built `made`, an object of the class (which
      is therefore neither an interface nor abstract), and
      returned `v`: `made` itself without `shared`, null for a shared
      internal class, and an object (the one stored under the name) for
      any other shared class. */
  ghost predicate Returned(recipe: Recipe, made: PVal, v: PVal) {
    && !Uninstantiable(recipe.cls) && made.Obj? && made.cls == recipe.cls.name
    && (!Truthy(Get(recipe.rule, SharedKey)) ==> v == made)
    && (Truthy(Get(recipe.rule, SharedKey)) && recipe.cls.isInternal ==> v == Null)
    && (Truthy(Get(recipe.rule, SharedKey)) && !recipe.cls.isInternal ==> v.Obj?)
  }

  /** The arguments one slot gives. */
  function Piece(s: Slot, o: Outcome): seq<PVal> {
    match s
    case Matched(v) => [v]
    case Default(v) => [v]
    case Rest(vs) => vs
    case Positional(_) => if o.value.Ok? then [o.value.value] else []
    case Fallback(_) => if o.value.Ok? then [o.value.value] else []
  }

  /** What a slot's outcome may be: a positional value is expanded; a
      class nothing fitted gets its substitution expanded with strings
      created, or else what `create` of the class returned (the truthy
      object stored before, or what the class's closure made), and is
      dropped only after an InvalidArgumentException. */
  ghost predicate Fitted(rule: PVal, s: Slot, o: Outcome, cache: map<string, Recipe>) {
    match s
    case Positional(v) => o.value.Ok? && Expands(v, false, o.value.value)
    case Fallback(cls) =>
      && (o.value.Fail? ==> o.value.err == InvalidArgument)
      && (o.value.Ok? && Substitutes(rule, cls) ==>
            Expands(rule.vals[SubstitutionsKey].vals[StrKey(cls)], true, o.value.value))
      && (o.value.Ok? && !Substitutes(rule, cls) ==>
            || (cls in o.before && o.before[cls].Obj? && o.value.value == o.before[cls])
            || (cls in cache && Returned(cache[cls], o.b.made, o.value.value)))
    case _ => true
  }

  /** `outs` is the argument list the plan `slots` produced, slot by slot,
      with `fills` telling what each slot produced. */
  ghost predicate Resolved(rule: PVal, slots: seq<Slot>, outs: seq<PVal>, fills: seq<Outcome>, cache: map<string, Recipe>)
    decreases |slots|
  {
    |fills| == |slots| &&
    if slots == [] then outs == []
    else
      var n := |slots| - 1;
      var p := Piece(slots[n], fills[n]);
      && |p| <= |outs| && outs[|outs| - |p|..] == p
      && Fitted(rule, slots[n], fills[n], cache)
      && Resolved(rule, slots[..n], outs[..|outs| - |p|], fills[..n], cache)
  }

  /** Object `id` was constructed, when its class has a constructor, with
      the arguments the plan over the pool of `$args`, the rule's
      `parameters` and `$share` resolves to, and the constructor took
      them. */
  ghost predicate Built(w: World, recipe: Recipe, args: seq<PVal>, share: seq<PVal>, sup: Supply,
                        cache: map<string, Recipe>, constructed: map<nat, seq<PVal>>, id: nat)
  {
    recipe.cls.ctor.Some? ==>
      && PoolOf(recipe.rule, args, share, sup.pool)
      && id in constructed && w.accepts(recipe.cls.name, constructed[id])
      && Resolved(recipe.rule, Plan(w, recipe.cls.ctor.value, sup.pool).0, constructed[id], sup.fills, cache)
  }

  /** The closure of `recipe`, called with `$args` and `$share`, built
      `made`, constructed from the pool, and returned `v`. */
  ghost predicate Made(w: World, recipe: Recipe, args: seq<PVal>, share: seq<PVal>, sup: Supply,
                       made: PVal, v: PVal, cache: map<string, Recipe>, constructed: map<nat, seq<PVal>>)
  {
    && Returned(recipe, made, v)
    && Built(w, recipe, args, share, sup, cache, constructed, made.id)
  }

  /** `v` is what `create($name, $args, $share)` returned, `o` telling how:
      the object stored under the name before, or what the name's
      closure made, called with `$args` and `$share` extended. */
  ghost predicate CreateResult(w: World, name: string, args: seq<PVal>, share: seq<PVal>, v: PVal, o: Outcome,
                               cache: map<string, Recipe>, constructed: map<nat, seq<PVal>>)
  {
    || (name in o.before && o.before[name].Obj? && v == o.before[name])
    || (&& name in cache
        && Made(w, cache[name], args, o.b.share, o.b.sup, o.b.made, v, cache, constructed)
        && |o.b.share| >= |share| && o.b.share[..|share|] == share)
  }

  /** Where a shared closure leaves its object: a shared internal class's
      object under the name and under the name without leading
      backslashes; any other shared class returns what the name holds. */
  ghost predicate Stored(recipe: Recipe, made: PVal, v: PVal, instances: map<string, PVal>) {
    Truthy(Get(recipe.rule, SharedKey)) ==>
      && recipe.name in instances && LTrim(recipe.name, '\\') in instances
      && (recipe.cls.isInternal ==>
            instances[recipe.name] == made && instances[LTrim(recipe.name, '\\')] == made)
      && (!recipe.cls.isInternal ==> v == instances[recipe.name])
  }

  /** One more slot's arguments extend a resolved argument list. */
  lemma ResolvedSnoc(rule: PVal, slots: seq<Slot>, outs: seq<PVal>, fills: seq<Outcome>, s: Slot, o: Outcome,
                     cache: map<string, Recipe>)
    requires Resolved(rule, slots, outs, fills, cache) && Fitted(rule, s, o, cache)
    ensures Resolved(rule, slots + [s], outs + Piece(s, o), fills + [o], cache)
  {
    var outs' := outs + Piece(s, o);
    assert (slots + [s])[..|slots|] == slots;
    assert (fills + [o])[..|fills|] == fills;
    assert outs'[..|outs|] == outs;
    assert outs'[|outs|..] == Piece(s, o);
  }

  /** A class-hinted parameter nothing in the pool fits, with no
      substitution, gets null or an object that `create` returned, or
      nothing. */
  lemma AutowiredArgument(rule: PVal, cls: string, outs: seq<PVal>, fills: seq<Outcome>, cache: map<string, Recipe>)
    requires Resolved(rule, [Fallback(cls)], outs, fills, cache) && !Substitutes(rule, cls)
    ensures |outs| <= 1 && (|outs| == 1 ==> Created(outs[0]))
    ensures outs == [] ==> fills[0].value == Fail(InvalidArgument)
  {
    assert [Fallback(cls)][..0] == [];
  }

  /** A class-hinted parameter that nothing in the pool fits, with no
      substitution and no object stored under the class, is dropped when
      the class is an interface or abstract: creating it cannot succeed. */
  lemma UninstantiableArgument(rule: PVal, cls: string, outs: seq<PVal>, fills: seq<Outcome>, cache: map<string, Recipe>)
    requires Resolved(rule, [Fallback(cls)], outs, fills, cache) && !Substitutes(rule, cls)
    requires cls in cache && Uninstantiable(cache[cls].cls)
    requires !(cls in fills[0].before && fills[0].before[cls].Obj?)
    ensures outs == [] && fills[0].value == Fail(InvalidArgument)
  {
    assert [Fallback(cls)][..0] == [];
  }

  /** A supplied value taken by position is passed as its expansion. */
  lemma PositionalArgument(rule: PVal, v: PVal, outs: seq<PVal>, fills: seq<Outcome>, cache: map<string, Recipe>)
    requires Resolved(rule, [Positional(v)], outs, fills, cache)
    ensures |outs| == 1 && Expands(v, false, outs[0])
  {
    assert [Positional(v)][..0] == [];
  }

  /** A resolved argument list stays resolved as closures are cached. */
  lemma {:induction false} ResolvedGrows(rule: PVal, slots: seq<Slot>, outs: seq<PVal>, fills: seq<Outcome>,
                                         cache: map<string, Recipe>, cache': map<string, Recipe>)
    requires Resolved(rule, slots, outs, fills, cache)
    requires forall k :: k in cache ==> k in cache' && cache'[k] == cache[k]
    ensures Resolved(rule, slots, outs, fills, cache')
    decreases |slots|
  {
    if slots != [] {
      var n := |slots| - 1;
      var p := Piece(slots[n], fills[n]);
      ResolvedGrows(rule, slots[..n], outs[..|outs| - |p|], fills[..n], cache, cache');
    }
  }

  /** The arguments of a fitted slot are what `Conforms` allows for it. */
  lemma PieceFits(rule: PVal, s: Slot, o: Outcome, cache: map<string, Recipe>)
    requires Fitted(rule, s, o, cache)
    ensures Gives(s, Piece(s, o))
  {
  }

  /** A resolved argument list conforms to its plan. */
  lemma {:induction false} ResolvedConforms(rule: PVal, slots: seq<Slot>, outs: seq<PVal>, fills: seq<Outcome>,
                                            cache: map<string, Recipe>)
    requires Resolved(rule, slots, outs, fills, cache)
    ensures Conforms(outs, slots)
    decreases |slots|
  {
    if slots != [] {
      var n := |slots| - 1;
      var p := Piece(slots[n], fills[n]);
      var m := |outs| - |p|;
      ResolvedConforms(rule, slots[..n], outs[..m], fills[..n], cache);
      PieceFits(rule, slots[n], fills[n], cache);
      ConformsLast(outs, slots, p);
    }
  }

  /** What a closure made stays made as the container grows. */
  lemma MadeGrows(w: World, recipe: Recipe, args: seq<PVal>, share: seq<PVal>, sup: Supply, made: PVal, v: PVal,
                  s: Snapshot, s': Snapshot)
    requires Grows(s, s') && Made(w, recipe, args, share, sup, made, v, s.cache, s.constructed)
    ensures Made(w, recipe, args, share, sup, made, v, s'.cache, s'.constructed)
  {
    if recipe.cls.ctor.Some? {
      ResolvedGrows(recipe.rule, Plan(w, recipe.cls.ctor.value, sup.pool).0, s.constructed[made.id], sup.fills, s.cache, s'.cache);
    }
  }

  /** What `create` returned stays explained as the container grows. */
  lemma CreateResultGrows(w: World, name: string, args: seq<PVal>, share: seq<PVal>, v: PVal, o: Outcome,
                          s: Snapshot, s': Snapshot)
    requires Grows(s, s') && CreateResult(w, name, args, share, v, o, s.cache, s.constructed)
    ensures CreateResult(w, name, args, share, v, o, s'.cache, s'.constructed)
  {
    if !(name in o.before && o.before[name].Obj? && v == o.before[name]) {
      MadeGrows(w, s.cache[name], args, o.b.share, o.b.sup, o.b.made, v, s, s');
    }
  }

  /** The `shareInstances` loop appended to `share`, for each listed name in
      turn, what `create` of that name returned with the instances shared
      so far; `made` tells how each came about. */
  ghost predicate Shares(w: World, list: PVal, share: seq<PVal>, out: seq<PVal>, made: seq<Outcome>,
                         cache: map<string, Recipe>, constructed: map<nat, seq<PVal>>)
    requires list.Arr?
    decreases |made|
  {
    |made| <= |list.keys| && |out| == |share| + |made| &&
    if made == [] then out == share
    else
      var n := |made| - 1;
      && Shares(w, list, share, out[..|share| + n], made[..n], cache, constructed)
      && list.keys[n] in list.vals && NameOf(list.vals[list.keys[n]]).Some?
      && CreateResult(w, NameOf(list.vals[list.keys[n]]).value, [], out[..|share| + n], out[|share| + n], made[n],
                      cache, constructed)
  }

  /** One more listed name was created and appended. */
  lemma SharesStep(w: World, list: PVal, share: seq<PVal>, out: seq<PVal>, made: seq<Outcome>,
                   cache: map<string, Recipe>, constructed: map<nat, seq<PVal>>, x: PVal, o: Outcome)
    requires list.Arr? && Shares(w, list, share, out, made, cache, constructed) && |made| < |list.keys|
    requires list.keys[|made|] in list.vals && NameOf(list.vals[list.keys[|made|]]).Some?
    requires CreateResult(w, NameOf(list.vals[list.keys[|made|]]).value, [], out, x, o, cache, constructed)
    ensures Shares(w, list, share, out + [x], made + [o], cache, constructed)
  {
    var out', made' := out + [x], made + [o];
    var n := |made|;
    assert made'[..n] == made && made'[n] == o;
    assert out'[..|share| + n] == out && out'[|share| + n] == x;
  }

  /** The shared instances stay explained as the container grows. */
  lemma {:induction false} SharesGrows(w: World, list: PVal, share: seq<PVal>, out: seq<PVal>, made: seq<Outcome>,
                                       s: Snapshot, s': Snapshot)
    requires list.Arr? && Grows(s, s') && Shares(w, list, share, out, made, s.cache, s.constructed)
    ensures Shares(w, list, share, out, made, s'.cache, s'.constructed)
    decreases |made|
  {
    if made != [] {
      var n := |made| - 1;
      SharesGrows(w, list, share, out[..|share| + n], made[..n], s, s');
      CreateResultGrows(w, NameOf(list.vals[list.keys[n]]).value, [], out[..|share| + n], out[|share| + n], made[n], s, s');
    }
  }

  /** What `expand` creates for `['CI::INSTANCE' => $i, 'params' => $p]`:
      `$i`, the first element of an array expanded with strings created,
      and `$p` expanded (or `[]`). */
  ghost predicate InstancePartsOf(v: PVal, parts: (PVal, PVal))
    requires IsSet(v, InstanceKey)
  {
    var inst := v.vals[InstanceKey];
    && (IsSet(v, ParamsKey) ==> Expands(v.vals[ParamsKey], false, parts.1))
    && (!IsSet(v, ParamsKey) ==> parts.1 == Empty)
    && (!inst.Arr? ==> parts.0 == inst)
    && (inst.Arr? ==>
          && parts.0 == Put(inst, IntKey(0), Get(parts.0, IntKey(0)))
          && (HasKey(inst, IntKey(0)) ==> Expands(inst.vals[IntKey(0)], true, Get(parts.0, IntKey(0))))
          && (!HasKey(inst, IntKey(0)) ==> Get(parts.0, IntKey(0)) == Null))
  }

  /** A rule whose closure returns the object it stores: `shared`, not an
      internal class, and no `call` wrapper around it. */
  predicate SharedObjectRule(recipe: Recipe) {
    Truthy(Get(recipe.rule, SharedKey)) && !recipe.cls.isInternal && !IsSet(recipe.rule, CallKey)
  }

  /** A `call` entry whose method name is a string. */
  predicate IsCall(c: PVal) {
    IsSet(c, IntKey(0)) && c.vals[IntKey(0)].Str?
  }

  /** The method named by the `call` entry at index `j` of `list`. */
  function CallName(list: PVal, j: nat): string
    requires list.Arr? && j < |list.keys| && list.keys[j] in list.vals && IsCall(list.vals[list.keys[j]])
  {
    list.vals[list.keys[j]].vals[IntKey(0)].s
  }

  /** The first `|at|` entries of a `call` list were invoked on `obj`, in
      order: entry `j` is the call recorded at `at[j]`, past `from`. */
  ghost predicate RanInOrder(calls: seq<(nat, string)>, from: nat, obj: PVal, list: PVal, at: seq<nat>)
    requires list.Arr?
    decreases |at|
  {
    |at| <= |list.keys| &&
    if at == [] then from <= |calls|
    else
      var n := |at| - 1;
      && RanInOrder(calls, from, obj, list, at[..n])
      && (n == 0 ==> from <= at[n]) && (n > 0 ==> at[n - 1] < at[n]) && at[n] < |calls|
      && list.keys[n] in list.vals && IsCall(list.vals[list.keys[n]]) && obj.Obj?
      && calls[at[n]] == (obj.id, CallName(list, n))
  }

  /** Recorded calls stay recorded as more are made. */
  lemma {:induction false} RanGrows(calls: seq<(nat, string)>, calls': seq<(nat, string)>, from: nat, obj: PVal, list: PVal, at: seq<nat>)
    requires list.Arr? && RanInOrder(calls, from, obj, list, at) && calls <= calls'
    ensures RanInOrder(calls', from, obj, list, at)
    decreases |at|
  {
    if at != [] {
      var n := |at| - 1;
      RanGrows(calls, calls', from, obj, list, at[..n]);
      assert calls'[at[n]] == calls[at[n]];
    }
  }

  /** One more `call` entry ran: its call is the last one recorded. */
  lemma RanStep(calls: seq<(nat, string)>, calls': seq<(nat, string)>, from: nat, obj: PVal, list: PVal, at: seq<nat>)
    requires list.Arr? && RanInOrder(calls, from, obj, list, at) && |at| < |list.keys|
    requires calls <= calls' && |calls'| > |calls|
    requires list.keys[|at|] in list.vals && IsCall(list.vals[list.keys[|at|]]) && obj.Obj?
    requires calls'[|calls'| - 1] == (obj.id, CallName(list, |at|))
    ensures RanInOrder(calls', from, obj, list, at + [|calls'| - 1])
  {
    RanGrows(calls, calls', from, obj, list, at);
    var at' := at + [|calls'| - 1];
    assert at'[..|at|] == at;
    RanBound(calls, from, obj, list, at);
  }

  /** Every recorded call lies within the calls and past `from`. */
  lemma {:induction false} RanBound(calls: seq<(nat, string)>, from: nat, obj: PVal, list: PVal, at: seq<nat>)
    requires list.Arr? && RanInOrder(calls, from, obj, list, at)
    ensures from <= |calls|
    ensures at != [] ==> from <= at[|at| - 1] < |calls|
    decreases |at|
  {
    if |at| > 1 {
      RanBound(calls, from, obj, list, at[..|at| - 1]);
    }
  }

  class Dice {
    /** The classes reflection can see. */
    const world: World
    /** Rules which have been set using addRule(), in registration order. */
    var rules: PVal
    /** One reflected closure per name passed to create(). */
    var cache: map<string, Recipe>
    /** The instances of shared classes, by the name they were created as. */
    var instances: map<string, PVal>
    /** The id the next object receives. */
    var nextId: nat
    /** The arguments each object's constructor was called with. */
    var constructed: map<nat, seq<PVal>>
    /** The methods a `call` rule invoked, on which object, in order. */
    var calls: seq<(nat, string)>

    ghost predicate Valid()
      reads this
    {
      && Registry(rules)
      && (forall k :: k in cache ==> cache[k].name == k && cache[k].rule.Arr? && Wf(cache[k].rule))
      && (forall k :: k in instances ==> instances[k].Obj? && instances[k].id < nextId)
      && (forall id :: id in constructed ==> id < nextId)
    }

    function State(): Snapshot
      reads this
    {
      Snapshot(rules, cache, instances, nextId, constructed, calls)
    }

    constructor(w: World)
      ensures Valid() && world == w
      ensures rules == Empty && cache == map[] && instances == map[]
      ensures nextId == 0 && constructed == map[] && calls == []
    {
      world := w;
      rules := Empty;
      cache := map[];
      instances := map[];
      nextId := 0;
      constructed := map[];
      calls := [];
    }

    /** `getRule($name)`: the exact entry, else the first inherited parent's
        rule in registration order, else the `*` rule, else `[]`. */
    method GetRule(name: string) returns (r: PVal)
      requires Valid()
      ensures r == RuleFor(world, rules, name)
    {
      var lcName := ToLower(LTrim(name, '\\'));
      if IsSet(rules, StrKey(lcName)) {
        return rules.vals[StrKey(lcName)];
      }
      var i := 0;
      while i < |rules.keys|
        invariant i <= |rules.keys|
        invariant FirstInherited(world, rules, name, i) == FirstInherited(world, rules, name, 0)
      {
        var key := rules.keys[i];
        var rule := Get(rules, key);
        if !Truthy(Get(rule, InstanceOfKey)) && key != Wildcard && key.StrKey?
          && IsSubclassOf(world, name, key.s) && Inherits(rule)
        {
          KeyAt(rules, i);
          return rule;
        }
        i := i + 1;
      }
      return if IsSet(rules, Wildcard) then rules.vals[Wildcard] else Empty;
    }

    /** `addRule($name, $rule)`: merge the alias's rule underneath, copy the
        substitutions to the top level, and deep-merge the result over the
        name's current rule. Cached closures keep the rule they captured. */
    method AddRule(name: string, rule: PVal)
      requires Valid() && Usable(rule) && Wf(rule)
      modifies this`rules
      ensures Valid() && rules == AddedRule(world, old(rules), name, rule)
    {
      var r := rule;
      if IsSet(r, InstanceOfKey) && Inherits(r) {
        var base := GetRule(r.vals[InstanceOfKey].s);
        r := Replace(base, r);
      }
      assert r == Aliased(world, rules, rule);
      if IsSet(r, SubstitutionsKey) && r.vals[SubstitutionsKey].Arr? {
        r := LiftSubstitutions(r, r.vals[SubstitutionsKey]);
      }
      assert r == Prepared(world, rules, rule);
      var current := GetRule(name);
      ghost var after := AddedRule(world, rules, name, rule);
      rules := Put(rules, StrKey(StorageKey(name)), Replace(current, r));
      assert rules == after;
    }

    /** `addRules($rules)` on an array of rules: `addRule` for each entry in
        order, an integer key naming the class by its decimal digits. */
    method AddRules(batch: PVal)
      requires Valid() && batch.Arr? && Wf(batch) && AllUsable(Entries(batch))
      modifies this`rules
      ensures Valid() && rules == AddedAll(world, old(rules), Entries(batch))
    {
      var entries := Entries(batch);
      ghost var r0 := rules;
      var i := 0;
      while i < |entries|
        invariant i <= |entries|
        invariant Valid() && rules == AddedAll(world, r0, entries[..i])
      {
        AddedAllStep(world, r0, entries, i);
        AddRule(entries[i].0, entries[i].1);
        i := i + 1;
      }
      assert entries[..i] == entries;
    }

    /** `create($name, $args, $share)`: a stored shared instance is returned
        as it is; otherwise the name's closure is built once and cached,
        then called, and `b` tells how its object came about. `fuel` bounds
        the depth of nested creations. */
    method Create(name: string, args: seq<PVal>, share: seq<PVal>, fuel: nat) returns (r: Res<PVal>, ghost b: Build)
      requires Valid() && WfAll(args) && WfAll(share)
      modifies this
      ensures Valid() && Grows(old(State()), State())
      ensures r.Ok? ==> Created(r.value) && (r.value.Obj? ==> r.value.id < nextId)
      ensures name in old(instances) && Truthy(old(instances)[name]) ==>
        r == Ok(old(instances)[name]) && State() == old(State())
      ensures !(name in old(instances) && Truthy(old(instances)[name])) && name !in old(cache) ==>
        var reflected := Reflect(world, name, RuleFor(world, old(rules), name));
        && (reflected.Fail? ==> r == Fail(reflected.err) && State() == old(State()))
        && (reflected.Ok? ==> name in cache && cache[name] == reflected.value)
      ensures r.Ok? && !(name in old(instances) && Truthy(old(instances)[name])) ==>
        && name in cache && Made(world, cache[name], args, b.share, b.sup, b.made, r.value, cache, constructed)
        && old(nextId) <= b.made.id < nextId
        && |b.share| >= |share| && b.share[..|share|] == share
      ensures r.Ok? ==> CreateResult(world, name, args, share, r.value, Outcome(r, old(instances), b), cache, constructed)
      ensures r.Ok? && name in cache && SharedObjectRule(cache[name]) ==>
        name in instances && instances[name] == r.value
      decreases fuel, 0
    {
      b := Build(share, Null, Supply([], []));
      if name in instances && Truthy(instances[name]) {
        return Ok(instances[name]), b;
      }
      if name !in cache {
        var rule := GetRule(name);
        var recipe := Reflect(world, name, rule);
        if recipe.Fail? {
          return Fail(recipe.err), b;
        }
        cache := cache[name := recipe.value];
      }
      if fuel == 0 {
        return Fail(OutOfFuel), b;
      }
      ghost var at;
      r, b, at := Invoke(cache[name], args, share, fuel - 1);
    }

    /** A shared class is created once: a second `create` of the name, with
        any arguments, returns the instance the first one stored. */
    method CreateTwice(name: string, args1: seq<PVal>, args2: seq<PVal>, share: seq<PVal>, fuel: nat)
      returns (r1: Res<PVal>, r2: Res<PVal>)
      requires Valid() && WfAll(args1) && WfAll(args2) && WfAll(share)
      modifies this
      ensures Valid()
      ensures r1.Ok? && name in cache && SharedObjectRule(cache[name]) ==> r2 == r1
    {
      ghost var b;
      r1, b := Create(name, args1, share, fuel);
      r2, b := Create(name, args2, share, fuel);
    }

    /** `create` of a name that reaches an interface or an abstract class,
        with no truthy instance stored under it, fails: an interface with
        no `instanceOf` alias cannot be built, shared or not. */
    method CreateUninstantiable(name: string, args: seq<PVal>, share: seq<PVal>, fuel: nat) returns (r: Res<PVal>)
      requires Valid() && WfAll(args) && WfAll(share)
      requires !(name in instances && Truthy(instances[name]))
      requires name in cache ==> Uninstantiable(cache[name].cls)
      requires name !in cache ==>
        var reflected := Reflect(world, name, RuleFor(world, rules, name));
        reflected.Ok? ==> Uninstantiable(reflected.value.cls)
      modifies this
      ensures r.Fail?
    {
      ghost var b;
      r, b := Create(name, args, share, fuel);
    }

    /** The closure `getClosure` returns when the rule sets `call`: after
        construction, each listed method is looked up and invoked on the
        object, in order, and the object is returned. Its argument list
        `$call[1]` is expanded (creating what it names) but the method
        receives the argument closure instead, and the result callback
        `$call[2]` is not modelled. `at` tells where each call was
        recorded. */
    method Invoke(recipe: Recipe, args: seq<PVal>, share: seq<PVal>, fuel: nat)
      returns (r: Res<PVal>, ghost b: Build, ghost at: seq<nat>)
      requires Valid() && recipe.rule.Arr? && Wf(recipe.rule) && WfAll(args) && WfAll(share)
      modifies this
      ensures Valid() && Grows(old(State()), State())
      ensures r.Ok? ==> Created(r.value) && (r.value.Obj? ==> r.value.id < nextId)
      ensures r.Ok? ==>
        && Made(world, recipe, args, b.share, b.sup, b.made, r.value, cache, constructed)
        && old(nextId) <= b.made.id < nextId
        && |b.share| >= |share| && b.share[..|share|] == share
      ensures r.Ok? && !IsSet(recipe.rule, CallKey) ==> Stored(recipe, b.made, r.value, instances)
      ensures r.Ok? && IsSet(recipe.rule, CallKey) && recipe.rule.vals[CallKey].Arr? ==>
        |at| == |recipe.rule.vals[CallKey].keys| && RanInOrder(calls, |old(calls)|, r.value, recipe.rule.vals[CallKey], at)
      decreases fuel, 7
    {
      at := [];
      ghost var shared;
      r, b, shared := ShareLayer(recipe, args, share, fuel);
      if r.Fail? || !IsSet(recipe.rule, CallKey) || !recipe.rule.vals[CallKey].Arr? {
        return;
      }
      ghost var s1 := State();
      var c;
      c, at := CallAll(recipe.cls, r.value, recipe.rule.vals[CallKey], |old(calls)|, fuel);
      MadeGrows(world, recipe, args, b.share, b.sup, b.made, r.value, s1, State());
      if c.Fail? {
        return c, b, at;
      }
    }

    /** The `foreach` of the `call` wrapper: each entry's method is invoked
        on the object in order; `at` tells where each call was recorded. */
    method CallAll(cls: ClassInfo, obj: PVal, list: PVal, ghost from: nat, fuel: nat) returns (r: Res<PVal>, ghost at: seq<nat>)
      requires Valid() && list.Arr? && Wf(list) && from <= |calls|
      modifies this
      ensures Valid() && Grows(old(State()), State())
      ensures r.Ok? ==> r == Ok(obj) && |at| == |list.keys| && RanInOrder(calls, from, obj, list, at)
      decreases fuel, 3
    {
      at := [];
      ghost var s0 := old(State());
      ghost var c0 := from;
      var i := 0;
      while i < |list.keys|
        invariant i <= |list.keys| && |at| == i
        invariant Valid() && Grows(s0, State())
        invariant RanInOrder(calls, c0, obj, list, at)
      {
        var c;
        c, at := CallEntry(cls, obj, list, i, c0, at, fuel);
        if c.Fail? {
          return c, at;
        }
        i := i + 1;
      }
      return Ok(obj), at;
    }

    /** Entry `i` of a `call` list, after the entries before it ran. */
    method CallEntry(cls: ClassInfo, obj: PVal, list: PVal, i: nat, ghost from: nat, ghost at: seq<nat>, fuel: nat)
      returns (r: Res<PVal>, ghost at': seq<nat>)
      requires Valid() && list.Arr? && Wf(list) && i < |list.keys| && |at| == i
      requires RanInOrder(calls, from, obj, list, at)
      modifies this
      ensures Valid() && Grows(old(State()), State())
      ensures r.Ok? ==> r == Ok(obj) && |at'| == i + 1 && RanInOrder(calls, from, obj, list, at')
      decreases fuel, 2, 1
    {
      KeyAt(list, i);
      ghost var before := calls;
      r := CallMethod(cls, obj, list.vals[list.keys[i]], fuel);
      at' := at;
      if r.Ok? {
        RanStep(before, calls, from, obj, list, at);
        at' := at + [|calls| - 1];
      }
    }

    /** One entry `[$method, $args]` of a `call` rule: the method must
        exist on the class, its argument list is expanded, and the method
        is invoked on the object, last of everything the expansion did. */
    method CallMethod(cls: ClassInfo, obj: PVal, c: PVal, fuel: nat) returns (r: Res<PVal>)
      requires Valid() && Wf(c)
      modifies this
      ensures Valid() && Grows(old(State()), State())
      ensures !IsCall(c) ==> r == Fail(FatalError) && State() == old(State())
      ensures IsCall(c) && !HasMethod(cls, c.vals[IntKey(0)].s) ==>
        r == Fail(ReflectionFailure) && State() == old(State())
      ensures r.Ok? ==>
        && r == Ok(obj) && obj.Obj? && IsCall(c) && HasMethod(cls, c.vals[IntKey(0)].s)
        && |calls| > |old(calls)| && calls[|calls| - 1] == (obj.id, c.vals[IntKey(0)].s)
      decreases fuel, 2, 0
    {
      if !IsCall(c) {
        return Fail(FatalError);
      }
      var m := c.vals[IntKey(0)].s;
      if !HasMethod(cls, m) {
        return Fail(ReflectionFailure);
      }
      var e := Expand(if IsSet(c, IntKey(1)) then c.vals[IntKey(1)] else Empty, [], false, fuel);
      if e.Fail? {
        return Fail(e.err);
      }
      if !obj.Obj? {
        return Fail(FatalError);
      }
      calls := calls + [(obj.id, m)];
      return Ok(obj);
    }

    /** The closure `getClosure` wraps around the others when the rule sets
        `shareInstances`: each listed name is created, in order, with the
        instances created so far, and appended to the shared instances
        `b.share` the inner closure is then called with; `shared` tells how
        each appended instance came about. */
    method ShareLayer(recipe: Recipe, args: seq<PVal>, share: seq<PVal>, fuel: nat)
      returns (r: Res<PVal>, ghost b: Build, ghost shared: seq<Outcome>)
      requires Valid() && recipe.rule.Arr? && Wf(recipe.rule) && WfAll(args) && WfAll(share)
      modifies this
      ensures Valid() && Grows(old(State()), State())
      ensures r.Ok? ==> Created(r.value) && (r.value.Obj? ==> r.value.id < nextId)
      ensures !(IsSet(recipe.rule, ShareInstancesKey) && recipe.rule.vals[ShareInstancesKey].Arr?) ==> b.share == share
      ensures r.Ok? && IsSet(recipe.rule, ShareInstancesKey) && recipe.rule.vals[ShareInstancesKey].Arr? ==>
        && |shared| == |recipe.rule.vals[ShareInstancesKey].keys|
        && Shares(world, recipe.rule.vals[ShareInstancesKey], share, b.share, shared, cache, constructed)
      ensures |b.share| >= |share| && b.share[..|share|] == share
      ensures r.Ok? ==>
        && Made(world, recipe, args, b.share, b.sup, b.made, r.value, cache, constructed)
        && old(nextId) <= b.made.id < nextId
        && Stored(recipe, b.made, r.value, instances)
      decreases fuel, 6
    {
      var sh := share;
      shared := [];
      if IsSet(recipe.rule, ShareInstancesKey) && recipe.rule.vals[ShareInstancesKey].Arr? {
        var all;
        all, shared := ShareAll(recipe.rule.vals[ShareInstancesKey], share, fuel);
        if all.Fail? {
          return Fail(all.err), Build(share, Null, Supply([], [])), shared;
        }
        sh := all.value;
      }
      ghost var s1 := State();
      ghost var made, sup;
      r, made, sup := Shared(recipe, args, sh, fuel);
      b := Build(sh, made, sup);
      if r.Ok? && IsSet(recipe.rule, ShareInstancesKey) && recipe.rule.vals[ShareInstancesKey].Arr? {
        SharesGrows(world, recipe.rule.vals[ShareInstancesKey], share, sh, shared, s1, State());
      }
    }

    /** The `foreach` of the `shareInstances` wrapper: each listed name is
        created with the instances so far, and what `create` returned is
        appended to them; `made` tells how each came about. */
    method ShareAll(list: PVal, share: seq<PVal>, fuel: nat) returns (r: Res<seq<PVal>>, ghost made: seq<Outcome>)
      requires Valid() && list.Arr? && Wf(list) && WfAll(share)
      modifies this
      ensures Valid() && Grows(old(State()), State())
      ensures r.Ok? ==>
        && WfAll(r.value) && |r.value| == |share| + |list.keys| && r.value[..|share|] == share
        && (forall j :: |share| <= j < |r.value| ==> Created(r.value[j]))
        && |made| == |list.keys| && Shares(world, list, share, r.value, made, cache, constructed)
      decreases fuel, 5, 2, 1
    {
      ghost var s0 := old(State());
      made := [];
      var sh := share;
      var i := 0;
      while i < |list.keys|
        invariant i <= |list.keys| && |made| == i
        invariant Valid() && Grows(s0, State()) && WfAll(sh)
        invariant |sh| == |share| + i && sh[..|share|] == share
        invariant forall j :: |share| <= j < |sh| ==> Created(sh[j])
        invariant Shares(world, list, share, sh, made, cache, constructed)
      {
        var x;
        ghost var o;
        x, o := ShareEntry(list, i, share, sh, made, fuel);
        if x.Fail? {
          return Fail(x.err), made;
        }
        made := made + [o];
        sh := sh + [x.value];
        i := i + 1;
      }
      return Ok(sh), made;
    }

    /** Entry `i` of a `shareInstances` list, after the entries before it
        were created and appended to `sh`. */
    method ShareEntry(list: PVal, i: nat, share: seq<PVal>, sh: seq<PVal>, ghost made: seq<Outcome>, fuel: nat)
      returns (r: Res<PVal>, ghost o: Outcome)
      requires Valid() && list.Arr? && Wf(list) && WfAll(sh) && i < |list.keys| && |made| == i
      requires Shares(world, list, share, sh, made, cache, constructed)
      modifies this
      ensures Valid() && Grows(old(State()), State())
      ensures r.Ok? ==>
        && Wf(r.value) && Created(r.value) && (r.value.Obj? ==> r.value.id < nextId)
        && Shares(world, list, share, sh + [r.value], made + [o], cache, constructed)
      decreases fuel, 5, 2, 0
    {
      KeyAt(list, i);
      var name := NameOf(list.vals[list.keys[i]]);
      o := Outcome(Fail(FatalError), instances, Build(sh, Null, Supply([], [])));
      if name.None? {
        return Fail(FatalError), o;
      }
      ghost var s1 := State();
      ghost var ob;
      r, ob := Create(name.value, [], sh, fuel);
      o := Outcome(r, s1.instances, ob);
      if r.Ok? {
        SharesGrows(world, list, share, sh, made, s1, State());
        SharesStep(world, list, share, sh, made, cache, constructed, r.value, o);
      }
    }

    /** The closure for the rule: with a truthy `shared`, an internal class
        is built normally and stored (and the closure then returns nothing),
        and any other class is instantiated without its constructor, stored
        under the name and under the name without leading backslashes, and
        only then constructed, so that cyclic dependencies find it. */
    method Shared(recipe: Recipe, args: seq<PVal>, share: seq<PVal>, fuel: nat)
      returns (r: Res<PVal>, ghost made: PVal, ghost sup: Supply)
      requires Valid() && recipe.rule.Arr? && Wf(recipe.rule) && WfAll(args) && WfAll(share)
      modifies this
      ensures Valid() && Grows(old(State()), State())
      ensures r.Ok? ==> Created(r.value) && (r.value.Obj? ==> r.value.id < nextId)
      ensures !Truthy(Get(recipe.rule, SharedKey)) && recipe.cls.isInterface ==>
        r == Fail(InvalidArgument) && State() == old(State())
      ensures Truthy(Get(recipe.rule, SharedKey)) && !recipe.cls.isInternal && (recipe.cls.isInterface || recipe.cls.isAbstract) ==>
        r == Fail(FatalError) && State() == old(State())
      ensures r.Ok? ==>
        && made == Obj(old(nextId), recipe.cls.name) && made.id < nextId
        && Made(world, recipe, args, share, sup, made, r.value, cache, constructed)
        && Stored(recipe, made, r.value, instances)
      decreases fuel, 5, 1
    {
      made, sup := Null, Supply([], []);
      if !Truthy(Get(recipe.rule, SharedKey)) {
        r, sup := Base(recipe, args, share, fuel);
        if r.Ok? {
          made := r.value;
        }
      } else if recipe.cls.isInternal {
        r, made, sup := SharedInternal(recipe, args, share, fuel);
      } else if recipe.cls.isInterface || recipe.cls.isAbstract {
        r := Fail(FatalError);
      } else {
        r, made, sup := SharedObject(recipe, args, share, fuel);
      }
    }

    /** A shared internal class is built by the base closure and stored
        under both names; the closure then returns nothing. */
    method SharedInternal(recipe: Recipe, args: seq<PVal>, share: seq<PVal>, fuel: nat)
      returns (r: Res<PVal>, ghost made: PVal, ghost sup: Supply)
      requires Valid() && recipe.rule.Arr? && Wf(recipe.rule) && WfAll(args) && WfAll(share)
      modifies this
      ensures Valid() && Grows(old(State()), State())
      ensures r.Ok? ==>
        && r.value == Null && made == Obj(old(nextId), recipe.cls.name) && made.id < nextId
        && !Uninstantiable(recipe.cls)
        && Built(world, recipe, args, share, sup, cache, constructed, made.id)
        && recipe.name in instances && instances[recipe.name] == made
        && LTrim(recipe.name, '\\') in instances && instances[LTrim(recipe.name, '\\')] == made
      decreases fuel, 5, 0
    {
      var o;
      o, sup := Base(recipe, args, share, fuel);
      made := if o.Ok? then o.value else Null;
      if o.Fail? {
        return o, made, sup;
      }
      instances := instances[LTrim(recipe.name, '\\') := o.value][recipe.name := o.value];
      return Ok(Null), made, sup;
    }

    /** A shared class that is neither internal nor abstract: a fresh
        object `made` is stored under both names, then constructed, and the
        closure returns what the name holds. */
    method SharedObject(recipe: Recipe, args: seq<PVal>, share: seq<PVal>, fuel: nat)
      returns (r: Res<PVal>, ghost made: PVal, ghost sup: Supply)
      requires Valid() && recipe.rule.Arr? && Wf(recipe.rule) && WfAll(args) && WfAll(share)
      modifies this
      ensures Valid() && Grows(old(State()), State())
      ensures made == Obj(old(nextId), recipe.cls.name) && made.id < nextId
      ensures r.Ok? ==>
        && Built(world, recipe, args, share, sup, cache, constructed, made.id)
        && recipe.name in instances && LTrim(recipe.name, '\\') in instances
        && r.value == instances[recipe.name] && r.value.Obj? && r.value.id < nextId
      decreases fuel, 5, 0
    {
      var obj := Obj(nextId, recipe.cls.name);
      made := obj;
      nextId := nextId + 1;
      instances := instances[LTrim(recipe.name, '\\') := obj][recipe.name := obj];
      r, sup := Construct(recipe, obj, args, share, fuel);
    }

    /** The constructor call of a shared object, which is already stored
        under the name and under the name without leading backslashes: its
        arguments are resolved, it is constructed (a constructor that does
        not take them throws, and the object stays stored), and the closure
        returns what the name holds then. */
    method Construct(recipe: Recipe, obj: PVal, args: seq<PVal>, share: seq<PVal>, fuel: nat)
      returns (r: Res<PVal>, ghost sup: Supply)
      requires Valid() && recipe.rule.Arr? && Wf(recipe.rule) && WfAll(args) && WfAll(share)
      requires obj.Obj? && obj.id < nextId && obj.id !in constructed
      requires recipe.name in instances && instances[recipe.name] == obj
      requires LTrim(recipe.name, '\\') in instances && instances[LTrim(recipe.name, '\\')] == obj
      modifies this
      ensures Valid() && Grows(old(State()), State())
      ensures r.Ok? ==>
        && Built(world, recipe, args, share, sup, cache, constructed, obj.id)
        && r.value == instances[recipe.name] && r.value.Obj? && r.value.id < nextId
      decreases fuel, 4
    {
      sup := Supply([], []);
      if recipe.cls.ctor.Some? {
        var a;
        a, sup := ResolveArgs(recipe, recipe.cls.ctor.value, args, share, fuel);
        if a.Fail? {
          return Fail(a.err), sup;
        }
        if !world.accepts(recipe.cls.name, a.value) {
          return Fail(FatalError), sup;
        }
        constructed := constructed[obj.id := a.value];
      }
      return Ok(instances[recipe.name]), sup;
    }

    /** The base closure: an interface throws InvalidArgumentException, an
        abstract class cannot be instantiated, and otherwise a new object is
        constructed with the arguments `getParams` resolves, drawn from
        `sup`, unless the constructor does not take them. */
    method Base(recipe: Recipe, args: seq<PVal>, share: seq<PVal>, fuel: nat) returns (r: Res<PVal>, ghost sup: Supply)
      requires Valid() && recipe.rule.Arr? && Wf(recipe.rule) && WfAll(args) && WfAll(share)
      modifies this
      ensures Valid() && Grows(old(State()), State())
      ensures recipe.cls.isInterface ==> r == Fail(InvalidArgument) && State() == old(State())
      ensures !recipe.cls.isInterface && recipe.cls.isAbstract ==> r == Fail(FatalError) && State() == old(State())
      ensures r.Ok? ==>
        && r.value == Obj(old(nextId), recipe.cls.name) && r.value.id < nextId
        && Built(world, recipe, args, share, sup, cache, constructed, r.value.id)
      decreases fuel, 4
    {
      sup := Supply([], []);
      if recipe.cls.isInterface {
        return Fail(InvalidArgument), sup;
      }
      if recipe.cls.isAbstract {
        return Fail(FatalError), sup;
      }
      var obj := Obj(nextId, recipe.cls.name);
      nextId := nextId + 1;
      if recipe.cls.ctor.Some? {
        var a;
        a, sup := ResolveArgs(recipe, recipe.cls.ctor.value, args, share, fuel);
        if a.Fail? {
          return Fail(a.err), sup;
        }
        if !world.accepts(recipe.cls.name, a.value) {
          return Fail(FatalError), sup;
        }
        constructed := constructed[obj.id := a.value];
      }
      return Ok(obj), sup;
    }

    /** The values the closure `getParams` returns draws its arguments
        from: `$args`, then the rule's expanded `parameters`, then `$share`,
        merged only when there are shared instances or parameters. */
    method ArgPool(recipe: Recipe, args: seq<PVal>, share: seq<PVal>, fuel: nat) returns (r: Res<seq<PVal>>)
      requires Valid() && recipe.rule.Arr? && Wf(recipe.rule) && WfAll(args) && WfAll(share)
      modifies this
      ensures Valid() && Grows(old(State()), State())
      ensures r.Ok? ==> WfAll(r.value) && PoolOf(recipe.rule, args, share, r.value)
      ensures |share| == 0 && !IsSet(recipe.rule, ParametersKey) ==> r == Ok(args) && State() == old(State())
      decreases fuel, 2
    {
      if |share| == 0 && !IsSet(recipe.rule, ParametersKey) {
        assert args + share == args;
        return Ok(args);
      }
      if !IsSet(recipe.rule, ParametersKey) {
        return Ok(args + share);
      }
      var e := Expand(recipe.rule.vals[ParametersKey], share, false, fuel);
      if e.Fail? {
        return Fail(e.err);
      }
      if !e.value.Arr? {
        return Fail(FatalError);
      }
      var p := args + Values(e.value) + share;
      assert e.value.Arr? && Wf(e.value) && Expands(recipe.rule.vals[ParametersKey], false, e.value) && p == args + Values(e.value) + share;
      return Ok(p);
    }

    /** The argument one slot of the plan gives: a class-hinted parameter
        nothing fits gets its substitution, expanded with strings created, or
        else a new dependency created with `$share`, and an
        InvalidArgumentException from either drops the argument; the next
        supplied value is expanded. `o` is what the slot produced. */
    method Fill(recipe: Recipe, slot: Slot, share: seq<PVal>, fuel: nat) returns (r: Res<seq<PVal>>, ghost o: Outcome)
      requires Valid() && recipe.rule.Arr? && Wf(recipe.rule) && WfAll(share)
      requires slot.Positional? ==> Wf(slot.v)
      modifies this
      ensures Valid() && Grows(old(State()), State())
      ensures r.Ok? ==> r.value == Piece(slot, o) && Fitted(recipe.rule, slot, o, cache)
      ensures slot.Fallback? ==>
        r == (if o.value.Ok? then Ok([o.value.value]) else if o.value.err == InvalidArgument then Ok([]) else Fail(o.value.err))
      ensures slot.Fallback? && !Substitutes(recipe.rule, slot.cls) ==>
        && o.before == old(instances)
        && (o.value.Ok? ==> CreateResult(world, slot.cls, [], share, o.value.value, o, cache, constructed))
      decreases fuel, 2, 0
    {
      o := Outcome(Fail(FatalError), instances, Build(share, Null, Supply([], [])));
      match slot {
        case Matched(v) =>
          return Ok([v]), o;
        case Default(v) =>
          return Ok([v]), o;
        case Rest(vs) =>
          return Ok(vs), o;
        case Positional(v) =>
          var e := Expand(v, [], false, fuel);
          o := o.(value := e);
          if e.Fail? {
            return Fail(e.err), o;
          }
          return Ok([e.value]), o;
        case Fallback(cls) =>
          var m: Res<PVal>;
          if Substitutes(recipe.rule, cls) {
            m := Expand(recipe.rule.vals[SubstitutionsKey].vals[StrKey(cls)], share, true, fuel);
            o := o.(value := m);
          } else {
            ghost var ob;
            m, ob := Create(cls, [], share, fuel);
            o := o.(value := m, b := ob);
          }
          if m.Ok? {
            return Ok([m.value]), o;
          } else if m.err == InvalidArgument {
            return Ok([]), o;
          }
          return Fail(m.err), o;
      }
    }

    /** One more slot's argument, appended to those of the slots before. */
    method FillNext(recipe: Recipe, slot: Slot, share: seq<PVal>, ghost done: seq<Slot>, outs: seq<PVal>,
                    ghost fills: seq<Outcome>, fuel: nat)
      returns (r: Res<seq<PVal>>, ghost o: Outcome)
      requires Valid() && recipe.rule.Arr? && Wf(recipe.rule) && WfAll(share)
      requires slot.Positional? ==> Wf(slot.v)
      requires Resolved(recipe.rule, done, outs, fills, cache)
      modifies this
      ensures Valid() && Grows(old(State()), State())
      ensures r.Ok? ==> Resolved(recipe.rule, done + [slot], r.value, fills + [o], cache)
      decreases fuel, 2, 1
    {
      ghost var before := cache;
      var extra;
      extra, o := Fill(recipe, slot, share, fuel);
      if extra.Fail? {
        return Fail(extra.err), o;
      }
      ResolvedGrows(recipe.rule, done, outs, fills, before, cache);
      ResolvedSnoc(recipe.rule, done, outs, fills, slot, o, cache);
      return Ok(outs + extra.value), o;
    }

    /** The closure `getParams` returns, called with `$args` and `$share`:
        each parameter in turn takes its slot of the plan over the pool of
        supplied values, and the slot's argument is produced. */
    method ResolveArgs(recipe: Recipe, ps: seq<ParamInfo>, args: seq<PVal>, share: seq<PVal>, fuel: nat)
      returns (r: Res<seq<PVal>>, ghost sup: Supply)
      requires Valid() && recipe.rule.Arr? && Wf(recipe.rule) && WfAll(args) && WfAll(share)
      modifies this
      ensures Valid() && Grows(old(State()), State())
      ensures r.Ok? ==>
        && PoolOf(recipe.rule, args, share, sup.pool)
        && Resolved(recipe.rule, Plan(world, ps, sup.pool).0, r.value, sup.fills, cache)
      decreases fuel, 3
    {
      var supplied := ArgPool(recipe, args, share, fuel);
      if supplied.Fail? {
        return Fail(supplied.err), Supply(args, []);
      }
      var p := supplied.value;
      ghost var pool := p;
      ghost var s0 := old(State());
      ghost var done: seq<Slot> := [];
      ghost var fills: seq<Outcome> := [];
      var outs: seq<PVal> := [];
      var i := 0;
      while i < |ps|
        invariant i <= |ps|
        invariant Valid() && Grows(s0, State()) && WfAll(p)
        invariant Plan(world, ps, pool).0 == done + Plan(world, ps[i..], p).0
        invariant Resolved(recipe.rule, done, outs, fills, cache)
      {
        var (slot, rest) := Take(world, ps[i], p);
        PlanAdvance(world, ps, pool, i, done, p);
        TakeWf(world, ps[i], p);
        var more;
        ghost var o;
        more, o := FillNext(recipe, slot, share, done, outs, fills, fuel);
        if more.Fail? {
          return Fail(more.err), Supply(pool, fills);
        }
        outs := more.value;
        done := done + [slot];
        fills := fills + [o];
        p := rest;
        i := i + 1;
      }
      assert ps[i..] == [];
      assert Plan(world, ps, pool).0 == done;
      return Ok(outs), Supply(pool, fills);
    }

    /** `expand($param, $share, $createFromString)`: `CI::INSTANCE` creates
        (or calls) what it names, `CI::GENERAL` yields its value, `CI::FIXED`
        calls an undefined function, any other array is expanded element by
        element keeping its keys, and a string is created when asked to. */
    method Expand(v: PVal, share: seq<PVal>, createFromString: bool, fuel: nat) returns (r: Res<PVal>)
      requires Valid() && Wf(v) && WfAll(share)
      modifies this
      ensures Valid() && Grows(old(State()), State())
      ensures r.Ok? ==> Wf(r.value) && Expands(v, createFromString, r.value)
      ensures !v.Arr? && !(createFromString && v.Str?) ==> r == Ok(v) && State() == old(State())
      ensures v.Arr? && !IsSet(v, InstanceKey) && IsSet(v, GeneralKey) ==>
        r == Ok(v.vals[GeneralKey]) && State() == old(State())
      ensures v.Arr? && !IsSet(v, InstanceKey) && !IsSet(v, GeneralKey) && IsSet(v, FixedKey) ==>
        r == Fail(FatalError) && State() == old(State())
      decreases fuel, 1, v, 2
    {
      if v.Arr? {
        if IsSet(v, InstanceKey) {
          ghost var parts: (PVal, PVal);
          ghost var o;
          r, parts, o := ExpandInstance(v, share, fuel);
        } else if IsSet(v, GeneralKey) {
          r := Ok(v.vals[GeneralKey]);
        } else if IsSet(v, FixedKey) {
          r := Fail(FatalError);
        } else {
          r := ExpandElements(v, share, fuel);
        }
      } else if createFromString && v.Str? {
        ghost var ob;
        r, ob := Create(v.s, [], [], fuel);
      } else {
        r := Ok(v);
      }
    }

    /** `expand` on `['CI::INSTANCE' => ...]`: the name is created with the
        expanded `params` followed by `$share`; the result is the name's
        stored shared instance, or what its closure built from those
        arguments, and `o` tells which, with the instances stored when the
        name was created. Calling a callable is outside the model. */
    method ExpandInstance(v: PVal, share: seq<PVal>, fuel: nat)
      returns (r: Res<PVal>, ghost parts: (PVal, PVal), ghost o: Outcome)
      requires Valid() && Wf(v) && WfAll(share) && IsSet(v, InstanceKey)
      modifies this
      ensures Valid() && Grows(old(State()), State())
      ensures r.Ok? ==> Created(r.value) && (r.value.Obj? ==> r.value.id < nextId)
      ensures r.Ok? ==>
        && InstancePartsOf(v, parts) && !world.isCallable(parts.0) && parts.1.Arr? && Wf(parts.1)
        && NameOf(parts.0).Some?
        && o.value == r
        && CreateResult(world, NameOf(parts.0).value, Values(parts.1) + share, [], r.value, o, cache, constructed)
      decreases fuel, 1, v, 1
    {
      o := Outcome(Fail(FatalError), instances, Build([], Null, Supply([], [])));
      var ps := InstanceParts(v, share, fuel);
      if ps.Fail? {
        return Fail(ps.err), (Null, Empty), o;
      }
      parts := ps.value;
      var (inst, a) := ps.value;
      if world.isCallable(inst) {
        return Fail(ForeignCall), parts, o;
      }
      if !a.Arr? {
        return Fail(FatalError), parts, o;
      }
      var name := NameOf(inst);
      if name.None? {
        return Fail(FatalError), parts, o;
      }
      ghost var before := instances;
      ghost var b;
      r, b := Create(name.value, Values(a) + share, [], fuel);
      o := Outcome(r, before, b);
    }

    /** What `CI::INSTANCE` names and the parameters it is created with:
        the `params` are expanded, and the first element of an array
        callback is expanded with strings created. */
    method InstanceParts(v: PVal, share: seq<PVal>, fuel: nat) returns (r: Res<(PVal, PVal)>)
      requires Valid() && Wf(v) && WfAll(share) && IsSet(v, InstanceKey)
      modifies this
      ensures Valid() && Grows(old(State()), State())
      ensures r.Ok? ==> Wf(r.value.1) && InstancePartsOf(v, r.value)
      decreases fuel, 1, v, 0
    {
      var a := Empty;
      if IsSet(v, ParamsKey) {
        var e := Expand(v.vals[ParamsKey], [], false, fuel);
        if e.Fail? {
          return Fail(e.err);
        }
        a := e.value;
      }
      var inst := v.vals[InstanceKey];
      if inst.Arr? {
        var first := Ok(Null);
        if IntKey(0) in inst.vals {
          first := Expand(inst.vals[IntKey(0)], share, true, fuel);
        }
        if first.Fail? {
          return Fail(first.err);
        }
        inst := Put(inst, IntKey(0), first.value);
      }
      return Ok((inst, a));
    }

    /** `expand` on a plain array: every element is expanded in place, in
        key order, keeping its key. */
    method ExpandElements(v: PVal, share: seq<PVal>, fuel: nat) returns (r: Res<PVal>)
      requires Valid() && Wf(v) && WfAll(share) && Plain(v)
      modifies this
      ensures Valid() && Grows(old(State()), State())
      ensures r.Ok? ==> Wf(r.value) && Expands(v, false, r.value)
      decreases fuel, 1, v, 0
    {
      ghost var s0 := old(State());
      var out := v;
      var i := 0;
      while i < |v.keys|
        invariant i <= |v.keys|
        invariant out.Arr? && out.keys == v.keys && Wf(out)
        invariant forall j :: 0 <= j < i ==>
          v.keys[j] in v.vals && v.keys[j] in out.vals && Expands(v.vals[v.keys[j]], false, out.vals[v.keys[j]])
        invariant Valid() && Grows(s0, State())
      {
        var key := v.keys[i];
        KeyAt(v, i);
        var e := Expand(v.vals[key], share, false, fuel);
        if e.Fail? {
          return e;
        }
        assert key in out.keys;
        out := Put(out, key, e.value);
        i := i + 1;
      }
      return Ok(out);
    }
  }
}
