/** How the closure built by `getParams` in src/Support/Dice.php decides,
    parameter by parameter, where each constructor argument comes from.
    The decisions depend only on the parameters and the pool of supplied
    values, never on what a created dependency turns out to be, so they are
    computed here as a pure plan; the container executes the plan and
    performs the creations. */
module DiceArgs {
  import opened PhpValues
  import opened DiceWorld

  /** Where one parameter's argument comes from: a supplied value matched by
      type, a dependency of the hinted class to create, all remaining
      supplied values (a variadic parameter), the next supplied value, or
      the parameter's default. */
  datatype Slot =
    | Matched(v: PVal)
    | Fallback(cls: string)
    | Rest(vs: seq<PVal>)
    | Positional(v: PVal)
    | Default(v: PVal)

  /** A supplied value fits a class-hinted parameter: it is an instance of
      the class, or it is null and the parameter allows null. */
  predicate Accepts(w: World, p: ParamInfo, v: PVal) {
    p.hint.ClassHint? && (InstanceOf(w, v, p.hint.cls) || (v == Null && p.allowsNull))
  }

  /** The first supplied value from position `i` on that fits `p`. */
  function FirstAccepted(w: World, p: ParamInfo, pool: seq<PVal>, i: nat): (r: Option<nat>)
    requires i <= |pool|
    ensures r.Some? ==> i <= r.value < |pool| && Accepts(w, p, pool[r.value])
    ensures r.Some? ==> forall j :: i <= j < r.value ==> !Accepts(w, p, pool[j])
    ensures r.None? ==> forall j :: i <= j < |pool| ==> !Accepts(w, p, pool[j])
    decreases |pool| - i
  {
    if i == |pool| then None
    else if Accepts(w, p, pool[i]) then Some(i)
    else FirstAccepted(w, p, pool, i + 1)
  }

  /** A parameter without a class hint takes the next supplied value when
      there is one and the parameter has no type, or the value passes the
      `is_<type>` check of its type. */
  predicate TakesNext(w: World, p: ParamInfo, pool: seq<PVal>) {
    |pool| > 0 && (p.hint.NoHint? || (p.hint.TypeHint? && w.isType(p.hint.name, pool[0])))
  }

  /** The supplied values a slot uses up. */
  function Used(s: Slot): multiset<PVal> {
    match s
    case Matched(v) => multiset{v}
    case Positional(v) => multiset{v}
    case _ => multiset{}
  }

  /** One pass of the parameter loop: the slot for `p` and the supplied
      values left for the parameters after it. */
  function Take(w: World, p: ParamInfo, pool: seq<PVal>): (r: (Slot, seq<PVal>))
    ensures r.0.Matched? || r.0.Fallback? <==> p.hint.ClassHint?
    ensures r.0.Rest? <==> !p.hint.ClassHint? && p.variadic
    ensures r.0.Positional? <==> !p.hint.ClassHint? && !p.variadic && TakesNext(w, p, pool)
    ensures r.0.Matched? ==> Accepts(w, p, r.0.v)
    ensures r.0.Fallback? ==> r.0.cls == p.hint.cls && r.1 == pool && forall j :: 0 <= j < |pool| ==> !Accepts(w, p, pool[j])
    ensures r.0.Rest? ==> r.0.vs == pool && r.1 == pool
    ensures r.0.Positional? ==> r.0.v == pool[0] && r.1 == pool[1..]
    ensures r.0.Default? ==> r.1 == pool && r.0.v == (if p.default.Some? then p.default.value else Null)
  {
    if p.hint.ClassHint? then
      match FirstAccepted(w, p, pool, 0)
      case Some(i) =>
        (Matched(pool[i]), pool[..i] + pool[i + 1..])
      case None => (Fallback(p.hint.cls), pool)
    else if p.variadic then (Rest(pool), pool)
    else if TakesNext(w, p, pool) then
      (Positional(pool[0]), pool[1..])
    else (Default(if p.default.Some? then p.default.value else Null), pool)
  }

  /** A pass of the loop neither duplicates nor drops a supplied value. */
  lemma TakeConserves(w: World, p: ParamInfo, pool: seq<PVal>)
    ensures Used(Take(w, p, pool).0) + multiset(Take(w, p, pool).1) == multiset(pool)
  {
    if p.hint.ClassHint? {
      var f := FirstAccepted(w, p, pool, 0);
      if f.Some? {
        SplitAt(pool, f.value);
      }
    } else if !p.variadic && TakesNext(w, p, pool) {
      SplitAt(pool, 0);
    }
  }

  lemma SplitAt<T>(s: seq<T>, i: nat)
    requires i < |s|
    ensures multiset(s) == multiset(s[..i]) + multiset{s[i]} + multiset(s[i + 1..])
  {
    assert s == s[..i] + [s[i]] + s[i + 1..];
  }

  /** The slots for all parameters, in order, and what is left of the pool. */
  function Plan(w: World, params: seq<ParamInfo>, pool: seq<PVal>): (r: (seq<Slot>, seq<PVal>))
    ensures |r.0| == |params|
    decreases |params|
  {
    if params == [] then ([], pool)
    else
      var (s, rest) := Take(w, params[0], pool);
      var (ss, left) := Plan(w, params[1..], rest);
      ([s] + ss, left)
  }

  /** The values used up by a sequence of slots. */
  function UsedAll(slots: seq<Slot>): multiset<PVal> {
    if slots == [] then multiset{} else Used(slots[0]) + UsedAll(slots[1..])
  }

  /** No supplied value is used twice and none is lost: what the slots use
      and what is left over are exactly the pool. */
  lemma {:induction false} PlanConserves(w: World, params: seq<ParamInfo>, pool: seq<PVal>)
    ensures UsedAll(Plan(w, params, pool).0) + multiset(Plan(w, params, pool).1) == multiset(pool)
    decreases |params|
  {
    if params != [] {
      var (s, rest) := Take(w, params[0], pool);
      TakeConserves(w, params[0], pool);
      PlanConserves(w, params[1..], rest);
      assert Plan(w, params, pool).0[1..] == Plan(w, params[1..], rest).0;
    }
  }

  /** The plan is the loop unrolled: the slot of parameter `i` is the one
      `Take` gives on what the earlier parameters left. */
  lemma PlanStep(w: World, params: seq<ParamInfo>, pool: seq<PVal>)
    requires params != []
    ensures Plan(w, params, pool).0 == [Take(w, params[0], pool).0] + Plan(w, params[1..], Take(w, params[0], pool).1).0
    ensures Plan(w, params, pool).1 == Plan(w, params[1..], Take(w, params[0], pool).1).1
  {
  }

  /** One more parameter of the loop: the slots so far and the plan for
      the remaining parameters over what is left of the pool still make up
      the whole plan. */
  lemma PlanAdvance(w: World, params: seq<ParamInfo>, pool: seq<PVal>, i: nat, done: seq<Slot>, left: seq<PVal>)
    requires i < |params|
    requires Plan(w, params, pool).0 == done + Plan(w, params[i..], left).0
    ensures Plan(w, params, pool).0
      == (done + [Take(w, params[i], left).0]) + Plan(w, params[i + 1..], Take(w, params[i], left).1).0
  {
    PlanStep(w, params[i..], left);
    assert params[i..][0] == params[i] && params[i..][1..] == params[i + 1..];
  }

  /** The values a pass of the loop leaves, and the one it passes on
      unchanged, are well-formed when the pool is. */
  lemma TakeWf(w: World, p: ParamInfo, pool: seq<PVal>)
    requires WfAll(pool)
    ensures WfAll(Take(w, p, pool).1)
    ensures Take(w, p, pool).0.Positional? ==> Wf(Take(w, p, pool).0.v)
  {
    if p.hint.ClassHint? {
      var f := FirstAccepted(w, p, pool, 0);
      if f.Some? {
        var rest := pool[..f.value] + pool[f.value + 1..];
        forall j | 0 <= j < |rest| ensures Wf(rest[j]) {
          if j < f.value {
            assert rest[j] == pool[j];
          } else {
            assert rest[j] == pool[j + 1];
          }
        }
      }
    }
  }

  /** Untyped, non-variadic parameters take the supplied values in order,
      one each, when there are enough of them. */
  lemma {:induction false} UntypedInOrder(w: World, params: seq<ParamInfo>, pool: seq<PVal>)
    requires forall i :: 0 <= i < |params| ==> params[i].hint.NoHint? && !params[i].variadic
    requires |params| <= |pool|
    ensures forall i :: 0 <= i < |params| ==> Plan(w, params, pool).0[i] == Positional(pool[i])
    ensures Plan(w, params, pool).1 == pool[|params|..]
    decreases |params|
  {
    if params != [] {
      UntypedInOrder(w, params[1..], pool[1..]);
      forall i | 0 <= i < |params|
        ensures Plan(w, params, pool).0[i] == Positional(pool[i])
      {
        if i > 0 {
          assert Plan(w, params, pool).0[i] == Plan(w, params[1..], pool[1..]).0[i - 1];
        }
      }
    }
  }

  /** A class-hinted parameter takes the first supplied value that fits it,
      wherever that value stands, and the value is removed from the pool. */
  lemma TakeFirstFit(w: World, p: ParamInfo, pool: seq<PVal>, i: nat)
    requires p.hint.ClassHint? && i < |pool| && Accepts(w, p, pool[i])
    requires forall j :: 0 <= j < i ==> !Accepts(w, p, pool[j])
    ensures Take(w, p, pool) == (Matched(pool[i]), pool[..i] + pool[i + 1..])
  {
    var f := FirstAccepted(w, p, pool, 0);
    assert f.Some?;
  }

  /** An argument list fits a plan: a matched, default or positional slot
      gives one argument (a positional value that is not an array is passed
      unchanged), a fallback gives one or, when creating it threw an
      InvalidArgumentException, none, and a variadic slot gives the values
      left in the pool. */
  predicate Conforms(outs: seq<PVal>, slots: seq<Slot>)
    decreases |slots|
  {
    if slots == [] then outs == []
    else
      var init := slots[..|slots| - 1];
      var n := |outs|;
      match slots[|slots| - 1]
      case Matched(v) => n > 0 && outs[n - 1] == v && Conforms(outs[..n - 1], init)
      case Default(v) => n > 0 && outs[n - 1] == v && Conforms(outs[..n - 1], init)
      case Positional(v) => n > 0 && (!v.Arr? ==> outs[n - 1] == v) && Conforms(outs[..n - 1], init)
      case Fallback(_) => Conforms(outs, init) || (n > 0 && Conforms(outs[..n - 1], init))
      case Rest(vs) => n >= |vs| && outs[n - |vs|..] == vs && Conforms(outs[..n - |vs|], init)
  }

  /** The one argument a slot gives when it gives exactly one known value. */
  predicate Simple(s: Slot) {
    s.Matched? || s.Default? || (s.Positional? && !s.v.Arr?)
  }

  function SimpleValue(s: Slot): PVal
    requires Simple(s)
  {
    s.v
  }

  /** When every slot is simple, the arguments are exactly the slots'
      values, one per parameter, in parameter order. */
  lemma {:induction false} ConformsSimple(outs: seq<PVal>, slots: seq<Slot>)
    requires forall i :: 0 <= i < |slots| ==> Simple(slots[i])
    requires Conforms(outs, slots)
    ensures |outs| == |slots|
    ensures forall i :: 0 <= i < |slots| ==> outs[i] == SimpleValue(slots[i])
    decreases |slots|
  {
    if slots != [] {
      var n := |outs|;
      ConformsSimple(outs[..n - 1], slots[..|slots| - 1]);
    }
  }

  /** The arguments `extra` are what `Conforms` allows one slot to give. */
  predicate Gives(s: Slot, extra: seq<PVal>) {
    match s
    case Matched(v) => extra == [v]
    case Default(v) => extra == [v]
    case Positional(v) => |extra| == 1 && (!v.Arr? ==> extra[0] == v)
    case Fallback(_) => |extra| <= 1
    case Rest(vs) => extra == vs
  }

  /** Appending the argument of one more slot keeps the list fitting the
      plan. */
  lemma ConformsSnoc(outs: seq<PVal>, slots: seq<Slot>, s: Slot, extra: seq<PVal>)
    requires Conforms(outs, slots) && Gives(s, extra)
    ensures Conforms(outs + extra, slots + [s])
  {
    assert (slots + [s])[..|slots|] == slots;
    var o := outs + extra;
    assert o[..|outs|] == outs;
    if s.Fallback? && extra == [] {
      assert o == outs;
    }
  }

  /** A list conforms to a plan when its last slot's arguments end it and
      the rest conforms to the slots before. */
  lemma ConformsLast(outs: seq<PVal>, slots: seq<Slot>, extra: seq<PVal>)
    requires slots != [] && |extra| <= |outs| && outs[|outs| - |extra|..] == extra
    requires Conforms(outs[..|outs| - |extra|], slots[..|slots| - 1]) && Gives(slots[|slots| - 1], extra)
    ensures Conforms(outs, slots)
  {
    if extra == [] {
      assert outs[..|outs|] == outs;
    }
  }
}
