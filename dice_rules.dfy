/** The rule registry of the Dice container (src/Support/Dice.php): how a
    rule is prepared and stored by `addRule` and which stored rule
    `getRule` hands out for a class name. */
module DiceRules {
  import opened PhpValues
  import opened PhpStrings
  import opened DiceWorld

  const InstanceOfKey: Key := StrKey("instanceOf")
  const InheritKey: Key := StrKey("inherit")
  const SubstitutionsKey: Key := StrKey("substitutions")
  const Wildcard: Key := StrKey("*")

  /** The stored rules: string keys, each holding an array. */
  ghost predicate Registry(rules: PVal) {
    rules.Arr? && Wf(rules) && StringKeyed(rules) && forall k :: k in rules.vals ==> rules.vals[k].Arr?
  }

  /** The key `addRule` stores a rule under. */
  function StorageKey(name: string): string {
    LTrim(ToLower(name), '\\')
  }

  /** A rule passes to subclasses, and takes its alias's rule, unless its
      `inherit` entry exists and is not `true`. */
  predicate Inherits(rule: PVal) {
    !HasKey(rule, InheritKey) || rule.vals[InheritKey] == Bool(true)
  }

  /** The rule stored under `key` applies to `name` as a parent's rule: it
      is no named instance, not the default rule, its key is a strict
      superclass of `name` and it is inherited. */
  predicate InheritedMatch(w: World, key: Key, rule: PVal, name: string) {
    && !Truthy(Get(rule, InstanceOfKey))
    && key != Wildcard
    && key.StrKey?
    && IsSubclassOf(w, name, key.s)
    && Inherits(rule)
  }

  /** The `i`-th registered rule applies to `name` as a parent's rule. */
  predicate MatchAt(w: World, rules: PVal, name: string, i: nat)
    requires rules.Arr? && i < |rules.keys|
  {
    InheritedMatch(w, rules.keys[i], Get(rules, rules.keys[i]), name)
  }

  /** The first rule from position `i` on, in registration order, that
      applies to `name` as a parent's rule. */
  function FirstInherited(w: World, rules: PVal, name: string, i: nat): (r: Option<nat>)
    requires rules.Arr? && i <= |rules.keys|
    ensures r.Some? ==> i <= r.value < |rules.keys| && MatchAt(w, rules, name, r.value)
    ensures r.Some? ==> forall j :: i <= j < r.value ==> !MatchAt(w, rules, name, j)
    ensures r.None? ==> forall j :: i <= j < |rules.keys| ==> !MatchAt(w, rules, name, j)
    decreases |rules.keys| - i
  {
    if i == |rules.keys| then None
    else if MatchAt(w, rules, name, i) then Some(i)
    else FirstInherited(w, rules, name, i + 1)
  }

  /** `getRule($name)`: the exact entry, else the first inherited parent's
      rule, else the `*` rule, else `[]`. */
  function RuleFor(w: World, rules: PVal, name: string): (r: PVal)
    requires Registry(rules)
    ensures r.Arr? && Wf(r)
  {
    var exact := StrKey(Canon(name));
    if IsSet(rules, exact) then rules.vals[exact]
    else match FirstInherited(w, rules, name, 0)
      case Some(i) => rules.vals[rules.keys[i]]
      case None => if IsSet(rules, Wildcard) then rules.vals[Wildcard] else Empty
  }

  /** The lookup order of `getRule`, case by case. */
  lemma RuleForOrder(w: World, rules: PVal, name: string)
    requires Registry(rules)
    ensures IsSet(rules, StrKey(Canon(name))) ==> RuleFor(w, rules, name) == rules.vals[StrKey(Canon(name))]
    ensures !IsSet(rules, StrKey(Canon(name))) && (exists i :: 0 <= i < |rules.keys| && MatchAt(w, rules, name, i)) ==>
      exists i :: 0 <= i < |rules.keys| && MatchAt(w, rules, name, i)
        && (forall j :: 0 <= j < i ==> !MatchAt(w, rules, name, j))
        && RuleFor(w, rules, name) == rules.vals[rules.keys[i]]
    ensures !IsSet(rules, StrKey(Canon(name))) && (forall i :: 0 <= i < |rules.keys| ==> !MatchAt(w, rules, name, i)) ==>
      RuleFor(w, rules, name) == (if IsSet(rules, Wildcard) then rules.vals[Wildcard] else Empty)
  {
    var f := FirstInherited(w, rules, name, 0);
    if f.Some? {
      assert MatchAt(w, rules, name, f.value);
    }
  }

  /** The scan sees a name only through its canonical spelling. */
  lemma {:induction false} FirstInheritedCanon(w: World, rules: PVal, a: string, b: string, i: nat)
    requires rules.Arr? && i <= |rules.keys| && Canon(a) == Canon(b)
    ensures FirstInherited(w, rules, a, i) == FirstInherited(w, rules, b, i)
    decreases |rules.keys| - i
  {
    if i < |rules.keys| {
      assert MatchAt(w, rules, a, i) == MatchAt(w, rules, b, i);
      FirstInheritedCanon(w, rules, a, b, i + 1);
    }
  }

  /** Any case or leading-backslash variant of a name gets the same rule. */
  lemma RuleForVariant(w: World, rules: PVal, a: string, b: string)
    requires Registry(rules) && Canon(a) == Canon(b)
    ensures RuleFor(w, rules, a) == RuleFor(w, rules, b)
  {
    FirstInheritedCanon(w, rules, a, b, 0);
  }

  // ---------------------------------------------------------------------
  // Preparing and storing a rule
  // ---------------------------------------------------------------------

  /** `ltrim($key, '\\')` for an array key, read as a string. */
  function KeyText(k: Key): string {
    match k
    case StrKey(s) => s
    case IntKey(i) => IntToString(i)
  }

  /** The first step of `addRule`: a rule naming `instanceOf` and inherited
      has the aliased type's current rule merged underneath it. */
  function Aliased(w: World, rules: PVal, rule: PVal): (r: PVal)
    requires Registry(rules) && rule.Arr? && Wf(rule)
    requires IsSet(rule, InstanceOfKey) ==> rule.vals[InstanceOfKey].Str?
    ensures r.Arr? && Wf(r)
  {
    if IsSet(rule, InstanceOfKey) && Inherits(rule)
    then Replace(RuleFor(w, rules, rule.vals[InstanceOfKey].s), rule)
    else rule
  }

  /** The loop over `substitutions` in `addRule`, after its first `n`
      entries: each value is written at the TOP level of the rule under its
      key with leading backslashes removed. */
  function Lifted(rule: PVal, subs: PVal, n: nat): (r: PVal)
    requires rule.Arr? && subs.Arr? && Wf(subs) && n <= |subs.keys|
    ensures r.Arr? && (Wf(rule) ==> Wf(r))
  {
    if n == 0 then rule
    else
      var k := subs.keys[n - 1];
      Put(Lifted(rule, subs, n - 1), StrKey(LTrim(KeyText(k), '\\')), subs.vals[k])
  }

  /** The rule `addRule` merges into the store: aliased, then with its
      substitutions lifted. A `substitutions` entry that is not an array is
      not iterated. */
  function Prepared(w: World, rules: PVal, rule: PVal): (r: PVal)
    requires Registry(rules) && rule.Arr? && Wf(rule)
    requires IsSet(rule, InstanceOfKey) ==> rule.vals[InstanceOfKey].Str?
    ensures r.Arr? && Wf(r)
  {
    var a := Aliased(w, rules, rule);
    if IsSet(a, SubstitutionsKey) && a.vals[SubstitutionsKey].Arr?
    then Lifted(a, a.vals[SubstitutionsKey], |a.vals[SubstitutionsKey].keys|)
    else a
  }

  /** The store after `addRule($name, $rule)`. */
  function AddedRule(w: World, rules: PVal, name: string, rule: PVal): (r: PVal)
    requires Registry(rules) && rule.Arr? && Wf(rule)
    requires IsSet(rule, InstanceOfKey) ==> rule.vals[InstanceOfKey].Str?
    ensures Registry(r)
  {
    var merged := Replace(RuleFor(w, rules, name), Prepared(w, rules, rule));
    Put(rules, StrKey(StorageKey(name)), merged)
  }

  /** An `inherit` entry other than `true` skips the alias merge. */
  lemma InheritFalseSkipsAlias(w: World, rules: PVal, rule: PVal)
    requires Registry(rules) && rule.Arr? && Wf(rule)
    requires IsSet(rule, InstanceOfKey) ==> rule.vals[InstanceOfKey].Str?
    requires HasKey(rule, InheritKey) && rule.vals[InheritKey] != Bool(true)
    ensures Aliased(w, rules, rule) == rule
  {
  }

  /** With the alias merged underneath, the rule's own entries win and the
      aliased rule's other entries survive. */
  lemma AliasMerge(w: World, rules: PVal, rule: PVal, k: Key)
    requires Registry(rules) && rule.Arr? && Wf(rule)
    requires IsSet(rule, InstanceOfKey) && rule.vals[InstanceOfKey].Str? && Inherits(rule)
    ensures var base := RuleFor(w, rules, rule.vals[InstanceOfKey].s);
      && (k in rule.vals ==> Aliased(w, rules, rule).vals[k] == Merged(base, k, rule.vals[k]))
      && (k !in rule.vals && k in base.vals ==> Aliased(w, rules, rule).vals[k] == base.vals[k])
      && (k in Aliased(w, rules, rule).vals <==> k in rule.vals || k in base.vals)
  {
    ReplaceEntry(RuleFor(w, rules, rule.vals[InstanceOfKey].s), rule, k);
  }

  /** A lifted substitution lands at the top level under its trimmed key,
      unless a later substitution lands on the same key. */
  lemma {:induction false} LiftedEntry(rule: PVal, subs: PVal, n: nat, i: nat)
    requires rule.Arr? && subs.Arr? && Wf(subs) && i < n <= |subs.keys|
    requires forall j :: i < j < n ==> LTrim(KeyText(subs.keys[j]), '\\') != LTrim(KeyText(subs.keys[i]), '\\')
    ensures var t := StrKey(LTrim(KeyText(subs.keys[i]), '\\'));
      t in Lifted(rule, subs, n).vals && Lifted(rule, subs, n).vals[t] == subs.vals[subs.keys[i]]
    decreases n
  {
    if i < n - 1 {
      LiftedEntry(rule, subs, n - 1, i);
    }
  }

  /** Lifting leaves alone every top-level key that no substitution key
      trims to; in particular the `substitutions` map consulted when
      parameters are resolved keeps its original keys. */
  lemma {:induction false} LiftedKeepsOthers(rule: PVal, subs: PVal, n: nat, k: Key)
    requires rule.Arr? && subs.Arr? && Wf(subs) && n <= |subs.keys|
    requires forall j :: 0 <= j < n ==> StrKey(LTrim(KeyText(subs.keys[j]), '\\')) != k
    ensures k in Lifted(rule, subs, n).vals <==> k in rule.vals
    ensures k in rule.vals ==> Lifted(rule, subs, n).vals[k] == rule.vals[k]
    decreases n
  {
    if n > 0 {
      LiftedKeepsOthers(rule, subs, n - 1, k);
    }
  }

  /** After `addRule`, every case or leading-backslash variant of the name
      gets exactly the rule just stored. */
  lemma GetAfterAdd(w: World, rules: PVal, name: string, rule: PVal, variant: string)
    requires Registry(rules) && rule.Arr? && Wf(rule)
    requires IsSet(rule, InstanceOfKey) ==> rule.vals[InstanceOfKey].Str?
    requires Canon(variant) == Canon(name)
    ensures RuleFor(w, AddedRule(w, rules, name, rule), variant)
      == Replace(RuleFor(w, rules, name), Prepared(w, rules, rule))
  {
    LowerTrimCommute(name);
  }

  /** Re-registering a name deep-merges: the new rule's entries win, the
      earlier rule's other entries survive. */
  lemma AddMerges(w: World, rules: PVal, name: string, rule: PVal, k: Key)
    requires Registry(rules) && rule.Arr? && Wf(rule)
    requires IsSet(rule, InstanceOfKey) ==> rule.vals[InstanceOfKey].Str?
    ensures var stored := RuleFor(w, AddedRule(w, rules, name, rule), name);
      var before := RuleFor(w, rules, name);
      var p := Prepared(w, rules, rule);
      && (k in stored.vals <==> k in p.vals || k in before.vals)
      && (k in p.vals ==> k in stored.vals && stored.vals[k] == Merged(before, k, p.vals[k]))
      && (k !in p.vals && k in before.vals ==> k in stored.vals && stored.vals[k] == before.vals[k])
  {
    GetAfterAdd(w, rules, name, rule, name);
    ReplaceEntry(RuleFor(w, rules, name), Prepared(w, rules, rule), k);
  }

  /** `addRule` stores the name's key and keeps every other key. */
  lemma AddedRuleKeys(w: World, rules: PVal, name: string, rule: PVal)
    requires Registry(rules) && rule.Arr? && Wf(rule)
    requires IsSet(rule, InstanceOfKey) ==> rule.vals[InstanceOfKey].Str?
    ensures AddedRule(w, rules, name, rule).vals.Keys == rules.vals.Keys + {StrKey(StorageKey(name))}
  {
  }

  /** `addRule` touches one entry of the store: a name registered before
      keeps its place, a new one goes last, and every other entry is
      unchanged. */
  lemma AddKeepsOthers(w: World, rules: PVal, name: string, rule: PVal, k: Key)
    requires Registry(rules) && rule.Arr? && Wf(rule)
    requires IsSet(rule, InstanceOfKey) ==> rule.vals[InstanceOfKey].Str?
    ensures var after := AddedRule(w, rules, name, rule);
      && (StrKey(StorageKey(name)) in rules.vals ==> after.keys == rules.keys)
      && (StrKey(StorageKey(name)) !in rules.vals ==> after.keys == rules.keys + [StrKey(StorageKey(name))])
      && (k != StrKey(StorageKey(name)) ==> (k in after.vals <==> k in rules.vals))
      && (k != StrKey(StorageKey(name)) && k in rules.vals ==> after.vals[k] == rules.vals[k])
  {
  }
}
