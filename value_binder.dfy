/** The placeholder binder of src/Database/Query/ValueBinder.php: a map from
    placeholder names to bound values and a counter that numbers the
    generated placeholders. */
module ValueBinding {
  import opened PhpValues
  import opened PhpStrings

  /** Whether `placeholder` numbers a token: one starting with `:`, `?`
      itself or `param`. The first character of `''` reads as `''`, which is
      not `:`. */
  predicate Counted(token: string) {
    (|token| > 0 && token[0] == ':') || token == "?" || token == "param"
  }

  /** The name `placeholder($token)` returns when the counter stands at `n`. */
  function PlaceholderText(token: string, n: nat): (r: string)
    ensures |r| > |token| && r[0] == ':'
  {
    if Counted(token) then ":" + token + NatToString(n) else ":" + token
  }

  /** A placeholder is `:` and the token, followed, for a counted token, by
      the counter's decimal digits. */
  lemma PlaceholderTextParts(token: string, n: nat)
    ensures var r := PlaceholderText(token, n);
      && r[1..|token| + 1] == token
      && (!Counted(token) ==> |r| == |token| + 1)
      && (Counted(token) ==> r[|token| + 1..] == NatToString(n) && IsDigits(r[|token| + 1..]))
  {
  }

  /** The counter after `placeholder` has been called on each of `tokens`,
      starting from `n`. */
  function CountAfter(tokens: seq<string>, n: nat): (r: nat)
    ensures n <= r <= n + |tokens|
  {
    if tokens == [] then n
    else CountAfter(tokens[..|tokens| - 1], n) + (if Counted(tokens[|tokens| - 1]) then 1 else 0)
  }

  /** The names those calls return, in order. */
  function Names(tokens: seq<string>, n: nat): (r: seq<string>)
    ensures |r| == |tokens|
  {
    if tokens == [] then []
    else
      var init := tokens[..|tokens| - 1];
      Names(init, n) + [PlaceholderText(tokens[|tokens| - 1], CountAfter(init, n))]
  }

  /** The bindings after binding `names[i]` to `values[i]` in order. */
  function BindAll(b: PVal, names: seq<string>, values: seq<PVal>): (r: PVal)
    requires b.Arr? && |names| == |values|
    ensures r.Arr?
    ensures Wf(b) && WfAll(values) ==> Wf(r)
  {
    if names == [] then b
    else
      var last := |names| - 1;
      Put(BindAll(b, names[..last], values[..last]), StrKey(names[last]), values[last])
  }

  /** The string keys of an array, in order. */
  function Tokens(keys: seq<Key>): (r: seq<string>)
    requires forall i :: 0 <= i < |keys| ==> keys[i].StrKey?
    ensures |r| == |keys| && forall i :: 0 <= i < |keys| ==> r[i] == keys[i].s
  {
    seq(|keys|, i requires 0 <= i < |keys| => keys[i].s)
  }

  class ValueBinder {
    var bindings: PVal
    var bindingsCount: nat

    ghost predicate Valid()
      reads this
    {
      bindings.Arr? && Wf(bindings)
    }

    constructor ()
      ensures Valid() && bindings == Empty && bindingsCount == 0
    {
      bindings := Empty;
      bindingsCount := 0;
    }

    /** `bind($param, $value)` */
    method Bind(param: Key, value: PVal)
      requires Valid() && Wf(value)
      modifies this
      ensures Valid()
      ensures bindings == Put(old(bindings), param, value) && bindingsCount == old(bindingsCount)
    {
      bindings := Put(bindings, param, value);
    }

    /** `placeholder($token)`; a call without an argument passes `"param"`. */
    method Placeholder(token: string) returns (r: string)
      modifies this
      ensures r == PlaceholderText(token, old(bindingsCount))
      ensures bindingsCount == old(bindingsCount) + (if Counted(token) then 1 else 0)
      ensures bindings == old(bindings)
    {
      if !Counted(token) {
        r := ":" + token;
      } else {
        var number := bindingsCount;
        bindingsCount := bindingsCount + 1;
        r := ":" + token + NatToString(number);
      }
    }

    /** `placeholders($values)` for an array with string keys: one named
        placeholder per entry, each bound to the entry's value. */
    method Placeholders(values: PVal) returns (r: PVal)
      requires Valid() && StringKeyed(values) && Wf(values)
      modifies this
      ensures Valid() && r.Arr? && Wf(r)
      ensures r.keys == values.keys
      ensures forall i :: 0 <= i < |values.keys| ==>
        r.vals[values.keys[i]] == Str(Names(Tokens(values.keys), old(bindingsCount))[i])
      ensures bindingsCount == CountAfter(Tokens(values.keys), old(bindingsCount))
      ensures bindings == BindAll(old(bindings), Names(Tokens(values.keys), old(bindingsCount)), Values(values))
    {
      ghost var tokens := Tokens(values.keys);
      ghost var names := Names(tokens, old(bindingsCount));
      ghost var vs := Values(values);
      ghost var b0 := bindings;
      r := Empty;
      var i := 0;
      while i < |values.keys|
        invariant 0 <= i <= |values.keys|
        invariant bindingsCount == CountAfter(tokens[..i], old(bindingsCount))
        invariant r == Listing(values.keys[..i], names[..i])
        invariant bindings == BindAll(b0, names[..i], vs[..i])
      {
        var key := values.keys[i];
        KeyAt(values, i);
        var param := Placeholder(key.s);
        CountPrefix(tokens, old(bindingsCount), i);
        NamesEntry(tokens, old(bindingsCount), i);
        ListingStep(values.keys, names, i);
        BindAllStep(b0, names, vs, i);
        bindings := Put(bindings, StrKey(param), values.vals[key]);
        r := Put(r, key, Str(param));
        i := i + 1;
      }
      assert values.keys[..i] == values.keys && names[..i] == names;
      assert tokens[..i] == tokens && vs[..i] == vs;
      ListingSpec(values.keys, names);
    }

    /** `bindings()` */
    method Bindings() returns (r: PVal)
      ensures r == bindings
    {
      r := bindings;
    }

    /** `reset()` */
    method Reset()
      modifies this
      ensures Valid() && bindings == Empty && bindingsCount == 0
    {
      bindings := Empty;
      bindingsCount := 0;
    }

    /** `resetCount()` */
    method ResetCount()
      modifies this
      ensures bindings == old(bindings) && bindingsCount == 0
    {
      bindingsCount := 0;
    }
  }

  /** The array `placeholders` returns: each key mapped to its name. */
  function Listing(keys: seq<Key>, names: seq<string>): (r: PVal)
    requires |keys| == |names|
    ensures r.Arr?
  {
    if keys == [] then Empty
    else
      var last := |keys| - 1;
      Put(Listing(keys[..last], names[..last]), keys[last], Str(names[last]))
  }

  lemma ListingStep(keys: seq<Key>, names: seq<string>, i: nat)
    requires |keys| == |names| && i < |keys|
    ensures Listing(keys[..i + 1], names[..i + 1]) == Put(Listing(keys[..i], names[..i]), keys[i], Str(names[i]))
  {
    assert keys[..i + 1][..i] == keys[..i];
    assert names[..i + 1][..i] == names[..i];
  }

  /** With distinct keys, the listing has exactly those keys, in order,
      each holding its own name. */
  lemma {:induction false} ListingSpec(keys: seq<Key>, names: seq<string>)
    requires |keys| == |names| && Distinct(keys)
    ensures Wf(Listing(keys, names)) && Listing(keys, names).keys == keys
    ensures forall j :: 0 <= j < |keys| ==> Listing(keys, names).vals[keys[j]] == Str(names[j])
    decreases |keys|
  {
    if keys != [] {
      var last := |keys| - 1;
      var ks, ns := keys[..last], names[..last];
      assert Distinct(ks);
      ListingSpec(ks, ns);
      var prev := Listing(ks, ns);
      assert keys[last] !in ks;
      assert keys[last] !in prev.vals;
      var l := Put(prev, keys[last], Str(names[last]));
      assert l.keys == ks + [keys[last]] == keys;
      forall j | 0 <= j < |keys|
        ensures l.vals[keys[j]] == Str(names[j])
      {
        if j < last {
          assert keys[j] == ks[j] && keys[j] != keys[last];
        }
      }
    }
  }

  lemma BindAllStep(b: PVal, names: seq<string>, values: seq<PVal>, i: nat)
    requires b.Arr? && |names| == |values| && i < |names|
    ensures BindAll(b, names[..i + 1], values[..i + 1]) == Put(BindAll(b, names[..i], values[..i]), StrKey(names[i]), values[i])
  {
    assert names[..i + 1][..i] == names[..i];
    assert values[..i + 1][..i] == values[..i];
  }

  /** One more token moves the counter by one exactly when it is counted. */
  lemma CountPrefix(tokens: seq<string>, n: nat, i: nat)
    requires i < |tokens|
    ensures CountAfter(tokens[..i + 1], n) == CountAfter(tokens[..i], n) + (if Counted(tokens[i]) then 1 else 0)
  {
    assert tokens[..i + 1][..i] == tokens[..i];
  }

  /** Each name is the placeholder of its token at the count the earlier
      tokens left behind. */
  lemma {:induction false} NamesEntry(tokens: seq<string>, n: nat, i: nat)
    requires i < |tokens|
    ensures Names(tokens, n)[i] == PlaceholderText(tokens[i], CountAfter(tokens[..i], n))
    decreases |tokens|
  {
    var last := |tokens| - 1;
    if i < last {
      NamesEntry(tokens[..last], n, i);
      assert tokens[..last][..i] == tokens[..i];
    } else {
      assert tokens[..last] == tokens[..i];
    }
  }

  /** The counter never goes back: a longer prefix leaves it at least as
      high, and strictly higher when a counted token lies between. */
  lemma {:induction false} CountAfterMonotone(tokens: seq<string>, n: nat, i: nat, j: nat)
    requires i < j <= |tokens|
    ensures CountAfter(tokens[..i], n) <= CountAfter(tokens[..j], n)
    ensures Counted(tokens[i]) ==> CountAfter(tokens[..i], n) < CountAfter(tokens[..j], n)
    decreases j - i
  {
    CountPrefix(tokens, n, j - 1);
    if i < j - 1 {
      CountAfterMonotone(tokens, n, i, j - 1);
    }
  }

  /** The same token numbered at two different counts gives two different
      names. */
  lemma SameTokenDistinct(token: string, a: nat, b: nat)
    requires Counted(token) && a != b
    ensures PlaceholderText(token, a) != PlaceholderText(token, b)
  {
    var pa, pb := PlaceholderText(token, a), PlaceholderText(token, b);
    if pa == pb {
      assert pa[|token| + 1..] == NatToString(a);
      assert pb[|token| + 1..] == NatToString(b);
      NatToStringInjective(a, b);
    }
  }

  /** Successive placeholders for the same counted token, until a reset,
      never repeat. */
  lemma SuccessiveNamesDistinct(tokens: seq<string>, n: nat, i: nat, j: nat)
    requires i < j < |tokens| && tokens[i] == tokens[j] && Counted(tokens[i])
    ensures Names(tokens, n)[i] != Names(tokens, n)[j]
  {
    NamesEntry(tokens, n, i);
    NamesEntry(tokens, n, j);
    CountAfterMonotone(tokens, n, i, j);
    SameTokenDistinct(tokens[i], CountAfter(tokens[..i], n), CountAfter(tokens[..j], n));
  }

  /** The default tokens `param` and `?` never collide with each other or
      with themselves at another count. */
  lemma DefaultTokensDistinct(t1: string, a: nat, t2: string, b: nat)
    requires t1 in {"param", "?"} && t2 in {"param", "?"}
    requires PlaceholderText(t1, a) == PlaceholderText(t2, b)
    ensures t1 == t2 && a == b
  {
    var p1, p2 := PlaceholderText(t1, a), PlaceholderText(t2, b);
    assert p1[1] == t1[0] && p2[1] == t2[0];
    assert p1[|t1| + 1..] == NatToString(a);
    assert p2[|t2| + 1..] == NatToString(b);
    NatToStringInjective(a, b);
  }

  /** Names of different tokens can collide: `:a` numbered 10 and `:a1`
      numbered 0 both become `::a10`. */
  lemma DifferentTokensCollide()
    ensures PlaceholderText(":a", 10) == PlaceholderText(":a1", 0)
  {
    assert NatToString(10) == "10";
  }

  /** A name given to an entry that no later entry reuses is bound to that
      entry's value. */
  lemma {:induction false} BindAllLookup(b: PVal, names: seq<string>, values: seq<PVal>, i: nat)
    requires b.Arr? && |names| == |values| && i < |names|
    requires forall j :: i < j < |names| ==> names[j] != names[i]
    ensures StrKey(names[i]) in BindAll(b, names, values).vals
    ensures BindAll(b, names, values).vals[StrKey(names[i])] == values[i]
    decreases |names|
  {
    var last := |names| - 1;
    if i < last {
      BindAllLookup(b, names[..last], values[..last], i);
    }
  }

  /** Every generated name ends up bound, and bindings made before keep
      their value unless a generated name replaces them. */
  lemma {:induction false} BindAllKeys(b: PVal, names: seq<string>, values: seq<PVal>, k: Key)
    requires b.Arr? && |names| == |values|
    ensures k in BindAll(b, names, values).vals <==> k in b.vals || exists j :: 0 <= j < |names| && k == StrKey(names[j])
    ensures (forall j :: 0 <= j < |names| ==> k != StrKey(names[j])) && k in b.vals ==>
      BindAll(b, names, values).vals[k] == b.vals[k]
    decreases |names|
  {
    if names != [] {
      var last := |names| - 1;
      BindAllKeys(b, names[..last], values[..last], k);
      if exists j :: 0 <= j < last && k == StrKey(names[..last][j]) {
        var j :| 0 <= j < last && k == StrKey(names[..last][j]);
        assert k == StrKey(names[j]);
      }
      if exists j :: 0 <= j < |names| && k == StrKey(names[j]) {
        var j :| 0 <= j < |names| && k == StrKey(names[j]);
        if j < last {
          assert k == StrKey(names[..last][j]);
        }
      }
    }
  }
}
