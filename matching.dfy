/** Matching (`getMatchingRules`) as functions: the ordered candidate list one
    pass produces from the rule list, the heap and the context. */
module Matching {
  import opened Js
  import opened Rules

  /** Candidates of two consecutive stretches of work, in order; an error in
      the first stretch stops the walk before the second starts. */
  function Combine<W, T>(a: Result<seq<Candidate<W, T>>>, b: Result<seq<Candidate<W, T>>>): Result<seq<Candidate<W, T>>>
  {
    if a.Err? then a
    else if b.Err? then b
    else Ok(a.value + b.value)
  }

  /** The wrapped candidates among `objs`: each object whose test holds, in array order. */
  function Filtered<W, T>(rule: Rule<W, T>, h: W, objs: seq<T>): seq<Candidate<W, T>>
  {
    if objs == [] then []
    else
      var o := objs[|objs| - 1];
      Filtered(rule, h, objs[..|objs| - 1]) + (if MatchRule(rule, h, o) then [Wrapped(rule, o)] else [])
  }

  /** The leaf candidates of a multi-level selector below `x`, which sits at
      level `layer`: depth first, left to right. A resolver result that is not
      an array is iterated anyway, which throws. */
  function Descend<W, T>(rule: Rule<W, T>, fs: seq<(W, T) -> Option<seq<T>>>, layer: nat, h: W, x: T): Result<seq<Candidate<W, T>>>
    requires layer < |fs|
    decreases |fs| - layer, 1
  {
    match fs[layer](h, x)
    case None => Err(TypeError)
    case Some(objs) => DescendEach(rule, fs, layer, h, objs)
  }

  /** What one object `o` found at level `layer` contributes: itself on the
      last level when its test holds, what lies below it otherwise. */
  function Below<W, T>(rule: Rule<W, T>, fs: seq<(W, T) -> Option<seq<T>>>, layer: nat, h: W, o: T): Result<seq<Candidate<W, T>>>
    requires layer < |fs|
    decreases |fs| - layer, 0, 0
  {
    if layer == |fs| - 1 then Ok(if MatchRule(rule, h, o) then [Wrapped(rule, o)] else [])
    else Descend(rule, fs, layer + 1, h, o)
  }

  /** The candidates contributed by each object of `objs`, found at level
      `layer`, in array order. */
  function DescendEach<W, T>(rule: Rule<W, T>, fs: seq<(W, T) -> Option<seq<T>>>, layer: nat, h: W, objs: seq<T>): Result<seq<Candidate<W, T>>>
    requires layer < |fs|
    decreases |fs| - layer, 0, |objs|
  {
    if objs == [] then Ok([])
    else
      var o := objs[|objs| - 1];
      Combine(DescendEach(rule, fs, layer, h, objs[..|objs| - 1]), Below(rule, fs, layer, h, o))
  }

  /** The candidates one rule contributes. An unscoped rule is tested on the
      context itself and appears unwrapped; a single resolver whose result is
      not an array contributes nothing; an empty resolver list throws, as
      calling `on[0]` does. */
  function RuleCandidates<W, T>(rule: Rule<W, T>, h: W, ctx: T): Result<seq<Candidate<W, T>>>
  {
    match rule.on
    case Unscoped => Ok(if MatchRule(rule, h, ctx) then [Raw(rule)] else [])
    case Single(f) =>
      (match f(h, ctx)
       case None => Ok([])
       case Some(objs) => Ok(Filtered(rule, h, objs)))
    case Levels(fs) => if fs == [] then Err(TypeError) else Descend(rule, fs, 0, h, ctx)
  }

  /** `getMatchingRules()`: every rule's candidates, in rule-list order. */
  function Matches<W, T>(rules: seq<Rule<W, T>>, h: W, ctx: T): Result<seq<Candidate<W, T>>>
  {
    if rules == [] then Ok([])
    else Combine(Matches(rules[..|rules| - 1], h, ctx), RuleCandidates(rules[|rules| - 1], h, ctx))
  }

  /** A candidate `c` is justified: its rule is one of `rules` and its test holds
      on its target, or on the context when it is unwrapped. */
  ghost predicate Justified<W, T>(c: Candidate<W, T>, rules: seq<Rule<W, T>>, h: W, ctx: T)
  {
    && c.rule in rules
    && (c.Raw? ==> c.rule.on.Unscoped? && MatchRule(c.rule, h, ctx))
    && (c.Wrapped? ==> !c.rule.on.Unscoped? && MatchRule(c.rule, h, c.target))
  }

  lemma CombineAssociative<W, T>(a: Result<seq<Candidate<W, T>>>, b: Result<seq<Candidate<W, T>>>, c: Result<seq<Candidate<W, T>>>)
    ensures Combine(Combine(a, b), c) == Combine(a, Combine(b, c))
  {
    if a.Ok? && b.Ok? && c.Ok? {
      assert (a.value + b.value) + c.value == a.value + (b.value + c.value);
    }
  }

  /** Candidate order follows rule-list order: the candidates of a rule list
      split at any point are those of the first part followed by those of
      the second. */
  lemma {:induction false} MatchesConcat<W, T>(r1: seq<Rule<W, T>>, r2: seq<Rule<W, T>>, h: W, ctx: T)
    ensures Matches(r1 + r2, h, ctx) == Combine(Matches(r1, h, ctx), Matches(r2, h, ctx))
  {
    if r2 == [] {
      assert r1 + r2 == r1;
      var m := Matches(r1, h, ctx);
      if m.Ok? { assert m.value + [] == m.value; }
    } else {
      var init := r2[..|r2| - 1];
      var last := r2[|r2| - 1];
      assert (r1 + r2)[..|r1 + r2| - 1] == r1 + init;
      assert (r1 + r2)[|r1 + r2| - 1] == last;
      MatchesConcat(r1, init, h, ctx);
      CombineAssociative(Matches(r1, h, ctx), Matches(init, h, ctx), RuleCandidates(last, h, ctx));
    }
  }

  /** Within a single-resolver rule, candidates follow array order: the
      objects of two consecutive stretches of the array give their
      candidates one after the other. */
  lemma {:induction false} FilteredConcat<W, T>(rule: Rule<W, T>, h: W, a: seq<T>, b: seq<T>)
    ensures Filtered(rule, h, a + b) == Filtered(rule, h, a) + Filtered(rule, h, b)
  {
    if b == [] {
      assert a + b == a;
    } else {
      assert (a + b)[..|a + b| - 1] == a + b[..|b| - 1];
      FilteredConcat(rule, h, a, b[..|b| - 1]);
    }
  }

  /** The candidates of a single resolver are exactly the wrapped objects of
      its array whose test holds. */
  lemma {:induction false} FilteredMembers<W, T>(rule: Rule<W, T>, h: W, objs: seq<T>, c: Candidate<W, T>)
    ensures c in Filtered(rule, h, objs) <==> c.Wrapped? && c.rule == rule && c.target in objs && MatchRule(rule, h, c.target)
  {
    if objs != [] {
      var init := objs[..|objs| - 1];
      FilteredMembers(rule, h, init, c);
      assert objs == init + [objs[|objs| - 1]];
    }
  }

  /** On the last level, walking one level of objects is the single-resolver filter. */
  lemma {:induction false} LastLevelIsFilter<W, T>(rule: Rule<W, T>, fs: seq<(W, T) -> Option<seq<T>>>, h: W, objs: seq<T>)
    requires |fs| > 0
    ensures DescendEach(rule, fs, |fs| - 1, h, objs) == Ok(Filtered(rule, h, objs))
  {
    if objs != [] {
      LastLevelIsFilter(rule, fs, h, objs[..|objs| - 1]);
    }
  }

  /** The objects candidates stand for: the target of a wrapped candidate,
      the context for an unwrapped one. */
  function Targets<W, T>(cs: seq<Candidate<W, T>>, ctx: T): (r: seq<T>)
    ensures |r| == |cs|
  {
    if cs == [] then []
    else Targets(cs[..|cs| - 1], ctx) + [if cs[|cs| - 1].Wrapped? then cs[|cs| - 1].target else ctx]
  }

  /** A one-level resolver list finds the same targets as the same resolver
      given alone, except that a result that is not an array throws instead
      of being skipped: only the single-resolver path checks for an array. */
  lemma OneLevelIsSingle<W, T>(rule: Rule<W, T>, f: (W, T) -> Option<seq<T>>, h: W, ctx: T)
    ensures f(h, ctx).Some? ==>
      && RuleCandidates(rule.(on := Levels([f])), h, ctx).Ok?
      && RuleCandidates(rule.(on := Single(f)), h, ctx).Ok?
      && Targets(RuleCandidates(rule.(on := Levels([f])), h, ctx).value, ctx)
         == Targets(RuleCandidates(rule.(on := Single(f)), h, ctx).value, ctx)
    ensures f(h, ctx).None? ==>
      && RuleCandidates(rule.(on := Levels([f])), h, ctx) == Err(TypeError)
      && RuleCandidates(rule.(on := Single(f)), h, ctx) == Ok([])
  {
    var lv := rule.(on := Levels([f]));
    var sg := rule.(on := Single(f));
    match f(h, ctx)
    case None =>
    case Some(objs) =>
      LastLevelIsFilter(lv, [f], h, objs);
      FilteredSameTargets(lv, sg, h, objs, ctx);
  }

  /** The filter depends on a rule only through its test. */
  lemma {:induction false} FilteredSameTargets<W, T>(r1: Rule<W, T>, r2: Rule<W, T>, h: W, objs: seq<T>, ctx: T)
    requires r1.test == r2.test
    ensures Targets(Filtered(r1, h, objs), ctx) == Targets(Filtered(r2, h, objs), ctx)
  {
    if objs != [] {
      var init := objs[..|objs| - 1];
      var o := objs[|objs| - 1];
      FilteredSameTargets(r1, r2, h, init, ctx);
      TargetsConcat(Filtered(r1, h, init), if MatchRule(r1, h, o) then [Wrapped(r1, o)] else [], ctx);
      TargetsConcat(Filtered(r2, h, init), if MatchRule(r2, h, o) then [Wrapped(r2, o)] else [], ctx);
    }
  }

  lemma {:induction false} TargetsConcat<W, T>(a: seq<Candidate<W, T>>, b: seq<Candidate<W, T>>, ctx: T)
    ensures Targets(a + b, ctx) == Targets(a, ctx) + Targets(b, ctx)
  {
    if b == [] {
      assert a + b == a;
    } else {
      assert (a + b)[..|a + b| - 1] == a + b[..|b| - 1];
      TargetsConcat(a, b[..|b| - 1], ctx);
    }
  }

  /** Every leaf candidate of a multi-level selector wraps the rule around a
      target on which its test holds. */
  lemma {:induction false} DescendSound<W, T>(rule: Rule<W, T>, fs: seq<(W, T) -> Option<seq<T>>>, layer: nat, h: W, x: T)
    requires layer < |fs|
    requires Descend(rule, fs, layer, h, x).Ok?
    ensures forall c :: c in Descend(rule, fs, layer, h, x).value ==>
      c.Wrapped? && c.rule == rule && MatchRule(rule, h, c.target)
    decreases |fs| - layer, 1
  {
    DescendEachSound(rule, fs, layer, h, fs[layer](h, x).value);
  }

  lemma {:induction false} DescendEachSound<W, T>(rule: Rule<W, T>, fs: seq<(W, T) -> Option<seq<T>>>, layer: nat, h: W, objs: seq<T>)
    requires layer < |fs|
    requires DescendEach(rule, fs, layer, h, objs).Ok?
    ensures forall c :: c in DescendEach(rule, fs, layer, h, objs).value ==>
      c.Wrapped? && c.rule == rule && MatchRule(rule, h, c.target)
    decreases |fs| - layer, 0, |objs|
  {
    if objs != [] {
      var o := objs[|objs| - 1];
      DescendEachSound(rule, fs, layer, h, objs[..|objs| - 1]);
      if layer < |fs| - 1 {
        DescendSound(rule, fs, layer + 1, h, o);
      }
    }
  }

  /** Matching is sound: every candidate comes from the rule list and passed
      its rule's test, on its target or on the context. */
  lemma {:induction false} MatchesJustified<W, T>(rules: seq<Rule<W, T>>, h: W, ctx: T)
    requires Matches(rules, h, ctx).Ok?
    ensures forall c :: c in Matches(rules, h, ctx).value ==> Justified(c, rules, h, ctx)
  {
    if rules != [] {
      var init := rules[..|rules| - 1];
      var last := rules[|rules| - 1];
      MatchesJustified(init, h, ctx);
      assert forall r :: r in init ==> r in rules;
      match last.on
      case Unscoped =>
      case Single(f) =>
        if f(h, ctx).Some? {
          forall c | c in Filtered(last, h, f(h, ctx).value)
            ensures Justified(c, rules, h, ctx)
          {
            FilteredMembers(last, h, f(h, ctx).value, c);
          }
        }
      case Levels(fs) =>
        if fs != [] {
          DescendSound(last, fs, 0, h, ctx);
        }
    }
  }
  lemma MatchesStep<W, T>(rules: seq<Rule<W, T>>, h: W, ctx: T, i: nat)
    requires i < |rules|
    ensures Matches(rules[..i + 1], h, ctx) == Combine(Matches(rules[..i], h, ctx), RuleCandidates(rules[i], h, ctx))
  {
    assert rules[..i + 1][..i] == rules[..i];
  }

  lemma DescendEachStep<W, T>(rule: Rule<W, T>, fs: seq<(W, T) -> Option<seq<T>>>, layer: nat, h: W, objs: seq<T>, j: nat)
    requires layer < |fs| && j < |objs|
    ensures DescendEach(rule, fs, layer, h, objs[..j + 1])
      == Combine(DescendEach(rule, fs, layer, h, objs[..j]), Below(rule, fs, layer, h, objs[j]))
  {
    assert objs[..j + 1][..j] == objs[..j];
    assert objs[..j + 1][j] == objs[j];
  }

  /** Once a prefix of the rule list has thrown, the rules after it are never
      looked at: `getMatchingRules` throws the same error. */
  lemma MatchesStuck<W, T>(rules: seq<Rule<W, T>>, h: W, ctx: T, i: nat)
    requires i <= |rules|
    requires Matches(rules[..i], h, ctx).Err?
    ensures Matches(rules, h, ctx) == Matches(rules[..i], h, ctx)
  {
    assert rules == rules[..i] + rules[i..];
    MatchesConcat(rules[..i], rules[i..], h, ctx);
  }

  /** Likewise within one level of a multi-level selector. */
  lemma {:induction false} DescendEachStuck<W, T>(rule: Rule<W, T>, fs: seq<(W, T) -> Option<seq<T>>>, layer: nat, h: W, objs: seq<T>, i: nat)
    requires layer < |fs| && i <= |objs|
    requires DescendEach(rule, fs, layer, h, objs[..i]).Err?
    ensures DescendEach(rule, fs, layer, h, objs) == DescendEach(rule, fs, layer, h, objs[..i])
  {
    if i == |objs| {
      assert objs[..i] == objs;
    } else {
      var init := objs[..|objs| - 1];
      assert init[..i] == objs[..i];
      DescendEachStuck(rule, fs, layer, h, init, i);
    }
  }

  /** The objects a resolver list reaches from `x`, which sits at level
      `layer`: depth first, left to right, the objects of the last level.
      `None` when some resolver on the way returns something that is not an
      array. */
  function Leaves<W, T>(fs: seq<(W, T) -> Option<seq<T>>>, layer: nat, h: W, x: T): Option<seq<T>>
    requires layer < |fs|
    decreases |fs| - layer, 1
  {
    match fs[layer](h, x)
    case None => None
    case Some(objs) => LeavesEach(fs, layer, h, objs)
  }

  function LeavesBelow<W, T>(fs: seq<(W, T) -> Option<seq<T>>>, layer: nat, h: W, o: T): Option<seq<T>>
    requires layer < |fs|
    decreases |fs| - layer, 0, 0
  {
    if layer == |fs| - 1 then Some([o]) else Leaves(fs, layer + 1, h, o)
  }

  function LeavesEach<W, T>(fs: seq<(W, T) -> Option<seq<T>>>, layer: nat, h: W, objs: seq<T>): Option<seq<T>>
    requires layer < |fs|
    decreases |fs| - layer, 0, |objs|
  {
    if objs == [] then Some([])
    else match LeavesEach(fs, layer, h, objs[..|objs| - 1])
      case None => None
      case Some(a) =>
        match LeavesBelow(fs, layer, h, objs[|objs| - 1])
        case None => None
        case Some(b) => Some(a + b)
  }

  /** The candidates of the leaves, or the error of a walk that met a non-array. */
  function OfLeaves<W, T>(rule: Rule<W, T>, h: W, leaves: Option<seq<T>>): Result<seq<Candidate<W, T>>>
  {
    match leaves
    case None => Err(TypeError)
    case Some(ls) => Ok(Filtered(rule, h, ls))
  }

  /** A multi-level selector tests exactly the objects of its last level, in
      depth-first, left-to-right order, and throws `TypeError` exactly when a
      resolver on the way returns something that is not an array. With
      `FilteredMembers` and `FilteredConcat` this gives both the order of the
      candidates and that every leaf whose test holds is one. */
  lemma {:induction false} DescendIsFilteredLeaves<W, T>(rule: Rule<W, T>, fs: seq<(W, T) -> Option<seq<T>>>, layer: nat, h: W, x: T)
    requires layer < |fs|
    ensures Descend(rule, fs, layer, h, x) == OfLeaves(rule, h, Leaves(fs, layer, h, x))
    decreases |fs| - layer, 1
  {
    match fs[layer](h, x)
    case None =>
    case Some(objs) => DescendEachIsFilteredLeaves(rule, fs, layer, h, objs);
  }

  lemma {:induction false} BelowIsFilteredLeaves<W, T>(rule: Rule<W, T>, fs: seq<(W, T) -> Option<seq<T>>>, layer: nat, h: W, o: T)
    requires layer < |fs|
    ensures Below(rule, fs, layer, h, o) == OfLeaves(rule, h, LeavesBelow(fs, layer, h, o))
    decreases |fs| - layer, 0, 0
  {
    if layer == |fs| - 1 {
      var add: seq<Candidate<W, T>> := if MatchRule(rule, h, o) then [Wrapped(rule, o)] else [];
      assert [o][..0] == [] && [o][0] == o;
      assert Filtered(rule, h, [o]) == Filtered(rule, h, []) + add;
      assert [] + add == add;
      assert LeavesBelow(fs, layer, h, o) == Some([o]);
    } else {
      DescendIsFilteredLeaves(rule, fs, layer + 1, h, o);
    }
  }

  lemma {:induction false} DescendEachIsFilteredLeaves<W, T>(rule: Rule<W, T>, fs: seq<(W, T) -> Option<seq<T>>>, layer: nat, h: W, objs: seq<T>)
    requires layer < |fs|
    ensures DescendEach(rule, fs, layer, h, objs) == OfLeaves(rule, h, LeavesEach(fs, layer, h, objs))
    decreases |fs| - layer, 0, |objs|
  {
    if objs != [] {
      var init := objs[..|objs| - 1];
      var o := objs[|objs| - 1];
      DescendEachIsFilteredLeaves(rule, fs, layer, h, init);
      BelowIsFilteredLeaves(rule, fs, layer, h, o);
      match LeavesEach(fs, layer, h, init)
      case None =>
      case Some(a) =>
        match LeavesBelow(fs, layer, h, o)
        case None =>
        case Some(b) => FilteredConcat(rule, h, a, b);
    }
  }

  /** What one rule contributes, member by member: an unscoped rule itself
      when its test holds on the context; otherwise the rule wrapped around
      each object its selector reaches whose test holds. */
  lemma RuleCandidatesMembers<W, T>(rule: Rule<W, T>, h: W, ctx: T, c: Candidate<W, T>)
    requires RuleCandidates(rule, h, ctx).Ok?
    ensures rule.on.Unscoped? ==>
      (c in RuleCandidates(rule, h, ctx).value <==> c == Raw(rule) && MatchRule(rule, h, ctx))
    ensures rule.on.Single? ==>
      (c in RuleCandidates(rule, h, ctx).value <==>
        && c.Wrapped? && c.rule == rule && MatchRule(rule, h, c.target)
        && rule.on.resolve(h, ctx).Some? && c.target in rule.on.resolve(h, ctx).value)
    ensures rule.on.Levels? ==>
      && rule.on.resolvers != []
      && Leaves(rule.on.resolvers, 0, h, ctx).Some?
      && (c in RuleCandidates(rule, h, ctx).value <==>
        && c.Wrapped? && c.rule == rule && MatchRule(rule, h, c.target)
        && c.target in Leaves(rule.on.resolvers, 0, h, ctx).value)
  {
    match rule.on
    case Unscoped =>
    case Single(f) =>
      if f(h, ctx).Some? {
        FilteredMembers(rule, h, f(h, ctx).value, c);
      }
    case Levels(fs) =>
      DescendIsFilteredLeaves(rule, fs, 0, h, ctx);
      FilteredMembers(rule, h, Leaves(fs, 0, h, ctx).value, c);
  }

  /** Matching is complete: when `getMatchingRules` does not throw, every rule
      of the list contributed, and every candidate of every rule is in the
      result. */
  lemma MatchesComplete<W, T>(rules: seq<Rule<W, T>>, h: W, ctx: T, i: nat)
    requires i < |rules| && Matches(rules, h, ctx).Ok?
    ensures RuleCandidates(rules[i], h, ctx).Ok?
    ensures forall c :: c in RuleCandidates(rules[i], h, ctx).value ==> c in Matches(rules, h, ctx).value
  {
    assert rules == rules[..i] + (rules[i..i + 1] + rules[i + 1..]);
    MatchesConcat(rules[..i], rules[i..i + 1] + rules[i + 1..], h, ctx);
    MatchesConcat(rules[i..i + 1], rules[i + 1..], h, ctx);
    assert rules[i..i + 1] == [rules[i]] && [rules[i]][..0] == [];
    assert Matches([rules[i]], h, ctx) == Combine(Ok([]), RuleCandidates(rules[i], h, ctx));
  }

  /** The only error `getMatchingRules` throws itself is the `TypeError` of
      iterating something that is not an array. */
  lemma {:induction false} MatchesErrors<W, T>(rules: seq<Rule<W, T>>, h: W, ctx: T)
    ensures Matches(rules, h, ctx).Err? ==> Matches(rules, h, ctx).error == TypeError
  {
    if rules != [] {
      var last := rules[|rules| - 1];
      MatchesErrors(rules[..|rules| - 1], h, ctx);
      if last.on.Levels? && last.on.resolvers != [] {
        DescendIsFilteredLeaves(last, last.on.resolvers, 0, h, ctx);
      }
    }
  }
}
