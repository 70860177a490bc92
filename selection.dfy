/** Selection (`selectRules`): which of the matched candidates one pass
    activates, under the engine's `ruleSelection` policy. */
module Selection {
  import opened Js
  import opened Rules

  /** `k` is the earliest candidate of greatest `priority || 0`. */
  predicate EarliestMax<W, T>(cs: seq<Candidate<W, T>>, k: int)
  {
    && 0 <= k < |cs|
    && (forall j :: 0 <= j < |cs| ==> Priority(cs[j]) <= Priority(cs[k]))
    && (forall j :: 0 <= j < k ==> Priority(cs[j]) < Priority(cs[k]))
  }

  /** Only one candidate is the earliest of greatest priority. */
  lemma EarliestMaxUnique<W, T>(cs: seq<Candidate<W, T>>, k1: int, k2: int)
    requires EarliestMax(cs, k1) && EarliestMax(cs, k2)
    ensures k1 == k2
  {
    var p1, p2 := Priority(cs[k1]), Priority(cs[k2]);
    assert p1 <= p2 && p2 <= p1;
  }

  /** The `priority` policy: keep the running maximum, replacing it only by a
      strictly greater priority, so that ties go to the earliest candidate. */
  function PriorityIndex<W, T>(cs: seq<Candidate<W, T>>): (k: nat)
    requires |cs| > 0
    ensures EarliestMax(cs, k)
  {
    if |cs| == 1 then 0
    else
      var m := PriorityIndex(cs[..|cs| - 1]);
      if Priority(cs[|cs| - 1]) > Priority(cs[m]) then |cs| - 1 else m
  }

  /** The total of `rate || 1` over the candidates. */
  function RateSum<W, T>(cs: seq<Candidate<W, T>>): real
  {
    if cs == [] then 0.0 else RateSum(cs[..|cs| - 1]) + Rate(cs[|cs| - 1])
  }

  /** The total of `rate || 1` over the first `n` candidates. */
  function Cum<W, T>(cs: seq<Candidate<W, T>>, n: nat): real
    requires n <= |cs|
  {
    RateSum(cs[..n])
  }

  lemma CumOfPrefix<W, T>(cs: seq<Candidate<W, T>>, m: nat, n: nat)
    requires n <= m <= |cs|
    ensures Cum(cs[..m], n) == Cum(cs, n)
  {
    assert cs[..m][..n] == cs[..n];
  }

  /** The `random` policy's walk: the first candidate whose cumulative
      `rate || 1` exceeds `r`, if any. */
  function Pick<W, T>(cs: seq<Candidate<W, T>>, r: real): (k: Option<nat>)
    ensures k.Some? ==> k.value < |cs| && Cum(cs, k.value + 1) > r
    ensures k.Some? ==> forall j :: 0 < j <= k.value ==> Cum(cs, j) <= r
    ensures k.None? ==> forall j :: 0 < j <= |cs| ==> Cum(cs, j) <= r
  {
    if cs == [] then None
    else
      var init := cs[..|cs| - 1];
      assert forall j :: 0 < j <= |init| ==> Cum(init, j) == Cum(cs, j) by {
        forall j | 0 < j <= |init| ensures Cum(init, j) == Cum(cs, j) {
          CumOfPrefix(cs, |cs| - 1, j);
        }
      }
      assert Cum(cs, |cs|) == RateSum(cs) by {
        assert cs[..|cs|] == cs;
      }
      match Pick(init, r)
      case Some(k) => Some(k)
      case None => if RateSum(cs) > r then Some(|cs| - 1) else None
  }

  /** `selectRules(candidates)` under `policy`, with `u` the value
      `Math.random()` returns; an unknown policy selects nothing. */
  function Selected<W, T>(policy: string, cs: seq<Candidate<W, T>>, u: real): seq<Candidate<W, T>>
  {
    if |cs| == 0 then []
    else if policy == "all" then cs
    else if policy == "first" then [cs[0]]
    else if policy == "priority" then [cs[PriorityIndex(cs)]]
    else if policy == "random" then Drawn(cs, u)
    else []
  }

  /** The `random` policy: the candidate the walk stops on for `u` times the
      total rate, if any. */
  function Drawn<W, T>(cs: seq<Candidate<W, T>>, u: real): seq<Candidate<W, T>>
  {
    PickedAt(cs, Scaled(u, RateSum(cs)))
  }

  /** `Math.random() * probSum`. */
  function Scaled(u: real, total: real): real
  {
    u * total
  }

  /** The candidate the `random` walk stops on for the value `r`, if any. */
  function PickedAt<W, T>(cs: seq<Candidate<W, T>>, r: real): seq<Candidate<W, T>>
  {
    match Pick(cs, r)
    case Some(k) => [cs[k]]
    case None => []
  }

  /** What each policy selects, and that nothing is selected from nothing. */
  lemma SelectionPolicies<W, T>(policy: string, cs: seq<Candidate<W, T>>, u: real)
    ensures cs == [] ==> Selected(policy, cs, u) == []
    ensures cs != [] && policy == "all" ==> Selected(policy, cs, u) == cs
    ensures cs != [] && policy == "first" ==> Selected(policy, cs, u) == [cs[0]]
    ensures cs != [] && policy == "priority" ==>
      exists k :: EarliestMax(cs, k) && Selected(policy, cs, u) == [cs[k]]
    ensures policy !in {"all", "first", "priority", "random"} ==> Selected(policy, cs, u) == []
    ensures forall c :: c in Selected(policy, cs, u) ==> c in cs
  {
    if cs != [] && policy == "priority" {
      assert EarliestMax(cs, PriorityIndex(cs));
    }
  }

  lemma {:induction false} RateSumPositive<W, T>(cs: seq<Candidate<W, T>>)
    requires forall i :: 0 <= i < |cs| ==> cs[i].rule.rate >= 0.0
    ensures cs != [] ==> RateSum(cs) > 0.0
    ensures RateSum(cs) >= 0.0
  {
    if cs != [] {
      RateSumPositive(cs[..|cs| - 1]);
    }
  }

  /** A value below the total is exceeded by some cumulative rate. */
  lemma PickBelowTotal<W, T>(cs: seq<Candidate<W, T>>, r: real)
    requires 0.0 <= r < RateSum(cs)
    ensures Pick(cs, r).Some?
    ensures Cum(cs, Pick(cs, r).value) <= r
  {
    assert Cum(cs, |cs|) == RateSum(cs) by {
      assert cs[..|cs|] == cs;
    }
    var k := Pick(cs, r).value;
    if k == 0 {
      assert cs[..0] == [];
    }
  }

  /** With a positive total rate, a draw in [0, 1) selects exactly one
      candidate: the `k` whose cumulative-rate interval [sum before k, sum
      through k) contains `u` times the total. */
  lemma RandomSelectsOne<W, T>(cs: seq<Candidate<W, T>>, u: real)
    requires 0.0 <= u < 1.0
    requires RateSum(cs) > 0.0
    ensures exists k ::
      && 0 <= k < |cs|
      && Selected("random", cs, u) == [cs[k]]
      && Cum(cs, k) <= Scaled(u, RateSum(cs)) < Cum(cs, k + 1)
  {
    var r := Scaled(u, RateSum(cs));
    PickOnDraw(cs, u, RateSum(cs), r);
    var k := Pick(cs, r).value;
    assert Drawn(cs, u) == [cs[k]];
  }

  /** The draw `u` scaled by the total lies below the total, so the walk
      stops on some candidate. */
  lemma PickOnDraw<W, T>(cs: seq<Candidate<W, T>>, u: real, total: real, r: real)
    requires 0.0 <= u < 1.0
    requires total == RateSum(cs) && total > 0.0
    requires r == Scaled(u, total)
    ensures Pick(cs, r).Some?
    ensures Cum(cs, Pick(cs, r).value) <= r
  {
    DrawBelowTotal(u, total);
    PickBelowTotal(cs, r);
  }

  /** No negative rate on a non-empty candidate list makes the total positive,
      so the `random` policy then always selects exactly one candidate. */
  lemma RandomWithoutNegativeRates<W, T>(cs: seq<Candidate<W, T>>, u: real)
    requires cs != []
    requires 0.0 <= u < 1.0
    requires forall i :: 0 <= i < |cs| ==> cs[i].rule.rate >= 0.0
    ensures |Selected("random", cs, u)| == 1
  {
    RateSumPositive(cs);
    RandomSelectsOne(cs, u);
  }

  lemma DrawBelowTotal(u: real, total: real)
    requires 0.0 <= u < 1.0 && total > 0.0
    ensures 0.0 <= Scaled(u, total) < total
  {
    assert total - u * total == (1.0 - u) * total;
  }
  /** The walk stops on the first candidate whose cumulative rate exceeds `r`. */
  lemma PickIsFirstExceeding<W, T>(cs: seq<Candidate<W, T>>, r: real, i: nat)
    requires i < |cs| && Cum(cs, i + 1) > r
    requires forall j :: 0 < j <= i ==> Cum(cs, j) <= r
    ensures Pick(cs, r) == Some(i)
  {
  }

  /** When no cumulative rate exceeds `r`, the walk selects nothing. */
  lemma PickNone<W, T>(cs: seq<Candidate<W, T>>, r: real)
    requires forall j :: 0 < j <= |cs| ==> Cum(cs, j) <= r
    ensures Pick(cs, r).None?
  {
  }
}
