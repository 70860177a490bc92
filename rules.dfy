/** Rules, the candidates matching produces, and the lookups by name that
    `removeRule` and chained actions perform.

    The engine is generic in `W`, the state of every object the rules can see
    (the JavaScript heap, as far as the rules are concerned), and `T`, a
    reference to one such object: the context or a target found by a selector.
    Rule code is modelled by pure functions over `W`. */
module Rules {
  import opened Js
  import opened Outputs

  /** What a direct action leaves behind: the heap after its writes and the
      output calls it made, in order. */
  datatype Effect<W> = Effect(heap: W, calls: seq<OutputOp>)

  /** A rule's `on`: absent, one resolver, or a list of resolvers walked level
      by level. A resolver returns `None` when its result is not an array. */
  datatype Selector<!W, !T> =
    | Unscoped
    | Single(resolve: (W, T) -> Option<seq<T>>)
    | Levels(resolvers: seq<(W, T) -> Option<seq<T>>>)

  /** A rule's `test`: a predicate on the heap and the object tested, a boolean
      literal, or anything else (which never matches). */
  datatype Test<!W, !T> = Pred(holds: (W, T) -> bool) | Lit(value: bool) | NoTest

  /** A rule's `action`: a function called with its target, the output and,
      for scoped rules, the context; a list of rule names (a single name is the
      one-element list); or anything else (which does nothing). */
  datatype Action<!W, !T> =
    | Direct(run: (W, T, Option<T>) -> Effect<W>)
    | Chain(names: seq<string>)
    | NoAction

  /** `priority` and `rate` hold 0.0 when the rule does not set them; the
      engine reads them as `priority || 0` and `rate || 1`. */
  datatype Rule<!W, !T> = Rule(
    name: Option<string>,
    on: Selector<W, T>,
    test: Test<W, T>,
    action: Action<W, T>,
    priority: real,
    rate: real)

  /** An unscoped rule is a candidate as it is; a scoped one is wrapped with
      the target it matched (a `RuleWrapper`). */
  datatype Candidate<!W, !T> = Raw(rule: Rule<W, T>) | Wrapped(rule: Rule<W, T>, target: T)

  /** `matchRule(rule, x)`: the predicate's value on `x`, the literal, or false. */
  predicate MatchRule<W, T>(rule: Rule<W, T>, h: W, x: T)
  {
    match rule.test
    case Pred(p) => p(h, x)
    case Lit(b) => b
    case NoTest => false
  }

  /** `candidate.priority || 0` (a wrapper forwards its rule's priority). */
  function Priority<W, T>(c: Candidate<W, T>): real
  {
    c.rule.priority
  }

  /** `candidate.rate || 1`. */
  function Rate<W, T>(c: Candidate<W, T>): (r: real)
    ensures c.rule.rate >= 0.0 ==> r > 0.0
  {
    if c.rule.rate == 0.0 then 1.0 else c.rule.rate
  }

  predicate Named<W, T>(rule: Rule<W, T>, name: string)
  {
    rule.name == Some(name)
  }

  /** `rules.findIndex(rule => rule.name === name)`, with -1 as `None`. */
  function FirstNamedIndex<W, T>(rules: seq<Rule<W, T>>, name: string): (r: Option<nat>)
    ensures r.Some? ==> r.value < |rules| && Named(rules[r.value], name)
    ensures r.Some? ==> forall j :: 0 <= j < r.value ==> !Named(rules[j], name)
    ensures r.None? ==> forall j :: 0 <= j < |rules| ==> !Named(rules[j], name)
  {
    if rules == [] then None
    else if Named(rules[0], name) then Some(0)
    else match FirstNamedIndex(rules[1..], name)
      case None => None
      case Some(k) => Some(k + 1)
  }

  /** `rules.find(rule => rule.name === name)`. */
  function FirstNamed<W, T>(rules: seq<Rule<W, T>>, name: string): Option<Rule<W, T>>
  {
    match FirstNamedIndex(rules, name)
    case None => None
    case Some(k) => Some(rules[k])
  }

  /** How many rules are called `name`. */
  function CountNamed<W, T>(rules: seq<Rule<W, T>>, name: string): nat
  {
    if rules == [] then 0
    else CountNamed(rules[..|rules| - 1], name) + (if Named(rules[|rules| - 1], name) then 1 else 0)
  }

  lemma {:induction false} CountNamedConcat<W, T>(a: seq<Rule<W, T>>, b: seq<Rule<W, T>>, name: string)
    ensures CountNamed(a + b, name) == CountNamed(a, name) + CountNamed(b, name)
  {
    if b != [] {
      assert (a + b)[..|a + b| - 1] == a + b[..|b| - 1];
      CountNamedConcat(a, b[..|b| - 1], name);
    } else {
      assert a + b == a;
    }
  }

  lemma {:induction false} CountNamedNone<W, T>(rules: seq<Rule<W, T>>, name: string)
    requires forall j :: 0 <= j < |rules| ==> !Named(rules[j], name)
    ensures CountNamed(rules, name) == 0
  {
    if rules != [] {
      CountNamedNone(rules[..|rules| - 1], name);
    }
  }

  /** Splicing out the first rule called `name` removes exactly one rule of
      that name and no rule of any other name, and the rules after it move up
      by one, keeping their order. */
  lemma RemovingFirstNamed<W, T>(rules: seq<Rule<W, T>>, name: string, other: string)
    requires FirstNamedIndex(rules, name).Some?
    ensures var k := FirstNamedIndex(rules, name).value;
      var rest := rules[..k] + rules[k + 1..];
      && |rest| == |rules| - 1
      && CountNamed(rest, name) == CountNamed(rules, name) - 1
      && (other != name ==> CountNamed(rest, other) == CountNamed(rules, other))
      && (forall j :: 0 <= j < k ==> rest[j] == rules[j])
      && (forall j :: k <= j < |rest| ==> rest[j] == rules[j + 1])
  {
    var k := FirstNamedIndex(rules, name).value;
    assert rules == rules[..k] + [rules[k]] + rules[k + 1..];
    CountNamedConcat(rules[..k] + [rules[k]], rules[k + 1..], name);
    CountNamedConcat(rules[..k], [rules[k]], name);
    CountNamedConcat(rules[..k], rules[k + 1..], name);
    CountNamedConcat(rules[..k] + [rules[k]], rules[k + 1..], other);
    CountNamedConcat(rules[..k], [rules[k]], other);
    CountNamedConcat(rules[..k], rules[k + 1..], other);
    assert CountNamed([rules[k]], name) == 1 by {
      assert [rules[k]][..0] == [];
    }
    assert CountNamed([rules[k]], other) == (if other == name then 1 else 0) by {
      assert [rules[k]][..0] == [];
    }
  }
}
