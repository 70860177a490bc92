/** Activation (`activateRule`) and one whole pass (`run`), as functions.

    Activating a candidate is described by a `Trace`: the direct actions it
    calls, in order and with their chain depth, and the error it stops with.
    The trace depends only on the configuration, the context and the
    candidate, because chained rules are looked up by name in the rule list
    and their tests are not evaluated; what the actions then do to the heap
    and the output is `RunTrace`. An error thrown by an output call stops the
    rest of the trace from running, as the exception does. */
module Activations {
  import opened Js
  import opened Outputs
  import opened Rules
  import opened Matching
  import opened Selection

  /** The fields of a `Procedural` other than its context. */
  datatype Config<!W, !T> = Config(
    rules: seq<Rule<W, T>>,
    maxSamples: int,
    strict: bool,
    outputBase: Value,
    ruleSelection: string)

  /** One call of a rule's action function: its first argument, its third
      argument (the context, for a scoped rule) and the chain depth. */
  datatype Step<!W, !T> = Step(rule: Rule<W, T>, target: T, outer: Option<T>, depth: int)

  /** The action calls of an activation, in order, and the error it ends with. */
  datatype Trace<!W, !T> = Trace(steps: seq<Step<W, T>>, fault: Option<Error>)

  /** `a` and then `b`, unless `a` threw. */
  function Then<W, T>(a: Trace<W, T>, b: Trace<W, T>): Trace<W, T>
  {
    if a.fault.Some? then a else Trace(a.steps + b.steps, b.fault)
  }

  /** `activateRule(c, output, n)`. At depth `maxSamples` or more nothing runs
      and strict mode throws. A wrapped candidate calls its rule's function
      with its target, the output and the context, and does nothing when the
      action is not a function. An unwrapped rule's function receives the
      context; a list of names activates the rules they name, in order, on
      the context, one level deeper. */
  function Activation<W, T>(cfg: Config<W, T>, ctx: T, c: Candidate<W, T>, n: int): Trace<W, T>
    decreases cfg.maxSamples - n, 2
  {
    if n >= cfg.maxSamples then
      Trace([], if cfg.strict then Some(MaxSamplesReached) else None)
    else match c
      case Wrapped(rule, target) =>
        if rule.action.Direct? then Trace([Step(rule, target, Some(ctx), n)], None)
        else Trace([], None)
      case Raw(rule) =>
        match rule.action
        case Direct(_) => Trace([Step(rule, ctx, None, n)], None)
        case Chain(names) => ChainActivation(cfg, ctx, names, n)
        case NoAction => Trace([], None)
  }

  /** `runRuleByName(name)` inside an activation at depth `n`: the first rule
      of that name, whatever its test, one level deeper; a missing name throws
      in strict mode and is skipped otherwise. */
  function Hop<W, T>(cfg: Config<W, T>, ctx: T, name: string, n: int): Trace<W, T>
    requires n < cfg.maxSamples
    decreases cfg.maxSamples - n, 0
  {
    match FirstNamed(cfg.rules, name)
    case None => Trace([], if cfg.strict then Some(RuleNotFound(name)) else None)
    case Some(r) => Activation(cfg, ctx, Raw(r), n + 1)
  }

  /** `names.forEach(runRuleByName)`: each name after the previous one has
      finished, stopping at the first error. */
  function ChainActivation<W, T>(cfg: Config<W, T>, ctx: T, names: seq<string>, n: int): Trace<W, T>
    requires n < cfg.maxSamples
    decreases cfg.maxSamples - n, 1, |names|
  {
    if names == [] then Trace([], None)
    else Then(ChainActivation(cfg, ctx, names[..|names| - 1], n), Hop(cfg, ctx, names[|names| - 1], n))
  }

  /** `selected.forEach(rule => this.activateRule(rule, output))`. */
  function ActivateAll<W, T>(cfg: Config<W, T>, ctx: T, cs: seq<Candidate<W, T>>): Trace<W, T>
  {
    if cs == [] then Trace([], None)
    else Then(ActivateAll(cfg, ctx, cs[..|cs| - 1]), Activation(cfg, ctx, cs[|cs| - 1], 0))
  }

  /** The heap, the output content, and the error thrown so far, if any;
      nothing runs after an error. */
  datatype State<W> = State(heap: W, content: Value, err: Option<Error>)

  function ApplyCall<W>(st: State<W>, op: OutputOp): State<W>
  {
    if st.err.Some? then st
    else match ApplyOp(st.content, op)
      case Ok(c) => st.(content := c)
      case Err(e) => st.(err := Some(e))
  }

  function ApplyCalls<W>(st: State<W>, ops: seq<OutputOp>): State<W>
  {
    if ops == [] then st else ApplyCall(ApplyCalls(st, ops[..|ops| - 1]), ops[|ops| - 1])
  }

  /** One action call: the function's heap writes, then its output calls. */
  function ExecStep<W, T>(st: State<W>, s: Step<W, T>): State<W>
  {
    if st.err.Some? || !s.rule.action.Direct? then st
    else
      var e := s.rule.action.run(st.heap, s.target, s.outer);
      ApplyCalls(State(e.heap, st.content, None), e.calls)
  }

  function ExecSteps<W, T>(st: State<W>, steps: seq<Step<W, T>>): State<W>
  {
    if steps == [] then st else ExecStep(ExecSteps(st, steps[..|steps| - 1]), steps[|steps| - 1])
  }

  function RunTrace<W, T>(st: State<W>, t: Trace<W, T>): State<W>
  {
    var s := ExecSteps(st, t.steps);
    if s.err.Some? then s else s.(err := t.fault)
  }

  /** `run()` on heap `h`, with `u` the value `Math.random()` returns: every
      test is evaluated on `h` first, then the selected candidates are
      activated one after another on a fresh copy of `outputBase`. */
  function Pass<W, T>(cfg: Config<W, T>, ctx: T, h: W, u: real): State<W>
  {
    match Matches(cfg.rules, h, ctx)
    case Err(e) => State(h, cfg.outputBase, Some(e))
    case Ok(cs) => RunTrace(State(h, cfg.outputBase, None), ActivateAll(cfg, ctx, Selected(cfg.ruleSelection, cs, u)))
  }

  /** `again(sep)` on an output holding `content`, given the state `next` the
      repeated pass ended in: that pass's error, or its output blended in. */
  function AgainResult<W>(content: Value, next: State<W>, sep: Value): State<W>
  {
    if next.err.Some? then State(next.heap, content, next.err)
    else match Blended(content, next.content, sep)
      case Ok(c) => State(next.heap, c, None)
      case Err(e) => State(next.heap, content, Some(e))
  }

  // ---------------------------------------------------------------------------
  // Composition: running traces one after another

  lemma ThenAssociative<W, T>(a: Trace<W, T>, b: Trace<W, T>, c: Trace<W, T>)
    ensures Then(Then(a, b), c) == Then(a, Then(b, c))
  {
    if a.fault.None? && b.fault.None? {
      assert (a.steps + b.steps) + c.steps == a.steps + (b.steps + c.steps);
    }
  }

  lemma {:induction false} ApplyCallsStopped<W>(st: State<W>, ops: seq<OutputOp>)
    requires st.err.Some?
    ensures ApplyCalls(st, ops) == st
  {
    if ops != [] {
      ApplyCallsStopped(st, ops[..|ops| - 1]);
    }
  }

  lemma {:induction false} ApplyCallsConcat<W>(st: State<W>, a: seq<OutputOp>, b: seq<OutputOp>)
    ensures ApplyCalls(st, a + b) == ApplyCalls(ApplyCalls(st, a), b)
  {
    if b == [] {
      assert a + b == a;
    } else {
      assert (a + b)[..|a + b| - 1] == a + b[..|b| - 1];
      ApplyCallsConcat(st, a, b[..|b| - 1]);
    }
  }

  /** Once an output call has thrown, the calls after it change nothing. */
  lemma ApplyCallsStuck<W>(st: State<W>, ops: seq<OutputOp>, i: nat)
    requires i <= |ops|
    requires ApplyCalls(st, ops[..i]).err.Some?
    ensures ApplyCalls(st, ops) == ApplyCalls(st, ops[..i])
  {
    assert ops == ops[..i] + ops[i..];
    ApplyCallsConcat(st, ops[..i], ops[i..]);
    ApplyCallsStopped(ApplyCalls(st, ops[..i]), ops[i..]);
  }

  lemma {:induction false} ExecStepsStopped<W, T>(st: State<W>, steps: seq<Step<W, T>>)
    requires st.err.Some?
    ensures ExecSteps(st, steps) == st
  {
    if steps != [] {
      ExecStepsStopped(st, steps[..|steps| - 1]);
    }
  }

  lemma {:induction false} ExecStepsConcat<W, T>(st: State<W>, a: seq<Step<W, T>>, b: seq<Step<W, T>>)
    ensures ExecSteps(st, a + b) == ExecSteps(ExecSteps(st, a), b)
  {
    if b == [] {
      assert a + b == a;
    } else {
      assert (a + b)[..|a + b| - 1] == a + b[..|b| - 1];
      ExecStepsConcat(st, a, b[..|b| - 1]);
    }
  }

  /** After an error, running a trace changes nothing. */
  lemma RunTraceStopped<W, T>(st: State<W>, t: Trace<W, T>)
    requires st.err.Some?
    ensures RunTrace(st, t) == st
  {
    ExecStepsStopped(st, t.steps);
  }

  /** A trace of one action call and no error is that call. */
  lemma RunSingle<W, T>(st: State<W>, s: Step<W, T>)
    ensures RunTrace(st, Trace([s], None)) == ExecStep(st, s)
  {
    assert [s][..0] == [];
    assert ExecSteps(st, [s]) == ExecStep(st, s);
  }

  /** Running `Then(a, b)` is running `a` and then `b`. */
  lemma RunThen<W, T>(st: State<W>, a: Trace<W, T>, b: Trace<W, T>)
    requires st.err.None?
    ensures RunTrace(st, Then(a, b)) == RunTrace(RunTrace(st, a), b)
  {
    var mid := RunTrace(st, a);
    if mid.err.Some? {
      RunTraceStopped(mid, b);
      if a.fault.None? {
        ExecStepsConcat(st, a.steps, b.steps);
        ExecStepsStopped(ExecSteps(st, a.steps), b.steps);
      }
    } else {
      ExecStepsConcat(st, a.steps, b.steps);
    }
  }

  /** A chain over two lists of names is the chain over the first list, then
      the chain over the second: names are processed strictly in list order. */
  lemma {:induction false} ChainConcat<W, T>(cfg: Config<W, T>, ctx: T, a: seq<string>, b: seq<string>, n: int)
    requires n < cfg.maxSamples
    ensures ChainActivation(cfg, ctx, a + b, n) == Then(ChainActivation(cfg, ctx, a, n), ChainActivation(cfg, ctx, b, n))
  {
    if b == [] {
      assert a + b == a;
      var t := ChainActivation(cfg, ctx, a, n);
      assert t.steps + [] == t.steps;
    } else {
      var init := b[..|b| - 1];
      assert (a + b)[..|a + b| - 1] == a + init;
      assert (a + b)[|a + b| - 1] == b[|b| - 1];
      ChainConcat(cfg, ctx, a, init, n);
      ThenAssociative(ChainActivation(cfg, ctx, a, n), ChainActivation(cfg, ctx, init, n), Hop(cfg, ctx, b[|b| - 1], n));
    }
  }

  /** Activating two lists of candidates one after the other is activating
      their concatenation. */
  lemma {:induction false} ActivateAllConcat<W, T>(cfg: Config<W, T>, ctx: T, a: seq<Candidate<W, T>>, b: seq<Candidate<W, T>>)
    ensures ActivateAll(cfg, ctx, a + b) == Then(ActivateAll(cfg, ctx, a), ActivateAll(cfg, ctx, b))
  {
    if b == [] {
      assert a + b == a;
      var t := ActivateAll(cfg, ctx, a);
      assert t.steps + [] == t.steps;
    } else {
      var init := b[..|b| - 1];
      assert (a + b)[..|a + b| - 1] == a + init;
      assert (a + b)[|a + b| - 1] == b[|b| - 1];
      ActivateAllConcat(cfg, ctx, a, init);
      ThenAssociative(ActivateAll(cfg, ctx, a), ActivateAll(cfg, ctx, init), Activation(cfg, ctx, b[|b| - 1], 0));
    }
  }

  // ---------------------------------------------------------------------------
  // The depth guard, chaining and the error modes

  /** Every action call of an activation started at depth `n` runs at a depth
      from `n` up to, but not including, `maxSamples`. */
  lemma {:induction false} DepthBounded<W, T>(cfg: Config<W, T>, ctx: T, c: Candidate<W, T>, n: int)
    ensures forall s :: s in Activation(cfg, ctx, c, n).steps ==> n <= s.depth < cfg.maxSamples
    decreases cfg.maxSamples - n, 2
  {
    if n < cfg.maxSamples && c.Raw? && c.rule.action.Chain? {
      ChainDepthBounded(cfg, ctx, c.rule.action.names, n);
    }
  }

  lemma {:induction false} ChainDepthBounded<W, T>(cfg: Config<W, T>, ctx: T, names: seq<string>, n: int)
    requires n < cfg.maxSamples
    ensures forall s :: s in ChainActivation(cfg, ctx, names, n).steps ==> n < s.depth < cfg.maxSamples
    decreases cfg.maxSamples - n, 1, |names|
  {
    if names != [] {
      ChainDepthBounded(cfg, ctx, names[..|names| - 1], n);
      match FirstNamed(cfg.rules, names[|names| - 1])
      case None =>
      case Some(r) => DepthBounded(cfg, ctx, Raw(r), n + 1);
    }
  }

  /** Rules reached by name run on the whole context, as unscoped rules: no
      chained call receives a selector's target or a third argument. */
  lemma {:induction false} ChainedCallsGetContext<W, T>(cfg: Config<W, T>, ctx: T, rule: Rule<W, T>, n: int)
    ensures forall s :: s in Activation(cfg, ctx, Raw(rule), n).steps ==> s.target == ctx && s.outer.None?
    decreases cfg.maxSamples - n, 2
  {
    if n < cfg.maxSamples && rule.action.Chain? {
      ChainCallsGetContext(cfg, ctx, rule.action.names, n);
    }
  }

  lemma {:induction false} ChainCallsGetContext<W, T>(cfg: Config<W, T>, ctx: T, names: seq<string>, n: int)
    requires n < cfg.maxSamples
    ensures forall s :: s in ChainActivation(cfg, ctx, names, n).steps ==> s.target == ctx && s.outer.None?
    decreases cfg.maxSamples - n, 1, |names|
  {
    if names != [] {
      ChainCallsGetContext(cfg, ctx, names[..|names| - 1], n);
      match FirstNamed(cfg.rules, names[|names| - 1])
      case None =>
      case Some(r) => ChainedCallsGetContext(cfg, ctx, r, n + 1);
    }
  }

  /** A scoped rule cannot chain: below the depth limit its activation is one
      call of its function with the target and the context, or nothing. */
  lemma ScopedCannotChain<W, T>(cfg: Config<W, T>, ctx: T, rule: Rule<W, T>, target: T, n: int)
    requires n < cfg.maxSamples
    ensures rule.action.Direct? ==> Activation(cfg, ctx, Wrapped(rule, target), n) == Trace([Step(rule, target, Some(ctx), n)], None)
    ensures !rule.action.Direct? ==> Activation(cfg, ctx, Wrapped(rule, target), n) == Trace([], None)
  {
  }

  /** In lenient mode neither the depth guard nor a missing name throws:
      the engine adds no error of its own to an activation. */
  lemma {:induction false} LenientNeverThrows<W, T>(cfg: Config<W, T>, ctx: T, c: Candidate<W, T>, n: int)
    requires !cfg.strict
    ensures Activation(cfg, ctx, c, n).fault.None?
    decreases cfg.maxSamples - n, 2
  {
    if n < cfg.maxSamples && c.Raw? && c.rule.action.Chain? {
      LenientChainNeverThrows(cfg, ctx, c.rule.action.names, n);
    }
  }

  lemma {:induction false} LenientChainNeverThrows<W, T>(cfg: Config<W, T>, ctx: T, names: seq<string>, n: int)
    requires !cfg.strict && n < cfg.maxSamples
    ensures ChainActivation(cfg, ctx, names, n).fault.None?
    decreases cfg.maxSamples - n, 1, |names|
  {
    if names != [] {
      LenientChainNeverThrows(cfg, ctx, names[..|names| - 1], n);
      match FirstNamed(cfg.rules, names[|names| - 1])
      case None =>
      case Some(r) => LenientNeverThrows(cfg, ctx, Raw(r), n + 1);
    }
  }

  /** A chain naming a missing rule throws `RuleNotFound` in strict mode when
      it reaches that name, and skips it otherwise. */
  lemma MissingName<W, T>(cfg: Config<W, T>, ctx: T, name: string, n: int)
    requires n < cfg.maxSamples
    requires forall j :: 0 <= j < |cfg.rules| ==> !Named(cfg.rules[j], name)
    ensures Hop(cfg, ctx, name, n) == Trace([], if cfg.strict then Some(RuleNotFound(name)) else None)
  {
  }

  /** A rule that chains to itself (the first rule named `name` has the action
      `[name]`) recurses until the depth guard: strict mode then throws
      `MaxSamplesReached`, lenient mode stops quietly, and no action runs. */
  lemma {:induction false} SelfChain<W, T>(cfg: Config<W, T>, ctx: T, name: string, n: int)
    requires FirstNamed(cfg.rules, name).Some?
    requires FirstNamed(cfg.rules, name).value.action == Chain([name])
    ensures Activation(cfg, ctx, Raw(FirstNamed(cfg.rules, name).value), n)
      == Trace([], if cfg.strict then Some(MaxSamplesReached) else None)
    decreases cfg.maxSamples - n
  {
    if n < cfg.maxSamples {
      var a := FirstNamed(cfg.rules, name).value;
      SelfChain(cfg, ctx, name, n + 1);
      assert [name][..0] == [];
      assert ChainActivation(cfg, ctx, [name], n) == Then(Trace([], None), Hop(cfg, ctx, name, n));
    }
  }

  /** A pass with no candidates leaves the heap alone and returns a copy of
      `outputBase`. */
  lemma NoCandidatesNoChange<W, T>(cfg: Config<W, T>, ctx: T, h: W, u: real)
    requires Matches(cfg.rules, h, ctx) == Ok([])
    ensures Pass(cfg, ctx, h, u) == State(h, cfg.outputBase, None)
  {
  }

  /** The errors the output calls of an action can throw. */
  predicate OutputError(e: Error)
  {
    e == CannotAppend || e == TypeError || e == RangeError
  }

  lemma {:induction false} ApplyCallsErrors<W>(st: State<W>, ops: seq<OutputOp>)
    requires st.err.None? || OutputError(st.err.value)
    ensures ApplyCalls(st, ops).err.None? || OutputError(ApplyCalls(st, ops).err.value)
  {
    if ops != [] {
      ApplyCallsErrors(st, ops[..|ops| - 1]);
    }
  }

  lemma {:induction false} ExecStepsErrors<W, T>(st: State<W>, steps: seq<Step<W, T>>)
    requires st.err.None? || OutputError(st.err.value)
    ensures ExecSteps(st, steps).err.None? || OutputError(ExecSteps(st, steps).err.value)
  {
    if steps != [] {
      var before := ExecSteps(st, steps[..|steps| - 1]);
      ExecStepsErrors(st, steps[..|steps| - 1]);
      var s := steps[|steps| - 1];
      if before.err.None? && s.rule.action.Direct? {
        var e := s.rule.action.run(before.heap, s.target, s.outer);
        ApplyCallsErrors(State(e.heap, before.content, None), e.calls);
      }
    }
  }

  lemma {:induction false} LenientActivateAll<W, T>(cfg: Config<W, T>, ctx: T, cs: seq<Candidate<W, T>>)
    requires !cfg.strict
    ensures ActivateAll(cfg, ctx, cs).fault.None?
  {
    if cs != [] {
      LenientActivateAll(cfg, ctx, cs[..|cs| - 1]);
      LenientNeverThrows(cfg, ctx, cs[|cs| - 1], 0);
    }
  }

  /** A lenient pass can still throw, but only what an output call throws or
      the `TypeError` of a selector that does not return an array: never
      `RuleNotFound` and never `MaxSamplesReached`. */
  lemma LenientPassErrors<W, T>(cfg: Config<W, T>, ctx: T, h: W, u: real)
    requires !cfg.strict
    ensures Pass(cfg, ctx, h, u).err.None? || OutputError(Pass(cfg, ctx, h, u).err.value)
  {
    MatchesErrors(cfg.rules, h, ctx);
    match Matches(cfg.rules, h, ctx)
    case Err(e) =>
    case Ok(cs) =>
      var t := ActivateAll(cfg, ctx, Selected(cfg.ruleSelection, cs, u));
      LenientActivateAll(cfg, ctx, Selected(cfg.ruleSelection, cs, u));
      ExecStepsErrors(State(h, cfg.outputBase, None), t.steps);
  }
}
