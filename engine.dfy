/** The two classes of the engine: `Procedural`, which owns the rule list and
    the configuration and runs passes, and `Output`, the accumulator a pass
    returns. Each method is proved against the functions of the modules
    `Outputs`, `Matching`, `Selection` and `Activation`.

    The heap the context lives in is passed to a pass and returned from it. */
module Engine {
  import opened Js
  import opened Outputs
  import opened Rules
  import opened Matching
  import opened Selection
  import opened Activations

  class Procedural<W, T> {
    var context: T
    var rules: seq<Rule<W, T>>
    var maxSamples: int
    var strict: bool
    var outputBase: Value
    var ruleSelection: string

    /** The configuration the specification functions read. */
    function Cfg(): Config<W, T>
      reads this
    {
      Config(rules, maxSamples, strict, outputBase, ruleSelection)
    }

    /** `new Procedural(context, rules)`: a copy of the rule list (a sequence
        value cannot alias the caller's), strict mode, at most 4 chained
        levels, empty text output, every candidate selected. */
    constructor(context: T, rules: seq<Rule<W, T>>)
      ensures this.context == context && this.rules == rules
      ensures maxSamples == 4 && strict && outputBase == Str("") && ruleSelection == "all"
    {
      this.context := context;
      this.rules := rules;
      maxSamples := 4;
      strict := true;
      outputBase := Str("");
      ruleSelection := "all";
    }

    method SetContext(context: T)
      modifies this
      ensures this.context == context && Cfg() == old(Cfg())
    {
      this.context := context;
    }

    method SetMaxSamples(maxSamples: int) returns (self: Procedural<W, T>)
      modifies this
      ensures self == this && this.maxSamples == maxSamples
      ensures context == old(context) && Cfg() == old(Cfg()).(maxSamples := maxSamples)
    {
      this.maxSamples := maxSamples;
      self := this;
    }

    method SetOutputBase(outputBase: Value) returns (self: Procedural<W, T>)
      modifies this
      ensures self == this && this.outputBase == outputBase
      ensures context == old(context) && Cfg() == old(Cfg()).(outputBase := outputBase)
    {
      this.outputBase := outputBase;
      self := this;
    }

    method SetRuleSelection(policy: string)
      modifies this
      ensures ruleSelection == policy
      ensures context == old(context) && Cfg() == old(Cfg()).(ruleSelection := policy)
    {
      ruleSelection := policy;
    }

    /** `addRule(...added)`: the new rules go after the old ones, in order. */
    method AddRule(added: seq<Rule<W, T>>) returns (self: Procedural<W, T>)
      modifies this
      ensures self == this && rules == old(rules) + added
      ensures context == old(context) && Cfg() == old(Cfg()).(rules := rules)
    {
      rules := rules + added;
      self := this;
    }

    /** `removeRule(name)`: splices out the first rule called `name` only; an
        absent name throws in strict mode and changes nothing otherwise. */
    method RemoveRule(name: string) returns (self: Procedural<W, T>, err: Option<Error>)
      modifies this
      ensures self == this
      ensures match FirstNamedIndex(old(rules), name)
        case Some(k) => rules == old(rules)[..k] + old(rules)[k + 1..] && err.None?
        case None => rules == old(rules) && err == (if strict then Some(RuleNotFound(name)) else None)
      ensures context == old(context) && Cfg() == old(Cfg()).(rules := rules)
    {
      var id := FirstNamedIndex(rules, name);
      self, err := this, None;
      if id.Some? {
        rules := rules[..id.value] + rules[id.value + 1..];
      } else if strict {
        err := Some(RuleNotFound(name));
      }
    }

    /** `run()`, with `u` the value `Math.random()` returns to the `random`
        policy: a fresh output bound to this engine, every test evaluated on
        the heap as it is, the selected candidates activated in order. The
        first error ends the pass; `run()` then throws, and `out` is never
        handed to the caller. */
    method Run(h: W, u: real) returns (out: Output<W, T>, h': W, err: Option<Error>)
      ensures fresh(out) && out.source == this
      ensures State(h', out.content, err) == Pass(Cfg(), context, h, u)
    {
      out := new Output(outputBase, this);
      var found := GetMatchingRules(h);
      if found.Err? {
        return out, h, Some(found.error);
      }
      var chosen := SelectRules(found.value, u);
      h', err := ActivateSelected(chosen, out, h);
    }

    /** `selected.forEach(rule => this.activateRule(rule, output))`. */
    method ActivateSelected(chosen: seq<Candidate<W, T>>, out: Output<W, T>, h: W) returns (h': W, err: Option<Error>)
      modifies out
      ensures out.source == old(out.source)
      ensures State(h', out.content, err) == RunTrace(State(h, old(out.content), None), ActivateAll(Cfg(), context, chosen))
    {
      ghost var st0 := State(h, out.content, None);
      h', err := h, None;
      var i := 0;
      while i < |chosen| && err.None?
        invariant 0 <= i <= |chosen|
        invariant out.source == old(out.source)
        invariant State(h', out.content, err) == RunTrace(st0, ActivateAll(Cfg(), context, chosen[..i]))
      {
        assert chosen[..i + 1][..i] == chosen[..i];
        RunThen(st0, ActivateAll(Cfg(), context, chosen[..i]), Activation(Cfg(), context, chosen[i], 0));
        h', err := ActivateRule(chosen[i], out, h', 0);
        i := i + 1;
      }
      if err.Some? {
        assert chosen == chosen[..i] + chosen[i..];
        ActivateAllConcat(Cfg(), context, chosen[..i], chosen[i..]);
        RunThen(st0, ActivateAll(Cfg(), context, chosen[..i]), ActivateAll(Cfg(), context, chosen[i..]));
        RunTraceStopped(State(h', out.content, err), ActivateAll(Cfg(), context, chosen[i..]));
      } else {
        assert chosen[..i] == chosen;
      }
    }

    /** `getMatchingRules()`, with the heap the tests and resolvers read. */
    method GetMatchingRules(h: W) returns (r: Result<seq<Candidate<W, T>>>)
      ensures r == Matches(rules, h, context)
    {
      var result: seq<Candidate<W, T>> := [];
      var i := 0;
      while i < |rules|
        invariant 0 <= i <= |rules|
        invariant Matches(rules[..i], h, context) == Ok(result)
      {
        MatchesStep(rules, h, context, i);
        var next := CandidatesInto(rules[i], h, result);
        if next.Err? {
          MatchesStuck(rules, h, context, i + 1);
          return next;
        }
        result := next.value;
        i := i + 1;
      }
      assert rules[..i] == rules;
      return Ok(result);
    }

    /** The body of `getMatchingRules`' loop for one rule: its candidates
        appended to `acc`. */
    method CandidatesInto(rule: Rule<W, T>, h: W, acc: seq<Candidate<W, T>>) returns (r: Result<seq<Candidate<W, T>>>)
      ensures r == Combine(Ok(acc), RuleCandidates(rule, h, context))
    {
      match rule.on {
        case Single(f) =>
          var objects := f(h, context);
          if objects.None? {
            assert acc + [] == acc;
            return Ok(acc);
          }
          var objs := objects.value;
          var result := acc;
          var j := 0;
          while j < |objs|
            invariant 0 <= j <= |objs|
            invariant result == acc + Filtered(rule, h, objs[..j])
          {
            assert objs[..j + 1][..j] == objs[..j];
            if MatchRule(rule, h, objs[j]) {
              result := result + [Wrapped(rule, objs[j])];
            }
            j := j + 1;
          }
          assert objs[..j] == objs;
          return Ok(result);
        case Levels(fs) =>
          if fs == [] {
            return Err(TypeError);
          }
          r := DescendInto(rule, fs, 0, h, context, acc);
        case Unscoped =>
          if MatchRule(rule, h, context) {
            return Ok(acc + [Raw(rule)]);
          }
          assert acc + [] == acc;
          return Ok(acc);
      }
    }

    /** `step(x, layer)`: appends to `acc` the leaf candidates below `x`, depth
        first; a resolver result that is not an array throws. */
    method DescendInto(rule: Rule<W, T>, fs: seq<(W, T) -> Option<seq<T>>>, layer: nat, h: W, x: T, acc: seq<Candidate<W, T>>)
      returns (r: Result<seq<Candidate<W, T>>>)
      requires layer < |fs|
      ensures r == Combine(Ok(acc), Descend(rule, fs, layer, h, x))
      decreases |fs| - layer
    {
      var objects := fs[layer](h, x);
      if objects.None? {
        return Err(TypeError);
      }
      var objs := objects.value;
      var result := acc;
      var j := 0;
      assert objs[..0] == [] && acc + [] == acc;
      while j < |objs|
        invariant 0 <= j <= |objs|
        invariant Combine(Ok(acc), DescendEach(rule, fs, layer, h, objs[..j])) == Ok(result)
      {
        var o := objs[j];
        DescendEachStep(rule, fs, layer, h, objs, j);
        CombineAssociative(Ok(acc), DescendEach(rule, fs, layer, h, objs[..j]), Below(rule, fs, layer, h, o));
        if layer == |fs| - 1 {
          if MatchRule(rule, h, o) {
            result := result + [Wrapped(rule, o)];
          } else {
            assert result + [] == result;
          }
        } else {
          var below := DescendInto(rule, fs, layer + 1, h, o, result);
          if below.Err? {
            DescendEachStuck(rule, fs, layer, h, objs, j + 1);
            return below;
          }
          result := below.value;
        }
        j := j + 1;
      }
      assert objs[..j] == objs;
      return Ok(result);
    }

    /** `selectRules(candidates)` with `u` the value `Math.random()` returns. */
    method SelectRules(cs: seq<Candidate<W, T>>, u: real) returns (sel: seq<Candidate<W, T>>)
      ensures sel == Selected(ruleSelection, cs, u)
    {
      if |cs| == 0 {
        return [];
      }
      if ruleSelection == "all" {
        return cs;
      } else if ruleSelection == "first" {
        return [cs[0]];
      } else if ruleSelection == "priority" {
        var max := MaxPriority(cs);
        return [cs[max]];
      } else if ruleSelection == "random" {
        sel := RandomDraw(cs, u);
        return;
      }
      return [];
    }

    /** `activateRule(c, output, n)`, with the heap the actions read and write. */
    method ActivateRule(c: Candidate<W, T>, out: Output<W, T>, h: W, n: int) returns (h': W, err: Option<Error>)
      modifies out
      ensures out.source == old(out.source)
      ensures State(h', out.content, err) == RunTrace(State(h, old(out.content), None), Activation(Cfg(), context, c, n))
      decreases maxSamples - n, 2
    {
      if n >= maxSamples {
        return h, if strict then Some(MaxSamplesReached) else None;
      }
      if c.rule.action.Direct? {
        var s := if c.Wrapped? then Step(c.rule, c.target, Some(context), n) else Step(c.rule, context, None, n);
        RunSingle(State(h, out.content, None), s);
        h', err := Invoke(s, out, h);
      } else if c.Raw? && c.rule.action.Chain? {
        h', err := ActivateChain(c.rule.action.names, out, h, n);
      } else {
        h', err := h, None;
      }
    }

    /** `names.forEach(runRuleByName)` inside an activation at depth `n`. */
    method ActivateChain(names: seq<string>, out: Output<W, T>, h: W, n: int) returns (h': W, err: Option<Error>)
      requires n < maxSamples
      modifies out
      ensures out.source == old(out.source)
      ensures State(h', out.content, err) == RunTrace(State(h, old(out.content), None), ChainActivation(Cfg(), context, names, n))
      decreases maxSamples - n, 1
    {
      ghost var st0 := State(h, out.content, None);
      h', err := h, None;
      var i := 0;
      while i < |names| && err.None?
        invariant 0 <= i <= |names|
        invariant out.source == old(out.source)
        invariant State(h', out.content, err) == RunTrace(st0, ChainActivation(Cfg(), context, names[..i], n))
      {
        var name := names[i];
        assert names[..i + 1][..i] == names[..i];
        RunThen(st0, ChainActivation(Cfg(), context, names[..i], n), Hop(Cfg(), context, name, n));
        var target := FirstNamed(rules, name);
        if target.None? {
          if strict {
            err := Some(RuleNotFound(name));
          }
        } else {
          h', err := ActivateRule(Raw(target.value), out, h', n + 1);
        }
        i := i + 1;
      }
      if err.Some? {
        assert names == names[..i] + names[i..];
        ChainConcat(Cfg(), context, names[..i], names[i..], n);
        RunThen(st0, ChainActivation(Cfg(), context, names[..i], n), ChainActivation(Cfg(), context, names[i..], n));
        RunTraceStopped(State(h', out.content, err), ChainActivation(Cfg(), context, names[i..], n));
      } else {
        assert names[..i] == names;
      }
    }
  }

  /** The `priority` walk of `selectRules`: comparing the first candidate with
      itself changes nothing, so the walk starts at the second. */
  method MaxPriority<W, T>(cs: seq<Candidate<W, T>>) returns (max: nat)
    requires |cs| > 0
    ensures max == PriorityIndex(cs)
  {
    max := 0;
    var i := 1;
    assert cs[..1] == [cs[0]];
    while i < |cs|
      invariant 1 <= i <= |cs|
      invariant max == PriorityIndex(cs[..i])
    {
      assert cs[..i + 1][..i] == cs[..i];
      if Priority(cs[i]) > Priority(cs[max]) {
        max := i;
      }
      i := i + 1;
    }
    assert cs[..i] == cs;
  }

  /** The `random` policy of `selectRules`: the total rate, the draw scaled
      by it, then the walk. */
  method RandomDraw<W, T>(cs: seq<Candidate<W, T>>, u: real) returns (sel: seq<Candidate<W, T>>)
    ensures sel == Drawn(cs, u)
  {
    var probSum := TotalRate(cs);
    var r := Scaled(u, probSum);
    var k := Walk(cs, r);
    sel := if k.Some? then [cs[k.value]] else [];
    assert sel == PickedAt(cs, r);
  }

  /** The second loop of the `random` walk: the first candidate whose running
      total of `rate || 1` exceeds `r`. */
  method Walk<W, T>(cs: seq<Candidate<W, T>>, r: real) returns (k: Option<nat>)
    ensures k == Pick(cs, r)
  {
    var s := 0.0;
    var i := 0;
    while i < |cs|
      invariant 0 <= i <= |cs|
      invariant s == Cum(cs, i)
      invariant forall j :: 0 < j <= i ==> Cum(cs, j) <= r
    {
      assert cs[..i + 1][..i] == cs[..i];
      s := s + Rate(cs[i]);
      if s > r {
        PickIsFirstExceeding(cs, r, i);
        return Some(i);
      }
      i := i + 1;
    }
    PickNone(cs, r);
    return None;
  }

  /** The first loop of the `random` walk: the sum of `rate || 1`. */
  method TotalRate<W, T>(cs: seq<Candidate<W, T>>) returns (probSum: real)
    ensures probSum == RateSum(cs)
  {
    probSum := 0.0;
    var i := 0;
    while i < |cs|
      invariant 0 <= i <= |cs|
      invariant probSum == RateSum(cs[..i])
    {
      assert cs[..i + 1][..i] == cs[..i];
      probSum := probSum + Rate(cs[i]);
      i := i + 1;
    }
    assert cs[..i] == cs;
  }

  /** Calls a rule's action function and performs the output calls it makes,
      in order, until one throws. */
  method Invoke<W, T>(s: Step<W, T>, out: Output<W, T>, h: W) returns (h': W, err: Option<Error>)
    requires s.rule.action.Direct?
    modifies out
    ensures out.source == old(out.source)
    ensures State(h', out.content, err) == ExecStep(State(h, old(out.content), None), s)
  {
    var effect := s.rule.action.run(h, s.target, s.outer);
    h', err := effect.heap, None;
    var i := 0;
    while i < |effect.calls| && err.None?
      invariant 0 <= i <= |effect.calls|
      invariant out.source == old(out.source)
      invariant State(h', out.content, err) == ApplyCalls(State(effect.heap, old(out.content), None), effect.calls[..i])
    {
      assert effect.calls[..i + 1][..i] == effect.calls[..i];
      match effect.calls[i] {
        case Append(v, sep) => var _, e := out.Append(v, sep); err := e;
        case SetContent(v) => out.Set(v);
        case SetField(k, v) => err := out.SetField(k, v);
      }
      i := i + 1;
    }
    if err.Some? {
      ApplyCallsStuck(State(effect.heap, old(out.content), None), effect.calls, i);
    } else {
      assert effect.calls[..i] == effect.calls;
    }
  }

  /** The accumulator a pass returns, bound to the engine that produced it. */
  class Output<W, T> {
    var content: Value
    var source: Procedural?<W, T>

    constructor(content: Value, source: Procedural?<W, T>)
      ensures this.content == content && this.source == source
    {
      this.content := content;
      this.source := source;
    }

    /** `append(v, sep)`, which returns the output itself; an error is
        returned instead of thrown. */
    method Append(v: Value, sep: Value) returns (self: Output<W, T>, err: Option<Error>)
      modifies this
      ensures self == this && source == old(source)
      ensures match Appended(old(content), v, sep)
        case Ok(c) => content == c && err.None?
        case Err(e) => content == old(content) && err == Some(e)
    {
      var r := Appended(content, v, sep);
      self := this;
      if r.Ok? {
        content := r.value;
        err := None;
      } else {
        err := Some(r.error);
      }
    }

    /** `blendOutput(other, sep)`, which returns the output itself. */
    method BlendOutput(other: Output<W, T>, sep: Value) returns (self: Output<W, T>, err: Option<Error>)
      modifies this
      ensures self == this && source == old(source)
      ensures match Blended(old(content), old(other.content), sep)
        case Ok(c) => content == c && err.None?
        case Err(e) => content == old(content) && err == Some(e)
    {
      var r := Blended(content, other.content, sep);
      self := this;
      if r.Ok? {
        content := r.value;
        err := None;
      } else {
        err := Some(r.error);
      }
    }

    /** `set(v)`: replaces the whole content. */
    method Set(v: Value)
      modifies this
      ensures content == v && source == old(source)
    {
      content := v;
    }

    /** `set(key, v)`. */
    method SetField(key: string, v: Value) returns (err: Option<Error>)
      modifies this
      ensures source == old(source)
      ensures match WithField(old(content), key, v)
        case Ok(c) => content == c && err.None?
        case Err(e) => content == old(content) && err == Some(e)
    {
      var r := WithField(content, key, v);
      if r.Ok? {
        content := r.value;
        err := None;
      } else {
        err := Some(r.error);
      }
    }

    /** `get()`: the content itself. */
    method Get() returns (r: Value)
      ensures r == content
    {
      r := content;
    }

    /** `again(sep)`: one more pass of the engine that produced this output,
        on the heap as the previous passes left it, blended into this output.
        An output built without an engine repeats nothing and blends in
        `undefined`, whose `content` cannot be read where blending reads it.
        Like `blendOutput`, it returns the output itself. */
    method Again(sep: Value, h: W, u: real) returns (self: Output<W, T>, h': W, err: Option<Error>)
      modifies this
      ensures self == this && source == old(source)
      ensures source != null ==>
        State(h', content, err) == AgainResult(old(content), Pass(source.Cfg(), source.context, h, u), sep)
      ensures source == null ==>
        h' == h && content == old(content)
        && err == (if content.Str? || content.List? || content.Rec? then Some(TypeError) else None)
    {
      self := this;
      if source == null {
        h' := h;
        err := if content.Str? || content.List? || content.Rec? then Some(TypeError) else None;
        return;
      }
      var next, h2, e := source.Run(h, u);
      h' := h2;
      if e.Some? {
        return this, h', e;
      }
      self, err := BlendOutput(next, sep);
    }
  }
}
