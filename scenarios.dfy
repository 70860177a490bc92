/** The repository's own usage scenarios, instantiated on concrete heaps and
    rules and worked out through the specification functions: matching with
    tests of every kind, chained actions in list order, the gardener story
    told by `run().again("\n")`, and four passes over characters found by a
    selector. */
module Scenarios {
  import opened Js
  import opened Outputs
  import opened Rules
  import opened Matching
  import opened Selection
  import opened Activations
  import opened Engine

  /** An action that writes `h2` and makes the single call `append(v, sep)`. */
  lemma ExecAppend<W, T>(st: State<W>, s: Step<W, T>, h2: W, v: Value, sep: Value, c: Value)
    requires st.err.None? && s.rule.action.Direct?
    requires s.rule.action.run(st.heap, s.target, s.outer) == Effect(h2, [Append(v, sep)])
    requires Appended(st.content, v, sep) == Ok(c)
    ensures ExecStep(st, s) == State(h2, c, None)
  {
    var op := Append(v, sep);
    assert [op][..0] == [];
    assert ApplyCalls(State(h2, st.content, None), [op]) == ApplyCall(State(h2, st.content, None), op);
  }

  /** A trace of two error-free steps. */
  lemma RunTwo<W, T>(st: State<W>, s1: Step<W, T>, s2: Step<W, T>)
    ensures RunTrace(st, Trace([s1, s2], None)) == ExecStep(ExecStep(st, s1), s2)
  {
    assert [s1, s2][..1] == [s1] && [s1][..0] == [];
    assert ExecSteps(st, [s1]) == ExecStep(st, s1);
    assert ExecSteps(st, [s1, s2]) == ExecStep(ExecStep(st, s1), s2);
    if ExecStep(ExecStep(st, s1), s2).err.None? {
      assert RunTrace(st, Trace([s1, s2], None)) == ExecStep(ExecStep(st, s1), s2);
    }
  }

  /** Activating one candidate, or two, from depth 0. */
  lemma ActivateOne<W, T>(cfg: Config<W, T>, ctx: T, c: Candidate<W, T>)
    ensures ActivateAll(cfg, ctx, [c]) == Activation(cfg, ctx, c, 0)
  {
    assert [c][..0] == [];
  }

  lemma ActivateTwo<W, T>(cfg: Config<W, T>, ctx: T, c1: Candidate<W, T>, c2: Candidate<W, T>)
    ensures ActivateAll(cfg, ctx, [c1, c2]) == Then(Activation(cfg, ctx, c1, 0), Activation(cfg, ctx, c2, 0))
  {
    assert [c1, c2][..1] == [c1];
    ActivateOne(cfg, ctx, c1);
  }

  /** Matching one more rule. */
  lemma MatchesSnoc<W, T>(rs: seq<Rule<W, T>>, r: Rule<W, T>, h: W, ctx: T, acc: seq<Candidate<W, T>>, add: seq<Candidate<W, T>>)
    requires Matches(rs, h, ctx) == Ok(acc) && RuleCandidates(r, h, ctx) == Ok(add)
    ensures Matches(rs + [r], h, ctx) == Ok(acc + add)
  {
    assert (rs + [r])[..|rs|] == rs;
  }

  // ---------------------------------------------------------------------------
  // Matching on the context: the second rule's test fails, the others hold

  datatype Blank = Blank

  function Always(): Rule<Blank, Blank>
  {
    Rule(None, Unscoped, Pred((h: Blank, x: Blank) => true), NoAction, 0.0, 0.0)
  }

  function Never(): Rule<Blank, Blank>
  {
    Rule(None, Unscoped, Pred((h: Blank, x: Blank) => false), NoAction, 0.0, 0.0)
  }

  /** An unnamed rule whose test returns the number 1: truthy, so it matches. */
  function ReturnsOne(): Rule<Blank, Blank>
  {
    Rule(None, Unscoped, Pred((h: Blank, x: Blank) => Truthy(Num(1))), NoAction, 0.0, 0.0)
  }

  /** Rules added one call after another keep their order, and only those
      whose test holds on the context are candidates, unwrapped. */
  lemma MatchingKeepsPassingRules()
    ensures Matches([Always(), Never(), ReturnsOne()], Blank, Blank) == Ok([Raw(Always()), Raw(ReturnsOne())])
  {
    MatchesSnoc([], Always(), Blank, Blank, [], [Raw(Always())]);
    assert [] + [Always()] == [Always()] && [] + [Raw(Always())] == [Raw(Always())];
    MatchesSnoc([Always()], Never(), Blank, Blank, [Raw(Always())], []);
    assert [Always()] + [Never()] == [Always(), Never()] && [Raw(Always())] + [] == [Raw(Always())];
    MatchesSnoc([Always(), Never()], ReturnsOne(), Blank, Blank, [Raw(Always())], [Raw(ReturnsOne())]);
    assert [Always(), Never()] + [ReturnsOne()] == [Always(), Never(), ReturnsOne()];
    assert [Raw(Always())] + [Raw(ReturnsOne())] == [Raw(Always()), Raw(ReturnsOne())];
  }

  // ---------------------------------------------------------------------------
  // A chain runs the rules it names in list order

  function Say(name: string): Rule<Blank, Blank>
  {
    Rule(Some(name), Unscoped, NoTest,
      Direct((h: Blank, x: Blank, outer: Option<Blank>) => Effect(h, [Append(Str(name), Undefined)])),
      0.0, 0.0)
  }

  /** Rule "A" of the rule-execution test: `test: true`, and an action that
      names other rules. */
  function Caller(names: seq<string>): Rule<Blank, Blank>
  {
    Rule(Some("A"), Unscoped, Lit(true), Chain(names), 0.0, 0.0)
  }

  function ChainConfig(): Config<Blank, Blank>
  {
    Config([Say("C"), Caller(["B", "C"]), Say("B")], 4, true, Str(""), "all")
  }

  lemma ChainMatches()
    ensures Matches(ChainConfig().rules, Blank, Blank) == Ok([Raw(Caller(["B", "C"]))])
  {
    var none: seq<Candidate<Blank, Blank>> := [];
    MatchesSnoc([], Say("C"), Blank, Blank, none, none);
    assert [] + [Say("C")] == [Say("C")] && none + none == none;
    MatchesSnoc([Say("C")], Caller(["B", "C"]), Blank, Blank, [], [Raw(Caller(["B", "C"]))]);
    assert [Say("C")] + [Caller(["B", "C"])] == [Say("C"), Caller(["B", "C"])] && [] + [Raw(Caller(["B", "C"]))] == [Raw(Caller(["B", "C"]))];
    MatchesSnoc([Say("C"), Caller(["B", "C"])], Say("B"), Blank, Blank, [Raw(Caller(["B", "C"]))], []);
    assert [Say("C"), Caller(["B", "C"])] + [Say("B")] == ChainConfig().rules && [Raw(Caller(["B", "C"]))] + [] == [Raw(Caller(["B", "C"]))];
  }

  lemma ChainTrace()
    ensures ChainActivation(ChainConfig(), Blank, ["B", "C"], 0)
      == Trace([Step(Say("B"), Blank, None, 1), Step(Say("C"), Blank, None, 1)], None)
  {
    var cfg := ChainConfig();
    var rs := cfg.rules;
    assert !Named(rs[0], "B") && Named(rs[2], "B") && Named(rs[0], "C") by {
      assert "C"[0] != "B"[0];
    }
    assert FirstNamedIndex(rs, "B") == Some(2);
    assert FirstNamedIndex(rs, "C") == Some(0);
    assert ["B", "C"][..1] == ["B"] && ["B"][..0] == [];
  }

  /** Rule "A" names "B" then "C": B's action runs first, one level deeper,
      and neither B nor C needs its test to hold. */
  lemma ChainRunsInListOrder(u: real)
    ensures Pass(ChainConfig(), Blank, Blank, u) == State(Blank, Str("B" + " " + "C"), None)
  {
    var cfg := ChainConfig();
    var sb := Step(Say("B"), Blank, None, 1);
    var sc := Step(Say("C"), Blank, None, 1);
    var t := Trace([sb, sc], None);
    var st := State(Blank, Str(""), None);
    ChainMatches();
    assert Selected(cfg.ruleSelection, [Raw(Caller(["B", "C"]))], u) == [Raw(Caller(["B", "C"]))];
    ActivateOne(cfg, Blank, Raw(Caller(["B", "C"])));
    ChainTrace();
    assert Activation(cfg, Blank, Raw(Caller(["B", "C"])), 0) == t;
    assert Pass(cfg, Blank, Blank, u) == RunTrace(st, t);
    RunTwo(st, sb, sc);
    assert "" + "" + "B" == "B";
    ExecAppend(st, sb, Blank, Str("B"), Undefined, Str("B"));
    AppendText("B", "C", Undefined);
    ExecAppend(State(Blank, Str("B"), None), sc, Blank, Str("C"), Undefined, Str("B" + " " + "C"));
  }

  // ---------------------------------------------------------------------------
  // The rule-execution test as written: the actions of B and C are the values
  // of the assignments `success = true` and `success = false`, booleans, so
  // the engine calls nothing when it reaches them

  /** A named rule without a test, whose action is not a function. */
  function Inert(name: string): Rule<Blank, Blank>
  {
    Rule(Some(name), Unscoped, NoTest, NoAction, 0.0, 0.0)
  }

  /** From the start, the first rule names a rule of the list and activating
      that rule does nothing, so the pass leaves an empty output and no error. */
  lemma FirstRuleRunsQuietly(u: real)
    ensures Pass(Config([Caller(["B"]), Inert("B")], 4, true, Str(""), "all"), Blank, Blank, u)
      == State(Blank, Str(""), None)
  {
    var cfg := Config([Caller(["B"]), Inert("B")], 4, true, Str(""), "all");
    var none: seq<Candidate<Blank, Blank>> := [];
    MatchesSnoc([], Caller(["B"]), Blank, Blank, none, [Raw(Caller(["B"]))]);
    assert [] + [Caller(["B"])] == [Caller(["B"])] && none + [Raw(Caller(["B"]))] == [Raw(Caller(["B"]))];
    MatchesSnoc([Caller(["B"])], Inert("B"), Blank, Blank, [Raw(Caller(["B"]))], none);
    assert [Caller(["B"])] + [Inert("B")] == cfg.rules && [Raw(Caller(["B"]))] + none == [Raw(Caller(["B"]))];
    assert Selected(cfg.ruleSelection, [Raw(Caller(["B"]))], u) == [Raw(Caller(["B"]))];
    ActivateOne(cfg, Blank, Raw(Caller(["B"])));
    assert !Named(cfg.rules[0], "B") by { assert "A"[0] != "B"[0]; }
    assert FirstNamedIndex(cfg.rules, "B") == Some(1);
    assert ["B"][..0] == [];
    assert Activation(cfg, Blank, Raw(Caller(["B"])), 0) == Trace([], None);
    var noSteps: seq<Step<Blank, Blank>> := [];
    assert ExecSteps(State(Blank, Str(""), None), noSteps) == State(Blank, Str(""), None);
  }

  /** After the first rule is removed and C and a new A naming B then C are
      added, both names are found and the pass is again quiet. */
  lemma SecondRuleRunsQuietly(u: real)
    ensures Pass(Config([Inert("B"), Inert("C"), Caller(["B", "C"])], 4, true, Str(""), "all"), Blank, Blank, u)
      == State(Blank, Str(""), None)
  {
    var cfg := Config([Inert("B"), Inert("C"), Caller(["B", "C"])], 4, true, Str(""), "all");
    var none: seq<Candidate<Blank, Blank>> := [];
    MatchesSnoc([], Inert("B"), Blank, Blank, none, none);
    assert [] + [Inert("B")] == [Inert("B")] && none + none == none;
    MatchesSnoc([Inert("B")], Inert("C"), Blank, Blank, none, none);
    assert [Inert("B")] + [Inert("C")] == [Inert("B"), Inert("C")];
    MatchesSnoc([Inert("B"), Inert("C")], Caller(["B", "C"]), Blank, Blank, none, [Raw(Caller(["B", "C"]))]);
    assert [Inert("B"), Inert("C")] + [Caller(["B", "C"])] == cfg.rules;
    assert none + [Raw(Caller(["B", "C"]))] == [Raw(Caller(["B", "C"]))];
    assert Selected(cfg.ruleSelection, [Raw(Caller(["B", "C"]))], u) == [Raw(Caller(["B", "C"]))];
    ActivateOne(cfg, Blank, Raw(Caller(["B", "C"])));
    assert !Named(cfg.rules[0], "C") by { assert "B"[0] != "C"[0]; }
    assert FirstNamedIndex(cfg.rules, "B") == Some(0);
    assert FirstNamedIndex(cfg.rules, "C") == Some(1);
    assert ["B", "C"][..1] == ["B"] && ["B"][..0] == [];
    assert ChainActivation(cfg, Blank, ["B"], 0) == Trace([], None);
    assert Activation(cfg, Blank, Raw(Caller(["B", "C"])), 0) == Trace([], None);
    var noSteps: seq<Step<Blank, Blank>> := [];
    assert ExecSteps(State(Blank, Str(""), None), noSteps) == State(Blank, Str(""), None);
  }

  /** The rule-execution test on the engine itself: a pass, then
      `removeRule("A").addRule(C, A')` chained on the engine it returns, then
      another pass. Every name is found, so neither pass throws; the rules end
      as [B, C, A']. */
  method RuleExecution(u1: real, u2: real) returns (first: State<Blank>, second: State<Blank>, rules: seq<Rule<Blank, Blank>>)
    ensures first == State(Blank, Str(""), None)
    ensures second == State(Blank, Str(""), None)
    ensures rules == [Inert("B"), Inert("C"), Caller(["B", "C"])]
  {
    var g := new Procedural(Blank, [Caller(["B"]), Inert("B")]);
    FirstRuleRunsQuietly(u1);
    var out1, h1, err1 := g.Run(Blank, u1);
    first := State(h1, out1.content, err1);
    assert FirstNamedIndex(g.rules, "A") == Some(0);
    assert g.rules[..0] + g.rules[1..] == [Inert("B")];
    var self, err := g.RemoveRule("A");
    self := self.AddRule([Inert("C"), Caller(["B", "C"])]);
    assert self.rules == [Inert("B"), Inert("C"), Caller(["B", "C"])];
    SecondRuleRunsQuietly(u2);
    var out2, h2, err2 := self.Run(h1, u2);
    second := State(h2, out2.content, err2);
    rules := self.rules;
  }

  // ---------------------------------------------------------------------------
  // The gardener story

  /** The context object: is the rose still there, is the gardener in. */
  datatype Garden = Garden(rose: bool, gardener: bool)

  function Enter(): Rule<Garden, Blank>
  {
    Rule(Some("A"), Unscoped, Pred((g: Garden, x: Blank) => !g.gardener),
      Direct((g: Garden, x: Blank, outer: Option<Blank>) =>
        Effect(g.(gardener := true), [Append(Str("Gardener enters the garden."), Undefined)])),
      0.0, 0.0)
  }

  function PickRose(): Rule<Garden, Blank>
  {
    Rule(Some("B"), Unscoped, Pred((g: Garden, x: Blank) => g.gardener && g.rose),
      Direct((g: Garden, x: Blank, outer: Option<Blank>) =>
        Effect(g.(rose := false), [Append(Str("The Gardener picks the rose."), Undefined)])),
      0.0, 0.0)
  }

  function Picked(): Rule<Garden, Blank>
  {
    Rule(Some("C"), Unscoped, Pred((g: Garden, x: Blank) => g.gardener && !g.rose),
      Direct((g: Garden, x: Blank, outer: Option<Blank>) =>
        Effect(g, [Append(Str("Rose already picked,"), Str("\n"))])),
      0.0, 0.0)
  }

  function CannotPick(): Rule<Garden, Blank>
  {
    Rule(Some("D"), Unscoped, Pred((g: Garden, x: Blank) => g.gardener && !g.rose),
      Direct((g: Garden, x: Blank, outer: Option<Blank>) =>
        Effect(g, [Append(Str("so the gardener can't pick it up anymore."), Str(" "))])),
      0.0, 0.0)
  }

  function GardenConfig(): Config<Garden, Blank>
  {
    Config([Enter(), PickRose(), Picked(), CannotPick()], 4, true, Str(""), "all")
  }

  /** Which of the four rules match in a given state of the garden. */
  lemma GardenMatches(g: Garden)
    ensures Matches(GardenConfig().rules, g, Blank) ==
      Ok((if !g.gardener then [Raw(Enter())] else [])
        + (if g.gardener && g.rose then [Raw(PickRose())] else [])
        + (if g.gardener && !g.rose then [Raw(Picked())] else [])
        + (if g.gardener && !g.rose then [Raw(CannotPick())] else []))
  {
    var a := if !g.gardener then [Raw(Enter())] else [];
    var b := if g.gardener && g.rose then [Raw(PickRose())] else [];
    var c := if g.gardener && !g.rose then [Raw(Picked())] else [];
    var d := if g.gardener && !g.rose then [Raw(CannotPick())] else [];
    MatchesSnoc([], Enter(), g, Blank, [], a);
    assert [] + [Enter()] == [Enter()] && [] + a == a;
    MatchesSnoc([Enter()], PickRose(), g, Blank, a, b);
    assert [Enter()] + [PickRose()] == [Enter(), PickRose()];
    MatchesSnoc([Enter(), PickRose()], Picked(), g, Blank, a + b, c);
    assert [Enter(), PickRose()] + [Picked()] == [Enter(), PickRose(), Picked()];
    MatchesSnoc([Enter(), PickRose(), Picked()], CannotPick(), g, Blank, a + b + c, d);
    assert [Enter(), PickRose(), Picked()] + [CannotPick()] == GardenConfig().rules;
  }

  /** The first pass: the gardener enters. */
  lemma GardenFirstPass(u: real)
    ensures Pass(GardenConfig(), Blank, Garden(true, false), u)
      == State(Garden(true, true), Str("Gardener enters the garden."), None)
  {
    var cfg := GardenConfig();
    var g := Garden(true, false);
    GardenMatches(g);
    assert [Raw(Enter())] + [] + [] + [] == [Raw(Enter())];
    assert Selected(cfg.ruleSelection, [Raw(Enter())], u) == [Raw(Enter())];
    ActivateOne(cfg, Blank, Raw(Enter()));
    var s := Step(Enter(), Blank, None, 0);
    assert Activation(cfg, Blank, Raw(Enter()), 0) == Trace([s], None);
    assert Pass(cfg, Blank, g, u) == RunTrace(State(g, Str(""), None), Trace([s], None));
    RunSingle(State(g, Str(""), None), s);
    assert "" + "" + "Gardener enters the garden." == "Gardener enters the garden.";
    ExecAppend(State(g, Str(""), None), s, Garden(true, true), Str("Gardener enters the garden."), Undefined, Str("Gardener enters the garden."));
  }

  /** The second pass: the gardener picks the rose. */
  lemma GardenSecondPass(u: real)
    ensures Pass(GardenConfig(), Blank, Garden(true, true), u)
      == State(Garden(false, true), Str("The Gardener picks the rose."), None)
  {
    var cfg := GardenConfig();
    var g := Garden(true, true);
    GardenMatches(g);
    assert [] + [Raw(PickRose())] + [] + [] == [Raw(PickRose())];
    assert Selected(cfg.ruleSelection, [Raw(PickRose())], u) == [Raw(PickRose())];
    ActivateOne(cfg, Blank, Raw(PickRose()));
    var s := Step(PickRose(), Blank, None, 0);
    assert Activation(cfg, Blank, Raw(PickRose()), 0) == Trace([s], None);
    assert Pass(cfg, Blank, g, u) == RunTrace(State(g, Str(""), None), Trace([s], None));
    RunSingle(State(g, Str(""), None), s);
    assert "" + "" + "The Gardener picks the rose." == "The Gardener picks the rose.";
    ExecAppend(State(g, Str(""), None), s, Garden(false, true), Str("The Gardener picks the rose."), Undefined, Str("The Gardener picks the rose."));
  }

  /** The third pass: two rules match and their outputs join with the second
      one's separator, the first one's being dropped on the empty text. */
  lemma GardenThirdPass(u: real)
    ensures Pass(GardenConfig(), Blank, Garden(false, true), u)
      == State(Garden(false, true), Str("Rose already picked," + " " + "so the gardener can't pick it up anymore."), None)
  {
    var cfg := GardenConfig();
    var g := Garden(false, true);
    GardenMatches(g);
    var cs := [Raw(Picked()), Raw(CannotPick())];
    assert [] + [] + [Raw(Picked())] + [Raw(CannotPick())] == cs;
    assert Selected(cfg.ruleSelection, cs, u) == cs;
    ActivateTwo(cfg, Blank, Raw(Picked()), Raw(CannotPick()));
    var s1 := Step(Picked(), Blank, None, 0);
    var s2 := Step(CannotPick(), Blank, None, 0);
    assert ActivateAll(cfg, Blank, cs) == Trace([s1, s2], None);
    assert Pass(cfg, Blank, g, u) == RunTrace(State(g, Str(""), None), Trace([s1, s2], None));
    RunTwo(State(g, Str(""), None), s1, s2);
    var first := "Rose already picked,";
    var second := "so the gardener can't pick it up anymore.";
    assert "" + "" + first == first;
    ExecAppend(State(g, Str(""), None), s1, g, Str(first), Str("\n"), Str(first));
    AppendText(first, second, Str(" "));
    ExecAppend(State(g, Str(first), None), s2, g, Str(second), Str(" "), Str(first + " " + second));
  }

  /** `run().again("\n")` tells the first two steps of the story on two lines,
      and a further `run()` finds the rose already picked. */
  lemma GardenerStory(u1: real, u2: real, u3: real)
    ensures var first := Pass(GardenConfig(), Blank, Garden(true, false), u1);
      var second := Pass(GardenConfig(), Blank, first.heap, u2);
      var told := AgainResult(first.content, second, Str("\n"));
      && told == State(Garden(false, true), Str("Gardener enters the garden." + "\n" + "The Gardener picks the rose."), None)
      && Pass(GardenConfig(), Blank, told.heap, u3)
         == State(Garden(false, true), Str("Rose already picked," + " " + "so the gardener can't pick it up anymore."), None)
  {
    GardenFirstPass(u1);
    GardenSecondPass(u2);
    BlendText("Gardener enters the garden.", "The Gardener picks the rose.", Str("\n"));
    GardenThirdPass(u3);
  }

  /** The same two lines told by the engine and its output, chained as in
      `g.run().again("\n").get()`: `again` returns the output it blended
      into, and `get` reads it. */
  method GardenerOnEngine(u1: real, u2: real) returns (text: Value, err: Option<Error>, h: Garden)
    ensures text == Str("Gardener enters the garden." + "\n" + "The Gardener picks the rose.")
    ensures err.None? && h == Garden(false, true)
  {
    var g := new Procedural(Blank, GardenConfig().rules);
    assert g.Cfg() == GardenConfig();
    GardenFirstPass(u1);
    GardenSecondPass(u2);
    BlendText("Gardener enters the garden.", "The Gardener picks the rose.", Str("\n"));
    var out, h1, err1 := g.Run(Garden(true, false), u1);
    var again, h2, err2 := out.Again(Str("\n"), h1, u2);
    text := again.Get();
    err, h := err2, h2;
  }

  // ---------------------------------------------------------------------------
  // Four passes over the characters a selector finds

  /** The objects of the scenario: the context and its two characters. */
  datatype Who = Root | Brad | Jack

  datatype Person = Person(tired: bool, sleeping: bool)

  /** The heap: the state of each character. */
  datatype Cast = Cast(brad: Person, jack: Person)

  function Of(c: Cast, w: Who): Person
  {
    if w == Jack then c.jack else c.brad
  }

  function With(c: Cast, w: Who, p: Person): Cast
  {
    if w == Jack then c.(jack := p) else if w == Brad then c.(brad := p) else c
  }

  function NameOf(w: Who): string
  {
    match w
    case Brad => "Brad"
    case Jack => "Jack"
    case Root => ""
  }

  /** A line of the story: a character's name followed by what happens. */
  function Line(w: Who, what: string): string
  {
    NameOf(w) + what
  }

  /** A rule over `ctx.characters` whose test asks for the character's two
      flags to be `tired` and `sleeping`, and whose action sets one flag and
      appends a line with the separator " ". */
  function CastRule(name: string, tired: bool, sleeping: bool, after: Person, what: string): Rule<Cast, Who>
  {
    Rule(Some(name), Single((c: Cast, x: Who) => Some([Brad, Jack])),
      Pred((c: Cast, w: Who) => w != Root && Of(c, w) == Person(tired, sleeping)),
      Direct((c: Cast, w: Who, outer: Option<Who>) =>
        Effect(With(c, w, after), [Append(Str(Line(w, what)), Str(" "))])),
      0.0, 0.0)
  }

  function Sleep(): Rule<Cast, Who> { CastRule("A", true, false, Person(true, true), " goes to sleep.") }
  function Rest(): Rule<Cast, Who> { CastRule("B", true, true, Person(false, true), " isn't tired anymore.") }
  function Wake(): Rule<Cast, Who> { CastRule("C", false, true, Person(false, false), " wakes up.") }
  function Tire(): Rule<Cast, Who> { CastRule("D", false, false, Person(true, false), " is tired.") }

  function CastConfig(): Config<Cast, Who>
  {
    Config([Sleep(), Rest(), Wake(), Tire()], 4, true, Str(""), "all")
  }

  /** The rule a character's state calls for. */
  function RuleFor(p: Person): Rule<Cast, Who>
  {
    Ranked()[Rank(p)]
  }

  lemma FilteredTwo<W, T>(rule: Rule<W, T>, h: W, a: T, b: T)
    ensures Filtered(rule, h, [a, b])
      == (if MatchRule(rule, h, a) then [Wrapped(rule, a)] else [])
       + (if MatchRule(rule, h, b) then [Wrapped(rule, b)] else [])
  {
    var xa := if MatchRule(rule, h, a) then [Wrapped(rule, a)] else [];
    assert [a, b][..1] == [a] && [a][..0] == [];
    assert Filtered(rule, h, [a]) == [] + xa == xa;
  }

  /** Candidates follow rule-list order first, array order second. */
  lemma CastMatches(c: Cast)
    ensures Matches(CastConfig().rules, c, Root)
      == Ok(Filtered(Sleep(), c, [Brad, Jack]) + Filtered(Rest(), c, [Brad, Jack])
          + Filtered(Wake(), c, [Brad, Jack]) + Filtered(Tire(), c, [Brad, Jack]))
  {
    var objs := [Brad, Jack];
    var none: seq<Candidate<Cast, Who>> := [];
    MatchesSnoc([], Sleep(), c, Root, none, Filtered(Sleep(), c, objs));
    assert [] + [Sleep()] == [Sleep()] && none + Filtered(Sleep(), c, objs) == Filtered(Sleep(), c, objs);
    MatchesSnoc([Sleep()], Rest(), c, Root, Filtered(Sleep(), c, objs), Filtered(Rest(), c, objs));
    assert [Sleep()] + [Rest()] == [Sleep(), Rest()];
    MatchesSnoc([Sleep(), Rest()], Wake(), c, Root,
      Filtered(Sleep(), c, objs) + Filtered(Rest(), c, objs), Filtered(Wake(), c, objs));
    assert [Sleep(), Rest()] + [Wake()] == [Sleep(), Rest(), Wake()];
    MatchesSnoc([Sleep(), Rest(), Wake()], Tire(), c, Root,
      Filtered(Sleep(), c, objs) + Filtered(Rest(), c, objs) + Filtered(Wake(), c, objs), Filtered(Tire(), c, objs));
    assert [Sleep(), Rest(), Wake()] + [Tire()] == CastConfig().rules;
    assert Matches([Sleep(), Rest(), Wake()] + [Tire()], c, Root)
      == Ok(Filtered(Sleep(), c, objs) + Filtered(Rest(), c, objs) + Filtered(Wake(), c, objs) + Filtered(Tire(), c, objs));
  }

  /** A character passes exactly the test of the rule its state calls for. */
  lemma CastTests(c: Cast, w: Who, k: nat)
    requires w != Root && k < 4
    ensures MatchRule(Ranked()[k], c, w) == (Rank(Of(c, w)) == k)
  {
  }

  /** The rules in list order, so that `Rank(p)` indexes `RuleFor(p)`. */
  function Ranked(): seq<Rule<Cast, Who>>
  {
    [Sleep(), Rest(), Wake(), Tire()]
  }

  /** When Brad's and Jack's states call for different rules, the candidates
      are the two wrapped characters, in the order of their rules. */
  lemma CastCandidates(c: Cast)
    requires Rank(c.brad) != Rank(c.jack)
    ensures var b := Wrapped(RuleFor(c.brad), Brad);
      var j := Wrapped(RuleFor(c.jack), Jack);
      Matches(CastConfig().rules, c, Root) == Ok(if Rank(c.brad) < Rank(c.jack) then [b, j] else [j, b])
  {
    CastMatches(c);
    var rb, rj := Rank(c.brad), Rank(c.jack);
    var b := Wrapped(RuleFor(c.brad), Brad);
    var j := Wrapped(RuleFor(c.jack), Jack);
    CastFiltered(c, 0);
    CastFiltered(c, 1);
    CastFiltered(c, 2);
    CastFiltered(c, 3);
    Interleave(rb, rj, b, j);
  }

  /** The `k`-th rule's candidates: each character whose state calls for it. */
  lemma CastFiltered(c: Cast, k: nat)
    requires k < 4
    ensures Filtered(Ranked()[k], c, [Brad, Jack])
      == Slot(Rank(c.brad), Rank(c.jack), k, Wrapped(RuleFor(c.brad), Brad), Wrapped(RuleFor(c.jack), Jack))
  {
    FilteredTwo(Ranked()[k], c, Brad, Jack);
    CastTests(c, Brad, k);
    CastTests(c, Jack, k);
  }

  /** Two one-element lists placed at two distinct slots of four. */
  lemma Interleave<X>(rb: nat, rj: nat, b: X, j: X)
    requires rb < 4 && rj < 4 && rb != rj
    ensures Slot(rb, rj, 0, b, j) + Slot(rb, rj, 1, b, j) + Slot(rb, rj, 2, b, j) + Slot(rb, rj, 3, b, j)
      == if rb < rj then [b, j] else [j, b]
  {
    var none: seq<X> := [];
    if rb == 0 && rj == 1 {
      assert [b] + [j] + none + none == [b, j];
    } else if rb == 0 && rj == 2 {
      assert [b] + none + [j] + none == [b, j];
    } else if rb == 0 && rj == 3 {
      assert [b] + none + none + [j] == [b, j];
    } else if rb == 1 && rj == 0 {
      assert [j] + [b] + none + none == [j, b];
    } else if rb == 1 && rj == 2 {
      assert none + [b] + [j] + none == [b, j];
    } else if rb == 1 && rj == 3 {
      assert none + [b] + none + [j] == [b, j];
    } else if rb == 2 && rj == 0 {
      assert [j] + none + [b] + none == [j, b];
    } else if rb == 2 && rj == 1 {
      assert none + [j] + [b] + none == [j, b];
    } else if rb == 2 && rj == 3 {
      assert none + none + [b] + [j] == [b, j];
    } else if rb == 3 && rj == 0 {
      assert [j] + none + none + [b] == [j, b];
    } else if rb == 3 && rj == 1 {
      assert none + [j] + none + [b] == [j, b];
    } else if rb == 3 && rj == 2 {
      assert none + none + [j] + [b] == [j, b];
    }
  }

  /** What the `k`-th rule contributes when `b` calls for rule `rb` and `j` for rule `rj`. */
  function Slot<X>(rb: nat, rj: nat, k: nat, b: X, j: X): seq<X>
  {
    (if rb == k then [b] else []) + (if rj == k then [j] else [])
  }

  /** The position of `RuleFor(p)` in the rule list. */
  function Rank(p: Person): nat
  {
    if p.tired && !p.sleeping then 0
    else if p.tired then 1
    else if p.sleeping then 2
    else 3
  }

  /** A pass whose two candidates are wrapped characters, each appending one
      line with the separator " ". */
  lemma TwoScopedAppends<W, T>(cfg: Config<W, T>, ctx: T, h: W, u: real,
                               c1: Candidate<W, T>, h1: W, t1: string,
                               c2: Candidate<W, T>, h2: W, t2: string)
    requires cfg.ruleSelection == "all" && 0 < cfg.maxSamples && cfg.outputBase == Str("") && |t1| > 0
    requires Matches(cfg.rules, h, ctx) == Ok([c1, c2])
    requires c1.Wrapped? && c1.rule.action.Direct? && c2.Wrapped? && c2.rule.action.Direct?
    requires c1.rule.action.run(h, c1.target, Some(ctx)) == Effect(h1, [Append(Str(t1), Str(" "))])
    requires c2.rule.action.run(h1, c2.target, Some(ctx)) == Effect(h2, [Append(Str(t2), Str(" "))])
    ensures Pass(cfg, ctx, h, u) == State(h2, Str(t1 + " " + t2), None)
  {
    var s1 := Step(c1.rule, c1.target, Some(ctx), 0);
    var s2 := Step(c2.rule, c2.target, Some(ctx), 0);
    assert Selected(cfg.ruleSelection, [c1, c2], u) == [c1, c2];
    ActivateTwo(cfg, ctx, c1, c2);
    assert ActivateAll(cfg, ctx, [c1, c2]) == Trace([s1, s2], None);
    var st := State(h, Str(""), None);
    assert Pass(cfg, ctx, h, u) == RunTrace(st, Trace([s1, s2], None));
    RunTwo(st, s1, s2);
    assert "" + "" + t1 == t1;
    ExecAppend(st, s1, h1, Str(t1), Str(" "), Str(t1));
    AppendText(t1, t2, Str(" "));
    ExecAppend(State(h1, Str(t1), None), s2, h2, Str(t2), Str(" "), Str(t1 + " " + t2));
  }

  /** What the rule a character's state calls for does to it. */
  function After(p: Person): Person
  {
    if p.tired && !p.sleeping then p.(sleeping := true)
    else if p.tired then p.(tired := false)
    else if p.sleeping then p.(sleeping := false)
    else p.(tired := true)
  }

  /** The line the rule a character's state calls for tells about it. */
  function StoryLine(p: Person, w: Who): string
  {
    if p.tired && !p.sleeping then Line(w, " goes to sleep.")
    else if p.tired then Line(w, " isn't tired anymore.")
    else if p.sleeping then Line(w, " wakes up.")
    else Line(w, " is tired.")
  }

  /** The characters after one pass. */
  function Next(c: Cast): Cast
  {
    Cast(After(c.brad), After(c.jack))
  }

  /** One pass of the four rules from the state `c`: the character whose rule
      comes first acts first, and each changes one flag. */
  lemma CastPass(c: Cast, u: real)
    requires Rank(c.brad) != Rank(c.jack)
    ensures var first := if Rank(c.brad) < Rank(c.jack) then Brad else Jack;
      var second := if first == Brad then Jack else Brad;
      Pass(CastConfig(), Root, c, u)
        == State(Next(c), Str(StoryLine(Of(c, first), first) + " " + StoryLine(Of(c, second), second)), None)
  {
    CastCandidates(c);
    var first := if Rank(c.brad) < Rank(c.jack) then Brad else Jack;
    var second := if first == Brad then Jack else Brad;
    var r1 := RuleFor(Of(c, first));
    var r2 := RuleFor(Of(c, second));
    var c1 := With(c, first, After(Of(c, first)));
    assert Of(c1, second) == Of(c, second);
    TwoScopedAppends(CastConfig(), Root, c, u,
      Wrapped(r1, first), c1, StoryLine(Of(c, first), first),
      Wrapped(r2, second), Next(c), StoryLine(Of(c, second), second));
  }

  /** The four passes of the story, one state after another. */
  lemma SleepyPass1(u: real)
    ensures Pass(CastConfig(), Root, Cast(Person(false, false), Person(true, false)), u)
      == State(Cast(Person(true, false), Person(true, true)), Str(Line(Jack, " goes to sleep.") + " " + Line(Brad, " is tired.")), None)
  {
    var c := Cast(Person(false, false), Person(true, false));
    CastPass(c, u);
    assert Next(c) == Cast(Person(true, false), Person(true, true));
  }

  lemma SleepyPass2(u: real)
    ensures Pass(CastConfig(), Root, Cast(Person(true, false), Person(true, true)), u)
      == State(Cast(Person(true, true), Person(false, true)), Str(Line(Brad, " goes to sleep.") + " " + Line(Jack, " isn't tired anymore.")), None)
  {
    var c := Cast(Person(true, false), Person(true, true));
    CastPass(c, u);
    assert Next(c) == Cast(Person(true, true), Person(false, true));
  }

  lemma SleepyPass3(u: real)
    ensures Pass(CastConfig(), Root, Cast(Person(true, true), Person(false, true)), u)
      == State(Cast(Person(false, true), Person(false, false)), Str(Line(Brad, " isn't tired anymore.") + " " + Line(Jack, " wakes up.")), None)
  {
    var c := Cast(Person(true, true), Person(false, true));
    CastPass(c, u);
    assert Next(c) == Cast(Person(false, true), Person(false, false));
  }

  /** The fourth pass brings both characters back to where the story began. */
  lemma SleepyPass4(u: real)
    ensures Pass(CastConfig(), Root, Cast(Person(false, true), Person(false, false)), u)
      == State(Cast(Person(false, false), Person(true, false)), Str(Line(Brad, " wakes up.") + " " + Line(Jack, " is tired.")), None)
  {
    var c := Cast(Person(false, true), Person(false, false));
    CastPass(c, u);
    assert Next(c) == Cast(Person(false, false), Person(true, false));
  }

  /** Brad is rested and awake, Jack is tired: four passes joined by
      `again("\n")` tell four lines, each naming first the character whose
      rule comes first in the rule list. */
  lemma SleepyStory(u1: real, u2: real, u3: real, u4: real)
    ensures var cfg := CastConfig();
      var p1 := Pass(cfg, Root, Cast(Person(false, false), Person(true, false)), u1);
      var a1 := AgainResult(p1.content, Pass(cfg, Root, p1.heap, u2), Str("\n"));
      var a2 := AgainResult(a1.content, Pass(cfg, Root, a1.heap, u3), Str("\n"));
      var a3 := AgainResult(a2.content, Pass(cfg, Root, a2.heap, u4), Str("\n"));
      && a3.err.None?
      && a3.content == Str(
           (Line(Jack, " goes to sleep.") + " " + Line(Brad, " is tired.")) + "\n"
         + (Line(Brad, " goes to sleep.") + " " + Line(Jack, " isn't tired anymore.")) + "\n"
         + (Line(Brad, " isn't tired anymore.") + " " + Line(Jack, " wakes up.")) + "\n"
         + (Line(Brad, " wakes up.") + " " + Line(Jack, " is tired.")))
  {
    var l1 := Line(Jack, " goes to sleep.") + " " + Line(Brad, " is tired.");
    var l2 := Line(Brad, " goes to sleep.") + " " + Line(Jack, " isn't tired anymore.");
    var l3 := Line(Brad, " isn't tired anymore.") + " " + Line(Jack, " wakes up.");
    var l4 := Line(Brad, " wakes up.") + " " + Line(Jack, " is tired.");
    SleepyPass1(u1);
    SleepyPass2(u2);
    SleepyPass3(u3);
    SleepyPass4(u4);
    BlendText(l1, l2, Str("\n"));
    BlendText(l1 + "\n" + l2, l3, Str("\n"));
    BlendText(l1 + "\n" + l2 + "\n" + l3, l4, Str("\n"));
  }
}
