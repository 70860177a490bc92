# generative — a verified model of the rule engine

`generative` is a small production-rule interpreter for procedural text. A
`Procedural` engine holds a context object and an ordered list of rules. Each
rule has an optional selector `on`, a `test` and an `action`. One pass
(`run()`) does four things:

1. It tests every rule, on the context or on each object its selector finds.
   This gives an ordered list of candidates.
2. It picks candidates under one of the policies `all`, `first`, `priority`
   or `random`.
3. It activates the picked candidates. An action is either a function or the
   names of other rules, which are run in turn, at most `maxSamples` levels
   deep.
4. It returns an `Output` that holds the text, list or record the actions
   wrote. `again(sep)` runs one more pass and blends its output into the
   current one.

The model has eight modules, one file each:

- `Js` (`js.dfy`): JavaScript values, the errors the engine throws, truthiness (`a || b`) and string conversion.
- `Outputs` (`outputs.dfy`): what `append`, `blendOutput` and `set` do to the output content, as functions.
- `Rules` (`rules.dfy`): rules, candidates (a raw rule, or a `RuleWrapper` around a rule and its target), `matchRule`, and the lookups by name.
- `Matching` (`matching.dfy`): `getMatchingRules` as functions, with its ordering, soundness and completeness lemmas.
- `Selection` (`selection.dfy`): `selectRules` as functions, with lemmas about each policy.
- `Activations` (`activation.dfy`): `activateRule` and one whole pass, as functions.
- `Engine` (`engine.dfy`): the classes `Procedural` and `Output`. Their fields are updated in place. Their methods are loops and recursion proved against the functions above.
- `Scenarios` (`scenarios.dfy`): the repository's test scenarios on concrete heaps. These are the gardener story and the four-line story about Brad and Jack.

Rule code is user code, so the model treats it abstractly. `W` is the state
of every object the rules can see; one pass takes a heap and returns one.
`T` is a reference to one such object. Resolvers, tests and actions are
functions of the heap. An action returns the new heap and the output calls it
made. `activateRule` is described by a `Trace`: the action calls, in order and
with their depth, and the error it stops with. `RunTrace` then runs those calls.
This split is sound for a simple reason. Once tests have been evaluated,
nothing an action does can change which actions run next: chained rules are
looked up by name and their tests are ignored. The one exception is an error
thrown by an output call, and `RunTrace` models that.

## Model

| member | source | states |
|---|---|---|
| Outputs.AppendFailsExactlyOnScalars | index.js:189-200 | `append` throws exactly when the content is a number or a boolean, whatever the value, separator or error mode, and the error is then `CannotAppend` |
| Outputs.AppendAllJoins | index.js:189-200 | appending non-empty texts one after another to empty text joins them with `separator \|\| " "`. The first append adds no separator |
| Outputs.BlendAllJoins | index.js:202-214 | blending texts one after another into text `t` gives `t` followed by each text, each one preceded by `separator \|\| ""`, even when `t` is empty |
| Outputs.AppendText | index.js:189-192 | text appended to text is joined to it, after `separator \|\| " "` when the content is not empty and directly otherwise |
| Outputs.AppendAddsNumbers | index.js:191 | on non-empty text, a truthy number or boolean separator and a number or boolean value are added as numbers, and the sum is appended as text: `append(3, 5)` on `"x"` gives `"x8"` |
| Outputs.BlendText | index.js:203-205 | text blended into text is joined to it after `separator \|\| ""` |
| Outputs.BlendAddsNumbers | index.js:204 | a truthy number or boolean separator is added to a number or boolean content of the other output before the sum is appended |
| Outputs.BlendRecordIsShallowMerge | index.js:209-211 | blending a record into a record keeps every key of both. For a shared key the incoming value wins. A key that is in neither stays absent |
| Outputs.ListIndexWrite | index.js:216-223 | on a list, `set(String(i), v)` writes element `i` of the list for every array index `i`. Past the end it grows the list to `i + 1` elements, with unset elements in between |
| Outputs.ListLengthWrite | index.js:216-223 | on a list, `set("length", n)` keeps the first `n` items and pads with unset elements when `n` is past the end. A negative length or one of 2^32 or more throws `RangeError` |
| Outputs.ListOtherKey | index.js:216-223 | on a list, a key that is neither an array index nor `length` leaves the items as they are |
| Js.ArrayIndexIsDigits | index.js:221 | a property key names an array element exactly when it is the decimal form of an index below 2^32 - 1: the digit parser and `String(i)` are inverse to each other on canonical keys |
| Rules.Rate | index.js:127 | `rate \|\| 1` is positive whenever the rate is not negative |
| Rules.FirstNamedIndex | index.js:38 | `findIndex` gives the first rule with that name, or `None` exactly when no rule has that name |
| Rules.RemovingFirstNamed | index.js:37-47 | the splice done by `removeRule` removes exactly one rule with that name. Every other name keeps its count. The rules before the index stay where they were, and the rules after it move up by one |
| Matching.MatchesConcat | index.js:63-100 | candidates follow rule-list order: matching `r1 + r2` gives the candidates of `r1`, then those of `r2`, and an error in `r1` stops everything |
| Matching.FilteredConcat | index.js:66-75 | within one resolver, candidates follow array order |
| Matching.FilteredMembers | index.js:67-75 | a single resolver gives exactly the wrapped objects of its array whose test holds |
| Matching.LastLevelIsFilter | index.js:78-90 | on the last level of a resolver list, walking the objects is the single-resolver filter |
| Matching.OneLevelIsSingle | index.js:67-92 | a one-element resolver list finds the same targets as that resolver alone, except on a non-array result. There the list throws and the single resolver adds nothing |
| Matching.DescendSound | index.js:78-90 | every leaf a resolver list finds wraps the rule around a target whose test holds |
| Matching.MatchesJustified | index.js:63-111 | every candidate comes from the rule list. A raw candidate is unscoped and passed its test on the context. A wrapped one is scoped and passed its test on its target |
| Matching.DescendIsFilteredLeaves | index.js:77-92 | a resolver list tests exactly the objects of its last level, in the depth-first, left-to-right order given by `Leaves`. It throws `TypeError` exactly when a resolver on the way returns something that is not an array |
| Matching.RuleCandidatesMembers | index.js:66-96 | what one rule contributes, both ways: an unscoped rule itself when its test holds on the context. Otherwise the rule wrapped around each object its selector reaches (its array, or the `Leaves` of its resolver list) whose test holds |
| Matching.MatchesComplete | index.js:63-100 | when `getMatchingRules` does not throw, every candidate of every rule of the list is in the result |
| Matching.MatchesErrors | index.js:63-100 | the only error `getMatchingRules` throws is the `TypeError` of iterating a resolver result that is not an array |
| Matching.MatchesStuck | index.js:63-100 | once a prefix of the rule list throws, `getMatchingRules` throws that error and looks at no later rule |
| Selection.PriorityIndex | index.js:121-125 | the running maximum with a strict `>` ends on the earliest candidate with the greatest `priority \|\| 0` |
| Selection.EarliestMaxUnique | index.js:121-125 | only one index is the earliest with the greatest priority |
| Selection.Pick | index.js:128-133 | the `random` walk returns the first candidate whose running total of `rate \|\| 1` exceeds `r`. It returns none only when no running total exceeds `r` |
| Selection.SelectionPolicies | index.js:113-137 | no candidates gives `[]`. `all` gives the list unchanged and `first` gives its head. `priority` gives the earliest candidate of greatest priority. An unknown policy gives `[]`. Every selected candidate is one of the candidates |
| Selection.RandomSelectsOne | index.js:126-133 | with a positive total and a draw `u` in [0, 1), `random` selects exactly one candidate `k`. `u` times the total lies in the interval of running totals [before `k`, through `k`) |
| Selection.RandomWithoutNegativeRates | index.js:126-133 | with no negative rate, `random` on a non-empty list selects exactly one candidate |
| Selection.PickBelowTotal | index.js:128-133 | every `r` in [0, total) stops the walk on some candidate |
| Selection.RateSumPositive | index.js:127 | with no negative rate, the total of `rate \|\| 1` is not negative, and positive for a non-empty list |
| Activations.ChainConcat | index.js:161-162 | names are processed strictly in list order. The chain over `a + b` is the chain over `a`, then the chain over `b`, unless `a` threw |
| Activations.ActivateAllConcat | index.js:58 | the selected candidates are activated one after another, in order |
| Activations.RunThen | index.js:58 | running two traces one after the other is running the first, then the second from where the first left the heap and the output |
| Activations.RunTraceStopped | index.js:58 | after an error, nothing more runs |
| Activations.DepthBounded | index.js:139-166 | every action call of an activation started at depth `n` runs at a depth from `n` up to, but not including, `maxSamples` |
| Activations.ChainedCallsGetContext | index.js:145-158 | a rule reached by name runs on the whole context and gets no third argument |
| Activations.ScopedCannotChain | index.js:246-250 | a wrapped candidate below the depth limit makes one call, `action(target, output, context)`, or makes none when its action is not a function |
| Activations.LenientNeverThrows | index.js:139-166 | in lenient mode neither the depth guard nor a missing name throws: the activation's trace carries no fault of the engine's own. Output calls in it can still throw when it runs (see `Activations.LenientPassErrors`) |
| Activations.LenientPassErrors | index.js:49-61 | a lenient pass still throws what an output call throws (`CannotAppend`, `TypeError`, `RangeError`) or the `TypeError` of a selector, but never `RuleNotFound` and never `MaxSamplesReached` |
| Activations.MissingName | index.js:152-157 | a chained name that no rule has throws `RuleNotFound` in strict mode and is skipped otherwise |
| Activations.SelfChain | index.js:139-166 | a rule chaining to itself recurses down to the depth guard. Then strict mode throws `MaxSamplesReached`, lenient mode stops quietly, and no action runs |
| Activations.NoCandidatesNoChange | index.js:49-61 | a pass with no candidates leaves the heap alone and returns `outputBase` |
| Engine.Procedural.constructor | index.js:2-9 | takes the context and the rules, with defaults 4, strict, `""` and `"all"` |
| Engine.Procedural.SetContext | index.js:11-13 | replaces the context and nothing else |
| Engine.Procedural.SetMaxSamples | index.js:15-19 | replaces `maxSamples` and nothing else, and returns the engine |
| Engine.Procedural.SetOutputBase | index.js:21-25 | replaces `outputBase` and nothing else, and returns the engine |
| Engine.Procedural.SetRuleSelection | index.js:27-29 | replaces the policy and nothing else |
| Engine.Procedural.AddRule | index.js:31-35 | the new rules follow the old ones, in argument order. Nothing else changes, and the engine is returned |
| Engine.Procedural.RemoveRule | index.js:37-47 | splices out the first rule with that name. An absent name throws `RuleNotFound` in strict mode and leaves the list unchanged otherwise. Nothing else changes, and the engine is returned |
| Engine.Procedural.Run | index.js:49-61 | returns a fresh output bound to this engine. Its final state is `Pass`: all tests on the heap as given, then selection, then each activation in order |
| Engine.Procedural.ActivateSelected | index.js:58 | the `forEach` over the selected candidates reaches the state given by `ActivateAll` |
| Engine.Procedural.GetMatchingRules | index.js:63-100 | the nested loops return exactly `Matches`, the candidate list whose order and soundness the lemmas above establish |
| Engine.Procedural.CandidatesInto | index.js:66-97 | one rule's candidates are added to the result after the earlier ones |
| Engine.Procedural.DescendInto | index.js:78-90 | the recursive `step` adds the leaves below `x` depth first. A non-array result throws |
| Engine.Procedural.SelectRules | index.js:113-137 | returns exactly `Selected` under the current policy |
| Engine.Procedural.ActivateRule | index.js:139-166 | the recursion leaves the heap, the output and the error exactly as `RunTrace` of `Activation` does |
| Engine.Procedural.ActivateChain | index.js:152-162 | `names.forEach(runRuleByName)` reaches the state given by `ChainActivation` |
| Engine.MaxPriority | index.js:121-125 | the running-maximum loop ends on `PriorityIndex` |
| Engine.TotalRate | index.js:127 | the `reduce` gives the total of `rate \|\| 1` |
| Engine.Walk | index.js:128-133 | the cumulative loop stops where `Pick` does |
| Engine.RandomDraw | index.js:126-134 | the `random` branch (total rate, `Math.random() * probSum`, then the walk) selects exactly `Drawn`: the candidate on which `Pick` stops for `u` times the total, or nothing |
| Engine.Invoke | index.js:145-146 | an action call writes the heap and performs its output calls in order, stopping at the first that throws |
| Engine.Output.constructor | index.js:183-187 | the content and the engine that `again` repeats |
| Engine.Output.Append | index.js:189-200 | the content becomes `Appended(old content)`, or stays the same when that throws. Returns the output itself |
| Engine.Output.BlendOutput | index.js:202-214 | the content becomes `Blended(old content, other content)`, or stays the same when that throws. Returns the output itself |
| Engine.Output.Set | index.js:216-219 | `set(v)` replaces the whole content |
| Engine.Output.SetField | index.js:216-223 | `set(key, v)` writes a record field, a list element for an index key, or the list length for `length`. With `v` undefined it replaces the content by `key`. On a primitive it throws |
| Engine.Output.Get | index.js:225-227 | returns the content |
| Engine.Output.Again | index.js:229-235 | one more pass on the heap as earlier passes left it, blended in. An error leaves the content unchanged. Without an engine, text, lists and records throw. Returns the output itself, as `blendOutput` does |
| Scenarios.MatchingKeepsPassingRules | test/index.js:5-23 | from a rule whose test returns true, one whose test returns false and an unnamed one whose test returns the truthy number 1, only the first and third are candidates, unwrapped and in order |
| Scenarios.ChainRunsInListOrder | index.js:152-162 | on the rule list [C, A, B], where A names `["B", "C"]` and B and C append their own names, B's action runs before C's, one level deeper and without their tests, giving `"B C"`: a chain follows its list of names, not the rule list |
| Scenarios.FirstRuleRunsQuietly | test/index.js:27-43 | the first pass of the rule-execution test: A names B, whose action is the boolean that `success = true` evaluates to, so the pass finds B, calls nothing and ends without an error |
| Scenarios.SecondRuleRunsQuietly | test/index.js:44-53 | the second pass, on [B, C, A'] with A' naming B then C: both names are found and the pass ends without an error and without output |
| Scenarios.RuleExecution | test/index.js:27-53 | the test on the engine itself: `run()`, then `removeRule("A").addRule(C, A')` chained on the returned engine, then `run()`. Neither pass throws, and the rules end as [B, C, A'] |
| Scenarios.GardenFirstPass | test/index.js:88-117 | the gardener enters. Rule B, enabled by that action, is not activated in the same pass |
| Scenarios.GardenThirdPass | test/index.js:118 | `"Rose already picked," + " " + "so the gardener can't pick it up anymore."`: the first separator is dropped on empty text |
| Scenarios.GardenerStory | test/index.js:117-118 | `run().again("\n")` gives the two lines of the story, and a further `run()` gives the third |
| Scenarios.GardenerOnEngine | test/index.js:117 | `g.run().again("\n").get()` on the engine and its output, chained through the output `again` returns, gives the two lines without an error |
| Scenarios.CastPass | test/index.js:144-170 | for scoped rules over the characters, the character whose rule comes first in the rule list acts first, even when that is Jack, who comes second in the array `[Brad, Jack]` |
| Scenarios.SleepyPass1 | test/index.js:172 | Jack's rule A comes before Brad's rule D: "Jack goes to sleep. Brad is tired." |
| Scenarios.SleepyPass4 | test/index.js:172 | the fourth pass returns both characters to their starting state |
| Scenarios.SleepyStory | test/index.js:172 | three chained `again("\n")` calls give the four-line transcript |

## Left out

- `Math.random`: the draw is a parameter `u`, and the random policy uses `u` times the total rate. The distribution of the draw is not modelled.
- `clone` (index.js:169-181): values are immutable in the model, so the copy of `outputBase` is the value itself. The aliasing that the shallow copy allows is not modelled: an action that mutates a list or record nested in `outputBase` would change later passes. The same goes for the content that `get()` hands out, which JavaScript shares with the caller.
- User closures: tests, resolvers and actions are pure functions of the heap. A test cannot write the heap. A test returns a boolean where JavaScript uses its truthiness.
- Activations.ExecStep: an action (`Rules.Action.Direct`) is a function of the heap, its target and the context. It returns its heap writes and its output calls, and `ExecStep` applies all the writes, then the calls. Two consequences. First, the action cannot read the output it is handed, so an action that calls `output.get()` is not modelled. Second, when an output call throws, JavaScript stops the closure there, so heap writes written after that call never happen. The model keeps them, so the heap after such a pass can differ. The content and the error are the same.
- An action cannot call the engine back: it cannot add or remove rules, change the settings or start a pass during a pass.
- Engine.Procedural.ActivateRule: the value `activateRule` returns is not modelled. `run` ignores it.
- Engine.Output.Append: returns an error in place of throwing, as every method of the model does.
- Engine.Output.BlendOutput: a record blended with text or a list keeps its fields. JavaScript's `Object.assign` would also copy the index keys of that text or list.
- Engine.Output.SetField: on a list, setting `length` to text or to a list leaves the list unchanged in the model. JavaScript converts the value to a number and resizes the list or throws. Unset elements are stored as `undefined`, which is how joining and appending treat them. Any other key that is not an index adds a named property in JavaScript, which the list's items do not show. The model keeps no such property.
- `null` is not a value in the model, so the `typeof null === "object"` cases of `clone` and `Object.assign` do not arise.
- Numbers: content numbers are integers. `priority` and `rate` are reals, with 0 standing for any falsy value (missing, `0`, `NaN`). Floating-point rounding of the running totals is not modelled.
- String conversion: a record shows as `[object Object]` and a list as its items joined by commas. Numbers are integers, so a sum is always a whole number; a sum with `undefined` shows as `NaN`.
- Matching: a multi-level resolver whose result is a string or another iterable that is not an array throws in the model. JavaScript would iterate it.
- `RuleWrapper.test` (index.js:252-257) is dead code: `matchRule` tests the unwrapped rule, and this model does the same.
- The `name` getter of `RuleWrapper` matters only to lookups by name. Those search the raw rule list and never see a wrapper.
- Printing the story (test/index.js:120-126) and the example rule set `examples/garden.js` are not part of this model.
