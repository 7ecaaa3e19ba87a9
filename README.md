# shulk, modelled in Dafny

shulk is a small TypeScript library for tagged unions and pattern matching.
This project models its core and proves properties of the model:

- the tagged-value constructors `union()` and `state()`;
- the match engines: literal values, the `_state` discriminant, numbers with `"min..max"` range keys, the router `match()`, and the `case(...).exhaustive()` chain;
- the monads: the class `Result`, the tagged `Result`, `Maybe` and `Loading`;
- the exception adapters `resultify` and `maybify`;
- the pipelines `Procedure`, `Concurrently` and `Coroutines`;
- the `$defMacro` property store.

The model is organised like this:

- **JavaScript values** are the datatype `Js.Value`. Numbers are integers, and `NaN` is a separate constructor. A call that may throw returns a `Completion`, either `Normal(value)` or `Threw(thrown)`. The library's own failures are `Error(message)` objects.
- **A lookup object** is an ordered table of `(key, entry)` pairs (module `Lookup`). A number input looks up the decimal text of the number, as a JavaScript property key does. The text functions this needs are in module `Text`: `String(n)`, `parseFloat` on integer text, `includes` and `split`.
- **Code that loops stays a loop.**
  - The range scan of `MatchNumber` is a loop method, proved equal to a specification function.
  - `Procedure.end` is a loop method that also returns the log of every step call. It is proved equal to the function `Run`.
  - `$defMacro` is a class. Its `props` map is a field that the `set` trap replaces.
- **Everything else is pure.** It is written as datatypes and functions with lemmas.

## Model

| member | source | states |
|---|---|---|
| Text.ParseFloat | src/match/MatchNumber.ts:13-14 | `parseFloat` of a range bound is a number or `NaN`. Leading white space and a sign are read, then the longest run of digits. Text with no digit there gives `NaN`. |
| Text.ParseIntText | src/match/MatchNumber.ts:13-14 | `parseFloat(String(n))` is `n` for every integer `n`, so a bound written as an integer reads back as itself. |
| Text.Includes | src/match/MatchNumber.ts:9 | `key.includes('..')`: some position of the key starts the separator. |
| Text.Split | src/match/MatchNumber.ts:10 | `key.split('..')` gives at least one piece. |
| Text.SplitIncluded | src/match/MatchNumber.ts:9-10 | A key that includes the separator splits into at least two pieces, so both `min` and `max` are bound to text. |
| Lookup.ResolveWith | src/instructions/MatchValExpression.ts:4-14 | The lookup rule of value style, shared by the literal and `_state` engines: the key's entry, else the fallback's entry. It throws the no-match error exactly when neither exists. |
| Lookup.ResolveCase | src/instructions/MatchValExpression.ts:16-26 | The lookup rule of handler style: the key's entry is called only when it is a function, then the fallback is called, and otherwise the no-match error is thrown. |
| Lookup.CaseIsWithThenCall | src/instructions/MatchValExpression.ts:4-26 | When every entry is a function, handler style is value style followed by a call on the input. |
| Union.Construct | src/monads/Union.ts:26-33 | The result is an object whose `_state` is the tag. An object payload's own fields are all kept unchanged, and its keys are the payload's keys plus `_state`. A scalar payload becomes exactly `{val, _state}`. |
| Union.Spread | src/monads/Union.ts:29 | `{...obj}` of an object payload: a plain object gives its own fields. An array gives its items under the keys "0", "1", and so on, and no other keys. `null` and an `Error` give no fields. |
| Union.ConstructRoundTrip | src/monads/Union.ts:28-31 | Construction can be undone. The tag reads back from `_state`. A scalar reads back from `val`, and a plain object payload without `_state` reads back by dropping `_state`. |
| Union.TagOverridesPayload | src/monads/Union.ts:29 | A payload that has its own `_state` has it overwritten by the tag. Every other field is kept. |
| Union.OwnStateIrrelevant | src/monads/Union.ts:29 | Two payloads that differ only in their own `_state` give the same tagged value. |
| Union.ConstructExamples | src/monads/__tests__/Union.test.ts:11-36 | `On({currentChannel: 12})` has `_state` "On" and `currentChannel` 12. `On('Coca-cola')` holds the text in `val`. |
| State.Construct | src/monads/State.ts:26-33 | `state()` builds the same value as `union()` for every tag and payload. |
| MatchValExpression.With | src/instructions/MatchValExpression.ts:4-14 | The entry under the input comes first, then the `_otherwise` entry. It throws "Value did not match with anything." exactly when neither exists. |
| MatchValExpression.Case | src/instructions/MatchValExpression.ts:16-26 | The input's handler is called only when its entry is a function. Otherwise `_otherwise(input)` is called, which throws if that entry is not a function. With neither entry, the no-match error is thrown. |
| MatchValExpression.CaseCallsWhatWithReturns | src/instructions/MatchValExpression.ts:4-26 | When every entry is a function, `case` calls on the input exactly the entry `with` returns, and fails exactly when `with` fails. |
| MatchStatement.Match | src/instructions/match.ts:1-5 | `match(x)` holds `x` unchanged. |
| MatchStatement.With | src/instructions/match.ts:10-22 | The input's entry comes first, then the entry spelled `otherwise`. It throws the no-match error exactly when neither exists. |
| MatchStatement.Case | src/instructions/match.ts:24-36 | The input's handler is called only when it is a function, then `otherwise(input)`, and otherwise the no-match error is thrown. |
| MatchStatement.UnderscoreOtherwiseIsIgnored | src/instructions/match.ts:17-21 | A table with only `_otherwise` as its fallback still throws for an input it does not list. |
| MatchStatement.EmotionTable | src/instructions/__tests__/match.test.ts:12-19 | `HAPPY` (0) gives ":D". `SURPRISED` (3) throws, as written. |
| MatchStatement.EmotionCaseThrows | src/instructions/__tests__/match.test.ts:21-32 | The handler table of the tests throws for `SURPRISED`, as written. |
| MatchStatement.WithIntended | src/instructions/match.ts:17-19 | The corrected `with` uses the `_otherwise` fallback, with the same precedence and the same throw condition. |
| MatchStatement.CaseIntended | src/instructions/match.ts:31-33 | The corrected `case` calls `_otherwise(input)` when the input has no callable entry. |
| MatchStatement.IntendedIsMatchValExpression | src/instructions/MatchValExpression.ts:4-26 | The corrected engine is exactly the `MatchValExpression` engine. |
| MatchStatement.EmotionTableIntended | src/instructions/__tests__/match.test.ts:43-61 | With the corrected fallback, `SURPRISED` gives "???" from `with` and the `_otherwise` handler's result from `case`, as the tests expect. |
| MatchStateExpression.With | src/instructions/MatchStateExpression.ts:6-18 | The entry under the input's `_state` comes first, then `_otherwise`. It throws the no-match error exactly when neither exists. |
| MatchStateExpression.Case | src/instructions/MatchStateExpression.ts:20-38 | The tag's handler is called with the whole tagged value, and only when it is a function. Otherwise `_otherwise(input)` is called, and otherwise the no-match error is thrown. |
| MatchStateExpression.ReturnType | src/instructions/MatchStateExpression.ts:40-44 | `returnType()` carries the same input. |
| MatchStateExpression.TypedCase | src/instructions/MatchStateExpression.ts:40-44 | `returnType().case(lookup)`. `ReturnTypeKeepsCase` proves that it resolves like `case` on the same input. |
| MatchStateExpression.ReturnTypeKeepsCase | src/instructions/MatchStateExpression.ts:40-44 | `returnType().case` resolves exactly like `case`. |
| MatchStateExpression.CaseCallsWhatWithReturns | src/instructions/MatchStateExpression.ts:6-38 | When every entry is a function, `case` calls on the input exactly what `with` returns. |
| MatchStateExpression.ExhaustiveNeverThrows | src/instructions/MatchStateExpression.ts:20-31 | A table with a handler for every possible tag never throws, and it calls that tag's handler. |
| MatchNumber.RangeKeyContains | src/match/MatchNumber.ts:9-17 | The key written "lo..hi" is a range key. Its bounds parse to `lo` and `hi`, and it contains exactly the inputs from `lo` to `hi` inclusive. |
| MatchNumber.RangeKeyPieces | src/match/MatchNumber.ts:9-10 | Any key containing ".." splits into at least two pieces, and its bounds are read from the first two. |
| MatchNumber.Bounds | src/match/MatchNumber.ts:10-14 | Each bound read from a key is a number or `NaN`. A key with no second piece has an upper bound of `NaN`, which no input is below. |
| MatchNumber.InRange | src/match/MatchNumber.ts:9-15 | The key is a range key, both bounds are numbers, and the input lies between them inclusive. A `NaN` bound fails the comparison. |
| MatchNumber.FirstRange | src/match/MatchNumber.ts:8-19 | Gives the first key, in key order, that is a range containing the input. No earlier key is such a range. |
| MatchNumber.WithValue | src/match/MatchNumber.ts:4-23 | The reference for `with`. It gives `undefined` exactly when the input has no key of its own, no range contains it and there is no `_otherwise`. |
| MatchNumber.CaseValue | src/match/MatchNumber.ts:25-46 | The reference for `case`. It never throws the no-match error: the only throw is calling a non-function. |
| MatchNumber.ScanRanges | src/match/MatchNumber.ts:8-19 | The key scan that `with` and `case` share. It stops at exactly `FirstRange`: the first range key whose bounds contain the input, or the end of the keys. |
| MatchNumber.With | src/match/MatchNumber.ts:4-23 | Returns the result of `WithValue`: the exact key, else the first containing range, else `_otherwise`, or `undefined` when there is none. It never throws. |
| MatchNumber.Case | src/match/MatchNumber.ts:25-46 | Returns the result of `CaseValue`: the exact key's handler when it is a function, else the first containing range's entry called on the input, else `_otherwise(input)`. |
| MatchNumber.WithPrecedence | src/match/MatchNumber.ts:5-17 | An exact key wins over every range. The first containing range in key order wins over later and overlapping ones. |
| MatchNumber.WithFallsBack | src/match/MatchNumber.ts:21 | With no exact key and no containing range, `with` returns `_otherwise`, or `undefined` without one. |
| MatchNumber.CaseFallsBack | src/match/MatchNumber.ts:44 | `case` then calls `_otherwise(input)`, and throws exactly when `_otherwise` is missing or not a function. |
| MatchNumber.CaseCallsWhatWithReturns | src/match/MatchNumber.ts:4-46 | When every entry is a function, `case` calls on the input exactly the entry `with` returns. |
| MatchNumber.UvZero | src/match/__tests__/MatchNumber.test.ts:4-21 | On the tests' full seven-entry table, 0 gives "No light". |
| MatchNumber.UvLow | src/match/__tests__/MatchNumber.test.ts:27-37 | On the tests' full seven-entry table, 1, 2 and 3 give "Low". |
| MatchNumber.UvNoRange17 | src/match/__tests__/MatchNumber.test.ts:6-12 | 17 lies in none of the ranges "1..3", "4..7", "8..10", "11..13" and "14..16". |
| MatchNumber.UvOutOfRange | src/match/__tests__/MatchNumber.test.ts:23-25 | On the tests' full seven-entry table, 17 misses all five ranges and gives "Out of range". |
| MatchNumber.OverlapFirstDeclared | src/match/MatchNumber.ts:8-17 | For "1..5" then "3..8", the input 4 takes the first range. |
| Router.IsState | src/typecheck/isState.ts:3-4 | The test is true exactly for a plain object with `_state`. It throws exactly on `null`. |
| Router.Route | src/match/match.ts:15-21 | Numbers (`NaN` included) go to numeric matching, and tagged objects go to state matching. Everything else goes to value matching, except `null`, which throws. Each case is stated as an if-and-only-if. |
| Router.ConstructedIsState | src/match/match.ts:17-18 | Every value built by a tagged-value constructor goes to state matching. |
| Router.ArraysAndStringsAreValues | src/typecheck/isObject.ts:1-2 | Arrays and strings go to value matching. |
| CaseStatement.Case | src/instructions/case.ts:20-30 | As written: the input is kept. The result is `Matched(handler(input))` exactly when the input equals the pattern, and `Unmatched` otherwise. |
| CaseStatement.Exhaustive | src/instructions/case.ts:32-38 | Throws "Match-Case statement not exhaustive." exactly when unmatched, and otherwise returns the stored value. |
| CaseStatement.ChainLastDecides | src/instructions/case.ts:20-29 | As written, a chain ends matched exactly when its last pattern equals the input. |
| CaseStatement.ChainForgetsEarlierMatch | src/instructions/case.ts:29 | The input 1 against `.case(1, h).case(2, h).exhaustive()` throws. |
| CaseStatement.CaseKeep | src/instructions/case.ts:20-29 | The corrected `case`: a matched statement is kept, and an unmatched one behaves as written. |
| CaseStatement.ChainKeepFirstMatch | src/instructions/case.ts:20-37 | With the corrected `case`, a chain gives the handler of the first case equal to the input. `exhaustive()` throws exactly when no case is equal. |
| CaseStatement.ChainKeepRemembers | src/instructions/case.ts:20-37 | With the corrected `case`, the same chain returns `h(1)`. |
| ResultClass.Failure | src/monads/Result.ts:52-54 | Holds the payload on the failure side. `isSuccess` is false and the success side is `undefined`. |
| ResultClass.Success | src/monads/Result.ts:56-58 | Holds the payload on the success side. `isSuccess` is true and the failure side is `undefined`. |
| ResultClass.Match | src/monads/Result.ts:10-26 | Runs the handler of the held side on a defined payload. It throws "Invalid wrapped value" when the held payload is `undefined`. |
| ResultClass.Unwrap | src/monads/Result.ts:28-35 | Returns the success payload and throws the failure payload itself. An `undefined` payload throws "Invalid wrapped value". |
| ResultClass.SafeUnwrap | src/monads/Result.ts:37-42 | Returns whichever payload is held, unless it is `undefined`. |
| ResultClass.UnwrapOr | src/monads/Result.ts:44-49 | Returns the success payload, or the default on failure. An `undefined` payload throws. |
| ResultClass.ConstructorsRoundTrip | src/monads/Result.ts:28-58 | A defined payload comes back out of every accessor. A failure is thrown by `unwrap` and replaced by the default in `unwrapOr`. |
| ResultClass.UndefinedPayloadThrows | src/monads/Result.ts:25 | `success(undefined)` poisons even `unwrapOr`. |
| ResultClass.AccessorsAgree | src/monads/Result.ts:28-49 | The three accessors agree where `unwrap` returns. Where it throws the failure payload, `safeUnwrap` returns that payload and `unwrapOr` returns the default. |
| TaggedResult.Unwrap | src/monads/__tests__/Result.test.ts:30-38 | Returns the `Ok` payload and throws the `Err` payload. |
| TaggedResult.UnwrapOr | src/monads/__tests__/Result.test.ts:40-50 | Returns the `Ok` payload, or the default for `Err`. |
| TaggedResult.UnwrapOrAgreesWithUnwrap | src/monads/__tests__/Result.test.ts:30-50 | `unwrapOr` returns what `unwrap` returns, and the default exactly where `unwrap` throws. |
| TaggedResult.UnwrapInjective | src/monads/__tests__/Result.test.ts:30-38 | The completion of `unwrap` determines the result. |
| MaybeMonad.Unwrap | src/monads/Maybe.ts:69-74 | Returns the value exactly for `Some`, and throws "Maybe is None" for `None`. |
| MaybeMonad.Expect | src/monads/Maybe.ts:76-81 | Returns the value exactly for `Some`, and throws the message text itself for `None`. |
| MaybeMonad.UnwrapOr | src/monads/Maybe.ts:83-88 | Returns the value, or the default for `None`. |
| MaybeMonad.Map | src/monads/Maybe.ts:90-96 | Stays in the same state, and the payload of `Some` is mapped. |
| MaybeMonad.FlatMap | src/monads/Maybe.ts:98-104 | Returns the handler's own Maybe for `Some`, and `None` for `None`. |
| MaybeMonad.ToResult | src/monads/Maybe.ts:106-112 | `Some(v)` becomes `Ok(v)`, and `None` becomes `Err(err())`. |
| MaybeMonad.Filter | src/monads/Maybe.ts:114-142 | `Some(v)` survives, unchanged, exactly when the checker holds for `v`. |
| MaybeMonad.MapFunctor | src/monads/Maybe.ts:90-96 | The identity law and the composition law. |
| MaybeMonad.MapNoneIgnoresHandler | src/monads/Maybe.ts:91-93 | On `None` the handler does not matter. |
| MaybeMonad.FlatMapMonad | src/monads/Maybe.ts:90-104 | Left identity, right identity and associativity hold, and `map` is `flatMap` into `Some`. |
| MaybeMonad.FilterIdempotent | src/monads/Maybe.ts:114-127 | Filtering twice with one checker is filtering once. Two filters combine into one. |
| MaybeMonad.AccessorsAgree | src/monads/Maybe.ts:69-112 | `unwrapOr` and `expect` agree with `unwrap`. `toResult` then `unwrap` throws `err()` where `unwrap` would throw. |
| MaybeMonad.FilterViaDispatch | src/monads/Maybe.ts:114-127 | The source's dispatch on `_state`, through the discriminant engine, gives exactly `Filter`. |
| LoadingMonad.Val | src/monads/Loading.ts:20-34 | `Failed(e).val` is `e` and `Done(x).val` is `x`. `val` is `undefined` exactly for `Pending`; see Left out for payloads that are themselves `undefined`. |
| LoadingMonad.Map | src/monads/Loading.ts:36-44 | Keeps the state. `Failed(e)` stays `Failed(e)`, and `Done(v)` becomes `Done(f(v))`. |
| LoadingMonad.ToMaybe | src/monads/Loading.ts:46-54 | The result is `Some` exactly for `Done`, and it holds the result. |
| LoadingMonad.ToResult | src/monads/Loading.ts:56-64 | The result is `Err` exactly for `Failed`. `Pending` becomes `Ok(undefined)` and `Done(v)` becomes `Ok(v)`. |
| LoadingMonad.MapFunctor | src/monads/Loading.ts:36-44 | The identity law and the composition law. |
| LoadingMonad.ConversionsCommuteWithMap | src/monads/Loading.ts:36-64 | Mapping then converting is converting then mapping, for both `toMaybe` and `toResult`. |
| LoadingMonad.ConversionsAgree | src/monads/Loading.ts:46-64 | `toMaybe` is `Some` exactly when `toResult` is `Ok` with a result. They differ exactly on `Pending`. |
| LoadingMonad.MapViaDispatch | src/monads/Loading.ts:36-44 | The source's dispatch on `_state`, through the discriminant engine, gives exactly `Map`. |
| Resultify.Resultify | src/wrappers/resultify.ts:3-14 | The adapter is undone by `unwrap`: on every argument, unwrapping its result gives back the wrapped call's completion. A return becomes `Ok` and a throw becomes `Err` of the thrown value, and the adapter never throws. |
| Resultify.AsyncResultify | src/wrappers/resultify.ts:16-28 | The returned promise always fulfils. Unwrapping its value gives the awaited completion of the call. |
| Resultify.ResultifyInjective | src/wrappers/resultify.ts:6-13 | Nothing is lost: two functions with the same wrapped form are equal. |
| Resultify.AsyncIsAwaitedResultify | src/wrappers/resultify.ts:20-27 | The async adapter is the plain adapter applied after awaiting. |
| Maybify.Maybify | src/wrappers/maybify.ts:3-19 | The result is `Some` exactly when the call returns something other than `null`, `undefined` or `NaN`, and it holds that value. |
| Maybify.AsyncMaybify | src/wrappers/maybify.ts:21-37 | The promise always fulfils, with `maybify` applied to the awaited call. |
| Maybify.MaybifyIsFilteredResultify | src/wrappers/maybify.ts:6-18 | `maybify` is `resultify` with the error forgotten, then filtered on nullishness. |
| Maybify.FalsyKept | src/wrappers/maybify.ts:10-14 | `0`, `''` and `false` are kept. `NaN` and `null` are dropped. |
| Procedure.Start | src/procedure/Procedure.ts:13-15 | A new procedure has no stages. |
| Procedure.Sequence | src/procedure/Procedure.ts:17-19 | Appends one sequential stage. |
| Procedure.Parallelize | src/procedure/Procedure.ts:21-23 | Appends one parallel group. |
| Procedure.End | src/procedure/Procedure.ts:25-55 | The loop's result and call log are those of `Run` from the payload `undefined`. |
| Procedure.RunStage | src/procedure/Procedure.ts:29-51 | One stage gives its outcome and the calls it makes. |
| Procedure.CollectGroup | src/procedure/Procedure.ts:34-42 | The loop over a group's results gives `Collect`. |
| Procedure.RunGroup | src/procedure/Procedure.ts:30-32 | Every member of the group is called on the same payload, in order. |
| Procedure.Collect | src/procedure/Procedure.ts:34-42 | The group fails exactly when one of its members fails. |
| Procedure.GroupResults | src/procedure/Procedure.ts:30-32 | One result per group member, in declaration order, each on the same payload. |
| Procedure.FirstErr | src/procedure/Procedure.ts:36-38 | Gives the position of the first failing result. Every result before it is `Ok`. |
| Procedure.StageOutcome | src/procedure/Procedure.ts:29-51 | The outcome of one stage on a payload: the step's `Result`, or `Collect` of the group's results. `GroupOutcome` states its properties for a group. |
| Procedure.GroupOutcome | src/procedure/Procedure.ts:30-42 | A group stage fails exactly when one of its members fails on the payload. Otherwise it yields an array with one payload per member. |
| Procedure.Run | src/procedure/Procedure.ts:25-55 | The reference for `end()`. Stages run in order, each on the previous payload, and the first failing stage ends the run. `RunLogStages`, `RunAppend` and `End` state its properties. |
| Procedure.CollectFirstFailure | src/procedure/Procedure.ts:36-38 | The first failing member in declaration order supplies the error. |
| Procedure.CollectAllOk | src/procedure/Procedure.ts:34-41 | With every member `Ok`, the payload is the array of their payloads, in order. |
| Procedure.StageCalls | src/procedure/Procedure.ts:30-32 | A group calls every member on the same payload. A single step is called once. |
| Procedure.StartEndsOk | src/procedure/Procedure.ts:26-54 | An empty procedure yields `Ok(undefined)` and calls nothing. |
| Procedure.RunLogStages | src/procedure/Procedure.ts:28-52 | Every logged call is a member of a real stage. Calls are logged in strictly increasing stage order, then member order, so no step is called twice. A failed run failed in the last stage it called, on the payload that stage received, so no later stage ran. |
| Procedure.RunAppend | src/procedure/Procedure.ts:44-50 | A failed run is unaffected by a later stage, which is never called. A successful run passes its payload to the new stage, whose outcome decides. |
| Procedure.SequenceThreadsPayload | src/procedure/Procedure.ts:44-50 | `sequence(fn)` gives `fn` the previous payload, and its Result becomes the outcome. A failure stops the run before `fn` is called. |
| Procedure.ParallelizeCallsAll | src/procedure/Procedure.ts:30-41 | Every member of the group is called, whatever the members answer. The group's outcome is `Collect` of their results. |
| Procedure.SequenceExample | src/procedure/__tests__/Procedure.test.ts:26-35 | `Ok(12)`, then add one, then convert to text gives `Ok("13")`. |
| Concurrently.Run | src/procedure/Concurrently.ts:8-10 | Holds exactly the one handler. |
| Concurrently.And | src/procedure/Concurrently.ts:12-15 | Appends one handler. |
| Concurrently.Results | src/procedure/Concurrently.ts:18 | Holds every handler's result, in declaration order. |
| Concurrently.Step | src/procedure/Concurrently.ts:21-30 | One step of the `reduce`. `ReduceOutcome` states what the whole fold gives. |
| Concurrently.Reduce | src/procedure/Concurrently.ts:21-30 | The fold fails exactly when some result fails. When it succeeds, it holds one payload per result. |
| Concurrently.Done | src/procedure/Concurrently.ts:17-31 | `done()` fails exactly when some handler answers `Err`. Otherwise it holds one payload per handler. |
| Concurrently.LastErr | src/procedure/Concurrently.ts:21-30 | Gives the position of the last failing result. After it every result is `Ok`. |
| Concurrently.ReduceOutcome | src/procedure/Concurrently.ts:21-30 | When every result is `Ok`, the fold gives `Ok` of the payloads in order. Otherwise it gives the `Err` of the last failing result. |
| Concurrently.ReduceFailsIffSomeFails | src/procedure/Concurrently.ts:22-25 | The aggregate fails exactly when some handler fails. |
| Concurrently.LaterFailureWins | src/procedure/Concurrently.ts:22-23 | Of two failures, the later one supplies the error. |
| Concurrently.DoneSingle | src/procedure/__tests__/Coroutines.test.ts:5-10 | A single `Ok("Hello, world!")` handler gives `Ok(["Hello, world!"])`. |
| Concurrently.DonePair | src/procedure/__tests__/Coroutines.test.ts:22-30 | `Ok("bonjour")` and `Ok("adios")` give `Ok(["bonjour", "adios"])`. |
| Concurrently.DoneFailing | src/procedure/__tests__/Coroutines.test.ts:32-42 | `Ok("adios")` then `Err("surprise")` gives `Err("surprise")`. |
| Coroutines.Run | src/procedure/Coroutines.ts:8-10 | Holds exactly the one handler. |
| Coroutines.And | src/procedure/Coroutines.ts:12-15 | Appends one handler. |
| Coroutines.Fold | src/procedure/Coroutines.ts:21-30 | The front-to-back fold fails exactly when the accumulator or some result fails. When it succeeds, it extends the accumulator by one payload per result. |
| Coroutines.End | src/procedure/Coroutines.ts:17-31 | `end()` fails exactly when some handler answers `Err`. Otherwise it holds one payload per handler. |
| Coroutines.FoldIsReduce | src/procedure/Coroutines.ts:21-30 | The front-to-back fold, after a prefix, is the fold of the whole sequence. |
| Coroutines.EndIsDone | src/procedure/Coroutines.ts:17-31 | `end()` equals `Concurrently`'s `done()` on the same handlers. |
| DefMacro.Macro.constructor | src/instructions/defMacro.ts:29 | The macro starts with the given props and methods. |
| DefMacro.ApplyWrites | src/instructions/defMacro.ts:36-43 | The assignments are refused exactly when one of them targets a method name. Existing props are never removed, and every new prop was written by some assignment. |
| DefMacro.Macro.Get | src/instructions/defMacro.ts:30-35 | A method name gives the bound method, ahead of any prop of that name. Any other name gives the prop's value, or `undefined`. |
| DefMacro.Macro.Set | src/instructions/defMacro.ts:36-43 | A method name is refused and the props are unchanged. Otherwise the props become the old props with that one key updated, and the result is true. |
| DefMacro.Macro.Call | src/instructions/defMacro.ts:31-42 | The method's assignments go through `Set` in order, and the first refused one throws. A name that is not a method is not callable and changes nothing. |
| DefMacro.WritesVisible | src/instructions/defMacro.ts:36-42 | When no assignment targets a method name, each name ends with the last value written to it. Names that were not written keep their values. |
| DefMacro.WritesSplit | src/instructions/defMacro.ts:41 | Assignments apply one after the other. |
| DefMacro.SelfMutability | src/instructions/__tests__/macro.test.ts:25-45 | On the repository macro, `table` reads "users" and `getTable()` returns it. After `setTable("cars")`, `table` reads "cars". |

## Left out

- Floating-point numbers are not modelled. Numbers are integers, and `parseFloat` reads integer text only. Fractional or exponent bounds in range keys, `Infinity` and `-0` are not modelled.
- Floating-point white space is partly modelled: `parseFloat` skips only ASCII white space.
- The JavaScript `Proxy` machinery is not modelled. `union()`, `state()` and `$defMacro` take the property name as an argument instead.
- Host object-model details are not modelled:
  - the `in` operator's prototype-chain hits, for example a table key `toString`;
  - `Object.keys` ordering. Integer-like keys come first there, but the model scans in declaration order. The two orders agree on the range keys the scan looks at.
  - loose `==` between values of different types in `case.ts`. The model compares with equality on one type.
- Plain objects are maps, and their property order is not modelled.
- Promises, `async`/`await` and `Promise.all` are not modelled as concurrency.
  - Steps and handlers are synchronous functions returning a `Result`.
  - A settled promise is `Fulfilled` or `Rejected`.
  - Completion order and scheduling are not modelled.
- Concurrently.Results: each handler is called exactly once, but the model can only show that each handler's result is used once, because handlers are pure functions.
- DefMacro.Macro.Call: a method computes its assignments and its return value from the props as they were when it was called. A method that reads a prop after assigning it inside the same call is not modelled.
- LoadingMonad.Val: an `undefined` payload is not modelled as `undefined`. In JavaScript, `Done(undefined).val` and `Failed(undefined).val` are `undefined` too. In the model, `val` holds the payload wrapped, so "`undefined` exactly while pending" means "no payload exactly while pending".
- LoadingMonad.ConversionsAgree: "`Ok` with a result" has the same limit. `Done(undefined).toResult()` is `Ok(undefined)` in JavaScript, but the model tells it apart from the `Ok(undefined)` of `Pending`.
- MatchNumber.With: a `NaN` input is not modelled, because the input is an integer. In the source, `NaN` matches no key and no range (every comparison with it is false), so `with` and `case` fall back to `_otherwise`. `Router.Route` still sends `NaN` to numeric matching.
- `symbol` inputs and keys of `match()` and the lookup tables are not modelled. Inputs are strings or integers (`Lookup.Literal`), and keys are strings.
- A lookup table is a sequence of pairs, which can hold the same key twice where a JavaScript object cannot. Every lookup reads the first pair with a given key, and that pair stands for the object's one property.
- Error messages of the host's TypeErrors are not modelled; `NotAFunction`, `InOnNonObject` and `SetRefused` stand for them.
- The `Ok`/`Err` constructors, `expect` and `AsyncResult` are imported from `src/monads/Result.ts`, but that file does not define them. Module `TaggedResult` models them from the behaviour its tests expect. `expect` on a `Result` is not part of this model.
- src/match/MatchState.ts and src/match/MatchVal.ts are not part of this model. The `match(...).returnType().case(...)` dispatch in `Maybe.filter` and `Loading.map` is related to the `_state` engine of `MatchStateExpression`.
- Type-level code is not modelled: `Prettify`, `InferUnion`, the lookup types, `Struct` and `Tuple`.
- Re-exports and example programs are not modelled.

On failures, the library's pipelines differ:

- `Procedure.end` stops at the first `Err` (src/procedure/Procedure.ts:36-38 and 46-47).
- The `reduce` of `Concurrently.done` and `Coroutines.end` lets the last `Err` win (src/procedure/Concurrently.ts:21-30, src/procedure/Coroutines.ts:21-30). The model follows each as written.

## Findings

| source | as written | input that shows it | evidently intended | confidence | as-written member | corrected member |
|---|---|---|---|---|---|---|
| src/instructions/case.ts:29 | `case` returns `Unmatched` whenever the current pattern differs, also after an earlier match | input 1 with `.case(1, h).case(2, h).exhaustive()` throws "Match-Case statement not exhaustive." | a statement that has matched keeps its value; the first equal case decides | high, not executed | CaseStatement.ChainForgetsEarlierMatch | CaseStatement.ChainKeepFirstMatch |
| src/instructions/match.ts:17-33 | the fallback is looked up under `otherwise` | `SURPRISED` (3) with the tests' tables `{0: ':D', 1: ':(', 2: '>:(', _otherwise: '???'}` throws where src/instructions/__tests__/match.test.ts:43-45 expects "???" | the fallback is `_otherwise`, as in the tests and in the other engines | high, not executed | MatchStatement.EmotionTable | MatchStatement.EmotionTableIntended |
