# NCONC evaluator core in Dafny

NCONC is a small Scheme interpreter in JavaScript (`public/scripts/nconc.js`). It shows how a
trampoline gives proper tail calls and full first-class continuations. The evaluator is
written in continuation-passing style. Each `_evalTramp` call returns a *bouncer* to
`_trampoline` instead of recursing, and `primitive-cwcc` hands a program the current
continuation closure as an ordinary value.

This project models that core:

- **Values, pairs and lists.** The runtime values, the pair and list helpers (`_car` …
  `_listToVector`, `_length`), boxes, and the symbol intern table (`_stringToSymbol`,
  `_intern`). Interned symbols are identical exactly when their names agree up to case. The
  evaluator's symbol values carry the interned name, so comparing names is comparing symbol
  objects.
- **Builtins.** The arithmetic builtins `+ - * =` are each a left fold. They are proved
  equal to independently defined sums and products.
- **Environments.** These are frames with `_parent` links, held in a store of frames.
  - `_findBinding` is proved to return the innermost binding.
  - `_extendEnv` binds positionally, as `_.zip` pairs parameters with arguments.
  - `define` writes into the current frame.
  - `set!` mutates the innermost visible binding and nothing else.
- **The evaluator.** `_evalTramp`, `_apply` and every continuation closure become a
  defunctionalised small-step machine. The closures are a `Cont` datatype, and `ApplyK`
  hands a value to one. The rules for `begin`, combinations, `if`, `define` and `set!` are
  proved for subforms of any kind: each subform is only assumed to yield some value in some
  number of steps, whatever continuation waits for it (`Semantics.Evaluates`).
- **The trampoline.** `_trampoline` is modelled generically, including its tick budget.
  - Suspending and resuming a run is proved to be the same as one longer run, which is what
    the host's `monitorEval` loop relies on.
  - A budget of `-1` is proved to agree with any finite budget that suffices.
- **Whole evaluations.** The interpreter's own call/cc and `set!` examples are proved as
  whole evaluations:
  - `(+ 5 (primitive-cwcc (lambda (k) (set! plus5 k) 32)))` returns 37.
  - After it, `(plus5 5)` gives 10 and `(plus5 6)` gives 11: the captured continuation can
    be resumed more than once.
  - `(primitive-cwcc foo)` escapes through `return`, while `(foo (lambda (x) x))` does not.
  - A local `set!` leaves the shadowed top-level binding alone.
  - `(begin (define x 5) nope)` throws, but `x` stays defined for the next evaluation.
  - `(- (- (- 15)))` and `((lambda (y) y) (- (- (- 15))))` return -15: calls nest as operands.

Errors thrown by the interpreter become `None`, or the `Thrown` outcome of a run. A `Thrown`
outcome keeps the state the run had reached when the bounce failed. Every `define` and `set!`
done before the throw therefore stays in its store, as it stays in `_top_level` in the source,
and a later evaluation can start from that store. Numbers are unbounded integers.

The machine makes each continuation application its own step. JavaScript instead calls the
continuation closure synchronously, inside the bounce that produced the value. A tick budget
therefore counts machine steps, which are finer than JavaScript bounces. `Trampoline.RunComposes` shows that where
a run is suspended never changes what it computes.

## Model

| member | source | states |
|---|---|---|
| Symbols.LowerIsLowerCase | public/scripts/nconc.js:197 | folding leaves no upper-case letter, keeps the length and every other character, and is idempotent |
| Symbols.Intern | public/scripts/nconc.js:210-218 | returns the symbol already filed under the name, otherwise files a fresh symbol with a new identity; the table stays consistent and keeps all earlier entries |
| Symbols.StringToSymbol | public/scripts/nconc.js:195-199 | the interned symbol's name is the lower-cased string, contains no upper-case letter, and is what the table now holds under that name |
| Symbols.IdenticalIffSameLowerCase | public/scripts/nconc.js:195-218 | two strings interned one after the other give the identical symbol object if and only if they agree up to case |
| Symbols.InternAll | public/scripts/nconc.js:195-218 | interning a sequence of names yields, for each name, the symbol the final table files under its lower-cased form |
| Symbols.InternAllIdentity | public/scripts/nconc.js:195-218 | across any sequence of interned names, two of the resulting symbols are identical if and only if their names agree up to case |
| Values.SymbolValueIdentity | public/scripts/nconc.js:195-218 | the evaluator's symbol values, which carry the interned name, are equal exactly when the intern table handed out the identical symbol object |
| Values.SymbolToString | public/scripts/nconc.js:201-204 | succeeds exactly on symbols, and the symbol is rebuilt from the returned name |
| Values.Unbox | public/scripts/nconc.js:556-559 | succeeds exactly on boxes, and the box is rebuilt from the returned contents |
| Values.BoxRoundTrip | public/scripts/nconc.js:553-559 | unboxing a new box returns what was boxed, and re-boxing any unboxed contents gives back the same box |
| Values.NameKey | public/scripts/nconc.js:395-401 | the property key a binding target gives: a symbol gives its name, `null` and `undefined` throw, and any other value gives the key "undefined" (JavaScript's missing `_name`) |
| Values.NameKeyCollisions | public/scripts/nconc.js:186-199 | distinct symbols name distinct properties, while every other non-null target names the same property as the symbol `undefined` |
| Lists.SpineRebuilds | public/scripts/nconc.js:220-226 | every proper list is the chain of `_cons` cells built from its elements |
| Lists.Car | public/scripts/nconc.js:228-231 | succeeds exactly on pairs and returns the first element of the chain |
| Lists.Cdr | public/scripts/nconc.js:233-236 | succeeds exactly on pairs; the rest has all elements but the first and the same terminator |
| Lists.Cons | public/scripts/nconc.js:220-222 | the new pair is not the empty list, and `_car`/`_cdr` take it apart into exactly its two parts |
| Lists.List | public/scripts/nconc.js:224-226 | the one-element proper list holding the object |
| Lists.ListRef | public/scripts/nconc.js:246-292 | walking `i` cdrs then taking the car succeeds exactly when the chain has more than `i` elements, and returns element `i` |
| Lists.Nth | public/scripts/nconc.js:246-292 | `_first` to `_fourth`: a long-enough array is indexed, a pair chain is walked, anything else throws; both give element `i` |
| Lists.FourthOrFalse | public/scripts/nconc.js:276-282 | element 3 when there is one, and `#f` for a proper list of three elements or fewer |
| Lists.ArrayAndListAgree | public/scripts/nconc.js:246-292 | an array and the proper list with the same elements answer every positional access alike |
| Lists.CountPairs | public/scripts/nconc.js:297-300 | the loop of `_listLength` adds the number of pairs on the cdr chain to its counter |
| Lists.ListLength | public/scripts/nconc.js:294-302 | defined exactly on pairs, and returns the number of elements in the chain, at least 1, whatever terminates it |
| Lists.CollectFrom | public/scripts/nconc.js:350-359 | the loop of `_listToVector` succeeds exactly on proper lists and appends their elements in order |
| Lists.ListToVector | public/scripts/nconc.js:350-359 | succeeds exactly on proper lists; the array holds the list's elements in order and rebuilds the list |
| Lists.ListToVectorOfFromSeq | public/scripts/nconc.js:350-359 | converting the proper list built from a sequence gives that sequence back |
| Lists.LengthCounts | public/scripts/nconc.js:304-312 | `_length` of a proper list is the length of its array, of any pair chain what `_listLength` counts, of an array its element count, and 0 for the empty list |
| Primitives.FoldAddIsSum | public/scripts/nconc.js:327-331 | reducing with `+` from `memo` gives `memo` plus the independently defined sum |
| Primitives.FoldSubIsMinusSum | public/scripts/nconc.js:321-323 | reducing with `-` from `memo` gives `memo` minus the sum |
| Primitives.FoldMulIsProduct | public/scripts/nconc.js:333-337 | reducing with `*` from `memo` gives `memo` times the independently defined product |
| Primitives.FoldAgreesWithReference | public/scripts/nconc.js:321-337 | the three reductions agree with the reference sum and product |
| Primitives.PlusOf | public/scripts/nconc.js:327-331 | defined exactly on all-number arguments; the sum, 0 for none |
| Primitives.TimesOf | public/scripts/nconc.js:333-337 | defined exactly on all-number arguments; the product, 1 for none |
| Primitives.MinusOf | public/scripts/nconc.js:314-325 | needs at least one number; negation of one argument, otherwise the first minus the sum of the others |
| Primitives.NumEqualOf | public/scripts/nconc.js:339-348 | needs at least two arguments, all numbers; true if and only if all arguments are pairwise equal |
| Environment.Chain | public/scripts/nconc.js:369-377 | the `_parent` walk visits existing frames with strictly decreasing ids, starting at the environment and ending at a frame without a parent, so it always stops |
| Environment.FindFrame | public/scripts/nconc.js:369-377 | any frame returned does bind the name |
| Environment.FindFrameIsInnermost | public/scripts/nconc.js:369-377 | "unbound" exactly when no frame on the parent chain binds the name; otherwise the first frame on the chain that binds it |
| Environment.DefineIn | public/scripts/nconc.js:395-401 | inserts or overwrites the name in that exact frame and nowhere else, keeps the parent link, and the name then reads as the value from that frame |
| Environment.FindFrameAfterRebind | public/scripts/nconc.js:385-393 | rebinding an already bound name changes no chain and no innermost binding frame of any name |
| Environment.Assign | public/scripts/nconc.js:385-393 | defined exactly when the name is visible; only the innermost binding changes and every other frame stays as it was |
| Environment.AssignIsVisible | public/scripts/nconc.js:385-393 | after the assignment the name reads as the new value, and every other name reads as before |
| Environment.BindPrefix | public/scripts/nconc.js:185-193 | the binding loop succeeds exactly when every parameter so far yields a key |
| Environment.BindPrefixKeys | public/scripts/nconc.js:185-193 | the names bound are exactly the keys of the parameters |
| Environment.BindPrefixValues | public/scripts/nconc.js:185-193 | each name is bound to the argument at the position of the last parameter with that name, or `undefined` when the arguments ran out |
| Environment.BindPrefixIsPositional | public/scripts/nconc.js:185-193 | positional binding: exactly the parameters' names, each bound to the argument at the last such parameter's position |
| Environment.ExtendEnv | public/scripts/nconc.js:185-193 | fails exactly on surplus arguments, a null/undefined parameter or a missing parent; otherwise adds one new frame below the parent, binding parameters positionally, and leaves every existing frame untouched |
| Environment.FindFrameInGrownStore | public/scripts/nconc.js:369-377 | frames added later are invisible from an existing frame: lookups from it are unchanged |
| Environment.ExtendEnvLookup | public/scripts/nconc.js:185-193 | in the new frame a parameter reads as its argument, and any other name reads as it does from the parent |
| Environment.InitialStore | public/scripts/nconc.js:594-605 | one frame without a parent; `*`, `+`, `-` and `=` read as the four host primitives, `primitive-cwcc` as itself and `null` as null, and every other name is unbound |
| Trampoline.Run | public/scripts/nconc.js:103-117 | a landed bouncer returns its value under any budget; a budget of 0 returns the pending bouncer; a suspended run has done exactly `ticks` bounces; a negative budget never suspends; a thrown run reports a bouncer that neither lands nor bounces |
| Trampoline.ThrowsWithinBudget | public/scripts/nconc.js:103-117 | a run throws only when some bouncer reached within the fuel, and within the budget when it is non-negative, is not ready to land and fails to bounce, and that bouncer is the one the run reports |
| Trampoline.ThrowsWhenBounceFails | public/scripts/nconc.js:103-117 | conversely, a bouncer reached within the budget that neither lands nor bounces makes the run throw, reporting that bouncer |
| Trampoline.LandsWithinBudget | public/scripts/nconc.js:103-117 | the bouncer a run lands on is reached within the budget of bounces |
| Trampoline.RunAfterIterate | public/scripts/nconc.js:103-117 | a run that can afford `n` bounces passes through the bouncer reached after them |
| Trampoline.RunComposes | public/scripts/nconc.js:156-163 | suspending after `m` bounces and resuming with `n` is the same as one run with budget `m + n` |
| Trampoline.FuelIrrelevant | public/scripts/nconc.js:103-117 | a non-negative budget alone bounds the run |
| Trampoline.UnboundedAgreesWithBudget | public/scripts/nconc.js:570-578 | a finished run with the default budget -1 ends exactly as a run with a sufficient finite budget |
| Trampoline.MoreBudgetSameEnd | public/scripts/nconc.js:103-117 | once a run lands or throws, a larger budget ends the same way |
| Trampoline.ChunkedIsOneRun | public/scripts/nconc.js:156-163 | the host's loop of fixed-size chunks, resumed while suspended, is one run with the total budget |
| Trampoline.ChunkedAgreesWithUnbounded | public/scripts/nconc.js:165-181 | whatever an unbounded evaluation lands on, the request handler's chunked loop lands on too |
| Evaluator.AppendArg | public/scripts/nconc.js:445-453 | the operand's value becomes exactly one more argument after the earlier ones (corrected; see Findings) |
| Evaluator.Eval | public/scripts/nconc.js:532-534 | the first `_evalTramp` runs outside the budget: a throw there is an error whatever the budget and reports the starting state, and with a zero budget the outcome is already past that first bounce; a negative budget never suspends; a landed outcome holds its value; a suspended outcome is a pending bouncer; a thrown outcome holds a state that neither lands nor steps |
| Evaluator.SchemeEval | public/scripts/nconc.js:570-579 | with no budget or a budget of 0 the evaluation is never suspended |
| Findings.AsWrittenDiffersOnVectors | public/scripts/nconc.js:449 | `argv.concat(val)` differs from appending one value exactly when the value is an array |
| Findings.VectorOperandIsSpliced | public/scripts/nconc.js:445-453 | `((lambda (x y) x) [1 2] 3)` throws as written, since the vector is spliced and the lambda gets three arguments for two parameters; with one value per operand, `x` is bound to the vector |
| Semantics.SimpleStep | public/scripts/nconc.js:500-530 | a datum, a symbol or a quotation takes one bounce: the value of the innermost binding, the datum itself, or the quoted datum goes to `k`; an unbound symbol throws |
| Semantics.SimpleEvaluates | public/scripts/nconc.js:500-530 | a datum, a bound symbol or a quotation evaluates in one step, in any context, without touching the store |
| Semantics.SimpleFormsInOrder | public/scripts/nconc.js:500-530 | a run of such forms evaluates in order, one step each, with the store unchanged throughout |
| Semantics.BeginFormsYieldLast | public/scripts/nconc.js:403-417 | the forms of a `begin`, whatever they are, run in order, each in the store the previous one left; only the last one's value reaches `k` |
| Semantics.BeginYieldsLast | public/scripts/nconc.js:412-417 | `(begin e1 … en)` is itself an expression: in any context it yields the value of `en`, in the store the forms leave behind |
| Semantics.OperandsInOrder | public/scripts/nconc.js:445-468 | the operand continuations evaluate the remaining operands, whatever they are, left to right, each in the store the previous one left, and apply the operator to all values in source order |
| Semantics.CombinationInSourceOrder | public/scripts/nconc.js:445-476 | a combination evaluates operator then operands left to right, threading the store, and calls `_apply` with their values in source order and its own continuation |
| Semantics.SimpleCombination | public/scripts/nconc.js:445-476 | for operator and operands that are data, symbols or quotations, `_apply` gets their values after two steps each, in the original store |
| Semantics.PrimitiveCallEvaluates | public/scripts/nconc.js:439-476 | a call of a host primitive yields the primitive's result in any context, so such calls nest as operands of other calls |
| Semantics.IfFormParts | public/scripts/nconc.js:515-519 | `(if c t . rest)` is read as condition `c`, consequent `t`, and alternative the next form or `#f` |
| Semantics.IfChoosesBranch | public/scripts/nconc.js:478-484 | after the condition, whatever form it is, exactly one branch runs with `if`'s own continuation in the store the condition left: the consequent unless the value is `#f` |
| Semantics.EvalLambdaOfForm | public/scripts/nconc.js:486-498 | `_evalLambda` succeeds exactly on a proper parameter list; the closure holds the parameters, the single form or the forms wrapped in `begin`, and the current environment |
| Semantics.LambdaMakesClosure | public/scripts/nconc.js:520-521 | evaluating a `lambda` expression hands that closure to the continuation in one step, without touching the store |
| Semantics.LambdaEvaluates | public/scripts/nconc.js:486-498 | a `lambda` expression with a proper parameter list yields its closure in one step, in any context |
| Semantics.DefineBindsInCurrentFrame | public/scripts/nconc.js:395-401 | `define` evaluates its form, whatever it is, then binds the name in the current frame only of the store the form left; the name reads as the value, and the value goes on; it fails only if the frame is missing |
| Semantics.SetChangesInnermostBinding | public/scripts/nconc.js:385-393 | `set!` evaluates its form, whatever it is, and then fails exactly on a name unbound in the store the form left; otherwise only the innermost binding changes, every other frame is untouched and the name reads as the new value |
| Semantics.SetEvaluates | public/scripts/nconc.js:385-393 | a `set!` of a bound name is itself an expression yielding the assigned value, in any context |
| Semantics.DefineEvaluates | public/scripts/nconc.js:395-401 | a `define` in an existing frame is itself an expression yielding the defined value, in any context |
| Semantics.LambdaApplication | public/scripts/nconc.js:423-429 | a lambda's body runs in a new frame whose parent is the closure's environment, not the caller's, with the caller's continuation; parameters read as their arguments, other names as where the lambda was made; fails exactly on arity/name/parent errors |
| Semantics.PrimitiveResultToK | public/scripts/nconc.js:439-442 | a host primitive's result goes to the caller's continuation with the store untouched; it fails exactly when the primitive throws |
| Semantics.NonProcedureIsError | public/scripts/nconc.js:419-443 | applying anything that is not a procedure throws |
| Semantics.CwccNeedsOneProcedure | public/scripts/nconc.js:430-433 | `primitive-cwcc` succeeds only with exactly one procedure argument |
| Semantics.CwccReifiesContinuation | public/scripts/nconc.js:430-435 | `primitive-cwcc` applies its argument, whatever procedure it is, to the current continuation as a value, with that same continuation as the caller's |
| Semantics.ContinuationIgnoresCaller | public/scripts/nconc.js:436-438 | calling a captured continuation discards the caller's continuation and resumes the captured one with the first argument, from any caller |
| Semantics.LandedDoesNotStep | public/scripts/nconc.js:106-107 | a landed bouncer is never bounced again |
| Semantics.EvalLands | public/scripts/nconc.js:532-534 | an evaluation whose machine lands after its first step plus `n` more lands with that value under any budget allowing `n` |
| Semantics.EvaluatesLands | public/scripts/nconc.js:532-534 | an expression that evaluates to `v`, in whatever way, lands on `v` in the store it leaves, under any budget and fuel that afford its steps |
| Semantics.EvalThrows | public/scripts/nconc.js:532-534 | an evaluation whose machine reaches a state that neither lands nor steps throws there under any budget allowing the steps before it, and the thrown outcome keeps that state with its store |
| WellFormed.DefineInOk | public/scripts/nconc.js:395-401 | defining a value that names only existing frames keeps the store well-formed |
| WellFormed.AssignOk | public/scripts/nconc.js:385-393 | assigning such a value keeps the store well-formed |
| WellFormed.ExtendEnvOk | public/scripts/nconc.js:185-193 | the frame `_extendEnv` adds names only existing frames |
| WellFormed.ApplyOk | public/scripts/nconc.js:423-443 | every application from a well-formed state yields a well-formed state |
| WellFormed.EvalLambdaOk | public/scripts/nconc.js:486-498 | the closure `_evalLambda` makes refers only to existing frames |
| WellFormed.EvalTrampOk | public/scripts/nconc.js:500-530 | every bounce of `_evalTramp` from a well-formed state yields a well-formed state |
| WellFormed.ApplyContOk | public/scripts/nconc.js:379-468 | every continuation closure, applied in a well-formed state, yields a well-formed state |
| WellFormed.StepKeepsStateOk | public/scripts/nconc.js:500-530 | one step keeps every frame id held by values, continuations and bouncers pointing at an existing frame |
| WellFormed.DefineFrameExists | public/scripts/nconc.js:395-401 | in a well-formed state `define` can fail only for want of a name, never for a missing frame |
| WellFormed.StepsKeepStateOk | public/scripts/nconc.js:103-117 | any number of bounces from a well-formed state keeps it well-formed |
| WellFormed.InitialStoreOk | public/scripts/nconc.js:594-605 | the top-level frame with the builtins is well-formed |
| WellFormed.StepGrowsStore | public/scripts/nconc.js:185-193 | a step only adds frames and never changes a parent link |
| WellFormed.ChainStable | public/scripts/nconc.js:369-377 | in a grown store every existing frame keeps its chain of ancestors |
| WellFormed.StepsKeepAncestry | public/scripts/nconc.js:185-193 | however long a run, the store only grows and every frame's chain of ancestors is fixed: lexical scope is set when a frame is made |
| Scenarios.Plus5AddsFive | public/scripts/nconc-test.js:355-358 | with `plus5` bound to the captured continuation, `(plus5 n)` returns `5 + n` for every `n`, leaving the store as it was |
| Scenarios.CaptureReturns37 | public/scripts/nconc-test.js:352-354 | after `(define plus5 #f)`, `(+ 5 (primitive-cwcc (lambda (k) (set! plus5 k) 32)))` returns 37 and leaves the continuation in the top-level `plus5` |
| Scenarios.CapturedContinuationIsMultiShot | public/scripts/nconc-test.js:352-358 | 37 first, then `(plus5 n)` gives `5 + n` and a later `(plus5 m)` gives `5 + m`: the continuation can be resumed again and again |
| Scenarios.CapturedReturnEscapes | public/scripts/nconc-test.js:347-351 | `(primitive-cwcc foo)` returns `#t`: calling the captured continuation leaves `foo` at once, and `#f` is never reached |
| Scenarios.OrdinaryReturnContinues | public/scripts/nconc-test.js:347-349 | `(foo (lambda (x) x))` returns `#f`: an ordinary procedure returns to its caller, and the body goes on |
| Scenarios.NegationEvaluates | public/scripts/nconc.js:445-476 | `(- e)` yields the negation of whatever `e` yields, in any context |
| Scenarios.Neg3Evaluates | public/scripts/nconc-test.js:288-289 | `(- (- (- 15)))` evaluates to -15 in any context, in 13 steps, leaving the store unchanged; each inner call's value is the next call's operand |
| Scenarios.Neg3Lands | public/scripts/nconc-test.js:288-289 | `(- (- (- 15)))` returns -15 and leaves the store as it was |
| Scenarios.IdentityOfNeg3Evaluates | public/scripts/nconc-test.js:290-291 | `((lambda (y) y) (- (- (- 15))))` evaluates to -15 in any context; the only change to the store is the new frame binding `y` to -15 |
| Scenarios.IdentityOfNeg3Lands | public/scripts/nconc-test.js:290-291 | `((lambda (y) y) (- (- (- 15))))` returns -15: a lambda expression as operator and a nested call as operand |
| Scenarios.LocalSetLeavesShadowedBinding | public/scripts/nconc-test.js:336-340 | `((lambda (y) (set! y 100) y) 3)` returns 100, and the top-level `y` reads as before |
| Scenarios.ThrowKeepsEarlierDefine | public/scripts/nconc.js:395-401 | `(begin (define x 5) nope)` with `nope` unbound throws, yet the store it leaves binds `x` to 5 in the top frame, so a later evaluation of `x` from it returns 5 |

## Left out

- The PageBus request/reply plumbing (`publishResult`, `monitorEval`, `onRequest`, nconc.js:146-183). It is host I/O and timers. Its chunked resumption is modelled as `Trampoline.Chunked`, and `_.uniqueId` reply ids are not modelled.
- The reader (`schemeRead`, a generated parser). It is not part of this model; expressions are built directly as values.
- Floating-point numbers, `NaN` and overflow. Numbers are unbounded integers.
- Implicit JavaScript coercions. `+` on strings concatenates and arithmetic on other objects gives `NaN`; the model makes every builtin throw on non-numbers. `=` already throws on them in the source.
- `schemeSetBox`. Box mutation needs object identity, and boxes are immutable values here.
- `_length` (`_.size`) on host objects other than strings, hashes, `null` and `undefined`. The model makes it throw for them.
- Property-name collisions in environment frames: a variable named `_parent`, or an inherited property such as `__proto__`, is treated as an ordinary variable name.
- Symbols.StringToSymbol: the intern table `_symbols` (nconc.js:82, 212-214) is a plain object, so the names `constructor` and `__proto__` find an inherited property there and `_intern` returns that object instead of a symbol. The model files every name afresh, so Symbols.IdenticalIffSameLowerCase and Symbols.InternAllIdentity hold for all names, those two included.
- Case folding beyond ASCII in `_stringToSymbol`.
- JavaScript stack depth. Continuation calls nest synchronously inside one bounce in the source; they are separate steps here.
- The messages carried by thrown errors. Every error is the `Thrown` outcome, which keeps the state reached but no message.
- `_identity` (nconc.js:361-363). It is never used by the evaluator.
- Step granularity. A tick of the budget is one machine step (an evaluation or one continuation application), not one JavaScript bounce. `Trampoline.RunComposes` shows that where a run is suspended does not change its result; the exact tick at which a JavaScript run suspends is not modelled.
- Arity follows `_.zip` (nconc.js:185-193). Missing arguments are bound to `undefined`, and a surplus argument throws because it is paired with an `undefined` parameter.
- `Trampoline.Outcome.Unfinished`. It only records that the proof fuel ran out for a run with a negative budget; the source would keep looping.
- Evaluator.SchemeEval: its contract states only the budget behaviour. What an evaluation computes is stated by `Semantics.EvalLands` and the `Scenarios` lemmas.
- Evaluator.Eval: its contract states only the shape of the outcome. Its results are stated through `Semantics.EvalLands` and `Semantics.EvalThrows`.

## Findings

| source | as written | input that shows it | evidently intended | confidence | as-written member | corrected member |
|---|---|---|---|---|---|---|
| public/scripts/nconc.js:449 | `argv.concat(val)` splices an array-valued operand into the argument vector | `((lambda (x y) x) [1 2] 3)`: the argument vector becomes `[lam, 1, 2, 3]`, so the lambda gets three arguments for two parameters and the application throws | each operand contributes exactly one argument, so `x` is bound to `[1 2]` | not executed | Findings.VectorOperandIsSpliced | Semantics.CombinationInSourceOrder |
