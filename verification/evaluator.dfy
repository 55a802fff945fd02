/** The evaluator of public/scripts/nconc.js (`_evalTramp` and the functions it calls, `_apply`
    and the continuation closures) as a small-step machine over an explicit frame store.

    A bouncer is either an expression to evaluate in an environment with a continuation (what
    `_bounce(_evalTramp, sexpr, env, k)` holds), a value to hand to a continuation, or a landed
    value. JS hands a value to a continuation by calling the closure directly, inside the
    bounce that produced the value; here that call is a step of its own, so a tick budget counts
    machine steps, a finer unit than JS bounces (see `Trampoline.RunComposes` for why the
    suspension points do not change what a run computes). */
module Evaluator {
  import opened Wrappers
  import opened Values
  import opened Lists
  import opened Primitives
  import opened Environment
  import Trampoline

  datatype Bouncer =
    | Bounce(expr: Value, env: nat, k: Cont)
    | ApplyK(k: Cont, v: Value)
    | Landed(v: Value)

  datatype State = State(b: Bouncer, store: Store)

  /** The special-form keywords, interned once at start-up (nconc.js:607-612). */
  const QuoteSym: Value := Sym("quote")
  const DefineSym: Value := Sym("define")
  const SetSym: Value := Sym("set!")
  const IfSym: Value := Sym("if")
  const LambdaSym: Value := Sym("lambda")
  const BeginSym: Value := Sym("begin")

  predicate IsKeyword(v: Value) {
    v in {QuoteSym, DefineSym, SetSym, IfSym, LambdaSym, BeginSym}
  }

  /** An expression that `_evalTramp` hands to its continuation unchanged. */
  predicate SelfEvaluating(e: Value) {
    !e.Sym? && !e.Pair?
  }

  // ---- the argument vector of a combination ----

  /** `argv.concat(val)` of `_makeCombRestK` as written: `concat` flattens an array argument,
      so a vector-valued operand contributes its elements instead of itself. */
  function AppendArgAsWritten(argv: seq<Value>, v: Value): seq<Value> {
    if v.Vector? then argv + v.elems else argv + [v]
  }

  /** The evidently intended step: the operand's value becomes one more argument, whatever it
      is. The machine below uses this one. */
  function AppendArg(argv: seq<Value>, v: Value): (r: seq<Value>)
    ensures |r| == |argv| + 1 && r[..|argv|] == argv && r[|argv|] == v
  {
    argv + [v]
  }

  // ---- _apply ----

  /** `_apply` on a lambda, a captured continuation or a host primitive. A lambda's body runs
      in a fresh frame below the closure's own environment with the caller's continuation; a
      continuation receives the first argument (`undefined` if there is none) and the caller's
      continuation is dropped; a primitive's result goes to `k`. Anything else is not callable. */
  function ApplyProc(store: Store, proc: Value, args: seq<Value>, k: Cont): Option<State> {
    match proc
    case Lambda(params, body, env) =>
      (match ExtendEnv(store, params, args, env)
       case None => None
       case Some(ext) => Some(State(Bounce(body, ext.1, k), ext.0)))
    case ContV(kc) => Some(State(ApplyK(kc, if |args| == 0 then Undefined else args[0]), store))
    case Prim(op) =>
      (match ApplyPrim(op, args)
       case None => None
       case Some(v) => Some(State(ApplyK(k, v), store)))
    case _ => None
  }

  /** `_apply`: `primitive-cwcc` takes exactly one procedure and applies it to the current
      continuation, reified; applying `primitive-cwcc` to itself hands `k` to `k`. */
  function Apply(store: Store, proc: Value, args: seq<Value>, k: Cont): Option<State> {
    if proc.Cwcc? then
      if |args| != 1 || !IsProcedure(args[0]) then None
      else if args[0].Cwcc? then Some(State(ApplyK(k, ContV(k)), store))
      else ApplyProc(store, args[0], [ContV(k)], k)
    else ApplyProc(store, proc, args, k)
  }

  // ---- the special forms ----

  /** `_evalSymbol`: the value of the innermost binding, or an error when there is none. */
  function EvalSymbol(store: Store, name: string, env: nat, k: Cont): Option<State> {
    match Lookup(store, env, name)
    case None => None
    case Some(v) => Some(State(ApplyK(k, v), store))
  }

  /** `_evalBegin` (and the body of `_makeBeginRestK`): evaluate the first form; its value is
      dropped unless it is the last form, which gets `begin`'s own continuation. */
  function EvalBegin(store: Store, forms: Value, env: nat, k: Cont): Option<State> {
    match forms
    case Pair(next, rest) =>
      Some(State(Bounce(next, env, if rest == EmptyList then k else BeginRestK(rest, env, k)), store))
    case _ => None
  }

  /** The continuation that waits for the next value of a combination: the last operand's
      value goes to `_makeCombApplyK`, any other to `_makeCombRestK`. */
  function OperandK(argv: seq<Value>, rest: Value, env: nat, k: Cont): Cont {
    if rest == EmptyList then CombApplyK(argv, env, k) else CombRestK(argv, rest, env, k)
  }

  /** `_evalCombination`: the operator is evaluated first. */
  function EvalCombination(store: Store, op: Value, rest: Value, env: nat, k: Cont): State {
    State(Bounce(op, env, OperandK([], rest, env, k)), store)
  }

  /** `_evalLambda`: parameters from the second element (a proper list), and the forms after
      it as the body, wrapped in `begin` unless there is exactly one. */
  function EvalLambda(store: Store, e: Value, env: nat, k: Cont): Option<State>
    requires e.Pair?
  {
    match Second(e)
    case None => None
    case Some(ps) =>
      match ListToVector(ps)
      case None => None
      case Some(params) =>
        match e.cdr
        case Pair(_, forms) =>
          if Length(forms) == Some(1) then
            (match Car(forms)
             case None => None
             case Some(body) => Some(State(ApplyK(k, Lambda(params, body, env)), store)))
          else Some(State(ApplyK(k, Lambda(params, Cons(BeginSym, forms), env)), store))
        case _ => None
  }

  /** `_evalTramp`: one bounce on an expression. */
  function EvalTramp(store: Store, e: Value, env: nat, k: Cont): Option<State> {
    match e
    case Sym(name) => EvalSymbol(store, name, env, k)
    case Pair(first, rest) =>
      if first == QuoteSym then
        (match Second(e)
         case None => None
         case Some(d) => Some(State(ApplyK(k, d), store)))
      else if first == DefineSym then
        (match (Second(e), Third(e))
         case (Some(target), Some(form)) => Some(State(Bounce(form, env, DefineK(target, env, k)), store))
         case _ => None)
      else if first == SetSym then
        (match (Second(e), Third(e))
         case (Some(target), Some(form)) => Some(State(Bounce(form, env, SetK(target, env, k)), store))
         case _ => None)
      else if first == IfSym then
        (match (Second(e), Third(e))
         case (Some(c), Some(t)) => Some(State(Bounce(c, env, IfK(t, FourthOrFalse(e), env, k)), store))
         case _ => None)
      else if first == LambdaSym then EvalLambda(store, e, env, k)
      else if first == BeginSym then EvalBegin(store, rest, env, k)
      else Some(EvalCombination(store, first, rest, env, k))
    case _ => Some(State(ApplyK(k, e), store))
  }

  /** Handing `v` to continuation `k`: the bodies of the continuation closures. */
  function ApplyCont(store: Store, k: Cont, v: Value): Option<State> {
    match k
    case Land => Some(State(Landed(v), store))
    case DefineK(target, env, next) =>
      (match NameKey(target)
       case None => None
       case Some(key) =>
         match DefineIn(store, env, key, v)
         case None => None
         case Some(s) => Some(State(ApplyK(next, v), s)))
    case SetK(target, env, next) =>
      (match NameKey(target)
       case None => None
       case Some(key) =>
         match Assign(store, env, key, v)
         case None => None
         case Some(s) => Some(State(ApplyK(next, v), s)))
    case IfK(thenForm, elseForm, env, next) =>
      Some(State(Bounce(if v != Bool(false) then thenForm else elseForm, env, next), store))
    case BeginRestK(rest, env, next) => EvalBegin(store, rest, env, next)
    case CombRestK(argv, rest, env, next) =>
      (match rest
       case Pair(n, r) =>
         var a := AppendArg(argv, v);
         Some(State(Bounce(n, env, OperandK(a, r, env, next)), store))
       case _ => None)
    case CombApplyK(argv, env, next) =>
      if |argv| == 0 then Apply(store, v, [], next)
      else Apply(store, argv[0], argv[1..] + [v], next)
  }

  /** One step of the machine; `None` is an error thrown by the interpreter. A landed state
      does not step: the trampoline returns its value instead. */
  function Step(s: State): Option<State> {
    match s.b
    case Bounce(e, env, k) => EvalTramp(s.store, e, env, k)
    case ApplyK(k, v) => ApplyCont(s.store, k, v)
    case Landed(_) => None
  }

  function LandedValue(s: State): Option<Value> {
    if s.b.Landed? then Some(s.b.v) else None
  }

  type Outcome = Trampoline.Outcome<State, Value>

  /** `_eval`: the first `_evalTramp` runs before the trampoline takes over, outside the
      budget; a throw there is an error like any other. */
  function Eval(store: Store, e: Value, env: nat, ticks: int, fuel: nat): (r: Outcome)
    ensures ticks < 0 ==> !r.Suspended?
    ensures r.Landed? ==> r.last.b == Landed(r.value)
    ensures r.Suspended? ==> !r.pending.b.Landed?
    ensures EvalTramp(store, e, env, Land).None? ==> r == Trampoline.Thrown(State(Bounce(e, env, Land), store))
    ensures r.Thrown? ==> !r.last.b.Landed? && Step(r.last).None?
    ensures ticks == 0 && EvalTramp(store, e, env, Land).Some? ==>
              r.Landed? || r == Trampoline.Suspended(EvalTramp(store, e, env, Land).value)
  {
    match EvalTramp(store, e, env, Land)
    case None => Trampoline.Thrown(State(Bounce(e, env, Land), store))
    case Some(s) => Trampoline.Run(LandedValue, Step, s, ticks, fuel)
  }

  /** `schemeEval`: the environment defaults to the top level, and a missing or zero budget
      means no budget at all (-1). */
  function SchemeEval(store: Store, e: Value, env: Option<nat>, ticks: Option<int>, fuel: nat): (r: Outcome)
    ensures ticks.None? || ticks == Some(0) ==> !r.Suspended?
  {
    var t := if ticks.None? || ticks == Some(0) then -1 else ticks.value;
    Eval(store, e, if env.Some? then env.value else TopLevel, t, fuel)
  }
}
