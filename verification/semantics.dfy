/** What the evaluator machine does with each kind of expression, stated against independent
    descriptions: the innermost binding for symbols, the list of forms for `begin`, the source
    order of a combination, the frame a lambda body runs in, and the continuation that
    `primitive-cwcc` reifies. */
module Semantics {
  import opened Wrappers
  import opened Values
  import opened Lists
  import opened Primitives
  import opened Environment
  import opened Evaluator
  import Trampoline

  function Steps(s: State, n: nat): Option<State> {
    Trampoline.Iterate(Step, s, n)
  }

  /** The value of an expression that needs no evaluation of subexpressions: a self-evaluating
      datum is its own value, a symbol has the value of its innermost binding, a quotation
      has its datum. */
  function SimpleValue(store: Store, env: nat, e: Value): Option<Value> {
    if SelfEvaluating(e) then Some(e)
    else if e.Sym? then Lookup(store, env, e.name)
    else if e.car == QuoteSym then Second(e)
    else None
  }

  predicate AllSimple(store: Store, env: nat, es: seq<Value>) {
    forall i :: 0 <= i < |es| ==> SimpleValue(store, env, es[i]).Some?
  }

  function SimpleValues(store: Store, env: nat, es: seq<Value>): (vs: seq<Value>)
    requires AllSimple(store, env, es)
    ensures |vs| == |es| && forall i :: 0 <= i < |es| ==> vs[i] == SimpleValue(store, env, es[i]).value
  {
    seq(|es|, i requires 0 <= i < |es| => SimpleValue(store, env, es[i]).value)
  }

  lemma Advance(s: State, s': State, n: nat)
    requires Step(s) == Some(s') && n > 0
    ensures Steps(s, n) == Steps(s', n - 1)
  {
    Trampoline.IterateStep(Step, s, s', n);
  }

  // ---- single steps, one rule per kind of bouncer ----

  lemma StepBegin(store: Store, forms: Value, env: nat, k: Cont)
    ensures Step(State(Bounce(Pair(BeginSym, forms), env, k), store)) == EvalBegin(store, forms, env, k)
  {
  }

  lemma StepCombination(store: Store, op: Value, rest: Value, env: nat, k: Cont)
    requires !IsKeyword(op)
    ensures Step(State(Bounce(Pair(op, rest), env, k), store)) == Some(EvalCombination(store, op, rest, env, k))
  {
  }

  lemma StepBeginRest(store: Store, rest: Value, env: nat, k: Cont, v: Value)
    ensures Step(State(ApplyK(BeginRestK(rest, env, k), v), store)) == EvalBegin(store, rest, env, k)
  {
  }

  lemma StepCombRest(store: Store, argv: seq<Value>, n: Value, r: Value, env: nat, k: Cont, v: Value)
    ensures Step(State(ApplyK(CombRestK(argv, Pair(n, r), env, k), v), store))
              == Some(State(Bounce(n, env, OperandK(AppendArg(argv, v), r, env, k)), store))
  {
  }

  lemma StepCombApply(store: Store, argv: seq<Value>, env: nat, k: Cont, v: Value)
    ensures var all := argv + [v];
            Step(State(ApplyK(CombApplyK(argv, env, k), v), store)) == Apply(store, all[0], all[1..], k)
  {
    var all := argv + [v];
    if |argv| == 0 {
      assert all[1..] == [];
    } else {
      assert all[1..] == argv[1..] + [v];
    }
  }

  lemma StepIfK(store: Store, t: Value, alt: Value, env: nat, k: Cont, v: Value)
    ensures Step(State(ApplyK(IfK(t, alt, env, k), v), store))
              == Some(State(Bounce(if v != Bool(false) then t else alt, env, k), store))
  {
  }

  lemma StepIf(store: Store, e: Value, env: nat, k: Cont)
    requires e.Pair? && e.car == IfSym && Third(e).Some?
    ensures Step(State(Bounce(e, env, k), store))
              == Some(State(Bounce(Second(e).value, env, IfK(Third(e).value, FourthOrFalse(e), env, k)), store))
  {
  }

  lemma StepDefine(store: Store, e: Value, env: nat, k: Cont)
    requires e.Pair? && e.car == DefineSym && Third(e).Some?
    ensures Step(State(Bounce(e, env, k), store))
              == Some(State(Bounce(Third(e).value, env, DefineK(Second(e).value, env, k)), store))
  {
  }

  lemma StepSet(store: Store, e: Value, env: nat, k: Cont)
    requires e.Pair? && e.car == SetSym && Third(e).Some?
    ensures Step(State(Bounce(e, env, k), store))
              == Some(State(Bounce(Third(e).value, env, SetK(Second(e).value, env, k)), store))
  {
  }

  lemma StepDefineK(store: Store, x: string, env: nat, k: Cont, v: Value)
    ensures Step(State(ApplyK(DefineK(Sym(x), env, k), v), store))
              == (if env < |store| then Some(State(ApplyK(k, v), DefineIn(store, env, x, v).value)) else None)
  {
  }

  lemma StepSetK(store: Store, x: string, env: nat, k: Cont, v: Value)
    ensures Step(State(ApplyK(SetK(Sym(x), env, k), v), store))
              == (if Lookup(store, env, x).Some? then Some(State(ApplyK(k, v), Assign(store, env, x, v).value)) else None)
  {
  }

  lemma StepLambda(store: Store, e: Value, env: nat, k: Cont)
    requires e.Pair? && e.car == LambdaSym
    ensures Step(State(Bounce(e, env, k), store)) == EvalLambda(store, e, env, k)
  {
  }

  /** Data, symbols and quotations take one bounce: the value goes to `k`, the store is
      untouched, and an unbound symbol or a quotation without a datum is an error. */
  lemma SimpleStep(store: Store, env: nat, e: Value, k: Cont)
    requires SelfEvaluating(e) || e.Sym? || (e.Pair? && e.car == QuoteSym)
    ensures Step(State(Bounce(e, env, k), store)) ==
              (match SimpleValue(store, env, e)
               case None => None
               case Some(v) => Some(State(ApplyK(k, v), store)))
  {
  }

  // ---- evaluation of subforms ----

  /** `e` evaluates to `v` in `n` steps from `store`, leaving `store'`, whatever continuation
      waits for it: the continuation is only handed the value at the end. Every datum, symbol
      and quotation does so (`SimpleEvaluates`), and so do `begin` forms, primitive calls,
      `lambda`, `define` and `set!` whose own subforms do. */
  ghost predicate Evaluates(store: Store, env: nat, e: Value, v: Value, store': Store, n: nat) {
    forall k {:trigger Steps(State(Bounce(e, env, k), store), n)} ::
      Steps(State(Bounce(e, env, k), store), n) == Some(State(ApplyK(k, v), store'))
  }

  lemma UseEvaluates(store: Store, env: nat, e: Value, v: Value, store': Store, n: nat, k: Cont)
    requires Evaluates(store, env, e, v, store', n)
    ensures Steps(State(Bounce(e, env, k), store), n) == Some(State(ApplyK(k, v), store'))
  {
  }

  /** The forms `es` evaluate one after another, left to right: form `i` starts from the store
      `ss[i]` that form `i - 1` left behind, yields `vs[i]`, leaves `ss[i + 1]` and takes
      `ns[i]` steps. */
  ghost predicate EvaluateInOrder(env: nat, es: seq<Value>, vs: seq<Value>, ss: seq<Store>, ns: seq<nat>)
    decreases |es|
  {
    && |vs| == |es| && |ss| == |es| + 1 && |ns| == |es|
    && (|es| > 0 ==>
          && Evaluates(ss[0], env, es[0], vs[0], ss[1], ns[0])
          && EvaluateInOrder(env, es[1..], vs[1..], ss[1..], ns[1..]))
  }

  function TotalSteps(ns: seq<nat>): nat {
    if |ns| == 0 then 0 else ns[0] + TotalSteps(ns[1..])
  }

  function Copies<T>(x: T, n: nat): (r: seq<T>)
    ensures |r| == n && forall i :: 0 <= i < n ==> r[i] == x
  {
    seq(n, _ => x)
  }

  lemma EvaluateInOrderSplit(env: nat, es: seq<Value>, vs: seq<Value>, ss: seq<Store>, ns: seq<nat>)
    requires |es| >= 1 && EvaluateInOrder(env, es, vs, ss, ns)
    ensures Evaluates(ss[0], env, es[0], vs[0], ss[1], ns[0])
    ensures EvaluateInOrder(env, es[1..], vs[1..], ss[1..], ns[1..])
  {
  }

  /** Form `i` of forms that evaluate in order starts from `ss[i]` and leaves `ss[i + 1]`. */
  lemma {:induction false} EvaluateInOrderAt(env: nat, es: seq<Value>, vs: seq<Value>, ss: seq<Store>, ns: seq<nat>, i: nat)
    requires EvaluateInOrder(env, es, vs, ss, ns) && i < |es|
    ensures Evaluates(ss[i], env, es[i], vs[i], ss[i + 1], ns[i])
    decreases i
  {
    if i > 0 {
      EvaluateInOrderAt(env, es[1..], vs[1..], ss[1..], ns[1..], i - 1);
    }
  }

  /** Two forms, the second starting from the store the first left. */
  lemma TwoInOrder(env: nat, e0: Value, e1: Value, v0: Value, v1: Value, s0: Store, s1: Store, s2: Store, n0: nat, n1: nat)
    requires Evaluates(s0, env, e0, v0, s1, n0) && Evaluates(s1, env, e1, v1, s2, n1)
    ensures EvaluateInOrder(env, [e0, e1], [v0, v1], [s0, s1, s2], [n0, n1])
    ensures TotalSteps([n0, n1]) == n0 + n1
  {
    var ns: seq<nat> := [n0, n1];
    var tail: seq<nat> := [n1];
    var none: seq<nat> := [];
    assert ns[1..] == tail && tail[1..] == none;
    assert [e0, e1][1..] == [e1] && [e1][1..] == [];
    assert [v0, v1][1..] == [v1] && [v1][1..] == [];
    assert [s0, s1, s2][1..] == [s1, s2] && [s1, s2][1..] == [s2];
    assert EvaluateInOrder(env, [e1], [v1], [s1, s2], tail);
    assert TotalSteps(none) == 0;
    assert TotalSteps(tail) == n1 + TotalSteps(none);
    assert TotalSteps(ns) == n0 + TotalSteps(tail);
  }

  /** A datum, a symbol or a quotation evaluates in one step and leaves the store alone. */
  lemma SimpleEvaluates(store: Store, env: nat, e: Value)
    requires SimpleValue(store, env, e).Some?
    ensures Evaluates(store, env, e, SimpleValue(store, env, e).value, store, 1)
  {
    var v := SimpleValue(store, env, e).value;
    forall k ensures Steps(State(Bounce(e, env, k), store), 1) == Some(State(ApplyK(k, v), store)) {
      SimpleStep(store, env, e, k);
      Advance(State(Bounce(e, env, k), store), State(ApplyK(k, v), store), 1);
    }
  }

  lemma {:induction false} OnesTotal(n: nat)
    ensures TotalSteps(Copies<nat>(1, n)) == n
  {
    if n > 0 {
      var ns: seq<nat> := Copies<nat>(1, n);
      OnesTotal(n - 1);
      assert ns[1..] == Copies<nat>(1, n - 1);
      assert TotalSteps(ns) == 1 + TotalSteps(ns[1..]);
    }
  }

  /** Simple forms evaluate in order without touching the store, one step each. */
  lemma {:induction false} SimpleFormsInOrder(store: Store, env: nat, es: seq<Value>)
    requires AllSimple(store, env, es)
    ensures EvaluateInOrder(env, es, SimpleValues(store, env, es), Copies(store, |es| + 1), Copies<nat>(1, |es|))
    decreases |es|
  {
    if |es| > 0 {
      SimpleEvaluates(store, env, es[0]);
      SimpleValuesSplit(store, env, es);
      SimpleFormsInOrder(store, env, es[1..]);
      assert Copies(store, |es| + 1)[1..] == Copies(store, |es|);
      assert Copies<nat>(1, |es|)[1..] == Copies<nat>(1, |es| - 1);
    }
  }

  // ---- begin ----

  /** The forms of a `begin` run in order, each from the store the previous one left, and only
      the last one's value reaches `k`; between two forms one step drops the earlier value. */
  lemma {:induction false} BeginFormsYieldLast(env: nat, es: seq<Value>, vs: seq<Value>, ss: seq<Store>, ns: seq<nat>, k: Cont)
    requires |es| >= 1 && EvaluateInOrder(env, es, vs, ss, ns)
    ensures EvalBegin(ss[0], FromSeq(es), env, k).Some?
    ensures Steps(EvalBegin(ss[0], FromSeq(es), env, k).value, TotalSteps(ns) + |es| - 1)
              == Some(State(ApplyK(k, vs[|es| - 1]), ss[|es|]))
    decreases |es|
  {
    var rest := FromSeq(es[1..]);
    var k1 := if rest == EmptyList then k else BeginRestK(rest, env, k);
    var s1 := State(Bounce(es[0], env, k1), ss[0]);
    assert EvalBegin(ss[0], FromSeq(es), env, k) == Some(s1);
    EvaluateInOrderSplit(env, es, vs, ss, ns);
    UseEvaluates(ss[0], env, es[0], vs[0], ss[1], ns[0], k1);
    var s2 := State(ApplyK(k1, vs[0]), ss[1]);
    if |es| > 1 {
      var m := TotalSteps(ns[1..]) + |es| - 2;
      var s3 := EvalBegin(ss[1], rest, env, k).value;
      BeginFormsYieldLast(env, es[1..], vs[1..], ss[1..], ns[1..], k);
      assert Steps(s1, ns[0] + 1 + m) == Steps(s3, m) by {
        StepBeginRest(ss[1], rest, env, k, vs[0]);
        Trampoline.IterateVia(Step, s1, ns[0], s2, s3, m);
      }
      assert vs[1..][|es| - 2] == vs[|es| - 1];
      assert ss[1..][|es| - 1] == ss[|es|];
    }
  }

  /** `(begin e1 … en)` evaluates `e1` … `en` in order, threading the store through them, and
      evaluates to the value of `en`, in any context: one step to enter, the forms' own steps,
      and one step between each two forms. */
  lemma BeginYieldsLast(env: nat, es: seq<Value>, vs: seq<Value>, ss: seq<Store>, ns: seq<nat>)
    requires |es| >= 1 && EvaluateInOrder(env, es, vs, ss, ns)
    ensures Evaluates(ss[0], env, Cons(BeginSym, FromSeq(es)), vs[|es| - 1], ss[|es|], TotalSteps(ns) + |es|)
  {
    forall k ensures Steps(State(Bounce(Cons(BeginSym, FromSeq(es)), env, k), ss[0]), TotalSteps(ns) + |es|)
                       == Some(State(ApplyK(k, vs[|es| - 1]), ss[|es|]))
    {
      BeginRuns(env, es, vs, ss, ns, k);
    }
  }

  lemma BeginRuns(env: nat, es: seq<Value>, vs: seq<Value>, ss: seq<Store>, ns: seq<nat>, k: Cont)
    requires |es| >= 1 && EvaluateInOrder(env, es, vs, ss, ns)
    ensures Steps(State(Bounce(Cons(BeginSym, FromSeq(es)), env, k), ss[0]), TotalSteps(ns) + |es|)
              == Some(State(ApplyK(k, vs[|es| - 1]), ss[|es|]))
  {
    BeginFormsYieldLast(env, es, vs, ss, ns, k);
    BeginEnters(ss[0], FromSeq(es), env, k, TotalSteps(ns) + |es|, Some(State(ApplyK(k, vs[|es| - 1]), ss[|es|])));
  }

  lemma BeginEnters(store: Store, forms: Value, env: nat, k: Cont, n: nat, r: Option<State>)
    requires n >= 1 && EvalBegin(store, forms, env, k).Some?
    requires Steps(EvalBegin(store, forms, env, k).value, n - 1) == r
    ensures Steps(State(Bounce(Cons(BeginSym, forms), env, k), store), n) == r
  {
    assert Cons(BeginSym, forms) == Pair(BeginSym, forms);
    StepBegin(store, forms, env, k);
    Trampoline.IterateStep(Step, State(Bounce(Cons(BeginSym, forms), env, k), store), EvalBegin(store, forms, env, k).value, n);
  }

  // ---- combinations ----

  lemma SimpleValuesSplit(store: Store, env: nat, es: seq<Value>)
    requires |es| >= 1 && AllSimple(store, env, es)
    ensures AllSimple(store, env, es[1..])
    ensures SimpleValues(store, env, es) == [SimpleValue(store, env, es[0]).value] + SimpleValues(store, env, es[1..])
  {
    forall i | 0 <= i < |es[1..]| ensures SimpleValue(store, env, es[1..][i]).Some? {
      assert es[1..][i] == es[i + 1];
    }
  }

  /** Handing the last operand's value to `_makeCombApplyK` applies the operator. */
  lemma LastOperand(store: Store, argv: seq<Value>, env: nat, k: Cont, v: Value)
    ensures var all := argv + [v];
            Steps(State(ApplyK(CombApplyK(argv, env, k), v), store), 1) == Apply(store, all[0], all[1..], k)
  {
    var s := State(ApplyK(CombApplyK(argv, env, k), v), store);
    StepCombApply(store, argv, env, k, v);
    match Step(s)
    case None =>
    case Some(s') =>
      Advance(s, s', 1);
  }

  /** The operand loop of a combination: after the values collected so far, the remaining forms
      are evaluated left to right, each from the store the previous one left, and `_apply`
      gets all the values in that order, in the store the last one left. */
  lemma {:induction false} OperandsInOrder(env: nat, argv: seq<Value>, es: seq<Value>, vs: seq<Value>, ss: seq<Store>, ns: seq<nat>, k: Cont)
    requires |es| >= 1 && EvaluateInOrder(env, es, vs, ss, ns)
    ensures var all := argv + vs;
            Steps(State(Bounce(es[0], env, OperandK(argv, FromSeq(es[1..]), env, k)), ss[0]), TotalSteps(ns) + |es|)
              == Apply(ss[|es|], all[0], all[1..], k)
    decreases |es|
  {
    var rest := FromSeq(es[1..]);
    var k1 := OperandK(argv, rest, env, k);
    var s1 := State(Bounce(es[0], env, k1), ss[0]);
    var s2 := State(ApplyK(k1, vs[0]), ss[1]);
    EvaluateInOrderSplit(env, es, vs, ss, ns);
    assert Steps(s1, ns[0]) == Some(s2) by { UseEvaluates(ss[0], env, es[0], vs[0], ss[1], ns[0], k1); }
    assert TotalSteps(ns) == ns[0] + TotalSteps(ns[1..]);
    if |es| == 1 {
      assert TotalSteps(ns[1..]) == 0;
      assert Steps(s1, ns[0] + 1) == Steps(s2, 1) by {
        Trampoline.IterateAdd(Step, s1, ns[0], 1);
      }
      assert argv + vs == argv + [vs[0]];
      LastOperand(ss[1], argv, env, k, vs[0]);
    } else {
      var m := TotalSteps(ns[1..]) + |es| - 1;
      var a := AppendArg(argv, vs[0]);
      assert es[1..][0] == es[1] && es[1..][1..] == es[2..];
      var s3 := State(Bounce(es[1], env, OperandK(a, FromSeq(es[2..]), env, k)), ss[1]);
      assert Steps(s1, ns[0] + 1 + m) == Steps(s3, m) by {
        assert rest == Pair(es[1], FromSeq(es[2..]));
        StepCombRest(ss[1], argv, es[1], FromSeq(es[2..]), env, k, vs[0]);
        Trampoline.IterateVia(Step, s1, ns[0], s2, s3, m);
      }
      OperandsInOrder(env, a, es[1..], vs[1..], ss[1..], ns[1..], k);
      assert a + vs[1..] == argv + vs;
      assert ss[1..][|es| - 1] == ss[|es|];
    }
  }

  /** A combination evaluates its operator first and then its operands strictly left to right,
      each from the store the previous one left; `_apply` receives the operator's value and the
      operands' values in source order, the store the last operand left, and the
      combination's own continuation. */
  lemma CombinationInSourceOrder(env: nat, es: seq<Value>, vs: seq<Value>, ss: seq<Store>, ns: seq<nat>, k: Cont)
    requires |es| >= 1 && !IsKeyword(es[0]) && EvaluateInOrder(env, es, vs, ss, ns)
    ensures Steps(State(Bounce(FromSeq(es), env, k), ss[0]), TotalSteps(ns) + |es| + 1) == Apply(ss[|es|], vs[0], vs[1..], k)
  {
    var s0 := State(Bounce(FromSeq(es), env, k), ss[0]);
    StepCombination(ss[0], es[0], FromSeq(es[1..]), env, k);
    var s1 := EvalCombination(ss[0], es[0], FromSeq(es[1..]), env, k);
    Advance(s0, s1, TotalSteps(ns) + |es| + 1);
    OperandsInOrder(env, [], es, vs, ss, ns, k);
    assert [] + vs == vs;
  }

  lemma CombinationInOneStore(store: Store, env: nat, es: seq<Value>, vs: seq<Value>, ss: seq<Store>, ns: seq<nat>, k: Cont)
    requires |es| >= 1 && !IsKeyword(es[0]) && EvaluateInOrder(env, es, vs, ss, ns)
    requires ss[0] == store && ss[|es|] == store && TotalSteps(ns) == |es|
    ensures Steps(State(Bounce(FromSeq(es), env, k), store), 2 * |es| + 1) == Apply(store, vs[0], vs[1..], k)
  {
    CombinationInSourceOrder(env, es, vs, ss, ns, k);
  }

  /** The same for a combination of data, symbols and quotations: two steps per element, and
      the store stays as it was until the operator is applied. */
  lemma SimpleCombination(store: Store, env: nat, es: seq<Value>, k: Cont)
    requires |es| >= 1 && AllSimple(store, env, es) && !IsKeyword(es[0])
    ensures var vs := SimpleValues(store, env, es);
            Steps(State(Bounce(FromSeq(es), env, k), store), 2 * |es| + 1) == Apply(store, vs[0], vs[1..], k)
  {
    SimpleFormsInOrder(store, env, es);
    OnesTotal(|es|);
    CombinationInOneStore(store, env, es, SimpleValues(store, env, es), Copies(store, |es| + 1), Copies<nat>(1, |es|), k);
  }

  /** A call of a primitive evaluates to the primitive's result in any context, so calls nest:
      the value of an inner call is an operand of the outer one. */
  lemma PrimitiveCallEvaluates(env: nat, es: seq<Value>, vs: seq<Value>, ss: seq<Store>, ns: seq<nat>, op: PrimOp, r: Value)
    requires |es| >= 1 && !IsKeyword(es[0]) && EvaluateInOrder(env, es, vs, ss, ns)
    requires vs[0] == Prim(op) && ApplyPrim(op, vs[1..]) == Some(r)
    ensures Evaluates(ss[0], env, FromSeq(es), r, ss[|es|], TotalSteps(ns) + |es| + 1)
  {
    forall k ensures Steps(State(Bounce(FromSeq(es), env, k), ss[0]), TotalSteps(ns) + |es| + 1)
                       == Some(State(ApplyK(k, r), ss[|es|]))
    {
      CombinationInSourceOrder(env, es, vs, ss, ns, k);
    }
  }
  /** The parts of `(if c t . rest)` as `_evalTramp` reads them. */
  lemma IfFormParts(c: Value, t: Value, rest: seq<Value>)
    ensures var e := FromSeq([IfSym, c, t] + rest);
            && e.Pair? && e.car == IfSym && Second(e) == Some(c) && Third(e) == Some(t)
            && FourthOrFalse(e) == if |rest| >= 1 then rest[0] else Bool(false)
  {
    var e := FromSeq([IfSym, c, t] + rest);
    assert Spine(e) == [IfSym, c, t] + rest;
  }

  /** `if` evaluates its condition, in any way it takes, and then exactly one branch with its
      own continuation, in the store the condition left: the then-branch unless the condition's
      value is `#f`, and the else-branch (`#f` when it is missing) otherwise. */
  lemma IfChoosesBranch(store: Store, env: nat, c: Value, t: Value, rest: seq<Value>, k: Cont,
                        cv: Value, store1: Store, n: nat)
    requires Evaluates(store, env, c, cv, store1, n)
    ensures var alt := if |rest| >= 1 then rest[0] else Bool(false);
            Steps(State(Bounce(FromSeq([IfSym, c, t] + rest), env, k), store), n + 2)
              == Some(State(Bounce(if cv != Bool(false) then t else alt, env, k), store1))
  {
    var e := FromSeq([IfSym, c, t] + rest);
    var alt := if |rest| >= 1 then rest[0] else Bool(false);
    var kIf := IfK(t, alt, env, k);
    var s0 := State(Bounce(e, env, k), store);
    var s1 := State(Bounce(c, env, kIf), store);
    var s2 := State(ApplyK(kIf, cv), store1);
    var s3 := State(Bounce(if cv != Bool(false) then t else alt, env, k), store1);
    assert Step(s0) == Some(s1) by {
      IfFormParts(c, t, rest);
      StepIf(store, e, env, k);
    }
    assert Step(s2) == Some(s3) by { StepIfK(store1, t, alt, env, k, cv); }
    UseEvaluates(store, env, c, cv, store1, n, kIf);
    Trampoline.IterateThrough(Step, s0, s1, s2, s3, n);
  }

  /** The parts of `(lambda ps . forms)` as `_evalLambda` reads them. */
  lemma LambdaFormParts(ps: Value, forms: seq<Value>)
    ensures var e := FromSeq([LambdaSym, ps] + forms);
            && e.Pair? && e.car == LambdaSym && Second(e) == Some(ps)
            && e.cdr.Pair? && e.cdr.cdr == FromSeq(forms)
  {
    var e := FromSeq([LambdaSym, ps] + forms);
    assert ([LambdaSym, ps] + forms)[1..] == [ps] + forms;
    assert ([ps] + forms)[1..] == forms;
  }

  /** `_evalLambda` on a pair whose tail is `(ps . fs)`. */
  lemma EvalLambdaOn(store: Store, e: Value, ps: Value, fs: Value, env: nat, k: Cont)
    requires e.Pair? && e.cdr == Pair(ps, fs)
    ensures var r := EvalLambda(store, e, env, k);
            && (r.Some? <==> IsProperList(ps) && (Length(fs) == Some(1) ==> fs.Pair?))
            && (r.Some? ==> r.value == State(ApplyK(k, Lambda(Spine(ps), if Length(fs) == Some(1) then fs.car else Cons(BeginSym, fs), env)), store))
  {
    assert Spine(e)[1] == ps;
  }

  /** `_evalLambda` on `(lambda ps . forms)`. */
  lemma EvalLambdaOfForm(store: Store, env: nat, ps: Value, forms: seq<Value>, k: Cont)
    ensures var r := EvalLambda(store, FromSeq([LambdaSym, ps] + forms), env, k);
            && (r.Some? <==> IsProperList(ps))
            && (r.Some? ==> r.value == State(ApplyK(k, Lambda(Spine(ps), if |forms| == 1 then forms[0] else Cons(BeginSym, FromSeq(forms)), env)), store))
  {
    var e := FromSeq([LambdaSym, ps] + forms);
    var fs := FromSeq(forms);
    assert e.Pair? && e.cdr == Pair(ps, fs) by { LambdaFormParts(ps, forms); }
    assert Length(fs) == Some(|forms|) by {
      ListToVectorOfFromSeq(forms);
      LengthCounts(fs);
    }
    EvalLambdaOn(store, e, ps, fs, env, k);
  }

  /** A `lambda` expression closes over the current environment at once: its parameters are the
      elements of the parameter list, and its body is the single body form or, for any other
      number of forms, the forms wrapped in `begin`. An improper parameter list is an error. */
  lemma LambdaMakesClosure(store: Store, env: nat, ps: Value, forms: seq<Value>, k: Cont)
    ensures var r := Step(State(Bounce(FromSeq([LambdaSym, ps] + forms), env, k), store));
            && (r.Some? <==> IsProperList(ps))
            && (r.Some? ==> r.value == State(ApplyK(k, Lambda(Spine(ps), if |forms| == 1 then forms[0] else Cons(BeginSym, FromSeq(forms)), env)), store))
  {
    LambdaFormParts(ps, forms);
    StepLambda(store, FromSeq([LambdaSym, ps] + forms), env, k);
    EvalLambdaOfForm(store, env, ps, forms, k);
  }

  /** A `lambda` expression with a proper parameter list evaluates in one step to its closure. */
  lemma LambdaEvaluates(store: Store, env: nat, ps: Value, forms: seq<Value>)
    requires IsProperList(ps)
    ensures Evaluates(store, env, FromSeq([LambdaSym, ps] + forms),
                      Lambda(Spine(ps), if |forms| == 1 then forms[0] else Cons(BeginSym, FromSeq(forms)), env), store, 1)
  {
    var clo := Lambda(Spine(ps), if |forms| == 1 then forms[0] else Cons(BeginSym, FromSeq(forms)), env);
    forall k ensures Steps(State(Bounce(FromSeq([LambdaSym, ps] + forms), env, k), store), 1) == Some(State(ApplyK(k, clo), store)) {
      LambdaMakesClosure(store, env, ps, forms, k);
      Advance(State(Bounce(FromSeq([LambdaSym, ps] + forms), env, k), store), State(ApplyK(k, clo), store), 1);
    }
  }

  /** `(define x e)` evaluates `e`, in any way it takes, then binds `x` to its value in the
      current frame and no other, and hands the value on; the frame must exist. */
  lemma DefineBindsInCurrentFrame(store: Store, env: nat, x: string, form: Value, k: Cont,
                                  v: Value, store1: Store, n: nat)
    requires Evaluates(store, env, form, v, store1, n)
    ensures var r := Steps(State(Bounce(FromSeq([DefineSym, Sym(x), form]), env, k), store), n + 2);
            && (r.Some? <==> env < |store1|)
            && (r.Some? ==>
                  && r.value.b == ApplyK(k, v)
                  && Lookup(r.value.store, env, x) == Some(v)
                  && r.value.store == DefineIn(store1, env, x, v).value
                  && |r.value.store| == |store1|
                  && r.value.store[env].bindings == store1[env].bindings[x := v]
                  && forall i :: 0 <= i < |store1| && i != env ==> r.value.store[i] == store1[i])
  {
    var e := FromSeq([DefineSym, Sym(x), form]);
    assert Spine(e) == [DefineSym, Sym(x), form];
    assert Second(e) == Some(Sym(x)) && Third(e) == Some(form);
    var kd := DefineK(Sym(x), env, k);
    var s0 := State(Bounce(e, env, k), store);
    var s1 := State(Bounce(form, env, kd), store);
    var s2 := State(ApplyK(kd, v), store1);
    assert Steps(s0, n + 2) == Step(s2) by {
      StepDefine(store, e, env, k);
      UseEvaluates(store, env, form, v, store1, n, kd);
      Trampoline.IterateAround(Step, s0, s1, n, s2);
    }
    StepDefineK(store1, x, env, k, v);
  }

  /** `(set! x e)` evaluates `e`, in any way it takes, and then changes only the innermost
      binding of `x` visible in the store `e` left: every other frame, the frames it shadows
      included, is unchanged; `x` then reads as the new value; an unbound `x` is an error. */
  lemma SetChangesInnermostBinding(store: Store, env: nat, x: string, form: Value, k: Cont,
                                   v: Value, store1: Store, n: nat)
    requires Evaluates(store, env, form, v, store1, n)
    ensures var r := Steps(State(Bounce(FromSeq([SetSym, Sym(x), form]), env, k), store), n + 2);
            && (r.Some? <==> Lookup(store1, env, x).Some?)
            && (r.Some? ==>
                  && r.value.b == ApplyK(k, v)
                  && Lookup(r.value.store, env, x) == Some(v)
                  && |r.value.store| == |store1|
                  && r.value.store[FindFrame(store1, env, x).value].bindings
                       == store1[FindFrame(store1, env, x).value].bindings[x := v]
                  && r.value.store == Assign(store1, env, x, v).value
                  && forall i :: 0 <= i < |store1| && i != FindFrame(store1, env, x).value ==> r.value.store[i] == store1[i])
  {
    var e := FromSeq([SetSym, Sym(x), form]);
    assert Spine(e) == [SetSym, Sym(x), form];
    assert Second(e) == Some(Sym(x)) && Third(e) == Some(form);
    var ks := SetK(Sym(x), env, k);
    var s0 := State(Bounce(e, env, k), store);
    var s1 := State(Bounce(form, env, ks), store);
    var s2 := State(ApplyK(ks, v), store1);
    assert Steps(s0, n + 2) == Step(s2) by {
      StepSet(store, e, env, k);
      UseEvaluates(store, env, form, v, store1, n, ks);
      Trampoline.IterateAround(Step, s0, s1, n, s2);
    }
    StepSetK(store1, x, env, k, v);
    if Lookup(store1, env, x).Some? {
      AssignIsVisible(store1, env, x, v, x);
    }
  }

  /** `define` and `set!` are themselves expressions whose value is the assigned value, so they
      nest wherever an expression may stand. */
  lemma SetEvaluates(store: Store, env: nat, x: string, form: Value, v: Value, store1: Store, n: nat)
    requires Evaluates(store, env, form, v, store1, n) && Lookup(store1, env, x).Some?
    ensures Evaluates(store, env, FromSeq([SetSym, Sym(x), form]), v, Assign(store1, env, x, v).value, n + 2)
  {
    forall k ensures Steps(State(Bounce(FromSeq([SetSym, Sym(x), form]), env, k), store), n + 2)
                       == Some(State(ApplyK(k, v), Assign(store1, env, x, v).value))
    {
      SetChangesInnermostBinding(store, env, x, form, k, v, store1, n);
    }
  }

  lemma DefineEvaluates(store: Store, env: nat, x: string, form: Value, v: Value, store1: Store, n: nat)
    requires Evaluates(store, env, form, v, store1, n) && env < |store1|
    ensures Evaluates(store, env, FromSeq([DefineSym, Sym(x), form]), v, DefineIn(store1, env, x, v).value, n + 2)
  {
    forall k ensures Steps(State(Bounce(FromSeq([DefineSym, Sym(x), form]), env, k), store), n + 2)
                       == Some(State(ApplyK(k, v), DefineIn(store1, env, x, v).value))
    {
      DefineBindsInCurrentFrame(store, env, x, form, k, v, store1, n);
    }
  }

  // ---- application ----

  /** A lambda's body runs in a fresh frame whose parent is the closure's environment, not the
      caller's, with the caller's continuation: parameters read as their arguments, every other
      name as it reads where the lambda was made, and no existing frame changes. */
  lemma LambdaApplication(store: Store, params: seq<Value>, body: Value, cenv: nat, args: seq<Value>, k: Cont, x: string)
    ensures var r := Apply(store, Lambda(params, body, cenv), args, k);
            r.Some? <==> |args| <= |params| && Named(params) && cenv < |store|
    ensures var r := Apply(store, Lambda(params, body, cenv), args, k);
            r.Some? ==>
              && r.value.b == Bounce(body, |store|, k)
              && r.value.store[..|store|] == store
              && r.value.store[|store|].parent == Some(cenv)
              && (forall j :: 0 <= j < |params| && LastWithName(params, j, |params|) && NameKey(params[j]) == Some(x) ==>
                    Lookup(r.value.store, |store|, x) == Some(ArgAt(args, j)))
              && ((forall j :: 0 <= j < |params| ==> NameKey(params[j]) != Some(x)) ==>
                    Lookup(r.value.store, |store|, x) == Lookup(store, cenv, x))
  {
    if ExtendEnv(store, params, args, cenv).Some? {
      ExtendEnvLookup(store, params, args, cenv, x);
    }
  }

  /** A primitive's result goes to the caller's continuation and the store is untouched; the
      application fails exactly when the primitive does. */
  lemma PrimitiveResultToK(store: Store, op: PrimOp, args: seq<Value>, k: Cont)
    ensures Apply(store, Prim(op), args, k).Some? <==> ApplyPrim(op, args).Some?
    ensures Apply(store, Prim(op), args, k).Some? ==>
              Apply(store, Prim(op), args, k).value == State(ApplyK(k, ApplyPrim(op, args).value), store)
  {
  }

  /** Only procedures can be applied. */
  lemma NonProcedureIsError(store: Store, p: Value, args: seq<Value>, k: Cont)
    requires !IsProcedure(p)
    ensures Apply(store, p, args, k).None?
  {
  }

  /** `primitive-cwcc` insists on exactly one argument, and that argument a procedure. */
  lemma CwccNeedsOneProcedure(store: Store, args: seq<Value>, k: Cont)
    ensures Apply(store, Cwcc, args, k).Some? ==> |args| == 1 && IsProcedure(args[0])
  {
  }

  /** `primitive-cwcc` applies its argument, whatever procedure it is, to the current
      continuation reified as a value, with that same continuation as the caller's: a lambda
      gets a frame binding its parameter to the continuation, a primitive gets it as its one
      argument, a captured continuation receives it, and `primitive-cwcc` itself hands the
      continuation to itself. */
  lemma CwccReifiesContinuation(store: Store, p: Value, k: Cont)
    requires IsProcedure(p)
    ensures Apply(store, Cwcc, [p], k) == Apply(store, p, [ContV(k)], k)
    ensures p.Prim? ==> (Apply(store, Cwcc, [p], k).Some? <==> ApplyPrim(p.op, [ContV(k)]).Some?)
    ensures p.ContV? ==> Apply(store, Cwcc, [p], k) == Some(State(ApplyK(p.k, ContV(k)), store))
    ensures p.Cwcc? ==> Apply(store, Cwcc, [p], k) == Some(State(ApplyK(k, ContV(k)), store))
  {
    if p.Cwcc? {
      ContinuationIgnoresCaller(store, k, [ContV(k)], k, k);
    }
  }

  /** Invoking a captured continuation ignores the caller's continuation: from any caller, with
      any store, it resumes the captured one with the first argument (`undefined` if none),
      so it can be resumed any number of times. */
  lemma ContinuationIgnoresCaller(store: Store, kc: Cont, args: seq<Value>, k1: Cont, k2: Cont)
    ensures Apply(store, ContV(kc), args, k1) == Apply(store, ContV(kc), args, k2)
    ensures Apply(store, ContV(kc), args, k1) == Some(State(ApplyK(kc, ArgAt(args, 0)), store))
  {
  }

  // ---- whole evaluations ----

  /** A landed state does not step, as the trampoline requires. */
  lemma LandedDoesNotStep()
    ensures forall c :: LandedValue(c).Some? ==> Step(c).None?
  {
  }

  /** An evaluation whose machine lands after `n + 1` steps, the first of them done by `_eval`
      itself, lands with that value under any budget that allows the other `n`. */
  lemma EvalLands(store: Store, e: Value, env: nat, n: nat, last: State, ticks: int, fuel: nat)
    requires Steps(State(Bounce(e, env, Land), store), n + 1) == Some(last) && last.b.Landed?
    requires ticks < 0 || ticks >= n
    requires fuel >= n
    ensures Eval(store, e, env, ticks, fuel) == Trampoline.Landed(last.b.v, last)
  {
    var s0 := State(Bounce(e, env, Land), store);
    var s1 := Step(s0).value;
    Advance(s0, s1, n + 1);
    LandedDoesNotStep();
    Trampoline.RunAfterIterate(LandedValue, Step, s1, n, last, ticks, fuel);
  }

  /** An evaluation whose machine reaches, after `n + 1` steps, a bouncer that throws, throws
      there under any budget that allows the other `n` and that bounce: the outcome keeps that
      state, and with it every `define` and `set!` made before the throw. */
  lemma EvalThrows(store: Store, e: Value, env: nat, n: nat, last: State, ticks: int, fuel: nat)
    requires Steps(State(Bounce(e, env, Land), store), n + 1) == Some(last)
    requires !last.b.Landed? && Step(last).None?
    requires ticks < 0 || ticks > n
    requires fuel > n
    ensures Eval(store, e, env, ticks, fuel) == Trampoline.Thrown(last)
  {
    var s0 := State(Bounce(e, env, Land), store);
    var s1 := Step(s0).value;
    Advance(s0, s1, n + 1);
    LandedDoesNotStep();
    Trampoline.ThrowsWhenBounceFails(LandedValue, Step, s1, n, last, ticks, fuel);
  }

  /** An expression that evaluates to `v` lands on `v`, in the store it leaves, under any
      budget that affords its steps. */
  lemma EvaluatesLands(store: Store, e: Value, env: nat, v: Value, store': Store, n: nat, ticks: int, fuel: nat)
    requires Evaluates(store, env, e, v, store', n)
    requires ticks < 0 || ticks >= n
    requires fuel >= n
    ensures Eval(store, e, env, ticks, fuel) == Trampoline.Landed(v, State(Landed(v), store'))
  {
    var s0 := State(Bounce(e, env, Land), store);
    var sn := State(ApplyK(Land, v), store');
    var last := State(Landed(v), store');
    UseEvaluates(store, env, e, v, store', n, Land);
    assert Step(sn) == Some(last);
    Trampoline.IterateThen(Step, s0, n, sn, last);
    EvalLands(store, e, env, n, last, ticks, fuel);
  }
}
