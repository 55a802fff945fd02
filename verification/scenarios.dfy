/** Whole evaluations from the interpreter's own examples: a continuation captured by
    `primitive-cwcc` and stored with `set!` is resumed again and again, each time returning
    through the top-level evaluation that captured it. */
module Scenarios {
  import opened Wrappers
  import opened Values
  import opened Lists
  import opened Primitives
  import opened Environment
  import opened Evaluator
  import opened Semantics
  import Trampoline

  /** The continuation of the second operand of `(+ 5 _)` at top level. */
  const Plus5K: Cont := CombApplyK([Prim(Plus), Num(5)], TopLevel, Land)

  /** The top-level frame after `(define plus5 v)`. */
  function TopLevelWith(name: string, v: Value): (s: Store)
    ensures |s| == 1 && Lookup(s, TopLevel, name) == Some(v)
  {
    [Frame(Builtins()[name := v], None)]
  }

  /** The budget options under which a run needing `n` bounces is never suspended. */
  predicate BudgetAllows(ticks: Option<int>, n: nat) {
    ticks.None? || ticks.value <= 0 || ticks.value >= n
  }

  /** Resuming the captured continuation with `n` adds 5 and returns `5 + n` to the top level. */
  lemma Plus5KResumes(store: Store, n: int)
    ensures Steps(State(ApplyK(Plus5K, Num(n)), store), 2) == Some(State(Landed(Num(5 + n)), store))
  {
    var s5 := State(ApplyK(Plus5K, Num(n)), store);
    StepCombApply(store, [Prim(Plus), Num(5)], TopLevel, Land, Num(n));
    assert [Prim(Plus), Num(5)] + [Num(n)] == [Prim(Plus), Num(5), Num(n)];
    assert Nums([Num(5), Num(n)]) == [5, n];
    assert [5, n][..1] == [5] && [5][..0] == [];
    assert Sum([5, n]) == 5 + n;
    var s6 := State(ApplyK(Land, Num(5 + n)), store);
    PrimitiveResultToK(store, Plus, [Num(5), Num(n)], Land);
    assert Step(s5) == Some(s6);
    var s7 := State(Landed(Num(5 + n)), store);
    assert Step(s6) == Some(s7);
    Advance(s5, s6, 2);
    Advance(s6, s7, 1);
  }

  /** Calling the stored continuation hands it the argument, whoever the caller is. */
  lemma Plus5Call(store: Store, n: int)
    requires Lookup(store, TopLevel, "plus5") == Some(ContV(Plus5K))
    ensures Steps(State(Bounce(FromSeq([Sym("plus5"), Num(n)]), TopLevel, Land), store), 5)
              == Some(State(ApplyK(Plus5K, Num(n)), store))
  {
    var es := [Sym("plus5"), Num(n)];
    assert SimpleValue(store, TopLevel, es[0]) == Some(ContV(Plus5K));
    assert SimpleValue(store, TopLevel, es[1]) == Some(Num(n));
    assert AllSimple(store, TopLevel, es);
    assert !IsKeyword(es[0]);
    SimpleCombination(store, TopLevel, es, Land);
    assert SimpleValues(store, TopLevel, es) == [ContV(Plus5K), Num(n)];
    ContinuationIgnoresCaller(store, Plus5K, [Num(n)], Land, Land);
  }

  /** `(plus5 n)` with `plus5` bound to that continuation: whatever `n`, the captured addition
      is redone with `n` and its result returned, as often as it is invoked. */
  lemma Plus5AddsFive(store: Store, n: int, ticks: Option<int>, fuel: nat)
    requires Lookup(store, TopLevel, "plus5") == Some(ContV(Plus5K))
    requires BudgetAllows(ticks, 6) && fuel >= 6
    ensures var r := SchemeEval(store, FromSeq([Sym("plus5"), Num(n)]), None, ticks, fuel);
            r.Landed? && r.value == Num(5 + n) && r.last.store == store
  {
    var e := FromSeq([Sym("plus5"), Num(n)]);
    var s0 := State(Bounce(e, TopLevel, Land), store);
    Plus5Call(store, n);
    Plus5KResumes(store, n);
    Trampoline.IterateAdd(Step, s0, 5, 2);
    var s7 := State(Landed(Num(5 + n)), store);
    var t := if ticks.None? || ticks == Some(0) then -1 else ticks.value;
    EvalLands(store, e, TopLevel, 6, s7, t, fuel);
  }

  // ---- capturing the continuation ----

  /** `(set! plus5 k)` */
  const SetPlus5: Value := FromSeq([SetSym, Sym("plus5"), Sym("k")])

  /** `(+ 5 (primitive-cwcc (lambda (k) (set! plus5 k) 32)))` */
  function CaptureExpr(): Value {
    FromSeq([Sym("+"), Num(5), FromSeq([Sym("primitive-cwcc"), FromSeq([LambdaSym, FromSeq([Sym("k")])] + [SetPlus5, Num(32)])])])
  }

  /** `+` and `5` are evaluated, and the capturing call runs with the continuation that
      adds 5. */
  lemma CaptureOperands(store: Store, call: Value)
    requires Lookup(store, TopLevel, "+") == Some(Prim(Plus))
    ensures Steps(State(Bounce(FromSeq([Sym("+"), Num(5), call]), TopLevel, Land), store), 5)
              == Some(State(Bounce(call, TopLevel, Plus5K), store))
  {
    var rest1 := FromSeq([Num(5), call]);
    var rest2 := FromSeq([call]);
    assert [Sym("+"), Num(5), call][1..] == [Num(5), call];
    assert [Num(5), call][1..] == [call];
    assert rest1 == Pair(Num(5), rest2);
    assert rest2 == Pair(call, EmptyList);
    var e := FromSeq([Sym("+"), Num(5), call]);
    assert e == Pair(Sym("+"), rest1);
    var s0 := State(Bounce(e, TopLevel, Land), store);
    var k1 := CombRestK([], rest1, TopLevel, Land);
    var s1 := State(Bounce(Sym("+"), TopLevel, k1), store);
    var s2 := State(ApplyK(k1, Prim(Plus)), store);
    var k3 := CombRestK([Prim(Plus)], rest2, TopLevel, Land);
    var s3 := State(Bounce(Num(5), TopLevel, k3), store);
    var s4 := State(ApplyK(k3, Num(5)), store);
    var s5 := State(Bounce(call, TopLevel, Plus5K), store);
    assert Step(s0) == Some(s1) by { StepCombination(store, Sym("+"), rest1, TopLevel, Land); }
    assert Step(s1) == Some(s2) by { SimpleStep(store, TopLevel, Sym("+"), k1); }
    assert Steps(s0, 2) == Some(s2) by { Trampoline.IterateThrough(Step, s0, s1, s1, s2, 0); }
    assert Step(s2) == Some(s3) by { StepCombRest(store, [], Num(5), rest2, TopLevel, Land, Prim(Plus)); }
    assert Steps(s0, 3) == Some(s3) by { Trampoline.IterateThen(Step, s0, 2, s2, s3); }
    assert Step(s3) == Some(s4) by { SimpleStep(store, TopLevel, Num(5), k3); }
    assert Steps(s0, 4) == Some(s4) by { Trampoline.IterateThen(Step, s0, 3, s3, s4); }
    assert Step(s4) == Some(s5) by {
      StepCombRest(store, [Prim(Plus)], call, EmptyList, TopLevel, Land, Num(5));
      assert AppendArg([Prim(Plus)], Num(5)) == [Prim(Plus), Num(5)];
    }
    Trampoline.IterateThen(Step, s0, 4, s4, s5);
  }

  /** The body a lambda with body forms `forms` runs. */
  function BodyOf(forms: seq<Value>): Value {
    if |forms| == 1 then forms[0] else Cons(BeginSym, FromSeq(forms))
  }

  /** Calling the receiver binds `k` in a fresh frame below the top level. */
  lemma ReceiverEntered(store: Store, forms: seq<Value>, v: Value, k: Cont)
    requires TopLevel < |store|
    ensures Apply(store, Lambda([Sym("k")], BodyOf(forms), TopLevel), [v], k)
              == Some(State(Bounce(BodyOf(forms), |store|, k), store + [Frame(map["k" := v], Some(TopLevel))]))
  {
    assert BindPrefix([Sym("k")], [v], 1) == Some(map["k" := v]);
  }

  /** `(primitive-cwcc (lambda (k) . forms))` hands the receiver the continuation, in a fresh
      frame below the top level that binds `k` to it. */
  lemma CaptureCwcc(store: Store, forms: seq<Value>)
    requires Lookup(store, TopLevel, "primitive-cwcc") == Some(Cwcc)
    ensures var receiver := FromSeq([LambdaSym, FromSeq([Sym("k")])] + forms);
            Steps(State(Bounce(FromSeq([Sym("primitive-cwcc"), receiver]), TopLevel, Plus5K), store), 5)
              == Some(State(Bounce(BodyOf(forms), |store|, Plus5K), store + [Frame(map["k" := ContV(Plus5K)], Some(TopLevel))]))
  {
    assert TopLevel < |store|;
    var ps := FromSeq([Sym("k")]);
    var receiver := FromSeq([LambdaSym, ps] + forms);
    var rest := FromSeq([receiver]);
    var call := FromSeq([Sym("primitive-cwcc"), receiver]);
    assert [Sym("primitive-cwcc"), receiver][1..] == [receiver];
    assert call == Pair(Sym("primitive-cwcc"), rest);
    assert rest == Pair(receiver, EmptyList);
    var s5 := State(Bounce(call, TopLevel, Plus5K), store);
    var k6 := CombRestK([], rest, TopLevel, Plus5K);
    var s6 := State(Bounce(Sym("primitive-cwcc"), TopLevel, k6), store);
    var s7 := State(ApplyK(k6, Cwcc), store);
    var k8 := CombApplyK([Cwcc], TopLevel, Plus5K);
    var s8 := State(Bounce(receiver, TopLevel, k8), store);
    var lam := Lambda([Sym("k")], BodyOf(forms), TopLevel);
    var s9 := State(ApplyK(k8, lam), store);
    var s10 := State(Bounce(BodyOf(forms), |store|, Plus5K), store + [Frame(map["k" := ContV(Plus5K)], Some(TopLevel))]);
    assert Step(s5) == Some(s6) by {
      StepCombination(store, Sym("primitive-cwcc"), rest, TopLevel, Plus5K);
    }
    assert Step(s6) == Some(s7) by {
      SimpleStep(store, TopLevel, Sym("primitive-cwcc"), k6);
    }
    assert Steps(s5, 2) == Some(s7) by {
      Trampoline.IterateThrough(Step, s5, s6, s6, s7, 0);
    }
    assert Step(s7) == Some(s8) by {
      StepCombRest(store, [], receiver, EmptyList, TopLevel, Plus5K, Cwcc);
      assert AppendArg([], Cwcc) == [Cwcc];
    }
    assert Steps(s5, 3) == Some(s8) by {
      Trampoline.IterateThen(Step, s5, 2, s7, s8);
    }
    assert Step(s8) == Some(s9) by {
      assert Spine(ps) == [Sym("k")];
      LambdaMakesClosure(store, TopLevel, ps, forms, k8);
    }
    assert Steps(s5, 4) == Some(s9) by {
      Trampoline.IterateThen(Step, s5, 3, s8, s9);
    }
    assert Step(s9) == Some(s10) by {
      StepCombApply(store, [Cwcc], TopLevel, Plus5K, lam);
      assert ([Cwcc] + [lam])[0] == Cwcc && ([Cwcc] + [lam])[1..] == [lam];
      CwccReifiesContinuation(store, lam, Plus5K);
      ReceiverEntered(store, forms, ContV(Plus5K), Plus5K);
    }
    Trampoline.IterateThen(Step, s5, 4, s9, s10);
  }

  /** `(set! plus5 k)` takes three steps and hands the continuation on. */
  lemma SetPlus5Runs(store: Store, f: nat, kb: Cont)
    requires Lookup(store, f, "k") == Some(ContV(Plus5K)) && Lookup(store, f, "plus5").Some?
    ensures Steps(State(Bounce(SetPlus5, f, kb), store), 3)
              == Some(State(ApplyK(kb, ContV(Plus5K)), Assign(store, f, "plus5", ContV(Plus5K)).value))
  {
    assert SimpleValue(store, f, Sym("k")) == Some(ContV(Plus5K));
    SimpleEvaluates(store, f, Sym("k"));
    SetChangesInnermostBinding(store, f, "plus5", Sym("k"), kb, ContV(Plus5K), store, 1);
    var r := Steps(State(Bounce(SetPlus5, f, kb), store), 3);
    assert r.Some? && r.value.b == ApplyK(kb, ContV(Plus5K));
    assert r.value.store == Assign(store, f, "plus5", ContV(Plus5K)).value;
  }

  /** The receiver's body stores the continuation in the top-level `plus5` and returns 32 to
      it. */
  lemma CaptureBody(store: Store, f: nat)
    requires Lookup(store, f, "k") == Some(ContV(Plus5K)) && Lookup(store, f, "plus5").Some?
    ensures Steps(State(Bounce(BodyOf([SetPlus5, Num(32)]), f, Plus5K), store), 6)
              == Some(State(ApplyK(Plus5K, Num(32)), Assign(store, f, "plus5", ContV(Plus5K)).value))
  {
    var forms := FromSeq([SetPlus5, Num(32)]);
    var rest := FromSeq([Num(32)]);
    assert [SetPlus5, Num(32)][1..] == [Num(32)];
    assert forms == Pair(SetPlus5, rest);
    assert BodyOf([SetPlus5, Num(32)]) == Pair(BeginSym, forms);
    assert rest == Pair(Num(32), EmptyList);
    var s10 := State(Bounce(BodyOf([SetPlus5, Num(32)]), f, Plus5K), store);
    var kb := BeginRestK(rest, f, Plus5K);
    var s11 := State(Bounce(SetPlus5, f, kb), store);
    var store2 := Assign(store, f, "plus5", ContV(Plus5K)).value;
    var s14 := State(ApplyK(kb, ContV(Plus5K)), store2);
    var s15 := State(Bounce(Num(32), f, Plus5K), store2);
    var s16 := State(ApplyK(Plus5K, Num(32)), store2);
    assert Step(s10) == Some(s11) by { StepBegin(store, forms, f, Plus5K); }
    assert Steps(s11, 3) == Some(s14) by { SetPlus5Runs(store, f, kb); }
    assert Step(s14) == Some(s15) by { StepBeginRest(store2, rest, f, Plus5K, ContV(Plus5K)); }
    assert Steps(s10, 5) == Some(s15) by { Trampoline.IterateThrough(Step, s10, s11, s14, s15, 3); }
    assert Step(s15) == Some(s16) by { SimpleStep(store2, f, Num(32), Plus5K); }
    Trampoline.IterateThen(Step, s10, 5, s15, s16);
  }

  /** The frame the receiver runs in. */
  const KFrame: Frame := Frame(map["k" := ContV(Plus5K)], Some(TopLevel))

  /** `(set! plus5 k)` from the receiver's frame changes the top-level binding. */
  lemma AssignPlus5()
    ensures Assign(TopLevelWith("plus5", Bool(false)) + [KFrame], 1, "plus5", ContV(Plus5K))
              == Some(TopLevelWith("plus5", ContV(Plus5K)) + [KFrame])
  {
    var store1 := TopLevelWith("plus5", Bool(false)) + [KFrame];
    assert FindFrame(store1, 1, "plus5") == Some(TopLevel);
    assert Builtins()["plus5" := Bool(false)]["plus5" := ContV(Plus5K)] == Builtins()["plus5" := ContV(Plus5K)];
    assert store1[TopLevel := Frame(Builtins()["plus5" := ContV(Plus5K)], None)] == TopLevelWith("plus5", ContV(Plus5K)) + [KFrame];
  }

  /** The first ten steps: the operator and `5` are evaluated, `primitive-cwcc` reifies the
      pending addition and the receiver's body starts in a frame binding `k` to it. */
  lemma CaptureEntered()
    ensures Steps(State(Bounce(CaptureExpr(), TopLevel, Land), TopLevelWith("plus5", Bool(false))), 10)
              == Some(State(Bounce(BodyOf([SetPlus5, Num(32)]), 1, Plus5K), TopLevelWith("plus5", Bool(false)) + [KFrame]))
  {
    var store0 := TopLevelWith("plus5", Bool(false));
    var forms := [SetPlus5, Num(32)];
    var call := FromSeq([Sym("primitive-cwcc"), FromSeq([LambdaSym, FromSeq([Sym("k")])] + forms)]);
    var s0 := State(Bounce(CaptureExpr(), TopLevel, Land), store0);
    var s5 := State(Bounce(call, TopLevel, Plus5K), store0);
    assert Steps(s0, 5) == Some(s5) by { CaptureOperands(store0, call); }
    CaptureCwcc(store0, forms);
    Trampoline.IterateAdd(Step, s0, 5, 5);
  }

  /** The last eight steps: `(set! plus5 k)` stores the continuation at top level, `32` is
      handed to it and `(+ 5 32)` lands 37. */
  lemma CaptureFinishes()
    ensures Steps(State(Bounce(BodyOf([SetPlus5, Num(32)]), 1, Plus5K), TopLevelWith("plus5", Bool(false)) + [KFrame]), 8)
              == Some(State(Landed(Num(37)), TopLevelWith("plus5", ContV(Plus5K)) + [KFrame]))
  {
    var store1 := TopLevelWith("plus5", Bool(false)) + [KFrame];
    var store2 := TopLevelWith("plus5", ContV(Plus5K)) + [KFrame];
    var s10 := State(Bounce(BodyOf([SetPlus5, Num(32)]), 1, Plus5K), store1);
    var s16 := State(ApplyK(Plus5K, Num(32)), store2);
    assert Steps(s10, 6) == Some(s16) by {
      assert Lookup(store1, 1, "k") == Some(ContV(Plus5K));
      assert FindFrame(store1, 1, "plus5") == Some(TopLevel);
      CaptureBody(store1, 1);
      AssignPlus5();
    }
    assert Steps(s16, 2) == Some(State(Landed(Num(37)), store2)) by {
      Plus5KResumes(store2, 32);
    }
    Trampoline.IterateAdd(Step, s10, 6, 2);
  }

  /** The eighteen steps of `(+ 5 (primitive-cwcc (lambda (k) (set! plus5 k) 32)))`. */
  lemma CaptureSteps()
    ensures Steps(State(Bounce(CaptureExpr(), TopLevel, Land), TopLevelWith("plus5", Bool(false))), 18)
              == Some(State(Landed(Num(37)), TopLevelWith("plus5", ContV(Plus5K)) + [KFrame]))
  {
    CaptureEntered();
    CaptureFinishes();
    Trampoline.IterateAdd(Step, State(Bounce(CaptureExpr(), TopLevel, Land), TopLevelWith("plus5", Bool(false))), 10, 8);
  }

  /** After `(define plus5 #f)`, `(+ 5 (primitive-cwcc (lambda (k) (set! plus5 k) 32)))`
      returns 37 and leaves in the top-level `plus5` the continuation that adds 5. */
  lemma CaptureReturns37(ticks: Option<int>, fuel: nat)
    requires BudgetAllows(ticks, 17) && fuel >= 17
    ensures var r := SchemeEval(TopLevelWith("plus5", Bool(false)), CaptureExpr(), None, ticks, fuel);
            r.Landed? && r.value == Num(37) && Lookup(r.last.store, TopLevel, "plus5") == Some(ContV(Plus5K))
  {
    CaptureSteps();
    var store2 := TopLevelWith("plus5", ContV(Plus5K)) + [KFrame];
    FindFrameInGrownStore(TopLevelWith("plus5", ContV(Plus5K)), store2, TopLevel, "plus5");
    var t := if ticks.None? || ticks == Some(0) then -1 else ticks.value;
    EvalLands(TopLevelWith("plus5", Bool(false)), CaptureExpr(), TopLevel, 17, State(Landed(Num(37)), store2), t, fuel);
  }

  /** The continuation captured by that evaluation can be resumed any number of times:
      `(plus5 n)` then gives `5 + n` and a later `(plus5 m)` gives `5 + m`, each returning
      through the top level (10 and 11 for 5 and 6). */
  lemma CapturedContinuationIsMultiShot(n: int, m: int, fuel: nat)
    requires fuel >= 17
    ensures var r0 := SchemeEval(TopLevelWith("plus5", Bool(false)), CaptureExpr(), None, None, fuel);
            && r0.Landed? && r0.value == Num(37)
            && var r1 := SchemeEval(r0.last.store, FromSeq([Sym("plus5"), Num(n)]), None, None, fuel);
               && r1.Landed? && r1.value == Num(5 + n)
               && var r2 := SchemeEval(r1.last.store, FromSeq([Sym("plus5"), Num(m)]), None, None, fuel);
                  r2.Landed? && r2.value == Num(5 + m)
  {
    CaptureReturns37(None, fuel);
    var r0 := SchemeEval(TopLevelWith("plus5", Bool(false)), CaptureExpr(), None, None, fuel);
    Plus5AddsFive(r0.last.store, n, None, fuel);
    var r1 := SchemeEval(r0.last.store, FromSeq([Sym("plus5"), Num(n)]), None, None, fuel);
    Plus5AddsFive(r1.last.store, m, None, fuel);
  }

  // ---- escaping through a captured continuation ----

  /** `(return #t)` */
  const ReturnTrue: Value := FromSeq([Sym("return"), Bool(true)])

  /** The closure `(define foo (lambda (return) (return #t) #f))` binds at top level: two body
      forms, so the body is wrapped in `begin`. */
  const Foo: Value := Lambda([Sym("return")], Cons(BeginSym, FromSeq([ReturnTrue, Bool(false)])), TopLevel)

  /** What `foo`'s body does after `(return #t)` returns: drop the value, go on to `#f`. */
  function AfterReturn(f: nat, k: Cont): Cont {
    BeginRestK(FromSeq([Bool(false)]), f, k)
  }

  /** `foo`'s body calls `return` with `#t`, with the rest of the body as the caller's
      continuation. */
  lemma FooBodyCallsReturn(store: Store, f: nat, k: Cont, ret: Value)
    requires Lookup(store, f, "return") == Some(ret)
    ensures Steps(State(Bounce(Foo.body, f, k), store), 6) == Apply(store, ret, [Bool(true)], AfterReturn(f, k))
  {
    var forms := FromSeq([ReturnTrue, Bool(false)]);
    var rest := FromSeq([Bool(false)]);
    assert [ReturnTrue, Bool(false)][1..] == [Bool(false)];
    assert forms == Pair(ReturnTrue, rest);
    assert rest == Pair(Bool(false), EmptyList);
    var s0 := State(Bounce(Foo.body, f, k), store);
    var s1 := State(Bounce(ReturnTrue, f, AfterReturn(f, k)), store);
    StepBegin(store, forms, f, k);
    Advance(s0, s1, 6);
    var es := [Sym("return"), Bool(true)];
    assert SimpleValue(store, f, es[0]) == Some(ret);
    assert SimpleValue(store, f, es[1]) == Some(Bool(true));
    assert !IsKeyword(es[0]);
    SimpleCombination(store, f, es, AfterReturn(f, k));
    assert SimpleValues(store, f, es) == [ret, Bool(true)];
  }

  /** Calling `foo` binds `return` in a fresh frame below the top level and runs the body
      there. */
  lemma FooEntered(store: Store, ret: Value, k: Cont)
    requires TopLevel < |store|
    ensures Apply(store, Foo, [ret], k)
              == Some(State(Bounce(Foo.body, |store|, k), store + [Frame(map["return" := ret], Some(TopLevel))]))
  {
    assert BindPrefix([Sym("return")], [ret], 1) == Some(map["return" := ret]);
  }

  /** `(lambda (x) x)` made at top level. */
  const Identity: Value := Lambda([Sym("x")], Sym("x"), TopLevel)

  lemma IdentityEntered(store: Store, v: Value, k: Cont)
    requires TopLevel < |store|
    ensures Apply(store, Identity, [v], k)
              == Some(State(Bounce(Sym("x"), |store|, k), store + [Frame(map["x" := v], Some(TopLevel))]))
  {
    assert BindPrefix([Sym("x")], [v], 1) == Some(map["x" := v]);
  }

  /** `(primitive-cwcc foo)` up to the call of `foo` with the reified top-level continuation. */
  lemma CallFooWithCurrentContinuation(store: Store)
    requires Lookup(store, TopLevel, "foo") == Some(Foo)
    requires Lookup(store, TopLevel, "primitive-cwcc") == Some(Cwcc)
    ensures Steps(State(Bounce(FromSeq([Sym("primitive-cwcc"), Sym("foo")]), TopLevel, Land), store), 5)
              == Apply(store, Foo, [ContV(Land)], Land)
  {
    var es := [Sym("primitive-cwcc"), Sym("foo")];
    assert SimpleValue(store, TopLevel, es[0]) == Some(Cwcc);
    assert SimpleValue(store, TopLevel, es[1]) == Some(Foo);
    assert !IsKeyword(es[0]);
    SimpleCombination(store, TopLevel, es, Land);
    assert SimpleValues(store, TopLevel, es) == [Cwcc, Foo];
    CwccReifiesContinuation(store, Foo, Land);
  }

  /** `foo`'s body run with `return` bound to the top-level continuation lands `#t`. */
  lemma FooBodyEscapes(store: Store, f: nat)
    requires Lookup(store, f, "return") == Some(ContV(Land))
    ensures Steps(State(Bounce(Foo.body, f, Land), store), 7) == Some(State(Landed(Bool(true)), store))
  {
    var s5 := State(Bounce(Foo.body, f, Land), store);
    FooBodyCallsReturn(store, f, Land, ContV(Land));
    ContinuationIgnoresCaller(store, Land, [Bool(true)], AfterReturn(f, Land), Land);
    var s11 := State(ApplyK(Land, Bool(true)), store);
    Trampoline.IterateAdd(Step, s5, 6, 1);
    Advance(s11, State(Landed(Bool(true)), store), 1);
  }

  /** The twelve steps of `(primitive-cwcc foo)`: the call, `foo`'s body up to `(return #t)`,
      and the landing of `#t`. */
  lemma EscapeSteps(store: Store)
    requires Lookup(store, TopLevel, "foo") == Some(Foo)
    requires Lookup(store, TopLevel, "primitive-cwcc") == Some(Cwcc)
    ensures Steps(State(Bounce(FromSeq([Sym("primitive-cwcc"), Sym("foo")]), TopLevel, Land), store), 12)
              == Some(State(Landed(Bool(true)), store + [Frame(map["return" := ContV(Land)], Some(TopLevel))]))
  {
    assert TopLevel < |store|;
    var s0 := State(Bounce(FromSeq([Sym("primitive-cwcc"), Sym("foo")]), TopLevel, Land), store);
    CallFooWithCurrentContinuation(store);
    FooEntered(store, ContV(Land), Land);
    var store1 := store + [Frame(map["return" := ContV(Land)], Some(TopLevel))];
    assert Lookup(store1, |store|, "return") == Some(ContV(Land));
    Trampoline.IterateAdd(Step, s0, 5, 7);
    FooBodyEscapes(store1, |store|);
  }

  /** `(primitive-cwcc foo)`: `foo` receives the continuation of the top-level evaluation, and
      calling it with `#t` returns `#t` from that evaluation at once; the `#f` after the call is
      never reached. */
  lemma CapturedReturnEscapes(store: Store, ticks: Option<int>, fuel: nat)
    requires Lookup(store, TopLevel, "foo") == Some(Foo)
    requires Lookup(store, TopLevel, "primitive-cwcc") == Some(Cwcc)
    requires BudgetAllows(ticks, 11) && fuel >= 11
    ensures var r := SchemeEval(store, FromSeq([Sym("primitive-cwcc"), Sym("foo")]), None, ticks, fuel);
            r.Landed? && r.value == Bool(true)
  {
    EscapeSteps(store);
    var last := State(Landed(Bool(true)), store + [Frame(map["return" := ContV(Land)], Some(TopLevel))]);
    var t := if ticks.None? || ticks == Some(0) then -1 else ticks.value;
    EvalLands(store, FromSeq([Sym("primitive-cwcc"), Sym("foo")]), TopLevel, 11, last, t, fuel);
  }

  /** `(foo (lambda (x) x))` up to the evaluation of its operand: `foo` is looked up first. */
  lemma FooOperatorFirst(store: Store)
    requires Lookup(store, TopLevel, "foo") == Some(Foo)
    ensures Steps(State(Bounce(FromSeq([Sym("foo"), FromSeq([LambdaSym, FromSeq([Sym("x")]), Sym("x")])]), TopLevel, Land), store), 3)
              == Some(State(Bounce(FromSeq([LambdaSym, FromSeq([Sym("x")]), Sym("x")]), TopLevel, CombApplyK([Foo], TopLevel, Land)), store))
  {
    var idExpr := FromSeq([LambdaSym, FromSeq([Sym("x")]), Sym("x")]);
    var rest := FromSeq([idExpr]);
    var e := FromSeq([Sym("foo"), idExpr]);
    assert [Sym("foo"), idExpr][1..] == [idExpr];
    assert e == Pair(Sym("foo"), rest);
    assert rest == Pair(idExpr, EmptyList);
    var s0 := State(Bounce(e, TopLevel, Land), store);
    var k1 := CombRestK([], rest, TopLevel, Land);
    var s1 := State(Bounce(Sym("foo"), TopLevel, k1), store);
    assert Step(s0) == Some(s1) by { StepCombination(store, Sym("foo"), rest, TopLevel, Land); }
    Advance(s0, s1, 3);
    var s2 := State(ApplyK(k1, Foo), store);
    assert Step(s1) == Some(s2) by { SimpleStep(store, TopLevel, Sym("foo"), k1); }
    Advance(s1, s2, 2);
    var s3 := State(Bounce(idExpr, TopLevel, CombApplyK([Foo], TopLevel, Land)), store);
    assert Step(s2) == Some(s3) by {
      StepCombRest(store, [], idExpr, EmptyList, TopLevel, Land, Foo);
      assert AppendArg([], Foo) == [Foo];
    }
    Advance(s2, s3, 1);
  }

  lemma CallFooWithIdentity(store: Store)
    requires Lookup(store, TopLevel, "foo") == Some(Foo)
    ensures Steps(State(Bounce(FromSeq([Sym("foo"), FromSeq([LambdaSym, FromSeq([Sym("x")]), Sym("x")])]), TopLevel, Land), store), 5)
              == Apply(store, Foo, [Identity], Land)
  {
    var ps := FromSeq([Sym("x")]);
    var idExpr := FromSeq([LambdaSym, ps, Sym("x")]);
    var s0 := State(Bounce(FromSeq([Sym("foo"), idExpr]), TopLevel, Land), store);
    var k3 := CombApplyK([Foo], TopLevel, Land);
    var s3 := State(Bounce(idExpr, TopLevel, k3), store);
    FooOperatorFirst(store);
    var s4 := State(ApplyK(k3, Identity), store);
    assert Step(s3) == Some(s4) by {
      assert [LambdaSym, ps] + [Sym("x")] == [LambdaSym, ps, Sym("x")];
      assert Spine(ps) == [Sym("x")];
      LambdaMakesClosure(store, TopLevel, ps, [Sym("x")], k3);
    }
    Advance(s3, s4, 1);
    assert Steps(s4, 1) == Apply(store, Foo, [Identity], Land) by {
      StepCombApply(store, [Foo], TopLevel, Land, Identity);
      assert [Foo] + [Identity] == [Foo, Identity];
    }
    Trampoline.IterateAdd(Step, s0, 3, 2);
  }

  /** After `(return #t)` returns normally: `#t` is dropped and `#f` lands. */
  lemma RestOfFooBody(store: Store, f: nat, v: Value)
    ensures Steps(State(ApplyK(AfterReturn(f, Land), v), store), 3) == Some(State(Landed(Bool(false)), store))
  {
    var s12 := State(ApplyK(AfterReturn(f, Land), v), store);
    var s13 := State(Bounce(Bool(false), f, Land), store);
    StepBeginRest(store, FromSeq([Bool(false)]), f, Land, v);
    Advance(s12, s13, 3);
    var s14 := State(ApplyK(Land, Bool(false)), store);
    SimpleStep(store, f, Bool(false), Land);
    Advance(s13, s14, 2);
    Advance(s14, State(Landed(Bool(false)), store), 1);
  }

  /** `foo`'s body run with `return` bound to the identity: `(return #t)` returns `#t` to the
      body, which drops it and lands `#f`. */
  lemma FooBodyContinues(store: Store, f: nat)
    requires Lookup(store, f, "return") == Some(Identity) && TopLevel < |store|
    ensures Steps(State(Bounce(Foo.body, f, Land), store), 10)
              == Some(State(Landed(Bool(false)), store + [Frame(map["x" := Bool(true)], Some(TopLevel))]))
  {
    var s5 := State(Bounce(Foo.body, f, Land), store);
    var kr := AfterReturn(f, Land);
    FooBodyCallsReturn(store, f, Land, Identity);
    IdentityEntered(store, Bool(true), kr);
    var store2 := store + [Frame(map["x" := Bool(true)], Some(TopLevel))];
    var s11 := State(Bounce(Sym("x"), |store|, kr), store2);
    Trampoline.IterateAdd(Step, s5, 6, 4);
    assert Lookup(store2, |store|, "x") == Some(Bool(true));
    SimpleStep(store2, |store|, Sym("x"), kr);
    var s12 := State(ApplyK(kr, Bool(true)), store2);
    Advance(s11, s12, 4);
    RestOfFooBody(store2, f, Bool(true));
  }

  /** The fifteen steps of `(foo (lambda (x) x))`. */
  lemma OrdinarySteps(store: Store)
    requires Lookup(store, TopLevel, "foo") == Some(Foo)
    ensures var store1 := store + [Frame(map["return" := Identity], Some(TopLevel))];
            var store2 := store1 + [Frame(map["x" := Bool(true)], Some(TopLevel))];
            Steps(State(Bounce(FromSeq([Sym("foo"), FromSeq([LambdaSym, FromSeq([Sym("x")]), Sym("x")])]), TopLevel, Land), store), 15)
              == Some(State(Landed(Bool(false)), store2))
  {
    assert TopLevel < |store|;
    var s0 := State(Bounce(FromSeq([Sym("foo"), FromSeq([LambdaSym, FromSeq([Sym("x")]), Sym("x")])]), TopLevel, Land), store);
    CallFooWithIdentity(store);
    FooEntered(store, Identity, Land);
    var store1 := store + [Frame(map["return" := Identity], Some(TopLevel))];
    var s5 := State(Bounce(Foo.body, |store|, Land), store1);
    assert Steps(s0, 5) == Some(s5);
    assert Lookup(store1, |store|, "return") == Some(Identity);
    FooBodyContinues(store1, |store|);
    Trampoline.IterateAdd(Step, s0, 5, 10);
  }

  /** `(foo (lambda (x) x))`: an ordinary procedure returns to its caller, so the value of
      `(return #t)` is dropped and `foo` goes on to return `#f`. */
  lemma OrdinaryReturnContinues(store: Store, ticks: Option<int>, fuel: nat)
    requires Lookup(store, TopLevel, "foo") == Some(Foo)
    requires BudgetAllows(ticks, 14) && fuel >= 14
    ensures var r := SchemeEval(store, FromSeq([Sym("foo"), FromSeq([LambdaSym, FromSeq([Sym("x")]), Sym("x")])]), None, ticks, fuel);
            r.Landed? && r.value == Bool(false)
  {
    OrdinarySteps(store);
    var store1 := store + [Frame(map["return" := Identity], Some(TopLevel))];
    var store2 := store1 + [Frame(map["x" := Bool(true)], Some(TopLevel))];
    var t := if ticks.None? || ticks == Some(0) then -1 else ticks.value;
    EvalLands(store, FromSeq([Sym("foo"), FromSeq([LambdaSym, FromSeq([Sym("x")]), Sym("x")])]), TopLevel, 14, State(Landed(Bool(false)), store2), t, fuel);
  }

  // ---- assigning a parameter ----

  /** `(set! y 100)` */
  const SetY100: Value := FromSeq([SetSym, Sym("y"), Num(100)])

  /** `(lambda (y) (set! y 100) y)` */
  const SetParamExpr: Value := FromSeq([LambdaSym, FromSeq([Sym("y")]), SetY100, Sym("y")])

  /** The closure that expression makes at top level. */
  const SetParam: Value := Lambda([Sym("y")], Cons(BeginSym, FromSeq([SetY100, Sym("y")])), TopLevel)

  /** `((lambda (y) (set! y 100) y) 3)` up to the call: the closure, then the argument. */
  lemma CallSetParam(store: Store)
    ensures Steps(State(Bounce(FromSeq([SetParamExpr, Num(3)]), TopLevel, Land), store), 5)
              == Apply(store, SetParam, [Num(3)], Land)
  {
    var ps := FromSeq([Sym("y")]);
    var rest := FromSeq([Num(3)]);
    var e := FromSeq([SetParamExpr, Num(3)]);
    assert [SetParamExpr, Num(3)][1..] == [Num(3)];
    assert e == Pair(SetParamExpr, rest);
    assert rest == Pair(Num(3), EmptyList);
    var s0 := State(Bounce(e, TopLevel, Land), store);
    var k1 := CombRestK([], rest, TopLevel, Land);
    var s1 := State(Bounce(SetParamExpr, TopLevel, k1), store);
    StepCombination(store, SetParamExpr, rest, TopLevel, Land);
    Advance(s0, s1, 5);
    assert [LambdaSym, ps] + [SetY100, Sym("y")] == [LambdaSym, ps, SetY100, Sym("y")];
    assert Spine(ps) == [Sym("y")];
    LambdaMakesClosure(store, TopLevel, ps, [SetY100, Sym("y")], k1);
    var s2 := State(ApplyK(k1, SetParam), store);
    Advance(s1, s2, 4);
    var k3 := CombApplyK([SetParam], TopLevel, Land);
    var s3 := State(Bounce(Num(3), TopLevel, k3), store);
    StepCombRest(store, [], Num(3), EmptyList, TopLevel, Land, SetParam);
    assert AppendArg([], SetParam) == [SetParam];
    Advance(s2, s3, 3);
    var s4 := State(ApplyK(k3, Num(3)), store);
    SimpleStep(store, TopLevel, Num(3), k3);
    Advance(s3, s4, 2);
    StepCombApply(store, [SetParam], TopLevel, Land, Num(3));
    assert [SetParam] + [Num(3)] == [SetParam, Num(3)];
  }

  /** The body in a frame `f` binding `y`: `y` is assigned 100 in that frame, then read back. */
  lemma SetParamBody(store: Store, f: nat)
    requires f < |store| && "y" in store[f].bindings
    ensures Steps(State(Bounce(SetParam.body, f, Land), store), 7)
              == Some(State(Landed(Num(100)), Assign(store, f, "y", Num(100)).value))
  {
    var forms := FromSeq([SetY100, Sym("y")]);
    var rest := FromSeq([Sym("y")]);
    assert [SetY100, Sym("y")][1..] == [Sym("y")];
    assert forms == Pair(SetY100, rest);
    assert rest == Pair(Sym("y"), EmptyList);
    var s5 := State(Bounce(SetParam.body, f, Land), store);
    var kb := BeginRestK(rest, f, Land);
    var s6 := State(Bounce(SetY100, f, kb), store);
    StepBegin(store, forms, f, Land);
    Advance(s5, s6, 7);
    SimpleEvaluates(store, f, Num(100));
    SetChangesInnermostBinding(store, f, "y", Num(100), kb, Num(100), store, 1);
    var store2 := Assign(store, f, "y", Num(100)).value;
    var s9 := State(ApplyK(kb, Num(100)), store2);
    Trampoline.IterateAdd(Step, s6, 3, 3);
    var s10 := State(Bounce(Sym("y"), f, Land), store2);
    StepBeginRest(store2, rest, f, Land, Num(100));
    Advance(s9, s10, 3);
    var s11 := State(ApplyK(Land, Num(100)), store2);
    SimpleStep(store2, f, Sym("y"), Land);
    Advance(s10, s11, 2);
    Advance(s11, State(Landed(Num(100)), store2), 1);
  }

  /** Calling the closure binds `y` in a fresh frame below the top level. */
  lemma SetParamEntered(store: Store, v: Value, k: Cont)
    requires TopLevel < |store|
    ensures Apply(store, SetParam, [v], k)
              == Some(State(Bounce(SetParam.body, |store|, k), store + [Frame(map["y" := v], Some(TopLevel))]))
  {
    assert BindPrefix([Sym("y")], [v], 1) == Some(map["y" := v]);
  }

  /** Assigning `y` in that frame overwrites the argument there. */
  lemma AssignInNewFrame(store: Store, v: Value, w: Value)
    requires TopLevel < |store|
    ensures var s := store + [Frame(map["y" := v], Some(TopLevel))];
            Assign(s, |store|, "y", w) == Some(store + [Frame(map["y" := w], Some(TopLevel))])
  {
    var s := store + [Frame(map["y" := v], Some(TopLevel))];
    assert FindFrame(s, |store|, "y") == Some(|store|);
    assert map["y" := v]["y" := w] == map["y" := w];
    assert s[|store| := Frame(map["y" := w], Some(TopLevel))] == store + [Frame(map["y" := w], Some(TopLevel))];
  }

  /** The twelve steps of `((lambda (y) (set! y 100) y) 3)`; the new frame ends up holding 100. */
  lemma LocalSetSteps(store: Store)
    requires TopLevel < |store|
    ensures Steps(State(Bounce(FromSeq([SetParamExpr, Num(3)]), TopLevel, Land), store), 12)
              == Some(State(Landed(Num(100)), store + [Frame(map["y" := Num(100)], Some(TopLevel))]))
  {
    var s0 := State(Bounce(FromSeq([SetParamExpr, Num(3)]), TopLevel, Land), store);
    CallSetParam(store);
    SetParamEntered(store, Num(3), Land);
    var store1 := store + [Frame(map["y" := Num(3)], Some(TopLevel))];
    Trampoline.IterateAdd(Step, s0, 5, 7);
    SetParamBody(store1, |store|);
    AssignInNewFrame(store, Num(3), Num(100));
  }

  /** `((lambda (y) (set! y 100) y) 3)` returns 100: `set!` on a parameter changes the binding
      in the procedure's own frame, and the top-level `y` it shadows reads as before. */
  lemma LocalSetLeavesShadowedBinding(store: Store, ticks: Option<int>, fuel: nat)
    requires TopLevel < |store|
    requires BudgetAllows(ticks, 11) && fuel >= 11
    ensures var r := SchemeEval(store, FromSeq([SetParamExpr, Num(3)]), None, ticks, fuel);
            && r.Landed? && r.value == Num(100)
            && Lookup(r.last.store, TopLevel, "y") == Lookup(store, TopLevel, "y")
  {
    LocalSetSteps(store);
    var store2 := store + [Frame(map["y" := Num(100)], Some(TopLevel))];
    FindFrameInGrownStore(store, store2, TopLevel, "y");
    var t := if ticks.None? || ticks == Some(0) then -1 else ticks.value;
    EvalLands(store, FromSeq([SetParamExpr, Num(3)]), TopLevel, 11, State(Landed(Num(100)), store2), t, fuel);
  }

  // ---- nested combinations ----

  /** `(- e)`, with `-` bound to the primitive, evaluates to the negation of `e`'s value: one
      step for `-`, `e`'s own steps, one step to hand its value on and one to apply. */
  lemma NegationEvaluates(store: Store, env: nat, e: Value, n: int, store1: Store, m: nat)
    requires Lookup(store, env, "-") == Some(Prim(Minus))
    requires Evaluates(store, env, e, Num(n), store1, m)
    ensures Evaluates(store, env, FromSeq([Sym("-"), e]), Num(-n), store1, m + 4)
  {
    var es := [Sym("-"), e];
    var vs := [Prim(Minus), Num(n)];
    var ss := [store, store, store1];
    var ns: seq<nat> := [1, m];
    SimpleEvaluates(store, env, Sym("-"));
    TwoInOrder(env, Sym("-"), e, Prim(Minus), Num(n), store, store, store1, 1, m);
    assert vs[1..] == [Num(n)];
    PrimitiveCallEvaluates(env, es, vs, ss, ns, Minus, Num(-n));
  }

  const Neg1: Value := FromSeq([Sym("-"), Num(15)])
  const Neg2: Value := FromSeq([Sym("-"), Neg1])
  const Neg3: Value := FromSeq([Sym("-"), Neg2])

  /** `(- (- (- 15)))` evaluates to -15: the inner calls' values are the outer calls' operands,
      and nothing is bound or assigned on the way. */
  lemma Neg3Evaluates(store: Store)
    requires Lookup(store, TopLevel, "-") == Some(Prim(Minus))
    ensures Evaluates(store, TopLevel, Neg3, Num(-15), store, 13)
  {
    SimpleEvaluates(store, TopLevel, Num(15));
    NegationEvaluates(store, TopLevel, Num(15), 15, store, 1);
    assert Evaluates(store, TopLevel, Neg1, Num(-15), store, 5);
    NegationEvaluates(store, TopLevel, Neg1, -15, store, 5);
    assert Evaluates(store, TopLevel, Neg2, Num(15), store, 9);
    NegationEvaluates(store, TopLevel, Neg2, 15, store, 9);
  }

  /** `(- (- (- 15)))` at top level lands on -15, with the store as it was, in any store whose
      top level binds `-` to the primitive, as the initial one does. */
  lemma Neg3Lands(store: Store, ticks: Option<int>, fuel: nat)
    requires Lookup(store, TopLevel, "-") == Some(Prim(Minus))
    requires BudgetAllows(ticks, 13) && fuel >= 13
    ensures var r := SchemeEval(store, Neg3, None, ticks, fuel);
            r.Landed? && r.value == Num(-15) && r.last.store == store
  {
    Neg3Evaluates(store);
    var t := if ticks.None? || ticks == Some(0) then -1 else ticks.value;
    EvaluatesLands(store, Neg3, TopLevel, Num(-15), store, 13, t, fuel);
  }

  /** `(lambda (y) y)` */
  const IdY: Value := FromSeq([LambdaSym, FromSeq([Sym("y")]), Sym("y")])

  /** The closure it makes at top level. */
  const IdYClosure: Value := Lambda([Sym("y")], Sym("y"), TopLevel)

  /** `((lambda (y) y) (- (- (- 15))))` up to the call: the operator is a lambda expression and
      the operand a nested combination, and `_apply` gets the closure and -15. */
  lemma IdentityOfNeg3Call(store: Store, k: Cont)
    requires Lookup(store, TopLevel, "-") == Some(Prim(Minus))
    ensures Steps(State(Bounce(FromSeq([IdY, Neg3]), TopLevel, k), store), 17)
              == Apply(store, IdYClosure, [Num(-15)], k)
  {
    var es := [IdY, Neg3];
    var vs := [IdYClosure, Num(-15)];
    IdYEvaluates(store);
    Neg3Evaluates(store);
    TwoInOrder(TopLevel, IdY, Neg3, IdYClosure, Num(-15), store, store, store, 1, 13);
    assert vs[1..] == [Num(-15)];
    CombinationInSourceOrder(TopLevel, es, vs, [store, store, store], [1, 13], k);
  }

  /** `(lambda (y) y)` closes over the top level in one step. */
  lemma IdYEvaluates(store: Store)
    ensures Evaluates(store, TopLevel, IdY, IdYClosure, store, 1)
  {
    var ps := FromSeq([Sym("y")]);
    assert Spine(ps) == [Sym("y")];
    assert [LambdaSym, ps] + [Sym("y")] == [LambdaSym, ps, Sym("y")];
    LambdaEvaluates(store, TopLevel, ps, [Sym("y")]);
  }

  /** Calling the closure binds `y` to the argument in a fresh frame below the top level, and
      the body `y` reads it back there in one step. */
  lemma IdYEntered(store: Store, v: Value, k: Cont)
    requires TopLevel < |store|
    ensures var store1 := store + [Frame(map["y" := v], Some(TopLevel))];
            && Apply(store, IdYClosure, [v], k) == Some(State(Bounce(Sym("y"), |store|, k), store1))
            && Step(State(Bounce(Sym("y"), |store|, k), store1)) == Some(State(ApplyK(k, v), store1))
  {
    var store1 := store + [Frame(map["y" := v], Some(TopLevel))];
    assert BindPrefix([Sym("y")], [v], 1) == Some(map["y" := v]);
    assert Lookup(store1, |store|, "y") == Some(v);
    SimpleStep(store1, |store|, Sym("y"), k);
  }

  /** `((lambda (y) y) (- (- (- 15))))` yields -15 in any context: the nested combination's
      value is the argument the lambda's parameter reads. */
  lemma IdentityOfNeg3Evaluates(store: Store)
    requires Lookup(store, TopLevel, "-") == Some(Prim(Minus))
    ensures Evaluates(store, TopLevel, FromSeq([IdY, Neg3]), Num(-15),
                      store + [Frame(map["y" := Num(-15)], Some(TopLevel))], 18)
  {
    var store1 := store + [Frame(map["y" := Num(-15)], Some(TopLevel))];
    forall k ensures Steps(State(Bounce(FromSeq([IdY, Neg3]), TopLevel, k), store), 18)
                       == Some(State(ApplyK(k, Num(-15)), store1))
    {
      var s0 := State(Bounce(FromSeq([IdY, Neg3]), TopLevel, k), store);
      var s17 := State(Bounce(Sym("y"), |store|, k), store1);
      IdentityOfNeg3Call(store, k);
      IdYEntered(store, Num(-15), k);
      Trampoline.IterateThen(Step, s0, 17, s17, State(ApplyK(k, Num(-15)), store1));
    }
  }

  /** `((lambda (y) y) (- (- (- 15))))` lands on -15. */
  lemma IdentityOfNeg3Lands(store: Store, ticks: Option<int>, fuel: nat)
    requires Lookup(store, TopLevel, "-") == Some(Prim(Minus))
    requires BudgetAllows(ticks, 18) && fuel >= 18
    ensures var r := SchemeEval(store, FromSeq([IdY, Neg3]), None, ticks, fuel);
            r.Landed? && r.value == Num(-15)
  {
    IdentityOfNeg3Evaluates(store);
    var t := if ticks.None? || ticks == Some(0) then -1 else ticks.value;
    EvaluatesLands(store, FromSeq([IdY, Neg3]), TopLevel, Num(-15),
                   store + [Frame(map["y" := Num(-15)], Some(TopLevel))], 18, t, fuel);
  }

  // ---- a throw after a definition ----

  /** `(define x 5)`, then the unbound `nope`. */
  const DefineThenThrow: Value := FromSeq([BeginSym, FromSeq([DefineSym, Sym("x"), Num(5)]), Sym("nope")])

  /** Five steps: `begin` starts the first form, `(define x 5)` binds `x` in the top frame and
      the rest of the `begin` starts `nope`. */
  lemma DefineThenThrowReaches(store: Store)
    requires TopLevel < |store|
    ensures Steps(State(Bounce(DefineThenThrow, TopLevel, Land), store), 5)
              == Some(State(Bounce(Sym("nope"), TopLevel, Land), DefineIn(store, TopLevel, "x", Num(5)).value))
  {
    var defx := FromSeq([DefineSym, Sym("x"), Num(5)]);
    var nope := FromSeq([Sym("nope")]);
    assert [BeginSym, defx, Sym("nope")][1..] == [defx, Sym("nope")];
    assert [defx, Sym("nope")][1..] == [Sym("nope")];
    var forms := Pair(defx, nope);
    assert FromSeq([defx, Sym("nope")]) == forms;
    assert DefineThenThrow == Pair(BeginSym, forms);
    assert nope == Pair(Sym("nope"), EmptyList);
    var store1 := DefineIn(store, TopLevel, "x", Num(5)).value;
    var kb := BeginRestK(nope, TopLevel, Land);
    var s0 := State(Bounce(DefineThenThrow, TopLevel, Land), store);
    var s1 := State(Bounce(defx, TopLevel, kb), store);
    var s4 := State(ApplyK(kb, Num(5)), store1);
    var s5 := State(Bounce(Sym("nope"), TopLevel, Land), store1);
    assert Step(s0) == Some(s1) by { StepBegin(store, forms, TopLevel, Land); }
    assert Steps(s1, 3) == Some(s4) by {
      SimpleEvaluates(store, TopLevel, Num(5));
      DefineEvaluates(store, TopLevel, "x", Num(5), Num(5), store, 1);
      UseEvaluates(store, TopLevel, defx, Num(5), store1, 3, kb);
    }
    assert Step(s4) == Some(s5) by { StepBeginRest(store1, nope, TopLevel, Land, Num(5)); }
    Trampoline.IterateThrough(Step, s0, s1, s4, s5, 3);
  }

  /** `(begin (define x 5) nope)` at the top level, where `nope` is unbound: the evaluation
      throws, but the definition made before the throw stays in the store, so a later
      evaluation of `x` from that store lands on 5. */
  lemma ThrowKeepsEarlierDefine(store: Store, ticks: Option<int>, fuel: nat)
    requires TopLevel < |store| && store[TopLevel].parent.None? && "nope" !in store[TopLevel].bindings
    requires BudgetAllows(ticks, 5) && fuel >= 5
    ensures var r := SchemeEval(store, DefineThenThrow, None, ticks, fuel);
            && r.Thrown?
            && r.last.store == DefineIn(store, TopLevel, "x", Num(5)).value
            && Lookup(r.last.store, TopLevel, "x") == Some(Num(5))
            && SchemeEval(r.last.store, Sym("x"), None, None, fuel) == Trampoline.Landed(Num(5), State(Landed(Num(5)), r.last.store))
  {
    var t := if ticks.None? || ticks == Some(0) then -1 else ticks.value;
    assert t < 0 || t > 4;
    var store1 := DefineIn(store, TopLevel, "x", Num(5)).value;
    var s5 := State(Bounce(Sym("nope"), TopLevel, Land), store1);
    DefineThenThrowReaches(store);
    assert Step(s5).None? by {
      assert Lookup(store1, TopLevel, "nope") == None;
      SimpleStep(store1, TopLevel, Sym("nope"), Land);
    }
    EvalThrows(store, DefineThenThrow, TopLevel, 4, s5, t, fuel);
    SimpleEvaluates(store1, TopLevel, Sym("x"));
    EvaluatesLands(store1, Sym("x"), TopLevel, Num(5), store1, 1, -1, fuel);
  }
}
