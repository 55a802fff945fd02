/** Every frame id the machine can meet names an existing frame: the ids held by closures,
    continuations and bouncers all lie below the size of the store, and a step keeps it so.
    The store only grows and no frame's parent ever changes, so every environment keeps its
    chain of ancestors for good: lexical scope is fixed when a frame is made. */
module WellFormed {
  import opened Wrappers
  import opened Values
  import opened Lists
  import opened Primitives
  import opened Environment
  import opened Evaluator
  import Trampoline

  predicate ValueOk(v: Value, n: nat)
    decreases v
  {
    match v
    case Pair(a, d) => ValueOk(a, n) && ValueOk(d, n)
    case Box(c) => ValueOk(c, n)
    case Vector(es) => forall i :: 0 <= i < |es| ==> ValueOk(es[i], n)
    case Mapping(m) => forall key :: key in m ==> ValueOk(m[key], n)
    case Lambda(ps, body, env) => env < n && (forall i :: 0 <= i < |ps| ==> ValueOk(ps[i], n)) && ValueOk(body, n)
    case ContV(k) => ContOk(k, n)
    case _ => true
  }

  predicate AllOk(vs: seq<Value>, n: nat) {
    forall i :: 0 <= i < |vs| ==> ValueOk(vs[i], n)
  }

  predicate ContOk(k: Cont, n: nat)
    decreases k
  {
    match k
    case Land => true
    case DefineK(t, env, next) => ValueOk(t, n) && env < n && ContOk(next, n)
    case SetK(t, env, next) => ValueOk(t, n) && env < n && ContOk(next, n)
    case IfK(t, e, env, next) => ValueOk(t, n) && ValueOk(e, n) && env < n && ContOk(next, n)
    case BeginRestK(rest, env, next) => ValueOk(rest, n) && env < n && ContOk(next, n)
    case CombRestK(argv, rest, env, next) =>
      (forall i :: 0 <= i < |argv| ==> ValueOk(argv[i], n)) && ValueOk(rest, n) && env < n && ContOk(next, n)
    case CombApplyK(argv, env, next) =>
      (forall i :: 0 <= i < |argv| ==> ValueOk(argv[i], n)) && env < n && ContOk(next, n)
  }

  predicate StoreOk(store: Store) {
    forall f, key :: 0 <= f < |store| && key in store[f].bindings ==> ValueOk(store[f].bindings[key], |store|)
  }

  predicate BouncerOk(b: Bouncer, n: nat) {
    match b
    case Bounce(e, env, k) => ValueOk(e, n) && env < n && ContOk(k, n)
    case ApplyK(k, v) => ContOk(k, n) && ValueOk(v, n)
    case Landed(v) => ValueOk(v, n)
  }

  predicate StateOk(s: State) {
    StoreOk(s.store) && BouncerOk(s.b, |s.store|)
  }

  // ---- a bigger store keeps every id valid ----

  lemma {:induction false} ValueOkGrows(v: Value, n: nat, m: nat)
    requires ValueOk(v, n) && n <= m
    ensures ValueOk(v, m)
    decreases v, 1
  {
    match v
    case Pair(a, d) => ValueOkGrows(a, n, m); ValueOkGrows(d, n, m);
    case Box(c) => ValueOkGrows(c, n, m);
    case Vector(es) =>
      forall i | 0 <= i < |es| ensures ValueOk(es[i], m) { ValueOkGrows(es[i], n, m); }
    case Mapping(mp) =>
      forall key | key in mp ensures ValueOk(mp[key], m) { ValueOkGrows(mp[key], n, m); }
    case Lambda(ps, body, env) =>
      forall i | 0 <= i < |ps| ensures ValueOk(ps[i], m) { ValueOkGrows(ps[i], n, m); }
      ValueOkGrows(body, n, m);
    case ContV(k) => ContOkGrows(k, n, m);
    case _ =>
  }

  lemma {:induction false} AllOkGrows(vs: seq<Value>, n: nat, m: nat)
    requires AllOk(vs, n) && n <= m
    ensures AllOk(vs, m)
  {
    forall i | 0 <= i < |vs| ensures ValueOk(vs[i], m) { ValueOkGrows(vs[i], n, m); }
  }

  lemma {:induction false} ContOkGrows(k: Cont, n: nat, m: nat)
    requires ContOk(k, n) && n <= m
    ensures ContOk(k, m)
    decreases k, 0
  {
    match k
    case Land =>
    case DefineK(t, env, next) => ValueOkGrows(t, n, m); ContOkGrows(next, n, m);
    case SetK(t, env, next) => ValueOkGrows(t, n, m); ContOkGrows(next, n, m);
    case IfK(t, e, env, next) => ValueOkGrows(t, n, m); ValueOkGrows(e, n, m); ContOkGrows(next, n, m);
    case BeginRestK(rest, env, next) => ValueOkGrows(rest, n, m); ContOkGrows(next, n, m);
    case CombRestK(argv, rest, env, next) =>
      forall i | 0 <= i < |argv| ensures ValueOk(argv[i], m) { ValueOkGrows(argv[i], n, m); }
      ValueOkGrows(rest, n, m); ContOkGrows(next, n, m);
    case CombApplyK(argv, env, next) =>
      forall i | 0 <= i < |argv| ensures ValueOk(argv[i], m) { ValueOkGrows(argv[i], n, m); }
      ContOkGrows(next, n, m);
  }

  // ---- the parts of a well-formed datum are well-formed ----

  lemma {:induction false} ListRefOk(v: Value, i: nat, n: nat)
    requires ValueOk(v, n) && ListRef(v, i).Some?
    ensures ValueOk(ListRef(v, i).value, n)
    decreases i
  {
    if i > 0 {
      ListRefOk(v.cdr, i - 1, n);
    }
  }

  lemma NthOk(v: Value, i: nat, n: nat)
    requires ValueOk(v, n) && Nth(v, i).Some?
    ensures ValueOk(Nth(v, i).value, n)
  {
    if !(v.Vector? && |v.elems| > i) {
      ListRefOk(v, i, n);
    }
  }

  lemma {:induction false} CollectFromOk(v: Value, acc: seq<Value>, n: nat)
    requires ValueOk(v, n) && AllOk(acc, n) && CollectFrom(v, acc).Some?
    ensures AllOk(CollectFrom(v, acc).value, n)
    decreases v
  {
    if v.Pair? {
      CollectFromOk(v.cdr, acc + [v.car], n);
    }
  }

  // ---- the store ----

  lemma DefineInOk(store: Store, env: nat, name: string, v: Value)
    requires StoreOk(store) && ValueOk(v, |store|) && DefineIn(store, env, name, v).Some?
    ensures StoreOk(DefineIn(store, env, name, v).value)
  {
  }

  lemma AssignOk(store: Store, env: nat, name: string, v: Value)
    requires StoreOk(store) && ValueOk(v, |store|) && Assign(store, env, name, v).Some?
    ensures StoreOk(Assign(store, env, name, v).value)
  {
  }

  lemma {:induction false} BindPrefixOk(params: seq<Value>, args: seq<Value>, n: nat, m: nat)
    requires n <= |params| && AllOk(args, m) && BindPrefix(params, args, n).Some?
    ensures forall key :: key in BindPrefix(params, args, n).value ==> ValueOk(BindPrefix(params, args, n).value[key], m)
    decreases n
  {
    if n > 0 {
      BindPrefixOk(params, args, n - 1, m);
    }
  }

  lemma ExtendEnvOk(store: Store, params: seq<Value>, args: seq<Value>, parent: nat)
    requires StoreOk(store) && AllOk(args, |store|) && ExtendEnv(store, params, args, parent).Some?
    ensures StoreOk(ExtendEnv(store, params, args, parent).value.0)
  {
    var (s, f) := ExtendEnv(store, params, args, parent).value;
    AllOkGrows(args, |store|, |s|);
    BindPrefixOk(params, args, |params|, |s|);
    forall g, key | 0 <= g < |s| && key in s[g].bindings ensures ValueOk(s[g].bindings[key], |s|) {
      if g < |store| {
        assert s[g] == store[g];
        ValueOkGrows(store[g].bindings[key], |store|, |s|);
      }
    }
  }

  // ---- one step keeps every id valid ----

  lemma ApplyOk(store: Store, proc: Value, args: seq<Value>, k: Cont)
    requires StoreOk(store) && ValueOk(proc, |store|) && AllOk(args, |store|) && ContOk(k, |store|)
    requires Apply(store, proc, args, k).Some?
    ensures StateOk(Apply(store, proc, args, k).value)
  {
    var p := if proc.Cwcc? then args[0] else proc;
    var a := if proc.Cwcc? then [ContV(k)] else args;
    if !(proc.Cwcc? && args[0].Cwcc?) {
      assert Apply(store, proc, args, k) == ApplyProc(store, p, a, k);
      assert AllOk(a, |store|);
      if p.Lambda? {
        var (s, f) := ExtendEnv(store, p.params, a, p.env).value;
        ExtendEnvOk(store, p.params, a, p.env);
        ValueOkGrows(p.body, |store|, |s|);
        ContOkGrows(k, |store|, |s|);
      } else if p.Prim? {
        var r := ApplyPrim(p.op, a).value;
        assert r.Num? || r.Bool?;
      }
    }
  }

  lemma EvalLambdaOk(store: Store, e: Value, env: nat, k: Cont)
    requires e.Pair? && StoreOk(store) && ValueOk(e, |store|) && env < |store| && ContOk(k, |store|)
    requires EvalLambda(store, e, env, k).Some?
    ensures StateOk(EvalLambda(store, e, env, k).value)
  {
    var n := |store|;
    var ps := Second(e).value;
    assert ValueOk(ps, n) by {
      NthOk(e, 1, n);
    }
    var params := ListToVector(ps).value;
    assert AllOk(params, n) by {
      CollectFromOk(ps, [], n);
    }
    var forms := e.cdr.cdr;
    var body := if Length(forms) == Some(1) then Car(forms).value else Cons(BeginSym, forms);
    assert ValueOk(body, n) by {
      assert ValueOk(forms, n);
    }
    assert EvalLambda(store, e, env, k).value == State(ApplyK(k, Lambda(params, body, env)), store);
  }

  lemma EvalTrampOk(store: Store, e: Value, env: nat, k: Cont)
    requires StoreOk(store) && ValueOk(e, |store|) && env < |store| && ContOk(k, |store|)
    requires EvalTramp(store, e, env, k).Some?
    ensures StateOk(EvalTramp(store, e, env, k).value)
  {
    var n := |store|;
    match e
    case Sym(name) =>
      var f := FindFrame(store, env, name).value;
      assert ValueOk(store[f].bindings[name], n);
    case Pair(first, rest) =>
      if first == LambdaSym {
        EvalLambdaOk(store, e, env, k);
      } else if first in {QuoteSym, DefineSym, SetSym, IfSym} {
        SpecialFormOk(store, e, env, k);
      }
    case _ =>
  }

  /** `quote`, `define`, `set!` and `if` only take their form apart. */
  lemma SpecialFormOk(store: Store, e: Value, env: nat, k: Cont)
    requires StoreOk(store) && ValueOk(e, |store|) && env < |store| && ContOk(k, |store|)
    requires e.Pair? && e.car in {QuoteSym, DefineSym, SetSym, IfSym}
    requires EvalTramp(store, e, env, k).Some?
    ensures StateOk(EvalTramp(store, e, env, k).value)
  {
    var n := |store|;
    NthOk(e, 1, n);
    if e.car != QuoteSym {
      NthOk(e, 2, n);
      if Nth(e, 3).Some? {
        NthOk(e, 3, n);
      }
    }
  }

  lemma ApplyContOk(store: Store, k: Cont, v: Value)
    requires StoreOk(store) && ContOk(k, |store|) && ValueOk(v, |store|)
    requires ApplyCont(store, k, v).Some?
    ensures StateOk(ApplyCont(store, k, v).value)
  {
    match k
    case Land =>
    case DefineK(t, env, next) =>
      DefineInOk(store, env, NameKey(t).value, v);
    case SetK(t, env, next) =>
      AssignOk(store, env, NameKey(t).value, v);
    case IfK(_, _, _, _) =>
    case BeginRestK(_, _, _) =>
    case CombRestK(argv, rest, env, next) =>
      assert AllOk(AppendArg(argv, v), |store|);
    case CombApplyK(argv, env, next) =>
      if |argv| == 0 {
        ApplyOk(store, v, [], next);
      } else {
        assert AllOk(argv[1..] + [v], |store|);
        ApplyOk(store, argv[0], argv[1..] + [v], next);
      }
  }

  /** A step from a well-formed state reaches a well-formed state. */
  lemma StepKeepsStateOk(s: State)
    requires StateOk(s) && Step(s).Some?
    ensures StateOk(Step(s).value)
  {
    match s.b
    case Bounce(e, env, k) => EvalTrampOk(s.store, e, env, k);
    case ApplyK(k, v) => ApplyContOk(s.store, k, v);
  }

  /** In a well-formed state a `define` fails only for want of a name: the frame it binds in
      always exists. */
  lemma DefineFrameExists(s: State)
    requires StateOk(s) && s.b.ApplyK? && s.b.k.DefineK? && NameKey(s.b.k.target).Some?
    ensures Step(s).Some?
  {
  }

  /** However many steps a run takes from a well-formed state, it stays well-formed. */
  lemma {:induction false} StepsKeepStateOk(s: State, n: nat)
    requires StateOk(s) && Trampoline.Iterate(Step, s, n).Some?
    ensures StateOk(Trampoline.Iterate(Step, s, n).value)
  {
    forall c | StateOk(c) && Step(c).Some? ensures StateOk(Step(c).value) {
      StepKeepsStateOk(c);
    }
    Trampoline.IterateKeeps(Step, StateOk, s, n);
  }

  /** The top-level frame holds only builtins, which name no frame. */
  lemma InitialStoreOk()
    ensures StoreOk(InitialStore())
  {
  }

  // ---- scope is fixed when a frame is made ----

  /** `s1` is `s0` with frames possibly added and bindings possibly changed, but no frame
      removed and no parent link changed. */
  predicate Grows(s0: Store, s1: Store) {
    |s1| >= |s0| && forall i :: 0 <= i < |s0| ==> s1[i].parent == s0[i].parent
  }

  lemma StepGrowsStore(s: State)
    requires Step(s).Some?
    ensures Grows(s.store, Step(s).value.store)
  {
    match s.b
    case Bounce(e, env, k) =>
    case ApplyK(k, v) =>
      match k
      case CombApplyK(argv, env, next) =>
        var p := if |argv| == 0 then v else argv[0];
        var a := if |argv| == 0 then [] else argv[1..] + [v];
        var q := if p.Cwcc? then a[0] else p;
        if q.Lambda? && !(p.Cwcc? && q.Cwcc?) {
          var aa := if p.Cwcc? then [ContV(next)] else a;
          var (st, f) := ExtendEnv(s.store, q.params, aa, q.env).value;
          assert st[..|s.store|] == s.store;
          forall i | 0 <= i < |s.store| ensures st[i].parent == s.store[i].parent {
            assert st[i] == st[..|s.store|][i];
          }
        }
      case _ =>
  }

  /** The ancestors of an existing frame are the same in any store that grew from it. */
  lemma {:induction false} ChainStable(s0: Store, s1: Store, env: nat)
    requires Grows(s0, s1) && env < |s0|
    ensures Chain(s1, env) == Chain(s0, env)
    decreases env
  {
    match s0[env].parent
    case None =>
    case Some(p) =>
      ChainStable(s0, s1, p);
  }

  /** Every environment keeps its ancestors through any number of steps. */
  lemma {:induction false} StepsKeepAncestry(s: State, n: nat, env: nat)
    requires Trampoline.Iterate(Step, s, n).Some? && env < |s.store|
    ensures |Trampoline.Iterate(Step, s, n).value.store| >= |s.store|
    ensures Chain(Trampoline.Iterate(Step, s, n).value.store, env) == Chain(s.store, env)
  {
    var inv := (c: State) => env < |s.store| <= |c.store| && Chain(c.store, env) == Chain(s.store, env);
    forall c | inv(c) && Step(c).Some? ensures inv(Step(c).value) {
      StepGrowsStore(c);
      ChainStable(c.store, Step(c).value.store, env);
    }
    Trampoline.IterateKeeps(Step, inv, s, n);
  }
}
