/** The runtime values of public/scripts/nconc.js and the interpreter's continuations.

    JS tags its objects with private tag objects (`_symbol_tag`, `_pair_tag`, `_box_tag`) and
    marks procedures with `is_lambda`, `is_primitive_cwcc` and `is_continuation`; here each kind
    is a constructor. Numbers are mathematical integers. A symbol is represented by its
    (lower-case) name: the intern table makes two symbols identical exactly when their names
    agree, see `Symbols.IdenticalIffSameLowerCase`.

    The continuations are the JS closures defunctionalised; they live in this module because a
    captured continuation is a value (`ContV`). */
module Values {
  import opened Wrappers
  import Symbols

  /** The host functions bound at top level (nconc.js:594-598). */
  datatype PrimOp = Times | Plus | Minus | NumEqual

  datatype Value =
    | Num(n: int)
    | Str(s: string)
    | Bool(b: bool)
    | EmptyList
    | Sym(name: string)
    | Pair(car: Value, cdr: Value)
    | Box(contents: Value)
    | Vector(elems: seq<Value>)
    | Mapping(entries: map<string, Value>)
    | Lambda(params: seq<Value>, body: Value, env: nat)
    | Prim(op: PrimOp)
    | Cwcc
    | ContV(k: Cont)
    | Null
    | Undefined

  /** One constructor per continuation closure of the evaluator. */
  datatype Cont =
      /** `_land` */
    | Land
      /** `k_prime` of `_evalDefine`: bind `target` in frame `env`, then continue with `next` */
    | DefineK(target: Value, env: nat, next: Cont)
      /** `k_prime` of `_evalAssignment`: mutate the visible binding of `target` */
    | SetK(target: Value, env: nat, next: Cont)
      /** `k_prime` of `_evalIf` */
    | IfK(thenForm: Value, elseForm: Value, env: nat, next: Cont)
      /** `_makeBeginRestK`: the forms of a `begin` still to evaluate */
    | BeginRestK(rest: Value, env: nat, next: Cont)
      /** `_makeCombRestK`: values so far (operator first) and operand forms still to evaluate */
    | CombRestK(argv: seq<Value>, rest: Value, env: nat, next: Cont)
      /** `_makeCombApplyK`: the last operand's value completes the argument vector */
    | CombApplyK(argv: seq<Value>, env: nat, next: Cont)

  /** `_isSymbol` */
  predicate IsSymbol(v: Value) {
    v.Sym?
  }

  /** `_symbolToString`: the stored name; anything but a symbol is an error. */
  function SymbolToString(v: Value): (r: Option<string>)
    ensures r.Some? <==> IsSymbol(v)
    ensures r.Some? ==> Sym(r.value) == v
  {
    if v.Sym? then Some(v.name) else None
  }

  /** The value the reader makes of an interned symbol carries its name. Two such values are
      equal exactly when the intern table handed out the identical symbol object, so comparing
      names is the evaluator's `===` on symbols. */
  lemma SymbolValueIdentity(t: Symbols.Table, s: string, u: string)
    requires Symbols.TableOk(t)
    ensures var (t1, a) := Symbols.StringToSymbol(t, s);
            var (t2, b) := Symbols.StringToSymbol(t1, u);
            Sym(a.name) == Sym(b.name) <==> a.id == b.id
  {
    Symbols.IdenticalIffSameLowerCase(t, s, u);
  }

  /** `schemeBox` */
  function MakeBox(x: Value): (r: Value)
    ensures IsBox(r)
  {
    Box(x)
  }

  /** `isSchemeBox` */
  predicate IsBox(v: Value) {
    v.Box?
  }

  /** `schemeUnbox`: the contents; anything but a box is an error. */
  function Unbox(v: Value): (r: Option<Value>)
    ensures r.Some? <==> IsBox(v)
    ensures r.Some? ==> Box(r.value) == v
  {
    if v.Box? then Some(v.contents) else None
  }

  /** Unboxing a fresh box gives back what was boxed, and every box is a boxed value. */
  lemma BoxRoundTrip(x: Value, b: Value)
    ensures Unbox(MakeBox(x)) == Some(x)
    ensures Unbox(b).Some? ==> MakeBox(Unbox(b).value) == b
  {
  }

  /** `isSchemeLambda` */
  predicate IsLambda(v: Value) {
    v.Lambda?
  }

  /** `_isProcedure`: host functions (primitives and marked continuations), lambdas and the
      call/cc primitive. */
  predicate IsProcedure(v: Value) {
    v.Prim? || v.ContV? || v.Lambda? || v.Cwcc?
  }

  /** The property key `x._name` that the evaluator uses for a binding target: a symbol's name,
      and for any other object the missing property, which JS turns into the key "undefined";
      reading a property of `null` or `undefined` throws. */
  function NameKey(v: Value): (r: Option<string>)
    ensures v.Sym? ==> r == Some(v.name)
    ensures r.None? <==> (v.Null? || v.Undefined?)
    ensures !v.Sym? && !v.Null? && !v.Undefined? ==> r == Some("undefined")
  {
    match v
    case Sym(name) => Some(name)
    case Null => None
    case Undefined => None
    case _ => Some("undefined")
  }

  /** Binding targets name the same property exactly when they are the same symbol, except
      that every target other than a symbol, `null` or `undefined` names the property of the
      symbol `undefined`. */
  lemma NameKeyCollisions(a: Value, b: Value)
    requires NameKey(a).Some? && NameKey(b).Some?
    ensures a.Sym? && b.Sym? ==> (NameKey(a) == NameKey(b) <==> a == b)
    ensures !a.Sym? ==> NameKey(a) == NameKey(Sym("undefined"))
  {
  }
}
