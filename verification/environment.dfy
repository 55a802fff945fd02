/** Lexical environments of public/scripts/nconc.js: `_extendEnv`, `_bind`, `_findBinding`, the
    frame mutation done by `define` and `set!`, and the top-level frame with the builtins.

    JS frames are objects holding one binding cell per name plus a `_parent` link. Here all
    frames live in one store, a sequence indexed by frame id, and every parent link points to a
    smaller id, so the parent chain can never cycle. A binding cell belongs to exactly one frame,
    so mutating the cell is updating that frame's map entry. */
module Environment {
  import opened Wrappers
  import opened Values

  datatype Frame = Frame(bindings: map<string, Value>, parent: Option<nat>)

  predicate ParentsPrecede(frames: seq<Frame>) {
    forall i :: 0 <= i < |frames| && frames[i].parent.Some? ==> frames[i].parent.value < i
  }

  type Store = frames: seq<Frame> | ParentsPrecede(frames) witness []

  /** The frame ids met walking from `env` through `_parent` links to a frame without one. */
  function Chain(store: Store, env: nat): (c: seq<nat>)
    ensures forall i :: 0 <= i < |c| ==> c[i] < |store|
    ensures env < |store| ==> |c| > 0 && c[0] == env
    ensures env >= |store| ==> c == []
    ensures forall i, j :: 0 <= i < j < |c| ==> c[j] < c[i]
    ensures |c| > 0 ==> store[c[|c| - 1]].parent.None?
    decreases env
  {
    if env >= |store| then []
    else match store[env].parent
      case None => [env]
      case Some(p) => [env] + Chain(store, p)
  }

  predicate BoundIn(store: Store, f: nat, name: string) {
    f < |store| && name in store[f].bindings
  }

  /** `_findBinding`: the frame holding the innermost binding of `name` visible from `env`. */
  function FindFrame(store: Store, env: nat, name: string): (r: Option<nat>)
    ensures r.Some? ==> BoundIn(store, r.value, name)
    decreases env
  {
    if env >= |store| then None
    else if name in store[env].bindings then Some(env)
    else match store[env].parent
      case None => None
      case Some(p) => FindFrame(store, p, name)
  }

  /** No frame of the chain `c` binds `name`. */
  predicate UnboundOn(store: Store, c: seq<nat>, name: string) {
    forall i :: 0 <= i < |c| ==> !BoundIn(store, c[i], name)
  }

  /** `f` is the first frame of the chain `c` that binds `name`. */
  predicate FirstBinderOn(store: Store, c: seq<nat>, f: nat, name: string) {
    exists j :: 0 <= j < |c| && c[j] == f && BoundIn(store, f, name) && UnboundOn(store, c[..j], name)
  }

  lemma UnboundOnCons(store: Store, x: nat, c: seq<nat>, name: string)
    ensures UnboundOn(store, [x] + c, name) <==> !BoundIn(store, x, name) && UnboundOn(store, c, name)
  {
    var xc := [x] + c;
    if !BoundIn(store, x, name) && UnboundOn(store, c, name) {
      forall i | 0 <= i < |xc|
        ensures !BoundIn(store, xc[i], name)
      {
        if i > 0 {
          assert xc[i] == c[i - 1];
        }
      }
    }
    if UnboundOn(store, xc, name) {
      assert xc[0] == x;
      forall i | 0 <= i < |c|
        ensures !BoundIn(store, c[i], name)
      {
        assert xc[i + 1] == c[i];
      }
    }
  }

  lemma FirstBinderOnCons(store: Store, x: nat, c: seq<nat>, f: nat, name: string)
    requires !BoundIn(store, x, name) && FirstBinderOn(store, c, f, name)
    ensures FirstBinderOn(store, [x] + c, f, name)
  {
    var j :| 0 <= j < |c| && c[j] == f && BoundIn(store, f, name) && UnboundOn(store, c[..j], name);
    var xc := [x] + c;
    assert xc[j + 1] == f;
    assert xc[..j + 1] == [x] + c[..j];
    UnboundOnCons(store, x, c[..j], name);
  }

  /** `_findBinding` answers "unbound" only if no frame on the chain up to the parentless one
      binds the name, and otherwise returns the first frame on the chain that does: the
      innermost binding. */
  lemma {:induction false} FindFrameIsInnermost(store: Store, env: nat, name: string)
    ensures FindFrame(store, env, name).None? <==> UnboundOn(store, Chain(store, env), name)
    ensures FindFrame(store, env, name).Some? ==> FirstBinderOn(store, Chain(store, env), FindFrame(store, env, name).value, name)
    decreases env
  {
    if env >= |store| {
    } else if name in store[env].bindings {
      var c := Chain(store, env);
      assert c[0] == env && c[..0] == [];
      assert FirstBinderOn(store, c, env, name);
    } else if store[env].parent.None? {
      assert Chain(store, env) == [env];
      UnboundOnCons(store, env, [], name);
    } else {
      var p := store[env].parent.value;
      FindFrameIsInnermost(store, p, name);
      assert Chain(store, env) == [env] + Chain(store, p);
      assert FindFrame(store, env, name) == FindFrame(store, p, name);
      UnboundOnCons(store, env, Chain(store, p), name);
      if FindFrame(store, p, name).Some? {
        FirstBinderOnCons(store, env, Chain(store, p), FindFrame(store, p, name).value, name);
      }
    }
  }

  /** The value `_evalSymbol` reads from the binding `_findBinding` returns. */
  function Lookup(store: Store, env: nat, name: string): Option<Value> {
    match FindFrame(store, env, name)
    case None => None
    case Some(f) => Some(store[f].bindings[name])
  }

  /** `env[sym._name] = _bind(sym, val)` (`define`, and the builtins at top level): inserts or
      overwrites in that exact frame and nowhere else; the binding is visible from it at once. */
  function DefineIn(store: Store, env: nat, name: string, v: Value): (r: Option<Store>)
    ensures r.Some? <==> env < |store|
    ensures r.Some? ==> |r.value| == |store|
    ensures r.Some? ==> r.value[env].bindings == store[env].bindings[name := v]
    ensures r.Some? ==> r.value[env].parent == store[env].parent
    ensures r.Some? ==> forall i :: 0 <= i < |store| && i != env ==> r.value[i] == store[i]
    ensures r.Some? ==> Lookup(r.value, env, name) == Some(v)
  {
    if env < |store| then
      var s: Store := store[env := Frame(store[env].bindings[name := v], store[env].parent)];
      Some(s)
    else None
  }

  /** Updating the value of a name already bound in a frame changes no lookup of any other name
      and leaves every chain and every innermost binding frame where it was. */
  lemma {:induction false} FindFrameAfterRebind(store: Store, s: Store, f: nat, name: string, v: Value, env: nat, other: string)
    requires BoundIn(store, f, name)
    requires s == store[f := Frame(store[f].bindings[name := v], store[f].parent)]
    ensures Chain(s, env) == Chain(store, env)
    ensures FindFrame(s, env, other) == FindFrame(store, env, other)
    decreases env
  {
    if env < |store| {
      match store[env].parent
      case None =>
      case Some(p) =>
        FindFrameAfterRebind(store, s, f, name, v, p, other);
    }
  }

  /** The cell update of `_evalAssignment`: `name` must be bound somewhere on the chain; only
      its innermost binding changes, so every shadowed outer binding and every other frame is
      left as it was. */
  function Assign(store: Store, env: nat, name: string, v: Value): (r: Option<Store>)
    ensures r.Some? <==> Lookup(store, env, name).Some?
    ensures r.Some? ==> |r.value| == |store|
    ensures r.Some? ==> var f := FindFrame(store, env, name).value;
                        && r.value[f].bindings == store[f].bindings[name := v]
                        && r.value[f].parent == store[f].parent
                        && forall i :: 0 <= i < |store| && i != f ==> r.value[i] == store[i]
  {
    match FindFrame(store, env, name)
    case None => None
    case Some(f) =>
      var s: Store := store[f := Frame(store[f].bindings[name := v], store[f].parent)];
      Some(s)
  }

  /** After `set!` the name reads as the new value from where it was assigned, and no other
      name reads differently from there. */
  lemma AssignIsVisible(store: Store, env: nat, name: string, v: Value, other: string)
    requires Assign(store, env, name, v).Some?
    ensures Lookup(Assign(store, env, name, v).value, env, name) == Some(v)
    ensures other != name ==> Lookup(Assign(store, env, name, v).value, env, other) == Lookup(store, env, other)
  {
    var f := FindFrame(store, env, name).value;
    var s := Assign(store, env, name, v).value;
    FindFrameAfterRebind(store, s, f, name, v, env, name);
    FindFrameAfterRebind(store, s, f, name, v, env, other);
  }

  /** What `_.zip` pairs with parameter `i` when the arguments run out: `undefined`. */
  function ArgAt(args: seq<Value>, i: nat): Value {
    if i < |args| then args[i] else Undefined
  }

  predicate Named(params: seq<Value>) {
    forall j :: 0 <= j < |params| ==> NameKey(params[j]).Some?
  }

  /** No parameter after `j` and before `n` carries the name of parameter `j`, so the binding
      made for `j` is the one that stays. */
  predicate LastWithName(params: seq<Value>, j: nat, n: nat)
    requires j < n <= |params|
  {
    forall m :: j < m < n ==> NameKey(params[m]) != NameKey(params[j])
  }

  /** The bindings the `_.each` loop of `_extendEnv` has made after the first `n` parameters;
      it fails as soon as a parameter has no name. */
  function BindPrefix(params: seq<Value>, args: seq<Value>, n: nat): (r: Option<map<string, Value>>)
    requires n <= |params|
    ensures r.Some? <==> forall j :: 0 <= j < n ==> NameKey(params[j]).Some?
    decreases n
  {
    if n == 0 then Some(map[])
    else match BindPrefix(params, args, n - 1)
      case None => None
      case Some(b) =>
        match NameKey(params[n - 1])
        case None => None
        case Some(key) => Some(b[key := ArgAt(args, n - 1)])
  }

  /** The names bound after `n` parameters are exactly the names among them. */
  lemma {:induction false} BindPrefixKeys(params: seq<Value>, args: seq<Value>, n: nat)
    requires n <= |params|
    requires BindPrefix(params, args, n).Some?
    ensures var b := BindPrefix(params, args, n).value;
            forall key :: key in b <==> exists j :: 0 <= j < n && NameKey(params[j]) == Some(key)
    decreases n
  {
    if n > 0 {
      BindPrefixKeys(params, args, n - 1);
      var b0 := BindPrefix(params, args, n - 1).value;
      var key := NameKey(params[n - 1]).value;
      var b := BindPrefix(params, args, n).value;
      assert b == b0[key := ArgAt(args, n - 1)];
      forall k | k in b
        ensures exists j :: 0 <= j < n && NameKey(params[j]) == Some(k)
      {
        if k != key {
          assert k in b0;
          var j :| 0 <= j < n - 1 && NameKey(params[j]) == Some(k);
          assert 0 <= j < n && NameKey(params[j]) == Some(k);
        } else {
          assert NameKey(params[n - 1]) == Some(k);
        }
      }
      forall k | exists j :: 0 <= j < n && NameKey(params[j]) == Some(k)
        ensures k in b
      {
        var j :| 0 <= j < n && NameKey(params[j]) == Some(k);
        if j < n - 1 {
          assert k in b0;
        }
      }
    }
  }

  /** Each name is bound to the argument at the position of the last parameter carrying it. */
  lemma {:induction false} BindPrefixValues(params: seq<Value>, args: seq<Value>, n: nat)
    requires n <= |params|
    requires BindPrefix(params, args, n).Some?
    ensures var b := BindPrefix(params, args, n).value;
            forall j :: 0 <= j < n && LastWithName(params, j, n) ==> NameKey(params[j]).value in b && b[NameKey(params[j]).value] == ArgAt(args, j)
    decreases n
  {
    if n > 0 {
      BindPrefixValues(params, args, n - 1);
      var b0 := BindPrefix(params, args, n - 1).value;
      var key := NameKey(params[n - 1]).value;
      var b := BindPrefix(params, args, n).value;
      assert b == b0[key := ArgAt(args, n - 1)];
      forall j | 0 <= j < n && LastWithName(params, j, n)
        ensures NameKey(params[j]).value in b && b[NameKey(params[j]).value] == ArgAt(args, j)
      {
        if j < n - 1 {
          assert NameKey(params[n - 1]) != NameKey(params[j]);
          assert LastWithName(params, j, n - 1);
        }
      }
    }
  }

  /** Positional binding: the names bound are exactly the parameters' names, and each name is
      bound to the argument at the position of the last parameter carrying it. */
  lemma BindPrefixIsPositional(params: seq<Value>, args: seq<Value>, n: nat)
    requires n <= |params|
    requires BindPrefix(params, args, n).Some?
    ensures var b := BindPrefix(params, args, n).value;
            forall key :: key in b <==> exists j :: 0 <= j < n && NameKey(params[j]) == Some(key)
    ensures var b := BindPrefix(params, args, n).value;
            forall j :: 0 <= j < n && LastWithName(params, j, n) ==> b[NameKey(params[j]).value] == ArgAt(args, j)
  {
    BindPrefixKeys(params, args, n);
    BindPrefixValues(params, args, n);
  }

  /** `_extendEnv`: a fresh frame whose parent is `parent`, with the parameters bound
      positionally to the arguments (a later duplicate parameter wins, missing arguments are
      `undefined`, a surplus argument throws because `_.zip` pairs it with an `undefined`
      parameter); every existing frame is left untouched. */
  function ExtendEnv(store: Store, params: seq<Value>, args: seq<Value>, parent: nat): (r: Option<(Store, nat)>)
    ensures r.Some? <==> |args| <= |params| && Named(params) && parent < |store|
    ensures r.Some? ==> var (s, f) := r.value;
                        && f == |store| && |s| == |store| + 1
                        && s[..|store|] == store
                        && s[f].parent == Some(parent)
                        && (forall key :: key in s[f].bindings <==> exists j :: 0 <= j < |params| && NameKey(params[j]) == Some(key))
                        && (forall j :: 0 <= j < |params| && LastWithName(params, j, |params|) ==>
                              s[f].bindings[NameKey(params[j]).value] == ArgAt(args, j))
  {
    if |args| > |params| || parent >= |store| then None
    else match BindPrefix(params, args, |params|)
      case None => None
      case Some(b) =>
        BindPrefixIsPositional(params, args, |params|);
        var s: Store := store + [Frame(b, Some(parent))];
        Some((s, |store|))
  }

  /** Frames added later are invisible from an existing frame: in a store that only grew, a
      lookup from an old frame meets the same frames and finds the same binding. */
  lemma {:induction false} FindFrameInGrownStore(store: Store, s: Store, env: nat, name: string)
    requires |s| >= |store| && s[..|store|] == store && env < |store|
    ensures FindFrame(s, env, name) == FindFrame(store, env, name)
    ensures Lookup(s, env, name) == Lookup(store, env, name)
    decreases env
  {
    assert s[env] == store[env];
    match store[env].parent
    case None =>
    case Some(p) =>
      FindFrameInGrownStore(store, s, p, name);
  }

  /** Reading a name from a frame made by `ExtendEnv`: a parameter's name reads as its argument
      (the last such parameter's), and any other name reads as it does from the parent. */
  lemma ExtendEnvLookup(store: Store, params: seq<Value>, args: seq<Value>, parent: nat, x: string)
    requires ExtendEnv(store, params, args, parent).Some?
    ensures var (s, f) := ExtendEnv(store, params, args, parent).value;
            forall j :: 0 <= j < |params| && LastWithName(params, j, |params|) && NameKey(params[j]) == Some(x) ==>
              Lookup(s, f, x) == Some(ArgAt(args, j))
    ensures var (s, f) := ExtendEnv(store, params, args, parent).value;
            (forall j :: 0 <= j < |params| ==> NameKey(params[j]) != Some(x)) ==>
              Lookup(s, f, x) == Lookup(store, parent, x)
  {
    var (s, f) := ExtendEnv(store, params, args, parent).value;
    if x !in s[f].bindings {
      FindFrameInGrownStore(store, s, parent, x);
    }
  }

  /** The builtins `_define`d in the top-level frame (`_scheme_builtins`). */
  function Builtins(): map<string, Value> {
    map["*" := Prim(Times), "+" := Prim(Plus), "-" := Prim(Minus), "=" := Prim(NumEqual),
        "primitive-cwcc" := Cwcc, "null" := Null]
  }

  const TopLevel: nat := 0

  /** `_top_level` after start-up: one parentless frame holding the builtins. */
  function InitialStore(): (s: Store)
    ensures |s| == 1 && s[TopLevel].parent.None?
    ensures Lookup(s, TopLevel, "*") == Some(Prim(Times))
    ensures Lookup(s, TopLevel, "+") == Some(Prim(Plus))
    ensures Lookup(s, TopLevel, "-") == Some(Prim(Minus))
    ensures Lookup(s, TopLevel, "=") == Some(Prim(NumEqual))
    ensures Lookup(s, TopLevel, "primitive-cwcc") == Some(Cwcc)
    ensures Lookup(s, TopLevel, "null") == Some(Null)
    ensures forall name :: Lookup(s, TopLevel, name).Some? <==> name in {"*", "+", "-", "=", "primitive-cwcc", "null"}
    ensures Lookup(s, TopLevel, "x") == None
  {
    [Frame(Builtins(), None)]
  }
}
