/** The arithmetic builtins of public/scripts/nconc.js: `_plus`, `_minus`, `_mult`, `_equal`.
    Each is `_.reduce` over its arguments; the contracts compare that left fold with plain
    sums and products defined independently. */
module Primitives {
  import opened Wrappers
  import opened Values

  predicate AllNumbers(args: seq<Value>) {
    forall i :: 0 <= i < |args| ==> args[i].Num?
  }

  function Nums(args: seq<Value>): (xs: seq<int>)
    requires AllNumbers(args)
    ensures |xs| == |args|
    ensures forall i :: 0 <= i < |args| ==> args[i] == Num(xs[i])
  {
    seq(|args|, i requires 0 <= i < |args| => args[i].n)
  }

  // ---- reference definitions ----

  function Sum(xs: seq<int>): int {
    if |xs| == 0 then 0 else Sum(xs[..|xs| - 1]) + xs[|xs| - 1]
  }

  function Product(xs: seq<int>): int {
    if |xs| == 0 then 1 else Product(xs[..|xs| - 1]) * xs[|xs| - 1]
  }

  // ---- `_.reduce` ----

  function FoldLeft(f: (int, int) -> int, memo: int, xs: seq<int>): int
    decreases |xs|
  {
    if |xs| == 0 then memo else FoldLeft(f, f(memo, xs[0]), xs[1..])
  }

  function Add(a: int, b: int): int { a + b }
  function Sub(a: int, b: int): int { a - b }
  function Mul(a: int, b: int): int { a * b }

  lemma {:induction false} SumCons(x: int, xs: seq<int>)
    ensures Sum([x] + xs) == x + Sum(xs)
    decreases |xs|
  {
    if |xs| > 0 {
      var ys := [x] + xs;
      assert ys[..|ys| - 1] == [x] + xs[..|xs| - 1];
      SumCons(x, xs[..|xs| - 1]);
    }
  }

  lemma {:induction false} ProductCons(x: int, xs: seq<int>)
    ensures Product([x] + xs) == x * Product(xs)
    decreases |xs|
  {
    if |xs| > 0 {
      var ys := [x] + xs;
      assert ys[..|ys| - 1] == [x] + xs[..|xs| - 1];
      ProductCons(x, xs[..|xs| - 1]);
    }
  }

  lemma {:induction false} FoldAddIsSum(memo: int, xs: seq<int>)
    ensures FoldLeft(Add, memo, xs) == memo + Sum(xs)
    decreases |xs|
  {
    if |xs| > 0 {
      assert xs == [xs[0]] + xs[1..];
      SumCons(xs[0], xs[1..]);
      FoldAddIsSum(memo + xs[0], xs[1..]);
    }
  }

  lemma {:induction false} FoldSubIsMinusSum(memo: int, xs: seq<int>)
    ensures FoldLeft(Sub, memo, xs) == memo - Sum(xs)
    decreases |xs|
  {
    if |xs| > 0 {
      assert xs == [xs[0]] + xs[1..];
      SumCons(xs[0], xs[1..]);
      FoldSubIsMinusSum(memo - xs[0], xs[1..]);
    }
  }

  lemma {:induction false} FoldMulIsProduct(memo: int, xs: seq<int>)
    ensures FoldLeft(Mul, memo, xs) == memo * Product(xs)
    decreases |xs|
  {
    if |xs| > 0 {
      var p := Product(xs[1..]);
      assert xs == [xs[0]] + xs[1..];
      ProductCons(xs[0], xs[1..]);
      FoldMulIsProduct(memo * xs[0], xs[1..]);
      assert FoldLeft(Mul, memo, xs) == (memo * xs[0]) * p;
      assert (memo * xs[0]) * p == memo * (xs[0] * p);
    }
  }

  /** Reducing with `+` from `memo` adds the sum; with `-`, subtracts it; with `*`, multiplies
      by the product. */
  lemma FoldAgreesWithReference(memo: int, xs: seq<int>)
    ensures FoldLeft(Add, memo, xs) == memo + Sum(xs)
    ensures FoldLeft(Sub, memo, xs) == memo - Sum(xs)
    ensures FoldLeft(Mul, memo, xs) == memo * Product(xs)
  {
    FoldAddIsSum(memo, xs);
    FoldSubIsMinusSum(memo, xs);
    FoldMulIsProduct(memo, xs);
  }

  // ---- the builtins ----

  /** `_plus`: the sum of its arguments, 0 for none. */
  function PlusOf(args: seq<Value>): (r: Option<Value>)
    ensures r.Some? <==> AllNumbers(args)
    ensures r.Some? ==> r.value == Num(Sum(Nums(args)))
  {
    if AllNumbers(args) then
      FoldAgreesWithReference(0, Nums(args));
      Some(Num(FoldLeft(Add, 0, Nums(args))))
    else None
  }

  /** `_mult`: the product of its arguments, 1 for none. */
  function TimesOf(args: seq<Value>): (r: Option<Value>)
    ensures r.Some? <==> AllNumbers(args)
    ensures r.Some? ==> r.value == Num(Product(Nums(args)))
  {
    if AllNumbers(args) then
      FoldAgreesWithReference(1, Nums(args));
      Some(Num(FoldLeft(Mul, 1, Nums(args))))
    else None
  }

  /** `_minus`: negation of a single argument, otherwise the first minus all the others;
      no arguments is an error. */
  function MinusOf(args: seq<Value>): (r: Option<Value>)
    ensures r.Some? <==> |args| >= 1 && AllNumbers(args)
    ensures r.Some? && |args| == 1 ==> r.value == Num(-args[0].n)
    ensures r.Some? && |args| >= 2 ==> r.value == Num(args[0].n - Sum(Nums(args[1..])))
  {
    if |args| < 1 || !AllNumbers(args) then None
    else if |args| == 1 then Some(Num(-args[0].n))
    else
      FoldAgreesWithReference(args[0].n, Nums(args[1..]));
      Some(Num(FoldLeft(Sub, args[0].n, Nums(args[1..]))))
  }

  /** `_equal`: at least two arguments, all numbers; true iff every one equals the first, which
      is to say iff all are pairwise equal. */
  function NumEqualOf(args: seq<Value>): (r: Option<Value>)
    ensures r.Some? <==> |args| >= 2 && AllNumbers(args)
    ensures r.Some? ==> r.value.Bool?
    ensures r.Some? ==> (r.value.b <==> forall i, j :: 0 <= i < |args| && 0 <= j < |args| ==> args[i] == args[j])
  {
    if |args| < 2 || !AllNumbers(args) then None
    else Some(Bool(forall i :: 1 <= i < |args| ==> args[0].n == args[i].n))
  }

  /** A primitive applied to its argument vector (`proc.apply(null, argv)` in `_apply`). */
  function ApplyPrim(op: PrimOp, args: seq<Value>): Option<Value> {
    match op
    case Plus => PlusOf(args)
    case Minus => MinusOf(args)
    case Times => TimesOf(args)
    case NumEqual => NumEqualOf(args)
  }
}
