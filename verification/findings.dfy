/** The argument vector of a combination as `_makeCombRestK` builds it with `argv.concat(val)`,
    against the evidently intended one-value-per-operand vector that the machine uses. */
module Findings {
  import opened Wrappers
  import opened Values
  import opened Environment
  import opened Evaluator

  /** The two appends differ on exactly the vector-valued operands. */
  lemma AsWrittenDiffersOnVectors(argv: seq<Value>, v: Value)
    ensures AppendArgAsWritten(argv, v) == AppendArg(argv, v) <==> !v.Vector?
  {
  }

  /** `((lambda (x y) x) [1 2] 3)`: as written, the vector operand is spliced into the argument
      vector, the lambda receives three arguments for two parameters and the application
      throws; with one value per operand, `x` is bound to the vector. */
  lemma VectorOperandIsSpliced()
    ensures var lam := Lambda([Sym("x"), Sym("y")], Sym("x"), TopLevel);
            var vec := Vector([Num(1), Num(2)]);
            var written := AppendArgAsWritten([lam], vec) + [Num(3)];
            var intended := AppendArg([lam], vec) + [Num(3)];
            && written == [lam, Num(1), Num(2), Num(3)]
            && Apply(InitialStore(), written[0], written[1..], Land).None?
            && intended == [lam, vec, Num(3)]
            && Apply(InitialStore(), intended[0], intended[1..], Land).Some?
            && Lookup(Apply(InitialStore(), intended[0], intended[1..], Land).value.store, 1, "x") == Some(vec)
  {
    var lam := Lambda([Sym("x"), Sym("y")], Sym("x"), TopLevel);
    var vec := Vector([Num(1), Num(2)]);
    var written := AppendArgAsWritten([lam], vec) + [Num(3)];
    var intended := AppendArg([lam], vec) + [Num(3)];
    assert written == [lam, Num(1), Num(2), Num(3)];
    assert Apply(InitialStore(), written[0], written[1..], Land).None? by {
      assert written[1..] == [Num(1), Num(2), Num(3)];
    }
    assert intended == [lam, vec, Num(3)];
    assert Apply(InitialStore(), intended[0], intended[1..], Land).Some?
           && Lookup(Apply(InitialStore(), intended[0], intended[1..], Land).value.store, 1, "x") == Some(vec) by {
      assert intended[1..] == [vec, Num(3)];
      assert LastWithName([Sym("x"), Sym("y")], 0, 2);
      ExtendEnvLookup(InitialStore(), [Sym("x"), Sym("y")], [vec, Num(3)], TopLevel, "x");
    }
  }
}
