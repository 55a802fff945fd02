/** The trampoline of public/scripts/nconc.js (`_trampoline`, `_bounce`, `_land`), for any kind
    of bouncer: `landed` says whether a bouncer is ready to land and with what value, `step`
    makes it bounce once (`None` when the bounce throws).

    A negative budget never reaches zero, so the JS loop may run forever; here every run also
    carries `fuel`, and `Unfinished` reports that the fuel ran out before anything else
    happened. The lemmas show the fuel never matters for a non-negative budget it covers. */
module Trampoline {
  import opened Wrappers

  /** How a run ends. `Thrown` keeps the bouncer whose bounce threw: a bouncer may carry
      state that earlier bounces changed (the evaluator's store), and that state outlives the
      throw. */
  datatype Outcome<B, V> =
    | Landed(value: V, last: B)
    | Suspended(pending: B)
    | Thrown(last: B)
    | Unfinished(pending: B)

  /** The bouncer after `n` bounces, or `None` if one of them throws. */
  function Iterate<B>(step: B -> Option<B>, b: B, n: nat): Option<B>
    decreases n
  {
    if n == 0 then Some(b)
    else match step(b)
      case None => None
      case Some(b') => Iterate(step, b', n - 1)
  }

  /** `_trampoline(bouncer, ticks)`: a landed bouncer returns its value whatever the budget; a
      pending bouncer is returned unchanged when the budget is zero; otherwise one bounce runs
      and the budget drops by one. A run suspends only after exactly `ticks` bounces, and a
      negative budget never suspends. */
  function Run<B, V>(landed: B -> Option<V>, step: B -> Option<B>, b: B, ticks: int, fuel: nat): (r: Outcome<B, V>)
    ensures landed(b).Some? ==> r == Landed(landed(b).value, b)
    ensures landed(b).None? && ticks == 0 ==> r == Suspended(b)
    ensures r.Landed? ==> landed(r.last) == Some(r.value)
    ensures r.Suspended? ==> 0 <= ticks && Iterate(step, b, ticks) == Some(r.pending) && landed(r.pending).None?
    ensures r.Thrown? ==> landed(r.last).None? && step(r.last).None?
    ensures r.Unfinished? ==> ticks < 0 || fuel < ticks
    ensures ticks < 0 ==> !r.Suspended?
    decreases fuel
  {
    if landed(b).Some? then Landed(landed(b).value, b)
    else if ticks == 0 then Suspended(b)
    else if fuel == 0 then Unfinished(b)
    else match step(b)
      case None => Thrown(b)
      case Some(b') => Run(landed, step, b', ticks - 1, fuel - 1)
  }

  /** A bounce that succeeds leaves one bounce fewer to do. */
  lemma IterateStep<B>(step: B -> Option<B>, b: B, b': B, n: nat)
    requires step(b) == Some(b') && n > 0
    ensures Iterate(step, b, n) == Iterate(step, b', n - 1)
  {
  }

  /** Bouncing `m` times and then `n` times is bouncing `m + n` times. */
  lemma {:induction false} IterateAdd<B>(step: B -> Option<B>, b: B, m: nat, n: nat)
    ensures Iterate(step, b, m + n) == (match Iterate(step, b, m) case None => None case Some(x) => Iterate(step, x, n))
    decreases m
  {
    if m > 0 {
      match step(b)
      case None =>
      case Some(b') =>
        IterateAdd(step, b', m - 1, n);
    }
  }

  /** A property every bounce keeps holds of every bouncer a run reaches. */
  lemma {:induction false} IterateKeeps<B>(step: B -> Option<B>, inv: B -> bool, b: B, n: nat)
    requires forall c :: inv(c) && step(c).Some? ==> inv(step(c).value)
    requires inv(b) && Iterate(step, b, n).Some?
    ensures inv(Iterate(step, b, n).value)
    decreases n
  {
    if n > 0 {
      IterateKeeps(step, inv, step(b).value, n - 1);
    }
  }

  /** `n` bounces, then one more. */
  lemma IterateThen<B>(step: B -> Option<B>, b: B, n: nat, c: B, d: B)
    requires Iterate(step, b, n) == Some(c) && step(c) == Some(d)
    ensures Iterate(step, b, n + 1) == Some(d)
  {
    IterateAdd(step, b, n, 1);
  }

  /** One bounce, then `n`, then one more. */
  lemma IterateThrough<B>(step: B -> Option<B>, b0: B, b1: B, b2: B, b3: B, n: nat)
    requires step(b0) == Some(b1) && Iterate(step, b1, n) == Some(b2) && step(b2) == Some(b3)
    ensures Iterate(step, b0, n + 2) == Some(b3)
  {
    IterateAdd(step, b1, n, 1);
  }

  /** One bounce, then `n`, then whatever the next bounce does. */
  lemma IterateAround<B>(step: B -> Option<B>, b0: B, b1: B, n: nat, b2: B)
    requires step(b0) == Some(b1) && Iterate(step, b1, n) == Some(b2)
    ensures Iterate(step, b0, n + 2) == step(b2)
  {
    IterateAdd(step, b1, n, 1);
    match step(b2)
    case None =>
    case Some(b3) =>
      assert Iterate(step, b2, 1) == Iterate(step, b3, 0);
  }

  /** `n` bounces to `b2`, one more to `b3`, and then whatever `m` bounces from `b3` give. */
  lemma IterateVia<B>(step: B -> Option<B>, b1: B, n: nat, b2: B, b3: B, m: nat)
    requires Iterate(step, b1, n) == Some(b2) && step(b2) == Some(b3)
    ensures Iterate(step, b1, n + 1 + m) == Iterate(step, b3, m)
  {
    IterateAdd(step, b1, n, 1 + m);
  }

  /** A run counts its bounces: whatever it lands on is reached after no more bounces than the
      fuel, nor than the budget when the budget is non-negative. */
  lemma {:induction false} LandsWithinBudget<B, V>(landed: B -> Option<V>, step: B -> Option<B>, b: B, ticks: int, fuel: nat)
    requires Run(landed, step, b, ticks, fuel).Landed?
    ensures exists i: nat :: i <= fuel && (ticks >= 0 ==> i <= ticks) && Iterate(step, b, i) == Some(Run(landed, step, b, ticks, fuel).last)
    decreases fuel
  {
    var r := Run(landed, step, b, ticks, fuel);
    if landed(b).Some? {
      assert Iterate(step, b, 0) == Some(r.last);
    } else {
      var b' := step(b).value;
      LandsWithinBudget(landed, step, b', ticks - 1, fuel - 1);
      var i: nat :| i <= fuel - 1 && (ticks - 1 >= 0 ==> i <= ticks - 1) && Iterate(step, b', i) == Some(r.last);
      assert Iterate(step, b, i + 1) == Some(r.last);
    }
  }

  /** A run throws only when a bounce throws: the bouncer it reports was reached within the
      fuel, and within the budget when the budget is non-negative, is not ready to land and
      fails to bounce. */
  lemma {:induction false} ThrowsWithinBudget<B, V>(landed: B -> Option<V>, step: B -> Option<B>, b: B, ticks: int, fuel: nat)
    requires Run(landed, step, b, ticks, fuel).Thrown?
    ensures exists i: nat :: i < fuel && (ticks >= 0 ==> i < ticks)
                             && Iterate(step, b, i) == Some(Run(landed, step, b, ticks, fuel).last)
    decreases fuel
  {
    var r := Run(landed, step, b, ticks, fuel);
    if step(b).None? {
      assert Iterate(step, b, 0) == Some(r.last);
    } else {
      var b' := step(b).value;
      ThrowsWithinBudget(landed, step, b', ticks - 1, fuel - 1);
      var i: nat :| i < fuel - 1 && (ticks - 1 >= 0 ==> i < ticks - 1) && Iterate(step, b', i) == Some(r.last);
      assert Iterate(step, b, i + 1) == Iterate(step, b', i);
    }
  }

  /** When bouncers that land never bounce, a run that can afford `n` bounces goes through the
      bouncer reached after them. */
  lemma {:induction false} RunAfterIterate<B, V>(landed: B -> Option<V>, step: B -> Option<B>, b: B, n: nat, x: B, ticks: int, fuel: nat)
    requires forall c :: landed(c).Some? ==> step(c).None?
    requires Iterate(step, b, n) == Some(x)
    requires ticks < 0 || ticks >= n
    requires fuel >= n
    ensures Run(landed, step, b, ticks, fuel) == Run(landed, step, x, ticks - n, fuel - n)
    decreases n
  {
    if n > 0 {
      var b' := step(b).value;
      RunAfterIterate(landed, step, b', n - 1, x, ticks - 1, fuel - 1);
    }
  }

  /** Conversely, when bouncers that land never bounce, a bounce that fails within the fuel and
      the budget makes the run throw, reporting that bouncer. */
  lemma ThrowsWhenBounceFails<B, V>(landed: B -> Option<V>, step: B -> Option<B>, b: B, i: nat, x: B, ticks: int, fuel: nat)
    requires forall c :: landed(c).Some? ==> step(c).None?
    requires Iterate(step, b, i) == Some(x) && landed(x).None? && step(x).None?
    requires i < fuel && (ticks < 0 || i < ticks)
    ensures Run(landed, step, b, ticks, fuel) == Thrown(x)
  {
    RunAfterIterate(landed, step, b, i, x, ticks, fuel);
  }

  /** `resume(pending, ticks)`: continue a suspended run; anything else is final. */
  function Resume<B, V>(landed: B -> Option<V>, step: B -> Option<B>, o: Outcome<B, V>, ticks: nat): Outcome<B, V> {
    if o.Suspended? then Run(landed, step, o.pending, ticks, ticks) else o
  }

  /** Suspending after `m` bounces and resuming with `n` more is the same as one run with budget
      `m + n`: the suspension point is invisible to the computation. */
  lemma {:induction false} RunComposes<B, V>(landed: B -> Option<V>, step: B -> Option<B>, b: B, m: nat, n: nat)
    ensures Run(landed, step, b, m + n, m + n) == Resume(landed, step, Run(landed, step, b, m, m), n)
    decreases m
  {
    if landed(b).None? && m > 0 {
      match step(b)
      case None =>
      case Some(b') =>
        RunComposes(landed, step, b', m - 1, n);
    }
  }

  /** A non-negative budget bounds the run by itself: extra fuel changes nothing. */
  lemma {:induction false} FuelIrrelevant<B, V>(landed: B -> Option<V>, step: B -> Option<B>, b: B, ticks: nat, fuel: nat)
    requires ticks <= fuel
    ensures Run(landed, step, b, ticks, fuel) == Run(landed, step, b, ticks, ticks)
    ensures !Run(landed, step, b, ticks, fuel).Unfinished?
    decreases ticks
  {
    if landed(b).None? && ticks > 0 {
      match step(b)
      case None =>
      case Some(b') =>
        FuelIrrelevant(landed, step, b', ticks - 1, fuel - 1);
    }
  }

  /** A run with a negative budget (`schemeEval`'s default of -1) that finishes within `fuel`
      bounces ends exactly as a run with the finite budget `fuel` does. */
  lemma {:induction false} UnboundedAgreesWithBudget<B, V>(landed: B -> Option<V>, step: B -> Option<B>, b: B, ticks: int, fuel: nat)
    requires ticks < 0
    requires !Run(landed, step, b, ticks, fuel).Unfinished?
    ensures Run(landed, step, b, ticks, fuel) == Run(landed, step, b, fuel, fuel)
    decreases fuel
  {
    if landed(b).None? {
      match step(b)
      case None =>
      case Some(b') =>
        UnboundedAgreesWithBudget(landed, step, b', ticks - 1, fuel - 1);
    }
  }

  /** Once a run has landed or thrown, a larger budget ends the same way. */
  lemma MoreBudgetSameEnd<B, V>(landed: B -> Option<V>, step: B -> Option<B>, b: B, m: nat, n: nat)
    requires !Run(landed, step, b, m, m).Suspended?
    ensures Run(landed, step, b, m + n, m + n) == Run(landed, step, b, m, m)
  {
    RunComposes(landed, step, b, m, n);
    FuelIrrelevant(landed, step, b, m, m);
  }

  /** The host's cooperative loop: run with a budget of `chunk` bounces and, while suspended,
      resume with the same budget, for at most `rounds` more rounds. */
  function Chunked<B, V>(landed: B -> Option<V>, step: B -> Option<B>, b: B, chunk: nat, rounds: nat): Outcome<B, V>
    decreases rounds
  {
    var o := Run(landed, step, b, chunk, chunk);
    if o.Suspended? && rounds > 0 then Chunked(landed, step, o.pending, chunk, rounds - 1) else o
  }

  /** Chunked evaluation is one run whose budget is the total of the chunks. */
  lemma {:induction false} ChunkedIsOneRun<B, V>(landed: B -> Option<V>, step: B -> Option<B>, b: B, chunk: nat, rounds: nat)
    ensures Chunked(landed, step, b, chunk, rounds) == Run(landed, step, b, chunk * (rounds + 1), chunk * (rounds + 1))
    decreases rounds
  {
    var o := Run(landed, step, b, chunk, chunk);
    RunComposes(landed, step, b, chunk, chunk * rounds);
    assert chunk + chunk * rounds == chunk * (rounds + 1);
    if o.Suspended? && rounds > 0 {
      ChunkedIsOneRun(landed, step, o.pending, chunk, rounds - 1);
      assert chunk * (rounds - 1 + 1) == chunk * rounds;
    } else if rounds > 0 {
      FuelIrrelevant(landed, step, b, chunk, chunk);
    } else {
      assert chunk * (rounds + 1) == chunk;
    }
  }

  /** Whatever an unbounded run lands on, the cooperative loop lands on too, given enough rounds. */
  lemma ChunkedAgreesWithUnbounded<B, V>(landed: B -> Option<V>, step: B -> Option<B>, b: B, fuel: nat, chunk: nat)
    requires chunk > 0
    requires Run(landed, step, b, -1, fuel).Landed?
    ensures Chunked(landed, step, b, chunk, fuel) == Run(landed, step, b, -1, fuel)
  {
    UnboundedAgreesWithBudget(landed, step, b, -1, fuel);
    ChunkedIsOneRun(landed, step, b, chunk, fuel);
    var total := chunk * (fuel + 1);
    assert total >= fuel by {
      assert chunk * (fuel + 1) == chunk * fuel + chunk;
      assert chunk * fuel >= fuel;
    }
    MoreBudgetSameEnd(landed, step, b, fuel, total - fuel);
  }
}
