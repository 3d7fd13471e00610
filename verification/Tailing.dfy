/** A tailing read of the durable log, interleaved with appends in every possible way. */
module Tailing {
  import opened Entries
  import opened Logs
  import opened DurableLog

  /** `out` has been yielded, `queue` is the rest of the last sweep, `next` is where the next sweep starts. */
  datatype Tail = Tail(log: seq<Entry>, next: int, queue: seq<Entry>, out: seq<Entry>)

  datatype Step = Grow(appended: seq<Entry>) | Sweep | Yield

  /** The unset id reads from the first position. */
  function Normal(from: int): int { if from == NIL_ID then 1 else from }

  function Start(from: int): Tail { Tail([], Normal(from), [], []) }

  predicate Enabled(t: Tail, a: Step)
  {
    match a
    case Grow(_) => true
    case Sweep => t.queue == []
    case Yield => t.queue != []
  }

  function Next(t: Tail, a: Step): Tail
    requires Enabled(t, a)
  {
    match a
    case Grow(appended) => t.(log := t.log + appended)
    case Sweep => t.(queue := SweepOf(t.log, t.next))
    case Yield => t.(next := t.next + 1, out := t.out + [t.queue[0]], queue := t.queue[1..])
  }

  ghost predicate IsRun(t: Tail, steps: seq<Step>)
    decreases |steps|
  {
    steps == [] || (Enabled(t, steps[0]) && IsRun(Next(t, steps[0]), steps[1..]))
  }

  ghost function After(t: Tail, steps: seq<Step>): Tail
    requires IsRun(t, steps)
    decreases |steps|
  {
    if steps == [] then t else After(Next(t, steps[0]), steps[1..])
  }

  /** The next `n` entries of the dense log from position `from` on. */
  ghost predicate IsSlice(log: seq<Entry>, from: int, s: seq<Entry>)
  {
    s == [] || (1 <= from && from - 1 + |s| <= |log| && s == log[from - 1..from - 1 + |s|])
  }

  /** What is yielded and what is still queued are consecutive entries from the start on. */
  ghost predicate TailInv(from: int, t: Tail)
  {
    && t.next == from + |t.out|
    && IsSlice(t.log, from, t.out)
    && IsSlice(t.log, t.next, t.queue)
  }

  lemma SliceGrows(log: seq<Entry>, more: seq<Entry>, from: int, s: seq<Entry>)
    requires IsSlice(log, from, s)
    ensures IsSlice(log + more, from, s)
  {
    if s != [] { assert (log + more)[from - 1..from - 1 + |s|] == log[from - 1..from - 1 + |s|]; }
  }

  /** The entry at the cursor moves from the queue to the output. */
  lemma SliceMoves(log: seq<Entry>, from: int, out: seq<Entry>, queue: seq<Entry>)
    requires IsSlice(log, from, out) && IsSlice(log, from + |out|, queue) && queue != [] && from != 0
    ensures IsSlice(log, from, out + [queue[0]]) && IsSlice(log, from + |out| + 1, queue[1..])
  {
    var n := |out|;
    assert out != [] || from >= 1;
    assert queue[0] == log[from - 1 + n];
    assert log[from - 1..from - 1 + (n + 1)] == log[from - 1..from - 1 + n] + [log[from - 1 + n]];
    if |queue| > 1 { assert queue[1..] == log[from + n..from - 1 + n + |queue|]; }
  }

  lemma StepKeepsTail(from: int, t: Tail, a: Step)
    requires from != 0 && TailInv(from, t) && Enabled(t, a)
    ensures TailInv(from, Next(t, a))
  {
    match a {
      case Grow(appended) =>
        SliceGrows(t.log, appended, from, t.out);
        SliceGrows(t.log, appended, t.next, t.queue);
      case Sweep =>
        if SweepOf(t.log, t.next) != [] { assert SweepOf(t.log, t.next) == t.log[t.next - 1..|t.log|]; }
      case Yield => SliceMoves(t.log, from, t.out, t.queue);
    }
  }

  lemma {:induction false} RunKeepsTail(from: int, t: Tail, steps: seq<Step>)
    requires from != 0 && TailInv(from, t) && IsRun(t, steps)
    ensures TailInv(from, After(t, steps))
    decreases |steps|
  {
    if steps != [] {
      StepKeepsTail(from, t, steps[0]);
      RunKeepsTail(from, Next(t, steps[0]), steps[1..]);
    }
  }

  /**
   * From any start but zero, under any interleaving with appends, a tailing read has yielded exactly
   * the entries a dense read would have: each once, in order, with no gap; what it yields next is
   * the dense log's entry at its cursor; and it rests only when it has caught up.
   */
  lemma TailsDensely(from: int, steps: seq<Step>)
    requires from != 0 && IsRun(Start(from), steps)
    ensures var t, first := After(Start(from), steps), if from == NIL_ID then 1 else from;
      && IsSlice(t.log, first, t.out)
      && (t.queue != [] ==> At(t.log, t.next) == Some(t.queue[0]))
      && (t.queue == [] && SweepOf(t.log, t.next) == [] && first >= 1 ==> first + |t.out| > |t.log|)
  {
    RunKeepsTail(Normal(from), Start(from), steps);
  }

  // ---------- From zero ----------

  function Yields(n: nat): seq<Step> { seq(n, _ => Yield) }

  lemma Shift<T>(out: seq<T>, queue: seq<T>, n: nat)
    requires 1 <= n <= |queue|
    ensures (out + [queue[0]]) + queue[1..][..n - 1] == out + queue[..n] && queue[1..][n - 1..] == queue[n..]
  {
  }

  lemma {:induction false} YieldAll(t: Tail, n: nat)
    requires n <= |t.queue|
    ensures IsRun(t, Yields(n))
    ensures After(t, Yields(n)) == Tail(t.log, t.next + n, t.queue[n..], t.out + t.queue[..n])
    decreases n
  {
    if n == 0 {
      assert Yields(n) == [] && t.queue[0..] == t.queue && t.out + t.queue[..0] == t.out;
    } else {
      assert Yields(n)[1..] == Yields(n - 1) && Yields(n)[0] == Yield;
      YieldAll(Next(t, Yield), n - 1);
      Shift(t.out, t.queue, n);
    }
  }

  lemma TwoSteps(t: Tail, a: Step, b: Step)
    requires Enabled(t, a) && Enabled(Next(t, a), b)
    ensures IsRun(t, [a, b]) && After(t, [a, b]) == Next(Next(t, a), b)
  {
    var u := Next(t, a);
    assert [a, b][1..] == [b] && [b][1..] == [];
    assert IsRun(Next(u, b), []) && IsRun(u, [b]);
    assert After(u, [b]) == After(Next(u, b), []);
  }

  lemma {:induction false} RunAppend(t: Tail, a: seq<Step>, b: seq<Step>)
    requires IsRun(t, a) && IsRun(After(t, a), b)
    ensures IsRun(t, a + b) && After(t, a + b) == After(After(t, a), b)
    decreases |a|
  {
    if a == [] {
      assert a + b == b;
    } else {
      assert (a + b)[1..] == a[1..] + b;
      RunAppend(Next(t, a[0]), a[1..], b);
    }
  }

  /** From zero, whatever the log holds, the read yields all of it and then its last entry again. */
  lemma ZeroRepeats(log: seq<Entry>)
    requires log != []
    ensures exists steps :: IsRun(Start(0), steps) && After(Start(0), steps).out == log + [log[|log| - 1]]
  {
    var n := |log|;
    var first := FirstPass(log);
    assert log[n - 1..] == [log[n - 1]];
    TwoSteps(Tail(log, n, [], log), Sweep, Yield);
    RunAppend(Start(0), first, [Sweep, Yield]);
  }

  /** From zero, a first sweep yields the whole log but leaves the cursor on its last entry. */
  lemma FirstPass(log: seq<Entry>) returns (steps: seq<Step>)
    ensures IsRun(Start(0), steps) && After(Start(0), steps) == Tail(log, |log|, [], log)
  {
    var n := |log|;
    assert [] + log == log && log[..n] == log && log[n..] == [];
    TwoSteps(Start(0), Grow(log), Sweep);
    YieldAll(Tail(log, 0, log, []), n);
    RunAppend(Start(0), [Grow(log), Sweep], Yields(n));
    steps := [Grow(log), Sweep] + Yields(n);
  }

  // ---------- The in-memory reader ----------

  /** The reader of the in-memory log: it yields the entry at its cursor whenever there is one. */
  datatype Dense = Dense(log: seq<Entry>, next: int, out: seq<Entry>)

  function DenseStart(from: int): Dense { Dense([], Normal(from), []) }

  predicate DenseEnabled(d: Dense, a: Step)
  {
    match a
    case Grow(_) => true
    case Sweep => false
    case Yield => At(d.log, d.next).Some?
  }

  function DenseNext(d: Dense, a: Step): Dense
    requires DenseEnabled(d, a)
  {
    match a
    case Grow(appended) => d.(log := d.log + appended)
    case Yield => d.(next := d.next + 1, out := d.out + [At(d.log, d.next).value])
  }

  ghost predicate IsDenseRun(d: Dense, steps: seq<Step>)
    decreases |steps|
  {
    steps == [] || (DenseEnabled(d, steps[0]) && IsDenseRun(DenseNext(d, steps[0]), steps[1..]))
  }

  ghost function DenseAfter(d: Dense, steps: seq<Step>): Dense
    requires IsDenseRun(d, steps)
    decreases |steps|
  {
    if steps == [] then d else DenseAfter(DenseNext(d, steps[0]), steps[1..])
  }

  /** The run with its sweeps left out. */
  function Forget(steps: seq<Step>): seq<Step>
  {
    if steps == [] then [] else (if steps[0].Sweep? then [] else [steps[0]]) + Forget(steps[1..])
  }

  function Seen(t: Tail): Dense { Dense(t.log, t.next, t.out) }

  lemma ForgetStep(a: Step, rest: seq<Step>, d: Dense)
    requires !a.Sweep? && DenseEnabled(d, a) && IsDenseRun(DenseNext(d, a), rest)
    ensures IsDenseRun(d, [a] + rest) && DenseAfter(d, [a] + rest) == DenseAfter(DenseNext(d, a), rest)
  {
    assert ([a] + rest)[1..] == rest;
  }

  /**
   * From any start but zero, the durable reader refines the in-memory one: a sweep is no step of it, a yield is
   * the same yield.
   */
  lemma {:induction false} RefinesDense(from: int, t: Tail, steps: seq<Step>)
    requires from != 0 && TailInv(from, t) && IsRun(t, steps)
    ensures IsDenseRun(Seen(t), Forget(steps)) && DenseAfter(Seen(t), Forget(steps)) == Seen(After(t, steps))
    decreases |steps|
  {
    if steps != [] {
      var t' := Next(t, steps[0]);
      StepKeepsTail(from, t, steps[0]);
      RefinesDense(from, t', steps[1..]);
      if steps[0].Sweep? {
        assert Forget(steps) == [] + Forget(steps[1..]) == Forget(steps[1..]);
      } else {
        ForgetStep(steps[0], Forget(steps[1..]), Seen(t));
      }
    }
  }

  /** Some run of the in-memory reader from the same start, over the same log, has yielded the same. */
  ghost predicate DenseYields(from: int, log: seq<Entry>, out: seq<Entry>)
  {
    exists steps :: IsDenseRun(DenseStart(from), steps)
      && DenseAfter(DenseStart(from), steps).log == log && DenseAfter(DenseStart(from), steps).out == out
  }

  lemma {:induction false} DenseZeroSilent(d: Dense, steps: seq<Step>)
    requires d.next == 0 && d.out == [] && IsDenseRun(d, steps)
    ensures DenseAfter(d, steps).out == []
    decreases |steps|
  {
    if steps != [] { DenseZeroSilent(DenseNext(d, steps[0]), steps[1..]); }
  }

  /** Every run yields what the in-memory reader could have yielded, exactly when the start is not zero. */
  lemma DenselyIff(from: int)
    ensures (forall steps | IsRun(Start(from), steps) ::
               DenseYields(from, After(Start(from), steps).log, After(Start(from), steps).out)) <==> from != 0
  {
    if from != 0 {
      forall steps | IsRun(Start(from), steps)
        ensures DenseYields(from, After(Start(from), steps).log, After(Start(from), steps).out)
      {
        RefinesDense(Normal(from), Start(from), steps);
        assert IsDenseRun(DenseStart(from), Forget(steps));
      }
    } else {
      var log := [Entry(1, 1, None, 0, Noop)];
      ZeroRepeats(log);
      var steps :| IsRun(Start(0), steps) && After(Start(0), steps).out == log + [log[|log| - 1]];
      forall dense | IsDenseRun(DenseStart(0), dense) ensures DenseAfter(DenseStart(0), dense).out == [] {
        DenseZeroSilent(DenseStart(0), dense);
      }
      assert !DenseYields(0, After(Start(0), steps).log, After(Start(0), steps).out);
    }
  }
}
