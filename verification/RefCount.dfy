// Saturating reference counts: the compare-and-swap loops of refcount_c11.c,
// run by any number of threads, behave like the locked counter of
// refcount_lock.c.

module RefCount {
  import opened Bytes

  const MAX := 0xffff_ffff // CRYPTO_REFCOUNT_MAX

  datatype Op = Inc | Dec

  // ------------------------------------------------------------------
  // The locked counter

  datatype Locked = Locked(count: nat, isZero: bool) | Abort

  // CRYPTO_refcount_inc and CRYPTO_refcount_dec_and_test_zero under the lock.
  function Lock(op: Op, count: nat): Locked {
    match op
    case Inc => Locked(if count < MAX then count + 1 else count, false)
    case Dec =>
      if count == 0 then Abort
      else
        var count := if count < MAX then count - 1 else count;
        Locked(count, count == 0)
  }

  class LockedCount {
    var count: nat

    constructor (count: nat)
      ensures this.count == count
    {
      this.count := count;
    }

    method Increment()
      modifies this
      ensures Lock(Inc, old(count)) == Locked(count, false)
    {
      if count < MAX {
        count := count + 1;
      }
    }

    // None is abort().
    method DecrementAndTestZero() returns (ret: Option<bool>)
      modifies this
      ensures Lock(Dec, old(count)) == if ret.Some? then Locked(count, ret.value) else Abort
      ensures ret.None? ==> count == old(count)
    {
      if count == 0 {
        return None;
      }
      if count < MAX {
        count := count - 1;
      }
      ret := Some(count == 0);
    }
  }

  // ------------------------------------------------------------------
  // The compare-and-swap loops

  // Where a thread is: not in a call, before its first load, or with a value
  // it has seen. The numbers are the times of the call and of the load.
  datatype Phase =
    | Idle
    | Called(op: Op, invoked: nat)
    | Holding(op: Op, invoked: nat, expected: nat, seen: nat)

  // A completed call.
  datatype Call = Call(thread: nat, op: Op, invoked: nat, isZero: bool)

  // past[i] is the count at time i; done[i] the call that completed in the
  // step from time i to time i + 1, if one did.
  datatype State = State(threads: seq<Phase>, past: seq<nat>, done: seq<Option<Call>>, aborted: bool) {
    predicate Ok() {
      |past| == |done| + 1
    }

    function Now(): nat {
      |done|
    }

    function Count(): nat
      requires Ok()
    {
      past[|done|]
    }
  }

  // One atomic step of a thread. spurious: a weak compare-and-swap may fail
  // although the values agree.
  datatype Step = Step(thread: nat, invoke: Op, spurious: bool)

  function After(s: State, thread: nat, phase: Phase, count: nat, call: Option<Call>): State
    requires thread < |s.threads|
  {
    s.(threads := s.threads[thread := phase], past := s.past + [count], done := s.done + [call])
  }

  // What the loop does with the value it holds.
  function Try(s: State, t: nat, p: Phase, spurious: bool): State
    requires s.Ok() && t < |s.threads| && p.Holding?
  {
    var count := s.Count();
    if p.op.Dec? && p.expected == 0 then s.(aborted := true)
    else if p.expected == MAX then After(s, t, Idle, count, Some(Call(t, p.op, p.invoked, false)))
    else
      var newValue := if p.op.Inc? then p.expected + 1 else p.expected - 1;
      if count == p.expected && !spurious
      then After(s, t, Idle, newValue, Some(Call(t, p.op, p.invoked, p.op.Dec? && newValue == 0)))
      else After(s, t, p.(expected := count, seen := s.Now()), count, None)
  }

  function Take(s: State, x: Step): (r: State)
    requires s.Ok()
    ensures r.Ok() && |r.threads| == |s.threads|
  {
    if s.aborted || x.thread >= |s.threads| then s
    else
      match s.threads[x.thread]
      case Idle => After(s, x.thread, Called(x.invoke, s.Now()), s.Count(), None)
      case Called(op, invoked) => After(s, x.thread, Holding(op, invoked, s.Count(), s.Now()), s.Count(), None)
      case Holding(_, _, _, _) => Try(s, x.thread, s.threads[x.thread], x.spurious)
  }

  function Run(initial: nat, threads: nat, steps: seq<Step>): (s: State)
    ensures s.Ok() && |s.threads| == threads
  {
    if steps == [] then State(seq(threads, _ => Idle), [initial], [], false)
    else Take(Run(initial, threads, steps[..|steps| - 1]), steps[|steps| - 1])
  }

  // ------------------------------------------------------------------
  // Every call takes effect like a locked call at one instant

  // The step from time i: nothing, or what the locked operation does.
  ghost predicate Instant(s: State, i: nat)
    requires s.Ok() && i < |s.done|
  {
    match s.done[i]
    case None => s.past[i + 1] == s.past[i]
    case Some(call) =>
      && call.invoked < i
      && Lock(call.op, s.past[i]) == Locked(s.past[i + 1], call.isZero)
  }

  // What a thread holds was the count at a time within its call; a count it
  // has seen saturated still is.
  ghost predicate PhaseOk(s: State, p: Phase)
    requires s.Ok()
  {
    match p
    case Idle => true
    case Called(_, invoked) => invoked < s.Now()
    case Holding(_, invoked, expected, seen) =>
      invoked < seen <= s.Now() && s.past[seen] == expected && (expected == MAX ==> s.Count() == MAX)
  }

  ghost predicate Linear(s: State) {
    && s.Ok()
    && (forall i: nat :: i < |s.past| ==> s.past[i] <= MAX)
    && (forall i: nat :: i < |s.done| ==> Instant(s, i))
    && (forall t: nat :: t < |s.threads| ==> PhaseOk(s, s.threads[t]))
  }

  // The past is not rewritten.
  lemma AfterKeepsPast(s: State, t: nat, phase: Phase, count: nat, call: Option<Call>)
    requires Linear(s) && t < |s.threads|
    ensures var r := After(s, t, phase, count, call);
      && (forall i: nat :: i < |s.done| ==> Instant(r, i))
      && forall i: nat :: i < |s.past| ==> r.past[i] == s.past[i]
  {
    forall i: nat | i < |s.done| ensures Instant(After(s, t, phase, count, call), i) {
      assert Instant(s, i);
    }
  }

  lemma TakeKeepsLinear(s: State, x: Step)
    requires Linear(s)
    ensures Linear(Take(s, x))
  {
    var r := Take(s, x);
    if !s.aborted && x.thread < |s.threads| && !r.aborted {
      assert PhaseOk(s, s.threads[x.thread]);
      AfterKeepsPast(s, x.thread, r.threads[x.thread], r.past[|s.past|], r.done[|s.done|]);
      assert r == After(s, x.thread, r.threads[x.thread], r.past[|s.past|], r.done[|s.done|]);
      LastInstant(s, x);
      forall t: nat | t < |r.threads| ensures PhaseOk(r, r.threads[t]) {
        assert PhaseOk(s, s.threads[t]);
      }
      forall i: nat | i < |r.done| ensures Instant(r, i) {
        assert i < |s.done| || i == |s.done|;
      }
    } else {
      forall i: nat | i < |r.done| ensures Instant(r, i) {
        assert Instant(s, i);
      }
      forall t: nat | t < |r.threads| ensures PhaseOk(r, r.threads[t]) {
        assert PhaseOk(s, s.threads[t]);
      }
    }
  }

  // The step just taken was no call, or a locked one.
  lemma LastInstant(s: State, x: Step)
    requires Linear(s) && x.thread < |s.threads| && !s.aborted && !Take(s, x).aborted
    ensures var r := Take(s, x); |r.done| == |s.done| + 1 && Instant(r, |s.done|) && r.past[|s.past|] <= MAX
  {
    assert PhaseOk(s, s.threads[x.thread]);
  }

  lemma {:induction false} RunIsLinear(initial: nat, threads: nat, steps: seq<Step>)
    requires initial <= MAX
    ensures Linear(Run(initial, threads, steps))
  {
    if steps != [] {
      RunIsLinear(initial, threads, steps[..|steps| - 1]);
      TakeKeepsLinear(Run(initial, threads, steps[..|steps| - 1]), steps[|steps| - 1]);
    }
  }

  // Under every interleaving, with any spurious failures: each call that
  // completed, completed in a step that came after its invocation and did to
  // the count, with the same answer, what the locked counter does; no other
  // step changed the count.
  lemma CallsAreLinear(initial: nat, threads: nat, steps: seq<Step>, i: nat)
    requires initial <= MAX && i < |Run(initial, threads, steps).done|
    ensures var s := Run(initial, threads, steps);
      match s.done[i]
      case None => s.past[i + 1] == s.past[i]
      case Some(call) => call.invoked < i && Lock(call.op, s.past[i]) == Locked(s.past[i + 1], call.isZero)
  {
    RunIsLinear(initial, threads, steps);
    assert Instant(Run(initial, threads, steps), i);
  }

  // A saturated count never changes.
  lemma {:induction false} SaturatedForever(s: State, i: nat, j: nat)
    requires Linear(s) && i <= j <= |s.done| && s.past[i] == MAX
    ensures s.past[j] == MAX
  {
    if i < j {
      SaturatedForever(s, i, j - 1);
      assert Instant(s, j - 1);
    }
  }

  // How much the calls up to time i add.
  function Balance(done: seq<Option<Call>>, i: nat): int
    requires i <= |done|
  {
    if i == 0 then 0
    else Balance(done, i - 1) + (match done[i - 1] case None => 0 case Some(call) => if call.op.Inc? then 1 else -1)
  }

  // As long as it is not saturated, the count is what it was at first, plus
  // the increments and minus the decrements.
  lemma {:induction false} CountIsBalance(s: State, i: nat)
    requires Linear(s) && i <= |s.done| && s.past[i] < MAX
    ensures s.past[i] == s.past[0] + Balance(s.done, i)
  {
    if i > 0 {
      assert Instant(s, i - 1);
      CountIsBalance(s, i - 1);
    }
  }

  lemma {:induction false} RunStarts(initial: nat, threads: nat, steps: seq<Step>)
    ensures Run(initial, threads, steps).past[0] == initial
  {
    if steps != [] {
      RunStarts(initial, threads, steps[..|steps| - 1]);
    }
  }

  lemma NothingIsLost(initial: nat, threads: nat, steps: seq<Step>)
    requires initial <= MAX
    ensures var s := Run(initial, threads, steps);
      && (s.Count() < MAX ==> s.Count() == initial + Balance(s.done, |s.done|))
      && forall i: nat :: i <= |s.done| && s.past[i] == MAX ==> s.Count() == MAX
  {
    var s := Run(initial, threads, steps);
    RunIsLinear(initial, threads, steps);
    RunStarts(initial, threads, steps);
    if s.Count() < MAX {
      CountIsBalance(s, |s.done|);
    }
    forall i: nat | i <= |s.done| && s.past[i] == MAX ensures s.Count() == MAX {
      SaturatedForever(s, i, |s.done|);
    }
  }

  // A call aborts only if the locked call would have, at the time within the
  // call at which it saw the count.
  lemma AbortIsLinear(s: State, x: Step)
    requires Linear(s) && !s.aborted && Take(s, x).aborted
    ensures x.thread < |s.threads| && s.threads[x.thread].Holding?
    ensures var p := s.threads[x.thread];
      p.invoked < p.seen <= s.Now() && Lock(p.op, s.past[p.seen]) == Abort
  {
    assert PhaseOk(s, s.threads[x.thread]);
  }

  // A compare-and-swap fails without being spurious only because some call
  // completed since the count was seen: the loops are lock-free.
  lemma FailureIsProgress(s: State, x: Step)
    requires Linear(s) && !s.aborted && !x.spurious && x.thread < |s.threads| && s.threads[x.thread].Holding?
    requires !Take(s, x).aborted && Take(s, x).threads[x.thread].Holding?
    ensures exists i: nat :: s.threads[x.thread].seen <= i < |s.done| && s.done[i].Some?
  {
    var p := s.threads[x.thread];
    assert PhaseOk(s, p);
    if forall i: nat :: p.seen <= i < |s.done| ==> s.done[i].None? {
      Unchanged(s, p.seen, |s.done|);
    }
  }

  lemma {:induction false} Unchanged(s: State, i: nat, j: nat)
    requires Linear(s) && i <= j <= |s.done| && forall k: nat :: i <= k < j ==> s.done[k].None?
    ensures s.past[j] == s.past[i]
  {
    if i < j {
      Unchanged(s, i, j - 1);
      assert Instant(s, j - 1);
    }
  }
}
