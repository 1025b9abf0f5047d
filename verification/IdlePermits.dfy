/**
 A user that takes a permit does not notify, so the next in line can sleep on beside a free permit until a
 holder gives one back. Exactly with which capacities and how many users this can happen.
 */
module IdlePermits {
  import opened FifoSemaphore
  import opened SemaphoreProgress

  /** The next in line sleeps although there is a permit, and nobody is about to notify. */
  ghost predicate Idles(s: State) { NobodyNotifies(s) && exists t: nat :: MissesOut(s, t) }

  ghost predicate NobodyNotifies(s: State) { forall j :: 0 <= j < |s.users| ==> !s.users[j].Notifying? }

  ghost predicate MissesOut(s: State, t: nat) {
    t < |s.users| && s.users[t].Asleep? && MayEnter(s, s.users[t].ticket)
  }

  // When it cannot happen.

  /** Whoever waits came when all permits were taken; whoever idles had somebody ahead as well. */
  ghost predicate ManyGranted(capacity: int, s: State) {
    (s.queue != [] ==> |s.granted| >= capacity) && (Idles(s) ==> |s.granted| > capacity)
  }

  lemma {:induction false} EnteredHold(users: seq<User>)
    ensures Counted(users, Holds) <= Counted(users, HasEntered)
  {
    if users != [] {
      EnteredHold(users[..|users| - 1]);
    }
  }

  /** A user that misses out before and after another one's step. */
  lemma MissedBefore(s: State, s': State, t: nat)
    requires t < |s.users| && |s'.users| == |s.users| && Idles(s') && !MissesOut(s', t) && !s.users[t].Notifying?
    requires forall j :: 0 <= j < |s.users| && j != t ==> s'.users[j] == s.users[j]
    requires s'.count == s.count && s.queue != [] && s.queue <= s'.queue
    ensures Idles(s)
  {
    var u: nat :| MissesOut(s', u);
    assert MissesOut(s, u);
    assert forall j :: 0 <= j < |s.users| && j != t ==> s'.users[j] == s.users[j];
  }

  lemma AcquireKeepsMany(capacity: int, s: State, t: nat)
    requires Inv(capacity, s) && TicketsCount(s) && ManyGranted(capacity, s) && t < |s.users| && s.users[t] == Outside
    ensures ManyGranted(capacity, Acquire(s, t))
  {
    hide Idles, Counted, QueueIsWaiters, NoLostWakeUp;
    var s' := Acquire(s, t);
    EnteredHold(s.users);
    if s.queue == [] {
      NobodyAhead(s, t);
    } else if Idles(s') {
      assert !MissesOut(s', t);
      MissedBefore(s, s', t);
    }
  }

  /** The first to wait would have entered if there had been a permit. */
  lemma NobodyAhead(s: State, t: nat)
    requires t < |s.users| && s.users[t] == Outside && s.queue == []
    ensures !Idles(Acquire(s, t))
  {
    forall u: nat
      ensures !MissesOut(Acquire(s, t), u)
    {
    }
  }

  lemma EnterKeepsMany(capacity: int, s: State, t: nat, ticket: nat)
    requires Inv(capacity, s) && ManyGranted(capacity, s) && t < |s.users| && s.users[t] == Awake(ticket)
    ensures ManyGranted(capacity, EnterOrSleep(s, t, ticket))
  {
    hide Idles;
    var s' := EnterOrSleep(s, t, ticket);
    if !MayEnter(s, ticket) && Idles(s') {
      assert !MissesOut(s', t);
      WaitsInQueue(s, t);
      MissedBefore(s, s', t);
    }
  }

  lemma WaitsInQueue(s: State, t: nat)
    requires InTicketOrder(s) && QueueIsWaiters(s) && t < |s.users| && Waits(s.users[t])
    ensures s.queue != []
  {
  }

  lemma StepKeepsMany(capacity: int, s: State, s': State, t: nat)
    requires Inv(capacity, s) && TicketsCount(s) && ManyGranted(capacity, s) && Step(s, s', t)
    ensures ManyGranted(capacity, s')
  {
    match s.users[t]
    case Outside => AcquireKeepsMany(capacity, s, t);
    case Awake(ticket) => EnterKeepsMany(capacity, s, t, ticket);
    case Asleep(_) =>
      hide Idles;
      if Idles(s') {
        assert !MissesOut(s', t);
        WaitsInQueue(s, t);
        MissedBefore(s, s', t);
      }
    case Holding(_) => assert s'.users[t].Notifying?;
    case Notifying =>
  }

  lemma {:induction false} RunKeepsMany(capacity: int, run: seq<State>, k: nat)
    requires capacity >= 0 && IsRun(capacity, run) && k < |run|
    ensures ManyGranted(capacity, run[k])
  {
    if k > 0 {
      RunKeepsMany(capacity, run, k - 1);
      RunKeepsInv(capacity, run, k - 1);
      RunKeepsCounts(capacity, run, k - 1);
      assert StepOfSome(run[k - 1], run[k - 1 + 1]);
      var t: nat :| Step(run[k - 1], run[k], t);
      StepKeepsMany(capacity, run[k - 1], run[k], t);
    }
  }

  /** It takes two permits, and two users more than permits. */
  lemma IdlesOnlyWhen(capacity: int, run: seq<State>, k: nat)
    requires capacity >= 0 && IsRun(capacity, run) && k < |run| && Idles(run[k])
    ensures capacity >= 2 && |run[0].users| >= capacity + 2
  {
    var s := run[k];
    RunKeepsMany(capacity, run, k);
    RunKeepsInv(capacity, run, k);
    RunKeepsCounts(capacity, run, k);
    CountedAll(s.users, HasDrawn);
    CountedAll(s.users, Holds);
    var t: nat :| MissesOut(s, t);
    assert SomebodyWillNotify(s);
    var j :| 0 <= j < |s.users| && (s.users[j].Notifying? || s.users[j].Holding?);
    assert Holds(s.users[j]);
  }

  // When it happens.

  /** The first i users hold a permit, the others have not called acquire. */
  ghost function Taken(capacity: nat, n: nat, i: nat): State
    requires i <= capacity && i <= n
  {
    State(capacity - i, [], i, seq(n, j requires 0 <= j < n => if j < i then Holding(j) else Outside), seq(i, j => j))
  }

  lemma GoOn(capacity: int, run: seq<State>, t: nat, next: State)
    requires IsRun(capacity, run) && Step(run[|run| - 1], next, t)
    ensures IsRun(capacity, run + [next])
  {
    hide Step, Init;
    var longer := run + [next];
    forall k | 0 <= k < |longer| - 1
      ensures StepOfSome(longer[k], longer[k + 1])
    {
      if k < |run| - 1 {
        assert StepOfSome(run[k], run[k + 1]);
      }
    }
  }

  lemma {:induction false} TakeAll(capacity: nat, n: nat, i: nat) returns (run: seq<State>)
    requires i <= capacity && i <= n
    ensures IsRun(capacity, run) && run[0] == Taken(capacity, n, 0) && run[|run| - 1] == Taken(capacity, n, i)
  {
    if i == 0 {
      run := [Taken(capacity, n, 0)];
    } else {
      var before := TakeAll(capacity, n, i - 1);
      var s, s' := Taken(capacity, n, i - 1), Taken(capacity, n, i);
      assert [s.nextTicket] == s.queue + [s.nextTicket];
      assert Acquire(s, i - 1) == s';
      GoOn(capacity, before, i - 1, s');
      run := before + [s'];
    }
  }

  /**
   All permits are taken and two users wait. Two holders give theirs back and notify; the second waiter is
   the first to look, and sleeps again since it is not its turn; the first waiter takes one permit.
   */
  lemma TwoPermitsIdle(capacity: nat, n: nat) returns (run: seq<State>)
    requires capacity >= 2 && n >= capacity + 2
    ensures IsRun(capacity, run) && |run[0].users| == n && Idles(run[|run| - 1])
  {
    var c := capacity;
    run := TakeAll(c, n, c);
    var s0 := Taken(c, n, c);
    var s1 := s0.(queue := [c], nextTicket := c + 1, users := s0.users[c := Asleep(c)]);
    assert Acquire(s0, c) == s1;
    var s2 := s1.(queue := [c, c + 1], nextTicket := c + 2, users := s1.users[c + 1 := Asleep(c + 1)]);
    assert Acquire(s1, c + 1) == s2;
    var s3 := s2.(count := 1, users := s2.users[0 := Notifying]);
    var s4 := s3.(count := 2, users := s3.users[1 := Notifying]);
    var s5, s6 := NotifyAll(s4, 0), NotifyAll(NotifyAll(s4, 0), 1);
    var s7 := s6.(users := s6.users[c + 1 := Asleep(c + 1)]);
    assert EnterOrSleep(s6, c + 1, c + 1) == s7;
    var s8 := EnterOrSleep(s7, c, c);
    GoOn(c, run, c, s1);
    GoOn(c, run + [s1], c + 1, s2);
    GoOn(c, run + [s1] + [s2], 0, s3);
    GoOn(c, run + [s1] + [s2] + [s3], 1, s4);
    GoOn(c, run + [s1] + [s2] + [s3] + [s4], 0, s5);
    GoOn(c, run + [s1] + [s2] + [s3] + [s4] + [s5], 1, s6);
    GoOn(c, run + [s1] + [s2] + [s3] + [s4] + [s5] + [s6], c + 1, s7);
    GoOn(c, run + [s1] + [s2] + [s3] + [s4] + [s5] + [s6] + [s7], c, s8);
    run := run + [s1] + [s2] + [s3] + [s4] + [s5] + [s6] + [s7] + [s8];
    assert MissesOut(s8, c + 1);
  }

  /** A permit can lie idle beside a sleeping waiter exactly with two permits and two more users than permits. */
  lemma PermitIdlesWhen(capacity: nat, n: nat)
    ensures (exists run: seq<State>, k: nat :: IsRun(capacity, run) && k < |run| && |run[0].users| == n && Idles(run[k]))
            <==> capacity >= 2 && n >= capacity + 2
  {
    if capacity >= 2 && n >= capacity + 2 {
      var run := TwoPermitsIdle(capacity, n);
      assert Idles(run[|run| - 1]);
    }
    forall run: seq<State>, k: nat | IsRun(capacity, run) && k < |run| && |run[0].users| == n && Idles(run[k])
      ensures capacity >= 2 && n >= capacity + 2
    {
      IdlesOnlyWhen(capacity, run, k);
    }
  }
}
