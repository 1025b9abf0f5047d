/**
 Progress of the ticketed semaphore. Apart from spurious wake-ups every step brings the users closer to the
 end, such a step is always there, and where none is left every user has had its permit, in ticket order.
 */
module SemaphoreProgress {
  import opened FifoSemaphore

  /** How far a user has to go; a test of the wait condition counts less than any other step. */
  function Remaining(u: User, n: nat): nat {
    match u
    case Outside => 4 * (n + 1)
    case Awake(_) => 3 * (n + 1) + 1
    case Asleep(_) => 3 * (n + 1)
    case Holding(_) => 2 * (n + 1)
    case Notifying => n + 1
    case Done => 0
  }

  function AllRemaining(users: seq<User>, n: nat): nat {
    if users == [] then 0 else AllRemaining(users[..|users| - 1], n) + Remaining(users[|users| - 1], n)
  }

  function Measure(s: State): nat { AllRemaining(s.users, |s.users|) }

  lemma {:induction false} RemainingUpdate(users: seq<User>, n: nat, t: nat, u: User)
    requires t < |users|
    ensures AllRemaining(users[t := u], n) == AllRemaining(users, n) - Remaining(users[t], n) + Remaining(u, n)
  {
    var last := |users| - 1;
    if t < last {
      RemainingUpdate(users[..last], n, t, u);
      assert users[t := u][..last] == users[..last][t := u];
    } else {
      assert users[t := u][..last] == users[..last];
    }
  }

  /** Waking everybody adds at most one per user. */
  lemma {:induction false} RemainingAwake(users: seq<User>, users': seq<User>, n: nat)
    requires |users| == |users'| && forall j :: 0 <= j < |users| ==> users'[j] == Wake(users[j])
    ensures AllRemaining(users', n) <= AllRemaining(users, n) + |users|
  {
    if users != [] {
      RemainingAwake(users[..|users| - 1], users'[..|users| - 1], n);
    }
  }

  lemma NotifyLowers(s: State, t: nat)
    requires t < |s.users| && s.users[t].Notifying?
    ensures Measure(NotifyAll(s, t)) < Measure(s)
  {
    var n, gone := |s.users|, s.users[t := Done];
    RemainingUpdate(s.users, n, t, Done);
    RemainingAwake(gone, NotifyAll(s, t).users, n);
  }

  /** Every step but a spurious wake-up lowers the measure. */
  lemma StepLowers(s: State, s': State, t: nat)
    requires Step(s, s', t) && !s.users[t].Asleep?
    ensures Measure(s') < Measure(s) && |s'.users| == |s.users|
  {
    if s.users[t].Notifying? {
      NotifyLowers(s, t);
    } else {
      hide AllRemaining;
      assert s'.users == s.users[t := s'.users[t]];
      RemainingUpdate(s.users, |s.users|, t, s'.users[t]);
    }
  }

  /** While a user is not done, some user can take a step that is not a spurious wake-up. */
  lemma SomebodyMoves(capacity: int, s: State, t: nat) returns (j: nat)
    requires capacity >= 1 && Inv(capacity, s) && t < |s.users| && s.users[t] != Done
    ensures j < |s.users| && !s.users[j].Asleep? && s.users[j] != Done
  {
    if Holders(s.users) > 0 {
      CountedAll(s.users, Holds);
      j :| 0 <= j < |s.users| && Holds(s.users[j]);
    } else if s.users[t].Asleep? {
      assert HasWaiter(s, |s.granted|);
      j :| 0 <= j < |s.users| && Waits(s.users[j]) && s.users[j].ticket == |s.granted|;
      if s.users[j].Asleep? {
        assert MayEnter(s, s.users[j].ticket);
        j :| 0 <= j < |s.users| && (s.users[j].Notifying? || s.users[j].Holding?);
      }
    } else {
      j := t;
    }
  }

  /** A user that neither sleeps nor is done has a step. */
  lemma AwakeHasStep(s: State, t: nat) returns (next: State)
    requires t < |s.users| && !s.users[t].Asleep? && s.users[t] != Done
    ensures Step(s, next, t)
  {
    match s.users[t] {
      case Outside => next := Acquire(s, t);
      case Awake(ticket) => next := EnterOrSleep(s, t, ticket);
      case Holding(_) => next := s.(count := s.count + 1, users := s.users[t := Notifying]);
      case Notifying => next := NotifyAll(s, t);
    }
  }

  /** No deadlock, and no going round in circles: there is a step that is no spurious wake-up and lowers the measure. */
  lemma NeverDeadlocks(capacity: int, run: seq<State>, k: nat, t: nat) returns (j: nat, next: State)
    requires capacity >= 1 && IsRun(capacity, run) && k < |run| && t < |run[k].users| && run[k].users[t] != Done
    ensures Step(run[k], next, j) && !run[k].users[j].Asleep? && Measure(next) < Measure(run[k])
  {
    RunKeepsInv(capacity, run, k);
    j := SomebodyMoves(capacity, run[k], t);
    next := AwakeHasStep(run[k], j);
    StepLowers(run[k], next, j);
  }

  // Everybody is served.

  predicate HasDrawn(u: User) { !u.Outside? }

  predicate HasEntered(u: User) { u.Holding? || u.Notifying? || u.Done? }

  /** One ticket per user that has called acquire, and one grant per user that has got past it. */
  ghost predicate TicketsCount(s: State) {
    s.nextTicket == Counted(s.users, HasDrawn) && |s.granted| == Counted(s.users, HasEntered)
  }

  lemma StepKeepsCounts(s: State, s': State, t: nat)
    requires Step(s, s', t) && TicketsCount(s)
    ensures TicketsCount(s')
  {
    if s.users[t].Notifying? {
      CountedSame(s.users, s'.users, HasDrawn);
      CountedSame(s.users, s'.users, HasEntered);
    } else {
      hide Counted;
      assert s'.users == s.users[t := s'.users[t]];
      CountedUpdate(s.users, t, s'.users[t], HasDrawn);
      CountedUpdate(s.users, t, s'.users[t], HasEntered);
    }
  }

  lemma {:induction false} RunKeepsCounts(capacity: int, run: seq<State>, k: nat)
    requires IsRun(capacity, run) && k < |run|
    ensures TicketsCount(run[k]) && |run[k].users| == |run[0].users|
  {
    if k == 0 {
      CountedAll(run[0].users, HasDrawn);
      CountedAll(run[0].users, HasEntered);
    } else {
      RunKeepsCounts(capacity, run, k - 1);
      assert StepOfSome(run[k - 1], run[k - 1 + 1]);
      var t: nat :| Step(run[k - 1], run[k], t);
      StepKeepsCounts(run[k - 1], run[k], t);
    }
  }

  /** Nobody has a step other than a spurious wake-up. */
  ghost predicate AtRest(s: State) {
    forall t: nat, s' :: Step(s, s', t) ==> s.users[t].Asleep?
  }

  /** At rest every user is done, and the permits went to all tickets in the order they were drawn. */
  lemma RestMeansServed(capacity: int, run: seq<State>, k: nat)
    requires capacity >= 1 && IsRun(capacity, run) && k < |run| && AtRest(run[k])
    ensures forall t :: 0 <= t < |run[k].users| ==> run[k].users[t] == Done
    ensures run[k].granted == seq(|run[k].users|, i => i) && run[k].count == capacity && run[k].queue == []
  {
    var s := run[k];
    forall t: nat | t < |s.users|
      ensures s.users[t] == Done
    {
      if s.users[t] != Done {
        var j, next := NeverDeadlocks(capacity, run, k, t);
      }
    }
    RunKeepsInv(capacity, run, k);
    RunKeepsCounts(capacity, run, k);
    CountedAll(s.users, HasDrawn);
    CountedAll(s.users, Holds);
    assert !HasWaiter(s, |s.granted|);
  }

  /** No step of the run is a spurious wake-up. */
  ghost predicate Calm(run: seq<State>) {
    forall k :: 0 <= k < |run| - 1 ==> CalmStep(run[k], run[k + 1])
  }

  ghost predicate CalmStep(s: State, s': State) { exists t: nat :: Knowingly(s, s', t) }

  /** User t takes a step, and it was not asleep. */
  ghost predicate Knowingly(s: State, s': State, t: nat) { Step(s, s', t) && !s.users[t].Asleep? }

  lemma {:induction false} CalmLowers(capacity: int, run: seq<State>, k: nat)
    requires IsRun(capacity, run) && Calm(run) && k < |run|
    ensures Measure(run[k]) + k <= Measure(run[0])
  {
    if k > 0 {
      CalmLowers(capacity, run, k - 1);
      assert CalmStep(run[k - 1], run[k - 1 + 1]);
      var t: nat :| Knowingly(run[k - 1], run[k], t);
      StepLowers(run[k - 1], run[k], t);
    }
  }

  lemma {:induction false} NobodyStarted(users: seq<User>, n: nat)
    requires forall t :: 0 <= t < |users| ==> users[t] == Outside
    ensures AllRemaining(users, n) == |users| * (4 * (n + 1))
  {
    if users != [] {
      NobodyStarted(users[..|users| - 1], n);
    }
  }

  /** Without spurious wake-ups n users are through after at most 4n(n + 1) steps. */
  lemma CalmRunsEnd(capacity: int, run: seq<State>)
    requires IsRun(capacity, run) && Calm(run)
    ensures var n := |run[0].users|; |run| <= n * (4 * (n + 1)) + 1
  {
    CalmLowers(capacity, run, |run| - 1);
    NobodyStarted(run[0].users, |run[0].users|);
  }
}
