/**
 The ticketed semaphore, over all interleavings of its users. A step is one critical section (or the
 notification, which happens after the lock is released); a waiter can also wake up spuriously.
 */
module FifoSemaphore {

  /** What one user thread is doing. */
  datatype User =
    | Outside                // has not called acquire
    | Awake(ticket: nat)     // woken, about to test the wait condition
    | Asleep(ticket: nat)    // blocked on the condition variable
    | Holding(ticket: nat)   // has a permit
    | Notifying              // has given the permit back, has not called notify_all yet
    | Done

  datatype State = State(count: int, queue: seq<nat>, nextTicket: nat, users: seq<User>, granted: seq<nat>)

  ghost predicate Init(capacity: int, s: State) {
    && s.count == capacity && s.queue == [] && s.nextTicket == 0 && s.granted == []
    && forall t :: 0 <= t < |s.users| ==> s.users[t] == Outside
  }

  /** The wait condition: there is a permit and the ticket is the oldest. */
  predicate MayEnter(s: State, ticket: nat) {
    s.count > 0 && s.queue != [] && s.queue[0] == ticket
  }

  /** The end of acquire: takes the permit if the wait condition holds, otherwise blocks. */
  function EnterOrSleep(s: State, t: nat, ticket: nat): State
    requires t < |s.users|
  {
    if MayEnter(s, ticket) then
      s.(count := s.count - 1, queue := s.queue[1..], users := s.users[t := Holding(ticket)],
         granted := s.granted + [ticket])
    else s.(users := s.users[t := Asleep(ticket)])
  }

  /** The start of acquire: draws a ticket and queues it. */
  function Draw(s: State, t: nat): State
    requires t < |s.users|
  {
    s.(queue := s.queue + [s.nextTicket], nextTicket := s.nextTicket + 1,
       users := s.users[t := Awake(s.nextTicket)])
  }

  /** The first critical section of acquire: draws a ticket and tests the wait condition at once. */
  function Acquire(s: State, t: nat): State
    requires t < |s.users|
  {
    EnterOrSleep(Draw(s, t), t, s.nextTicket)
  }

  function Wake(u: User): User { if u.Asleep? then Awake(u.ticket) else u }

  /** The notifier is done and every sleeper is awake. */
  ghost function NotifyAll(s: State, t: nat): State
    requires t < |s.users|
  {
    s.(users := seq(|s.users|, j requires 0 <= j < |s.users| => if j == t then Done else Wake(s.users[j])))
  }

  ghost predicate Step(s: State, s': State, t: nat) {
    t < |s.users| &&
    match s.users[t]
    case Outside => s' == Acquire(s, t)
    case Awake(ticket) => s' == EnterOrSleep(s, t, ticket)
    case Asleep(ticket) => s' == s.(users := s.users[t := Awake(ticket)])
    case Holding(_) => s' == s.(count := s.count + 1, users := s.users[t := Notifying])
    case Notifying => s' == NotifyAll(s, t)
    case Done => false
  }

  ghost predicate IsRun(capacity: int, run: seq<State>) {
    |run| > 0 && Init(capacity, run[0]) && forall k :: 0 <= k < |run| - 1 ==> StepOfSome(run[k], run[k + 1])
  }

  ghost predicate StepOfSome(s: State, s': State) {
    exists t :: Step(s, s', t)
  }

  /** How many users are of the given kind. */
  function Counted(users: seq<User>, kind: User -> bool): nat {
    if users == [] then 0 else Counted(users[..|users| - 1], kind) + (if kind(users[|users| - 1]) then 1 else 0)
  }

  predicate Holds(u: User) { u.Holding? }

  function Holders(users: seq<User>): nat { Counted(users, Holds) }

  ghost predicate Waits(u: User) { u.Awake? || u.Asleep? }

  /** Tickets are granted as 0, 1, 2, ... and the queue holds the next ones, up to the last drawn. */
  ghost predicate InTicketOrder(s: State) {
    && |s.granted| + |s.queue| == s.nextTicket
    && (forall k :: 0 <= k < |s.granted| ==> s.granted[k] == k)
    && (forall k :: 0 <= k < |s.queue| ==> s.queue[k] == |s.granted| + k)
  }

  /** The queued tickets are exactly those of the waiting users, one user each. */
  ghost predicate QueueIsWaiters(s: State) {
    && (forall t :: 0 <= t < |s.users| && Waits(s.users[t]) ==> |s.granted| <= s.users[t].ticket < s.nextTicket)
    && (forall t, t' :: 0 <= t < t' < |s.users| && Waits(s.users[t]) && Waits(s.users[t']) ==>
          s.users[t].ticket != s.users[t'].ticket)
    && (forall k :: |s.granted| <= k < s.nextTicket ==> HasWaiter(s, k))
  }

  ghost predicate HasWaiter(s: State, ticket: nat) {
    exists t :: 0 <= t < |s.users| && Waits(s.users[t]) && s.users[t].ticket == ticket
  }

  /** If the oldest waiter sleeps although there is a permit, somebody is still going to notify. */
  ghost predicate NoLostWakeUp(s: State) {
    forall t :: 0 <= t < |s.users| && s.users[t].Asleep? && MayEnter(s, s.users[t].ticket) ==> SomebodyWillNotify(s)
  }

  ghost predicate SomebodyWillNotify(s: State) {
    exists t :: 0 <= t < |s.users| && (s.users[t].Notifying? || s.users[t].Holding?)
  }

  ghost predicate Inv(capacity: int, s: State) {
    && s.count >= 0 && s.count + Holders(s.users) == capacity
    && InTicketOrder(s) && QueueIsWaiters(s) && NoLostWakeUp(s)
  }

  lemma {:induction false} CountedUpdate(users: seq<User>, t: nat, u: User, kind: User -> bool)
    requires t < |users|
    ensures Counted(users[t := u], kind)
            == Counted(users, kind) - (if kind(users[t]) then 1 else 0) + (if kind(u) then 1 else 0)
  {
    var n := |users| - 1;
    if t < n {
      CountedUpdate(users[..n], t, u, kind);
      assert users[t := u][..n] == users[..n][t := u];
    } else {
      assert users[t := u][..n] == users[..n];
    }
  }

  lemma {:induction false} CountedSame(users: seq<User>, users': seq<User>, kind: User -> bool)
    requires |users| == |users'|
    requires forall t :: 0 <= t < |users| ==> (kind(users[t]) <==> kind(users'[t]))
    ensures Counted(users, kind) == Counted(users', kind)
  {
    if users != [] {
      CountedSame(users[..|users| - 1], users'[..|users| - 1], kind);
    }
  }

  lemma {:induction false} CountedAll(users: seq<User>, kind: User -> bool)
    ensures Counted(users, kind) <= |users|
    ensures (forall t :: 0 <= t < |users| ==> !kind(users[t])) <==> Counted(users, kind) == 0
    ensures (forall t :: 0 <= t < |users| ==> kind(users[t])) ==> Counted(users, kind) == |users|
  {
    if users != [] {
      CountedAll(users[..|users| - 1], kind);
    }
  }

  /** Every waiter other than user t is waiting before and after, with the same ticket. */
  lemma WaitersKept(s: State, s': State, t: nat, ticket: nat)
    requires |s'.users| == |s.users| && t < |s.users| && HasWaiter(s, ticket)
    requires forall j :: 0 <= j < |s.users| && j != t && Waits(s.users[j]) ==>
               Waits(s'.users[j]) && s'.users[j].ticket == s.users[j].ticket
    requires Waits(s.users[t]) && s.users[t].ticket == ticket ==> Waits(s'.users[t]) && s'.users[t].ticket == ticket
    ensures HasWaiter(s', ticket)
  {
    var j :| 0 <= j < |s.users| && Waits(s.users[j]) && s.users[j].ticket == ticket;
    assert Waits(s'.users[j]) && s'.users[j].ticket == ticket;
  }

  /** A waiting user whose ticket is the only one that may be missing a waiter tests the wait condition. */
  lemma EnterKeepsInv(capacity: int, s: State, t: nat, ticket: nat)
    requires t < |s.users| && s.users[t] == Awake(ticket) && Inv(capacity, s)
    ensures Inv(capacity, EnterOrSleep(s, t, ticket))
  {
    var s' := EnterOrSleep(s, t, ticket);
    CountedUpdate(s.users, t, s'.users[t], Holds);
    forall k | |s'.granted| <= k < s'.nextTicket
      ensures HasWaiter(s', k)
    {
      WaitersKept(s, s', t, k);
    }
    if MayEnter(s, ticket) {
      assert s'.users[t].Holding?;
    } else {
      Notifiers(s, s', t);
    }
  }

  /** A notifier other than user t is still one after user t's step. */
  lemma Notifiers(s: State, s': State, t: nat)
    requires |s'.users| == |s.users| && t < |s.users|
    requires !s.users[t].Notifying? && !s.users[t].Holding?
    requires forall j :: 0 <= j < |s.users| && j != t ==> s'.users[j] == s.users[j]
    ensures SomebodyWillNotify(s) ==> SomebodyWillNotify(s')
  {
    if SomebodyWillNotify(s) {
      var j :| 0 <= j < |s.users| && (s.users[j].Notifying? || s.users[j].Holding?);
      assert s'.users[j] == s.users[j];
    }
  }

  /** Drawing a ticket and becoming a waiter with it. */
  lemma DrawKeepsInv(capacity: int, s: State, t: nat)
    requires t < |s.users| && s.users[t] == Outside && Inv(capacity, s)
    ensures Inv(capacity, Draw(s, t))
  {
    var s' := Draw(s, t);
    CountedUpdate(s.users, t, Awake(s.nextTicket), Holds);
    forall k | |s'.granted| <= k < s'.nextTicket
      ensures HasWaiter(s', k)
    {
      if k == s.nextTicket {
        assert Waits(s'.users[t]) && s'.users[t].ticket == k;
      } else {
        WaitersKept(s, s', t, k);
      }
    }
    Notifiers(s, s', t);
  }

  /** A sleeping user wakes up, spuriously. */
  lemma WakeKeepsInv(capacity: int, s: State, t: nat)
    requires t < |s.users| && s.users[t].Asleep? && Inv(capacity, s)
    ensures Inv(capacity, s.(users := s.users[t := Awake(s.users[t].ticket)]))
  {
    var s' := s.(users := s.users[t := Awake(s.users[t].ticket)]);
    CountedUpdate(s.users, t, s'.users[t], Holds);
    forall k | |s'.granted| <= k < s'.nextTicket
      ensures HasWaiter(s', k)
    {
      WaitersKept(s, s', t, k);
    }
    Notifiers(s, s', t);
  }

  /** A holder gives its permit back; it has still to notify. */
  lemma ReleaseKeepsInv(capacity: int, s: State, t: nat)
    requires t < |s.users| && s.users[t].Holding? && Inv(capacity, s)
    ensures Inv(capacity, s.(count := s.count + 1, users := s.users[t := Notifying]))
  {
    var s' := s.(count := s.count + 1, users := s.users[t := Notifying]);
    CountedUpdate(s.users, t, Notifying, Holds);
    forall k | |s'.granted| <= k < s'.nextTicket
      ensures HasWaiter(s', k)
    {
      WaitersKept(s, s', t, k);
    }
    assert s'.users[t].Notifying?;
  }

  /** Notification wakes every sleeper, so no lost wake-up is left. */
  lemma NotifyKeepsInv(capacity: int, s: State, t: nat)
    requires t < |s.users| && s.users[t].Notifying? && Inv(capacity, s)
    ensures Inv(capacity, NotifyAll(s, t))
  {
    var s' := NotifyAll(s, t);
    CountedSame(s.users, s'.users, Holds);
    forall k | |s'.granted| <= k < s'.nextTicket
      ensures HasWaiter(s', k)
    {
      WaitersKept(s, s', t, k);
    }
  }

  lemma AcquireKeepsInv(capacity: int, s: State, t: nat)
    requires t < |s.users| && s.users[t] == Outside && Inv(capacity, s)
    ensures Inv(capacity, Acquire(s, t))
  {
    DrawKeepsInv(capacity, s, t);
    EnterKeepsInv(capacity, Draw(s, t), t, s.nextTicket);
  }

  lemma StepKeepsInv(capacity: int, s: State, s': State, t: nat)
    requires Inv(capacity, s) && Step(s, s', t)
    ensures Inv(capacity, s')
  {
    match s.users[t]
    case Outside => AcquireKeepsInv(capacity, s, t);
    case Awake(ticket) => EnterKeepsInv(capacity, s, t, ticket);
    case Asleep(_) => WakeKeepsInv(capacity, s, t);
    case Holding(_) => ReleaseKeepsInv(capacity, s, t);
    case Notifying => NotifyKeepsInv(capacity, s, t);
  }

  lemma {:induction false} RunKeepsInv(capacity: int, run: seq<State>, k: nat)
    requires capacity >= 0 && IsRun(capacity, run) && k < |run|
    ensures Inv(capacity, run[k])
  {
    if k == 0 {
      CountedAll(run[0].users, Holds);
    } else {
      RunKeepsInv(capacity, run, k - 1);
      assert StepOfSome(run[k - 1], run[k - 1 + 1]);
      var t: nat :| Step(run[k - 1], run[k], t);
      StepKeepsInv(capacity, run[k - 1], run[k], t);
    }
  }

  /** In every state of every run: permits are conserved, never negative, and granted in ticket order. */
  lemma PermitsConserved(capacity: int, run: seq<State>, k: nat)
    requires capacity >= 0 && IsRun(capacity, run) && k < |run|
    ensures run[k].count >= 0 && run[k].count + Holders(run[k].users) == capacity
    ensures Holders(run[k].users) <= capacity
    ensures forall i :: 0 <= i < |run[k].granted| ==> run[k].granted[i] == i
  {
    RunKeepsInv(capacity, run, k);
  }

  /** In every state of every run a missed wake-up is still going to be repaired by a notification. */
  lemma WakeUpNeverLost(capacity: int, run: seq<State>, k: nat, t: nat)
    requires capacity >= 0 && IsRun(capacity, run) && k < |run| && t < |run[k].users|
    requires run[k].users[t].Asleep? && MayEnter(run[k], run[k].users[t].ticket)
    ensures SomebodyWillNotify(run[k])
  {
    RunKeepsInv(capacity, run, k);
  }
}
