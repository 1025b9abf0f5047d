/**
 The join-per-round pipeline as a step system: the coordinator thread prepares round 0, warms its links
 up, and then for each round starts its sends, starts preparing the next round, and joins both.
 Worker threads finish at any time, in any order, and may report an error.
 */
module SendPipeline {
  import opened TaskDispatch
  import opened RepairDispatch

  datatype Status = Idle | Running | Finished

  /** Where the coordinator thread stands; i is the next thread to start or to join. */
  datatype Control =
    | FirstPrepare(i: nat)
    | FirstPrepareJoin(i: nat)
    | WarmUp(i: nat)
    | WarmUpJoin(i: nat)
    | Send(r: nat, i: nat)
    | Prepare(r: nat, i: nat)
    | SendJoin(r: nat, i: nat)
    | PrepareJoin(r: nat, i: nat)
    | Ended(rounds: nat)

  type Table = seq<seq<RoundTask>>

  /** Per-task thread status, the tasks handed to send threads so far, and the shared error flag. */
  datatype State = State(
    pc: Control,
    prepare: seq<seq<Status>>,
    send: seq<seq<Status>>,
    warm: seq<Status>,
    sent: seq<RoundTask>,
    ok: bool
  )

  ghost predicate Shaped(t: Table, m: seq<seq<Status>>) {
    |m| == |t| && forall r :: 0 <= r < |t| ==> |m[r]| == |t[r]|
  }

  ghost predicate Fits(t: Table, s: State) {
    Shaped(t, s.prepare) && Shaped(t, s.send) && (t != [] ==> |s.warm| == |t[0]|)
  }

  function Put(m: seq<seq<Status>>, r: nat, i: nat, x: Status): seq<seq<Status>>
    requires r < |m| && i < |m[r]|
  {
    m[r := m[r][i := x]]
  }

  ghost predicate Init(t: Table, s: State) {
    && Fits(t, s)
    && (forall r, i :: 0 <= r < |t| && 0 <= i < |t[r]| ==> s.prepare[r][i] == Idle && s.send[r][i] == Idle)
    && (forall i :: 0 <= i < |s.warm| ==> s.warm[i] == Idle)
    && s.sent == [] && s.ok && s.pc == if t == [] then Ended(0) else FirstPrepare(0)
  }

  /** One step of the coordinator thread; a join waits for its thread to finish. */
  ghost predicate CoordinatorStep(t: Table, s: State, s': State) {
    && Fits(t, s) && t != [] &&
    match s.pc
    case FirstPrepare(i) =>
      if i < |t[0]| then s' == s.(pc := FirstPrepare(i + 1), prepare := Put(s.prepare, 0, i, Running))
      else s' == s.(pc := FirstPrepareJoin(0))
    case FirstPrepareJoin(i) =>
      if i < |t[0]| then s.prepare[0][i] == Finished && s' == s.(pc := FirstPrepareJoin(i + 1))
      else s' == s.(pc := WarmUp(0))
    case WarmUp(i) =>
      if i < |t[0]| then s' == s.(pc := WarmUp(i + 1), warm := s.warm[i := Running])
      else s' == s.(pc := WarmUpJoin(0))
    case WarmUpJoin(i) =>
      if i < |t[0]| then s.warm[i] == Finished && s' == s.(pc := WarmUpJoin(i + 1))
      else s' == s.(pc := Send(0, 0))
    case Send(r, i) =>
      r < |t| &&
      if i < |t[r]| then
        s' == s.(pc := Send(r, i + 1), send := Put(s.send, r, i, Running), sent := s.sent + [t[r][i]])
      else s' == s.(pc := Prepare(r, 0))
    case Prepare(r, i) =>
      if r + 1 < |t| && i < |t[r + 1]| then
        s' == s.(pc := Prepare(r, i + 1), prepare := Put(s.prepare, r + 1, i, Running))
      else s' == s.(pc := SendJoin(r, 0))
    case SendJoin(r, i) =>
      r < |t| &&
      if i < |t[r]| then s.send[r][i] == Finished && s' == s.(pc := SendJoin(r, i + 1))
      else s' == s.(pc := PrepareJoin(r, 0))
    case PrepareJoin(r, i) =>
      if r + 1 < |t| && i < |t[r + 1]| then
        s.prepare[r + 1][i] == Finished && s' == s.(pc := PrepareJoin(r, i + 1))
      else s' == s.(pc := if s.ok && r + 1 < |t| then Send(r + 1, 0) else Ended(r + 1))
    case Ended(_) => false
  }

  /** A running prepare, warm-up or send thread finishes, perhaps clearing the error flag `ok`. */
  ghost predicate WorkerStep(t: Table, s: State, s': State, r: nat, i: nat) {
    && Fits(t, s) && r < |t| && i < |t[r]|
    && (|| (s.prepare[r][i] == Running && s' == s.(prepare := Put(s.prepare, r, i, Finished), ok := s'.ok))
        || (s.send[r][i] == Running && s' == s.(send := Put(s.send, r, i, Finished), ok := s'.ok))
        || (r == 0 && s.warm[i] == Running && s' == s.(warm := s.warm[i := Finished], ok := s'.ok)))
    && (s'.ok ==> s.ok)
  }

  ghost predicate Step(t: Table, s: State, s': State) {
    CoordinatorStep(t, s, s') || exists r, i :: WorkerStep(t, s, s', r, i)
  }

  /** A run from the initial state, of any length. */
  ghost predicate IsRun(t: Table, run: seq<State>) {
    |run| > 0 && Init(t, run[0]) && forall k :: 0 <= k < |run| - 1 ==> Step(t, run[k], run[k + 1])
  }

  // Which threads have been started, and which have been joined, when the coordinator is at pc.

  ghost predicate PrepareStarted(pc: Control, r: nat, i: nat) {
    match pc
    case FirstPrepare(j) => r == 0 && i < j
    case FirstPrepareJoin(_) => r == 0
    case WarmUp(_) => r == 0
    case WarmUpJoin(_) => r == 0
    case Send(q, _) => r <= q
    case Prepare(q, j) => r <= q || (r == q + 1 && i < j)
    case SendJoin(q, _) => r <= q + 1
    case PrepareJoin(q, _) => r <= q + 1
    case Ended(q) => r <= q
  }

  ghost predicate PrepareJoined(pc: Control, r: nat, i: nat) {
    match pc
    case FirstPrepare(_) => false
    case FirstPrepareJoin(j) => r == 0 && i < j
    case WarmUp(_) => r == 0
    case WarmUpJoin(_) => r == 0
    case Send(q, _) => r <= q
    case Prepare(q, _) => r <= q
    case SendJoin(q, _) => r <= q
    case PrepareJoin(q, j) => r <= q || (r == q + 1 && i < j)
    case Ended(q) => r <= q
  }

  ghost predicate SendStarted(pc: Control, r: nat, i: nat) {
    match pc
    case Send(q, j) => r < q || (r == q && i < j)
    case Prepare(q, _) => r <= q
    case SendJoin(q, _) => r <= q
    case PrepareJoin(q, _) => r <= q
    case Ended(q) => r < q
    case _ => false
  }

  ghost predicate SendJoined(pc: Control, r: nat, i: nat) {
    match pc
    case Send(q, _) => r < q
    case Prepare(q, _) => r < q
    case SendJoin(q, j) => r < q || (r == q && i < j)
    case PrepareJoin(q, _) => r <= q
    case Ended(q) => r < q
    case _ => false
  }

  /** The tasks handed to send threads when the coordinator is at pc, in order. */
  ghost function SentAtControl(t: Table, pc: Control): seq<RoundTask> {
    match pc
    case Send(q, j) => if q < |t| && j <= |t[q]| then Flatten(t[..q]) + t[q][..j] else []
    case Prepare(q, _) => if q < |t| then Flatten(t[..q + 1]) else []
    case SendJoin(q, _) => if q < |t| then Flatten(t[..q + 1]) else []
    case PrepareJoin(q, _) => if q < |t| then Flatten(t[..q + 1]) else []
    case Ended(q) => if q <= |t| then Flatten(t[..q]) else []
    case _ => []
  }

  ghost predicate ControlOk(t: Table, s: State) {
    match s.pc
    case FirstPrepare(j) => t != [] && j <= |t[0]|
    case FirstPrepareJoin(j) => t != [] && j <= |t[0]|
    case WarmUp(j) => t != [] && j <= |t[0]|
    case WarmUpJoin(j) => t != [] && j <= |t[0]|
    case Send(q, j) => q < |t| && j <= |t[q]|
    case Prepare(q, j) => q < |t| && (if q + 1 < |t| then j <= |t[q + 1]| else j == 0)
    case SendJoin(q, j) => q < |t| && j <= |t[q]|
    case PrepareJoin(q, j) => q < |t| && (if q + 1 < |t| then j <= |t[q + 1]| else j == 0)
    case Ended(q) => q <= |t| && (s.ok ==> q == |t|)
  }

  ghost predicate WarmStatusOk(s: State, i: nat)
    requires i < |s.warm|
  {
    match s.pc
    case FirstPrepare(_) => s.warm[i] == Idle
    case FirstPrepareJoin(_) => s.warm[i] == Idle
    case WarmUp(j) => if i < j then s.warm[i] != Idle else s.warm[i] == Idle
    case WarmUpJoin(j) => if i < j then s.warm[i] == Finished else s.warm[i] != Idle
    case _ => s.warm[i] == Finished
  }

  /** The status of the threads of one task agrees with where the coordinator stands. */
  ghost predicate TaskOk(s: State, r: nat, i: nat)
    requires r < |s.prepare| && r < |s.send| && i < |s.prepare[r]| && i < |s.send[r]|
  {
    PrepareOk(s, r, i) && SendOk(s, r, i)
  }

  ghost predicate PrepareOk(s: State, r: nat, i: nat)
    requires r < |s.prepare| && i < |s.prepare[r]|
  {
    && (s.prepare[r][i] == Idle <==> !PrepareStarted(s.pc, r, i))
    && (PrepareJoined(s.pc, r, i) ==> s.prepare[r][i] == Finished)
  }

  ghost predicate SendOk(s: State, r: nat, i: nat)
    requires r < |s.send| && i < |s.send[r]|
  {
    && (s.send[r][i] == Idle <==> !SendStarted(s.pc, r, i))
    && (SendJoined(s.pc, r, i) ==> s.send[r][i] == Finished)
  }

  ghost predicate Inv(t: Table, s: State) {
    && Fits(t, s) && ControlOk(t, s)
    && (forall r, i :: 0 <= r < |t| && 0 <= i < |t[r]| ==> TaskOk(s, r, i))
    && (t != [] ==> forall i :: 0 <= i < |s.warm| ==> WarmStatusOk(s, i))
    && s.sent == SentAtControl(t, s.pc)
  }

  lemma CoordinatorKeepsInv(t: Table, s: State, s': State)
    requires Inv(t, s) && CoordinatorStep(t, s, s')
    ensures Inv(t, s')
  {
    CoordinatorShape(t, s, s');
    CoordinatorLog(t, s, s');
    forall r, i | 0 <= r < |t| && 0 <= i < |t[r]|
      ensures TaskOk(s', r, i)
    {
      CoordinatorTask(t, s, s', r, i);
    }
    forall i | 0 <= i < |s'.warm|
      ensures WarmStatusOk(s', i)
    {
      assert WarmStatusOk(s, i);
    }
  }

  lemma CoordinatorShape(t: Table, s: State, s': State)
    requires Fits(t, s) && ControlOk(t, s) && CoordinatorStep(t, s, s')
    ensures Fits(t, s') && ControlOk(t, s')
  {
    hide Fits, ControlOk, CoordinatorStep;
    CoordinatorFits(t, s, s');
    CoordinatorMoves(t, s, s');
  }

  lemma CoordinatorFits(t: Table, s: State, s': State)
    requires Fits(t, s) && ControlOk(t, s) && CoordinatorStep(t, s, s')
    ensures Fits(t, s')
  {
  }

  lemma CoordinatorMoves(t: Table, s: State, s': State)
    requires Fits(t, s) && ControlOk(t, s) && CoordinatorStep(t, s, s')
    ensures ControlOk(t, s')
  {
    hide Put, Shaped;
  }

  lemma CoordinatorTask(t: Table, s: State, s': State, r: nat, i: nat)
    requires Fits(t, s) && Fits(t, s') && ControlOk(t, s) && CoordinatorStep(t, s, s')
    requires r < |t| && i < |t[r]| && TaskOk(s, r, i)
    ensures TaskOk(s', r, i)
  {
    CoordinatorPrepare(t, s, s', r, i);
    CoordinatorSend(t, s, s', r, i);
  }

  lemma CoordinatorPrepare(t: Table, s: State, s': State, r: nat, i: nat)
    requires Fits(t, s) && Fits(t, s') && ControlOk(t, s) && CoordinatorStep(t, s, s')
    requires r < |t| && i < |t[r]| && PrepareOk(s, r, i)
    ensures PrepareOk(s', r, i)
  {
  }

  lemma CoordinatorSend(t: Table, s: State, s': State, r: nat, i: nat)
    requires Fits(t, s) && Fits(t, s') && ControlOk(t, s) && CoordinatorStep(t, s, s')
    requires r < |t| && i < |t[r]| && SendOk(s, r, i)
    ensures SendOk(s', r, i)
  {
  }

  lemma CoordinatorLog(t: Table, s: State, s': State)
    requires Fits(t, s) && ControlOk(t, s) && CoordinatorStep(t, s, s') && s.sent == SentAtControl(t, s.pc)
    ensures s'.sent == SentAtControl(t, s'.pc)
  {
    match s.pc
    case WarmUpJoin(i) =>
      if i == |t[0]| {
        assert Flatten(t[..0]) + t[0][..0] == [];
      }
    case Send(r, i) =>
      if i < |t[r]| {
        assert t[r][..i + 1] == t[r][..i] + [t[r][i]];
        assert Flatten(t[..r]) + t[r][..i + 1] == (Flatten(t[..r]) + t[r][..i]) + [t[r][i]];
      } else {
        assert t[..r + 1][..r] == t[..r] && t[r][..i] == t[r];
      }
    case PrepareJoin(r, i) =>
      if s'.pc.Send? {
        assert Flatten(t[..r + 1]) + t[r + 1][..0] == Flatten(t[..r + 1]);
      }
    case _ =>
  }

  lemma WorkerKeepsInv(t: Table, s: State, s': State, r: nat, i: nat)
    requires Inv(t, s) && WorkerStep(t, s, s', r, i)
    ensures Inv(t, s')
  {
    forall q, j | 0 <= q < |t| && 0 <= j < |t[q]|
      ensures TaskOk(s', q, j)
    {
      assert TaskOk(s, q, j);
    }
    forall j | 0 <= j < |s'.warm|
      ensures WarmStatusOk(s', j)
    {
      assert WarmStatusOk(s, j);
    }
  }

  /** The invariant holds in every state of every run. */
  lemma {:induction false} RunKeepsInv(t: Table, run: seq<State>, k: nat)
    requires IsRun(t, run) && k < |run|
    ensures Inv(t, run[k])
  {
    if k > 0 {
      RunKeepsInv(t, run, k - 1);
      assert Step(t, run[k - 1], run[k - 1 + 1]);
      if CoordinatorStep(t, run[k - 1], run[k]) {
        CoordinatorKeepsInv(t, run[k - 1], run[k]);
      } else {
        var r: nat, i: nat :| WorkerStep(t, run[k - 1], run[k], r, i);
        WorkerKeepsInv(t, run[k - 1], run[k], r, i);
      }
    } else {
      assert Flatten(t[..0]) == [];
    }
  }

  /** In every state of every run, tasks that are being sent share neither source nor destination cluster. */
  lemma SendsNeverConflict(t: Table, run: seq<State>, k: nat, r: nat, i: nat, r': nat, i': nat)
    requires IsRun(t, run) && k < |run| && forall q :: 0 <= q < |t| ==> ConflictFree(t[q])
    requires Fits(t, run[k]) && r < |t| && i < |t[r]| && r' < |t| && i' < |t[r']| && (r, i) != (r', i')
    requires run[k].send[r][i] == Running && run[k].send[r'][i'] == Running
    ensures r == r' && t[r][i].src != t[r'][i'].src && t[r][i].dst != t[r'][i'].dst
  {
    RunKeepsInv(t, run, k);
    assert TaskOk(run[k], r, i) && TaskOk(run[k], r', i');
    assert ConflictFree(t[r]);
  }

  /** A task's send thread exists only after its prepare thread has finished and been joined. */
  lemma PreparedBeforeSent(t: Table, run: seq<State>, k: nat, r: nat, i: nat)
    requires IsRun(t, run) && k < |run|
    requires Fits(t, run[k]) && r < |t| && i < |t[r]| && run[k].send[r][i] != Idle
    ensures run[k].prepare[r][i] == Finished && PrepareJoined(run[k].pc, r, i)
  {
    RunKeepsInv(t, run, k);
    assert TaskOk(run[k], r, i);
  }

  /** No task is handed to a send thread twice, in any state of any run. */
  lemma NeverSentTwice(t: Table, run: seq<State>, k: nat)
    requires IsRun(t, run) && k < |run| && NoTaskSentTwice(Flatten(t))
    ensures NoTaskSentTwice(run[k].sent)
  {
    RunKeepsInv(t, run, k);
    SentIsPrefix(t, run[k]);
  }

  lemma PartOfRow(t: Table, q: nat, j: nat)
    requires q < |t| && j <= |t[q]|
    ensures Flatten(t[..q]) + t[q][..j] <= Flatten(t[..q + 1])
  {
    assert t[..q + 1][..q] == t[..q];
    assert Flatten(t[..q]) + t[q][..j] <= Flatten(t[..q]) + t[q];
  }

  /** What has been sent is always a prefix of the table read round by round. */
  lemma SentIsPrefix(t: Table, s: State)
    requires Inv(t, s)
    ensures s.sent <= Flatten(t)
  {
    match s.pc
    case Send(q, j) =>
      FlattenPrefix(t, q + 1);
      PartOfRow(t, q, j);
    case Prepare(q, _) => FlattenPrefix(t, q + 1);
    case SendJoin(q, _) => FlattenPrefix(t, q + 1);
    case PrepareJoin(q, _) => FlattenPrefix(t, q + 1);
    case Ended(q) => FlattenPrefix(t, q);
    case _ =>
  }

  lemma {:induction false} FlattenPrefix(t: Table, q: nat)
    requires q <= |t|
    ensures Flatten(t[..q]) <= Flatten(t)
  {
    if q < |t| {
      var rest := t[..|t| - 1];
      assert rest[..q] == t[..q];
      FlattenPrefix(rest, q);
      assert Flatten(rest) <= Flatten(t);
    } else {
      assert t[..q] == t;
    }
  }

  ghost predicate AllSendsFinished(t: Table, s: State) {
    Fits(t, s) && forall r, i :: 0 <= r < |t| && 0 <= i < |t[r]| ==> s.send[r][i] == Finished
  }

  /** A run that ends without an error has sent every task of the table, round by round. */
  lemma ErrorFreeRunSendsAll(t: Table, run: seq<State>)
    requires IsRun(t, run) && run[|run| - 1].pc.Ended? && run[|run| - 1].ok
    ensures run[|run| - 1].sent == Flatten(t)
    ensures AllSendsFinished(t, run[|run| - 1])
  {
    var s := run[|run| - 1];
    RunKeepsInv(t, run, |run| - 1);
    assert t[..|t|] == t;
    forall r, i | 0 <= r < |t| && 0 <= i < |t[r]|
      ensures s.send[r][i] == Finished
    {
      assert TaskOk(s, r, i);
    }
  }

  /** Until the coordinator has ended some step is always possible: its joins cannot deadlock. */
  lemma NeverStuck(t: Table, run: seq<State>, k: nat) returns (next: State)
    requires IsRun(t, run) && k < |run| && !run[k].pc.Ended?
    ensures Step(t, run[k], next)
  {
    var s := run[k];
    RunKeepsInv(t, run, k);
    var r, i := 0, 0;
    match s.pc {
      case FirstPrepare(j) =>
        next := if j < |t[0]| then s.(pc := FirstPrepare(j + 1), prepare := Put(s.prepare, 0, j, Running))
                else s.(pc := FirstPrepareJoin(0));
      case FirstPrepareJoin(j) =>
        if j < |t[0]| && s.prepare[0][j] != Finished {
          assert TaskOk(s, 0, j);
          next := s.(prepare := Put(s.prepare, 0, j, Finished));
          assert WorkerStep(t, s, next, 0, j);
        } else {
          next := s.(pc := if j < |t[0]| then FirstPrepareJoin(j + 1) else WarmUp(0));
        }
      case WarmUp(j) =>
        next := if j < |t[0]| then s.(pc := WarmUp(j + 1), warm := s.warm[j := Running])
                else s.(pc := WarmUpJoin(0));
      case WarmUpJoin(j) =>
        if j < |t[0]| && s.warm[j] != Finished {
          assert WarmStatusOk(s, j);
          next := s.(warm := s.warm[j := Finished]);
          assert WorkerStep(t, s, next, 0, j);
        } else {
          next := s.(pc := if j < |t[0]| then WarmUpJoin(j + 1) else Send(0, 0));
        }
      case Send(q, j) =>
        next := if j < |t[q]| then
                  s.(pc := Send(q, j + 1), send := Put(s.send, q, j, Running), sent := s.sent + [t[q][j]])
                else s.(pc := Prepare(q, 0));
      case Prepare(q, j) =>
        next := if q + 1 < |t| && j < |t[q + 1]| then
                  s.(pc := Prepare(q, j + 1), prepare := Put(s.prepare, q + 1, j, Running))
                else s.(pc := SendJoin(q, 0));
      case SendJoin(q, j) =>
        if j < |t[q]| && s.send[q][j] != Finished {
          assert TaskOk(s, q, j);
          next := s.(send := Put(s.send, q, j, Finished));
          assert WorkerStep(t, s, next, q, j);
        } else {
          next := s.(pc := if j < |t[q]| then SendJoin(q, j + 1) else PrepareJoin(q, 0));
        }
      case PrepareJoin(q, j) =>
        if q + 1 < |t| && j < |t[q + 1]| && s.prepare[q + 1][j] != Finished {
          assert TaskOk(s, q + 1, j);
          next := s.(prepare := Put(s.prepare, q + 1, j, Finished));
          assert WorkerStep(t, s, next, q + 1, j);
        } else {
          next := s.(pc := if q + 1 < |t| && j < |t[q + 1]| then PrepareJoin(q, j + 1)
                           else if s.ok && q + 1 < |t| then Send(q + 1, 0) else Ended(q + 1));
        }
    }
  }
}
