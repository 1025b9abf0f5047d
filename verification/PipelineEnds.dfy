/**
 How runs of the pipeline come to their end: a task that reports an error stops the rounds, and every run
 is finite, so with a step always possible the coordinator gets to its end.
 */
module PipelineEnds {
  import opened TaskDispatch
  import opened SendPipeline

  /** The round the coordinator is working on; the preparations before it belong to round 0. */
  function RoundOf(pc: Control): nat {
    match pc
    case Send(r, _) => r
    case Prepare(r, _) => r
    case SendJoin(r, _) => r
    case PrepareJoin(r, _) => r
    case Ended(rounds) => if rounds == 0 then 0 else rounds - 1
    case _ => 0
  }

  lemma ErrorKeepsRound(t: Table, s: State, s': State)
    requires Step(t, s, s') && !s.ok
    ensures !s'.ok && RoundOf(s'.pc) == RoundOf(s.pc)
  {
  }

  lemma {:induction false} RoundKept(t: Table, run: seq<State>, k: nat, later: nat)
    requires IsRun(t, run) && k <= later < |run| && !run[k].ok
    ensures !run[later].ok && RoundOf(run[later].pc) == RoundOf(run[k].pc)
  {
    if k < later {
      RoundKept(t, run, k, later - 1);
      assert Step(t, run[later - 1], run[later - 1 + 1]);
      ErrorKeepsRound(t, run[later - 1], run[later]);
    }
  }

  lemma SentWithinRound(t: Table, s: State)
    requires Inv(t, s) && t != []
    ensures RoundOf(s.pc) < |t| && s.sent <= Flatten(t[..RoundOf(s.pc) + 1])
  {
    var r := RoundOf(s.pc);
    match s.pc
    case Send(q, j) => PartOfRow(t, q, j);
    case Ended(q) => FlattenPrefix(t[..r + 1], q); assert t[..r + 1][..q] == t[..q];
    case _ =>
  }

  /** Once a task has reported an error, no task of a later round is sent. */
  lemma ErrorStopsRounds(t: Table, run: seq<State>, k: nat, later: nat)
    requires IsRun(t, run) && k <= later < |run| && !run[k].ok
    ensures t != [] ==> RoundOf(run[k].pc) < |t| && run[later].sent <= Flatten(t[..RoundOf(run[k].pc) + 1])
    ensures t == [] ==> run[later].sent == []
  {
    RoundKept(t, run, k, later);
    RunKeepsInv(t, run, later);
    if t != [] {
      SentWithinRound(t, run[later]);
    } else {
      SentIsPrefix(t, run[later]);
    }
  }

  // Every run is finite.

  function RowLeft(row: seq<Status>): nat {
    if row == [] then 0 else RowLeft(row[..|row| - 1]) + (if row[|row| - 1].Finished? then 0 else 1)
  }

  /** How many threads have not finished. */
  function Unfinished(m: seq<seq<Status>>): nat {
    if m == [] then 0 else Unfinished(m[..|m| - 1]) + RowLeft(m[|m| - 1])
  }

  lemma {:induction false} RowUpdate(row: seq<Status>, i: nat, x: Status)
    requires i < |row|
    ensures RowLeft(row[i := x]) == RowLeft(row) - (if row[i].Finished? then 0 else 1) + (if x.Finished? then 0 else 1)
  {
    var n := |row| - 1;
    if i < n {
      RowUpdate(row[..n], i, x);
      assert row[i := x][..n] == row[..n][i := x];
    } else {
      assert row[i := x][..n] == row[..n];
    }
  }

  lemma {:induction false} UnfinishedUpdate(m: seq<seq<Status>>, r: nat, i: nat, x: Status)
    requires r < |m| && i < |m[r]|
    ensures Unfinished(Put(m, r, i, x))
            == Unfinished(m) - (if m[r][i].Finished? then 0 else 1) + (if x.Finished? then 0 else 1)
  {
    var n := |m| - 1;
    if r < n {
      UnfinishedUpdate(m[..n], r, i, x);
      assert Put(m, r, i, x)[..n] == Put(m[..n], r, i, x);
    } else {
      RowUpdate(m[r], i, x);
      assert Put(m, r, i, x)[..n] == m[..n];
    }
  }

  function Width(t: Table, r: nat): nat { if r < |t| then |t[r]| else 0 }

  /** The coordinator's steps from the start of round r. */
  function StepsFrom(t: Table, r: nat): nat
    decreases |t| - r
  {
    if r >= |t| then 0 else 2 * (Width(t, r) + 1) + 2 * (Width(t, r + 1) + 1) + StepsFrom(t, r + 1)
  }

  /** The steps the coordinator has left. */
  function StepsLeft(t: Table, pc: Control): int {
    var w := Width(t, 0);
    match pc
    case FirstPrepare(i) => 4 * (w + 1) - i + StepsFrom(t, 0)
    case FirstPrepareJoin(i) => 3 * (w + 1) - i + StepsFrom(t, 0)
    case WarmUp(i) => 2 * (w + 1) - i + StepsFrom(t, 0)
    case WarmUpJoin(i) => w + 1 - i + StepsFrom(t, 0)
    case Send(r, i) => 2 * (Width(t, r) + 1) + 2 * (Width(t, r + 1) + 1) - i + StepsFrom(t, r + 1)
    case Prepare(r, i) => Width(t, r) + 1 + 2 * (Width(t, r + 1) + 1) - i + StepsFrom(t, r + 1)
    case SendJoin(r, i) => Width(t, r) + 1 + Width(t, r + 1) + 1 - i + StepsFrom(t, r + 1)
    case PrepareJoin(r, i) => Width(t, r + 1) + 1 - i + StepsFrom(t, r + 1)
    case Ended(_) => 0
  }

  function Measure(t: Table, s: State): int {
    StepsLeft(t, s.pc) + Unfinished(s.prepare) + Unfinished(s.send) + RowLeft(s.warm)
  }

  lemma MeasureAtLeastZero(t: Table, s: State)
    requires ControlOk(t, s)
    ensures StepsLeft(t, s.pc) >= 0 && Measure(t, s) >= 0
  {
  }

  lemma CoordinatorLowers(t: Table, s: State, s': State)
    requires Inv(t, s) && CoordinatorStep(t, s, s')
    ensures Measure(t, s') < Measure(t, s)
  {
    hide RowLeft, Unfinished;
    StepsLower(t, s, s');
    ThreadsKept(t, s, s');
  }

  lemma StepsLower(t: Table, s: State, s': State)
    requires ControlOk(t, s) && Fits(t, s) && CoordinatorStep(t, s, s')
    ensures StepsLeft(t, s'.pc) < StepsLeft(t, s.pc)
  {
  }

  /** Starting a thread leaves it unfinished. */
  lemma ThreadsKept(t: Table, s: State, s': State)
    requires Inv(t, s) && CoordinatorStep(t, s, s')
    ensures Unfinished(s'.prepare) == Unfinished(s.prepare) && Unfinished(s'.send) == Unfinished(s.send)
    ensures RowLeft(s'.warm) == RowLeft(s.warm)
  {
    hide RowLeft, Unfinished;
    match s.pc
    case FirstPrepare(i) =>
      if i < |t[0]| {
        assert TaskOk(s, 0, i);
        UnfinishedUpdate(s.prepare, 0, i, Running);
      }
    case WarmUp(i) =>
      if i < |t[0]| {
        assert WarmStatusOk(s, i);
        RowUpdate(s.warm, i, Running);
      }
    case Send(r, i) =>
      if i < |t[r]| {
        assert TaskOk(s, r, i);
        UnfinishedUpdate(s.send, r, i, Running);
      }
    case Prepare(r, i) =>
      if r + 1 < |t| && i < |t[r + 1]| {
        assert TaskOk(s, r + 1, i);
        UnfinishedUpdate(s.prepare, r + 1, i, Running);
      }
    case _ =>
  }

  lemma WorkerLowers(t: Table, s: State, s': State, r: nat, i: nat)
    requires WorkerStep(t, s, s', r, i)
    ensures Measure(t, s') < Measure(t, s)
  {
    hide RowLeft, Unfinished, StepsLeft;
    if s.prepare[r][i] == Running && s'.prepare == Put(s.prepare, r, i, Finished) {
      UnfinishedUpdate(s.prepare, r, i, Finished);
    }
    if s.send[r][i] == Running && s'.send == Put(s.send, r, i, Finished) {
      UnfinishedUpdate(s.send, r, i, Finished);
    }
    if r == 0 && s.warm[i] == Running && s'.warm == s.warm[i := Finished] {
      RowUpdate(s.warm, i, Finished);
    }
  }

  lemma {:induction false} EachStepLowers(t: Table, run: seq<State>, k: nat)
    requires IsRun(t, run) && k < |run|
    ensures Measure(t, run[k]) + k <= Measure(t, run[0])
  {
    if k > 0 {
      EachStepLowers(t, run, k - 1);
      RunKeepsInv(t, run, k - 1);
      assert Step(t, run[k - 1], run[k - 1 + 1]);
      if CoordinatorStep(t, run[k - 1], run[k]) {
        CoordinatorLowers(t, run[k - 1], run[k]);
      } else {
        var r: nat, i: nat :| WorkerStep(t, run[k - 1], run[k], r, i);
        WorkerLowers(t, run[k - 1], run[k], r, i);
      }
    }
  }

  /** No run is longer than the measure of its first state. */
  lemma RunsAreFinite(t: Table, run: seq<State>)
    requires IsRun(t, run)
    ensures |run| <= Measure(t, run[0]) + 1
  {
    EachStepLowers(t, run, |run| - 1);
    RunKeepsInv(t, run, |run| - 1);
    MeasureAtLeastZero(t, run[|run| - 1]);
  }

  /** Every run can be carried on until the coordinator has ended. */
  lemma {:induction false} ReachesTheEnd(t: Table, run: seq<State>) returns (whole: seq<State>)
    requires IsRun(t, run)
    ensures IsRun(t, whole) && run <= whole && whole[|whole| - 1].pc.Ended?
    decreases Measure(t, run[0]) + 1 - |run|
  {
    RunsAreFinite(t, run);
    var last := |run| - 1;
    if run[last].pc.Ended? {
      whole := run;
    } else {
      var next := NeverStuck(t, run, last);
      OneStepMore(t, run, next);
      RunsAreFinite(t, run + [next]);
      whole := ReachesTheEnd(t, run + [next]);
    }
  }

  lemma OneStepMore(t: Table, run: seq<State>, next: State)
    requires IsRun(t, run) && Step(t, run[|run| - 1], next)
    ensures IsRun(t, run + [next])
  {
    hide Step, Init;
    var longer := run + [next];
    forall k | 0 <= k < |longer| - 1
      ensures Step(t, longer[k], longer[k + 1])
    {
      assert k < |run| - 1 ==> longer[k] == run[k] && longer[k + 1] == run[k + 1];
    }
  }
}
