/** Turning scheduled rounds into help tasks: each link's task list is popped as its rounds come up. */
module TaskDispatch {
  import opened Links
  import opened Decomposition

  /** A help task, named by stripe, repair plan and help cluster. */
  datatype HelpTask = HelpTask(stripeIdx: int, planI: int, helpJ: int)

  /** A help task together with the clusters of the link it is sent over. */
  datatype RoundTask = RoundTask(task: HelpTask, src: int, dst: int)

  type LinkTasks = map<(int, int), seq<HelpTask>>

  /** The tasks still listed for a link; a link that was never listed has none. */
  function Listed(tasks: LinkTasks, s: int, d: int): seq<HelpTask> {
    if (s, d) in tasks then tasks[(s, d)] else []
  }

  function Reverse(s: seq<HelpTask>): seq<HelpTask> {
    if s == [] then [] else [s[|s| - 1]] + Reverse(s[..|s| - 1])
  }

  /** The tasks sent over the link (s, d), in sending order. */
  ghost function SentOver(log: seq<RoundTask>, s: int, d: int): seq<HelpTask> {
    if log == [] then []
    else SentOver(log[..|log| - 1], s, d)
         + (if log[|log| - 1].src == s && log[|log| - 1].dst == d then [log[|log| - 1].task] else [])
  }

  ghost function Flatten(table: seq<seq<RoundTask>>): seq<RoundTask> {
    if table == [] then [] else Flatten(table[..|table| - 1]) + table[|table| - 1]
  }

  /** No help task is listed twice, on one link or on two. */
  ghost predicate NoTaskTwice(tasks: LinkTasks) {
    forall s, d, i, s', d', i' | 0 <= i < |Listed(tasks, s, d)| && 0 <= i' < |Listed(tasks, s', d')| ::
      Listed(tasks, s, d)[i] == Listed(tasks, s', d')[i'] ==> s == s' && d == d' && i == i'
  }

  ghost predicate NoTaskSentTwice(log: seq<RoundTask>) {
    forall a, b :: 0 <= a < b < |log| ==> log[a].task != log[b].task
  }

  /** The task list of every link has as many tasks as the rounds give it slots. */
  ghost predicate SlotsFor(rounds: seq<ScheduleRound>, tasks: LinkTasks) {
    forall s, d :: RoundsUsing(rounds, s, d) == |Listed(tasks, s, d)|
  }

  /** Whatever was sent over a link, followed by what is still listed, last first, is the original list reversed. */
  ghost predicate SentFromBack(log: seq<RoundTask>, rest: LinkTasks, tasks: LinkTasks) {
    forall s, d :: Accounted(log, rest, tasks, s, d)
  }

  ghost predicate Accounted(log: seq<RoundTask>, rest: LinkTasks, tasks: LinkTasks, s: int, d: int) {
    SentOver(log, s, d) + Reverse(Listed(rest, s, d)) == Reverse(Listed(tasks, s, d))
  }

  /** The round's tasks follow the round's edges one for one. */
  ghost predicate FollowsEdges(sent: seq<RoundTask>, edges: seq<ScheduledLink>) {
    |sent| == |edges| &&
    forall j :: 0 <= j < |sent| ==> sent[j].src == edges[j].src && sent[j].dst == edges[j].dst
  }

  lemma SentStep(log: seq<RoundTask>, one: RoundTask, s: int, d: int)
    ensures SentOver(log + [one], s, d)
            == SentOver(log, s, d) + (if one.src == s && one.dst == d then [one.task] else [])
  {
    assert (log + [one])[..|log|] == log;
  }

  lemma PopStepAt(log: seq<RoundTask>, rest: LinkTasks, tasks: LinkTasks, src: int, dst: int, s: int, d: int)
    requires Accounted(log, rest, tasks, s, d) && Listed(rest, src, dst) != []
    ensures var l := Listed(rest, src, dst);
            Accounted(log + [RoundTask(l[|l| - 1], src, dst)], rest[(src, dst) := l[..|l| - 1]], tasks, s, d)
  {
    var l := Listed(rest, src, dst);
    var one, rest' := RoundTask(l[|l| - 1], src, dst), rest[(src, dst) := l[..|l| - 1]];
    var sent := SentOver(log, s, d);
    SentStep(log, one, s, d);
    if s == src && d == dst {
      assert Reverse(l) == [one.task] + Reverse(l[..|l| - 1]);
      assert sent + ([one.task] + Reverse(l[..|l| - 1])) == (sent + [one.task]) + Reverse(l[..|l| - 1]);
    } else {
      assert Listed(rest', s, d) == Listed(rest, s, d);
      assert sent + [] == sent;
    }
  }

  /** Popping the last task of a link and sending it over that link keeps the lists accounted for. */
  lemma PopStep(log: seq<RoundTask>, rest: LinkTasks, tasks: LinkTasks, src: int, dst: int)
    requires SentFromBack(log, rest, tasks) && Listed(rest, src, dst) != []
    ensures var l := Listed(rest, src, dst);
            SentFromBack(log + [RoundTask(l[|l| - 1], src, dst)], rest[(src, dst) := l[..|l| - 1]], tasks)
  {
    var l := Listed(rest, src, dst);
    var log', rest' := log + [RoundTask(l[|l| - 1], src, dst)], rest[(src, dst) := l[..|l| - 1]];
    forall s, d
      ensures Accounted(log', rest', tasks, s, d)
    {
      PopStepAt(log, rest, tasks, src, dst, s, d);
    }
  }

  ghost predicate UsedUpTo(edges: seq<ScheduledLink>, j: nat, s: int, d: int) {
    exists i :: 0 <= i < j && i < |edges| && edges[i].src == s && edges[i].dst == d
  }

  /** After j edges of a round each of their links has lost one task and no other link has. */
  ghost predicate OneEach(now: LinkTasks, before: LinkTasks, edges: seq<ScheduledLink>, j: nat) {
    forall s, d :: OneLess(now, before, edges, j, s, d)
  }

  ghost predicate OneLess(now: LinkTasks, before: LinkTasks, edges: seq<ScheduledLink>, j: nat, s: int, d: int) {
    |Listed(now, s, d)| == |Listed(before, s, d)| - (if UsedUpTo(edges, j, s, d) then 1 else 0)
  }

  lemma NonePopped(before: LinkTasks, edges: seq<ScheduledLink>)
    ensures OneEach(before, before, edges, 0)
  {
  }

  lemma OneEachStep(now: LinkTasks, before: LinkTasks, edges: seq<ScheduledLink>, j: nat)
    requires j < |edges| && IsMatching(ScheduleRound(edges, 1)) && OneEach(now, before, edges, j)
    requires |Listed(before, edges[j].src, edges[j].dst)| > 0
    ensures var l := Listed(now, edges[j].src, edges[j].dst);
            l != [] && OneEach(now[(edges[j].src, edges[j].dst) := l[..|l| - 1]], before, edges, j + 1)
  {
    var a, b := edges[j].src, edges[j].dst;
    assert !UsedUpTo(edges, j, a, b);
    assert OneLess(now, before, edges, j, a, b);
    var l := Listed(now, a, b);
    var now' := now[(a, b) := l[..|l| - 1]];
    var next := j + 1;
    forall s, d
      ensures OneLess(now', before, edges, next, s, d)
    {
      assert OneLess(now, before, edges, j, s, d);
      assert UsedUpTo(edges, next, s, d) <==> UsedUpTo(edges, j, s, d) || (s == a && d == b);
    }
  }

  /** Pops `take` tasks of the link (src, dst), last first. */
  method PopTasks(take: nat, src: int, dst: int, before: LinkTasks) returns (popped: seq<RoundTask>, rest: LinkTasks)
    requires take <= |Listed(before, src, dst)|
    ensures |popped| == take
    ensures var l := Listed(before, src, dst);
            && (forall t :: 0 <= t < take ==> popped[t] == RoundTask(l[|l| - 1 - t], src, dst))
            && rest == if take == 0 then before else before[(src, dst) := l[..|l| - take]]
  {
    popped, rest := [], before;
    ghost var l := Listed(before, src, dst);
    for t := 0 to take
      invariant |popped| == t && forall i :: 0 <= i < t ==> popped[i] == RoundTask(l[|l| - 1 - i], src, dst)
      invariant rest == if t == 0 then before else before[(src, dst) := l[..|l| - t]]
    {
      var list := Listed(rest, src, dst);
      assert list == l[..|l| - t];
      popped := popped + [RoundTask(list[|list| - 1], src, dst)];
      rest := rest[(src, dst) := list[..|list| - 1]];
      assert list[..|list| - 1] == l[..|l| - (t + 1)];
      assert rest == before[(src, dst) := l[..|l| - (t + 1)]];
    }
  }

  /** Pops, for each edge of a round, as many tasks of its link as its weight asks for. */
  method DispatchRound(edges: seq<ScheduledLink>, before: LinkTasks, ghost log: seq<RoundTask>, ghost tasks: LinkTasks)
    returns (sent: seq<RoundTask>, rest: LinkTasks)
    requires IsMatching(ScheduleRound(edges, 1)) && SentFromBack(log, before, tasks)
    requires forall j :: 0 <= j < |edges| ==> |Listed(before, edges[j].src, edges[j].dst)| > 0
    ensures FollowsEdges(sent, edges)
    ensures SentFromBack(log + sent, rest, tasks)
    ensures OneEach(rest, before, edges, |edges|)
  {
    hide SentFromBack, OneEach, Listed;
    sent, rest := [], before;
    NonePopped(before, edges);
    assert log + [] == log;
    for j := 0 to |edges|
      invariant FollowsEdges(sent, edges[..j])
      invariant SentFromBack(log + sent, rest, tasks)
      invariant OneEach(rest, before, edges, j)
    {
      var e := edges[j];
      OneEachStep(rest, before, edges, j);
      var take := if e.weight < |Listed(rest, e.src, e.dst)| then e.weight else |Listed(rest, e.src, e.dst)|;
      ghost var sent0, rest0 := sent, rest;
      var popped;
      popped, rest := PopTasks(take, e.src, e.dst, rest);
      sent := sent + popped;
      PopStep(log + sent0, rest0, tasks, e.src, e.dst);
      ghost var l := Listed(rest0, e.src, e.dst);
      assert popped == [RoundTask(l[|l| - 1], e.src, e.dst)];
      assert (log + sent0) + popped == log + sent;
      assert edges[..j + 1] == edges[..j] + [e];
    }
    assert edges[..|edges|] == edges;
  }

  /** How many tasks each link has left after the first r rounds. */
  ghost predicate LeftAfter(now: LinkTasks, tasks: LinkTasks, rounds: seq<ScheduleRound>, r: nat) {
    r <= |rounds| && forall s, d :: LeftAt(now, tasks, rounds[..r], s, d)
  }

  ghost predicate LeftAt(now: LinkTasks, tasks: LinkTasks, done: seq<ScheduleRound>, s: int, d: int) {
    |Listed(now, s, d)| == |Listed(tasks, s, d)| - RoundsUsing(done, s, d)
  }

  lemma {:induction false} MoreRoundsUseMore(rounds: seq<ScheduleRound>, r: nat, s: int, d: int)
    requires r <= |rounds|
    ensures RoundsUsing(rounds[..r], s, d) <= RoundsUsing(rounds, s, d)
  {
    if r < |rounds| {
      var rest := rounds[..|rounds| - 1];
      assert rest[..r] == rounds[..r];
      MoreRoundsUseMore(rest, r, s, d);
    } else {
      assert rounds[..r] == rounds;
    }
  }

  lemma EnoughForRound(now: LinkTasks, tasks: LinkTasks, rounds: seq<ScheduleRound>, r: nat, j: nat)
    requires r < |rounds| && j < |rounds[r].edges| && LeftAfter(now, tasks, rounds, r) && SlotsFor(rounds, tasks)
    ensures |Listed(now, rounds[r].edges[j].src, rounds[r].edges[j].dst)| > 0
  {
    var s, d := rounds[r].edges[j].src, rounds[r].edges[j].dst;
    assert Uses(rounds[r], s, d);
    assert rounds[..r + 1] == rounds[..r] + [rounds[r]];
    RoundStep(rounds[..r], rounds[r], s, d);
    MoreRoundsUseMore(rounds, r + 1, s, d);
    assert LeftAt(now, tasks, rounds[..r], s, d);
  }

  lemma LeftStep(now: LinkTasks, before: LinkTasks, tasks: LinkTasks, rounds: seq<ScheduleRound>, r: nat)
    requires r < |rounds| && LeftAfter(before, tasks, rounds, r)
    requires OneEach(now, before, rounds[r].edges, |rounds[r].edges|)
    ensures LeftAfter(now, tasks, rounds, r + 1)
  {
    var done := rounds[..r + 1];
    assert done == rounds[..r] + [rounds[r]];
    forall s, d
      ensures LeftAt(now, tasks, done, s, d)
    {
      RoundStep(rounds[..r], rounds[r], s, d);
      assert LeftAt(before, tasks, rounds[..r], s, d);
      assert OneLess(now, before, rounds[r].edges, |rounds[r].edges|, s, d);
      assert UsedUpTo(rounds[r].edges, |rounds[r].edges|, s, d) <==> Uses(rounds[r], s, d);
    }
  }

  /**
   Builds the round-by-round task table. When the rounds give every link exactly as many slots as it
   has tasks, every list ends up empty and every link sends its own list, last task first.
   */
  method BuildRoundTable(rounds: seq<ScheduleRound>, tasks: LinkTasks)
    returns (table: seq<seq<RoundTask>>, rest: LinkTasks)
    requires SlotsFor(rounds, tasks)
    requires forall r :: 0 <= r < |rounds| ==> rounds[r].weight == 1 && IsMatching(rounds[r])
    ensures |table| == |rounds| && forall r :: 0 <= r < |table| ==> FollowsEdges(table[r], rounds[r].edges)
    ensures forall s, d :: Listed(rest, s, d) == []
    ensures forall s, d :: SentOver(Flatten(table), s, d) == Reverse(Listed(tasks, s, d))
  {
    table, rest := [], tasks;
    NothingSentYet(tasks);
    for r := 0 to |rounds|
      invariant |table| == r && forall q :: 0 <= q < r ==> FollowsEdges(table[q], rounds[q].edges)
      invariant SentFromBack(Flatten(table), rest, tasks)
      invariant LeftAfter(rest, tasks, rounds, r)
    {
      forall j | 0 <= j < |rounds[r].edges|
        ensures |Listed(rest, rounds[r].edges[j].src, rounds[r].edges[j].dst)| > 0
      {
        EnoughForRound(rest, tasks, rounds, r, j);
      }
      ghost var before, table0 := rest, table;
      var sent;
      sent, rest := DispatchRound(rounds[r].edges, rest, Flatten(table), tasks);
      LeftStep(rest, before, tasks, rounds, r);
      table := table + [sent];
      assert table[..|table| - 1] == table0;
    }
    AllListsEmpty(Flatten(table), rest, tasks, rounds);
  }

  lemma NothingSentYet(tasks: LinkTasks)
    ensures SentFromBack([], tasks, tasks)
  {
    forall s, d
      ensures Accounted([], tasks, tasks, s, d)
    {
      assert [] + Reverse(Listed(tasks, s, d)) == Reverse(Listed(tasks, s, d));
    }
  }

  lemma AllListsEmpty(log: seq<RoundTask>, rest: LinkTasks, tasks: LinkTasks, rounds: seq<ScheduleRound>)
    requires SlotsFor(rounds, tasks) && LeftAfter(rest, tasks, rounds, |rounds|) && SentFromBack(log, rest, tasks)
    ensures forall s, d :: Listed(rest, s, d) == []
    ensures forall s, d :: SentOver(log, s, d) == Reverse(Listed(tasks, s, d))
  {
    assert rounds[..|rounds|] == rounds;
    forall s, d
      ensures Listed(rest, s, d) == [] && SentOver(log, s, d) == Reverse(Listed(tasks, s, d))
    {
      assert LeftAt(rest, tasks, rounds[..|rounds|], s, d) && Accounted(log, rest, tasks, s, d);
      assert SentOver(log, s, d) + [] == SentOver(log, s, d);
    }
  }

  lemma {:induction false} ReverseAt(l: seq<HelpTask>, i: nat)
    requires i < |l|
    ensures |Reverse(l)| == |l| && Reverse(l)[i] == l[|l| - 1 - i]
  {
    if |l| > 1 {
      ReverseAt(l[..|l| - 1], if i == 0 then 0 else i - 1);
    }
  }

  /** The task at position a of the log is where its link's history says, after the link's earlier ones. */
  lemma {:induction false} SentAt(log: seq<RoundTask>, a: nat, s: int, d: int)
    requires a < |log| && log[a].src == s && log[a].dst == d
    ensures |SentOver(log[..a], s, d)| < |SentOver(log[..a + 1], s, d)| <= |SentOver(log, s, d)|
    ensures SentOver(log, s, d)[|SentOver(log[..a], s, d)|] == log[a].task
  {
    var n := |log| - 1;
    if a == n {
      assert log[..a + 1] == log;
    } else {
      assert log[..n][..a] == log[..a] && log[..n][..a + 1] == log[..a + 1];
      SentAt(log[..n], a, s, d);
    }
  }

  lemma {:induction false} HistoryGrows(log: seq<RoundTask>, a: nat, b: nat, s: int, d: int)
    requires a <= b <= |log|
    ensures |SentOver(log[..a], s, d)| <= |SentOver(log[..b], s, d)|
  {
    if a < b {
      assert log[..b][..b - 1] == log[..b - 1];
      HistoryGrows(log, a, b - 1, s, d);
    }
  }

  /** When every link sends exactly its own list, tasks that are listed once are sent once. */
  lemma NothingSentTwice(log: seq<RoundTask>, tasks: LinkTasks)
    requires NoTaskTwice(tasks)
    requires forall s, d :: SentOver(log, s, d) == Reverse(Listed(tasks, s, d))
    ensures NoTaskSentTwice(log)
  {
    hide NoTaskTwice, SentOver, Reverse, Listed;
    forall a, b | 0 <= a < b < |log|
      ensures log[a].task != log[b].task
    {
      EntriesApart(log, tasks, a, b);
    }
  }

  lemma EntriesApart(log: seq<RoundTask>, tasks: LinkTasks, a: nat, b: nat)
    requires NoTaskTwice(tasks) && a < b < |log|
    requires forall s, d :: SentOver(log, s, d) == Reverse(Listed(tasks, s, d))
    ensures log[a].task != log[b].task
  {
    hide SentOver, Reverse, Listed;
    var i := ListedAs(log, tasks, a);
    var j := ListedAs(log, tasks, b);
    if log[a].src == log[b].src && log[a].dst == log[b].dst {
      HistoryGrows(log, a + 1, b, log[a].src, log[a].dst);
      SentAt(log, a, log[a].src, log[a].dst);
    }
  }

  /** Where in its link's list the task at position a of the log comes from. */
  lemma ListedAs(log: seq<RoundTask>, tasks: LinkTasks, a: nat) returns (i: nat)
    requires a < |log|
    requires forall s, d :: SentOver(log, s, d) == Reverse(Listed(tasks, s, d))
    ensures var l := Listed(tasks, log[a].src, log[a].dst);
            && i == |l| - 1 - |SentOver(log[..a], log[a].src, log[a].dst)|
            && i < |l| && l[i] == log[a].task
  {
    var s, d := log[a].src, log[a].dst;
    var l, before := Listed(tasks, s, d), |SentOver(log[..a], s, d)|;
    SentAt(log, a, s, d);
    assert |Reverse(l)| > 0;
    ReverseAt(l, 0);
    ReverseAt(l, before);
    i := |l| - 1 - before;
  }

  lemma {:induction false} SentIsInLog(log: seq<RoundTask>, s: int, d: int, k: nat) returns (a: nat)
    requires k < |SentOver(log, s, d)|
    ensures a < |log| && log[a] == RoundTask(SentOver(log, s, d)[k], s, d)
  {
    var n := |log| - 1;
    if k < |SentOver(log[..n], s, d)| {
      a := SentIsInLog(log[..n], s, d, k);
    } else {
      a := n;
    }
  }

  /** When every link sends exactly its own list, every listed task is sent. */
  lemma EveryTaskSent(log: seq<RoundTask>, tasks: LinkTasks, s: int, d: int, i: nat)
    requires i < |Listed(tasks, s, d)| && SentOver(log, s, d) == Reverse(Listed(tasks, s, d))
    ensures RoundTask(Listed(tasks, s, d)[i], s, d) in log
  {
    var l := Listed(tasks, s, d);
    ReverseAt(l, |l| - 1 - i);
    var a := SentIsInLog(log, s, d, |l| - 1 - i);
  }

  /** Turns the task lists into weighted links for the scheduler, in any key order. */
  method CollectLinks(tasks: LinkTasks) returns (links: seq<ScheduledLink>)
    requires forall key :: key in tasks ==> key.0 >= 1 && key.1 >= 1
    ensures PhysicalLinks(links)
    ensures forall s, d :: RealWeight(links, s, d) == |Listed(tasks, s, d)|
  {
    links := [];
    var keys, todo := {}, tasks.Keys;
    while todo != {}
      invariant keys + todo == tasks.Keys && keys !! todo
      invariant PhysicalLinks(links)
      invariant forall s, d :: RealWeight(links, s, d) == if (s, d) in keys then |Listed(tasks, s, d)| else 0
      decreases todo
    {
      var key: (int, int) :| key in todo;
      var link := ScheduledLink(key.0, key.1, |tasks[key]|, false);
      forall s, d {
        ExtendReal(links, link, s, d);
      }
      links := links + [link];
      keys, todo := keys + {key}, todo - {key};
    }
  }
}
