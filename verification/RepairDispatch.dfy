/** From collected help tasks to a conflict-free round table. */
module RepairDispatch {
  import opened Links
  import opened Decomposition
  import opened Scheduling
  import opened TaskDispatch

  /** The rounds the table is made of: no source and no destination cluster twice in one round. */
  ghost predicate ConflictFree(round: seq<RoundTask>) {
    forall i, j :: 0 <= i < j < |round| ==> round[i].src != round[j].src && round[i].dst != round[j].dst
  }

  /** The links have, for each pair of clusters, the weight of that pair's task list. */
  ghost predicate LinksOf(links: seq<ScheduledLink>, tasks: LinkTasks) {
    PhysicalLinks(links) && forall s, d :: RealWeight(links, s, d) == |Listed(tasks, s, d)|
  }

  /** D is the number of tasks of the cluster that has most to send, or most to receive. */
  ghost predicate Busiest(tasks: LinkTasks, D: int) {
    exists links :: LinksOf(links, tasks) && IsMaxDegree(links, D)
  }

  lemma SlotsMatchTasks(rounds: seq<ScheduleRound>, links: seq<ScheduledLink>, tasks: LinkTasks)
    requires LinksOf(links, tasks) && Decomposes(rounds, links)
    ensures SlotsFor(rounds, tasks)
  {
    forall s, d
      ensures RoundsUsing(rounds, s, d) == |Listed(tasks, s, d)|
    {
      assert RoundsUsing(rounds, s, d) == RealWeight(links, s, d);
    }
  }

  lemma RoundsConflictFree(table: seq<seq<RoundTask>>, rounds: seq<ScheduleRound>, r: nat)
    requires r < |table| == |rounds| && FollowsEdges(table[r], rounds[r].edges)
    requires IsMatching(rounds[r]) && rounds[r].edges != []
    ensures table[r] != [] && ConflictFree(table[r])
  {
  }

  /**
   Schedules the collected help tasks: the rounds are conflict-free, there are as many as the busiest
   cluster has tasks, every link's list is emptied and sent in order from its back, and a task that
   was collected once is sent once.
   */
  method ScheduleHelpTasks(tasks: LinkTasks) returns (table: seq<seq<RoundTask>>, rest: LinkTasks)
    requires forall key :: key in tasks ==> key.0 >= 1 && key.1 >= 1
    ensures forall r :: 0 <= r < |table| ==> table[r] != [] && ConflictFree(table[r])
    ensures Busiest(tasks, |table|)
    ensures forall s, d :: Listed(rest, s, d) == []
    ensures forall s, d :: SentOver(Flatten(table), s, d) == Reverse(Listed(tasks, s, d))
    ensures NoTaskTwice(tasks) ==> NoTaskSentTwice(Flatten(table))
  {
    var links := CollectLinks(tasks);
    assert LinksOf(links, tasks);
    var scheduler := new RepairScheduler();
    var rounds := scheduler.ComputeSchedule(links);
    SlotsMatchTasks(rounds, links, tasks);
    table, rest := BuildRoundTable(rounds, tasks);
    forall r | 0 <= r < |table| {
      RoundsConflictFree(table, rounds, r);
    }
    if NoTaskTwice(tasks) {
      NothingSentTwice(Flatten(table), tasks);
    }
  }
}
