/** Deadlock freedom and termination of the token refresh. */
module RefreshProgress {
  import opened TokenRefresh
  import opened RefreshSafety

  /** Task `t` can move on by itself, without being cancelled. */
  ghost predicate CanMove(cfg: Config, s: System, t: nat) {
    WellShaped(s) && t < |s.tasks| &&
    exists c: Choice :: !c.Cancel? && FreshToken(s, t, c) && Step(cfg, s, t, c).Some?
  }

  predicate WaitsForSlot(stage: Stage) {
    stage.WaitSlot?
  }

  predicate WaitsForClient(stage: Stage) {
    InAdmin(stage) && stage.admin.WaitClient?
  }

  /** The choice that moves a task that waits for no lock. */
  function Move(stage: Stage): Choice {
    if stage.FirstRequest? || stage.SecondRequest? || stage.PatchInFlight? || Fetching(stage) then
      Answer(1, Rejected)
    else Go
  }

  /** A task moves unless it is done, or the lock it waits for is taken. */
  lemma MovesUnlessBlocked(cfg: Config, s: System, t: nat)
    requires WellShaped(s) && t < |s.tasks| && !s.tasks[t].stage.Done?
    requires WaitsForSlot(s.tasks[t].stage) ==> s.slots[s.tasks[t].slot].lock.None?
    requires WaitsForClient(s.tasks[t].stage) ==> s.clientLock.None?
    ensures CanMove(cfg, s, t)
  {
    var c := Move(s.tasks[t].stage);
    assert LocalStep(cfg, s.now, t, ViewOf(s, t), c).Some?;
    assert Step(cfg, s, t, c).Some? && FreshToken(s, t, c);
  }

  /** Follow the locks: the holder of the client lock waits for nothing, and the
      holder of a session lock waits at most for the client lock. */
  lemma SomeoneMoves(cfg: Config, s: System, t: nat) returns (u: nat)
    requires Inv(cfg, s) && t < |s.tasks| && !s.tasks[t].stage.Done?
    ensures CanMove(cfg, s, u)
  {
    if s.clientLock.Some? {
      u := s.clientLock.value;
    } else if WaitsForSlot(s.tasks[t].stage) && s.slots[s.tasks[t].slot].lock.Some? {
      u := s.slots[s.tasks[t].slot].lock.value;
    } else {
      u := t;
    }
    MovesUnlessBlocked(cfg, s, u);
  }

  /** Deadlock freedom: while some operation is unfinished, some task can move. */
  lemma NeverDeadlocked(cfg: Config, novel: bool, run: seq<System>, i: nat, t: nat)
    requires Run(cfg, novel, run) && i < |run| && t < |run[i].tasks| && !run[i].tasks[t].stage.Done?
    ensures exists u :: CanMove(cfg, run[i], u)
  {
    RunKeepsInv(cfg, novel, run, i);
    var u := SomeoneMoves(cfg, run[i], t);
  }

  // ----- Termination -----

  function PhaseRank(admin: Admin): nat {
    match admin
    case Look => 6
    case WaitClient => 5
    case LookAgain => 4
    case Fetch(left) => if left <= 3 then left else 3
  }

  /** How many steps a task at this stage can still take. */
  function Rank(stage: Stage): nat {
    match stage
    case Start => 32
    case FirstUrl(_, admin) => 25 + PhaseRank(admin)
    case FirstRequest(_) => 25
    case WaitSlot(_) => 24
    case Recheck(_) => 23
    case PatchUrl(_, admin) => 16 + PhaseRank(admin)
    case PatchAuth(_, _, admin) => 10 + PhaseRank(admin)
    case PatchReady(_, _, _) => 10
    case PatchInFlight(_, _, _) => 9
    case Reread(_) => 8
    case SecondUrl(_, _, admin) => 1 + PhaseRank(admin)
    case SecondRequest(_, _) => 1
    case Done(_) => 0
  }

  function TotalRank(tasks: seq<Task>): nat {
    if tasks == [] then 0 else Rank(tasks[0].stage) + TotalRank(tasks[1..])
  }

  lemma AdminRankFalls(cfg: Config, now: int, t: nat, v: View, c: Choice)
    requires v.slot.Valid() && InAdmin(v.task.stage) && AdminStageOk(cfg, v.task.stage)
    requires AdminStep(cfg, now, t, v, c).Some?
    ensures Rank(AdminStep(cfg, now, t, v, c).value.task.stage) < Rank(v.task.stage)
  {
  }

  lemma LocalRankFalls(cfg: Config, now: int, t: nat, v: View, c: Choice)
    requires v.slot.Valid() && AdminStageOk(cfg, v.task.stage)
    requires LocalStep(cfg, now, t, v, c).Some?
    ensures Rank(LocalStep(cfg, now, t, v, c).value.task.stage) < Rank(v.task.stage)
  {
    if c.Cancel? {
      assert LocalStep(cfg, now, t, v, c).value.task.stage == Done(Cancelled);
    } else if InAdmin(v.task.stage) {
      AdminRankFalls(cfg, now, t, v, c);
    } else if HoldsSlot(v.task.stage) || v.task.stage.WaitSlot? {
      assert LocalStep(cfg, now, t, v, c) == RefreshStep(t, v, c);
    } else {
      assert LocalStep(cfg, now, t, v, c) == QueueStep(v, c);
    }
  }

  lemma StepRankFalls(cfg: Config, s: System, t: nat, c: Choice)
    requires Inv(cfg, s) && t < |s.tasks| && Step(cfg, s, t, c).Some?
    ensures TotalRank(Step(cfg, s, t, c).value.tasks) < TotalRank(s.tasks)
  {
    LocalRankFalls(cfg, s.now, t, ViewOf(s, t), c);
    TotalRankFalls(s.tasks, Step(cfg, s, t, c).value.tasks, t);
  }

  lemma {:induction false} TotalRankFalls(before: seq<Task>, after: seq<Task>, t: nat)
    requires t < |before| && |after| == |before|
    requires forall u :: 0 <= u < |before| && u != t ==> after[u] == before[u]
    requires Rank(after[t].stage) < Rank(before[t].stage)
    ensures TotalRank(after) < TotalRank(before)
  {
    if t == 0 {
      assert after[1..] == before[1..];
    } else {
      TotalRankFalls(before[1..], after[1..], t - 1);
    }
  }

  lemma {:induction false} TotalRankBound(tasks: seq<Task>)
    ensures TotalRank(tasks) <= 32 * |tasks|
  {
    if tasks != [] {
      TotalRankBound(tasks[1..]);
    }
  }

  /** The number of steps of the run in which some task moved. */
  ghost function TaskSteps(run: seq<System>): nat {
    if |run| <= 1 then 0
    else TaskSteps(run[..|run| - 1]) + (if Tick(run[|run| - 2], run[|run| - 1]) then 0 else 1)
  }

  lemma NextConsumesRank(cfg: Config, novel: bool, s: System, s': System)
    requires Inv(cfg, s) && Next(cfg, novel, s, s')
    ensures TotalRank(s'.tasks) + (if Tick(s, s') then 0 else 1) <= TotalRank(s.tasks)
  {
    if !Tick(s, s') {
      var t, c :| TaskStep(cfg, novel, s, s', t, c);
      StepRankFalls(cfg, s, t, c);
    }
  }

  lemma PrefixIsRun(cfg: Config, novel: bool, run: seq<System>)
    requires Run(cfg, novel, run) && |run| > 1
    ensures Run(cfg, novel, run[..|run| - 1])
  {
    var prefix := run[..|run| - 1];
    forall i | 0 < i < |prefix|
      ensures NextAt(cfg, novel, prefix, i)
    {
      assert NextAt(cfg, novel, run, i);
    }
  }

  lemma {:induction false} StepsConsumeRank(cfg: Config, novel: bool, run: seq<System>)
    requires Run(cfg, novel, run)
    ensures TaskSteps(run) + TotalRank(run[|run| - 1].tasks) <= TotalRank(run[0].tasks)
  {
    if |run| > 1 {
      PrefixIsRun(cfg, novel, run);
      StepsConsumeRank(cfg, novel, run[..|run| - 1]);
      RunKeepsInv(cfg, novel, run, |run| - 2);
      assert NextAt(cfg, novel, run, |run| - 1);
      NextConsumesRank(cfg, novel, run[|run| - 2], run[|run| - 1]);
    }
  }

  /** Every operation ends: a run has at most 32 steps per task, and a run that
      no task can extend has finished all of them. */
  lemma EveryRunEnds(cfg: Config, novel: bool, run: seq<System>)
    requires Run(cfg, novel, run)
    ensures TaskSteps(run) <= 32 * |run[0].tasks|
    ensures
      var last := run[|run| - 1];
      (forall u :: !CanMove(cfg, last, u)) ==> forall t :: 0 <= t < |last.tasks| ==> last.tasks[t].stage.Done?
  {
    StepsConsumeRank(cfg, novel, run);
    TotalRankBound(run[0].tasks);
    var last := run[|run| - 1];
    if forall u :: !CanMove(cfg, last, u) {
      forall t | 0 <= t < |last.tasks|
        ensures last.tasks[t].stage.Done?
      {
        if !last.tasks[t].stage.Done? {
          NeverDeadlocked(cfg, novel, run, |run| - 1, t);
        }
      }
    }
  }
}
