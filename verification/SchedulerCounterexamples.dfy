/** What goes wrong when a pre-task is registered overtaken, as concrete runs. In all of
    them one thread registers and one worker runs. */
module SchedulerCounterexamples {
  import opened SchedulerModel
  import opened SchedulerInvariant
  import opened SchedulerSteps
  import opened SchedulerTheorems
  import opened SchedulerClosing

  const FREE_TASK := TaskSpec(0, [], {})

  /** 0 and 2 have no pre-task, 1 waits for 0, and 3 lists the given pre-tasks. */
  function Diamond(pres: seq<nat>): seq<TaskSpec> {
    [FREE_TASK, TaskSpec(0, [0], {}), FREE_TASK, TaskSpec(0, pres, {})]
  }

  const CALLED_0 := Task(0, false, [Slot(1, 0)], None, [], 0, true, false, true, 1, 1, 1, 0, 0, 0)

  /** The only worker has popped p, called its function and taken its lock. */
  function Entered(s: State, p: nat): State
    requires p < |s.tasks|
  {
    var k := s.tasks[p];
    s.(queue := s.queue - multiset{p}, workers := [Notifying(p)],
       tasks := s.tasks[p := k.(starts := k.starts + 1, calls := if k.exits == 0 then k.calls + 1 else k.calls,
                                exits := k.exits + 1, locks := k.locks + 1, lock := Some(0))])
  }

  lemma EnteringRun(s: State, p: nat)
    requires |s.workers| == 1 && CanPop(s, 0, p) && s.prog[p].waits == {} && Free(s, p)
    ensures Run(s, [Pop(0, p), Return(0), Acquire(0)], Entered(s, p))
  {
    var s1 := PopTask(s, 0, p);
    var s2 := ReturnFromCall(s1, 0);
    var s3 := AcquireLock(s2, 0);
    assert s3.tasks == Entered(s, p).tasks;
    assert s3 == Entered(s, p);
    assert Run(s3, [], s3) && Run(s2, [Acquire(0)], s3) by { assert [Acquire(0)][1..] == []; }
    assert [Return(0), Acquire(0)][1..] == [Acquire(0)];
    assert [Pop(0, p), Return(0), Acquire(0)][1..] == [Return(0), Acquire(0)];
  }

  /** Task 0 once it has run, its post 1 having been notified. */
  const DONE_0 := Task(0, true, [Slot(1, 0)], None, [], 0, true, false, true, 1, 1, 1, 1, 1, 1)

  /** Task 1 after its overtaken registration: notified once, pushed twice. */
  const OVERTAKEN_1 := Task(1, false, [], None, [Stored(0)], 0, true, true, true, 2, 0, 0, 0, 0, 0)

  function Registering(pres: seq<nat>): State {
    State(Diamond(pres), true, [CALLED_0, NEW_TASK.(fates := [Stored(0)])], multiset{}, [Calling(0)])
  }

  function Overtaken(pres: seq<nat>): State {
    State(Diamond(pres), true, [DONE_0, OVERTAKEN_1], multiset{1, 1}, [Idle])
  }

  /** The only worker is inside the function of task 0. */
  function Calling0(pres: seq<nat>): State {
    State(Diamond(pres), true, [CALLED_0.(posts := [])], multiset{}, [Calling(0)])
  }

  lemma CallingRun(pres: seq<nat>)
    ensures Run(Initial(Diamond(pres), true, 1), [Create, Close(0), Pop(0, 0)], Calling0(pres))
  {
    var s0 := Initial(Diamond(pres), true, 1);
    var s1 := Apply(s0, Create);
    var s2 := Apply(s1, Close(0));
    var s3 := Apply(s2, Pop(0, 0));
    assert s3 == Calling0(pres);
  }

  lemma RegisteringRun(pres: seq<nat>)
    ensures Run(Calling0(pres), [Create, Insert(1)], Registering(pres))
  {
    var s4 := Apply(Calling0(pres), Create);
    var s5 := Apply(s4, Insert(1));
    assert s5.tasks[0].posts == [Slot(1, 0)] && s5.tasks[1].fates == [Stored(0)];
    assert s5 == Registering(pres);
  }

  /** Task 0 returns and takes its lock while task 1 is being registered. */
  function Locked(pres: seq<nat>): State {
    State(Diamond(pres), true,
          [CALLED_0.(exits := 1, locks := 1, lock := Some(0)), NEW_TASK.(fates := [Stored(0)])],
          multiset{}, [Notifying(0)])
  }

  lemma LockingRun(pres: seq<nat>)
    ensures Run(Registering(pres), [Return(0), Acquire(0)], Locked(pres))
  {
    var s6 := Apply(Registering(pres), Return(0));
    var s7 := Apply(s6, Acquire(0));
    assert s7 == Locked(pres);
  }

  /** Task 0 has finished, and task 1 is queued before its closing update. */
  function NotifiedOpen(pres: seq<nat>): State {
    State(Diamond(pres), true, [DONE_0, NEW_TASK.(fates := [Stored(0)], finishedPre := 1, pushes := 1)],
          multiset{1}, [Idle])
  }

  lemma FinishingRun(pres: seq<nat>)
    ensures Run(Locked(pres), [Notify(0), Finish(0)], NotifiedOpen(pres))
  {
    var s8 := Apply(Locked(pres), Notify(0));
    assert Apply(s8, Finish(0)) == NotifiedOpen(pres);
  }

  /** All of task 0 runs between the insertion of task 1 and its closing update. */
  lemma OvertakingRun(pres: seq<nat>)
    ensures Run(Locked(pres), [Notify(0), Finish(0)] + [Close(1)], Overtaken(pres))
  {
    FinishingRun(pres);
    assert Apply(NotifiedOpen(pres), Close(1)) == Overtaken(pres);
    RunSnoc(Locked(pres), [Notify(0), Finish(0)], NotifiedOpen(pres), Close(1));
  }

  /** The run up to the overtaken registration of task 1; it pushes task 1 twice, so that
      "pushed at most once" fails for some run. */
  lemma OvertakenIsReachable(pres: seq<nat>) returns (acts: seq<Action>)
    requires forall p | p in pres :: p < 3
    ensures Reaches(Diamond(pres), true, 1, acts, Overtaken(pres))
    ensures Overtaken(pres).tasks[1].pushes == 2
  {
    assert WellFormed(Diamond(pres)) by {
      forall k | 0 <= k < |pres| ensures pres[k] < 3 { assert pres[k] in pres; }
    }
    var init := Initial(Diamond(pres), true, 1);
    CallingRun(pres);
    acts := [Create, Close(0), Pop(0, 0)];
    RegisteringRun(pres);
    RunAppend(init, acts, Calling0(pres), [Create, Insert(1)], Registering(pres));
    acts := acts + [Create, Insert(1)];
    LockingRun(pres);
    RunAppend(init, acts, Registering(pres), [Return(0), Acquire(0)], Locked(pres));
    acts := acts + [Return(0), Acquire(0)];
    OvertakingRun(pres);
    RunAppend(init, acts, Locked(pres), [Notify(0), Finish(0)] + [Close(1)], Overtaken(pres));
    acts := acts + ([Notify(0), Finish(0)] + [Close(1)]);
  }

  // ---- a task that starts before one of its pre-tasks

  const WAITING_3 := NEW_TASK.(fates := [Stored(0), Stored(0)])
  const QUEUED_2 := NEW_TASK.(posts := [Slot(3, 1)], closed := true, closingPush := true, pushes := 1)

  /** Task 1 with its slot for task 3, after `runs` of its two runs. */
  function Ran(runs: nat): Task {
    OVERTAKEN_1.(posts := [Slot(3, 0)], isFinished := runs > 0,
                 starts := runs, calls := if runs > 0 then 1 else 0, exits := runs, locks := runs, dones := runs)
  }

  /** Task 3 waits for 1 and 2; its registration may be closed or still open. */
  function Early(closed: bool, runs: nat): State
    requires runs <= 2
  {
    State(Diamond([1, 2]), true,
          [DONE_0, Ran(runs), QUEUED_2,
           WAITING_3.(closed := closed, finishedPre := runs, pushes := if runs == 2 then 1 else 0)],
          if runs == 0 then multiset{1, 1, 2} else if runs == 1 then multiset{1, 2} else multiset{2, 3}, [Idle])
  }

  const ENTER_1 := [Pop(0, 1), Return(0), Acquire(0)]
  const LEAVE_1 := [Notify(0), Finish(0)]

  lemma EarlyRegistration()
    ensures Run(Overtaken([1, 2]), [Create, Close(2), Create] + [Insert(3), Insert(3)], Early(false, 0))
  {
    var s0 := Overtaken([1, 2]);
    var s1 := Apply(s0, Create);
    var s2 := Apply(s1, Close(2));
    var s3 := State(Diamond([1, 2]), true, [DONE_0, OVERTAKEN_1, QUEUED_2.(posts := []), NEW_TASK],
                    multiset{1, 1, 2}, [Idle]);
    assert Run(s0, [Create, Close(2), Create], s3) by { assert Apply(s2, Create) == s3; }
    EarlyInsertions(s3);
    RunAppend(s0, [Create, Close(2), Create], s3, [Insert(3), Insert(3)], Early(false, 0));
  }

  lemma EarlyInsertions(s3: State)
    requires s3 == State(Diamond([1, 2]), true, [DONE_0, OVERTAKEN_1, QUEUED_2.(posts := []), NEW_TASK],
                         multiset{1, 1, 2}, [Idle])
    ensures Run(s3, [Insert(3), Insert(3)], Early(false, 0))
  {
    var s4 := Apply(s3, Insert(3));
    assert s4.tasks[1].posts == [Slot(3, 0)] && s4.tasks[3].fates == [Stored(0)];
    var s5 := Apply(s4, Insert(3));
    assert s5.tasks[2].posts == [Slot(3, 1)] && s5.tasks[3].fates == [Stored(0), Stored(0)];
    assert s5 == Early(false, 0);
  }

  lemma EarlyClosing()
    ensures Run(Early(false, 0), [Close(3)], Early(true, 0))
  {
    RunOne(Early(false, 0), Close(3));
    assert Apply(Early(false, 0), Close(3)) == Early(true, 0);
  }

  lemma EarlyNextRun(closed: bool, runs: nat)
    requires runs < 2
    ensures Run(Early(closed, runs), ENTER_1 + LEAVE_1, Early(closed, runs + 1))
  {
    var s0 := Early(closed, runs);
    EnteringRun(s0, 1);
    EarlyLeaving(closed, runs);
    RunAppend(s0, ENTER_1, Entered(s0, 1), LEAVE_1, Early(closed, runs + 1));
  }

  /** Run number `runs` of task 1 has notified task 3. */
  function EarlyNotified(closed: bool, runs: nat): State
    requires runs < 2
  {
    var s := Entered(Early(closed, runs), 1);
    s.(tasks := [DONE_0, s.tasks[1].(lock := Some(1)), QUEUED_2, Early(closed, runs + 1).tasks[3]],
       queue := Early(closed, runs + 1).queue)
  }

  lemma EarlyCounts(m: State, closed: bool, runs: nat)
    requires runs < 2 && m.prog == Diamond([1, 2]) && |m.tasks| == 4 && m.tasks[3] == Early(closed, runs).tasks[3]
    requires m.queue == Early(closed, runs).queue - multiset{1}
    ensures UpdateFinishedPreCount(m, 3, 1).tasks == m.tasks[3 := Early(closed, runs + 1).tasks[3]]
    ensures UpdateFinishedPreCount(m, 3, 1).queue == Early(closed, runs + 1).queue
  {
  }

  lemma EarlyEntered(closed: bool, runs: nat)
    requires runs < 2
    ensures var s := Entered(Early(closed, runs), 1);
            && CanNotify(s, 0) && NextPost(s, 1) == 3 && s.workers[0].task == 1 && s.tasks[1].lock == Some(0)
            && WithLock(s, 1, Some(1)).tasks[3 := Early(closed, runs + 1).tasks[3]] == EarlyNotified(closed, runs).tasks
  {
  }

  lemma EarlyNotifies(closed: bool, runs: nat)
    requires runs < 2
    ensures var s := Entered(Early(closed, runs), 1);
            Enabled(s, Notify(0)) && Apply(s, Notify(0)) == EarlyNotified(closed, runs)
  {
    var s := Entered(Early(closed, runs), 1);
    EarlyEntered(closed, runs);
    NotifyIsUpdate(s, 0);
    EarlyCounts(WithLock(s, 1, Some(1)), closed, runs);
  }

  lemma EarlyFinishes(closed: bool, runs: nat)
    requires runs < 2
    ensures var s := EarlyNotified(closed, runs);
            Enabled(s, Finish(0)) && Apply(s, Finish(0)) == Early(closed, runs + 1)
  {
    var s := EarlyNotified(closed, runs);
    assert Apply(s, Finish(0)).tasks == Early(closed, runs + 1).tasks;
  }

  lemma EarlyLeaving(closed: bool, runs: nat)
    requires runs < 2
    ensures Run(Entered(Early(closed, runs), 1), LEAVE_1, Early(closed, runs + 1))
  {
    EarlyNotifies(closed, runs);
    EarlyFinishes(closed, runs);
    RunOne(Entered(Early(closed, runs), 1), Notify(0));
    RunSnoc(Entered(Early(closed, runs), 1), [Notify(0)], EarlyNotified(closed, runs), Finish(0));
    assert [Notify(0)] + [Finish(0)] == LEAVE_1;
  }

  const BOTH_RUNS := ENTER_1 + LEAVE_1 + (ENTER_1 + LEAVE_1)

  lemma EarlyBothRuns(closed: bool)
    ensures Run(Early(closed, 0), BOTH_RUNS, Early(closed, 2))
  {
    EarlyNextRun(closed, 0);
    EarlyNextRun(closed, 1);
    RunAppend(Early(closed, 0), ENTER_1 + LEAVE_1, Early(closed, 1), ENTER_1 + LEAVE_1, Early(closed, 2));
  }

  /** Both runs of task 1 are over and have notified task 3 twice. */
  lemma RunToEarly(closed: bool) returns (acts: seq<Action>)
    ensures Reaches(Diamond([1, 2]), true, 1, acts, Early(closed, 2))
  {
    var init := Initial(Diamond([1, 2]), true, 1);
    acts := OvertakenIsReachable([1, 2]);
    EarlyRegistration();
    var more := [Create, Close(2), Create] + [Insert(3), Insert(3)];
    RunAppend(init, acts, Overtaken([1, 2]), more, Early(false, 0));
    acts := acts + more;
    if closed {
      EarlyClosing();
      RunAppend(init, acts, Early(false, 0), [Close(3)], Early(true, 0));
      acts := acts + [Close(3)];
    }
    EarlyBothRuns(closed);
    RunAppend(init, acts, Early(closed, 0), BOTH_RUNS, Early(closed, 2));
    acts := acts + BOTH_RUNS;
  }

  /** The order guarantee fails once a pre-task was overtaken: its two runs notify task 3
      twice, and task 3 starts although its pre-task 2 has not even started. */
  lemma TaskStartsBeforePre() returns (acts: seq<Action>, s: State)
    ensures Reaches(Diamond([1, 2]), true, 1, acts, s)
    ensures |s.tasks| == 4 == |s.prog| && s.tasks[3].starts == 1 && s.tasks[2].starts == 0
    ensures s.prog[3].pres == [1, 2] && s.tasks[1].overtaken
  {
    acts := RunToEarly(true);
    s := Apply(Early(true, 2), Pop(0, 3));
    RunSnoc(Initial(Diamond([1, 2]), true, 1), acts, Early(true, 2), Pop(0, 3));
    acts := acts + [Pop(0, 3)];
  }

  /** A registration can be overtaken although one of its slots is still unnotified: task 1
      has notified task 3 twice before the closing update of task 3, and task 2 has not
      started. */
  lemma OvertakenBeforePre() returns (acts: seq<Action>, s: State)
    ensures Reaches(Diamond([1, 2]), true, 1, acts, s)
    ensures |s.tasks| == 4 == |s.prog| && s.tasks[3].overtaken && s.tasks[3].pushes == 2 && s.tasks[2].starts == 0
    ensures s.prog[3].pres == [1, 2] && InRange(s, 3) && |s.tasks[3].fates| == 2 && !EntryNotified(s, 3, 1)
  {
    acts := RunToEarly(false);
    s := Apply(Early(false, 2), Close(3));
    RunSnoc(Initial(Diamond([1, 2]), true, 1), acts, Early(false, 2), Close(3));
    acts := acts + [Close(3)];
  }

  // ---- a task that never runs

  const DONE_2 := Task(0, true, [], None, [], 0, true, false, true, 1, 1, 1, 1, 1, 1)
  const TALLYING_3 := NEW_TASK.(fates := [Stored(0), Tallied, Tallied], tally := 2)

  function Lost(runs: nat): State
    requires runs <= 2
  {
    State(Diamond([1, 2, 2]), true, [DONE_0, Ran(runs), DONE_2, TALLYING_3.(finishedPre := runs)],
          if runs == 0 then multiset{1, 1} else if runs == 1 then multiset{1} else multiset{}, [Idle])
  }

  function LostEnd(): State {
    Lost(2).(tasks := [DONE_0, Ran(2), DONE_2, TALLYING_3.(finishedPre := 4, closed := true)])
  }

  const RUN_2 := [Create, Close(2)] + [Pop(0, 2), Return(0), Acquire(0)] + [Finish(0)]

  /** Task 2 is queued while task 1 is queued twice. */
  function Queued2(): State {
    State(Diamond([1, 2, 2]), true, [DONE_0, OVERTAKEN_1, QUEUED_2.(posts := [])], multiset{1, 1, 2}, [Idle])
  }

  function Done2(): State {
    State(Diamond([1, 2, 2]), true, [DONE_0, OVERTAKEN_1, DONE_2], multiset{1, 1}, [Idle])
  }

  lemma Queue2Run()
    ensures Run(Overtaken([1, 2, 2]), [Create, Close(2)], Queued2())
  {
    var s0 := Overtaken([1, 2, 2]);
    var s1 := Apply(s0, Create);
    assert Apply(s1, Close(2)) == Queued2();
    RunOne(s0, Create);
    RunSnoc(s0, [Create], s1, Close(2));
    assert [Create] + [Close(2)] == [Create, Close(2)];
  }

  lemma LostPreRun()
    ensures Run(Overtaken([1, 2, 2]), RUN_2, Done2())
  {
    var s0, enter := Overtaken([1, 2, 2]), [Pop(0, 2), Return(0), Acquire(0)];
    Queue2Run();
    EnteringRun(Queued2(), 2);
    RunAppend(s0, [Create, Close(2)], Queued2(), enter, Entered(Queued2(), 2));
    Finish2();
    RunSnoc(s0, [Create, Close(2)] + enter, Entered(Queued2(), 2), Finish(0));
  }

  lemma Finish2()
    ensures var s := Entered(Queued2(), 2); Enabled(s, Finish(0)) && Apply(s, Finish(0)) == Done2()
  {
    assert Apply(Entered(Queued2(), 2), Finish(0)).tasks == Done2().tasks;
  }

  lemma LostRegistration()
    ensures Run(Done2(), [Create, Insert(3), Insert(3), Insert(3)], Lost(0))
  {
    var s1 := Apply(Done2(), Create);
    var s2 := Apply(s1, Insert(3));
    assert s2.tasks[1].posts == [Slot(3, 0)] && s2.tasks[3].fates == [Stored(0)];
    var s3 := Apply(s2, Insert(3));
    var s4 := Apply(s3, Insert(3));
    assert s4.tasks[3].fates == [Stored(0), Tallied, Tallied];
    assert s4 == Lost(0);
  }

  /** Run number `runs` of task 1 has notified task 3. */
  function LostNotified(runs: nat): State
    requires runs < 2
  {
    var s := Entered(Lost(runs), 1);
    s.(tasks := [DONE_0, s.tasks[1].(lock := Some(1)), DONE_2, Lost(runs + 1).tasks[3]])
  }

  lemma LostNotifies(runs: nat)
    requires runs < 2
    ensures var s := Entered(Lost(runs), 1); Enabled(s, Notify(0)) && Apply(s, Notify(0)) == LostNotified(runs)
  {
    var s := Entered(Lost(runs), 1);
    assert NextPost(s, 1) == 3;
    var m := s.(tasks := s.tasks[1 := s.tasks[1].(lock := Some(1))]);
    assert UpdateFinishedPreCount(m, 3, 1).tasks == m.tasks[3 := Lost(runs + 1).tasks[3]];
    assert m.tasks[3 := Lost(runs + 1).tasks[3]] == LostNotified(runs).tasks;
  }

  lemma LostFinishes(runs: nat)
    requires runs < 2
    ensures var s := LostNotified(runs); Enabled(s, Finish(0)) && Apply(s, Finish(0)) == Lost(runs + 1)
  {
    assert Apply(LostNotified(runs), Finish(0)).tasks == Lost(runs + 1).tasks;
  }

  lemma LostLeaving(runs: nat)
    requires runs < 2
    ensures Run(Entered(Lost(runs), 1), LEAVE_1, Lost(runs + 1))
  {
    LostNotifies(runs);
    LostFinishes(runs);
    RunOne(Entered(Lost(runs), 1), Notify(0));
    RunSnoc(Entered(Lost(runs), 1), [Notify(0)], LostNotified(runs), Finish(0));
    assert [Notify(0)] + [Finish(0)] == LEAVE_1;
  }

  lemma LostNextRun(runs: nat)
    requires runs < 2
    ensures Run(Lost(runs), ENTER_1 + LEAVE_1, Lost(runs + 1))
  {
    EnteringRun(Lost(runs), 1);
    LostLeaving(runs);
    RunAppend(Lost(runs), ENTER_1, Entered(Lost(runs), 1), LEAVE_1, Lost(runs + 1));
  }

  lemma LostBothRuns()
    ensures Run(Lost(0), BOTH_RUNS, Lost(2))
  {
    LostNextRun(0);
    LostNextRun(1);
    RunAppend(Lost(0), ENTER_1 + LEAVE_1, Lost(1), ENTER_1 + LEAVE_1, Lost(2));
  }

  lemma LostClosing()
    ensures Run(Lost(2), [Close(3)], LostEnd())
  {
    RunOne(Lost(2), Close(3));
    assert Apply(Lost(2), Close(3)) == LostEnd();
  }

  lemma LostEndIsStuck()
    ensures Stuck(LostEnd())
  {
    forall a: Action ensures !Enabled(LostEnd(), a) {}
  }

  lemma RunToLost() returns (acts: seq<Action>)
    ensures Reaches(Diamond([1, 2, 2]), true, 1, acts, Lost(0))
  {
    var init := Initial(Diamond([1, 2, 2]), true, 1);
    acts := OvertakenIsReachable([1, 2, 2]);
    LostPreRun();
    RunAppend(init, acts, Overtaken([1, 2, 2]), RUN_2, Done2());
    LostRegistration();
    var more := [Create, Insert(3), Insert(3), Insert(3)];
    RunAppend(init, acts + RUN_2, Done2(), more, Lost(0));
    acts := acts + RUN_2 + more;
  }

  /** Completion fails once a pre-task was overtaken: the tally takes the counter of task 3
      past the number of its entries, and the system stops with task 3 never pushed. */
  lemma TaskIsLost() returns (acts: seq<Action>)
    ensures Reaches(Diamond([1, 2, 2]), true, 1, acts, LostEnd())
    ensures Stuck(LostEnd()) && LostEnd().tasks[3].pushes == 0 && !LostEnd().tasks[3].isFinished
  {
    var init := Initial(Diamond([1, 2, 2]), true, 1);
    acts := RunToLost();
    LostBothRuns();
    RunAppend(init, acts, Lost(0), BOTH_RUNS, Lost(2));
    LostClosing();
    RunAppend(init, acts + BOTH_RUNS, Lost(2), [Close(3)], LostEnd());
    acts := acts + BOTH_RUNS + [Close(3)];
    LostEndIsStuck();
  }
}
