/** Which programs keep the order, lose no task and always finish on all their runs: the
    exact conditions. Completion is decided for functions that wait for nothing, and for
    functions that wait for all pre-tasks of their task. */
module SchedulerCompletion {
  import opened SchedulerModel
  import opened SchedulerInvariant
  import opened SchedulerSteps
  import opened SchedulerTheorems
  import opened SchedulerClosing
  import opened SchedulerOrder
  import opened SchedulerScenes
  import opened SchedulerCalls
  import Early = SchedulerEarlyRun
  import Losing = SchedulerLosingRun

  // ---- order and lost tasks

  /** The exact condition: on every run tasks are queued only after the functions of their
      pre-tasks have returned exactly if no task can be credited as often as it has entries
      without one of its pre-tasks. */
  lemma AlwaysInOrderIff(prog: seq<TaskSpec>, workers: nat)
    requires WellFormed(prog) && WaitsArePres(prog) && workers > 0
    ensures !CanStartEarly(prog) <==>
            forall serial, acts, s | Reaches(prog, serial, workers, acts, s) :: InOrder(s)
  {
    if CanStartEarly(prog) {
      var t: nat, q: nat :| EarlyAt(prog, t, q);
      var e :| 0 <= e < |prog[t].pres| && prog[t].pres[e] == q;
      var acts, s := Early.EarlyRun(Early.Plot(prog, t, q), workers);
      assert !PresReturned(s, t);
    } else {
      forall serial, acts, s | Reaches(prog, serial, workers, acts, s) ensures InOrder(s) {
        ReachedInv(prog, serial, workers, acts, s);
        RunKeepsSetup(Initial(prog, serial, workers), acts, s);
        AlwaysInOrder(s);
      }
    }
  }

  /** On every run no task is lost exactly if no task with three entries or more names a
      pre-task that has pre-tasks itself. */
  lemma NeverLosesIff(prog: seq<TaskSpec>, workers: nat)
    requires WellFormed(prog) && WaitsArePres(prog) && workers > 0
    ensures !CanLose(prog) <==>
            forall serial, acts, s | Reaches(prog, serial, workers, acts, s) :: NoneLost(s)
  {
    if CanLose(prog) {
      var t: nat, e: nat :| LosesAt(prog, t, e);
      var pl := Losing.PlotExists(prog, t, e);
      var acts, s := Losing.LosingRun(pl, workers);
      assert !NoneLost(s);
    } else {
      forall serial, acts, s | Reaches(prog, serial, workers, acts, s) ensures NoneLost(s) {
        NeverLoses(prog, serial, workers, acts, s);
      }
    }
  }

  // ---- functions that wait for nothing

  /** A run that ends with t lost. */
  lemma StuckLosingRun(pl: Losing.Plot, workers: nat) returns (acts: seq<Action>, s: State)
    requires Losing.Sound(pl) && workers > 0
    ensures Reaches(pl.prog, false, workers, acts, s) && Stuck(s) && !AtRest(s)
  {
    var init := Initial(pl.prog, false, workers);
    var first, m := Losing.LosingRun(pl, workers);
    ReachedInv(pl.prog, false, workers, first, m);
    var rest: seq<Action>;
    rest, s := Exhaust(m);
    LostForever(m, rest, s, pl.t);
    RunAppend(init, first, m, rest, s);
    acts := first + rest;
    EndIsGoodIff(pl.prog, false, workers, acts, s);
  }

  /** Programs whose functions wait for nothing: every run that can go no further has
      finished everything exactly if the program cannot lose tasks. */
  lemma AlwaysFinishesIff(prog: seq<TaskSpec>, workers: nat)
    requires WellFormed(prog) && WaitsForNothing(prog) && workers > 0
    ensures !CanLose(prog) <==>
            forall serial, acts, s | Reaches(prog, serial, workers, acts, s) && Stuck(s) :: AtRest(s)
  {
    if CanLose(prog) {
      var t: nat, e: nat :| LosesAt(prog, t, e);
      var pl := Losing.PlotExists(prog, t, e);
      var acts, s := StuckLosingRun(pl, workers);
    } else {
      forall serial, acts, s | Reaches(prog, serial, workers, acts, s) && Stuck(s) ensures AtRest(s) {
        UnwaitingProgramFinishes(prog, serial, workers, acts, s);
      }
    }
  }

  // ---- functions that wait for all pre-tasks, and one worker

  /** Every function waits for exactly the pre-tasks of its task. */
  ghost predicate WaitsForAllPres(prog: seq<TaskSpec>) {
    forall t | 0 <= t < |prog| :: forall u :: u in prog[t].waits <==> u in prog[t].pres
  }

  /** The only worker is inside a function that waits for the unfinished task u. */
  ghost predicate Blocked(s: State, v: nat, u: nat) {
    s.workers == [Calling(v)] && v < |s.prog| && u in s.prog[v].waits && !IsFinished(s, u)
  }

  lemma StepKeepsBlocked(s: State, a: Action, v: nat, u: nat)
    requires Enabled(s, a) && Blocked(s, v, u)
    ensures Blocked(Apply(s, a), v, u)
  {
    if a.Insert? {
      assert Apply(s, a).workers == s.workers;
    }
  }

  lemma {:induction false} RunKeepsBlocked(s: State, acts: seq<Action>, r: State, v: nat, u: nat)
    requires Run(s, acts, r) && Blocked(s, v, u)
    ensures Blocked(r, v, u)
    decreases |acts|
  {
    if acts != [] {
      StepKeepsBlocked(s, acts[0], v, u);
      RunKeepsBlocked(Apply(s, acts[0]), acts[1..], r, v, u);
    }
  }

  /** If t was queued, but has not returned, and the only worker cannot go on, it is blocked. */
  lemma DrainedIsBlocked(s: State, t: nat) returns (v: nat, u: nat)
    requires Inv(s) && Drained(s, None) && |s.workers| == 1
    requires t < |s.tasks| && s.tasks[t].pushes > 0 && s.tasks[t].exits == 0
    ensures Blocked(s, v, u)
  {
    DrainedHoldsNoLock(s, None);
    WorkerIsCalling(s, t);
    v := s.workers[0].task;
    assert !Enabled(s, Return(0));
    u :| u in s.prog[v].waits && !IsFinished(s, u);
  }

  lemma WorkerIsCalling(s: State, t: nat)
    requires Inv(s) && Drained(s, None) && NoLockHeld(s) && |s.workers| == 1
    requires t < |s.tasks| && s.tasks[t].pushes > 0 && s.tasks[t].exits == 0
    ensures s.workers[0].Calling?
  {
    assert TaskOk(s, t);
    assert s.workers == [s.workers[0]];
    if s.workers[0].Idle? {
      assert Calling(t) !in multiset(s.workers);
      var top := QueueMoves(s);
    } else {
      assert TaskOk(s, s.workers[0].task);
      assert s.workers[0] in multiset(s.workers);
      assert !Enabled(s, Acquire(0));
    }
  }

  lemma CannotHaveReturned(s: State, t: nat, q: nat)
    requires Inv(s) && WaitsMet(s) && t < |s.tasks| && q in s.prog[t].waits
    requires q < |s.tasks| && s.tasks[q].exits == 0
    ensures s.tasks[t].exits == 0
  {
    assert TaskOk(s, q);
    assert s.tasks[t].exits > 0 ==> IsFinished(s, q);
  }

  /** A run of a program that can start early, after which the only worker waits for good. */
  lemma BlockingRun(prog: seq<TaskSpec>) returns (acts: seq<Action>, s: State)
    requires WellFormed(prog) && WaitsForAllPres(prog) && CanStartEarly(prog)
    ensures Reaches(prog, false, 1, acts, s) && Stuck(s) && !AtRest(s)
  {
    var init := Initial(prog, false, 1);
    var t: nat, q: nat :| EarlyAt(prog, t, q);
    var e :| 0 <= e < |prog[t].pres| && prog[t].pres[e] == q;
    var first, m := Early.EarlyRun(Early.Plot(prog, t, q), 1);
    ReachedInv(prog, false, 1, first, m);
    RunKeepsSetup(init, first, m);
    RunKeepsWaitsMet(init, first, m);
    CannotHaveReturned(m, t, q);
    var v, u := DrainedIsBlocked(m, t);
    var rest: seq<Action>;
    rest, s := Exhaust(m);
    RunKeepsBlocked(m, rest, s, v, u);
    RunAppend(init, first, m, rest, s);
    acts := first + rest;
  }

  /** Programs whose functions wait for all pre-tasks of their tasks, run by one worker:
      every run that can go no further has finished everything exactly if the program can
      neither start early nor lose tasks. */
  lemma OneWorkerFinishesIff(prog: seq<TaskSpec>)
    requires WellFormed(prog) && WaitsForAllPres(prog)
    ensures !CanStartEarly(prog) && !CanLose(prog) <==>
            forall serial, acts, s | Reaches(prog, serial, 1, acts, s) && Stuck(s) :: AtRest(s)
  {
    if CanStartEarly(prog) {
      var acts, s := BlockingRun(prog);
    } else if CanLose(prog) {
      var t: nat, e: nat :| LosesAt(prog, t, e);
      var pl := Losing.PlotExists(prog, t, e);
      var acts, s := StuckLosingRun(pl, 1);
    } else {
      forall serial, acts, s | Reaches(prog, serial, 1, acts, s) && Stuck(s) ensures AtRest(s) {
        OrderlyProgramFinishes(prog, serial, 1, acts, s);
      }
    }
  }
}
