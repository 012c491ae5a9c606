/** When functions are called and when they return: a function that has returned has met its
    waits, a start is a call until the first return, and how often a function can be called. */
module SchedulerCalls {
  import opened SchedulerModel
  import opened SchedulerInvariant
  import opened SchedulerSteps
  import opened SchedulerTheorems
  import opened SchedulerClosing
  import opened SchedulerScenes
  import opened SchedulerOvertaking

  // ---- returns

  predicate IsFinished(s: State, u: nat) {
    u < |s.tasks| && s.tasks[u].isFinished
  }

  /** Whatever a returned function has waited for is finished. */
  ghost predicate WaitsMet(s: State) {
    forall t: nat, u: nat | t < |s.tasks| && t < |s.prog| && s.tasks[t].exits > 0 && u in s.prog[t].waits ::
      IsFinished(s, u)
  }

  lemma UpdateExitsNot(s: State, u: nat, t: nat)
    requires u < |s.tasks| <= |s.prog| && t < |s.tasks|
    ensures UpdateFinishedPreCount(s, u, 1).tasks[t].exits == s.tasks[t].exits
  {
  }

  lemma NotifyExitsNot(s: State, w: nat, t: nat)
    requires CanNotify(s, w) && t < |s.tasks|
    ensures t < |NotifyPost(s, w).tasks| && NotifyPost(s, w).tasks[t].exits == s.tasks[t].exits
  {
    var p := s.workers[w].task;
    NotifyIsUpdate(s, w);
    UpdateExitsNot(WithLock(s, p, Some(s.tasks[p].lock.value + 1)), NextPost(s, p), t);
  }

  lemma InsertExitsNot(s: State, u: nat, t: nat)
    requires CanInsert(s, u) && t < |s.tasks|
    ensures t < |InsertPost(s, u).tasks| && InsertPost(s, u).tasks[t].exits == s.tasks[t].exits
  {
  }

  lemma CloseExitsNot(s: State, u: nat, t: nat)
    requires CanClose(s, u) && t < |s.tasks|
    ensures t < |CloseRegistration(s, u).tasks| && CloseRegistration(s, u).tasks[t].exits == s.tasks[t].exits
  {
  }

  lemma StageExitsNot(s: State, a: Action, t: nat)
    requires Enabled(s, a) && (a.Pop? || a.Return? || a.Acquire? || a.Finish?) && t < |s.tasks|
    ensures t < |Apply(s, a).tasks|
    ensures Apply(s, a).tasks[t].exits == s.tasks[t].exits || (a.Return? && s.workers[a.worker].task == t)
  {
  }

  /** Only a function that returns counts as returned. */
  lemma OnlyReturnExits(s: State, a: Action, t: nat)
    requires Enabled(s, a) && t < |s.tasks|
    ensures t < |Apply(s, a).tasks|
    ensures Apply(s, a).tasks[t].exits == s.tasks[t].exits || (a.Return? && s.workers[a.worker].task == t)
  {
    match a
    case Create =>
    case Insert(u) => InsertExitsNot(s, u, t);
    case Close(u) => CloseExitsNot(s, u, t);
    case Notify(w) => NotifyExitsNot(s, w, t);
    case _ => StageExitsNot(s, a, t);
  }

  lemma NewTaskHasNotReturned(s: State, a: Action, t: nat)
    requires Enabled(s, a) && |s.tasks| <= t < |Apply(s, a).tasks|
    ensures Apply(s, a).tasks[t].exits == 0
  {
    NewTaskIsOpen(s, a);
  }

  lemma WaitStaysMet(s: State, a: Action, t: nat, u: nat)
    requires Enabled(s, a) && WaitsMet(s) && t < |s.prog| && u in s.prog[t].waits
    requires t < |Apply(s, a).tasks| && Apply(s, a).tasks[t].exits > 0
    ensures IsFinished(Apply(s, a), u)
  {
    if t >= |s.tasks| {
      NewTaskHasNotReturned(s, a, t);
    } else {
      OnlyReturnExits(s, a, t);
      assert IsFinished(s, u);
      StepGrows(s, a, u);
    }
  }

  lemma StepKeepsWaitsMet(s: State, a: Action)
    requires Enabled(s, a) && WaitsMet(s)
    ensures WaitsMet(Apply(s, a))
  {
    var r := Apply(s, a);
    assert r.prog == s.prog;
    forall t: nat, u: nat | t < |r.tasks| && t < |r.prog| && r.tasks[t].exits > 0 && u in r.prog[t].waits
      ensures IsFinished(r, u)
    {
      WaitStaysMet(s, a, t, u);
    }
  }

  lemma {:induction false} RunKeepsWaitsMet(s: State, acts: seq<Action>, r: State)
    requires Run(s, acts, r) && WaitsMet(s)
    ensures WaitsMet(r)
    decreases |acts|
  {
    if acts != [] {
      StepKeepsWaitsMet(s, acts[0]);
      RunKeepsWaitsMet(Apply(s, acts[0]), acts[1..], r);
    }
  }

  lemma ReachedWaitsMet(prog: seq<TaskSpec>, serial: bool, workers: nat, acts: seq<Action>, s: State)
    requires Reaches(prog, serial, workers, acts, s)
    ensures WaitsMet(s)
  {
    RunKeepsWaitsMet(Initial(prog, serial, workers), acts, s);
  }

  // ---- calls

  lemma UpdateCallsNot(s: State, u: nat, t: nat)
    requires u < |s.tasks| <= |s.prog| && t < |s.tasks|
    ensures UpdateFinishedPreCount(s, u, 1).tasks[t].calls == s.tasks[t].calls
  {
  }

  lemma NotifyCallsNot(s: State, w: nat, t: nat)
    requires CanNotify(s, w) && t < |s.tasks|
    ensures t < |NotifyPost(s, w).tasks| && NotifyPost(s, w).tasks[t].calls == s.tasks[t].calls
  {
    var p := s.workers[w].task;
    NotifyIsUpdate(s, w);
    UpdateCallsNot(WithLock(s, p, Some(s.tasks[p].lock.value + 1)), NextPost(s, p), t);
  }

  lemma RegistrationCallsNot(s: State, a: Action, t: nat)
    requires Enabled(s, a) && (a.Create? || a.Insert? || a.Close?) && t < |s.tasks|
    ensures t < |Apply(s, a).tasks| && Apply(s, a).tasks[t].calls == s.tasks[t].calls
  {
  }

  /** A pop calls the function exactly if no run of the task has returned yet; nothing else
      calls it. */
  lemma PopCalls(s: State, a: Action, t: nat)
    requires Enabled(s, a) && t < |s.tasks|
    ensures t < |Apply(s, a).tasks|
    ensures Apply(s, a).tasks[t].calls ==
            s.tasks[t].calls + if a.Pop? && a.task == t && s.tasks[t].exits == 0 then 1 else 0
  {
    match a
    case Notify(w) => NotifyCallsNot(s, w, t);
    case Create => RegistrationCallsNot(s, a, t);
    case Insert(u) => RegistrationCallsNot(s, a, t);
    case Close(u) => RegistrationCallsNot(s, a, t);
    case _ =>
  }

  /** Until a function has returned, every start of its task has called it. */
  ghost predicate StartsAreCalls(s: State) {
    forall t | 0 <= t < |s.tasks| && s.tasks[t].exits == 0 :: s.tasks[t].calls == s.tasks[t].starts
  }

  lemma NewTaskIsUncalled(s: State, a: Action, t: nat)
    requires Enabled(s, a) && |s.tasks| <= t < |Apply(s, a).tasks|
    ensures Apply(s, a).tasks[t].calls == Apply(s, a).tasks[t].starts == 0
  {
    NewTaskIsOpen(s, a);
  }

  lemma OnlyPopRaisesStarts(s: State, a: Action, t: nat)
    requires Enabled(s, a) && t < |s.tasks|
    ensures t < |Apply(s, a).tasks|
    ensures Apply(s, a).tasks[t].starts == s.tasks[t].starts + if a.Pop? && a.task == t then 1 else 0
  {
    if IsWorkerStep(a) && !(a.Pop? && a.task == t) {
      OnlyPopStarts(s, a, t);
    }
  }

  lemma StepKeepsStartsAreCalls(s: State, a: Action)
    requires Enabled(s, a) && StartsAreCalls(s)
    ensures StartsAreCalls(Apply(s, a))
  {
    var r := Apply(s, a);
    forall t | 0 <= t < |r.tasks| && r.tasks[t].exits == 0 ensures r.tasks[t].calls == r.tasks[t].starts {
      if t < |s.tasks| {
        StepGrows(s, a, t);
        PopCalls(s, a, t);
        OnlyPopRaisesStarts(s, a, t);
      } else {
        NewTaskIsUncalled(s, a, t);
      }
    }
  }

  lemma {:induction false} RunKeepsStartsAreCalls(s: State, acts: seq<Action>, r: State)
    requires Run(s, acts, r) && StartsAreCalls(s)
    ensures StartsAreCalls(r)
    decreases |acts|
  {
    if acts != [] {
      StepKeepsStartsAreCalls(s, acts[0]);
      RunKeepsStartsAreCalls(Apply(s, acts[0]), acts[1..], r);
    }
  }

  // ---- one worker, or several

  ghost predicate CalledOnce(s: State) {
    forall t | 0 <= t < |s.tasks| :: s.tasks[t].calls <= 1
  }

  /** A worker that is idle while it is the only one is inside no function. */
  lemma NobodyInside(s: State, t: nat)
    requires Inv(s) && |s.workers| == 1 && s.workers[0].Idle? && t < |s.tasks|
    ensures s.tasks[t].starts == s.tasks[t].exits
  {
    assert TaskOk(s, t);
    assert s.workers == [s.workers[0]];
    assert Calling(t) !in multiset(s.workers);
  }

  lemma StepKeepsCalledOnce(s: State, a: Action)
    requires Inv(s) && Enabled(s, a) && StartsAreCalls(s) && CalledOnce(s) && |s.workers| == 1
    ensures CalledOnce(Apply(s, a))
  {
    var r := Apply(s, a);
    forall t | 0 <= t < |r.tasks| ensures r.tasks[t].calls <= 1 {
      if t < |s.tasks| {
        PopCalls(s, a, t);
        if a.Pop? {
          NobodyInside(s, t);
        }
      } else {
        NewTaskIsUncalled(s, a, t);
      }
    }
  }

  lemma {:induction false} RunKeepsCalledOnce(s: State, acts: seq<Action>, r: State)
    requires Inv(s) && Run(s, acts, r) && StartsAreCalls(s) && CalledOnce(s) && |s.workers| == 1
    ensures CalledOnce(r)
    decreases |acts|
  {
    if acts != [] {
      StepKeepsInv(s, acts[0]);
      StepKeepsStartsAreCalls(s, acts[0]);
      StepKeepsCalledOnce(s, acts[0]);
      RunKeepsSetup(s, [acts[0]], Apply(s, acts[0]));
      RunKeepsCalledOnce(Apply(s, acts[0]), acts[1..], r);
    }
  }

  /** With one worker no function is called twice, however often its task is queued. */
  lemma OneWorkerCallsOnce(prog: seq<TaskSpec>, serial: bool, acts: seq<Action>, s: State)
    requires Reaches(prog, serial, 1, acts, s)
    ensures CalledOnce(s)
  {
    InitialInv(prog, serial, 1);
    RunKeepsCalledOnce(Initial(prog, serial, 1), acts, s);
  }

  /** An idle worker takes p from the top of the queue and calls its function. */
  lemma PopTop(s: State, w: nat, p: nat)
    requires Inv(s) && p < |s.tasks| && p in s.queue && TopOfQueue(s, p) && s.tasks[p].exits == 0
    requires w < |s.workers| && s.workers[w].Idle?
    ensures CanPop(s, w, p)
    ensures var r := PopTask(s, w, p);
      && Inv(r) && |r.tasks| == |s.tasks| && r.workers == s.workers[w := Calling(p)]
      && r.tasks[p].exits == 0 && r.tasks[p].calls == s.tasks[p].calls + 1
      && r.queue[p] == s.queue[p] - 1 && (p in r.queue ==> TopOfQueue(r, p))
  {
    PopKeepsInv(s, w, p);
    assert forall u | u in PopTask(s, w, p).queue :: u in s.queue;
  }

  /** Two idle workers take a task that is queued twice, before either run returns. */
  lemma BothCall(s: State, p: nat) returns (acts: seq<Action>, r: State)
    requires Inv(s) && p < |s.tasks| && TopOfQueue(s, p) && s.queue[p] == 2 && s.tasks[p].exits == 0
    requires |s.workers| >= 2 && s.workers[0].Idle? && s.workers[1].Idle? && s.tasks[p].calls == 0
    ensures Run(s, acts, r) && |r.tasks| == |s.tasks| && r.tasks[p].calls == 2
    ensures |r.workers| >= 2 && r.workers[0] == r.workers[1] == Calling(p)
  {
    PopTop(s, 0, p);
    var m := PopTask(s, 0, p);
    PopTop(m, 1, p);
    r := PopTask(m, 1, p);
    RunOne(s, Pop(0, p));
    RunSnoc(s, [Pop(0, p)], m, Pop(1, p));
    acts := [Pop(0, p)] + [Pop(1, p)];
  }

  /** Closing the registration of a task that is kept waiting queues it a second time. */
  lemma QueuedTwice(s: State, roles: seq<Role>, p: nat)
    requires Scene(s, roles) && p < |roles| && QueuedFirst(s, p)
    ensures CanClose(s, p)
    ensures var r := CloseRegistration(s, p);
      && Inv(r) && |r.tasks| == |s.tasks| && r.workers == s.workers && TopOfQueue(r, p) && r.queue[p] == 2
      && r.tasks[p].exits == 0 && r.tasks[p].calls == 0 && r.tasks[p].overtaken
  {
    Overtake(s, roles, p);
    var r := CloseRegistration(s, p);
    assert Plays(r, p, Doubled) && TaskOk(r, p) && TaskOk(s, p);
    RestingCounts(s, p);
    assert forall u | u in r.queue :: u in s.queue;
  }

  lemma CallTwice(s: State, roles: seq<Role>, p: nat) returns (acts: seq<Action>, r: State)
    requires Scene(s, roles) && p < |roles| && QueuedFirst(s, p) && |s.workers| >= 2
    ensures Run(s, acts, r) && |r.tasks| == |s.tasks| && r.tasks[p].calls == 2
    ensures |r.workers| >= 2 && r.workers[0] == r.workers[1] == Calling(p)
  {
    QueuedTwice(s, roles, p);
    var m := CloseRegistration(s, p);
    RunOne(s, Close(p));
    var rest: seq<Action>;
    rest, r := BothCall(m, p);
    RunAppend(s, [Close(p)], m, rest, r);
    acts := [Close(p)] + rest;
  }

  /** From the start up to the state in which t is kept waiting. */
  lemma QueueingRun(s: State, t: nat, held: seq<Role>) returns (acts: seq<Action>, r: State, roles: seq<Role>)
    requires Scene(s, held) && AllIdle(s) && |held| == t + 1 && s.prog[t].pres != []
    requires forall u | 0 <= u <= t :: held[u] == if u == t then Held else Waiting
    ensures Run(s, acts, r) && Scene(r, roles) && |roles| == t + 1 && QueuedFirst(r, t)
  {
    var x := Largest(s.prog[t].pres);
    AllBelowButX(s.prog, held, t, x);
    var first, m := ServeBelow(s, held, Below(x), x);
    var rest: seq<Action>;
    rest, r := QueueUp(m, ServedBelow(held, Below(x), x), Below(x), t, x);
    roles := ServedBelow(held, Below(x), x)[x := Served];
    RunAppend(s, first, m, rest, r);
    acts := first + rest;
  }

  /** A run that calls the function of t twice at a time. */
  lemma CallingTwiceRun(prog: seq<TaskSpec>, workers: nat, t: nat) returns (acts: seq<Action>, s: State)
    requires WellFormed(prog) && WaitsArePres(prog) && workers >= 2 && t < |prog| && prog[t].pres != []
    ensures Reaches(prog, false, workers, acts, s) && t < |s.tasks| && s.tasks[t].calls == 2
    ensures |s.workers| == workers && s.workers[0] == s.workers[1] == Calling(t)
  {
    var init := Initial(prog, false, workers);
    var first, s1 := OpenAndHold(prog, workers, t + 1, {t});
    var second, s2, roles := QueueingRun(s1, t, Cast(seq(t + 1, _ => Waiting), {t}, t + 1, Held));
    RunAppend(init, first, s1, second, s2);
    RunKeepsSetup(init, first + second, s2);
    var third: seq<Action>;
    third, s := CallTwice(s2, roles, t);
    RunAppend(init, first + second, s2, third, s);
    RunKeepsSetup(init, first + second + third, s);
    acts := first + second + third;
  }

  lemma AllBelowButX(prog: seq<TaskSpec>, held: seq<Role>, t: nat, x: nat)
    requires WellFormed(prog) && t < |prog| && x in prog[t].pres && forall y | y in prog[t].pres :: y <= x
    requires |held| == t + 1 && forall u | 0 <= u <= t :: held[u] == if u == t then Held else Waiting
    ensures x < t && Calm(prog, held) && Good(prog, held, Below(x))
    ensures LastMissing(prog, ServedBelow(held, Below(x), x), Below(x), t, x)
  {
    var e :| 0 <= e < |prog[t].pres| && prog[t].pres[e] == x;
    forall u, y | 0 <= u < t && y in prog[u].pres ensures y < u {
      var i :| 0 <= i < |prog[u].pres| && prog[u].pres[i] == y;
    }
  }

  /** On every run every function is called at most once exactly if one worker runs or no
      task has a pre-task. */
  lemma CalledOnceOnAllRunsIff(prog: seq<TaskSpec>, workers: nat)
    requires WellFormed(prog) && WaitsArePres(prog) && workers > 0
    ensures workers == 1 || AllIndependent(prog) <==>
            forall serial, acts, s | Reaches(prog, serial, workers, acts, s) :: CalledOnce(s)
  {
    if workers == 1 || AllIndependent(prog) {
      forall serial, acts, s | Reaches(prog, serial, workers, acts, s) ensures CalledOnce(s) {
        if workers == 1 {
          OneWorkerCallsOnce(prog, serial, acts, s);
        } else {
          PushedOnceOnAllRunsIff(prog, workers);
          forall t | 0 <= t < |s.tasks| ensures s.tasks[t].calls <= 1 {
            PushedAtMostTwice(prog, serial, workers, acts, s, t);
          }
        }
      }
    } else {
      var t :| 0 <= t < |prog| && prog[t].pres != [];
      var acts, s := CallingTwiceRun(prog, workers, t);
      assert !CalledOnce(s);
    }
  }
}
