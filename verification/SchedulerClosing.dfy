/** The closing update of a registration: it alone decides whether a task is overtaken, and
    it alone can lose a task. */
module SchedulerClosing {
  import opened Sums
  import opened SchedulerModel
  import opened SchedulerInvariant
  import opened SchedulerSteps
  import opened SchedulerTheorems

  // ---- the one closing step of a task

  /** What no later step of a closed registration changes. */
  ghost predicate SameClosing(k: Task, l: Task) {
    l.closed && l.overtaken == k.overtaken && l.closingPush == k.closingPush && l.fates == k.fates && l.tally == k.tally
  }

  lemma StepAfterClosing(s: State, a: Action, t: nat)
    requires Inv(s) && Enabled(s, a) && t < |s.tasks| && s.tasks[t].closed
    ensures t < |Apply(s, a).tasks| && SameClosing(s.tasks[t], Apply(s, a).tasks[t])
  {
    match a
    case Create =>
    case Insert(u) => InsertContinues(s, u, t);
    case Close(u) => CloseContinues(s, u, t);
    case _ =>
      WorkerStepContinues(s, a);
      assert Continues(s.tasks[t], Apply(s, a).tasks[t]);
  }

  lemma {:induction false} RunAfterClosing(s: State, acts: seq<Action>, r: State, t: nat)
    requires Inv(s) && Run(s, acts, r) && t < |s.tasks| && s.tasks[t].closed
    ensures t < |r.tasks| && SameClosing(s.tasks[t], r.tasks[t])
    decreases |acts|
  {
    if acts != [] {
      StepAfterClosing(s, acts[0], t);
      StepKeepsInv(s, acts[0]);
      RunAfterClosing(Apply(s, acts[0]), acts[1..], r, t);
    }
  }

  /** Step number i of the run from s to r is the closing update of t, taken in the state m. */
  ghost predicate ClosesAt(s: State, acts: seq<Action>, r: State, t: nat, i: nat, m: State) {
    && i < |acts| && acts[i] == Close(t) && Run(s, acts[..i], m) && Inv(m) && CanClose(m, t)
    && Run(CloseRegistration(m, t), acts[i + 1..], r)
  }

  lemma ClosesLater(s: State, acts: seq<Action>, r: State, t: nat, i: nat, m: State)
    requires acts != [] && Enabled(s, acts[0]) && ClosesAt(Apply(s, acts[0]), acts[1..], r, t, i, m)
    ensures ClosesAt(s, acts, r, t, i + 1, m)
  {
    assert acts[..i + 1][0] == acts[0] && acts[..i + 1][1..] == acts[1..][..i];
    assert acts[1..][i + 1..] == acts[i + 2..];
  }

  lemma NewTaskIsOpen(s: State, a: Action)
    requires Enabled(s, a) && |Apply(s, a).tasks| > |s.tasks|
    ensures a.Create? && |Apply(s, a).tasks| == |s.tasks| + 1 && !Apply(s, a).tasks[|s.tasks|].closed
  {
    match a
    case Create =>
    case Insert(t) =>
    case Close(t) =>
    case _ => WorkerStepContinues(s, a);
  }

  lemma OnlyCloseCouldClose(s: State, a: Action, t: nat)
    requires Enabled(s, a) && (t < |s.tasks| ==> !s.tasks[t].closed)
    requires t < |Apply(s, a).tasks| && Apply(s, a).tasks[t].closed
    ensures a == Close(t)
  {
    if t >= |s.tasks| {
      NewTaskIsOpen(s, a);
    } else if a != Close(t) {
      OnlyCloseCloses(s, a, t);
    }
  }

  lemma ClosesNow(s: State, acts: seq<Action>, r: State, t: nat)
    requires Inv(s) && acts != [] && acts[0] == Close(t) && Run(s, acts, r)
    ensures ClosesAt(s, acts, r, t, 0, s)
  {
  }

  lemma {:induction false} ClosingStep(s: State, acts: seq<Action>, r: State, t: nat) returns (i: nat, m: State)
    requires Inv(s) && Run(s, acts, r) && t < |r.tasks| && r.tasks[t].closed && (t < |s.tasks| ==> !s.tasks[t].closed)
    ensures ClosesAt(s, acts, r, t, i, m)
    decreases |acts|
  {
    var next := Apply(s, acts[0]);
    if t < |next.tasks| && next.tasks[t].closed {
      OnlyCloseCouldClose(s, acts[0], t);
      ClosesNow(s, acts, r, t);
      i, m := 0, s;
    } else {
      StepKeepsInv(s, acts[0]);
      i, m := ClosingStep(next, acts[1..], r, t);
      ClosesLater(s, acts, r, t, i, m);
      i := i + 1;
    }
  }

  lemma ReachedClosing(prog: seq<TaskSpec>, serial: bool, workers: nat, acts: seq<Action>, s: State, t: nat)
    returns (i: nat, m: State)
    requires Reaches(prog, serial, workers, acts, s) && t < |s.tasks| && s.tasks[t].closed
    ensures ClosesAt(Initial(prog, serial, workers), acts, s, t, i, m) && m.prog == s.prog == prog
    ensures SameClosing(CloseRegistration(m, t).tasks[t], s.tasks[t])
  {
    var init := Initial(prog, serial, workers);
    InitialInv(prog, serial, workers);
    i, m := ClosingStep(init, acts, s, t);
    RunKeepsSetup(init, acts, s);
    RunKeepsSetup(init, acts[..i], m);
    CloseKeepsInv(m, t);
    RunAfterClosing(CloseRegistration(m, t), acts[i + 1..], s, t);
  }

  // ---- one registering thread

  /** Only the registration of the last task may be open. */
  ghost predicate OnlyLastIsOpen(s: State) {
    forall t | 0 <= t < |s.tasks| - 1 :: s.tasks[t].closed
  }

  lemma ClosedStays(s: State, a: Action, t: nat)
    requires Enabled(s, a) && t < |s.tasks| && s.tasks[t].closed
    ensures t < |Apply(s, a).tasks| && Apply(s, a).tasks[t].closed
  {
    if a == Close(t) {
      CloseContinues(s, t, t);
    } else {
      OnlyCloseCloses(s, a, t);
    }
  }

  lemma StepKeepsLastOpen(s: State, a: Action)
    requires Enabled(s, a) && s.serial && OnlyLastIsOpen(s)
    ensures OnlyLastIsOpen(Apply(s, a))
  {
    var r := Apply(s, a);
    if |r.tasks| > |s.tasks| {
      NewTaskIsOpen(s, a);
    }
    forall t | 0 <= t < |r.tasks| - 1 ensures r.tasks[t].closed {
      ClosedStays(s, a, t);
    }
  }

  lemma {:induction false} RunKeepsLastOpen(s: State, acts: seq<Action>, r: State)
    requires Run(s, acts, r) && s.serial && OnlyLastIsOpen(s)
    ensures OnlyLastIsOpen(r)
    decreases |acts|
  {
    if acts != [] {
      StepKeepsLastOpen(s, acts[0]);
      RunKeepsSetup(s, [acts[0]], Apply(s, acts[0]));
      RunKeepsLastOpen(Apply(s, acts[0]), acts[1..], r);
    }
  }

  /** With one registering thread all created tasks but the last are registered. */
  lemma SerialRegistersInTurn(prog: seq<TaskSpec>, workers: nat, acts: seq<Action>, s: State)
    requires Reaches(prog, true, workers, acts, s)
    ensures OnlyLastIsOpen(s)
  {
    RunKeepsLastOpen(Initial(prog, true, workers), acts, s);
  }

  // ---- lost tasks

  /** The guard of the failing branch: the closing update takes the counter of t from below
      its goal to beyond it. */
  predicate Jumps(s: State, t: nat) {
    t < |s.tasks| <= |s.prog| &&
    s.tasks[t].finishedPre < |s.prog[t].pres| < s.tasks[t].finishedPre + s.tasks[t].tally
  }

  lemma UpdateLosesNot(s: State, u: nat, t: nat)
    requires u < |s.tasks| && t < |s.tasks| <= |s.prog| && !IsLost(s, t)
    requires s.tasks[t].closed && s.tasks[t].pushes == 0 ==> s.tasks[t].finishedPre < |s.prog[t].pres|
    ensures !IsLost(UpdateFinishedPreCount(s, u, 1), t)
  {
  }

  lemma LockLosesNot(s: State, p: nat, l: Option<nat>, t: nat)
    requires p < |s.tasks| && t < |s.tasks|
    ensures var m := WithLock(s, p, l);
            && |m.tasks| == |s.tasks| && m.prog == s.prog && (IsLost(m, t) <==> IsLost(s, t))
            && m.tasks[t].closed == s.tasks[t].closed && m.tasks[t].pushes == s.tasks[t].pushes
            && m.tasks[t].finishedPre == s.tasks[t].finishedPre
  {
  }

  lemma UnpushedIsBelowGoal(s: State, t: nat)
    requires Inv(s) && t < |s.tasks| && !IsLost(s, t)
    ensures s.tasks[t].closed && s.tasks[t].pushes == 0 ==> s.tasks[t].finishedPre < |s.prog[t].pres|
  {
    assert TaskOk(s, t);
  }

  lemma NotifyLosesNot(s: State, w: nat, t: nat)
    requires Inv(s) && CanNotify(s, w) && t < |s.tasks| && !IsLost(s, t)
    ensures !IsLost(NotifyPost(s, w), t)
  {
    UnpushedIsBelowGoal(s, t);
    var p := s.workers[w].task;
    var l := Some(s.tasks[p].lock.value + 1);
    NotifyIsUpdate(s, w);
    LockLosesNot(s, p, l, t);
    UpdateLosesNot(WithLock(s, p, l), NextPost(s, p), t);
  }

  lemma InsertLosesNot(s: State, u: nat, t: nat)
    requires CanInsert(s, u) && t < |s.tasks| && !IsLost(s, t)
    ensures !IsLost(InsertPost(s, u), t)
  {
  }

  lemma CloseLosesIff(s: State, u: nat, t: nat)
    requires Inv(s) && CanClose(s, u) && t < |s.tasks| && !IsLost(s, t)
    ensures IsLost(CloseRegistration(s, u), t) <==> u == t && Jumps(s, t)
  {
    assert TaskOk(s, t);
  }

  /** A step loses a task exactly if it is its closing update and the counter jumps. */
  lemma StepLosesIff(s: State, a: Action, t: nat)
    requires Inv(s) && Enabled(s, a) && t < |s.tasks| && !IsLost(s, t)
    ensures IsLost(Apply(s, a), t) <==> a == Close(t) && Jumps(s, t)
  {
    match a
    case Notify(w) => NotifyLosesNot(s, w, t);
    case Insert(u) => InsertLosesNot(s, u, t);
    case Close(u) => CloseLosesIff(s, u, t);
    case _ =>
  }

  lemma UpdateKeepsLost(s: State, u: nat, count: nat, t: nat)
    requires IsLost(s, t) && u < |s.tasks|
    ensures IsLost(UpdateFinishedPreCount(s, u, count), t)
  {
  }

  lemma StepKeepsLost(s: State, a: Action, t: nat)
    requires IsLost(s, t) && Enabled(s, a)
    ensures IsLost(Apply(s, a), t)
  {
    match a
    case Notify(w) => NotifyKeepsLost(s, w, t);
    case Insert(u) => InsertKeepsLost(s, u, t);
    case Close(u) => CloseKeepsLost(s, u, t);
    case _ =>
  }

  lemma NotifyKeepsLost(s: State, w: nat, t: nat)
    requires IsLost(s, t) && CanNotify(s, w)
    ensures IsLost(NotifyPost(s, w), t)
  {
    var p := s.workers[w].task;
    NotifyIsUpdate(s, w);
    UpdateKeepsLost(WithLock(s, p, Some(s.tasks[p].lock.value + 1)), NextPost(s, p), 1, t);
  }

  lemma CloseKeepsLost(s: State, u: nat, t: nat)
    requires IsLost(s, t) && CanClose(s, u)
    ensures IsLost(CloseRegistration(s, u), t)
  {
  }

  lemma InsertKeepsLost(s: State, u: nat, t: nat)
    requires IsLost(s, t) && CanInsert(s, u)
    ensures IsLost(InsertPost(s, u), t)
  {
  }

  /** Nothing that happens later can push a lost task. */
  lemma {:induction false} LostForever(s: State, acts: seq<Action>, r: State, t: nat)
    requires IsLost(s, t) && Run(s, acts, r)
    ensures IsLost(r, t)
    decreases |acts|
  {
    if acts != [] {
      StepKeepsLost(s, acts[0], t);
      LostForever(Apply(s, acts[0]), acts[1..], r, t);
    }
  }

  /** After the closing update nothing is lost or regained. */
  lemma {:induction false} LostStays(s: State, acts: seq<Action>, r: State, t: nat)
    requires Inv(s) && Run(s, acts, r) && t < |s.tasks| && s.tasks[t].closed
    ensures IsLost(r, t) <==> IsLost(s, t)
    decreases |acts|
  {
    if acts != [] {
      StepKeepsInv(s, acts[0]);
      StepAfterClosing(s, acts[0], t);
      if IsLost(s, t) {
        StepKeepsLost(s, acts[0], t);
      } else {
        StepLosesIff(s, acts[0], t);
      }
      LostStays(Apply(s, acts[0]), acts[1..], r, t);
    }
  }

  /** On every run, the closed tasks that are lost are those whose counter jumped over its
      goal in the one closing update of the task. */
  lemma LostIffJumped(prog: seq<TaskSpec>, serial: bool, workers: nat, acts: seq<Action>, s: State, t: nat)
    returns (i: nat, m: State)
    requires Reaches(prog, serial, workers, acts, s) && t < |s.tasks| && s.tasks[t].closed
    ensures ClosesAt(Initial(prog, serial, workers), acts, s, t, i, m) && m.prog == prog
    ensures IsLost(s, t) <==> Jumps(m, t)
  {
    i, m := ReachedClosing(prog, serial, workers, acts, s, t);
    CloseLosesIff(m, t, t);
    CloseKeepsInv(m, t);
    LostStays(CloseRegistration(m, t), acts[i + 1..], s, t);
  }

  /** The counter can jump only if some stored entry was notified twice, and there are at
      least three entries. */
  lemma JumpNeedsTwice(s: State, t: nat) returns (e: nat)
    requires Inv(s) && CanClose(s, t) && Jumps(s, t)
    ensures |s.prog[t].pres| >= 3
    ensures e < |s.tasks[t].fates| && s.tasks[t].fates[e].Stored? && Credit(s, t, e) == 2
    ensures s.prog[t].pres[e] < |s.tasks| && s.tasks[s.prog[t].pres[e]].overtaken
  {
    assert TaskOk(s, t);
    ReceivedBound(s, t);
    BalanceSplits(s, t);
    if forall e | 0 <= e < |s.tasks[t].fates| :: Received(s, t)[e] <= 1 {
      SumOfStored(Received(s, t), s.tasks[t].fates, 1);
    }
    e :| 0 <= e < |s.tasks[t].fates| && Received(s, t)[e] > 1;
    assert EntryOk(s, t, e) && TaskOk(s, s.prog[t].pres[e]);
  }

  /** A lost task has three entries at least, and one of its own pre-tasks was overtaken. */
  lemma LostNeedsOvertakenPre(prog: seq<TaskSpec>, serial: bool, workers: nat, acts: seq<Action>, s: State, t: nat)
    requires Reaches(prog, serial, workers, acts, s) && IsLost(s, t)
    ensures |s.prog[t].pres| >= 3 && !DirectPresNotOvertaken(s, t)
  {
    var i, m := LostIffJumped(prog, serial, workers, acts, s, t);
    var e := JumpNeedsTwice(m, t);
    var p := m.prog[t].pres[e];
    ReachedInv(prog, serial, workers, acts, s);
    RunKeepsSetup(Initial(prog, serial, workers), acts, s);
    assert TaskOk(m, p);
    StepAfterClosing(m, Close(t), p);
    CloseKeepsInv(m, t);
    RunAfterClosing(CloseRegistration(m, t), acts[i + 1..], s, p);
  }

  // ---- overtaken registrations

  /** A registration is overtaken exactly if the task has pre-tasks and, before the closing
      update, which added nothing, its counter already had its goal. */
  lemma OvertakenIff(prog: seq<TaskSpec>, serial: bool, workers: nat, acts: seq<Action>, s: State, t: nat)
    returns (i: nat, m: State)
    requires Reaches(prog, serial, workers, acts, s) && t < |s.tasks| && s.tasks[t].closed
    ensures ClosesAt(Initial(prog, serial, workers), acts, s, t, i, m) && m.prog == s.prog == prog
    ensures s.tasks[t].overtaken <==>
              prog[t].pres != [] && m.tasks[t].tally == 0 && m.tasks[t].finishedPre == |prog[t].pres|
    ensures s.tasks[t].fates == m.tasks[t].fates
  {
    i, m := ReachedClosing(prog, serial, workers, acts, s, t);
  }

  /** Entry e of t was stored, and its slot has been notified. */
  ghost predicate EntryNotified(s: State, t: nat, e: nat)
    requires InRange(s, t) && e < |s.tasks[t].fates|
  {
    s.tasks[t].fates[e].Stored? && Credit(s, t, e) > 0
  }

  /** If no pre-task goes through post_run twice, a registration is overtaken exactly if
      the task has pre-tasks, every entry was stored, and every slot had been notified
      before the closing update. */
  lemma OvertakenIffAllNotified(prog: seq<TaskSpec>, serial: bool, workers: nat, acts: seq<Action>, s: State, t: nat)
    returns (i: nat, m: State)
    requires Reaches(prog, serial, workers, acts, s) && t < |s.tasks| <= |s.prog| && s.tasks[t].closed
    requires forall p | p in s.prog[t].pres :: p < |s.tasks| ==> s.tasks[p].locks <= 1
    ensures ClosesAt(Initial(prog, serial, workers), acts, s, t, i, m) && m.prog == s.prog == prog
    ensures s.tasks[t].overtaken <==>
              prog[t].pres != [] && forall e | 0 <= e < |m.tasks[t].fates| :: EntryNotified(m, t, e)
  {
    i, m := OvertakenIff(prog, serial, workers, acts, s, t);
    forall e | 0 <= e < |m.tasks[t].fates| ensures Credits(m, t)[e] <= 1 {
      CreditBeforeClosing(m, t, acts[i + 1..], s, e);
    }
    AllNotifiedIff(m, t);
  }

  /** An entry is credited at most once before the closing update if its pre-task goes
      through post_run at most once up to a later state. */
  lemma CreditBeforeClosing(m: State, t: nat, acts: seq<Action>, s: State, e: nat)
    requires Inv(m) && CanClose(m, t) && Run(CloseRegistration(m, t), acts, s) && e < |m.tasks[t].fates|
    requires m.prog[t].pres[e] < |s.tasks| ==> s.tasks[m.prog[t].pres[e]].locks <= 1
    ensures Credits(m, t)[e] <= 1
  {
    var p := m.prog[t].pres[e];
    assert EntryOk(m, t, e) && TaskOk(m, p);
    CloseContinues(m, t, p);
    RunGrows(CloseRegistration(m, t), acts, s, p);
  }

  /** What an overtaken registration looks like: the task has pre-tasks, each entry was
      stored, and the counter had its goal before the closing update, which added nothing. */
  lemma OvertakenMeans(prog: seq<TaskSpec>, serial: bool, workers: nat, acts: seq<Action>, s: State, t: nat)
    returns (i: nat, m: State)
    requires Reaches(prog, serial, workers, acts, s) && t < |s.tasks| && s.tasks[t].overtaken
    ensures t < |s.prog| && s.prog[t].pres != [] && s.tasks[t].closed && s.tasks[t].tally == 0
    ensures |s.tasks[t].fates| == |s.prog[t].pres|
    ensures forall e | 0 <= e < |s.tasks[t].fates| :: s.tasks[t].fates[e].Stored?
    ensures ClosesAt(Initial(prog, serial, workers), acts, s, t, i, m) && m.tasks[t].finishedPre == |s.prog[t].pres|
  {
    ReachedInv(prog, serial, workers, acts, s);
    assert TaskOk(s, t);
    NoneTallied(s.tasks[t].fates);
    i, m := OvertakenIff(prog, serial, workers, acts, s, t);
  }

  /** If every pre-task has run post_run exactly once and the registration is closed, the
      task was pushed once; or twice, if it has pre-tasks and all its slots had been
      notified before the closing update. */
  lemma ExactPushCount(prog: seq<TaskSpec>, serial: bool, workers: nat, acts: seq<Action>, s: State, t: nat)
    returns (i: nat, m: State)
    requires Reaches(prog, serial, workers, acts, s) && t < |s.tasks| <= |s.prog| && s.tasks[t].closed
    requires forall p | p in s.prog[t].pres :: p < |s.tasks| && s.tasks[p].locks == s.tasks[p].dones == 1
    ensures s.tasks[t].finishedPre == |s.prog[t].pres|
    ensures s.tasks[t].pushes == if s.tasks[t].overtaken then 2 else 1
    ensures ClosesAt(Initial(prog, serial, workers), acts, s, t, i, m) && m.prog == s.prog
    ensures s.tasks[t].pushes == 2 <==>
              s.prog[t].pres != [] && forall e | 0 <= e < |m.tasks[t].fates| :: EntryNotified(m, t, e)
  {
    ReachedInv(prog, serial, workers, acts, s);
    assert TaskOk(s, t);
    forall e | 0 <= e < |s.tasks[t].fates| ensures Credits(s, t)[e] == 1 {
      var p := s.prog[t].pres[e];
      assert p in s.prog[t].pres && EntryOk(s, t, e) && TaskOk(s, p);
    }
    SumOfOnes(Credits(s, t));
    SumOfPositives(Credits(s, t));
    i, m := OvertakenIffAllNotified(prog, serial, workers, acts, s, t);
  }

  lemma AllNotifiedIff(m: State, t: nat)
    requires Inv(m) && CanClose(m, t) && forall e | 0 <= e < |m.tasks[t].fates| :: Credits(m, t)[e] <= 1
    ensures m.tasks[t].tally == 0 && m.tasks[t].finishedPre == |m.prog[t].pres| <==>
            forall e | 0 <= e < |m.tasks[t].fates| :: EntryNotified(m, t, e)
  {
    assert TaskOk(m, t);
    if m.tasks[t].tally == 0 && m.tasks[t].finishedPre == |m.prog[t].pres| {
      NoneTallied(m.tasks[t].fates);
      SumOfOnes(Credits(m, t));
    }
    if forall e | 0 <= e < |m.tasks[t].fates| :: EntryNotified(m, t, e) {
      forall e | 0 <= e < |m.tasks[t].fates| ensures m.tasks[t].fates[e].Stored? && Credits(m, t)[e] > 0 {
        assert EntryNotified(m, t, e);
      }
      AllStored(m.tasks[t].fates);
      SumOfPositives(Credits(m, t));
      SumOfOnes(Credits(m, t));
    }
  }

  lemma {:induction false} AllStored(fates: seq<Fate>)
    requires forall e | 0 <= e < |fates| :: fates[e].Stored?
    ensures CountTallied(fates) == 0
  {
    if fates != [] {
      AllStored(fates[..|fates| - 1]);
    }
  }
}
