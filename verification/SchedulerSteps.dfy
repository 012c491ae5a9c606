/** What a single step leaves alone: workers never touch a registration, and no history
    ever runs backwards. */
module SchedulerSteps {
  import opened SchedulerModel
  import opened SchedulerInvariant

  predicate IsWorkerStep(a: Action) {
    a.Pop? || a.Return? || a.Acquire? || a.Notify? || a.Finish?
  }

  /** The registration is the same, and the runs have only gone on. */
  ghost predicate Continues(k: Task, l: Task) {
    && l.fates == k.fates && l.closed == k.closed && l.tally == k.tally
    && l.overtaken == k.overtaken && l.closingPush == k.closingPush && Grows(k, l)
  }

  ghost predicate Grows(k: Task, l: Task) {
    && (k.isFinished ==> l.isFinished) && k.pushes <= l.pushes && k.starts <= l.starts
    && k.exits <= l.exits && k.locks <= l.locks && k.dones <= l.dones
  }

  ghost predicate AllContinue(s: State, r: State) {
    && r.prog == s.prog && |r.tasks| == |s.tasks| && |r.workers| == |s.workers|
    && forall t | 0 <= t < |s.tasks| :: Continues(s.tasks[t], r.tasks[t])
  }

  lemma UpdateContinues(s: State, u: nat, count: nat)
    requires u < |s.tasks| <= |s.prog|
    ensures AllContinue(s, UpdateFinishedPreCount(s, u, count))
  {
  }

  lemma ContinuesTwice(s: State, m: State, r: State)
    requires AllContinue(s, m) && AllContinue(m, r)
    ensures AllContinue(s, r)
  {
    forall t | 0 <= t < |s.tasks| ensures Continues(s.tasks[t], r.tasks[t]) {
      assert Continues(s.tasks[t], m.tasks[t]) && Continues(m.tasks[t], r.tasks[t]);
    }
  }

  /** The state with a new value for the lock of p. */
  function WithLock(s: State, p: nat, l: Option<nat>): State
    requires p < |s.tasks|
  {
    s.(tasks := s.tasks[p := s.tasks[p].(lock := l)])
  }

  lemma LockContinues(s: State, p: nat, l: Option<nat>)
    requires p < |s.tasks|
    ensures AllContinue(s, WithLock(s, p, l))
  {
  }

  /** A notification moves the lock on and updates one counter. */
  lemma NotifyIsUpdate(s: State, w: nat)
    requires CanNotify(s, w)
    ensures var p := s.workers[w].task;
            var m := WithLock(s, p, Some(s.tasks[p].lock.value + 1));
            NextPost(s, p) < |m.tasks| && NotifyPost(s, w) == UpdateFinishedPreCount(m, NextPost(s, p), 1)
  {
  }

  lemma UpdatedContinues(s: State, m: State, u: nat, count: nat, r: State)
    requires AllContinue(s, m) && u < |m.tasks| <= |m.prog| && r == UpdateFinishedPreCount(m, u, count)
    ensures AllContinue(s, r)
  {
    UpdateContinues(m, u, count);
    ContinuesTwice(s, m, r);
  }

  lemma NotifyContinues(s: State, w: nat)
    requires CanNotify(s, w)
    ensures AllContinue(s, NotifyPost(s, w))
  {
    var p := s.workers[w].task;
    var l := Some(s.tasks[p].lock.value + 1);
    LockContinues(s, p, l);
    NotifyIsUpdate(s, w);
    UpdatedContinues(s, WithLock(s, p, l), NextPost(s, p), 1, NotifyPost(s, w));
  }

  lemma WorkerStepContinues(s: State, a: Action)
    requires Enabled(s, a) && IsWorkerStep(a)
    ensures AllContinue(s, Apply(s, a))
  {
    if a.Notify? {
      NotifyContinues(s, a.worker);
    }
  }

  /** The registration of u goes on; that of every other task is the same. */
  lemma InsertContinues(s: State, u: nat, t: nat)
    requires CanInsert(s, u) && t < |s.tasks|
    ensures |InsertPost(s, u).tasks| == |s.tasks| && Grows(s.tasks[t], InsertPost(s, u).tasks[t])
    ensures t != u ==> Continues(s.tasks[t], InsertPost(s, u).tasks[t])
    ensures InsertPost(s, u).tasks[t].closed == s.tasks[t].closed
  {
  }

  lemma CloseContinues(s: State, u: nat, t: nat)
    requires CanClose(s, u) && t < |s.tasks|
    ensures |CloseRegistration(s, u).tasks| == |s.tasks| && Grows(s.tasks[t], CloseRegistration(s, u).tasks[t])
    ensures t != u ==> Continues(s.tasks[t], CloseRegistration(s, u).tasks[t])
    ensures CloseRegistration(s, u).tasks[u].closed
  {
  }

  /** No step makes a history run backwards. */
  lemma StepGrows(s: State, a: Action, t: nat)
    requires Enabled(s, a) && t < |s.tasks|
    ensures t < |Apply(s, a).tasks| && Grows(s.tasks[t], Apply(s, a).tasks[t])
  {
    match a
    case Create =>
    case Insert(u) => InsertContinues(s, u, t);
    case Close(u) => CloseContinues(s, u, t);
    case _ =>
      WorkerStepContinues(s, a);
      assert Continues(s.tasks[t], Apply(s, a).tasks[t]);
  }

  /** Only its own closing update closes a registration. */
  lemma OnlyCloseCloses(s: State, a: Action, t: nat)
    requires Enabled(s, a) && a != Close(t) && t < |s.tasks|
    ensures t < |Apply(s, a).tasks| && Apply(s, a).tasks[t].closed == s.tasks[t].closed
  {
    match a
    case Create =>
    case Insert(u) => InsertContinues(s, u, t);
    case Close(u) => CloseContinues(s, u, t);
    case _ =>
      WorkerStepContinues(s, a);
      assert Continues(s.tasks[t], Apply(s, a).tasks[t]);
  }

  // ---- what a task lock protects

  /** The step is taken by the worker that holds the lock of t. */
  predicate IsHolder(s: State, a: Action, t: nat) {
    (a.Notify? || a.Finish?) && a.worker < |s.workers| && s.workers[a.worker] == Notifying(t)
  }

  ghost predicate SameGuarded(k: Task, l: Task) {
    && l.finishedPre == k.finishedPre && l.isFinished == k.isFinished && l.posts == k.posts
    && l.lock == k.lock && l.pushes == k.pushes
  }

  lemma UpdateSpares(s: State, u: nat, count: nat, t: nat)
    requires u < |s.tasks| <= |s.prog| && t < |s.tasks| && t != u
    ensures UpdateFinishedPreCount(s, u, count).tasks[t] == s.tasks[t]
  {
  }

  lemma NotifySpares(s: State, w: nat, t: nat)
    requires CanNotify(s, w) && t < |s.tasks| && s.tasks[t].lock.Some? && s.workers[w].task != t
    ensures t < |NotifyPost(s, w).tasks| && NotifyPost(s, w).tasks[t] == s.tasks[t]
  {
    var p := s.workers[w].task;
    NotifyIsUpdate(s, w);
    UpdateSpares(WithLock(s, p, Some(s.tasks[p].lock.value + 1)), NextPost(s, p), 1, t);
  }

  lemma RegistrationSpares(s: State, a: Action, t: nat)
    requires Enabled(s, a) && (a.Create? || a.Insert? || a.Close?) && t < |s.tasks| && s.tasks[t].lock.Some?
    ensures t < |Apply(s, a).tasks| && SameGuarded(s.tasks[t], Apply(s, a).tasks[t])
  {
  }

  /** While a worker holds the lock of t, nobody else touches what the lock protects: the
      counter of t, its finished flag, its posts and whether it is queued. */
  lemma LockProtects(s: State, a: Action, t: nat)
    requires Enabled(s, a) && t < |s.tasks| && s.tasks[t].lock.Some? && !IsHolder(s, a, t)
    ensures t < |Apply(s, a).tasks| && SameGuarded(s.tasks[t], Apply(s, a).tasks[t])
  {
    match a
    case Notify(w) => NotifySpares(s, w, t);
    case Create => RegistrationSpares(s, a, t);
    case Insert(u) => RegistrationSpares(s, a, t);
    case Close(u) => RegistrationSpares(s, a, t);
    case _ =>
  }

  lemma {:induction false} RunGrows(s: State, acts: seq<Action>, r: State, t: nat)
    requires Run(s, acts, r) && t < |s.tasks|
    ensures t < |r.tasks| && Grows(s.tasks[t], r.tasks[t])
    decreases |acts|
  {
    if acts != [] {
      StepGrows(s, acts[0], t);
      RunGrows(Apply(s, acts[0]), acts[1..], r, t);
    }
  }
}
