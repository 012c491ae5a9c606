/** What holds at the end of every run of the scheduler. */
module SchedulerTheorems {
  import opened Sums
  import opened SchedulerModel
  import opened SchedulerInvariant

  ghost predicate Reaches(prog: seq<TaskSpec>, serial: bool, workers: nat, acts: seq<Action>, s: State) {
    WellFormed(prog) && Run(Initial(prog, serial, workers), acts, s)
  }

  lemma ReachedInv(prog: seq<TaskSpec>, serial: bool, workers: nat, acts: seq<Action>, s: State)
    requires Reaches(prog, serial, workers, acts, s)
    ensures Inv(s)
  {
    InitialInv(prog, serial, workers);
    RunKeepsInv(Initial(prog, serial, workers), acts, s);
  }

  lemma {:induction false} RunKeepsSetup(s: State, acts: seq<Action>, r: State)
    requires Run(s, acts, r)
    ensures r.prog == s.prog && r.serial == s.serial && |r.workers| == |s.workers|
    decreases |acts|
  {
    if acts != [] {
      RunKeepsSetup(Apply(s, acts[0]), acts[1..], r);
    }
  }

  // ---- pushes

  /** On every interleaving a task is pushed at most twice, and twice exactly when its
      registration was overtaken: it has a pre-task, every entry was stored, and its counter
      had its goal before the closing update. */
  lemma PushedAtMostTwice(prog: seq<TaskSpec>, serial: bool, workers: nat, acts: seq<Action>, s: State, t: nat)
    requires Reaches(prog, serial, workers, acts, s) && t < |s.tasks|
    ensures s.tasks[t].calls <= s.tasks[t].starts <= s.tasks[t].pushes <= 2
    ensures s.tasks[t].pushes == 2 <==> s.tasks[t].overtaken
  {
    ReachedInv(prog, serial, workers, acts, s);
    assert TaskOk(s, t);
  }

  ghost predicate NoneOvertaken(s: State) {
    forall t | 0 <= t < |s.tasks| :: !s.tasks[t].overtaken
  }

  /** "Pushed at most once" holds of exactly the runs in which no registration is overtaken. */
  lemma PushedAtMostOnceIff(prog: seq<TaskSpec>, serial: bool, workers: nat, acts: seq<Action>, s: State)
    requires Reaches(prog, serial, workers, acts, s)
    ensures (forall t | 0 <= t < |s.tasks| :: s.tasks[t].pushes <= 1) <==> NoneOvertaken(s)
  {
    forall t | 0 <= t < |s.tasks| ensures s.tasks[t].pushes <= 1 <==> !s.tasks[t].overtaken {
      PushedAtMostTwice(prog, serial, workers, acts, s, t);
    }
  }

  // ---- conservation

  /** What the stored entries of t have received. */
  ghost function Received(s: State, t: nat): (ds: seq<int>)
    requires InRange(s, t)
    ensures |ds| == |s.tasks[t].fates|
    ensures forall e | 0 <= e < |ds| ::
              ds[e] == if s.tasks[t].fates[e].Tallied? then 0 else Credit(s, t, e)
  {
    seq(|s.tasks[t].fates|,
        e requires 0 <= e < |s.tasks[t].fates| => if s.tasks[t].fates[e].Tallied? then 0 else Credit(s, t, e))
  }

  lemma BalanceSplits(s: State, t: nat)
    requires InRange(s, t) && BalanceOk(s, t)
    ensures s.tasks[t].finishedPre == (if s.tasks[t].closed then s.tasks[t].tally else 0) + Sum(Received(s, t))
  {
    if s.tasks[t].closed {
      ClosingCredits(Received(s, t), Credits(s, t), s.tasks[t].fates);
    } else {
      assert Received(s, t) == Credits(s, t);
    }
  }

  /** No notification is lost or invented, reruns included: the counter of t is its tally,
      once added, plus what its stored entries received. */
  lemma Conservation(prog: seq<TaskSpec>, serial: bool, workers: nat, acts: seq<Action>, s: State, t: nat)
    requires Reaches(prog, serial, workers, acts, s) && t < |s.tasks|
    ensures InRange(s, t)
    ensures s.tasks[t].finishedPre == (if s.tasks[t].closed then s.tasks[t].tally else 0) + Sum(Received(s, t))
    ensures s.tasks[t].tally == CountTallied(s.tasks[t].fates)
  {
    ReachedInv(prog, serial, workers, acts, s);
    assert TaskOk(s, t);
    BalanceSplits(s, t);
  }

  /** Every processed entry is either tallied, its pre-task then being finished, or stored
      in a slot of its pre-task, and never both. */
  lemma EntryIsPlaced(prog: seq<TaskSpec>, serial: bool, workers: nat, acts: seq<Action>, s: State, t: nat, e: nat)
    requires Reaches(prog, serial, workers, acts, s) && t < |s.tasks| && e < |s.tasks[t].fates|
    ensures t < |s.prog| && e < |s.prog[t].pres| && s.prog[t].pres[e] < t
    ensures var q := s.tasks[s.prog[t].pres[e]];
            match s.tasks[t].fates[e]
            case Tallied => q.isFinished && Slot(t, e) !in q.posts
            case Stored(i) => i < |q.posts| && q.posts[i] == Slot(t, e)
  {
    ReachedInv(prog, serial, workers, acts, s);
    var p := s.prog[t].pres[e];
    assert EntryOk(s, t, e) && TaskOk(s, p);
    if Slot(t, e) in s.tasks[p].posts {
      var i :| 0 <= i < |s.tasks[p].posts| && s.tasks[p].posts[i] == Slot(t, e);
      assert SlotOk(s, p, i);
    }
  }

  /** No entry is stored twice, in one pre-task or in two. */
  lemma SlotIsUnique(prog: seq<TaskSpec>, serial: bool, workers: nat, acts: seq<Action>, s: State,
                     p: nat, i: nat, q: nat, j: nat)
    requires Reaches(prog, serial, workers, acts, s)
    requires p < |s.tasks| && i < |s.tasks[p].posts| && q < |s.tasks| && j < |s.tasks[q].posts|
    requires s.tasks[p].posts[i] == s.tasks[q].posts[j]
    ensures p == q && i == j
  {
    ReachedInv(prog, serial, workers, acts, s);
    assert SlotOk(s, p, i) && SlotOk(s, q, j);
  }

  // ---- order

  ghost predicate DirectPresNotOvertaken(s: State, t: nat)
    requires t < |s.prog|
  {
    forall e | 0 <= e < |s.prog[t].pres| ::
      s.prog[t].pres[e] < |s.tasks| ==> !s.tasks[s.prog[t].pres[e]].overtaken
  }

  /** A pre-task that is pushed once delivers at most once to each slot. */
  lemma CreditAtMostOne(s: State, t: nat, e: nat)
    requires Inv(s) && t < |s.tasks| && e < |s.tasks[t].fates| && DirectPresNotOvertaken(s, t)
    ensures Credit(s, t, e) <= 1
    ensures Credit(s, t, e) == 1 ==> s.prog[t].pres[e] < |s.tasks| && s.tasks[s.prog[t].pres[e]].exits >= 1
  {
    assert EntryOk(s, t, e);
    assert TaskOk(s, s.prog[t].pres[e]);
  }

  lemma PushedAfterPres(s: State, t: nat)
    requires Inv(s) && t < |s.tasks| && s.tasks[t].pushes > 0 && DirectPresNotOvertaken(s, t)
    ensures |s.tasks[t].fates| == |s.prog[t].pres|
    ensures forall e | 0 <= e < |s.prog[t].pres| ::
              s.prog[t].pres[e] < |s.tasks| && s.tasks[s.prog[t].pres[e]].exits >= 1
  {
    assert TaskOk(s, t);
    forall e | 0 <= e < |s.tasks[t].fates|
      ensures Credits(s, t)[e] <= 1
      ensures Credits(s, t)[e] == 1 ==>
                s.prog[t].pres[e] < |s.tasks| && s.tasks[s.prog[t].pres[e]].exits >= 1
    {
      CreditAtMostOne(s, t, e);
    }
    SumOfOnes(Credits(s, t));
  }

  /** A task starts only after the function of every pre-task has returned, unless one of
      its own pre-tasks was registered overtaken. */
  lemma StartsAfterPres(prog: seq<TaskSpec>, serial: bool, workers: nat, acts: seq<Action>, s: State, t: nat)
    requires Reaches(prog, serial, workers, acts, s) && t < |s.tasks|
    requires t in s.queue || s.tasks[t].starts > 0
    requires t < |s.prog| && DirectPresNotOvertaken(s, t)
    ensures forall p | p in s.prog[t].pres :: p < |s.tasks| && s.tasks[p].exits >= 1
  {
    ReachedInv(prog, serial, workers, acts, s);
    assert TaskOk(s, t);
    PushedAfterPres(s, t);
  }

  /** The functions of all pre-tasks of t have returned. */
  ghost predicate PresReturned(s: State, t: nat)
    requires t < |s.prog|
  {
    forall p | p in s.prog[t].pres :: p < |s.tasks| && s.tasks[p].exits >= 1
  }

  /** No task has been queued too early. */
  ghost predicate InOrder(s: State) {
    forall t | 0 <= t < |s.tasks| && t < |s.prog| && s.tasks[t].pushes > 0 :: PresReturned(s, t)
  }

  ghost predicate PresNotOvertaken(s: State)
    requires |s.tasks| <= |s.prog|
  {
    forall t | 0 <= t < |s.tasks| :: DirectPresNotOvertaken(s, t)
  }

  lemma NotOvertakenMeansInOrder(s: State)
    requires Inv(s) && PresNotOvertaken(s)
    ensures InOrder(s)
  {
    forall t | 0 <= t < |s.tasks| && s.tasks[t].pushes > 0 ensures PresReturned(s, t) {
      assert DirectPresNotOvertaken(s, t);
      PushedAfterPres(s, t);
    }
  }

  // ---- tallies

  lemma {:induction false} NoneTallied(fates: seq<Fate>)
    requires CountTallied(fates) == 0
    ensures forall e | 0 <= e < |fates| :: fates[e].Stored?
  {
    if fates != [] {
      NoneTallied(fates[..|fates| - 1]);
    }
  }

  // ---- termination

  ghost function TaskMeasure(k: Task, n: nat): int {
    3 * (n - |k.fates|) + 2 * (|k.fates| - k.tally) - k.finishedPre + (if k.closed then k.tally else 1)
    + 10 - k.pushes - k.starts - k.exits - k.locks - k.dones
  }

  ghost function Measures(s: State): (ms: seq<int>)
    requires |s.tasks| <= |s.prog|
    ensures |ms| == |s.prog|
    ensures forall t | 0 <= t < |ms| ::
              ms[t] == if t < |s.tasks| then TaskMeasure(s.tasks[t], |s.prog[t].pres|) else 12 + 3 * |s.prog[t].pres|
  {
    seq(|s.prog|, t requires 0 <= t < |s.prog| =>
      if t < |s.tasks| then TaskMeasure(s.tasks[t], |s.prog[t].pres|) else 12 + 3 * |s.prog[t].pres|)
  }

  ghost function Entries(prog: seq<TaskSpec>): nat {
    if prog == [] then 0 else Entries(prog[..|prog| - 1]) + |prog[|prog| - 1].pres|
  }

  /** Each stored entry receives at most two deliveries. */
  lemma ReceivedBound(s: State, t: nat)
    requires Inv(s) && t < |s.tasks|
    ensures s.tasks[t].finishedPre <= (if s.tasks[t].closed then s.tasks[t].tally else 0)
                                      + 2 * (|s.tasks[t].fates| - s.tasks[t].tally)
  {
    assert TaskOk(s, t);
    BalanceSplits(s, t);
    forall e | 0 <= e < |s.tasks[t].fates|
      ensures Received(s, t)[e] <= if s.tasks[t].fates[e].Tallied? then 0 else 2
    {
      assert EntryOk(s, t, e) && TaskOk(s, s.prog[t].pres[e]);
    }
    SumOfStored(Received(s, t), s.tasks[t].fates, 2);
  }

  lemma {:induction false} SumOfStored(ds: seq<int>, fates: seq<Fate>, k: nat)
    requires |ds| == |fates|
    requires forall e | 0 <= e < |ds| :: ds[e] <= if fates[e].Tallied? then 0 else k
    ensures CountTallied(fates) <= |fates| && Sum(ds) <= k * (|fates| - CountTallied(fates))
  {
    if ds != [] {
      SumOfStored(ds[..|ds| - 1], fates[..|ds| - 1], k);
    }
  }

  lemma MeasureNonNegative(s: State)
    requires Inv(s)
    ensures 0 <= Sum(Measures(s))
  {
    forall t | 0 <= t < |s.prog| ensures 0 <= Measures(s)[t] {
      if t < |s.tasks| {
        assert TaskOk(s, t);
        ReceivedBound(s, t);
      }
    }
    SumNonNegative(Measures(s));
  }

  lemma OneTaskDropsMeasure(s: State, r: State, t: nat)
    requires |s.tasks| <= |s.prog| && r.prog == s.prog && |s.tasks| <= |r.tasks| <= |r.prog| && t < |r.tasks|
    requires forall u | 0 <= u < |r.tasks| && u != t ::
               u < |s.tasks| && TaskMeasure(r.tasks[u], |s.prog[u].pres|) == TaskMeasure(s.tasks[u], |s.prog[u].pres|)
    requires Measures(r)[t] < Measures(s)[t]
    ensures Sum(Measures(r)) < Sum(Measures(s))
  {
    assert Measures(r) == Measures(s)[t := Measures(r)[t]];
    SumUpdate(Measures(s), t, Measures(r)[t]);
  }

  lemma CreateDropsMeasure(s: State)
    requires Inv(s) && CanCreate(s)
    ensures |Apply(s, Create).tasks| <= |s.prog| && Sum(Measures(Apply(s, Create))) < Sum(Measures(s))
  {
    OneTaskDropsMeasure(s, Apply(s, Create), |s.tasks|);
  }

  lemma PopDropsMeasure(s: State, w: nat, t: nat)
    requires Inv(s) && CanPop(s, w, t)
    ensures |PopTask(s, w, t).tasks| <= |s.prog| && Sum(Measures(PopTask(s, w, t))) < Sum(Measures(s))
  {
    OneTaskDropsMeasure(s, PopTask(s, w, t), t);
  }

  lemma InsertDropsMeasure(s: State, t: nat)
    requires Inv(s) && CanInsert(s, t)
    ensures |InsertPost(s, t).tasks| <= |s.prog| && Sum(Measures(InsertPost(s, t))) < Sum(Measures(s))
  {
    OneTaskDropsMeasure(s, InsertPost(s, t), t);
  }

  lemma CloseDropsMeasure(s: State, t: nat)
    requires Inv(s) && CanClose(s, t)
    ensures |CloseRegistration(s, t).tasks| <= |s.prog| && Sum(Measures(CloseRegistration(s, t))) < Sum(Measures(s))
  {
    OneTaskDropsMeasure(s, CloseRegistration(s, t), t);
  }

  lemma NotifyDropsMeasure(s: State, w: nat)
    requires Inv(s) && CanNotify(s, w)
    ensures |NotifyPost(s, w).tasks| <= |s.prog| && Sum(Measures(NotifyPost(s, w))) < Sum(Measures(s))
  {
    OneTaskDropsMeasure(s, NotifyPost(s, w), NextPost(s, s.workers[w].task));
  }

  lemma StageDropsMeasure(s: State, a: Action)
    requires Inv(s) && Enabled(s, a) && (a.Return? || a.Acquire? || a.Finish?)
    ensures |Apply(s, a).tasks| <= |Apply(s, a).prog| && Sum(Measures(Apply(s, a))) < Sum(Measures(s))
  {
    OneTaskDropsMeasure(s, Apply(s, a), s.workers[a.worker].task);
  }

  lemma StepDropsMeasure(s: State, a: Action)
    requires Inv(s) && Enabled(s, a)
    ensures |Apply(s, a).tasks| <= |Apply(s, a).prog| && Sum(Measures(Apply(s, a))) < Sum(Measures(s))
  {
    match a
    case Create => CreateDropsMeasure(s);
    case Insert(t) => InsertDropsMeasure(s, t);
    case Close(t) => CloseDropsMeasure(s, t);
    case Pop(w, t) => PopDropsMeasure(s, w, t);
    case Notify(w) => NotifyDropsMeasure(s, w);
    case Return(_) => StageDropsMeasure(s, a);
    case Acquire(_) => StageDropsMeasure(s, a);
    case Finish(_) => StageDropsMeasure(s, a);
  }

  lemma {:induction false} RunDropsMeasure(s: State, acts: seq<Action>, r: State)
    requires Inv(s) && Run(s, acts, r)
    ensures Inv(r) && |acts| + Sum(Measures(r)) <= Sum(Measures(s))
    decreases |acts|
  {
    if acts != [] {
      StepDropsMeasure(s, acts[0]);
      StepKeepsInv(s, acts[0]);
      RunDropsMeasure(Apply(s, acts[0]), acts[1..], r);
    }
  }

  lemma {:induction false} InitialMeasure(prog: seq<TaskSpec>, ms: seq<int>)
    requires |ms| == |prog| && forall t | 0 <= t < |ms| :: ms[t] == 12 + 3 * |prog[t].pres|
    ensures Sum(ms) == 12 * |prog| + 3 * Entries(prog)
  {
    if prog != [] {
      InitialMeasure(prog[..|prog| - 1], ms[..|prog| - 1]);
    }
  }

  /** Every interleaving of every program, reruns included, is over after a number of
      lock-held sections that is linear in the tasks and their pre-task entries. */
  lemma RunsAreBounded(prog: seq<TaskSpec>, serial: bool, workers: nat, acts: seq<Action>, s: State)
    requires Reaches(prog, serial, workers, acts, s)
    ensures |acts| <= 12 * |prog| + 3 * Entries(prog)
  {
    var init := Initial(prog, serial, workers);
    InitialInv(prog, serial, workers);
    RunDropsMeasure(init, acts, s);
    MeasureNonNegative(s);
    InitialMeasure(prog, Measures(init));
  }

  // ---- progress

  ghost predicate NoLockHeld(s: State) {
    forall t | 0 <= t < |s.tasks| :: s.tasks[t].lock.None?
  }

  /** The whole program is registered and finished, and nothing is left to do. */
  ghost predicate AtRest(s: State) {
    && |s.tasks| == |s.prog| && (forall t | 0 <= t < |s.tasks| :: s.tasks[t].closed && CanWait(s, t))
    && s.queue == multiset{} && (forall w | 0 <= w < |s.workers| :: s.workers[w].Idle?)
  }

  lemma {:induction false} LastHeldLock(s: State, n: nat) returns (p: nat)
    requires n <= |s.tasks| && exists t :: 0 <= t < n && s.tasks[t].lock.Some?
    ensures p < n && s.tasks[p].lock.Some?
    ensures forall t | p < t < n :: s.tasks[t].lock.None?
  {
    p := n - 1;
    if s.tasks[p].lock.None? {
      p := LastHeldLock(s, n - 1);
    }
  }

  /** Locks are taken from pre to post, so the held lock with the largest id never waits:
      its post_run can notify or finish. No other hypothesis is needed. */
  lemma LockHolderMoves(s: State) returns (a: Action)
    requires Inv(s) && !NoLockHeld(s)
    ensures Enabled(s, a) && (a.Notify? || a.Finish?)
  {
    var p := LastHeldLock(s, |s.tasks|);
    assert TaskOk(s, p);
    assert Notifying(p) in multiset(s.workers);
    assert Notifying(p) in s.workers;
    var w :| 0 <= w < |s.workers| && s.workers[w] == Notifying(p);
    if HasNextPost(s, p) {
      assert SlotOk(s, p, s.tasks[p].lock.value);
      a := Notify(w);
    } else {
      a := Finish(w);
    }
  }

  lemma RegistrationMoves(s: State) returns (a: Action)
    requires Inv(s) && NoLockHeld(s)
    requires |s.tasks| < |s.prog| || exists t :: 0 <= t < |s.tasks| && !s.tasks[t].closed
    ensures Enabled(s, a) && (a.Create? || a.Insert? || a.Close?)
  {
    if t :| 0 <= t < |s.tasks| && !s.tasks[t].closed {
      if |s.tasks[t].fates| < |s.prog[t].pres| {
        assert s.prog[t].pres[|s.tasks[t].fates|] < t;
        a := Insert(t);
      } else {
        a := Close(t);
      }
    } else {
      a := Create;
    }
  }

  /** With no lock held and nobody about to take one, whoever has returned has finished. */
  lemma ReturnedIsFinished(s: State, p: nat)
    requires Inv(s) && NoLockHeld(s) && p < |s.tasks| && s.tasks[p].exits >= 1
    requires forall w | 0 <= w < |s.workers| :: !s.workers[w].Returned?
    ensures CanWait(s, p)
  {
    assert TaskOk(s, p);
    assert Returned(p) !in multiset(s.workers);
  }

  lemma WorkerMoves(s: State, w: nat) returns (a: Action)
    requires Inv(s) && NoLockHeld(s) && WaitsArePres(s.prog) && InOrder(s)
    requires w < |s.workers| && !s.workers[w].Idle?
    ensures Enabled(s, a) && (a.Return? || a.Acquire?)
    ensures a.Return? ==> a.worker < |s.workers| && s.workers[a.worker].Calling?
                          && s.workers[a.worker].task < |s.prog|
                          && forall u | u in s.prog[s.workers[a.worker].task].waits :: CanWait(s, u)
  {
    if v :| 0 <= v < |s.workers| && s.workers[v].Returned? {
      a := Acquire(v);
    } else {
      var t := s.workers[w].task;
      assert TaskOk(s, t) && s.workers[w] in s.workers && s.workers[w] in multiset(s.workers);
      assert s.workers[w].Calling?;
      assert PresReturned(s, t);
      forall u | u in s.prog[t].waits ensures CanWait(s, u) {
        ReturnedIsFinished(s, u);
      }
      a := Return(w);
    }
  }

  lemma {:induction false} TopExists(s: State, q: multiset<nat>) returns (t: nat)
    requires q != multiset{} && forall u | u in q :: u < |s.prog|
    ensures t in q && forall u | u in q :: s.prog[u].priority <= s.prog[t].priority
    decreases |q|
  {
    var v :| v in q;
    t := v;
    var rest := q - multiset{v};
    if rest != multiset{} {
      var best := TopExists(s, rest);
      if s.prog[v].priority < s.prog[best].priority {
        t := best;
      }
    }
    forall u | u in q ensures s.prog[u].priority <= s.prog[t].priority {
      assert u == v || u in rest;
    }
  }

  /** The counter of t has passed its goal without ever having been equal to it. */
  ghost predicate IsLost(s: State, t: nat) {
    t < |s.tasks| <= |s.prog| && s.tasks[t].closed && s.tasks[t].pushes == 0 &&
    s.tasks[t].finishedPre > |s.prog[t].pres|
  }

  ghost predicate NoneLost(s: State) {
    forall t | 0 <= t < |s.tasks| :: !IsLost(s, t)
  }

  /** A task none of whose own pre-tasks was overtaken is not lost. */
  lemma NotOvertakenMeansNotLost(s: State, t: nat)
    requires Inv(s) && t < |s.tasks| && DirectPresNotOvertaken(s, t)
    ensures !IsLost(s, t)
  {
    assert TaskOk(s, t);
    forall e | 0 <= e < |s.tasks[t].fates| ensures Credits(s, t)[e] <= 1 {
      CreditAtMostOne(s, t, e);
    }
    SumOfOnes(Credits(s, t));
  }

  /** A registered task whose pre-tasks are all finished was pushed or is lost. */
  lemma AllPresFinishedMeansPushed(s: State, t: nat)
    requires Inv(s) && t < |s.tasks| && s.tasks[t].closed && !IsLost(s, t)
    requires forall p | p in s.prog[t].pres :: p < |s.tasks| && s.tasks[p].isFinished
    ensures s.tasks[t].pushes >= 1
  {
    assert TaskOk(s, t);
    forall e | 0 <= e < |s.tasks[t].fates| ensures Credits(s, t)[e] >= 1 {
      var p := s.prog[t].pres[e];
      assert p in s.prog[t].pres && EntryOk(s, t, e) && TaskOk(s, p);
    }
    SumOfPositives(Credits(s, t));
  }

  /** Everything is registered, and no worker has anything to do. */
  ghost predicate Quiet(s: State) {
    && NoLockHeld(s) && s.queue == multiset{} && |s.tasks| == |s.prog|
    && (forall w | 0 <= w < |s.workers| :: s.workers[w].Idle?)
    && (forall t | 0 <= t < |s.tasks| :: s.tasks[t].closed)
  }

  lemma {:induction false} QuietMeansFinished(s: State, n: nat)
    requires Inv(s) && NoneLost(s) && Quiet(s) && n <= |s.tasks|
    ensures forall t | 0 <= t < n :: s.tasks[t].isFinished
  {
    if n > 0 {
      var t := n - 1;
      QuietMeansFinished(s, t);
      AllPresFinishedMeansPushed(s, t);
      assert TaskOk(s, t);
      forall w: Worker | w in multiset(s.workers) ensures w.Idle? { assert w in s.workers; }
      assert Calling(t) !in multiset(s.workers) && Returned(t) !in multiset(s.workers);
    }
  }

  /** Unless a worker is inside a function, or nothing is left to do, some lock-held
      section can run. No other hypothesis is needed. */
  lemma QuietUnlessEnabled(s: State) returns (a: Action)
    requires Inv(s) && |s.workers| > 0 && (forall w | 0 <= w < |s.workers| :: !s.workers[w].Calling?)
    ensures Quiet(s) || Enabled(s, a)
  {
    a := Create;
    if !NoLockHeld(s) {
      a := LockHolderMoves(s);
    } else if |s.tasks| < |s.prog| || exists t :: 0 <= t < |s.tasks| && !s.tasks[t].closed {
      a := RegistrationMoves(s);
    } else if w :| 0 <= w < |s.workers| && !s.workers[w].Idle? {
      assert TaskOk(s, s.workers[w].task) && s.workers[w] in multiset(s.workers);
      a := Acquire(w);
    } else if s.queue != multiset{} {
      var t := TopExists(s, s.queue);
      a := Pop(0, t);
    }
  }

  /** How a run can end, without any hypothesis: when no step is possible, everything is
      finished exactly when no task is lost and no function is still waiting. */
  lemma EndIsGoodIff(prog: seq<TaskSpec>, serial: bool, workers: nat, acts: seq<Action>, s: State)
    requires Reaches(prog, serial, workers, acts, s) && Stuck(s) && workers > 0
    ensures AtRest(s) <==> NoneLost(s) && forall w | 0 <= w < |s.workers| :: !s.workers[w].Calling?
  {
    ReachedInv(prog, serial, workers, acts, s);
    RunKeepsSetup(Initial(prog, serial, workers), acts, s);
    if AtRest(s) {
      forall t | 0 <= t < |s.tasks| ensures !IsLost(s, t) {
        assert TaskOk(s, t);
      }
    }
    if NoneLost(s) && forall w | 0 <= w < |s.workers| :: !s.workers[w].Calling? {
      var a := QuietUnlessEnabled(s);
      QuietMeansFinished(s, |s.tasks|);
    }
  }

  /** Deadlock freedom: as long as some task is not finished or some run is not over, some
      lock-held section can run, provided that no task was queued too early or lost, and
      that functions wait only for their own pre-tasks. */
  lemma StepUnlessAtRest(s: State) returns (a: Action)
    requires Inv(s) && InOrder(s) && NoneLost(s) && WaitsArePres(s.prog) && |s.workers| > 0 && !AtRest(s)
    ensures Enabled(s, a)
  {
    if !NoLockHeld(s) {
      a := LockHolderMoves(s);
    } else if w :| 0 <= w < |s.workers| && !s.workers[w].Idle? {
      a := WorkerMoves(s, w);
    } else {
      a := QuietUnlessEnabled(s);
      if Quiet(s) {
        QuietMeansFinished(s, |s.tasks|);
      }
    }
  }

  /** The same when no pre-task was registered overtaken. */
  lemma SomeStepIsEnabled(s: State) returns (a: Action)
    requires Inv(s) && PresNotOvertaken(s) && WaitsArePres(s.prog) && |s.workers| > 0 && !AtRest(s)
    ensures Enabled(s, a)
  {
    NotOvertakenMeansInOrder(s);
    forall t | 0 <= t < |s.tasks| ensures !IsLost(s, t) {
      NotOvertakenMeansNotLost(s, t);
    }
    a := StepUnlessAtRest(s);
  }

  /** Every task was pushed once or twice and its function was called. */
  ghost predicate AllCalled(s: State) {
    forall t | 0 <= t < |s.tasks| :: 1 <= s.tasks[t].pushes <= 2 && s.tasks[t].calls >= 1
  }

  lemma AtRestMeansCalled(s: State)
    requires Inv(s) && AtRest(s)
    ensures AllCalled(s)
  {
    forall t | 0 <= t < |s.tasks| ensures 1 <= s.tasks[t].pushes <= 2 && s.tasks[t].calls >= 1 {
      assert TaskOk(s, t);
    }
  }

  /** Completion: a run that can go no further has finished every task of the program, and
      waiting for any of them returns at once. */
  lemma MaximalRunFinishesAll(prog: seq<TaskSpec>, serial: bool, workers: nat, acts: seq<Action>, s: State)
    requires Reaches(prog, serial, workers, acts, s) && Stuck(s)
    requires workers > 0 && WaitsArePres(prog) && |s.tasks| <= |s.prog| && PresNotOvertaken(s)
    ensures AtRest(s) && |s.tasks| == |prog|
    ensures forall t | 0 <= t < |prog| :: 1 <= s.tasks[t].pushes <= 2 && s.tasks[t].calls >= 1
  {
    ReachedInv(prog, serial, workers, acts, s);
    RunKeepsSetup(Initial(prog, serial, workers), acts, s);
    if !AtRest(s) {
      var a := SomeStepIsEnabled(s);
    }
    AtRestMeansCalled(s);
  }
}
