/** Tasks in order: when a task is queued only after its pre-tasks, on which programs this
    holds whatever the interleaving, and what it gives for completion. */
module SchedulerOrder {
  import opened Sums
  import opened SchedulerModel
  import opened SchedulerInvariant
  import opened SchedulerSteps
  import opened SchedulerTheorems
  import opened SchedulerClosing

  // ---- one push

  /** Every pre-task entry of t is registered, and each has been tallied or notified. */
  ghost predicate AllCredited(s: State, t: nat)
    requires InRange(s, t)
  {
    |s.tasks[t].fates| == |s.prog[t].pres| && forall e | 0 <= e < |s.tasks[t].fates| :: Credits(s, t)[e] >= 1
  }

  ghost predicate NoneCreditedTwice(s: State, t: nat)
    requires InRange(s, t)
  {
    forall e | 0 <= e < |s.tasks[t].fates| :: Credits(s, t)[e] <= 1
  }

  lemma UpdatePushes(s: State, u: nat, count: nat, t: nat)
    requires u < |s.tasks| <= |s.prog| && t < |s.tasks|
    requires UpdateFinishedPreCount(s, u, count).tasks[t].pushes > s.tasks[t].pushes
    ensures UpdateFinishedPreCount(s, u, count).tasks[t].finishedPre == |s.prog[t].pres|
  {
  }

  lemma NotifyPushes(s: State, w: nat, t: nat)
    requires CanNotify(s, w) && t < |s.tasks| && NotifyPost(s, w).tasks[t].pushes > s.tasks[t].pushes
    ensures NotifyPost(s, w).tasks[t].finishedPre == |s.prog[t].pres|
  {
    var p := s.workers[w].task;
    NotifyIsUpdate(s, w);
    UpdatePushes(WithLock(s, p, Some(s.tasks[p].lock.value + 1)), NextPost(s, p), 1, t);
  }

  lemma ClosePushes(s: State, u: nat, t: nat)
    requires CanClose(s, u) && t < |s.tasks| && CloseRegistration(s, u).tasks[t].pushes > s.tasks[t].pushes
    ensures CloseRegistration(s, u).tasks[t].finishedPre == |s.prog[t].pres|
  {
  }

  /** The step to r pushed t. */
  ghost predicate Pushed(s: State, a: Action, r: State, t: nat) {
    Enabled(s, a) && r == Apply(s, a) && t < |s.tasks| <= |r.tasks| && r.tasks[t].pushes > s.tasks[t].pushes
  }

  lemma PushMeetsGoal(s: State, a: Action, r: State, t: nat)
    requires Inv(s) && Pushed(s, a, r, t)
    ensures r.prog == s.prog && r.tasks[t].finishedPre == |s.prog[t].pres|
  {
    match a
    case Notify(w) => NotifyPushes(s, w, t);
    case Close(u) => ClosePushes(s, u, t);
    case _ =>
  }

  lemma AtGoalIff(r: State, t: nat)
    requires InRange(r, t) && Sum(Credits(r, t)) == |r.prog[t].pres|
    ensures AllCredited(r, t) <==> NoneCreditedTwice(r, t)
  {
    if NoneCreditedTwice(r, t) {
      SumOfOnes(Credits(r, t));
    }
    if AllCredited(r, t) {
      if e :| 0 <= e < |r.tasks[t].fates| && Credits(r, t)[e] > 1 {
        SumUpdate(Credits(r, t), e, 1);
        SumOfPositives(Credits(r, t)[e := 1]);
      }
    }
  }

  /** A push comes after all pre-tasks have been credited exactly if none of the entries has
      been credited twice. */
  lemma PushInOrderIff(s: State, a: Action, r: State, t: nat)
    requires Inv(s) && Pushed(s, a, r, t)
    ensures InRange(r, t) && (AllCredited(r, t) <==> NoneCreditedTwice(r, t))
  {
    StepKeepsInv(s, a);
    PushMeetsGoal(s, a, r, t);
    assert TaskOk(r, t);
    AtGoalIff(r, t);
  }

  /** Whoever has been credited has returned, and whoever has been credited twice was
      overtaken and has pre-tasks. */
  lemma CreditedHasReturned(s: State, t: nat, e: nat)
    requires Inv(s) && t < |s.tasks| && e < |s.tasks[t].fates| && Credits(s, t)[e] >= 1
    ensures var p := s.prog[t].pres[e];
            p < |s.tasks| && s.tasks[p].exits >= 1 && (Credits(s, t)[e] > 1 ==> s.prog[p].pres != [])
  {
    assert EntryOk(s, t, e);
    assert TaskOk(s, s.prog[t].pres[e]);
  }

  // ---- all pushes of a program

  /** u is a pre-task of t, at any depth. */
  ghost predicate Above(prog: seq<TaskSpec>, u: nat, t: nat)
    requires WellFormed(prog) && t < |prog|
    decreases t
  {
    exists e :: 0 <= e < |prog[t].pres| && (prog[t].pres[e] == u || Above(prog, u, prog[t].pres[e]))
  }

  /** u has to wait for q. */
  ghost predicate Behind(prog: seq<TaskSpec>, q: nat, u: nat)
    requires WellFormed(prog) && u < |prog|
  {
    u == q || Above(prog, q, u)
  }

  /** How often entry e of t can be credited as long as q has not returned: not at all if
      its pre-task has to wait for q, and twice if that pre-task has pre-tasks itself. */
  ghost function MostCredit(prog: seq<TaskSpec>, t: nat, q: nat, e: nat): int
    requires WellFormed(prog) && t < |prog| && e < |prog[t].pres|
  {
    var x := prog[t].pres[e];
    if Behind(prog, q, x) then 0 else if prog[x].pres != [] then 2 else 1
  }

  ghost function MostCredits(prog: seq<TaskSpec>, t: nat, q: nat): (cs: seq<int>)
    requires WellFormed(prog) && t < |prog|
    ensures |cs| == |prog[t].pres|
    ensures forall e | 0 <= e < |cs| :: cs[e] == MostCredit(prog, t, q, e)
  {
    seq(|prog[t].pres|, e requires 0 <= e < |prog[t].pres| => MostCredit(prog, t, q, e))
  }

  /** Without its pre-task q, t can be credited as often as it has entries. */
  ghost predicate EarlyAt(prog: seq<TaskSpec>, t: nat, q: nat)
    requires WellFormed(prog)
  {
    t < |prog| && q in prog[t].pres && Sum(MostCredits(prog, t, q)) >= |prog[t].pres|
  }

  ghost predicate CanStartEarly(prog: seq<TaskSpec>)
    requires WellFormed(prog)
  {
    exists t: nat, q: nat :: EarlyAt(prog, t, q)
  }

  /** The function of u has returned. */
  predicate HasReturned(s: State, u: nat) {
    u < |s.tasks| && s.tasks[u].exits >= 1
  }

  /** The functions of all tasks above t have returned. */
  ghost predicate AllAboveReturned(s: State, t: nat)
    requires WellFormed(s.prog) && t < |s.prog|
  {
    forall u: nat | Above(s.prog, u, t) :: HasReturned(s, u)
  }

  lemma CreditAtMostTwo(s: State, t: nat, e: nat)
    requires Inv(s) && t < |s.tasks| && e < |s.tasks[t].fates|
    ensures Credits(s, t)[e] <= 2
  {
    assert EntryOk(s, t, e);
    assert TaskOk(s, s.prog[t].pres[e]);
  }

  lemma CreditWithout(s: State, t: nat, q: nat, e: nat)
    requires Inv(s) && t < |s.tasks| && e < |s.tasks[t].fates| && !HasReturned(s, q)
    requires forall v | 0 <= v < t && s.tasks[v].pushes > 0 :: AllAboveReturned(s, v)
    ensures Credits(s, t)[e] <= MostCredit(s.prog, t, q, e)
  {
    CreditAtMostTwo(s, t, e);
    if Credits(s, t)[e] >= 1 {
      CreditedHasReturned(s, t, e);
      var x := s.prog[t].pres[e];
      assert TaskOk(s, x);
      assert AllAboveReturned(s, x);
    }
  }

  lemma {:induction false} SumOfPrefix(xs: seq<int>, k: nat)
    requires k <= |xs| && forall i | 0 <= i < |xs| :: xs[i] >= 0
    ensures Sum(xs[..k]) <= Sum(xs)
  {
    if k == |xs| {
      assert xs[..k] == xs;
    } else {
      assert xs[..|xs| - 1][..k] == xs[..k];
      SumOfPrefix(xs[..|xs| - 1], k);
    }
  }

  /** As long as q has not returned, t gets no more credits than those. */
  lemma CreditsWithout(s: State, t: nat, q: nat)
    requires Inv(s) && t < |s.tasks| && !HasReturned(s, q)
    requires forall v | 0 <= v < t && s.tasks[v].pushes > 0 :: AllAboveReturned(s, v)
    ensures Sum(Credits(s, t)) <= Sum(MostCredits(s.prog, t, q))
  {
    var k := |s.tasks[t].fates|;
    forall e | 0 <= e < k ensures Credits(s, t)[e] <= MostCredits(s.prog, t, q)[..k][e] {
      CreditWithout(s, t, q, e);
    }
    SumMono(Credits(s, t), MostCredits(s.prog, t, q)[..k]);
    SumOfPrefix(MostCredits(s.prog, t, q), k);
  }

  lemma PreReturned(s: State, t: nat, q: nat)
    requires Inv(s) && !CanStartEarly(s.prog) && t < |s.tasks| && s.tasks[t].pushes > 0 && q in s.prog[t].pres
    requires forall v | 0 <= v < t && s.tasks[v].pushes > 0 :: AllAboveReturned(s, v)
    ensures HasReturned(s, q)
  {
    assert TaskOk(s, t);
    assert !EarlyAt(s.prog, t, q);
    if !HasReturned(s, q) {
      CreditsWithout(s, t, q);
    }
  }

  /** On a program that cannot start early, on every interleaving and whatever was overtaken,
      a task is queued only after the functions of all tasks above it have returned. */
  lemma {:induction false} PushedAfterAllAbove(s: State, t: nat)
    requires Inv(s) && !CanStartEarly(s.prog) && t < |s.tasks| && s.tasks[t].pushes > 0
    ensures AllAboveReturned(s, t)
    decreases t
  {
    forall v | 0 <= v < t && s.tasks[v].pushes > 0 ensures AllAboveReturned(s, v) {
      PushedAfterAllAbove(s, v);
    }
    forall u: nat | Above(s.prog, u, t) ensures HasReturned(s, u) {
      var e :| 0 <= e < |s.prog[t].pres| && (s.prog[t].pres[e] == u || Above(s.prog, u, s.prog[t].pres[e]));
      var x := s.prog[t].pres[e];
      PreReturned(s, t, x);
      assert TaskOk(s, x);
    }
  }

  lemma AlwaysInOrder(s: State)
    requires Inv(s) && !CanStartEarly(s.prog)
    ensures InOrder(s)
  {
    forall t | 0 <= t < |s.tasks| && s.tasks[t].pushes > 0 ensures PresReturned(s, t) {
      PushedAfterAllAbove(s, t);
      forall p | p in s.prog[t].pres ensures HasReturned(s, p) {
        var e :| 0 <= e < |s.prog[t].pres| && s.prog[t].pres[e] == p;
        assert Above(s.prog, p, t);
      }
    }
  }

  // ---- completion of a program

  /** t has three entries at least, and the pre-task of its entry e has pre-tasks itself. */
  predicate LosesAt(prog: seq<TaskSpec>, t: nat, e: nat) {
    && t < |prog| && |prog[t].pres| >= 3 && e < |prog[t].pres|
    && prog[t].pres[e] < |prog| && prog[prog[t].pres[e]].pres != []
  }

  ghost predicate CanLose(prog: seq<TaskSpec>) {
    exists t: nat, e: nat :: LosesAt(prog, t, e)
  }

  /** A program that cannot lose tasks loses none on any run. */
  lemma NeverLoses(prog: seq<TaskSpec>, serial: bool, workers: nat, acts: seq<Action>, s: State)
    requires Reaches(prog, serial, workers, acts, s) && !CanLose(prog)
    ensures NoneLost(s)
  {
    ReachedInv(prog, serial, workers, acts, s);
    RunKeepsSetup(Initial(prog, serial, workers), acts, s);
    forall t | 0 <= t < |s.tasks| ensures !IsLost(s, t) {
      if IsLost(s, t) {
        LostNeedsOvertakenPre(prog, serial, workers, acts, s, t);
        var e :| 0 <= e < |prog[t].pres| && prog[t].pres[e] < |s.tasks| && s.tasks[prog[t].pres[e]].overtaken;
        assert TaskOk(s, prog[t].pres[e]);
        assert LosesAt(prog, t, e);
      }
    }
  }

  /** Completion without any hypothesis on the interleaving: a program that can neither
      start early nor lose tasks always finishes. */
  lemma OrderlyProgramFinishes(prog: seq<TaskSpec>, serial: bool, workers: nat, acts: seq<Action>, s: State)
    requires Reaches(prog, serial, workers, acts, s) && Stuck(s) && workers > 0 && WaitsArePres(prog)
    requires !CanStartEarly(prog) && !CanLose(prog)
    ensures AtRest(s) && AllCalled(s)
  {
    ReachedInv(prog, serial, workers, acts, s);
    RunKeepsSetup(Initial(prog, serial, workers), acts, s);
    AlwaysInOrder(s);
    NeverLoses(prog, serial, workers, acts, s);
    if !AtRest(s) {
      var a := StepUnlessAtRest(s);
    }
    AtRestMeansCalled(s);
  }

  ghost predicate WaitsForNothing(prog: seq<TaskSpec>) {
    forall t | 0 <= t < |prog| :: prog[t].waits == {}
  }

  lemma NobodyIsCalling(s: State, w: nat)
    requires Inv(s) && Stuck(s) && WaitsForNothing(s.prog) && w < |s.workers|
    ensures !s.workers[w].Calling?
  {
    assert !Enabled(s, Return(w));
  }

  /** Functions that wait for nothing need no order: their programs finish unless they can
      lose tasks. */
  lemma UnwaitingProgramFinishes(prog: seq<TaskSpec>, serial: bool, workers: nat, acts: seq<Action>, s: State)
    requires Reaches(prog, serial, workers, acts, s) && Stuck(s) && workers > 0
    requires WaitsForNothing(prog) && !CanLose(prog)
    ensures AtRest(s) && AllCalled(s)
  {
    ReachedInv(prog, serial, workers, acts, s);
    RunKeepsSetup(Initial(prog, serial, workers), acts, s);
    NeverLoses(prog, serial, workers, acts, s);
    forall w | 0 <= w < |s.workers| ensures !s.workers[w].Calling? {
      NobodyIsCalling(s, w);
    }
    EndIsGoodIff(prog, serial, workers, acts, s);
    AtRestMeansCalled(s);
  }

  // ---- programs of simple shape

  ghost predicate AtMostEntries(prog: seq<TaskSpec>, n: nat) {
    forall t | 0 <= t < |prog| :: |prog[t].pres| <= n
  }

  /** No pre-task has pre-tasks itself: any number of independent tasks joined by others. */
  ghost predicate Flat(prog: seq<TaskSpec>)
    requires WellFormed(prog)
  {
    forall t, e | 0 <= t < |prog| && 0 <= e < |prog[t].pres| :: prog[prog[t].pres[e]].pres == []
  }

  /** Whoever has one entry at most, or pre-tasks without pre-tasks only, gets too few
      credits without one of its pre-tasks. */
  lemma TooFewCredits(prog: seq<TaskSpec>, t: nat, q: nat)
    requires WellFormed(prog) && t < |prog| && q in prog[t].pres
    requires |prog[t].pres| <= 1 || forall e | 0 <= e < |prog[t].pres| :: prog[prog[t].pres[e]].pres == []
    ensures !EarlyAt(prog, t, q)
  {
    var e :| 0 <= e < |prog[t].pres| && prog[t].pres[e] == q;
    assert MostCredits(prog, t, q)[e] == 0;
    SumOfOnes(MostCredits(prog, t, q));
  }

  lemma SimpleShapes(prog: seq<TaskSpec>)
    requires WellFormed(prog) && (AtMostEntries(prog, 1) || Flat(prog))
    ensures !CanStartEarly(prog) && !CanLose(prog)
  {
    forall t: nat, q: nat ensures !EarlyAt(prog, t, q) {
      if t < |prog| && q in prog[t].pres {
        TooFewCredits(prog, t, q);
      }
    }
  }

  /** With two entries per task at most no task is ever lost. */
  lemma TwoEntriesLoseNone(prog: seq<TaskSpec>, serial: bool, workers: nat, acts: seq<Action>, s: State)
    requires Reaches(prog, serial, workers, acts, s) && AtMostEntries(prog, 2)
    ensures NoneLost(s)
  {
    NeverLoses(prog, serial, workers, acts, s);
  }

  /** Chains, trees and flat programs: on every run each queued or started task has all
      tasks above it returned, no task is lost, and a run that can go no further has
      finished everything. */
  lemma SimplePrograms(prog: seq<TaskSpec>, serial: bool, workers: nat, acts: seq<Action>, s: State)
    requires Reaches(prog, serial, workers, acts, s) && (AtMostEntries(prog, 1) || Flat(prog))
    ensures s.prog == prog && |s.tasks| <= |prog| && NoneLost(s)
    ensures forall t | 0 <= t < |s.tasks| && (t in s.queue || s.tasks[t].starts > 0) :: AllAboveReturned(s, t)
    ensures Stuck(s) && workers > 0 && WaitsArePres(prog) ==> AtRest(s) && AllCalled(s)
  {
    ReachedInv(prog, serial, workers, acts, s);
    RunKeepsSetup(Initial(prog, serial, workers), acts, s);
    SimpleShapes(prog);
    NeverLoses(prog, serial, workers, acts, s);
    forall t | 0 <= t < |s.tasks| && (t in s.queue || s.tasks[t].starts > 0) ensures AllAboveReturned(s, t) {
      assert TaskOk(s, t);
      PushedAfterAllAbove(s, t);
    }
    if Stuck(s) && workers > 0 && WaitsArePres(prog) {
      OrderlyProgramFinishes(prog, serial, workers, acts, s);
    }
  }
}
