/** Which programs push a task twice on some run: all in which a task has a pre-task. */
module SchedulerOvertaking {
  import opened Sums
  import opened SchedulerModel
  import opened SchedulerInvariant
  import opened SchedulerTheorems
  import opened SchedulerClosing
  import opened SchedulerScenes

  /** The workers finish everything below t, so that t is ripe. */
  lemma RipeningRun(s: State, roles: seq<Role>, t: nat) returns (acts: seq<Action>, r: State, now: seq<Role>)
    requires Scene(s, roles) && AllIdle(s) && |roles| == t + 1 && roles[t].Held? && s.prog[t].pres != []
    requires forall u | 0 <= u < t :: roles[u].Waiting?
    ensures Run(s, acts, r) && Scene(r, now) && NoLockHeld(r) && t < |now| && Ripe(r, t)
  {
    acts, r := ServeBelow(s, roles, Below(t), t);
    now := ServedBelow(roles, Below(t), t);
    TaskIsRipe(r, now, Below(t), t);
  }

  /** A run that overtakes t. */
  lemma OvertakingRun(prog: seq<TaskSpec>, workers: nat, t: nat) returns (acts: seq<Action>, s: State)
    requires WellFormed(prog) && WaitsArePres(prog) && workers > 0 && t < |prog| && prog[t].pres != []
    ensures Reaches(prog, false, workers, acts, s) && t < |s.tasks| && s.tasks[t].overtaken && s.tasks[t].pushes == 2
  {
    var init := Initial(prog, false, workers);
    var first, m := OpenAndHold(prog, workers, t + 1, {t});
    var rest, k, now := RipeningRun(m, Cast(seq(t + 1, _ => Waiting), {t}, t + 1, Held), t);
    Overtake(k, now, t);
    s := CloseRegistration(k, t);
    DoubledIsPushedTwice(s, now[t := Doubled], t);
    RunAppend(init, first, m, rest, k);
    RunSnoc(init, first + rest, k, Close(t));
    acts := first + rest + [Close(t)];
  }

  lemma DoubledIsPushedTwice(s: State, roles: seq<Role>, t: nat)
    requires Scene(s, roles) && t < |roles| && roles[t].Doubled?
    ensures s.tasks[t].overtaken && s.tasks[t].pushes == 2
  {
    assert Plays(s, t, roles[t]) && TaskOk(s, t);
  }

  lemma TaskIsRipe(s: State, roles: seq<Role>, good: set<nat>, t: nat)
    requires Scene(s, roles) && AllIdle(s) && Calm(s.prog, roles) && Good(s.prog, roles, good)
    requires t < |roles| && roles[t].Held? && s.prog[t].pres != [] && forall x | x in s.prog[t].pres :: x in good
    requires forall v | v in good && v < t :: !roles[v].Waiting?
    ensures Ripe(s, t)
  {
    assert Plays(s, t, roles[t]);
    GoodPresFinished(s, roles, good, t);
    CalmPres(s, roles, t);
    HeldIsRipe(s, t);
  }

  /** No task has a pre-task. */
  predicate AllIndependent(prog: seq<TaskSpec>) {
    forall t | 0 <= t < |prog| :: prog[t].pres == []
  }

  /** On every run tasks are pushed at most once exactly if no task has a pre-task. */
  lemma PushedOnceOnAllRunsIff(prog: seq<TaskSpec>, workers: nat)
    requires WellFormed(prog) && WaitsArePres(prog) && workers > 0
    ensures AllIndependent(prog) <==>
            forall serial, acts, s | Reaches(prog, serial, workers, acts, s) ::
              forall t | 0 <= t < |s.tasks| :: s.tasks[t].pushes <= 1
  {
    if AllIndependent(prog) {
      forall serial, acts, s | Reaches(prog, serial, workers, acts, s)
        ensures forall t | 0 <= t < |s.tasks| :: s.tasks[t].pushes <= 1
      {
        ReachedInv(prog, serial, workers, acts, s);
        RunKeepsSetup(Initial(prog, serial, workers), acts, s);
        forall t | 0 <= t < |s.tasks| ensures s.tasks[t].pushes <= 1 { assert TaskOk(s, t); }
      }
    } else {
      var t :| 0 <= t < |prog| && prog[t].pres != [];
      var acts, s := OvertakingRun(prog, workers, t);
    }
  }
}
