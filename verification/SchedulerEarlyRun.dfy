/** Every program that can start early does so on some run. Given a task t and a pre-task q
    such that t gets enough credits without q, the run holds t and all pre-tasks of t that
    can be notified twice, finishes whatever need not wait for q, overtakes the held
    pre-tasks, and lets the workers go on. */
module SchedulerEarlyRun {
  import opened Sums
  import opened SchedulerModel
  import opened SchedulerInvariant
  import opened SchedulerSteps
  import opened SchedulerTheorems
  import opened SchedulerClosing
  import opened SchedulerOrder
  import opened SchedulerScenes

  /** A task t and one of its pre-tasks. */
  datatype Plot = Plot(prog: seq<TaskSpec>, t: nat, q: nat)

  ghost predicate Sound(pl: Plot) {
    && WellFormed(pl.prog) && WaitsArePres(pl.prog) && pl.t < |pl.prog| && pl.q < pl.t && pl.q in pl.prog[pl.t].pres
    && EarlyAt(pl.prog, pl.t, pl.q)
  }

  /** The tasks below t that need not wait for q. */
  ghost function Helpers(pl: Plot): (us: set<nat>)
    requires WellFormed(pl.prog) && pl.t < |pl.prog|
    ensures forall u: nat :: u in us <==> u < pl.t && !Behind(pl.prog, pl.q, u)
  {
    set u | u in Below(pl.t) && !Behind(pl.prog, pl.q, u)
  }

  /** The helpers that notify t twice. */
  ghost function Doubles(pl: Plot): (us: set<nat>)
    requires WellFormed(pl.prog) && pl.t < |pl.prog|
    ensures forall u: nat :: u in us <==> u in Helpers(pl) && u in pl.prog[pl.t].pres && pl.prog[u].pres != []
  {
    set u | u in Helpers(pl) && u in pl.prog[pl.t].pres && pl.prog[u].pres != []
  }

  /** The roles once t and the doubles are held, ... */
  ghost function Cast0(pl: Plot): (roles: seq<Role>)
    requires WellFormed(pl.prog) && pl.t < |pl.prog|
    ensures |roles| == pl.t + 1
    ensures forall u | 0 <= u < |roles| :: roles[u] == if u == pl.t || u in Doubles(pl) then Held else Waiting
  {
    Cast(seq(pl.t + 1, _ => Waiting), Doubles(pl) + {pl.t}, pl.t + 1, Held)
  }

  /** ... when the helpers have finished, ... */
  ghost function Cast1(pl: Plot): (roles: seq<Role>)
    requires WellFormed(pl.prog) && pl.t < |pl.prog|
    ensures |roles| == pl.t + 1 && roles[pl.t].Held?
    ensures forall u | 0 <= u < pl.t ::
              roles[u] == if u in Doubles(pl) then Held else if u in Helpers(pl) then Served else Waiting
  {
    ServedBelow(Cast0(pl), Helpers(pl), pl.t)
  }

  /** ... and when the doubles have been overtaken. */
  ghost function Cast2(pl: Plot): (roles: seq<Role>)
    requires WellFormed(pl.prog) && pl.t < |pl.prog|
    ensures |roles| == pl.t + 1 && roles[pl.t].Held?
    ensures forall u | 0 <= u < pl.t ::
              roles[u] == if u in Doubles(pl) then Doubled else if u in Helpers(pl) then Served else Waiting
  {
    Cast(Cast1(pl), Doubles(pl), pl.t, Doubled)
  }

  lemma HelpersAreGood(pl: Plot, roles: seq<Role>)
    requires Sound(pl) && roles in {Cast0(pl), Cast1(pl)}
    ensures Good(pl.prog, roles, Helpers(pl)) && Calm(pl.prog, roles)
  {
    forall u, x | u in Helpers(pl) && x in pl.prog[u].pres ensures x in Helpers(pl) {
      var e :| 0 <= e < |pl.prog[u].pres| && pl.prog[u].pres[e] == x;
    }
  }

  lemma DoublesAreRipe(pl: Plot, s: State, u: nat)
    requires Sound(pl) && s.prog == pl.prog && Scene(s, Cast1(pl)) && AllIdle(s) && u in Doubles(pl)
    ensures Ripe(s, u)
  {
    var roles := Cast1(pl);
    HelpersAreGood(pl, roles);
    assert Plays(s, u, roles[u]);
    GoodPresFinished(s, roles, Helpers(pl), u);
    CalmPres(s, roles, u);
    HeldIsRipe(s, u);
  }

  /** All helpers have finished, and the doubles are overtaken. */
  lemma Climax(pl: Plot, s: State) returns (acts: seq<Action>, r: State)
    requires Sound(pl) && s.prog == pl.prog && Scene(s, Cast0(pl)) && AllIdle(s)
    ensures Run(s, acts, r) && r.prog == pl.prog && Scene(r, Cast2(pl))
  {
    HelpersAreGood(pl, Cast0(pl));
    var first, m := ServeBelow(s, Cast0(pl), Helpers(pl), pl.t);
    forall u | u in Doubles(pl) ensures Ripe(m, u) {
      DoublesAreRipe(pl, m, u);
    }
    var rest: seq<Action>;
    rest, r := OvertakeBelow(m, Cast1(pl), Doubles(pl), pl.t);
    RunAppend(s, first, m, rest, r);
    acts := first + rest;
  }

  /** When the workers are idle, every entry of t has been credited as often as it can be
      without q. */
  lemma FinalCredit(pl: Plot, s: State, e: nat)
    requires Sound(pl) && s.prog == pl.prog && Scene(s, Cast2(pl)) && AllIdle(s) && e < |s.tasks[pl.t].fates|
    ensures e < |pl.prog[pl.t].pres| && Credits(s, pl.t)[e] == MostCredit(pl.prog, pl.t, pl.q, e)
  {
    var x, roles := pl.prog[pl.t].pres[e], Cast2(pl);
    assert Plays(s, pl.t, roles[pl.t]) && Plays(s, x, roles[x]);
    CreditIsBounded(s, pl.t, e);
    if roles[x].Doubled? {
      DoubledHasRun(s, x);
    } else if roles[x].Served? {
      ServedHasRun(s, x);
    } else {
      WaitingIsIdle(s, x);
    }
  }

  lemma FinallyPushed(pl: Plot, s: State)
    requires Sound(pl) && s.prog == pl.prog && Scene(s, Cast2(pl)) && AllIdle(s)
    ensures s.tasks[pl.t].pushes > 0
  {
    assert Plays(s, pl.t, Cast2(pl)[pl.t]);
    forall e | 0 <= e < |s.tasks[pl.t].fates| ensures Credits(s, pl.t)[e] == MostCredits(pl.prog, pl.t, pl.q)[e] {
      FinalCredit(pl, s, e);
    }
    assert Credits(s, pl.t) == MostCredits(pl.prog, pl.t, pl.q);
    HeldCounts(s, pl.t);
  }

  /** When the workers cannot go on, t has been pushed, and q has not been called. */
  lemma Ending(pl: Plot, s: State)
    requires Sound(pl) && s.prog == pl.prog && Scene(s, Cast2(pl)) && Drained(s, None)
    ensures s.tasks[pl.t].pushes > 0 && s.tasks[pl.q].exits == 0
  {
    assert Plays(s, pl.q, Cast2(pl)[pl.q]);
    WaitingIsIdle(s, pl.q);
    if s.tasks[pl.t].pushes == 0 {
      SceneSettles(s, Cast2(pl), None);
      FinallyPushed(pl, s);
    }
  }

  /** A run in which t is pushed although its pre-task q has never been called. */
  lemma EarlyRun(pl: Plot, workers: nat) returns (acts: seq<Action>, s: State)
    requires Sound(pl) && workers > 0
    ensures Reaches(pl.prog, false, workers, acts, s) && s.prog == pl.prog && |s.tasks| == pl.t + 1
    ensures s.tasks[pl.t].pushes > 0 && pl.q in s.prog[pl.t].pres && s.tasks[pl.q].exits == 0
    ensures Drained(s, None)
  {
    var init := Initial(pl.prog, false, workers);
    var first, b := OpenAndHold(pl.prog, workers, pl.t + 1, Doubles(pl) + {pl.t});
    var second, m := Climax(pl, b);
    var third: seq<Action>;
    third, s := Drain(m, None);
    SceneContinues(m, s, Cast2(pl));
    Ending(pl, s);
    RunAppend(init, first, b, second, m);
    RunAppend(init, first + second, m, third, s);
    acts := first + second + third;
  }

  // ---- programs that name no pre-task twice

  ghost predicate NoRepeats(pres: seq<nat>) {
    forall d, e | 0 <= d < e < |pres| :: pres[d] != pres[e]
  }

  /** t has the pre-tasks p and q, p has pre-tasks of its own, and q is not one of them, at
      any depth. */
  ghost predicate Loose(prog: seq<TaskSpec>, t: nat, p: nat, q: nat)
    requires WellFormed(prog)
  {
    && t < |prog| && p in prog[t].pres && q in prog[t].pres && p != q
    && p < |prog| && prog[p].pres != [] && !Above(prog, q, p)
  }

  lemma {:induction false} AboveIsSmaller(prog: seq<TaskSpec>, u: nat, t: nat)
    requires WellFormed(prog) && t < |prog| && Above(prog, u, t)
    ensures u < t
    decreases t
  {
    var e :| 0 <= e < |prog[t].pres| && (prog[t].pres[e] == u || Above(prog, u, prog[t].pres[e]));
    if prog[t].pres[e] != u {
      AboveIsSmaller(prog, u, prog[t].pres[e]);
    }
  }

  lemma {:induction false} AboveIsTransitive(prog: seq<TaskSpec>, u: nat, v: nat, t: nat)
    requires WellFormed(prog) && v < |prog| && t < |prog| && Above(prog, u, v) && Above(prog, v, t)
    ensures Above(prog, u, t)
    decreases t
  {
    var e :| 0 <= e < |prog[t].pres| && (prog[t].pres[e] == v || Above(prog, v, prog[t].pres[e]));
    if prog[t].pres[e] != v {
      AboveIsTransitive(prog, u, v, prog[t].pres[e]);
    }
  }

  /** The last of the first k pre-tasks of t that is loose with respect to p. */
  lemma {:induction false} LastLoose(prog: seq<TaskSpec>, t: nat, p: nat, k: nat) returns (q: nat)
    requires WellFormed(prog) && t < |prog| && k <= |prog[t].pres|
    requires exists i :: 0 <= i < k && Loose(prog, t, p, prog[t].pres[i])
    ensures Loose(prog, t, p, q)
    ensures forall i | 0 <= i < k && Loose(prog, t, p, prog[t].pres[i]) :: prog[t].pres[i] <= q
  {
    var last := prog[t].pres[k - 1];
    if i :| 0 <= i < k - 1 && Loose(prog, t, p, prog[t].pres[i]) {
      q := LastLoose(prog, t, p, k - 1);
      if Loose(prog, t, p, last) && q < last {
        q := last;
      }
    } else {
      q := last;
    }
  }

  /** Only q itself waits for q, and p is credited twice. */
  lemma LastLooseCredit(prog: seq<TaskSpec>, t: nat, p: nat, q: nat, e: nat)
    requires WellFormed(prog) && Loose(prog, t, p, q) && e < |prog[t].pres|
    requires forall i | 0 <= i < |prog[t].pres| && Loose(prog, t, p, prog[t].pres[i]) :: prog[t].pres[i] <= q
    ensures MostCredit(prog, t, q, e) >= 1 || prog[t].pres[e] == q
    ensures prog[t].pres[e] == p ==> MostCredit(prog, t, q, e) == 2
  {
    var x := prog[t].pres[e];
    if x != q && Above(prog, q, x) {
      AboveIsSmaller(prog, q, x);
      assert !Loose(prog, t, p, x);
      if x != p {
        AboveIsTransitive(prog, q, x, p);
      }
    }
  }

  lemma LooseStartsEarly(prog: seq<TaskSpec>, t: nat, p: nat, q: nat)
    requires WellFormed(prog) && Loose(prog, t, p, q) && NoRepeats(prog[t].pres)
    requires forall i | 0 <= i < |prog[t].pres| && Loose(prog, t, p, prog[t].pres[i]) :: prog[t].pres[i] <= q
    ensures EarlyAt(prog, t, q)
  {
    var cs := MostCredits(prog, t, q);
    forall e | 0 <= e < |cs| ensures (cs[e] >= 1 || prog[t].pres[e] == q) && (prog[t].pres[e] == p ==> cs[e] == 2) {
      LastLooseCredit(prog, t, p, q, e);
    }
    var d :| 0 <= d < |cs| && prog[t].pres[d] == p;
    var e :| 0 <= e < |cs| && prog[t].pres[e] == q;
    SumUpdate(cs, d, 1);
    SumUpdate(cs[d := 1], e, 1);
    SumOfPositives(cs[d := 1][e := 1]);
  }

  lemma EarlyHasLoose(prog: seq<TaskSpec>, t: nat, q: nat) returns (p: nat)
    requires WellFormed(prog) && EarlyAt(prog, t, q)
    ensures Loose(prog, t, p, q)
  {
    var cs := MostCredits(prog, t, q);
    var d :| 0 <= d < |cs| && prog[t].pres[d] == q;
    assert cs[d] == 0;
    if forall e | 0 <= e < |cs| :: cs[e] <= 1 {
      SumOfOnes(cs);
    }
    var e :| 0 <= e < |cs| && cs[e] > 1;
    p := prog[t].pres[e];
  }

  /** A program that names no pre-task twice can start early exactly if some task has two
      pre-tasks p and q such that p has pre-tasks and q is not above p. */
  lemma EarlyIffLoose(prog: seq<TaskSpec>)
    requires WellFormed(prog) && forall t | 0 <= t < |prog| :: NoRepeats(prog[t].pres)
    ensures CanStartEarly(prog) <==> exists t: nat, p: nat, q: nat :: Loose(prog, t, p, q)
  {
    if CanStartEarly(prog) {
      var t: nat, q: nat :| EarlyAt(prog, t, q);
      var p := EarlyHasLoose(prog, t, q);
    }
    if t: nat, p: nat, q0: nat :| Loose(prog, t, p, q0) {
      var i :| 0 <= i < |prog[t].pres| && prog[t].pres[i] == q0;
      var q := LastLoose(prog, t, p, |prog[t].pres|);
      LooseStartsEarly(prog, t, p, q);
    }
  }
}
