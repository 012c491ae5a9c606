/** Every program that can lose a task does so on some run. Given a task t with three entries
    at least, let p be the first of its pre-tasks that has pre-tasks itself. The run stores
    the entry of t with p, overtakes p, so that p notifies t twice, and lets all other
    pre-tasks of t finish before t registers with them: their tally takes the counter of t
    from two to beyond its goal. */
module SchedulerLosingRun {
  import opened Sums
  import opened SchedulerModel
  import opened SchedulerInvariant
  import opened SchedulerSteps
  import opened SchedulerTheorems
  import opened SchedulerClosing
  import opened SchedulerOrder
  import opened SchedulerScenes

  // ---- choosing the roles

  /** The task t, its entry k with the pre-task p, and the largest pre-task x of p. */
  datatype Plot = Plot(prog: seq<TaskSpec>, t: nat, k: nat, p: nat, x: nat)

  ghost predicate Sound(pl: Plot) {
    && WellFormed(pl.prog) && WaitsArePres(pl.prog) && pl.t < |pl.prog| && pl.x < pl.p < pl.t
    && pl.k < |pl.prog[pl.t].pres| && |pl.prog[pl.t].pres| >= 3 && pl.prog[pl.t].pres[pl.k] == pl.p
    && (forall e | 0 <= e < pl.k :: pl.prog[pl.prog[pl.t].pres[e]].pres == [])
    && pl.x in pl.prog[pl.p].pres && forall y | y in pl.prog[pl.p].pres :: y <= pl.x
  }

  lemma {:induction false} FirstWithPres(prog: seq<TaskSpec>, t: nat, e: nat) returns (k: nat)
    requires WellFormed(prog) && t < |prog| && e < |prog[t].pres| && prog[prog[t].pres[e]].pres != []
    ensures k < |prog[t].pres| && prog[prog[t].pres[k]].pres != []
    ensures forall d | 0 <= d < k :: prog[prog[t].pres[d]].pres == []
  {
    if d :| 0 <= d < e && prog[prog[t].pres[d]].pres != [] {
      k := FirstWithPres(prog, t, d);
    } else {
      k := e;
    }
  }

  lemma PlotExists(prog: seq<TaskSpec>, t: nat, e: nat) returns (pl: Plot)
    requires WellFormed(prog) && WaitsArePres(prog) && LosesAt(prog, t, e)
    ensures Sound(pl) && pl.prog == prog && pl.t == t
  {
    var k := FirstWithPres(prog, t, e);
    var p := prog[t].pres[k];
    var x := Largest(prog[p].pres);
    var i :| 0 <= i < |prog[p].pres| && prog[p].pres[i] == x;
    pl := Plot(prog, t, k, p, x);
  }

  /** What finishes before x is registered: all that x and p need, and all tasks without
      pre-tasks. */
  ghost function Early(pl: Plot): (us: set<nat>)
    requires Sound(pl)
    ensures forall u: nat :: u in us <==> u < pl.t && u != pl.p && u != pl.x && (u < pl.x || pl.prog[u].pres == [])
  {
    set u | u in Below(pl.t) && u != pl.p && u != pl.x && (u < pl.x || pl.prog[u].pres == [])
  }

  ghost function Cast0(pl: Plot): (roles: seq<Role>)
    requires Sound(pl)
    ensures |roles| == pl.t + 1 && forall u | 0 <= u < |roles| :: roles[u] == if u == pl.p then Held else Waiting
  {
    Cast(seq(pl.t + 1, _ => Waiting), {pl.p}, pl.t + 1, Held)
  }

  ghost function Cast1(pl: Plot): (roles: seq<Role>)
    requires Sound(pl)
    ensures |roles| == pl.t + 1
    ensures forall u | 0 <= u < |roles| ::
              roles[u] == if u == pl.p then Held else if u in Early(pl) then Served else Waiting
  {
    ServedBelow(Cast0(pl), Early(pl), pl.t)
  }

  ghost function Cast2(pl: Plot): (roles: seq<Role>)
    requires Sound(pl)
  {
    Cast1(pl)[pl.x := Served]
  }

  ghost function Cast3(pl: Plot): (roles: seq<Role>)
    requires Sound(pl)
    ensures |roles| == pl.t + 1 && roles[pl.p].Held? && roles[pl.t] == Joined(pl.k)
    ensures forall u | 0 <= u < pl.t && u != pl.p :: roles[u] in {Served, Waiting}
  {
    Cast2(pl)[pl.t := Joined(pl.k)]
  }

  ghost function Cast4(pl: Plot): (roles: seq<Role>)
    requires Sound(pl)
    ensures |roles| == pl.t + 1 && roles[pl.p].Doubled? && roles[pl.t] == Joined(pl.k)
    ensures forall u | 0 <= u < pl.t && u != pl.p :: roles[u] in {Served, Waiting}
  {
    Cast3(pl)[pl.p := Doubled]
  }

  ghost function Cast5(pl: Plot): (roles: seq<Role>)
    requires Sound(pl)
    ensures |roles| == pl.t + 1 && roles[pl.p].Doubled? && roles[pl.t] == Joined(pl.k)
    ensures forall u | 0 <= u < pl.t && u != pl.p :: roles[u].Served?
  {
    ServedBelow(Cast4(pl), Below(pl.t), pl.t)
  }

  // ---- p is queued, and x and all pre-tasks of t before p have finished

  lemma EarlyIsGood(pl: Plot, roles: seq<Role>)
    requires Sound(pl) && roles in {Cast0(pl), Cast1(pl)}
    ensures Good(pl.prog, roles, Early(pl)) && Calm(pl.prog, roles)
  {
    forall u, x | u in Early(pl) && x in pl.prog[u].pres ensures x in Early(pl) {
      var e :| 0 <= e < |pl.prog[u].pres| && pl.prog[u].pres[e] == x;
    }
  }

  /** p is queued but not started, and the first pre-tasks of t have finished. */
  ghost predicate Queued(pl: Plot, s: State)
    requires Sound(pl)
  {
    && s.prog == pl.prog && QueuedFirst(s, pl.p)
    && forall e | 0 <= e < pl.k :: pl.prog[pl.t].pres[e] < |s.tasks| && s.tasks[pl.prog[pl.t].pres[e]].isFinished
  }

  lemma EarlyFinished(pl: Plot, s: State)
    requires Sound(pl) && s.prog == pl.prog && Scene(s, Cast1(pl)) && AllIdle(s)
    ensures forall u | u in Early(pl) :: s.tasks[u].isFinished
  {
    EarlyIsGood(pl, Cast1(pl));
    forall u | u in Early(pl) ensures s.tasks[u].isFinished {
      GoodFinished(s, Cast1(pl), Early(pl), u);
    }
  }

  lemma QueueP(pl: Plot, s: State) returns (acts: seq<Action>, r: State)
    requires Sound(pl) && s.prog == pl.prog && Scene(s, Cast1(pl)) && AllIdle(s)
    ensures Run(s, acts, r) && Scene(r, Cast2(pl)) && Queued(pl, r)
  {
    EarlyFinished(pl, s);
    EarlyIsGood(pl, Cast1(pl));
    XIsMissing(pl);
    acts, r := QueueUp(s, Cast1(pl), Early(pl), pl.p, pl.x);
    forall e | 0 <= e < pl.k
      ensures pl.prog[pl.t].pres[e] < |r.tasks| && r.tasks[pl.prog[pl.t].pres[e]].isFinished
    {
      var u := pl.prog[pl.t].pres[e];
      assert u in Early(pl) || u == pl.x;
    }
  }

  lemma XIsMissing(pl: Plot)
    requires Sound(pl)
    ensures LastMissing(pl.prog, Cast1(pl), Early(pl), pl.p, pl.x)
  {
    EarlyIsGood(pl, Cast1(pl));
    forall y | y in pl.prog[pl.x].pres ensures y in Early(pl) {
      var e :| 0 <= e < |pl.prog[pl.x].pres| && pl.prog[pl.x].pres[e] == y;
    }
  }

  // ---- t joins p, and p is overtaken

  lemma RipeRegistered(s: State, r: State, u: nat, v: nat)
    requires Ripe(s, v) && u < |s.tasks| && u != v && Registers(s, r, u)
    ensures Ripe(r, v)
  {
    RegisteredStay(s, r, u);
    PresStayFinished(s, r, v);
  }

  lemma Join(pl: Plot, s: State) returns (acts: seq<Action>, r: State)
    requires Sound(pl) && Scene(s, Cast2(pl)) && Queued(pl, s)
    ensures Run(s, acts, r) && Scene(r, Cast3(pl)) && NoLockHeld(r) && Ripe(r, pl.p) && r.prog == pl.prog
  {
    var t := pl.t;
    assert Plays(s, t, Cast2(pl)[t]);
    acts, r := RegisterUpTo(s, t, pl.k + 1);
    RegisteredStay(s, r, t);
    LocksStay(s, r, t);
    RipeRegistered(s, r, t, pl.p);
    forall e | 0 <= e < |r.tasks[t].fates|
      ensures if e == pl.k then r.tasks[t].fates[e].Stored? else r.tasks[t].fates[e].Tallied?
    {
      assert r.tasks[t].fates[e].Tallied? <==> s.tasks[pl.prog[t].pres[e]].isFinished;
    }
    Recast(s, r, Cast2(pl), t, Joined(pl.k));
  }

  lemma OvertakeP(pl: Plot, s: State) returns (acts: seq<Action>, r: State)
    requires Sound(pl) && Scene(s, Cast3(pl)) && NoLockHeld(s) && Ripe(s, pl.p) && s.prog == pl.prog
    ensures Run(s, acts, r) && Scene(r, Cast4(pl)) && AllIdle(r) && r.prog == pl.prog
  {
    Overtake(s, Cast3(pl), pl.p);
    var m := CloseRegistration(s, pl.p);
    RunOne(s, Close(pl.p));
    var rest: seq<Action>;
    rest, r := DrainScene(m, Cast4(pl));
    RunAppend(s, [Close(pl.p)], m, rest, r);
    acts := [Close(pl.p)] + rest;
  }

  // ---- the rest finishes, and t jumps

  lemma {:induction false} AllTalliedBut(fates: seq<Fate>, d: nat)
    requires d < |fates| && fates[d].Stored? && forall e | 0 <= e < |fates| && e != d :: fates[e].Tallied?
    ensures CountTallied(fates) == |fates| - 1
  {
    var last := |fates| - 1;
    if d == last {
      AllTallied(fates[..last]);
    } else {
      AllTalliedBut(fates[..last], d);
    }
  }

  lemma RestIsTallied(pl: Plot, s: State, r: State)
    requires Sound(pl) && s.prog == pl.prog && Scene(s, Cast5(pl)) && AllIdle(s)
    requires Registers(s, r, pl.t) && Inv(r) && |r.tasks[pl.t].fates| == |s.prog[pl.t].pres|
    requires FatesFollow(r, pl.t, |s.tasks[pl.t].fates|)
    ensures Plays(r, pl.t, Joined(pl.k))
  {
    var t, roles := pl.t, Cast5(pl);
    assert Plays(s, t, roles[t]);
    RegisteredStay(s, r, t);
    GoodPresFinished(s, roles, Below(t), t);
    forall e | 0 <= e < |r.tasks[t].fates| && e != pl.k ensures r.tasks[t].fates[e].Tallied? {
      assert pl.prog[t].pres[e] in pl.prog[t].pres;
    }
  }

  /** The remaining entries of t are tallied, and p has notified t twice. */
  lemma RegisterRest(pl: Plot, s: State) returns (acts: seq<Action>, r: State)
    requires Sound(pl) && s.prog == pl.prog && Scene(s, Cast5(pl)) && AllIdle(s)
    ensures Run(s, acts, r) && Inv(r) && CanClose(r, pl.t) && r.prog == pl.prog && Plays(r, pl.t, Joined(pl.k))
    ensures r.tasks[pl.p].dones == 2 && r.tasks[pl.p].lock.None?
  {
    var t, roles := pl.t, Cast5(pl);
    assert Plays(s, t, roles[t]) && Plays(s, pl.p, roles[pl.p]);
    DoubledHasRun(s, pl.p);
    acts, r := RegisterUpTo(s, t, |s.prog[t].pres|);
    RestIsTallied(pl, s, r);
    LocksStay(s, r, t);
    assert SameButEntries(s.tasks[pl.p], r.tasks[pl.p]);
  }

  lemma Jumping(pl: Plot, s: State)
    requires Sound(pl) && s.prog == pl.prog && Inv(s) && CanClose(s, pl.t) && Plays(s, pl.t, Joined(pl.k))
    requires pl.p < |s.tasks| && s.tasks[pl.p].dones == 2 && s.tasks[pl.p].lock.None?
    ensures IsLost(CloseRegistration(s, pl.t), pl.t)
  {
    JoinedCounts(s, pl.t, pl.k);
    CreditIsBounded(s, pl.t, pl.k);
    assert TaskOk(s, pl.t);
    AllTalliedBut(s.tasks[pl.t].fates, pl.k);
    CloseLosesIff(s, pl.t, pl.t);
  }

  lemma Ending(pl: Plot, s: State) returns (acts: seq<Action>, r: State)
    requires Sound(pl) && s.prog == pl.prog && Scene(s, Cast4(pl)) && AllIdle(s)
    ensures Run(s, acts, r) && IsLost(r, pl.t)
  {
    var first, m := ServeBelow(s, Cast4(pl), Below(pl.t), pl.t);
    var second, k := RegisterRest(pl, m);
    Jumping(pl, k);
    r := CloseRegistration(k, pl.t);
    RunAppend(s, first, m, second, k);
    RunSnoc(s, first + second, k, Close(pl.t));
    acts := first + second + [Close(pl.t)];
  }

  lemma Middle(pl: Plot, s: State) returns (acts: seq<Action>, r: State)
    requires Sound(pl) && s.prog == pl.prog && Scene(s, Cast0(pl)) && AllIdle(s)
    ensures Run(s, acts, r) && r.prog == pl.prog && Scene(r, Cast4(pl)) && AllIdle(r)
  {
    EarlyIsGood(pl, Cast0(pl));
    var first, s1 := ServeBelow(s, Cast0(pl), Early(pl), pl.t);
    var second, s2 := QueueP(pl, s1);
    var third, s3 := Join(pl, s2);
    var fourth: seq<Action>;
    fourth, r := OvertakeP(pl, s3);
    RunAppend(s, first, s1, second, s2);
    RunAppend(s, first + second, s2, third, s3);
    RunAppend(s, first + second + third, s3, fourth, r);
    acts := first + second + third + fourth;
  }

  /** A run that loses t. */
  lemma LosingRun(pl: Plot, workers: nat) returns (acts: seq<Action>, s: State)
    requires Sound(pl) && workers > 0
    ensures Reaches(pl.prog, false, workers, acts, s) && IsLost(s, pl.t)
  {
    var init := Initial(pl.prog, false, workers);
    var first, b := OpenAndHold(pl.prog, workers, pl.t + 1, {pl.p});
    var second, m := Middle(pl, b);
    var third: seq<Action>;
    third, s := Ending(pl, m);
    RunAppend(init, first, b, second, m);
    RunAppend(init, first + second, m, third, s);
    acts := first + second + third;
  }
}
