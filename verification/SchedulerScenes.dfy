/** Building runs of a given program: tasks are created, held, served and overtaken one by
    one, the workers going on in between until they cannot, and every task plays a known
    role in the states between these pieces. */
module SchedulerScenes {
  import opened Sums
  import opened SchedulerModel
  import opened SchedulerInvariant
  import opened SchedulerSteps
  import opened SchedulerTheorems
  import opened SchedulerClosing

  // ---- the workers go on

  /** A step of a worker that does not start the task to be skipped. */
  predicate Draining(a: Action, skip: Option<nat>) {
    IsWorkerStep(a) && !(a.Pop? && skip == Some(a.task))
  }

  ghost predicate Drained(s: State, skip: Option<nat>) {
    forall a | Draining(a, skip) :: !Enabled(s, a)
  }

  /** The skipped task has been started as often as before. */
  ghost predicate Skips(s: State, r: State, skip: Option<nat>) {
    |r.tasks| == |s.tasks| && forall u | 0 <= u < |s.tasks| && skip == Some(u) :: r.tasks[u].starts == s.tasks[u].starts
  }

  lemma UpdateStartsNot(s: State, u: nat, t: nat)
    requires u < |s.tasks| <= |s.prog| && t < |s.tasks|
    ensures UpdateFinishedPreCount(s, u, 1).tasks[t].starts == s.tasks[t].starts
  {
  }

  lemma NotifyStartsNot(s: State, w: nat, t: nat)
    requires CanNotify(s, w) && t < |s.tasks|
    ensures t < |NotifyPost(s, w).tasks| && NotifyPost(s, w).tasks[t].starts == s.tasks[t].starts
  {
    var p := s.workers[w].task;
    NotifyIsUpdate(s, w);
    UpdateStartsNot(WithLock(s, p, Some(s.tasks[p].lock.value + 1)), NextPost(s, p), t);
  }

  lemma OnlyPopStarts(s: State, a: Action, t: nat)
    requires Enabled(s, a) && Draining(a, Some(t)) && t < |s.tasks|
    ensures t < |Apply(s, a).tasks| && Apply(s, a).tasks[t].starts == s.tasks[t].starts
  {
    if a.Notify? {
      NotifyStartsNot(s, a.worker, t);
    }
  }

  lemma StepSkips(s: State, a: Action, skip: Option<nat>)
    requires Enabled(s, a) && Draining(a, skip)
    ensures Skips(s, Apply(s, a), skip)
  {
    WorkerStepContinues(s, a);
    if skip.Some? && skip.value < |s.tasks| {
      OnlyPopStarts(s, a, skip.value);
    }
  }

  /** The workers go on until none of them can, but for starting the skipped task. */
  lemma {:induction false} Drain(s: State, skip: Option<nat>) returns (acts: seq<Action>, r: State)
    requires Inv(s)
    ensures Run(s, acts, r) && Inv(r) && Drained(r, skip) && AllContinue(s, r) && Skips(s, r, skip)
    decreases Sum(Measures(s))
  {
    if a :| Draining(a, skip) && Enabled(s, a) {
      var next := Apply(s, a);
      StepDropsMeasure(s, a);
      StepKeepsInv(s, a);
      MeasureNonNegative(s);
      MeasureNonNegative(next);
      WorkerStepContinues(s, a);
      StepSkips(s, a, skip);
      acts, r := Drain(next, skip);
      ContinuesTwice(s, next, r);
      acts := [a] + acts;
    } else {
      acts, r := [], s;
    }
  }

  /** Any steps are taken until none is possible. */
  lemma {:induction false} Exhaust(s: State) returns (acts: seq<Action>, r: State)
    requires Inv(s)
    ensures Run(s, acts, r) && Stuck(r)
    decreases Sum(Measures(s))
  {
    if a :| Enabled(s, a) {
      StepDropsMeasure(s, a);
      StepKeepsInv(s, a);
      MeasureNonNegative(s);
      MeasureNonNegative(Apply(s, a));
      acts, r := Exhaust(Apply(s, a));
      acts := [a] + acts;
    } else {
      acts, r := [], s;
    }
  }

  // ---- a registration goes on

  /** The task has the same registration state but for posts, fates and tally. */
  ghost predicate SameButEntries(k: Task, l: Task) {
    l == k.(posts := l.posts, fates := l.fates, tally := l.tally)
  }

  /** From s to r only entries of u have been registered. */
  ghost predicate Registers(s: State, r: State, u: nat)
    requires u < |s.tasks|
  {
    && r.prog == s.prog && |r.tasks| == |s.tasks| && r.workers == s.workers && r.queue == s.queue
    && (forall v | 0 <= v < |s.tasks| :: SameButEntries(s.tasks[v], r.tasks[v]))
    && (forall v | 0 <= v < |s.tasks| && v != u ::
          r.tasks[v].fates == s.tasks[v].fates && r.tasks[v].tally == s.tasks[v].tally)
    && s.tasks[u].fates <= r.tasks[u].fates
  }

  /** The entries of u from number k on were tallied or stored as their pre-tasks are now. */
  ghost predicate FatesFollow(s: State, u: nat, k: nat)
    requires InRange(s, u)
  {
    forall e | k <= e < |s.tasks[u].fates| ::
      s.prog[u].pres[e] < |s.tasks| && (s.tasks[u].fates[e].Tallied? <==> s.tasks[s.prog[u].pres[e]].isFinished)
  }

  lemma InsertRegisters(s: State, u: nat)
    requires Inv(s) && CanInsert(s, u)
    ensures var r := InsertPost(s, u);
            Registers(s, r, u) && |r.tasks[u].fates| == |s.tasks[u].fates| + 1
            && InRange(r, u) && FatesFollow(r, u, |s.tasks[u].fates|)
  {
  }

  /** The entries of u below number k are registered. */
  lemma {:induction false} RegisterUpTo(s: State, u: nat, k: nat) returns (acts: seq<Action>, r: State)
    requires Inv(s) && NoLockHeld(s) && u < |s.tasks| && |s.tasks[u].fates| <= k <= |s.prog[u].pres|
    ensures Run(s, acts, r) && Inv(r) && Registers(s, r, u) && |r.tasks[u].fates| == k
    ensures FatesFollow(r, u, |s.tasks[u].fates|)
    decreases k - |s.tasks[u].fates|
  {
    if |s.tasks[u].fates| == k {
      acts, r := [], s;
    } else {
      assert s.prog[u].pres[|s.tasks[u].fates|] < u;
      var next := Apply(s, Insert(u));
      InsertRegisters(s, u);
      StepKeepsInv(s, Insert(u));
      LocksStay(s, next, u);
      acts, r := RegisterUpTo(next, u, k);
      RegisteredTwice(s, next, r, u);
      acts := [Insert(u)] + acts;
    }
  }

  lemma LocksStay(s: State, r: State, u: nat)
    requires u < |s.tasks| && Registers(s, r, u) && NoLockHeld(s)
    ensures NoLockHeld(r)
  {
    forall v | 0 <= v < |r.tasks| ensures r.tasks[v].lock.None? {
      assert SameButEntries(s.tasks[v], r.tasks[v]);
    }
  }

  lemma SameTwice(s: State, m: State, r: State, u: nat)
    requires u < |s.tasks| && Registers(s, m, u) && Registers(m, r, u)
    ensures Registers(s, r, u)
  {
    forall v | 0 <= v < |s.tasks| ensures SameButEntries(s.tasks[v], r.tasks[v]) {
      assert SameButEntries(s.tasks[v], m.tasks[v]) && SameButEntries(m.tasks[v], r.tasks[v]);
    }
  }

  lemma RegisteredTwice(s: State, m: State, r: State, u: nat)
    requires u < |s.tasks| && Registers(s, m, u) && Registers(m, r, u) && InRange(m, u) && InRange(r, u)
    requires FatesFollow(m, u, |s.tasks[u].fates|) && FatesFollow(r, u, |m.tasks[u].fates|)
    ensures Registers(s, r, u) && FatesFollow(r, u, |s.tasks[u].fates|)
  {
    SameTwice(s, m, r, u);
    forall e | |s.tasks[u].fates| <= e < |r.tasks[u].fates|
      ensures s.prog[u].pres[e] < |r.tasks|
      ensures r.tasks[u].fates[e].Tallied? <==> r.tasks[s.prog[u].pres[e]].isFinished
    {
      if e < |m.tasks[u].fates| {
        assert r.tasks[u].fates[e] == m.tasks[u].fates[e];
        assert SameButEntries(m.tasks[s.prog[u].pres[e]], r.tasks[s.prog[u].pres[e]]);
      }
    }
  }

  lemma {:induction false} CreateAll(s: State, n: nat) returns (acts: seq<Action>, r: State)
    requires !s.serial && |s.tasks| <= n <= |s.prog|
    ensures Run(s, acts, r) && r == s.(tasks := s.tasks + seq(n - |s.tasks|, _ => NEW_TASK))
    decreases n - |s.tasks|
  {
    if |s.tasks| == n {
      acts, r := [], s;
      assert s.tasks + seq(0, _ => NEW_TASK) == s.tasks;
    } else {
      acts, r := CreateAll(Apply(s, Create), n);
      assert s.tasks + [NEW_TASK] + seq(n - |s.tasks| - 1, _ => NEW_TASK) ==
             s.tasks + seq(n - |s.tasks|, _ => NEW_TASK);
      acts := [Create] + acts;
    }
  }

  // ---- idle states

  /** No worker is inside a run, and no lock is held. */
  ghost predicate Resting(s: State) {
    NoLockHeld(s) && forall w | 0 <= w < |s.workers| :: s.workers[w].Idle?
  }

  /** Moreover nothing is queued. */
  ghost predicate AllIdle(s: State) {
    Resting(s) && s.queue == multiset{}
  }

  ghost predicate PresFinished(s: State, t: nat)
    requires t < |s.prog|
  {
    forall x | x in s.prog[t].pres :: x < |s.tasks| && s.tasks[x].isFinished
  }

  lemma DrainedHoldsNoLock(s: State, skip: Option<nat>)
    requires Inv(s) && Drained(s, skip)
    ensures NoLockHeld(s)
  {
    if !NoLockHeld(s) {
      var a := LockHolderMoves(s);
    }
  }

  lemma BusyWorkerMoves(s: State, w: nat) returns (a: Action)
    requires Inv(s) && NoLockHeld(s) && WaitsArePres(s.prog) && w < |s.workers| && !s.workers[w].Idle?
    requires forall v | 0 <= v < |s.tasks| && s.tasks[v].pushes > 0 :: PresFinished(s, v)
    ensures Enabled(s, a) && (a.Acquire? || a.Return?)
  {
    var v := s.workers[w].task;
    assert TaskOk(s, v) && s.workers[w] in s.workers && s.workers[w] in multiset(s.workers);
    assert PresFinished(s, v);
    a := if s.workers[w].Returned? then Acquire(w) else Return(w);
  }

  lemma QueueMoves(s: State) returns (t: nat)
    requires Inv(s) && s.queue != multiset{} && |s.workers| > 0 && s.workers[0].Idle?
    ensures t in s.queue && Enabled(s, Pop(0, t))
  {
    t := TopExists(s, s.queue);
  }

  /** If nobody was queued too early, workers that cannot go on are at rest, and the queue is
      empty unless the skipped task is in it. */
  lemma Settles(s: State, skip: Option<nat>)
    requires Inv(s) && Drained(s, skip) && NoLockHeld(s) && WaitsArePres(s.prog) && |s.workers| > 0
    requires forall v | 0 <= v < |s.tasks| && s.tasks[v].pushes > 0 :: PresFinished(s, v)
    ensures Resting(s) && (s.queue == multiset{} || (skip.Some? && skip.value in s.queue))
  {
    forall w | 0 <= w < |s.workers| ensures s.workers[w].Idle? {
      if !s.workers[w].Idle? {
        var a := BusyWorkerMoves(s, w);
      }
    }
    if s.queue != multiset{} {
      var t := QueueMoves(s);
    }
  }

  lemma RestingCounts(s: State, u: nat)
    requires Inv(s) && Resting(s) && u < |s.tasks|
    ensures s.tasks[u].dones == s.tasks[u].starts == s.tasks[u].exits
    ensures s.tasks[u].pushes == s.tasks[u].starts + s.queue[u]
  {
    assert TaskOk(s, u);
    forall w: Worker | w in multiset(s.workers) ensures w.Idle? { assert w in s.workers; }
    assert Calling(u) !in multiset(s.workers) && Returned(u) !in multiset(s.workers);
  }

  // ---- roles

  /** What a task is doing in the states between the pieces of a run. */
  datatype Role =
    | Waiting             // nothing is registered
    | Held                // every entry is stored, and the registration is still open
    | Served              // registered, every entry tallied
    | Doubled             // overtaken after all its pre-tasks had finished
    | Joined(entry: nat)  // open, with this one entry of at least three stored, the others tallied

  ghost predicate Plays(s: State, u: nat, role: Role)
    requires u < |s.tasks| <= |s.prog|
  {
    var k, n := s.tasks[u], |s.prog[u].pres|;
    match role
    case Waiting => k.fates == [] && !k.closed
    case Held => |k.fates| == n && !k.closed && forall e | 0 <= e < |k.fates| :: k.fates[e].Stored?
    case Served => k.closed && forall e | 0 <= e < |k.fates| :: k.fates[e].Tallied?
    case Doubled => k.closed && k.overtaken && PresFinished(s, u)
    case Joined(d) =>
      && n >= 3 && d < |k.fates| <= n && !k.closed && k.fates[d].Stored?
      && forall e | 0 <= e < |k.fates| && e != d :: k.fates[e].Tallied?
  }

  ghost predicate Scene(s: State, roles: seq<Role>) {
    && Inv(s) && |roles| == |s.tasks| && WaitsArePres(s.prog) && |s.workers| > 0
    && forall u | 0 <= u < |roles| :: Plays(s, u, roles[u])
  }

  /** The role of a task depends on its registration and on finished tasks only. */
  ghost predicate SameStanding(k: Task, l: Task) {
    l.fates == k.fates && l.closed == k.closed && l.overtaken == k.overtaken
  }

  ghost predicate FinishedStay(s: State, r: State) {
    && r.prog == s.prog && |r.tasks| == |s.tasks|
    && forall v | 0 <= v < |s.tasks| :: s.tasks[v].isFinished ==> r.tasks[v].isFinished
  }

  lemma PresStayFinished(s: State, r: State, u: nat)
    requires FinishedStay(s, r) && u < |s.prog| && PresFinished(s, u)
    ensures PresFinished(r, u)
  {
  }

  lemma PlaysOn(s: State, r: State, u: nat, role: Role)
    requires u < |s.tasks| <= |s.prog| && FinishedStay(s, r) && SameStanding(s.tasks[u], r.tasks[u])
    requires Plays(s, u, role)
    ensures Plays(r, u, role)
  {
    if role.Doubled? {
      PresStayFinished(s, r, u);
    }
  }

  /** One task changes its role. */
  lemma Recast(s: State, r: State, roles: seq<Role>, u: nat, role: Role)
    requires Scene(s, roles) && Inv(r) && FinishedStay(s, r) && |r.workers| == |s.workers| && u < |roles|
    requires forall v | 0 <= v < |s.tasks| && v != u :: SameStanding(s.tasks[v], r.tasks[v])
    requires Plays(r, u, role)
    ensures Scene(r, roles[u := role])
  {
    var now := roles[u := role];
    forall v | 0 <= v < |roles| ensures Plays(r, v, now[v]) {
      if v != u {
        PlaysOn(s, r, v, roles[v]);
      }
    }
  }

  lemma ContinuingStays(s: State, r: State)
    requires AllContinue(s, r)
    ensures FinishedStay(s, r) && forall v | 0 <= v < |s.tasks| :: SameStanding(s.tasks[v], r.tasks[v])
  {
    forall v | 0 <= v < |s.tasks|
      ensures SameStanding(s.tasks[v], r.tasks[v]) && (s.tasks[v].isFinished ==> r.tasks[v].isFinished)
    {
      assert Continues(s.tasks[v], r.tasks[v]);
    }
  }

  lemma SceneContinues(s: State, r: State, roles: seq<Role>)
    requires Scene(s, roles) && Inv(r) && AllContinue(s, r)
    ensures Scene(r, roles) && FinishedStay(s, r)
  {
    ContinuingStays(s, r);
    forall v | 0 <= v < |roles| ensures Plays(r, v, roles[v]) {
      PlaysOn(s, r, v, roles[v]);
    }
  }

  // ---- what the roles mean for pushes and credits

  lemma OpenIsNotOvertaken(s: State, u: nat)
    requires Inv(s) && u < |s.tasks| && !s.tasks[u].closed
    ensures !s.tasks[u].overtaken && s.tasks[u].pushes <= 1
  {
    assert TaskOk(s, u);
  }

  lemma WaitingIsIdle(s: State, u: nat)
    requires Inv(s) && u < |s.tasks| && Plays(s, u, Waiting)
    ensures s.tasks[u].pushes == s.tasks[u].starts == s.tasks[u].exits == s.tasks[u].dones == 0
    ensures !s.tasks[u].isFinished
  {
    assert TaskOk(s, u);
    assert Credits(s, u) == [];
  }

  lemma {:induction false} AllTallied(fates: seq<Fate>)
    requires forall e | 0 <= e < |fates| :: fates[e].Tallied?
    ensures CountTallied(fates) == |fates|
  {
    if fates != [] {
      AllTallied(fates[..|fates| - 1]);
    }
  }

  lemma ServedPresFinished(s: State, u: nat)
    requires Inv(s) && u < |s.tasks| && Plays(s, u, Served)
    ensures PresFinished(s, u)
  {
    forall x | x in s.prog[u].pres ensures x < |s.tasks| && s.tasks[x].isFinished {
      var e :| 0 <= e < |s.prog[u].pres| && s.prog[u].pres[e] == x;
      assert EntryOk(s, u, e) && TaskOk(s, x);
    }
  }

  /** A served task is pushed exactly once. */
  lemma ServedPushes(s: State, u: nat)
    requires Inv(s) && u < |s.tasks| && Plays(s, u, Served)
    ensures s.tasks[u].pushes == 1 && !s.tasks[u].overtaken
  {
    assert TaskOk(s, u);
    AllTallied(s.tasks[u].fates);
    SumOfOnes(Credits(s, u));
    SumOfPositives(Credits(s, u));
  }

  lemma OnlyDoubledIsOvertaken(s: State, u: nat, role: Role)
    requires Inv(s) && u < |s.tasks| && Plays(s, u, role) && !role.Doubled?
    ensures !s.tasks[u].overtaken && s.tasks[u].pushes <= 1
  {
    if role.Served? {
      ServedPushes(s, u);
    } else {
      OpenIsNotOvertaken(s, u);
    }
  }

  lemma SumOfZerosBut(xs: seq<int>, d: nat)
    requires d < |xs| && forall e | 0 <= e < |xs| && e != d :: xs[e] == 0
    ensures Sum(xs) == xs[d]
  {
    SumUpdate(xs, d, 0);
    SumOfZeros(xs[d := 0]);
  }

  lemma {:induction false} SumOfZeros(xs: seq<int>)
    requires forall e | 0 <= e < |xs| :: xs[e] == 0
    ensures Sum(xs) == 0
  {
    if xs != [] {
      SumOfZeros(xs[..|xs| - 1]);
    }
  }

  /** An entry is credited at most as often as its pre-task was pushed. */
  lemma CreditIsBounded(s: State, t: nat, e: nat)
    requires Inv(s) && t < |s.tasks| && e < |s.tasks[t].fates| && s.tasks[t].fates[e].Stored?
    ensures var x := s.prog[t].pres[e];
            x < |s.tasks| && s.tasks[x].dones <= Credits(s, t)[e] <= s.tasks[x].pushes <= 2
            && (s.tasks[x].lock.None? ==> Credits(s, t)[e] == s.tasks[x].dones)
  {
    assert EntryOk(s, t, e);
    assert TaskOk(s, s.prog[t].pres[e]);
  }

  /** A joined task counts its one stored entry only, and is not pushed. */
  lemma JoinedCounts(s: State, u: nat, d: nat)
    requires Inv(s) && u < |s.tasks| && Plays(s, u, Joined(d))
    ensures s.tasks[u].finishedPre == Credits(s, u)[d] <= 2 && s.tasks[u].pushes == 0
  {
    assert TaskOk(s, u);
    CreditIsBounded(s, u, d);
    SumOfZerosBut(Credits(s, u), d);
  }

  /** With no lock held, whoever is pushed without having overtaken pre-tasks has them all
      finished. */
  lemma PushedPresFinished(s: State, t: nat)
    requires Inv(s) && NoLockHeld(s) && t < |s.tasks| && s.tasks[t].pushes > 0 && DirectPresNotOvertaken(s, t)
    ensures PresFinished(s, t)
  {
    assert TaskOk(s, t);
    forall e | 0 <= e < |s.tasks[t].fates| ensures Credits(s, t)[e] <= 1 {
      CreditAtMostOne(s, t, e);
    }
    SumOfOnes(Credits(s, t));
    forall x | x in s.prog[t].pres ensures x < |s.tasks| && s.tasks[x].isFinished {
      var e :| 0 <= e < |s.prog[t].pres| && s.prog[t].pres[e] == x;
      CreditedIsFinished(s, t, e);
    }
  }

  lemma CreditedIsFinished(s: State, t: nat, e: nat)
    requires Inv(s) && NoLockHeld(s) && t < |s.tasks| && e < |s.tasks[t].fates| && Credits(s, t)[e] >= 1
    ensures s.prog[t].pres[e] < |s.tasks| && s.tasks[s.prog[t].pres[e]].isFinished
  {
    assert EntryOk(s, t, e);
    assert TaskOk(s, s.prog[t].pres[e]);
  }

  /** No held task has a doubled pre-task. */
  ghost predicate Calm(prog: seq<TaskSpec>, roles: seq<Role>)
    requires |roles| <= |prog|
  {
    forall u, x | 0 <= u < |roles| && roles[u].Held? && x in prog[u].pres :: x < |roles| ==> !roles[x].Doubled?
  }

  lemma CalmPres(s: State, roles: seq<Role>, u: nat)
    requires Scene(s, roles) && Calm(s.prog, roles) && u < |roles| && roles[u].Held?
    ensures DirectPresNotOvertaken(s, u)
  {
    forall e | 0 <= e < |s.prog[u].pres| && s.prog[u].pres[e] < |s.tasks|
      ensures !s.tasks[s.prog[u].pres[e]].overtaken
    {
      var x := s.prog[u].pres[e];
      assert x in s.prog[u].pres && Plays(s, x, roles[x]);
      OnlyDoubledIsOvertaken(s, x, roles[x]);
    }
  }

  lemma PlayersPresFinished(s: State, roles: seq<Role>, v: nat)
    requires Scene(s, roles) && NoLockHeld(s) && v < |roles| && s.tasks[v].pushes > 0
    requires roles[v].Held? ==> DirectPresNotOvertaken(s, v)
    ensures PresFinished(s, v)
  {
    assert Plays(s, v, roles[v]);
    match roles[v]
    case Waiting => WaitingIsIdle(s, v);
    case Held => PushedPresFinished(s, v);
    case Served => ServedPresFinished(s, v);
    case Doubled =>
    case Joined(d) => JoinedCounts(s, v, d);
  }

  lemma SceneSettles(s: State, roles: seq<Role>, skip: Option<nat>)
    requires Scene(s, roles) && Drained(s, skip)
    requires forall v | 0 <= v < |roles| && roles[v].Held? && s.tasks[v].pushes > 0 :: DirectPresNotOvertaken(s, v)
    ensures Resting(s) && (s.queue == multiset{} || (skip.Some? && skip.value in s.queue))
  {
    DrainedHoldsNoLock(s, skip);
    forall v | 0 <= v < |s.tasks| && s.tasks[v].pushes > 0 ensures PresFinished(s, v) {
      PlayersPresFinished(s, roles, v);
    }
    Settles(s, skip);
  }

  // ---- who has run when the workers are idle

  lemma ServedHasRun(s: State, u: nat)
    requires Inv(s) && AllIdle(s) && u < |s.tasks| && Plays(s, u, Served)
    ensures s.tasks[u].isFinished && s.tasks[u].dones == 1
  {
    ServedPushes(s, u);
    RestingCounts(s, u);
    assert TaskOk(s, u);
  }

  lemma DoubledHasRun(s: State, u: nat)
    requires Inv(s) && AllIdle(s) && u < |s.tasks| && Plays(s, u, Doubled)
    ensures s.tasks[u].isFinished && s.tasks[u].dones == 2
  {
    RestingCounts(s, u);
    assert TaskOk(s, u);
  }

  /** The counter of an open registration has its goal, and nothing was tallied. */
  ghost predicate Ripe(s: State, u: nat) {
    && u < |s.tasks| <= |s.prog| && s.prog[u].pres != [] && Plays(s, u, Held) && PresFinished(s, u)
    && s.tasks[u].finishedPre == |s.prog[u].pres| && s.tasks[u].tally == 0
  }

  lemma HeldCounts(s: State, u: nat)
    requires Inv(s) && u < |s.tasks| && Plays(s, u, Held)
    ensures s.tasks[u].finishedPre == Sum(Credits(s, u)) && s.tasks[u].tally == 0
    ensures s.tasks[u].pushes == if s.prog[u].pres != [] && s.tasks[u].finishedPre >= |s.prog[u].pres| then 1 else 0
  {
    assert TaskOk(s, u);
    AllStored(s.tasks[u].fates);
  }

  /** A held task is ripe as soon as all its pre-tasks have finished their first run and no
      second run has begun. */
  lemma HeldIsRipe(s: State, u: nat)
    requires Inv(s) && NoLockHeld(s) && u < |s.tasks| && Plays(s, u, Held) && s.prog[u].pres != []
    requires PresFinished(s, u) && DirectPresNotOvertaken(s, u)
    ensures Ripe(s, u) && s.tasks[u].pushes == 1
  {
    forall e | 0 <= e < |s.tasks[u].fates| ensures Credits(s, u)[e] == 1 {
      var x := s.prog[u].pres[e];
      assert x in s.prog[u].pres && TaskOk(s, x);
      CreditIsBounded(s, u, e);
      CreditAtMostOne(s, u, e);
    }
    HeldCounts(s, u);
    SumOfOnes(Credits(s, u));
    SumOfPositives(Credits(s, u));
  }

  lemma RipeHasRun(s: State, u: nat)
    requires Inv(s) && AllIdle(s) && Ripe(s, u)
    ensures s.tasks[u].isFinished && s.tasks[u].dones == 1
  {
    HeldCounts(s, u);
    RestingCounts(s, u);
    assert TaskOk(s, u);
  }

  /** Tasks that can finish by themselves: with each of them its pre-tasks, none of them
      joined, and none held that has no pre-task. */
  ghost predicate Good(prog: seq<TaskSpec>, roles: seq<Role>, good: set<nat>) {
    forall u | u in good ::
      && u < |roles| && u < |prog| && !roles[u].Joined? && (roles[u].Held? ==> prog[u].pres != [])
      && forall x | x in prog[u].pres :: x in good
  }

  lemma {:induction false} GoodFinished(s: State, roles: seq<Role>, good: set<nat>, u: nat)
    requires Scene(s, roles) && AllIdle(s) && Calm(s.prog, roles) && Good(s.prog, roles, good) && u in good
    requires forall v | v in good && v <= u :: !roles[v].Waiting?
    ensures s.tasks[u].isFinished
    decreases u
  {
    assert Plays(s, u, roles[u]);
    if roles[u].Held? {
      CalmPres(s, roles, u);
      forall x | x in s.prog[u].pres ensures x < |s.tasks| && s.tasks[x].isFinished {
        var e :| 0 <= e < |s.prog[u].pres| && s.prog[u].pres[e] == x;
        GoodFinished(s, roles, good, x);
      }
      HeldIsRipe(s, u);
      RipeHasRun(s, u);
    } else if roles[u].Served? {
      ServedHasRun(s, u);
    } else {
      DoubledHasRun(s, u);
    }
  }

  lemma GoodPresFinished(s: State, roles: seq<Role>, good: set<nat>, u: nat)
    requires Scene(s, roles) && AllIdle(s) && Calm(s.prog, roles) && Good(s.prog, roles, good) && u < |s.prog|
    requires forall x | x in s.prog[u].pres :: x in good
    requires forall v | v in good && v < u :: !roles[v].Waiting?
    ensures PresFinished(s, u)
  {
    forall x | x in s.prog[u].pres ensures x < |s.tasks| && s.tasks[x].isFinished {
      var e :| 0 <= e < |s.prog[u].pres| && s.prog[u].pres[e] == x;
      GoodFinished(s, roles, good, x);
    }
  }

  // ---- pieces of runs between scenes

  ghost predicate NoneFinished(s: State) {
    forall v | 0 <= v < |s.tasks| :: !s.tasks[v].isFinished
  }

  /** The first n tasks are created. */
  lemma Open(prog: seq<TaskSpec>, workers: nat, n: nat) returns (acts: seq<Action>, s: State)
    requires WellFormed(prog) && WaitsArePres(prog) && workers > 0 && n <= |prog|
    ensures Run(Initial(prog, false, workers), acts, s) && s.prog == prog && |s.tasks| == n
    ensures Scene(s, seq(n, _ => Waiting)) && AllIdle(s) && NoneFinished(s)
  {
    var init := Initial(prog, false, workers);
    InitialInv(prog, false, workers);
    acts, s := CreateAll(init, n);
    RunKeepsInv(init, acts, s);
    assert s.tasks == seq(n, _ => NEW_TASK);
  }

  lemma RegisteredStay(s: State, r: State, u: nat)
    requires u < |s.tasks| && Registers(s, r, u)
    ensures FinishedStay(s, r) && forall v | 0 <= v < |s.tasks| && v != u :: SameStanding(s.tasks[v], r.tasks[v])
    ensures forall v | 0 <= v < |s.tasks| ::
              r.tasks[v].isFinished == s.tasks[v].isFinished && r.tasks[v].closed == s.tasks[v].closed
              && r.tasks[v].overtaken == s.tasks[v].overtaken && r.tasks[v].finishedPre == s.tasks[v].finishedPre
              && r.tasks[v].lock == s.tasks[v].lock
  {
    forall v | 0 <= v < |s.tasks|
      ensures r.tasks[v].isFinished == s.tasks[v].isFinished && r.tasks[v].closed == s.tasks[v].closed
      ensures r.tasks[v].overtaken == s.tasks[v].overtaken && r.tasks[v].finishedPre == s.tasks[v].finishedPre
      ensures r.tasks[v].lock == s.tasks[v].lock
    {
      assert SameButEntries(s.tasks[v], r.tasks[v]);
    }
  }

  /** All entries of u are registered while no task has finished. */
  lemma Hold(s: State, roles: seq<Role>, u: nat) returns (acts: seq<Action>, r: State)
    requires Scene(s, roles) && NoLockHeld(s) && NoneFinished(s) && u < |roles| && roles[u].Waiting?
    ensures Run(s, acts, r) && Scene(r, roles[u := Held]) && NoLockHeld(r) && NoneFinished(r) && r.prog == s.prog
    ensures AllIdle(s) ==> AllIdle(r)
  {
    assert Plays(s, u, roles[u]);
    acts, r := RegisterUpTo(s, u, |s.prog[u].pres|);
    RegisteredStay(s, r, u);
    forall e | 0 <= e < |r.tasks[u].fates| ensures r.tasks[u].fates[e].Stored? {
      assert !r.tasks[s.prog[u].pres[e]].isFinished;
    }
    Recast(s, r, roles, u, Held);
  }

  /** What a closing update changes is its own task. */
  lemma ClosingStays(s: State, u: nat)
    requires Inv(s) && CanClose(s, u)
    ensures var r := CloseRegistration(s, u);
            Inv(r) && Closed(s, r, u) && FinishedStay(s, r)
            && forall v | 0 <= v < |s.tasks| && v != u :: SameStanding(s.tasks[v], r.tasks[v])
  {
    CloseKeepsInv(s, u);
    var r := CloseRegistration(s, u);
    assert Closed(s, r, u);
  }

  /** One more task is created. */
  lemma CreateScene(s: State, roles: seq<Role>)
    requires Scene(s, roles) && CanCreate(s)
    ensures Scene(Apply(s, Create), roles + [Waiting])
  {
    var r, now := Apply(s, Create), roles + [Waiting];
    CreateKeepsInv(s);
    forall v | 0 <= v < |now| ensures Plays(r, v, now[v]) {
      if v < |roles| {
        assert Plays(s, v, roles[v]);
      }
    }
  }

  /** A task without pre-tasks can be registered at any time. */
  lemma CloseFree(s: State, roles: seq<Role>, u: nat)
    requires Scene(s, roles) && NoLockHeld(s) && u < |roles| && roles[u].Waiting? && s.prog[u].pres == []
    ensures CanClose(s, u)
    ensures var r := CloseRegistration(s, u);
            Scene(r, roles[u := Served]) && Closed(s, r, u) && NoLockHeld(r)
  {
    assert Plays(s, u, roles[u]);
    ClosingStays(s, u);
    Recast(s, CloseRegistration(s, u), roles, u, Served);
  }

  /** Registered after all its pre-tasks have finished, a task has every entry tallied. */
  lemma Serve(s: State, roles: seq<Role>, u: nat) returns (acts: seq<Action>, r: State)
    requires Scene(s, roles) && AllIdle(s) && u < |roles| && roles[u].Waiting? && PresFinished(s, u)
    ensures Run(s, acts, r) && Scene(r, roles[u := Served]) && FinishedStay(s, r)
    ensures forall v | 0 <= v < |s.tasks| :: r.tasks[v].starts == s.tasks[v].starts
  {
    assert Plays(s, u, roles[u]);
    var first, m := RegisterUpTo(s, u, |s.prog[u].pres|);
    RegisteredStay(s, m, u);
    ClosingStays(m, u);
    r := CloseRegistration(m, u);
    RunSnoc(s, first, m, Close(u));
    acts := first + [Close(u)];
    ServedNow(s, m, u);
    forall v | 0 <= v < |s.tasks| && v != u ensures SameStanding(s.tasks[v], r.tasks[v]) {
      assert SameStanding(s.tasks[v], m.tasks[v]) && SameStanding(m.tasks[v], r.tasks[v]);
    }
    Recast(s, r, roles, u, Served);
    forall v | 0 <= v < |s.tasks| ensures r.tasks[v].starts == s.tasks[v].starts {
      assert SameButEntries(s.tasks[v], m.tasks[v]);
    }
  }

  lemma ServedNow(s: State, m: State, u: nat)
    requires u < |s.tasks| <= |s.prog| && PresFinished(s, u) && s.tasks[u].fates == [] && Inv(m) && CanClose(m, u)
    requires Registers(s, m, u) && FatesFollow(m, u, 0)
    ensures var r := CloseRegistration(m, u); u < |r.tasks| <= |r.prog| && Plays(r, u, Served)
  {
    forall e | 0 <= e < |m.tasks[u].fates| ensures m.tasks[u].fates[e].Tallied? {
      var x := m.prog[u].pres[e];
      assert x in s.prog[u].pres && SameButEntries(s.tasks[x], m.tasks[x]);
    }
  }

  /** The workers go on until all are idle. */
  lemma DrainScene(s: State, roles: seq<Role>) returns (acts: seq<Action>, r: State)
    requires Scene(s, roles) && Calm(s.prog, roles)
    ensures Run(s, acts, r) && Scene(r, roles) && AllIdle(r) && FinishedStay(s, r)
  {
    acts, r := Drain(s, None);
    SceneContinues(s, r, roles);
    forall v | 0 <= v < |roles| && roles[v].Held? ensures DirectPresNotOvertaken(r, v) {
      CalmPres(r, roles, v);
    }
    SceneSettles(r, roles, None);
  }

  // ---- several tasks, one after the other

  function Below(n: nat): (us: set<nat>)
    ensures forall u: nat :: u in us <==> u < n
  {
    if n == 0 then {} else Below(n - 1) + {n - 1}
  }

  /** The tasks below n that are in the set get the role. */
  function Cast(roles: seq<Role>, todo: set<nat>, n: nat, role: Role): (now: seq<Role>)
    ensures |now| == |roles|
    ensures forall u | 0 <= u < |now| :: now[u] == if u < n && u in todo then role else roles[u]
  {
    seq(|roles|, u requires 0 <= u < |roles| => if u < n && u in todo then role else roles[u])
  }

  /** The waiting tasks below n that are in the set are served. */
  function ServedBelow(roles: seq<Role>, good: set<nat>, n: nat): (now: seq<Role>)
    ensures |now| == |roles|
    ensures forall u | 0 <= u < |now| ::
              now[u] == if u < n && u in good && roles[u].Waiting? then Served else roles[u]
  {
    Cast(roles, (set u | u in good && u < |roles| && roles[u].Waiting?), n, Served)
  }

  /** Every waiting task below n of a good set is served and has finished when its turn is over. */
  lemma {:induction false} ServeBelow(s: State, roles: seq<Role>, good: set<nat>, n: nat)
    returns (acts: seq<Action>, r: State)
    requires Scene(s, roles) && AllIdle(s) && Calm(s.prog, roles) && Good(s.prog, roles, good) && n <= |roles|
    ensures Run(s, acts, r) && Scene(r, ServedBelow(roles, good, n)) && AllIdle(r) && FinishedStay(s, r)
  {
    if n == 0 {
      acts, r := [], s;
      assert ServedBelow(roles, good, 0) == roles;
    } else {
      var first, m := ServeBelow(s, roles, good, n - 1);
      var rest: seq<Action>;
      rest, r := ServeNext(m, roles, good, n - 1);
      RunAppend(s, first, m, rest, r);
      acts := first + rest;
    }
  }

  lemma ServeNext(s: State, roles: seq<Role>, good: set<nat>, u: nat) returns (acts: seq<Action>, r: State)
    requires |roles| <= |s.prog| && Calm(s.prog, roles) && Good(s.prog, roles, good) && u < |roles|
    requires Scene(s, ServedBelow(roles, good, u)) && AllIdle(s)
    ensures Run(s, acts, r) && Scene(r, ServedBelow(roles, good, u + 1)) && AllIdle(r) && FinishedStay(s, r)
  {
    var now, next := ServedBelow(roles, good, u), ServedBelow(roles, good, u + 1);
    if u in good && roles[u].Waiting? {
      assert next == now[u := Served];
      GoodPresFinished(s, now, good, u);
      var first, m := Serve(s, now, u);
      var rest: seq<Action>;
      rest, r := DrainScene(m, next);
      RunAppend(s, first, m, rest, r);
      acts := first + rest;
    } else {
      assert next == now;
      acts, r := [], s;
    }
  }

  /** A ripe registration is closed: the task is overtaken. */
  lemma Overtake(s: State, roles: seq<Role>, u: nat)
    requires Scene(s, roles) && NoLockHeld(s) && u < |roles| && Ripe(s, u)
    ensures CanClose(s, u)
    ensures var r := CloseRegistration(s, u);
            Scene(r, roles[u := Doubled]) && NoLockHeld(r) && Closed(s, r, u) && FinishedStay(s, r)
  {
    ClosingStays(s, u);
    var r := CloseRegistration(s, u);
    PresStayFinished(s, r, u);
    Recast(s, r, roles, u, Doubled);
  }

  /** The next task, if it is in the set, is held. */
  lemma HoldNext(s: State, roles: seq<Role>, todo: set<nat>, u: nat) returns (acts: seq<Action>, r: State)
    requires u < |roles| && roles[u].Waiting?
    requires Scene(s, Cast(roles, todo, u, Held)) && AllIdle(s) && NoneFinished(s)
    ensures Run(s, acts, r) && Scene(r, Cast(roles, todo, u + 1, Held))
    ensures AllIdle(r) && NoneFinished(r) && r.prog == s.prog
  {
    var now, next := Cast(roles, todo, u, Held), Cast(roles, todo, u + 1, Held);
    if u in todo {
      assert next == now[u := Held];
      acts, r := Hold(s, now, u);
    } else {
      assert next == now;
      acts, r := [], s;
    }
  }

  /** The tasks of the set are held. */
  lemma {:induction false} HoldBelow(s: State, roles: seq<Role>, todo: set<nat>, n: nat)
    returns (acts: seq<Action>, r: State)
    requires Scene(s, roles) && AllIdle(s) && NoneFinished(s) && n <= |roles|
    requires forall u | 0 <= u < |roles| :: roles[u].Waiting?
    ensures Run(s, acts, r) && Scene(r, Cast(roles, todo, n, Held)) && AllIdle(r) && NoneFinished(r) && r.prog == s.prog
  {
    if n == 0 {
      acts, r := [], s;
      assert Cast(roles, todo, 0, Held) == roles;
    } else {
      var first, m := HoldBelow(s, roles, todo, n - 1);
      var rest: seq<Action>;
      rest, r := HoldNext(m, roles, todo, n - 1);
      RunAppend(s, first, m, rest, r);
      acts := first + rest;
    }
  }

  /** The first n tasks are created, and those of the set are held. */
  lemma OpenAndHold(prog: seq<TaskSpec>, workers: nat, n: nat, todo: set<nat>)
    returns (acts: seq<Action>, s: State)
    requires WellFormed(prog) && WaitsArePres(prog) && workers > 0 && n <= |prog|
    requires forall u | u in todo :: u < n
    ensures Run(Initial(prog, false, workers), acts, s) && s.prog == prog
    ensures Scene(s, Cast(seq(n, _ => Waiting), todo, n, Held)) && AllIdle(s)
  {
    var first, m := Open(prog, workers, n);
    var rest: seq<Action>;
    rest, s := HoldBelow(m, seq(n, _ => Waiting), todo, n);
    RunAppend(Initial(prog, false, workers), first, m, rest, s);
    acts := first + rest;
  }

  lemma RipeStays(s: State, r: State, u: nat, v: nat)
    requires Ripe(s, v) && u < |s.tasks| && u != v && Closed(s, r, u) && FinishedStay(s, r)
    ensures Ripe(r, v)
  {
    PresStayFinished(s, r, v);
  }

  ghost predicate RipeFrom(s: State, todo: set<nat>, n: nat) {
    forall u | u in todo && u >= n :: Ripe(s, u)
  }

  /** The next task, if it is in the set, is overtaken. */
  lemma OvertakeNext(s: State, roles: seq<Role>, todo: set<nat>, u: nat) returns (acts: seq<Action>, r: State)
    requires u < |roles| && Scene(s, Cast(roles, todo, u, Doubled)) && NoLockHeld(s) && RipeFrom(s, todo, u)
    ensures Run(s, acts, r) && Scene(r, Cast(roles, todo, u + 1, Doubled)) && NoLockHeld(r) && FinishedStay(s, r)
    ensures RipeFrom(r, todo, u + 1)
  {
    var now, next := Cast(roles, todo, u, Doubled), Cast(roles, todo, u + 1, Doubled);
    if u in todo {
      assert next == now[u := Doubled];
      Overtake(s, now, u);
      r := CloseRegistration(s, u);
      RunOne(s, Close(u));
      acts := [Close(u)];
      forall v | v in todo && v >= u + 1 ensures Ripe(r, v) {
        RipeStays(s, r, u, v);
      }
    } else {
      assert next == now;
      acts, r := [], s;
    }
  }

  /** The ripe tasks of the set are overtaken before any worker goes on. */
  lemma {:induction false} OvertakeBelow(s: State, roles: seq<Role>, todo: set<nat>, n: nat)
    returns (acts: seq<Action>, r: State)
    requires Scene(s, roles) && NoLockHeld(s) && n <= |roles| && RipeFrom(s, todo, 0)
    ensures Run(s, acts, r) && Scene(r, Cast(roles, todo, n, Doubled)) && NoLockHeld(r) && FinishedStay(s, r)
    ensures RipeFrom(r, todo, n)
  {
    if n == 0 {
      acts, r := [], s;
      assert Cast(roles, todo, 0, Doubled) == roles;
    } else {
      var first, m := OvertakeBelow(s, roles, todo, n - 1);
      var rest: seq<Action>;
      rest, r := OvertakeNext(m, roles, todo, n - 1);
      RunAppend(s, first, m, rest, r);
      acts := first + rest;
    }
  }

  // ---- a task is queued and kept waiting

  /** The held task p is at the top of the queue and has not been started. */
  ghost predicate QueuedFirst(s: State, p: nat) {
    && Resting(s) && Ripe(s, p) && p in s.queue && TopOfQueue(s, p)
    && s.tasks[p].starts == s.tasks[p].exits == 0 && !s.tasks[p].isFinished
  }

  lemma TopIsSkipped(s: State, p: nat)
    requires Inv(s) && Resting(s) && Drained(s, Some(p)) && |s.workers| > 0 && p in s.queue
    ensures TopOfQueue(s, p)
  {
    var t := QueueMoves(s);
  }

  /** With an empty queue everything good has run, and p with it. */
  lemma HeldIsPushed(s: State, roles: seq<Role>, good: set<nat>, p: nat)
    requires Scene(s, roles) && Calm(s.prog, roles) && Good(s.prog, roles, good) && Resting(s)
    requires p < |roles| && roles[p].Held? && s.prog[p].pres != [] && forall x | x in s.prog[p].pres :: x in good
    requires forall v | v in good && v < p :: !roles[v].Waiting?
    requires s.queue == multiset{} || p in s.queue
    ensures s.tasks[p].pushes > 0
  {
    assert Plays(s, p, roles[p]);
    CalmPres(s, roles, p);
    RestingCounts(s, p);
    if s.queue == multiset{} {
      GoodPresFinished(s, roles, good, p);
      HeldIsRipe(s, p);
    }
  }

  lemma HeldIsQueued(s: State, roles: seq<Role>, p: nat)
    requires Scene(s, roles) && Calm(s.prog, roles) && Resting(s) && Drained(s, Some(p))
    requires p < |roles| && roles[p].Held? && s.prog[p].pres != [] && s.tasks[p].pushes > 0 && s.tasks[p].starts == 0
    ensures QueuedFirst(s, p)
  {
    assert Plays(s, p, roles[p]);
    CalmPres(s, roles, p);
    PushedPresFinished(s, p);
    HeldIsRipe(s, p);
    RestingCounts(s, p);
    assert TaskOk(s, p);
    TopIsSkipped(s, p);
  }

  /** The workers go on without starting p, until p is all that they could take. */
  lemma DrainUpTo(s: State, roles: seq<Role>, good: set<nat>, p: nat) returns (acts: seq<Action>, r: State)
    requires Scene(s, roles) && Calm(s.prog, roles) && Good(s.prog, roles, good)
    requires p < |roles| && roles[p].Held? && s.prog[p].pres != [] && forall x | x in s.prog[p].pres :: x in good
    requires forall v | v in good && v < p :: !roles[v].Waiting?
    requires s.tasks[p].starts == 0
    ensures Run(s, acts, r) && Scene(r, roles) && FinishedStay(s, r) && QueuedFirst(r, p)
  {
    acts, r := Drain(s, Some(p));
    SceneContinues(s, r, roles);
    forall v | 0 <= v < |roles| && roles[v].Held? ensures DirectPresNotOvertaken(r, v) {
      CalmPres(r, roles, v);
    }
    SceneSettles(r, roles, Some(p));
    HeldIsPushed(r, roles, good, p);
    HeldIsQueued(r, roles, p);
  }

  /** A held task is not pushed before all its pre-tasks have finished. */
  lemma NotStartedYet(s: State, roles: seq<Role>, p: nat, x: nat)
    requires Scene(s, roles) && Calm(s.prog, roles) && AllIdle(s) && p < |roles| && roles[p].Held?
    requires x in s.prog[p].pres && x < |roles| && roles[x].Waiting?
    ensures s.tasks[p].starts == 0
  {
    assert Plays(s, x, roles[x]);
    WaitingIsIdle(s, x);
    CalmPres(s, roles, p);
    if s.tasks[p].pushes > 0 {
      PushedPresFinished(s, p);
    }
    RestingCounts(s, p);
  }

  lemma {:induction false} Largest(xs: seq<nat>) returns (x: nat)
    requires xs != []
    ensures x in xs && forall y | y in xs :: y <= x
  {
    var last := xs[|xs| - 1];
    x := last;
    if |xs| > 1 {
      var best := Largest(xs[..|xs| - 1]);
      x := if best < last then last else best;
    }
    forall y | y in xs ensures y <= x {
      assert y in xs[..|xs| - 1] || y == last;
    }
  }

  ghost predicate LastMissing(prog: seq<TaskSpec>, roles: seq<Role>, good: set<nat>, p: nat, x: nat) {
    && |roles| <= |prog| && Calm(prog, roles) && Good(prog, roles, good) && p < |roles| && roles[p].Held?
    && x in prog[p].pres && x < |roles| && roles[x].Waiting? && (forall v | v in good :: !roles[v].Waiting?)
    && (forall y | y in prog[p].pres :: y == x || y in good) && (forall y | y in prog[x].pres :: y in good)
  }

  /** Once its last pre-task x is served, p is queued and kept waiting. */
  lemma QueueUp(s: State, roles: seq<Role>, good: set<nat>, p: nat, x: nat) returns (acts: seq<Action>, r: State)
    requires Scene(s, roles) && AllIdle(s) && LastMissing(s.prog, roles, good, p, x)
    ensures Run(s, acts, r) && Scene(r, roles[x := Served]) && FinishedStay(s, r) && QueuedFirst(r, p)
  {
    NotStartedYet(s, roles, p, x);
    GoodPresFinished(s, roles, good, x);
    var first, m := Serve(s, roles, x);
    var rest: seq<Action>;
    rest, r := DrainUpTo(m, roles[x := Served], good + {x}, p);
    RunAppend(s, first, m, rest, r);
    acts := first + rest;
  }
}
