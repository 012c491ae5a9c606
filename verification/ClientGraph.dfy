/** The client's task graph: one load per file without pre-tasks, then one analysis per
    load, whose function first waits for the value of that load. Every result here holds
    on all interleavings, without any hypothesis on overtaken registrations. */
module ClientGraph {
  import opened Sums
  import opened SchedulerModel
  import opened SchedulerInvariant
  import opened SchedulerTheorems
  import opened SchedulerOrder
  import opened SchedulerScenes
  import opened SchedulerCalls

  const AST_LOADING_PRIORITY: nat := 16
  const ANALYZING_PRIORITY: nat := 20

  function ClientProgram(files: nat): (prog: seq<TaskSpec>)
    ensures |prog| == 2 * files
  {
    seq(2 * files, i requires 0 <= i < 2 * files =>
      if i < files then TaskSpec(AST_LOADING_PRIORITY, [], {})
      else TaskSpec(ANALYZING_PRIORITY, [i - files], {i - files}))
  }

  lemma ClientProgramIsSound(files: nat)
    ensures WellFormed(ClientProgram(files)) && WaitsArePres(ClientProgram(files))
  {
    forall t, u | 0 <= t < 2 * files && u in ClientProgram(files)[t].waits
      ensures u in ClientProgram(files)[t].pres
    {
      assert ClientProgram(files)[t].pres[0] == u;
    }
  }

  lemma ClientSetup(files: nat, serial: bool, workers: nat, acts: seq<Action>, s: State)
    requires Reaches(ClientProgram(files), serial, workers, acts, s)
    ensures Inv(s) && s.prog == ClientProgram(files) && |s.workers| == workers && PresNotOvertaken(s)
  {
    ReachedInv(ClientProgram(files), serial, workers, acts, s);
    RunKeepsSetup(Initial(ClientProgram(files), serial, workers), acts, s);
    forall t, e | 0 <= t < |s.tasks| && 0 <= e < |s.prog[t].pres|
      ensures s.prog[t].pres[e] < |s.tasks| ==> !s.tasks[s.prog[t].pres[e]].overtaken
    {
      if s.prog[t].pres[e] < |s.tasks| {
        assert TaskOk(s, s.prog[t].pres[e]);
      }
    }
  }

  /** The graph is one of those that are in order whatever the interleaving. */
  lemma ClientHasOneEntry(files: nat)
    ensures AtMostEntries(ClientProgram(files), 1)
  {
  }

  /** The function of an analysis returns only after its load has finished. */
  lemma AnalysisHasItsLoad(files: nat, serial: bool, workers: nat, acts: seq<Action>, s: State, t: nat)
    requires Reaches(ClientProgram(files), serial, workers, acts, s)
    requires files <= t < |s.tasks| && s.tasks[t].exits > 0
    ensures t - files < |s.tasks| && s.tasks[t - files].isFinished
  {
    ClientSetup(files, serial, workers, acts, s);
    ReachedWaitsMet(ClientProgram(files), serial, workers, acts, s);
    assert t - files in s.prog[t].waits;
    assert IsFinished(s, t - files);
  }

  /** A load is pushed at most once, an analysis at most twice, no analysis starts before the
      function of its load has returned, and none returns before its load has finished. */
  lemma ClientSafety(files: nat, serial: bool, workers: nat, acts: seq<Action>, s: State, t: nat)
    requires Reaches(ClientProgram(files), serial, workers, acts, s) && t < |s.tasks|
    ensures t < files ==> s.tasks[t].pushes <= 1
    ensures s.tasks[t].pushes <= 2
    ensures files <= t && s.tasks[t].starts > 0 ==> t - files < |s.tasks| && s.tasks[t - files].exits == 1
    ensures files <= t && s.tasks[t].exits > 0 ==> t - files < |s.tasks| && s.tasks[t - files].isFinished
  {
    if files <= t && s.tasks[t].exits > 0 {
      AnalysisHasItsLoad(files, serial, workers, acts, s, t);
    }
    ClientSetup(files, serial, workers, acts, s);
    PushedAtMostTwice(ClientProgram(files), serial, workers, acts, s, t);
    assert TaskOk(s, t);
    if files <= t && s.tasks[t].starts > 0 {
      ClientHasOneEntry(files);
      SimplePrograms(ClientProgram(files), serial, workers, acts, s);
      assert s.prog[t].pres[0] == t - files && Above(s.prog, t - files, t);
      assert TaskOk(s, t - files);
    }
  }

  lemma ClientEntries(files: nat, k: nat)
    requires files <= k <= 2 * files
    ensures Entries(ClientProgram(files)[..k]) == k - files
  {
    if k == files {
      NoLoadEntries(files, files);
    } else {
      assert ClientProgram(files)[..k][..k - 1] == ClientProgram(files)[..k - 1];
      ClientEntries(files, k - 1);
    }
  }

  lemma NoLoadEntries(files: nat, k: nat)
    requires k <= files
    ensures Entries(ClientProgram(files)[..k]) == 0
  {
    if k > 0 {
      assert ClientProgram(files)[..k][..k - 1] == ClientProgram(files)[..k - 1];
      NoLoadEntries(files, k - 1);
    }
  }

  /** The client terminates: a run has at most 27 lock-held sections per file, and when it
      can go no further each load was pushed once, each analysis once or twice, all of them
      are finished, and the waiting loop of main returns. */
  lemma ClientCompletes(files: nat, serial: bool, workers: nat, acts: seq<Action>, s: State)
    requires Reaches(ClientProgram(files), serial, workers, acts, s)
    ensures |acts| <= 27 * files
    ensures Stuck(s) && workers > 0 ==>
              && |s.tasks| == 2 * files
              && (forall t | 0 <= t < 2 * files :: CanWait(s, t))
              && (forall t | 0 <= t < files :: s.tasks[t].pushes == 1 && s.tasks[t].calls == 1)
              && (forall t | files <= t < 2 * files ::
                    s.tasks[t].pushes == (if s.tasks[t].overtaken then 2 else 1) && s.tasks[t].calls >= 1)
  {
    RunsAreBounded(ClientProgram(files), serial, workers, acts, s);
    ClientEntries(files, 2 * files);
    assert ClientProgram(files)[..2 * files] == ClientProgram(files);
    if Stuck(s) && workers > 0 {
      ClientSetup(files, serial, workers, acts, s);
      ClientProgramIsSound(files);
      ClientHasOneEntry(files);
      SimplePrograms(ClientProgram(files), serial, workers, acts, s);
      forall t | 0 <= t < 2 * files
        ensures s.tasks[t].pushes == (if s.tasks[t].overtaken then 2 else 1)
        ensures t < files ==> s.tasks[t].pushes == 1 && s.tasks[t].calls == 1
      {
        ClientSafety(files, serial, workers, acts, s, t);
        PushedAtMostTwice(ClientProgram(files), serial, workers, acts, s, t);
      }
    }
  }

  // ---- an analysis that is pushed twice

  /** The loads below n are created and queued, one after the other; no worker has moved. */
  lemma {:induction false} QueueLoads(files: nat, workers: nat, n: nat) returns (acts: seq<Action>, s: State)
    requires workers > 0 && n <= files
    ensures Run(Initial(ClientProgram(files), true, workers), acts, s) && Loaded(files, s, n)
  {
    var init := Initial(ClientProgram(files), true, workers);
    ClientProgramIsSound(files);
    if n == 0 {
      InitialInv(ClientProgram(files), true, workers);
      acts, s := [], init;
    } else {
      var first, m := QueueLoads(files, workers, n - 1);
      QueueLoad(files, m, n - 1);
      RunSnoc(init, first, m, Create);
      s := CloseRegistration(Apply(m, Create), n - 1);
      RunSnoc(init, first + [Create], Apply(m, Create), Close(n - 1));
      acts := first + [Create] + [Close(n - 1)];
    }
  }

  ghost predicate Loaded(files: nat, s: State, n: nat) {
    && s.prog == ClientProgram(files) && Scene(s, seq(n, _ => Served)) && NoLockHeld(s) && NoneFinished(s)
    && forall u | 0 <= u < n :: s.tasks[u].closed
  }

  lemma QueueLoad(files: nat, s: State, n: nat)
    requires Loaded(files, s, n) && n < files
    ensures CanCreate(s) && CanClose(Apply(s, Create), n)
    ensures Loaded(files, CloseRegistration(Apply(s, Create), n), n + 1)
  {
    var roles := seq(n, _ => Served) + [Waiting];
    CreateScene(s, seq(n, _ => Served));
    CloseFree(Apply(s, Create), roles, n);
    assert roles[n := Served] == seq(n + 1, _ => Served);
  }

  /** The first analysis is registered before its load has run. */
  lemma HoldAnalysis(files: nat, s: State) returns (acts: seq<Action>, r: State)
    requires files > 0 && Loaded(files, s, files)
    ensures Run(s, acts, r) && r.prog == s.prog && Scene(r, seq(files, _ => Served) + [Held])
    ensures NoneFinished(r) && NoLockHeld(r)
  {
    var roles := seq(files, _ => Served) + [Waiting];
    CreateScene(s, seq(files, _ => Served));
    var rest: seq<Action>;
    rest, r := Hold(Apply(s, Create), roles, files);
    assert roles[files := Held] == seq(files, _ => Served) + [Held];
    RunOne(s, Create);
    RunAppend(s, [Create], Apply(s, Create), rest, r);
    acts := [Create] + rest;
  }

  lemma AnalysisIsRipe(files: nat, s: State)
    requires files > 0 && s.prog == ClientProgram(files) && Scene(s, seq(files, _ => Served) + [Held]) && AllIdle(s)
    ensures Ripe(s, files)
  {
    var roles := seq(files, _ => Served) + [Held];
    assert Plays(s, files, roles[files]) && Plays(s, 0, roles[0]);
    ServedHasRun(s, 0);
    CalmPres(s, roles, files);
    HeldIsRipe(s, files);
  }

  /** For any number of files and workers, and with one registering thread, the client has a
      run in which an analysis is pushed twice. */
  lemma AnalysisPushedTwice(files: nat, workers: nat) returns (acts: seq<Action>, s: State)
    requires files > 0 && workers > 0
    ensures Reaches(ClientProgram(files), true, workers, acts, s)
    ensures |s.tasks| == files + 1 && s.tasks[files].pushes == 2
  {
    var init, roles := Initial(ClientProgram(files), true, workers), seq(files, _ => Served) + [Held];
    ClientProgramIsSound(files);
    var first, s1 := QueueLoads(files, workers, files);
    var second, s2 := HoldAnalysis(files, s1);
    var third, s3 := DrainScene(s2, roles);
    AnalysisIsRipe(files, s3);
    Overtake(s3, roles, files);
    s := CloseRegistration(s3, files);
    assert Plays(s, files, roles[files := Doubled][files]) && TaskOk(s, files);
    RunAppend(init, first, s1, second, s2);
    RunAppend(init, first + second, s2, third, s3);
    RunSnoc(init, first + second + third, s3, Close(files));
    acts := first + second + third + [Close(files)];
  }

  /** With two workers the analysis function may even be called twice at a time. */
  lemma AnalysisCalledTwice(files: nat, workers: nat) returns (acts: seq<Action>, s: State)
    requires files > 0 && workers >= 2
    ensures Reaches(ClientProgram(files), true, workers, acts, s)
    ensures |s.tasks| == files + 1 && s.tasks[files].calls == 2
    ensures |s.workers| >= 2 && s.workers[0] == s.workers[1] == Calling(files)
  {
    var init, roles := Initial(ClientProgram(files), true, workers), seq(files, _ => Served) + [Held];
    ClientProgramIsSound(files);
    var first, s1 := QueueLoads(files, workers, files);
    var second, s2 := HoldAnalysis(files, s1);
    RunAppend(init, first, s1, second, s2);
    var third, s3 := KeepAnalysisWaiting(files, s2);
    RunAppend(init, first + second, s2, third, s3);
    RunKeepsSetup(init, first + second + third, s3);
    var fourth: seq<Action>;
    fourth, s := CallTwice(s3, roles, files);
    RunAppend(init, first + second + third, s3, fourth, s);
    acts := first + second + third + fourth;
  }

  lemma AnalysisHasNotStarted(files: nat, s: State)
    requires files > 0 && s.prog == ClientProgram(files) && Scene(s, seq(files, _ => Served) + [Held])
    requires NoneFinished(s) && NoLockHeld(s)
    ensures s.tasks[files].starts == 0
  {
    CalmPres(s, seq(files, _ => Served) + [Held], files);
    assert 0 in s.prog[files].pres && TaskOk(s, files);
    if s.tasks[files].pushes > 0 {
      PushedPresFinished(s, files);
    }
  }

  lemma KeepAnalysisWaiting(files: nat, s: State) returns (acts: seq<Action>, r: State)
    requires files > 0 && s.prog == ClientProgram(files) && Scene(s, seq(files, _ => Served) + [Held])
    requires NoneFinished(s) && NoLockHeld(s)
    ensures Run(s, acts, r) && Scene(r, seq(files, _ => Served) + [Held]) && QueuedFirst(r, files)
  {
    AnalysisHasNotStarted(files, s);
    acts, r := DrainUpTo(s, seq(files, _ => Served) + [Held], {0}, files);
  }

  // ---- the in-flight bound

  /** A queued or running analysis, or a running load that has not yet notified, holds one
      loaded syntax tree. */
  ghost function Weight(files: nat, t: nat, k: Task): int {
    if files <= t then k.pushes - k.dones
    else k.starts - k.dones - if k.lock.Some? && k.lock.value > 0 then 1 else 0
  }

  ghost function LateWeight(files: nat, t: nat, k: Task): int {
    Weight(files, t, k) - ClosingWeight(files, t, k)
  }

  ghost function ClosingWeight(files: nat, t: nat, k: Task): int {
    if files <= t && k.closingPush then 1 else 0
  }

  ghost function Weights(files: nat, s: State): seq<int> {
    seq(|s.tasks|, t requires 0 <= t < |s.tasks| => Weight(files, t, s.tasks[t]))
  }

  ghost function ClosingWeights(files: nat, s: State): seq<int> {
    seq(|s.tasks|, t requires 0 <= t < |s.tasks| => ClosingWeight(files, t, s.tasks[t]))
  }

  ghost function LateWeights(files: nat, s: State): (ws: seq<int>)
    ensures |ws| == |s.tasks| && forall t | 0 <= t < |ws| :: ws[t] == LateWeight(files, t, s.tasks[t])
  {
    seq(|s.tasks|, t requires 0 <= t < |s.tasks| => LateWeight(files, t, s.tasks[t]))
  }

  ghost function Busy(s: State): (bs: seq<int>)
    ensures |bs| == |s.tasks| && forall t | 0 <= t < |bs| :: bs[t] == s.tasks[t].starts - s.tasks[t].dones
  {
    seq(|s.tasks|, t requires 0 <= t < |s.tasks| => s.tasks[t].starts - s.tasks[t].dones)
  }

  ghost predicate FlightInv(files: nat, s: State) {
    && Sum(LateWeights(files, s)) <= |s.workers|
    && Sum(Busy(s)) + multiset(s.workers)[Idle] == |s.workers|
  }

  lemma OneLateWeightFalls(files: nat, s: State, r: State, t: nat)
    requires |r.tasks| == |s.tasks| && t < |s.tasks|
    requires forall u | 0 <= u < |s.tasks| && u != t ::
               LateWeight(files, u, r.tasks[u]) == LateWeight(files, u, s.tasks[u])
    requires LateWeight(files, t, r.tasks[t]) <= LateWeight(files, t, s.tasks[t])
    ensures Sum(LateWeights(files, r)) <= Sum(LateWeights(files, s))
  {
    assert LateWeights(files, r) == LateWeights(files, s)[t := LateWeights(files, r)[t]];
    SumUpdate(LateWeights(files, s), t, LateWeights(files, r)[t]);
  }

  lemma OneBusyChanges(s: State, r: State, t: nat)
    requires |r.tasks| == |s.tasks| && t < |s.tasks|
    requires forall u | 0 <= u < |s.tasks| && u != t ::
               r.tasks[u].starts - r.tasks[u].dones == s.tasks[u].starts - s.tasks[u].dones
    ensures Sum(Busy(r)) == Sum(Busy(s)) - Busy(s)[t] + Busy(r)[t]
  {
    assert Busy(r) == Busy(s)[t := Busy(r)[t]];
    SumUpdate(Busy(s), t, Busy(r)[t]);
  }

  /** A step that changes task t only, and not its late weight. */
  lemma SameFlight(files: nat, s: State, r: State, t: nat)
    requires |r.tasks| == |s.tasks| && t < |s.tasks| && FlightInv(files, s) && |r.workers| == |s.workers|
    requires forall u | 0 <= u < |s.tasks| && u != t ::
               LateWeight(files, u, r.tasks[u]) == LateWeight(files, u, s.tasks[u])
               && r.tasks[u].starts - r.tasks[u].dones == s.tasks[u].starts - s.tasks[u].dones
    requires LateWeight(files, t, r.tasks[t]) <= LateWeight(files, t, s.tasks[t])
    requires r.tasks[t].starts - r.tasks[t].dones + multiset(r.workers)[Idle]
             == s.tasks[t].starts - s.tasks[t].dones + multiset(s.workers)[Idle]
    ensures FlightInv(files, r)
  {
    OneLateWeightFalls(files, s, r, t);
    OneBusyChanges(s, r, t);
  }

  ghost predicate ClientInv(files: nat, s: State) {
    Inv(s) && s.prog == ClientProgram(files) && FlightInv(files, s)
  }

  /** A load has at most one post: its own analysis. */
  lemma LoadHasOnePost(files: nat, s: State, p: nat)
    requires Inv(s) && s.prog == ClientProgram(files) && p < |s.tasks|
    ensures |s.tasks[p].posts| <= 1
    ensures s.tasks[p].posts != [] ==> p < files && s.tasks[p].posts[0].post == p + files
  {
    forall i | 0 <= i < |s.tasks[p].posts|
      ensures p < files && s.tasks[p].posts[i] == Slot(p + files, 0)
      ensures p + files < |s.tasks| && |s.tasks[p + files].fates| > 0 && s.tasks[p + files].fates[0] == Stored(i)
    {
      var Slot(t, e) := s.tasks[p].posts[i];
      assert SlotOk(s, p, i) && e < |s.prog[t].pres|;
      assert s.prog[t] == ClientProgram(files)[t];
    }
    if s.tasks[p].posts != [] {
      var last := |s.tasks[p].posts| - 1;
      assert s.tasks[p].posts[0] == s.tasks[p].posts[last] == Slot(p + files, 0);
    }
  }

  /** A load is popped only when no analysis is queued. */
  lemma NoAnalysisQueued(files: nat, s: State, w: nat, t: nat, u: nat)
    requires s.prog == ClientProgram(files) && CanPop(s, w, t) && t < files <= u < |s.tasks|
    ensures s.queue[u] == 0
  {
    assert u < |s.prog| && s.prog[t].priority < s.prog[u].priority;
  }

  lemma PopLoadWeight(files: nat, s: State, w: nat, t: nat, r: State, u: nat)
    requires ClientInv(files, s) && CanPop(s, w, t) && t < files && r == PopTask(s, w, t) && u < |s.tasks|
    ensures LateWeight(files, u, r.tasks[u]) <= r.tasks[u].starts - r.tasks[u].dones
  {
    assert TaskOk(s, u);
    if files <= u {
      NoAnalysisQueued(files, s, w, t, u);
    }
  }

  lemma OneLessIdle(workers: seq<Worker>, w: nat, t: nat)
    requires w < |workers| && workers[w] == Idle
    ensures multiset(workers[w := Calling(t)])[Idle] + 1 == multiset(workers)[Idle]
  {
    assert workers[w] in multiset(workers);
  }

  lemma OneTaskBusier(s: State, r: State, t: nat)
    requires t < |s.tasks| == |r.tasks| && r.tasks == s.tasks[t := r.tasks[t]]
    requires r.tasks[t].starts == s.tasks[t].starts + 1 && r.tasks[t].dones == s.tasks[t].dones
    ensures Sum(Busy(r)) == Sum(Busy(s)) + 1
  {
    assert Busy(r) == Busy(s)[t := Busy(s)[t] + 1];
    SumUpdate(Busy(s), t, Busy(s)[t] + 1);
  }

  lemma PopKeepsBusy(files: nat, s: State, w: nat, t: nat, r: State)
    requires ClientInv(files, s) && CanPop(s, w, t) && r == PopTask(s, w, t)
    ensures Sum(Busy(r)) + multiset(r.workers)[Idle] == |r.workers|
  {
    OneLessIdle(s.workers, w, t);
    OneTaskBusier(s, r, t);
  }

  lemma PopKeepsFlight(files: nat, s: State, w: nat, t: nat)
    requires ClientInv(files, s) && CanPop(s, w, t)
    ensures FlightInv(files, PopTask(s, w, t))
  {
    var r := PopTask(s, w, t);
    PopKeepsBusy(files, s, w, t, r);
    if files <= t {
      PopAnalysisWeights(files, s, w, t, r);
    } else {
      forall u | 0 <= u < |r.tasks| ensures LateWeights(files, r)[u] <= Busy(r)[u] {
        PopLoadWeight(files, s, w, t, r, u);
      }
      SumMono(LateWeights(files, r), Busy(r));
    }
  }

  lemma PopAnalysisWeights(files: nat, s: State, w: nat, t: nat, r: State)
    requires CanPop(s, w, t) && files <= t && r == PopTask(s, w, t)
    ensures LateWeights(files, r) == LateWeights(files, s)
  {
  }

  /** Two tasks changed: the late weight of p fell and that of t rose by one at most. */
  lemma LateWeightMoves(files: nat, s: State, r: State, p: nat, t: nat)
    requires |r.tasks| == |s.tasks| && p < |s.tasks| && t < |s.tasks| && p != t
    requires forall u | 0 <= u < |s.tasks| && u != p && u != t :: r.tasks[u] == s.tasks[u]
    requires LateWeight(files, p, r.tasks[p]) == LateWeight(files, p, s.tasks[p]) - 1
    requires LateWeight(files, t, r.tasks[t]) <= LateWeight(files, t, s.tasks[t]) + 1
    ensures Sum(LateWeights(files, r)) <= Sum(LateWeights(files, s))
  {
    var mid := LateWeights(files, s)[p := LateWeights(files, s)[p] - 1];
    assert LateWeights(files, r) == mid[t := LateWeights(files, r)[t]];
    SumUpdate(LateWeights(files, s), p, LateWeights(files, s)[p] - 1);
    SumUpdate(mid, t, LateWeights(files, r)[t]);
  }

  lemma NotifyKeepsBusy(s: State, r: State, q: nat, j: nat, t: nat)
    requires q < |s.tasks| && t < |s.tasks| <= |s.prog| && Notified(s, r, q, j, t)
    ensures Busy(r) == Busy(s)
  {
  }

  /** A notification ends the weight of a load and may start that of its analysis. */
  lemma NotifyMovesWeight(files: nat, s: State, r: State, q: nat, t: nat)
    requires q < files <= t && t < |s.tasks| <= |s.prog| && s.tasks[q].lock == Some(0) && Notified(s, r, q, 0, t)
    ensures Sum(LateWeights(files, r)) <= Sum(LateWeights(files, s))
  {
    LateWeightMoves(files, s, r, q, t);
  }

  lemma NotifyKeepsFlight(files: nat, s: State, w: nat)
    requires ClientInv(files, s) && CanNotify(s, w)
    ensures FlightInv(files, NotifyPost(s, w))
  {
    var r, q := NotifyPost(s, w), s.workers[w].task;
    LoadHasOnePost(files, s, q);
    NotifyEffect(s, w);
    NotifyKeepsBusy(s, r, q, 0, NextPost(s, q));
    NotifyMovesWeight(files, s, r, q, NextPost(s, q));
  }

  lemma CreateKeepsFlight(files: nat, s: State)
    requires ClientInv(files, s) && CanCreate(s)
    ensures FlightInv(files, Apply(s, Create))
  {
    var r := Apply(s, Create);
    AppendedFlight(files, s, r);
  }

  lemma AppendedFlight(files: nat, s: State, r: State)
    requires r.tasks == s.tasks + [NEW_TASK]
    ensures Sum(LateWeights(files, r)) == Sum(LateWeights(files, s)) && Sum(Busy(r)) == Sum(Busy(s))
  {
    assert LateWeights(files, r) == LateWeights(files, s) + [0];
    SumAppend(LateWeights(files, s), 0);
    assert Busy(r) == Busy(s) + [0];
    SumAppend(Busy(s), 0);
  }

  lemma ReturnKeepsFlight(files: nat, s: State, w: nat)
    requires ClientInv(files, s) && CanReturn(s, w)
    ensures FlightInv(files, ReturnFromCall(s, w))
  {
    ReplacedWorker(s.workers, w, Returned(s.workers[w].task));
    SameFlight(files, s, ReturnFromCall(s, w), s.workers[w].task);
  }

  lemma AcquireKeepsFlight(files: nat, s: State, w: nat)
    requires ClientInv(files, s) && CanAcquire(s, w)
    ensures FlightInv(files, AcquireLock(s, w))
  {
    ReplacedWorker(s.workers, w, Notifying(s.workers[w].task));
    SameFlight(files, s, AcquireLock(s, w), s.workers[w].task);
  }

  lemma FinishKeepsFlight(files: nat, s: State, w: nat)
    requires ClientInv(files, s) && CanFinish(s, w)
    ensures FlightInv(files, FinishRun(s, w))
  {
    ReplacedWorker(s.workers, w, Idle);
    SameFlight(files, s, FinishRun(s, w), s.workers[w].task);
  }

  lemma SameWeights(files: nat, s: State, r: State)
    requires |r.tasks| == |s.tasks|
    requires forall u | 0 <= u < |s.tasks| ::
               var k, l := s.tasks[u], r.tasks[u];
               && l.pushes == k.pushes && l.starts == k.starts && l.dones == k.dones
               && l.lock == k.lock && l.closingPush == k.closingPush
    ensures LateWeights(files, r) == LateWeights(files, s) && Busy(r) == Busy(s)
  {
  }

  lemma InsertKeepsFlight(files: nat, s: State, t: nat)
    requires ClientInv(files, s) && CanInsert(s, t)
    ensures FlightInv(files, InsertPost(s, t))
  {
    SameWeights(files, s, InsertPost(s, t));
  }

  lemma CloseKeepsFlight(files: nat, s: State, t: nat)
    requires ClientInv(files, s) && CanClose(s, t)
    ensures FlightInv(files, CloseRegistration(s, t))
  {
    assert TaskOk(s, t);
    SameFlight(files, s, CloseRegistration(s, t), t);
  }

  lemma StepKeepsFlight(files: nat, s: State, a: Action)
    requires ClientInv(files, s) && Enabled(s, a)
    ensures FlightInv(files, Apply(s, a))
  {
    match a
    case Create => CreateKeepsFlight(files, s);
    case Insert(t) => InsertKeepsFlight(files, s, t);
    case Close(t) => CloseKeepsFlight(files, s, t);
    case Pop(w, t) => PopKeepsFlight(files, s, w, t);
    case Notify(w) => NotifyKeepsFlight(files, s, w);
    case Return(w) => ReturnKeepsFlight(files, s, w);
    case Acquire(w) => AcquireKeepsFlight(files, s, w);
    case Finish(w) => FinishKeepsFlight(files, s, w);
  }

  lemma {:induction false} RunKeepsFlight(files: nat, s: State, acts: seq<Action>, r: State)
    requires ClientInv(files, s) && Run(s, acts, r)
    ensures ClientInv(files, r)
    decreases |acts|
  {
    if acts != [] {
      StepKeepsInv(s, acts[0]);
      StepKeepsFlight(files, s, acts[0]);
      RunKeepsFlight(files, Apply(s, acts[0]), acts[1..], r);
    }
  }

  lemma {:induction false} SumDifference(xs: seq<int>, ys: seq<int>, zs: seq<int>)
    requires |xs| == |ys| == |zs| && forall i | 0 <= i < |xs| :: zs[i] == xs[i] - ys[i]
    ensures Sum(zs) == Sum(xs) - Sum(ys)
  {
    if xs != [] {
      SumDifference(xs[..|xs| - 1], ys[..|ys| - 1], zs[..|zs| - 1]);
    }
  }

  lemma {:induction false} IdleCount(workers: seq<Worker>)
    requires forall w | 0 <= w < |workers| :: workers[w] == Idle
    ensures multiset(workers)[Idle] == |workers|
  {
    if workers != [] {
      assert workers == workers[..|workers| - 1] + [Idle];
      IdleCount(workers[..|workers| - 1]);
    }
  }

  /** Because analyses have the higher priority, queued analyses, running analyses and
      running loads that have not yet notified never exceed the number of workers by more
      than the pushes made by the closing updates of analyses. */
  lemma InFlightBound(files: nat, serial: bool, workers: nat, acts: seq<Action>, s: State)
    requires Reaches(ClientProgram(files), serial, workers, acts, s)
    ensures Sum(Weights(files, s)) <= workers + Sum(ClosingWeights(files, s))
  {
    var init := Initial(ClientProgram(files), serial, workers);
    InitialInv(ClientProgram(files), serial, workers);
    IdleCount(init.workers);
    RunKeepsFlight(files, init, acts, s);
    RunKeepsSetup(init, acts, s);
    SumDifference(Weights(files, s), ClosingWeights(files, s), LateWeights(files, s));
  }

  // ---- the bound in terms of the queue and the workers

  /** Queued analyses, task by task. */
  ghost function Queued(files: nat, s: State): (qs: seq<int>)
    ensures |qs| == |s.tasks| && forall t | 0 <= t < |qs| :: qs[t] == if files <= t then s.queue[t] else 0
  {
    seq(|s.tasks|, t requires 0 <= t < |s.tasks| => if files <= t then s.queue[t] else 0)
  }

  /** The task holds a syntax tree while it is in post_run: any analysis does, and a load
      until it has notified. */
  predicate HoldsInPostRun(files: nat, s: State, t: nat) {
    files <= t || (t < |s.tasks| && !(s.tasks[t].lock.Some? && s.tasks[t].lock.value > 0))
  }

  /** The worker runs an analysis, or a load that has not yet notified. */
  function InHandOf(files: nat, s: State, w: Worker): int {
    match w
    case Idle => 0
    case Calling(_) => 1
    case Returned(_) => 1
    case Notifying(t) => if HoldsInPostRun(files, s, t) then 1 else 0
  }

  ghost function InHand(files: nat, s: State, workers: seq<Worker>): (hs: seq<int>)
    ensures |hs| == |workers| && forall w | 0 <= w < |hs| :: hs[w] == InHandOf(files, s, workers[w])
  {
    seq(|workers|, w requires 0 <= w < |workers| => InHandOf(files, s, workers[w]))
  }

  /** The same, task by task. */
  ghost function InHands(files: nat, s: State, workers: seq<Worker>): (hs: seq<int>)
    ensures |hs| == |s.tasks|
    ensures forall t | 0 <= t < |hs| ::
              hs[t] == multiset(workers)[Calling(t)] + multiset(workers)[Returned(t)]
                       + if HoldsInPostRun(files, s, t) then multiset(workers)[Notifying(t)] else 0
  {
    seq(|s.tasks|, t requires 0 <= t < |s.tasks| =>
      multiset(workers)[Calling(t)] + multiset(workers)[Returned(t)]
      + if HoldsInPostRun(files, s, t) then multiset(workers)[Notifying(t)] else 0)
  }

  lemma OneMoreAt(files: nat, s: State, workers: seq<Worker>, w: Worker, t: nat)
    requires t < |s.tasks|
    ensures InHands(files, s, workers + [w])[t] ==
            InHands(files, s, workers)[t] + if HeldTask(w) == Some(t) then InHandOf(files, s, w) else 0
  {
    assert multiset(workers + [w]) == multiset(workers) + multiset{w};
  }

  lemma OneMoreWorker(files: nat, s: State, workers: seq<Worker>, w: Worker)
    requires !w.Idle? ==> w.task < |s.tasks|
    ensures Sum(InHands(files, s, workers + [w])) == Sum(InHands(files, s, workers)) + InHandOf(files, s, w)
  {
    var before, after := InHands(files, s, workers), InHands(files, s, workers + [w]);
    forall t | 0 <= t < |s.tasks|
      ensures after[t] == before[t] + if HeldTask(w) == Some(t) then InHandOf(files, s, w) else 0
    {
      OneMoreAt(files, s, workers, w, t);
    }
    if w.Idle? {
      assert after == before;
    } else {
      SumChangesAt(before, after, w.task, InHandOf(files, s, w));
    }
  }

  lemma OneMoreInHand(files: nat, s: State, workers: seq<Worker>, w: Worker)
    ensures Sum(InHand(files, s, workers + [w])) == Sum(InHand(files, s, workers)) + InHandOf(files, s, w)
  {
    assert InHand(files, s, workers + [w]) == InHand(files, s, workers) + [InHandOf(files, s, w)];
    SumAppend(InHand(files, s, workers), InHandOf(files, s, w));
  }

  lemma {:induction false} SumByTask(files: nat, s: State, workers: seq<Worker>)
    requires forall w | 0 <= w < |workers| && !workers[w].Idle? :: workers[w].task < |s.tasks|
    ensures Sum(InHands(files, s, workers)) == Sum(InHand(files, s, workers))
  {
    if workers == [] {
      SumOfZeros(InHands(files, s, workers));
    } else {
      var init, last := workers[..|workers| - 1], workers[|workers| - 1];
      assert workers == init + [last];
      SumByTask(files, s, init);
      OneMoreWorker(files, s, init, last);
      OneMoreInHand(files, s, init, last);
    }
  }

  lemma {:induction false} SumOfZeros(xs: seq<int>)
    requires forall i | 0 <= i < |xs| :: xs[i] == 0
    ensures Sum(xs) == 0
  {
    if xs != [] {
      SumOfZeros(xs[..|xs| - 1]);
    }
  }

  /** The weights count exactly what is in the queue and in the hands of the workers. */
  lemma WeightsAreInFlight(files: nat, s: State)
    requires Inv(s)
    ensures Sum(Weights(files, s)) == Sum(Queued(files, s)) + Sum(InHand(files, s, s.workers))
  {
    forall t | 0 <= t < |s.tasks|
      ensures InHands(files, s, s.workers)[t] == Weights(files, s)[t] - Queued(files, s)[t]
    {
      assert TaskOk(s, t);
    }
    SumDifference(Weights(files, s), Queued(files, s), InHands(files, s, s.workers));
    SumByTask(files, s, s.workers);
  }

  /** Queued analyses, running analyses and running loads that have not yet notified never
      exceed the workers by more than the pushes made by closing updates. */
  lemma QueueAndWorkersBound(files: nat, serial: bool, workers: nat, acts: seq<Action>, s: State)
    requires Reaches(ClientProgram(files), serial, workers, acts, s)
    ensures Sum(Queued(files, s)) + Sum(InHand(files, s, s.workers)) <= workers + Sum(ClosingWeights(files, s))
  {
    InFlightBound(files, serial, workers, acts, s);
    ClientSetup(files, serial, workers, acts, s);
    WeightsAreInFlight(files, s);
  }
}
