/** What every lock-held section keeps, on every interleaving and every dependency
    graph, repeated runs of one task included. */
module SchedulerInvariant {
  import opened Sums
  import opened SchedulerModel

  /** How often slot number `slot` of the task k has been notified. */
  function Deliveries(k: Task, slot: nat): nat {
    k.dones + if k.lock.Some? && slot < k.lock.value then 1 else 0
  }

  ghost predicate InRange(s: State, t: nat) {
    t < |s.tasks| <= |s.prog| && |s.tasks[t].fates| <= |s.prog[t].pres|
  }

  ghost predicate Shape(s: State) {
    && WellFormed(s.prog) && |s.tasks| <= |s.prog|
    && (forall t | 0 <= t < |s.tasks| :: |s.tasks[t].fates| <= |s.prog[t].pres|)
    && (forall t | 0 <= t < |s.tasks| :: s.tasks[t].closed ==> |s.tasks[t].fates| == |s.prog[t].pres|)
    && (forall t | t in s.queue :: t < |s.tasks|)
    && (forall w | 0 <= w < |s.workers| && !s.workers[w].Idle? :: s.workers[w].task < |s.tasks|)
  }

  /** What entry e of the registration of t contributes to the finished counter of t. */
  ghost function Credit(s: State, t: nat, e: nat): int
    requires InRange(s, t) && e < |s.tasks[t].fates|
  {
    var p := s.prog[t].pres[e];
    match s.tasks[t].fates[e]
    case Tallied => if s.tasks[t].closed then 1 else 0
    case Stored(slot) => if p < |s.tasks| then Deliveries(s.tasks[p], slot) else 0
  }

  ghost function Credits(s: State, t: nat): (cs: seq<int>)
    requires InRange(s, t)
    ensures |cs| == |s.tasks[t].fates|
    ensures forall e | 0 <= e < |cs| :: cs[e] == Credit(s, t, e)
  {
    seq(|s.tasks[t].fates|, e requires 0 <= e < |s.tasks[t].fates| => Credit(s, t, e))
  }

  ghost function CountTallied(fates: seq<Fate>): nat {
    if fates == [] then 0
    else CountTallied(fates[..|fates| - 1]) + if fates[|fates| - 1].Tallied? then 1 else 0
  }

  /** Entry e of t is accounted for: its pre-task was finished, or its slot is there. */
  ghost predicate EntryOk(s: State, t: nat, e: nat)
    requires InRange(s, t) && e < |s.tasks[t].fates|
  {
    var p := s.prog[t].pres[e];
    p < |s.tasks| &&
    match s.tasks[t].fates[e]
    case Tallied => s.tasks[p].dones > 0
    case Stored(slot) => slot < |s.tasks[p].posts| && s.tasks[p].posts[slot] == Slot(t, e)
  }

  /** Slot i of p was filled by exactly the entry it names. */
  ghost predicate SlotOk(s: State, p: nat, i: nat)
    requires p < |s.tasks| && i < |s.tasks[p].posts|
  {
    var Slot(t, e) := s.tasks[p].posts[i];
    InRange(s, t) && e < |s.tasks[t].fates| && s.prog[t].pres[e] == p && s.tasks[t].fates[e] == Stored(i)
  }

  ghost predicate SlotsOk(s: State)
    requires Shape(s)
  {
    && (forall t, e | 0 <= t < |s.tasks| && 0 <= e < |s.tasks[t].fates| :: EntryOk(s, t, e))
    && (forall p, i | 0 <= p < |s.tasks| && 0 <= i < |s.tasks[p].posts| :: SlotOk(s, p, i))
  }

  /** The stages of the runs of t add up: queued, in its function, before post_run, in
      post_run, done. */
  ghost predicate CountersOk(s: State, t: nat)
    requires t < |s.tasks|
  {
    var k, m := s.tasks[t], multiset(s.workers);
    && k.pushes == k.starts + s.queue[t]
    && k.starts == k.exits + m[Calling(t)]
    && k.exits == k.locks + m[Returned(t)]
    && k.locks == k.dones + m[Notifying(t)]
    && m[Notifying(t)] == (if k.lock.Some? then 1 else 0)
    && (k.isFinished <==> k.dones > 0)
    && (k.lock.Some? ==> k.lock.value <= |k.posts|)
    && k.calls <= k.starts && (k.starts > 0 ==> k.calls > 0)
  }

  /** Conservation: the finished counter is the tally, once added, plus all deliveries. */
  ghost predicate BalanceOk(s: State, t: nat)
    requires InRange(s, t)
  {
    && s.tasks[t].finishedPre == Sum(Credits(s, t))
    && s.tasks[t].tally == CountTallied(s.tasks[t].fates)
  }

  /** How often the counter test has succeeded, in terms of the counter alone. */
  ghost predicate PushesOk(s: State, t: nat)
    requires t < |s.tasks| <= |s.prog|
  {
    var k, n := s.tasks[t], |s.prog[t].pres|;
    && (!k.closed ==>
          !k.overtaken && !k.closingPush && k.pushes == if n > 0 && k.finishedPre >= n then 1 else 0)
    && (k.closed ==>
          && (k.overtaken ==> k.pushes == 2 && n > 0 && k.tally == 0 && k.finishedPre >= n)
          && (!k.overtaken ==> k.pushes <= 1)
          && (k.finishedPre == n ==> k.pushes >= 1)
          && (k.finishedPre < n ==> k.pushes == 0)
          && (k.closingPush && !k.overtaken ==> k.pushes == 1 && (n > 0 ==> k.tally > 0)))
  }

  ghost predicate TaskOk(s: State, t: nat)
    requires InRange(s, t)
  {
    CountersOk(s, t) && BalanceOk(s, t) && PushesOk(s, t)
  }

  ghost predicate Inv(s: State) {
    && Shape(s) && SlotsOk(s)
    && (forall t | 0 <= t < |s.tasks| :: TaskOk(s, t))
  }

  // ---- lemmas on credits

  lemma CreditsFrame(s: State, r: State, t: nat)
    requires Shape(s) && SlotsOk(s) && Shape(r) && t < |s.tasks| <= |r.tasks| && r.prog == s.prog
    requires r.tasks[t].fates == s.tasks[t].fates && r.tasks[t].closed == s.tasks[t].closed
    requires forall p, i | 0 <= p < |s.tasks| && 0 <= i < |s.tasks[p].posts| ::
               Deliveries(r.tasks[p], i) == Deliveries(s.tasks[p], i)
    ensures Credits(r, t) == Credits(s, t)
  {
    forall e | 0 <= e < |s.tasks[t].fates|
      ensures Credit(r, t, e) == Credit(s, t, e)
    {
      assert EntryOk(s, t, e);
    }
  }

  /** Closing turns every tallied entry from 0 to 1. */
  lemma {:induction false} ClosingCredits(before: seq<int>, after: seq<int>, fates: seq<Fate>)
    requires |before| == |after| == |fates|
    requires forall e | 0 <= e < |fates| :: after[e] == before[e] + if fates[e].Tallied? then 1 else 0
    ensures Sum(after) == Sum(before) + CountTallied(fates)
  {
    if fates != [] {
      var last := |fates| - 1;
      ClosingCredits(before[..last], after[..last], fates[..last]);
    }
  }

  ghost predicate Extends(k: Task, l: Task) {
    k.fates <= l.fates && k.posts <= l.posts && k.dones <= l.dones
  }

  /** Entries and slots that were linked stay linked. */
  lemma LinksExtend(s: State, r: State)
    requires Shape(s) && SlotsOk(s) && Shape(r) && r.prog == s.prog && |r.tasks| == |s.tasks|
    requires forall u | 0 <= u < |s.tasks| :: Extends(s.tasks[u], r.tasks[u])
    ensures forall u, e | 0 <= u < |r.tasks| && 0 <= e < |r.tasks[u].fates| ::
              e < |s.tasks[u].fates| ==> EntryOk(r, u, e)
    ensures forall p, i | 0 <= p < |r.tasks| && 0 <= i < |r.tasks[p].posts| ::
              i < |s.tasks[p].posts| ==> SlotOk(r, p, i)
  {
    forall u, e | 0 <= u < |r.tasks| && 0 <= e < |r.tasks[u].fates| && e < |s.tasks[u].fates|
      ensures EntryOk(r, u, e)
    {
      assert EntryOk(s, u, e) && Extends(s.tasks[u], r.tasks[u]);
      var q := s.prog[u].pres[e];
      assert Extends(s.tasks[q], r.tasks[q]);
    }
    forall p, i | 0 <= p < |r.tasks| && 0 <= i < |r.tasks[p].posts| && i < |s.tasks[p].posts|
      ensures SlotOk(r, p, i)
    {
      assert SlotOk(s, p, i) && Extends(s.tasks[p], r.tasks[p]);
      var t := s.tasks[p].posts[i].post;
      assert Extends(s.tasks[t], r.tasks[t]);
    }
  }

  // ---- one lemma per step

  lemma CreateKeepsInv(s: State)
    requires Inv(s) && CanCreate(s)
    ensures Inv(Apply(s, Create))
  {
    var r := Apply(s, Create);
    var t := |s.tasks|;
    assert s.queue[t] == 0;
    assert multiset(s.workers)[Calling(t)] == 0;
    assert multiset(s.workers)[Returned(t)] == 0;
    assert multiset(s.workers)[Notifying(t)] == 0;
    forall u, e | 0 <= u < |r.tasks| && 0 <= e < |r.tasks[u].fates| ensures EntryOk(r, u, e) {
      assert EntryOk(s, u, e);
    }
    forall p, i | 0 <= p < |r.tasks| && 0 <= i < |r.tasks[p].posts| ensures SlotOk(r, p, i) {
      assert SlotOk(s, p, i);
    }
    forall u | 0 <= u < |r.tasks| ensures TaskOk(r, u) {
      if u < t {
        assert TaskOk(s, u);
        CreditsFrame(s, r, u);
      } else {
        assert Credits(r, u) == [];
      }
    }
  }

  /** The two task states differ only in how far the runs of the task have come. */
  ghost predicate SameRegistration(k: Task, l: Task) {
    && l.fates == k.fates && l.posts == k.posts && l.closed == k.closed && l.tally == k.tally
    && l.finishedPre == k.finishedPre && l.pushes == k.pushes && l.dones >= k.dones
    && l.overtaken == k.overtaken && l.closingPush == k.closingPush
    && forall i | 0 <= i < |k.posts| :: Deliveries(l, i) == Deliveries(k, i)
  }

  lemma QuietStepKeepsInv(s: State, r: State)
    requires Inv(s) && Shape(r) && r.prog == s.prog && |r.tasks| == |s.tasks|
    requires forall u | 0 <= u < |s.tasks| :: SameRegistration(s.tasks[u], r.tasks[u])
    requires forall u | 0 <= u < |s.tasks| :: CountersOk(r, u)
    ensures Inv(r)
  {
    forall u | 0 <= u < |s.tasks|
      ensures Extends(s.tasks[u], r.tasks[u])
      ensures r.tasks[u].posts == s.tasks[u].posts && r.tasks[u].fates == s.tasks[u].fates
    {
      assert SameRegistration(s.tasks[u], r.tasks[u]);
    }
    LinksExtend(s, r);
    forall u | 0 <= u < |r.tasks| ensures TaskOk(r, u) {
      assert SameRegistration(s.tasks[u], r.tasks[u]);
      assert TaskOk(s, u);
      CreditsFrame(s, r, u);
    }
  }

  /** One worker moved one run of the task t one stage on; everything else is as it was. */
  ghost predicate MovesOn(s: State, r: State, w: nat, t: nat) {
    && t < |s.tasks| && w < |s.workers| && |r.tasks| == |s.tasks| && |r.workers| == |s.workers|
    && r == s.(tasks := s.tasks[t := r.tasks[t]], queue := r.queue, workers := s.workers[w := r.workers[w]])
    && HeldTask(s.workers[w]) in {None, Some(t)} && HeldTask(r.workers[w]) in {None, Some(t)}
    && r.queue <= s.queue && forall u | u != t :: r.queue[u] == s.queue[u]
  }

  lemma OthersKeepCounters(s: State, r: State, w: nat, t: nat, u: nat)
    requires MovesOn(s, r, w, t) && u < |s.tasks| && u != t && CountersOk(s, u)
    ensures CountersOk(r, u) && SameRegistration(s.tasks[u], r.tasks[u])
  {
    ReplacedWorker(s.workers, w, r.workers[w]);
    assert r.tasks[u] == s.tasks[u];
  }

  /** Such a step keeps the invariant if the counters of t add up. */
  lemma StageStepKeepsInv(s: State, r: State, w: nat, t: nat)
    requires Inv(s) && MovesOn(s, r, w, t)
    requires SameRegistration(s.tasks[t], r.tasks[t]) && CountersOk(r, t)
    ensures Inv(r)
  {
    assert forall u | u in r.queue :: u in s.queue;
    forall u | 0 <= u < |s.tasks| ensures CountersOk(r, u) && SameRegistration(s.tasks[u], r.tasks[u]) {
      if u != t {
        assert TaskOk(s, u);
        OthersKeepCounters(s, r, w, t, u);
      }
    }
    QuietStepKeepsInv(s, r);
  }

  lemma ReplacedWorker(workers: seq<Worker>, w: nat, now: Worker)
    requires w < |workers|
    ensures multiset(workers[w := now]) == multiset(workers) - multiset{workers[w]} + multiset{now}
  {
  }

  lemma PopKeepsCounters(s: State, w: nat, t: nat)
    requires CanPop(s, w, t) && CountersOk(s, t)
    ensures CountersOk(PopTask(s, w, t), t)
  {
    ReplacedWorker(s.workers, w, Calling(t));
  }

  lemma PopKeepsInv(s: State, w: nat, t: nat)
    requires Inv(s) && CanPop(s, w, t)
    ensures Inv(PopTask(s, w, t))
  {
    assert TaskOk(s, t);
    PopKeepsCounters(s, w, t);
    StageStepKeepsInv(s, PopTask(s, w, t), w, t);
  }

  lemma ReturnKeepsInv(s: State, w: nat)
    requires Inv(s) && CanReturn(s, w)
    ensures Inv(ReturnFromCall(s, w))
  {
    var r, t := ReturnFromCall(s, w), s.workers[w].task;
    assert TaskOk(s, t) && s.workers[w] in s.workers;
    assert multiset(r.workers) == multiset(s.workers) - multiset{Calling(t)} + multiset{Returned(t)};
    StageStepKeepsInv(s, r, w, t);
  }

  lemma AcquireKeepsInv(s: State, w: nat)
    requires Inv(s) && CanAcquire(s, w)
    ensures Inv(AcquireLock(s, w))
  {
    var r, t := AcquireLock(s, w), s.workers[w].task;
    assert TaskOk(s, t) && s.workers[w] in s.workers;
    assert multiset(r.workers) == multiset(s.workers) - multiset{Returned(t)} + multiset{Notifying(t)};
    StageStepKeepsInv(s, r, w, t);
  }

  lemma FinishKeepsInv(s: State, w: nat)
    requires Inv(s) && CanFinish(s, w)
    ensures Inv(FinishRun(s, w))
  {
    var r, t := FinishRun(s, w), s.workers[w].task;
    assert TaskOk(s, t) && s.workers[w] in s.workers;
    assert multiset(r.workers) == multiset(s.workers) - multiset{Notifying(t)} + multiset{Idle};
    StageStepKeepsInv(s, r, w, t);
  }

  /** Balance and pushes depend only on the registration, the counter and the credits. */
  lemma SameCounterTaskOk(s: State, r: State, u: nat)
    requires InRange(s, u) && InRange(r, u) && r.prog == s.prog && TaskOk(s, u)
    requires CountersOk(r, u) && Credits(r, u) == Credits(s, u)
    requires var k, l := s.tasks[u], r.tasks[u];
             && l.fates == k.fates && l.closed == k.closed && l.tally == k.tally
             && l.finishedPre == k.finishedPre && l.pushes == k.pushes
             && l.overtaken == k.overtaken && l.closingPush == k.closingPush
    ensures TaskOk(r, u)
  {
  }

  /** A fresh entry contributes nothing yet. */
  lemma InsertCredits(s: State, r: State, t: nat)
    requires Shape(s) && SlotsOk(s) && InRange(r, t) && |s.tasks| == |r.tasks| && r.prog == s.prog
    requires |r.tasks[t].fates| == |s.tasks[t].fates| + 1 && s.tasks[t].fates <= r.tasks[t].fates
    requires !s.tasks[t].closed && !r.tasks[t].closed
    requires forall p, i | 0 <= p < |s.tasks| && 0 <= i < |s.tasks[p].posts| ::
               Deliveries(r.tasks[p], i) == Deliveries(s.tasks[p], i)
    requires Credit(r, t, |s.tasks[t].fates|) == 0
    ensures Credits(r, t) == Credits(s, t) + [0]
  {
    var fates := s.tasks[t].fates;
    forall e | 0 <= e < |fates| ensures Credit(r, t, e) == Credit(s, t, e) {
      assert EntryOk(s, t, e);
      assert r.tasks[t].fates[e] == fates[e];
    }
  }

  lemma InsertBalance(s: State, r: State, t: nat, fate: Fate)
    requires InRange(s, t) && InRange(r, t) && BalanceOk(s, t)
    requires Credits(r, t) == Credits(s, t) + [0]
    requires r.tasks[t].fates == s.tasks[t].fates + [fate]
    requires r.tasks[t].finishedPre == s.tasks[t].finishedPre
    requires r.tasks[t].tally == s.tasks[t].tally + if fate.Tallied? then 1 else 0
    ensures BalanceOk(r, t)
  {
    SumAppend(Credits(s, t), 0);
    assert (s.tasks[t].fates + [fate])[..|s.tasks[t].fates|] == s.tasks[t].fates;
  }

  /** What registering the next entry of t with the pre-task q changes. */
  ghost predicate Inserted(s: State, r: State, t: nat, q: nat, fate: Fate)
    requires q < |s.tasks| && t < |s.tasks|
  {
    var k, l := s.tasks[t], s.tasks[q];
    && q != t && |r.tasks| == |s.tasks| && r.prog == s.prog && r.workers == s.workers && r.queue == s.queue
    && r.tasks[t] == k.(fates := k.fates + [fate], tally := if fate.Tallied? then k.tally + 1 else k.tally)
    && r.tasks[q] == l.(posts := if fate.Tallied? then l.posts else l.posts + [Slot(t, |k.fates|)])
    && (forall u | 0 <= u < |s.tasks| && u != q && u != t :: r.tasks[u] == s.tasks[u])
  }

  lemma InsertShape(s: State, r: State, t: nat, q: nat, fate: Fate)
    requires Inv(s) && CanInsert(s, t) && q == s.prog[t].pres[|s.tasks[t].fates|]
    requires fate == FateAt(s, q)
    requires Inserted(s, r, t, q, fate)
    ensures Shape(r) && forall u | 0 <= u < |s.tasks| :: Extends(s.tasks[u], r.tasks[u])
  {
  }

  lemma NewLinks(s: State, r: State, t: nat, q: nat, fate: Fate)
    requires Inv(s) && CanInsert(s, t) && q == s.prog[t].pres[|s.tasks[t].fates|]
    requires fate == FateAt(s, q)
    requires Inserted(s, r, t, q, fate)
    requires Shape(r)
    ensures EntryOk(r, t, |s.tasks[t].fates|)
    ensures fate.Stored? ==> SlotOk(r, q, |s.tasks[q].posts|)
  {
    assert TaskOk(s, q);
  }

  lemma InsertLinks(s: State, r: State, t: nat, q: nat, fate: Fate)
    requires Inv(s) && CanInsert(s, t) && q == s.prog[t].pres[|s.tasks[t].fates|]
    requires fate == FateAt(s, q)
    requires Inserted(s, r, t, q, fate)
    ensures Shape(r) && SlotsOk(r)
  {
    InsertShape(s, r, t, q, fate);
    LinksExtend(s, r);
    NewLinks(s, r, t, q, fate);
    forall u, e | 0 <= u < |r.tasks| && 0 <= e < |r.tasks[u].fates| ensures EntryOk(r, u, e) {
      assert e < |s.tasks[u].fates| || (u == t && e == |s.tasks[t].fates|);
    }
    forall p, i | 0 <= p < |r.tasks| && 0 <= i < |r.tasks[p].posts| ensures SlotOk(r, p, i) {
      assert i < |s.tasks[p].posts| || (p == q && i == |s.tasks[q].posts|);
    }
  }

  lemma InsertedTaskOk(s: State, r: State, t: nat, q: nat, fate: Fate)
    requires Inv(s) && CanInsert(s, t) && q == s.prog[t].pres[|s.tasks[t].fates|]
    requires fate == FateAt(s, q)
    requires Inserted(s, r, t, q, fate) && Shape(r)
    ensures TaskOk(r, t)
  {
    assert TaskOk(s, t) && TaskOk(s, q);
    InsertCredits(s, r, t);
    InsertBalance(s, r, t, fate);
  }

  lemma InsertOthersOk(s: State, r: State, t: nat, q: nat, fate: Fate, u: nat)
    requires Inv(s) && q < |s.tasks| && t < |s.tasks| && u < |s.tasks| && u != t && s.tasks[q].lock.None?
    requires Inserted(s, r, t, q, fate) && Shape(r)
    ensures TaskOk(r, u)
  {
    assert TaskOk(s, u);
    CreditsFrame(s, r, u);
    SameCounterTaskOk(s, r, u);
  }

  lemma InsertKeepsInv(s: State, t: nat)
    requires Inv(s) && CanInsert(s, t)
    ensures Inv(InsertPost(s, t))
  {
    var r := InsertPost(s, t);
    var q := s.prog[t].pres[|s.tasks[t].fates|];
    var fate := FateAt(s, q);
    InsertLinks(s, r, t, q, fate);
    forall u | 0 <= u < |r.tasks| ensures TaskOk(r, u) {
      if u == t {
        InsertedTaskOk(s, r, t, q, fate);
      } else {
        InsertOthersOk(s, r, t, q, fate, u);
      }
    }
  }

  /** What the closing update of t changes. */
  ghost predicate Closed(s: State, r: State, t: nat)
    requires t < |s.tasks| <= |s.prog|
  {
    var k, n := s.tasks[t], |s.prog[t].pres|;
    var full := k.finishedPre + k.tally == n;
    && |r.tasks| == |s.tasks| && r.prog == s.prog && r.workers == s.workers
    && r.queue == (if full then s.queue + multiset{t} else s.queue)
    && r.tasks[t] == k.(closed := true, overtaken := n > 0 && k.tally == 0 && k.finishedPre == n,
                        closingPush := full, finishedPre := k.finishedPre + k.tally,
                        pushes := if full then k.pushes + 1 else k.pushes)
    && forall u | 0 <= u < |s.tasks| && u != t :: r.tasks[u] == s.tasks[u]
  }

  lemma CloseCredits(s: State, r: State, t: nat)
    requires Shape(s) && SlotsOk(s) && InRange(r, t) && |s.tasks| == |r.tasks| && r.prog == s.prog && t < |s.tasks|
    requires r.tasks[t].fates == s.tasks[t].fates && !s.tasks[t].closed && r.tasks[t].closed
    requires forall p | 0 <= p < |s.tasks| :: r.tasks[p].dones == s.tasks[p].dones && r.tasks[p].lock == s.tasks[p].lock
    ensures Sum(Credits(r, t)) == Sum(Credits(s, t)) + CountTallied(s.tasks[t].fates)
  {
    var fates := s.tasks[t].fates;
    forall e | 0 <= e < |fates|
      ensures Credit(r, t, e) == Credit(s, t, e) + if fates[e].Tallied? then 1 else 0
    {
      assert EntryOk(s, t, e);
    }
    ClosingCredits(Credits(s, t), Credits(r, t), fates);
  }

  lemma ClosedTaskOk(s: State, r: State, t: nat)
    requires Inv(s) && CanClose(s, t) && Closed(s, r, t)
    ensures InRange(r, t) && TaskOk(r, t)
  {
    assert TaskOk(s, t);
    CloseCredits(s, r, t);
    if |s.tasks[t].fates| == 0 {
      assert Credits(s, t) == [];
    }
  }

  lemma CloseKeepsInv(s: State, t: nat)
    requires Inv(s) && CanClose(s, t)
    ensures Inv(CloseRegistration(s, t))
  {
    var r := CloseRegistration(s, t);
    assert Closed(s, r, t);
    ClosedKeepsInv(s, r, t);
  }

  lemma ClosedLinks(s: State, r: State, t: nat)
    requires Inv(s) && CanClose(s, t) && Closed(s, r, t)
    ensures Shape(r) && SlotsOk(r)
  {
    LinksExtend(s, r);
  }

  lemma ClosedKeepsInv(s: State, r: State, t: nat)
    requires Inv(s) && CanClose(s, t) && Closed(s, r, t)
    ensures Inv(r)
  {
    ClosedLinks(s, r, t);
    ClosedTaskOk(s, r, t);
    forall u | 0 <= u < |r.tasks| ensures TaskOk(r, u) {
      if u != t {
        assert TaskOk(s, u);
        CreditsFrame(s, r, u);
        SameCounterTaskOk(s, r, u);
      }
    }
  }

  /** What notifying slot j of q, which belongs to t, changes. */
  ghost predicate Notified(s: State, r: State, q: nat, j: nat, t: nat)
    requires q < |s.tasks| && t < |s.tasks| <= |s.prog|
  {
    var k := s.tasks[t].(finishedPre := s.tasks[t].finishedPre + 1);
    var full := k.finishedPre == |s.prog[t].pres|;
    && t != q && |r.tasks| == |s.tasks| && r.prog == s.prog && r.workers == s.workers
    && r.queue == (if full then s.queue + multiset{t} else s.queue)
    && r.tasks[q] == s.tasks[q].(lock := Some(j + 1))
    && r.tasks[t] == (if full then k.(pushes := k.pushes + 1) else k)
    && forall u | 0 <= u < |s.tasks| && u != q && u != t :: r.tasks[u] == s.tasks[u]
  }

  lemma NotifyEffect(s: State, w: nat)
    requires CanNotify(s, w)
    ensures var q := s.workers[w].task;
            Notified(s, NotifyPost(s, w), q, s.tasks[q].lock.value, NextPost(s, q))
  {
  }

  /** The notification raises exactly one credit of exactly one task. */
  lemma NotifyCredits(s: State, r: State, q: nat, j: nat, t: nat, entry: nat, u: nat)
    requires Shape(s) && SlotsOk(s) && q < |s.tasks| && t < |s.tasks| && u < |s.tasks|
    requires s.tasks[q].lock == Some(j) && j < |s.tasks[q].posts| && s.tasks[q].posts[j] == Slot(t, entry)
    requires Notified(s, r, q, j, t)
    ensures InRange(r, u) && entry < |s.tasks[t].fates|
    ensures Credits(r, u) == if u == t then Credits(s, u)[entry := Credits(s, u)[entry] + 1] else Credits(s, u)
  {
    assert SlotOk(s, q, j);
    forall e | 0 <= e < |s.tasks[u].fates|
      ensures Credit(r, u, e) == Credit(s, u, e) + if u == t && e == entry then 1 else 0
    {
      NotifyCredit(s, r, q, j, t, entry, u, e);
    }
  }

  lemma NotifyCredit(s: State, r: State, q: nat, j: nat, t: nat, entry: nat, u: nat, e: nat)
    requires Shape(s) && SlotsOk(s) && q < |s.tasks| && t < |s.tasks| && u < |s.tasks| && e < |s.tasks[u].fates|
    requires s.tasks[q].lock == Some(j) && j < |s.tasks[q].posts| && s.tasks[q].posts[j] == Slot(t, entry)
    requires Notified(s, r, q, j, t)
    ensures InRange(r, u) && e < |r.tasks[u].fates|
    ensures Credit(r, u, e) == Credit(s, u, e) + if u == t && e == entry then 1 else 0
  {
    assert SlotOk(s, q, j) && EntryOk(s, u, e);
  }

  /** The notified counter goes up by one, and the push follows the equality test. */
  lemma NotifiedTaskOk(s: State, r: State, q: nat, j: nat, t: nat, entry: nat)
    requires InRange(s, t) && InRange(r, t) && TaskOk(s, t) && q < |s.tasks| && entry < |s.tasks[t].fates|
    requires Notified(s, r, q, j, t)
    requires Credits(r, t) == Credits(s, t)[entry := Credits(s, t)[entry] + 1]
    ensures TaskOk(r, t)
  {
    SumUpdate(Credits(s, t), entry, Credits(s, t)[entry] + 1);
  }

  lemma NotifiedItselfOk(s: State, r: State, q: nat, j: nat, t: nat, entry: nat)
    requires Shape(s) && SlotsOk(s) && q < |s.tasks| && t < |s.tasks| && TaskOk(s, t)
    requires s.tasks[q].lock == Some(j) && j < |s.tasks[q].posts| && s.tasks[q].posts[j] == Slot(t, entry)
    requires Notified(s, r, q, j, t)
    ensures InRange(r, t) && TaskOk(r, t)
  {
    NotifyCredits(s, r, q, j, t, entry, t);
    NotifiedTaskOk(s, r, q, j, t, entry);
  }

  lemma OthersNotNotified(s: State, r: State, q: nat, j: nat, t: nat, entry: nat, u: nat)
    requires Shape(s) && SlotsOk(s) && q < |s.tasks| && t < |s.tasks| && u < |s.tasks| && u != t && TaskOk(s, u)
    requires s.tasks[q].lock == Some(j) && j < |s.tasks[q].posts| && s.tasks[q].posts[j] == Slot(t, entry)
    requires Notified(s, r, q, j, t)
    ensures InRange(r, u) && TaskOk(r, u)
  {
    NotifyCredits(s, r, q, j, t, entry, u);
    SameCounterTaskOk(s, r, u);
  }

  lemma NotifiedKeepsInv(s: State, r: State, q: nat, j: nat, t: nat, entry: nat)
    requires Inv(s) && q < |s.tasks| && t < |s.tasks|
    requires s.tasks[q].lock == Some(j) && j < |s.tasks[q].posts| && s.tasks[q].posts[j] == Slot(t, entry)
    requires Notified(s, r, q, j, t)
    ensures Inv(r)
  {
    assert Shape(r);
    LinksExtend(s, r);
    forall u | 0 <= u < |r.tasks| ensures TaskOk(r, u) {
      assert TaskOk(s, u);
      if u == t {
        NotifiedItselfOk(s, r, q, j, t, entry);
      } else {
        OthersNotNotified(s, r, q, j, t, entry, u);
      }
    }
  }

  lemma NotifyKeepsInv(s: State, w: nat)
    requires Inv(s) && CanNotify(s, w)
    ensures Inv(NotifyPost(s, w))
  {
    var q := s.workers[w].task;
    var j := s.tasks[q].lock.value;
    var Slot(t, entry) := s.tasks[q].posts[j];
    NotifiedKeepsInv(s, NotifyPost(s, w), q, j, t, entry);
  }

  lemma StepKeepsInv(s: State, a: Action)
    requires Inv(s) && Enabled(s, a)
    ensures Inv(Apply(s, a))
  {
    match a
    case Create => CreateKeepsInv(s);
    case Insert(t) => InsertKeepsInv(s, t);
    case Close(t) => CloseKeepsInv(s, t);
    case Pop(w, t) => PopKeepsInv(s, w, t);
    case Return(w) => ReturnKeepsInv(s, w);
    case Acquire(w) => AcquireKeepsInv(s, w);
    case Notify(w) => NotifyKeepsInv(s, w);
    case Finish(w) => FinishKeepsInv(s, w);
  }

  lemma {:induction false} RunKeepsInv(s: State, acts: seq<Action>, r: State)
    requires Inv(s) && Run(s, acts, r)
    ensures Inv(r)
    decreases |acts|
  {
    if acts != [] {
      StepKeepsInv(s, acts[0]);
      RunKeepsInv(Apply(s, acts[0]), acts[1..], r);
    }
  }

  lemma InitialInv(prog: seq<TaskSpec>, serial: bool, workers: nat)
    requires WellFormed(prog)
    ensures Inv(Initial(prog, serial, workers))
  {
  }
}
