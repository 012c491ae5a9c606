/** The dependency-counting scheduler as a state machine whose steps are its
    lock-held sections. A program is the list of tasks that will be created; task
    ids are list positions, as the id counter hands them out. */
module SchedulerModel {
  datatype Option<+T> = None | Some(value: T)

  /** What a task is created with: its priority, its pre-tasks, and the tasks its
      function waits for before it can return. */
  datatype TaskSpec = TaskSpec(priority: nat, pres: seq<nat>, waits: set<nat>)

  /** What registering one pre-task entry led to: counted as already finished, or
      stored in a notification slot of the pre-task. */
  datatype Fate = Tallied | Stored(slot: nat)

  /** A notification slot: the task to notify and the entry that filled the slot. */
  datatype Slot = Slot(post: nat, entry: nat)

  datatype Task = Task(
    finishedPre: nat,     // m_finished_pre_cont
    isFinished: bool,     // m_is_finished
    posts: seq<Slot>,     // m_post_tasks
    lock: Option<nat>,    // Some(j): m_mutex is held by post_run, j posts are notified
    fates: seq<Fate>,     // one per processed entry of the registration loop
    tally: nat,           // finished_pre
    closed: bool,         // the closing update of the registration has run
    // history
    overtaken: bool,      // the counter had its goal before a closing update that added 0
    closingPush: bool,    // the closing update pushed the task
    pushes: nat, starts: nat, calls: nat, exits: nat, locks: nat, dones: nat)

  datatype Worker = Idle | Calling(task: nat) | Returned(task: nat) | Notifying(task: nat)

  datatype State = State(
    prog: seq<TaskSpec>,
    serial: bool,         // one thread registers the tasks, one after the other
    tasks: seq<Task>,     // the created tasks, a prefix of the program
    queue: multiset<nat>,
    workers: seq<Worker>)

  datatype Action =
    | Create
    | Insert(task: nat)
    | Close(task: nat)
    | Pop(worker: nat, task: nat)
    | Return(worker: nat)
    | Acquire(worker: nat)
    | Notify(worker: nat)
    | Finish(worker: nat)

  const NEW_TASK := Task(0, false, [], None, [], 0, false, false, false, 0, 0, 0, 0, 0, 0)

  /** Pre-tasks exist before the tasks that name them. */
  ghost predicate WellFormed(prog: seq<TaskSpec>) {
    forall t, k | 0 <= t < |prog| && 0 <= k < |prog[t].pres| :: prog[t].pres[k] < t
  }

  /** A function waits only for pre-tasks of its own task. */
  ghost predicate WaitsArePres(prog: seq<TaskSpec>) {
    forall t, u | 0 <= t < |prog| && u in prog[t].waits :: u in prog[t].pres
  }

  function Initial(prog: seq<TaskSpec>, serial: bool, workers: nat): State {
    State(prog, serial, [], multiset{}, seq(workers, _ => Idle))
  }

  predicate Free(s: State, t: nat) {
    t < |s.tasks| && s.tasks[t].lock.None?
  }

  /** Task::wait on t would return now. */
  predicate CanWait(s: State, t: nat) {
    Free(s, t) && s.tasks[t].isFinished
  }

  predicate TopOfQueue(s: State, t: nat) {
    t in s.queue && t < |s.prog| &&
    forall u | u in s.queue :: u < |s.prog| ==> s.prog[u].priority <= s.prog[t].priority
  }

  function HeldTask(w: Worker): Option<nat> {
    if w.Idle? then None else Some(w.task)
  }

  /** The post that a worker inside post_run notifies next. */
  predicate HasNextPost(s: State, p: nat) {
    p < |s.tasks| && s.tasks[p].lock.Some? && s.tasks[p].lock.value < |s.tasks[p].posts|
  }

  function NextPost(s: State, p: nat): nat
    requires HasNextPost(s, p)
  {
    s.tasks[p].posts[s.tasks[p].lock.value].post
  }

  /** Task::update_finished_pre_count, with the lock of t taken and released. */
  function UpdateFinishedPreCount(s: State, t: nat, count: nat): State
    requires t < |s.tasks| <= |s.prog|
  {
    var k := s.tasks[t].(finishedPre := s.tasks[t].finishedPre + count);
    if k.finishedPre == |s.prog[t].pres| then
      s.(tasks := s.tasks[t := k.(pushes := k.pushes + 1)], queue := s.queue + multiset{t})
    else
      s.(tasks := s.tasks[t := k])
  }

  // ---- registration

  predicate CanCreate(s: State) {
    |s.tasks| < |s.prog| && (s.serial && s.tasks != [] ==> s.tasks[|s.tasks| - 1].closed)
  }

  predicate CanInsert(s: State, t: nat) {
    t < |s.tasks| <= |s.prog| && |s.tasks[t].fates| < |s.prog[t].pres| &&
    Free(s, s.prog[t].pres[|s.tasks[t].fates|])
  }

  /** What the pre-task p answers when an entry is registered with it. */
  function FateAt(s: State, p: nat): Fate
    requires p < |s.tasks|
  {
    if s.tasks[p].isFinished then Tallied else Stored(|s.tasks[p].posts|)
  }

  /** Task::insert_post on the next pre-task of t, called by the registration of t. */
  function InsertPost(s: State, t: nat): State
    requires CanInsert(s, t)
  {
    var entry := |s.tasks[t].fates|;
    var p := s.prog[t].pres[entry];
    if s.tasks[p].isFinished then
      var k := s.tasks[t];
      s.(tasks := s.tasks[t := k.(fates := k.fates + [Tallied], tally := k.tally + 1)])
    else
      var slot := |s.tasks[p].posts|;
      var tasks := s.tasks[p := s.tasks[p].(posts := s.tasks[p].posts + [Slot(t, entry)])];
      s.(tasks := tasks[t := tasks[t].(fates := tasks[t].fates + [Stored(slot)])])
  }

  predicate CanClose(s: State, t: nat) {
    Free(s, t) && |s.tasks| <= |s.prog| && |s.tasks[t].fates| == |s.prog[t].pres| && !s.tasks[t].closed
  }

  /** The closing update of Task::sync_with_pre_tasks; it runs even when the tally is 0. */
  function CloseRegistration(s: State, t: nat): State
    requires CanClose(s, t)
  {
    var k, n := s.tasks[t], |s.prog[t].pres|;
    var closed := k.(
      closed := true,
      overtaken := n > 0 && k.tally == 0 && k.finishedPre == n,
      closingPush := k.finishedPre + k.tally == n);
    UpdateFinishedPreCount(s.(tasks := s.tasks[t := closed]), t, k.tally)
  }

  // ---- workers

  predicate CanPop(s: State, w: nat, t: nat) {
    w < |s.workers| && s.workers[w] == Idle && t < |s.tasks| <= |s.prog| && TopOfQueue(s, t)
  }

  /** A worker takes a task of maximal priority and enters its function, or the empty
      function if an earlier run has already swapped it out. */
  function PopTask(s: State, w: nat, t: nat): State
    requires CanPop(s, w, t)
  {
    var k := s.tasks[t];
    s.(queue := s.queue - multiset{t}, workers := s.workers[w := Calling(t)],
       tasks := s.tasks[t := k.(starts := k.starts + 1, calls := if k.exits == 0 then k.calls + 1 else k.calls)])
  }

  predicate CanReturn(s: State, w: nat) {
    w < |s.workers| && s.workers[w].Calling? && s.workers[w].task < |s.tasks| <= |s.prog| &&
    forall u | u in s.prog[s.workers[w].task].waits :: u < |s.tasks| && s.tasks[u].isFinished
  }

  /** The function has returned and has been swapped for the empty one. */
  function ReturnFromCall(s: State, w: nat): State
    requires CanReturn(s, w)
  {
    var t := s.workers[w].task;
    s.(workers := s.workers[w := Returned(t)], tasks := s.tasks[t := s.tasks[t].(exits := s.tasks[t].exits + 1)])
  }

  predicate CanAcquire(s: State, w: nat) {
    w < |s.workers| && s.workers[w].Returned? && Free(s, s.workers[w].task)
  }

  /** post_run takes the lock of its own task. */
  function AcquireLock(s: State, w: nat): State
    requires CanAcquire(s, w)
  {
    var t := s.workers[w].task;
    s.(workers := s.workers[w := Notifying(t)],
       tasks := s.tasks[t := s.tasks[t].(lock := Some(0), locks := s.tasks[t].locks + 1)])
  }

  predicate CanNotify(s: State, w: nat) {
    w < |s.workers| && s.workers[w].Notifying? && |s.tasks| <= |s.prog| && HasNextPost(s, s.workers[w].task) &&
    NextPost(s, s.workers[w].task) != s.workers[w].task && Free(s, NextPost(s, s.workers[w].task))
  }

  /** post_run notifies one post, holding the lock of its own task throughout. */
  function NotifyPost(s: State, w: nat): State
    requires CanNotify(s, w)
  {
    var p := s.workers[w].task;
    var k := s.tasks[p].(lock := Some(s.tasks[p].lock.value + 1));
    UpdateFinishedPreCount(s.(tasks := s.tasks[p := k]), NextPost(s, p), 1)
  }

  predicate CanFinish(s: State, w: nat) {
    w < |s.workers| && s.workers[w].Notifying? && s.workers[w].task < |s.tasks| &&
    var k := s.tasks[s.workers[w].task]; k.lock.Some? && k.lock.value == |k.posts|
  }

  /** post_run marks its task finished and releases the lock. */
  function FinishRun(s: State, w: nat): State
    requires CanFinish(s, w)
  {
    var t := s.workers[w].task;
    s.(workers := s.workers[w := Idle],
       tasks := s.tasks[t := s.tasks[t].(lock := None, isFinished := true, dones := s.tasks[t].dones + 1)])
  }

  // ---- runs

  predicate Enabled(s: State, a: Action) {
    match a
    case Create => CanCreate(s)
    case Insert(t) => CanInsert(s, t)
    case Close(t) => CanClose(s, t)
    case Pop(w, t) => CanPop(s, w, t)
    case Return(w) => CanReturn(s, w)
    case Acquire(w) => CanAcquire(s, w)
    case Notify(w) => CanNotify(s, w)
    case Finish(w) => CanFinish(s, w)
  }

  function Apply(s: State, a: Action): State
    requires Enabled(s, a)
  {
    match a
    case Create => s.(tasks := s.tasks + [NEW_TASK])
    case Insert(t) => InsertPost(s, t)
    case Close(t) => CloseRegistration(s, t)
    case Pop(w, t) => PopTask(s, w, t)
    case Return(w) => ReturnFromCall(s, w)
    case Acquire(w) => AcquireLock(s, w)
    case Notify(w) => NotifyPost(s, w)
    case Finish(w) => FinishRun(s, w)
  }

  /** The run `acts` leads from s to r, every step being enabled when it is taken. */
  ghost predicate Run(s: State, acts: seq<Action>, r: State)
    decreases |acts|
  {
    if acts == [] then s == r
    else Enabled(s, acts[0]) && Run(Apply(s, acts[0]), acts[1..], r)
  }

  lemma {:induction false} RunAppend(s: State, acts: seq<Action>, m: State, more: seq<Action>, r: State)
    requires Run(s, acts, m) && Run(m, more, r)
    ensures Run(s, acts + more, r)
    decreases |acts|
  {
    if acts == [] {
      assert acts + more == more;
    } else {
      assert (acts + more)[0] == acts[0] && (acts + more)[1..] == acts[1..] + more;
      RunAppend(Apply(s, acts[0]), acts[1..], m, more, r);
    }
  }

  lemma RunOne(s: State, a: Action)
    requires Enabled(s, a)
    ensures Run(s, [a], Apply(s, a))
  {
    assert Run(Apply(s, a), [a][1..], Apply(s, a));
  }

  lemma RunSnoc(s: State, acts: seq<Action>, m: State, a: Action)
    requires Run(s, acts, m) && Enabled(m, a)
    ensures Run(s, acts + [a], Apply(m, a))
  {
    RunOne(m, a);
    RunAppend(s, acts, m, [a], Apply(m, a));
  }

  function Repeat(a: Action, n: nat): (acts: seq<Action>)
    ensures |acts| == n && forall i | 0 <= i < n :: acts[i] == a
  {
    seq(n, _ => a)
  }

  lemma RepeatOnceMore(a: Action, n: nat)
    ensures Repeat(a, n) + [a] == Repeat(a, n + 1)
  {
  }

  /** No step is possible. */
  ghost predicate Stuck(s: State) {
    forall a: Action :: !Enabled(s, a)
  }
}
