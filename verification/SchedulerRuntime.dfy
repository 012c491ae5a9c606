/** The scheduler as mutable objects. Every method is one lock-held section, or the loop
    of one member of Task run without interference; each is proved to take exactly the
    step of the state machine that the section stands for. A valid scheduler carries the
    run that led to it, so that every result about runs holds of its objects; the last
    lemmas of the class draw such conclusions. */
module SchedulerRuntime {
  import opened SchedulerModel
  import opened SchedulerInvariant
  import opened SchedulerTheorems
  import opened SchedulerOrder

  class TaskNode {
    const id: nat
    const priority: nat
    const preCount: nat
    var hasFn: bool
    var finishedPre: nat
    var isFinished: bool
    var posts: seq<TaskNode>
    // m_mutex is held by post_run, which has notified this many posts
    var locked: bool
    var notified: nat
    // the frame of sync_with_pre_tasks
    var cursor: nat
    var tally: nat
    var closed: bool

    /** The object is in the state k of the state machine. */
    ghost predicate Agrees(k: Task)
      reads this
    {
      && finishedPre == k.finishedPre && isFinished == k.isFinished
      && locked == k.lock.Some? && (locked ==> notified == k.lock.value)
      && cursor == |k.fates| && tally == k.tally && closed == k.closed
      && hasFn == (k.exits == 0)
      && |posts| == |k.posts| && forall i | 0 <= i < |posts| :: posts[i].id == k.posts[i].post
    }

    constructor (id: nat, priority: nat, preCount: nat)
      ensures this.id == id && this.priority == priority && this.preCount == preCount
      ensures Agrees(NEW_TASK) && posts == []
    {
      this.id, this.priority, this.preCount := id, priority, preCount;
      hasFn, finishedPre, isFinished, posts := true, 0, false, [];
      locked, notified, cursor, tally, closed := false, 0, 0, 0, false;
    }

    /** Either the post is stored, to be notified later, or this task is already finished. */
    method InsertPost(post: TaskNode) returns (stored: bool)
      requires !locked
      modifies this`posts
      ensures stored == !isFinished
      ensures posts == if stored then old(posts) + [post] else old(posts)
    {
      if !isFinished {
        posts := posts + [post];
        return true;
      }
      return false;
    }
  }

  function Ids(q: seq<TaskNode>): (ids: seq<nat>)
    ensures |ids| == |q| && forall i | 0 <= i < |q| :: ids[i] == q[i].id
  {
    seq(|q|, i requires 0 <= i < |q| => q[i].id)
  }

  lemma AppendedIds(q: seq<TaskNode>, k: TaskNode)
    ensures multiset(Ids(q + [k])) == multiset(Ids(q)) + multiset{k.id}
  {
    assert Ids(q + [k]) == Ids(q) + [k.id];
  }

  lemma {:induction false} CountedById(q: seq<TaskNode>, k: TaskNode)
    ensures multiset(q)[k] <= multiset(Ids(q))[k.id]
  {
    if q != [] {
      var init, last := q[..|q| - 1], q[|q| - 1];
      CountedById(init, k);
      AppendedIds(init, last);
      assert q == init + [last];
    }
  }

  lemma RemovedIds(q: seq<TaskNode>, i: nat)
    requires i < |q|
    ensures multiset(Ids(q[..i] + q[i + 1..])) == multiset(Ids(q)) - multiset{q[i].id}
  {
    assert Ids(q) == Ids(q)[..i] + [q[i].id] + Ids(q)[i + 1..];
    assert Ids(q[..i] + q[i + 1..]) == Ids(q)[..i] + Ids(q)[i + 1..];
  }

  lemma {:induction false} SomeMaximum(q: seq<TaskNode>) returns (i: nat)
    requires q != []
    ensures i < |q| && forall j | 0 <= j < |q| :: q[j].priority <= q[i].priority
  {
    var last := |q| - 1;
    i := last;
    if last > 0 {
      var best := SomeMaximum(q[..last]);
      assert forall j | 0 <= j < last :: q[j] == q[..last][j];
      if q[last].priority <= q[best].priority {
        i := best;
      }
    }
  }

  lemma PopEffect(s: State, w: nat, t: nat)
    requires CanPop(s, w, t)
    ensures var r, k := PopTask(s, w, t), s.tasks[t];
            && r.prog == s.prog && r.serial == s.serial && |r.tasks| == |s.tasks|
            && r.queue == s.queue - multiset{t} && r.workers == s.workers[w := Calling(t)]
            && r.tasks[t] == k.(starts := k.starts + 1, calls := r.tasks[t].calls)
            && forall u | 0 <= u < |s.tasks| && u != t :: r.tasks[u] == s.tasks[u]
  {
  }

  class Scheduler {
    const program: seq<TaskSpec>
    const serial: bool
    var nodes: seq<TaskNode>
    var queue: seq<TaskNode>
    var workers: seq<Worker>
    ghost var model: State
    ghost var history: seq<Action>  // the steps taken so far
    ghost const workerCount: nat

    ghost predicate Known(k: TaskNode)
      reads this
    {
      k.id < |nodes| && nodes[k.id] == k
    }

    ghost predicate NodeOk(i: nat)
      requires i < |nodes| <= |model.tasks| && |nodes| <= |program|
      reads this, nodes
    {
      && nodes[i].id == i && nodes[i].priority == program[i].priority && nodes[i].preCount == |program[i].pres|
      && nodes[i].Agrees(model.tasks[i])
      && forall j | 0 <= j < |nodes[i].posts| :: Known(nodes[i].posts[j])
    }

    /** The objects are in the state of the machine. */
    ghost predicate Coupled()
      reads this, nodes
    {
      && WellFormed(program)
      && model.prog == program && model.serial == serial && workers == model.workers
      && |nodes| == |model.tasks| <= |program| && (forall i | 0 <= i < |nodes| :: NodeOk(i))
      && (forall k | 0 <= k < |queue| :: Known(queue[k])) && multiset(Ids(queue)) == model.queue
    }

    /** The state of the machine is the end of a run from the start. */
    ghost predicate Traced()
      reads this
    {
      Reaches(program, serial, workerCount, history, model)
    }

    ghost predicate Valid()
      reads this, nodes
    {
      Coupled() && Traced()
    }

    /** The machine takes one step. */
    ghost method Record(a: Action)
      requires Traced() && Enabled(model, a)
      modifies this`model, this`history
      ensures Traced() && model == Apply(old(model), a) && history == old(history) + [a]
    {
      RunSnoc(Initial(program, serial, workerCount), history, model, a);
      model, history := Apply(model, a), history + [a];
    }

    /** Objects and model still agree after a step that touches at most two objects and no
        list of posts. */
    twostate lemma ObjectsAgree(at: (nat, nat))
      requires old(|nodes| == |model.tasks| <= |program| && forall i | 0 <= i < |nodes| :: NodeOk(i))
      requires nodes == old(nodes) && |model.tasks| == old(|model.tasks|) && at.0 < |nodes| && at.1 < |nodes|
      requires nodes[at.0].Agrees(model.tasks[at.0]) && nodes[at.0].posts == old(nodes[at.0].posts)
      requires nodes[at.1].Agrees(model.tasks[at.1]) && nodes[at.1].posts == old(nodes[at.1].posts)
      requires forall i | 0 <= i < |nodes| && i != at.0 && i != at.1 ::
                 unchanged(nodes[i]) && model.tasks[i] == old(model.tasks[i])
      ensures forall i | 0 <= i < |nodes| :: NodeOk(i)
    {
      forall i | 0 <= i < |nodes| ensures NodeOk(i) {
        assert old(NodeOk(i));
        assert forall j | 0 <= j < |old(nodes[i].posts)| :: old(Known(nodes[i].posts[j]));
      }
    }

    constructor (program: seq<TaskSpec>, serial: bool, workerCount: nat)
      requires WellFormed(program)
      ensures Valid() && this.program == program && this.serial == serial && this.workerCount == workerCount
      ensures model == Initial(program, serial, workerCount)
    {
      this.program, this.serial := program, serial;
      nodes, queue, workers := [], [], seq(workerCount, _ => Idle);
      this.workerCount := workerCount;
      model, history := Initial(program, serial, workerCount), [];
    }

    /** Creates the next task of the program. */
    method CreateTask() returns (node: TaskNode)
      requires Valid() && CanCreate(model)
      modifies this
      ensures Valid() && fresh(node) && nodes == old(nodes) + [node] && node.id == old(|nodes|)
      ensures model == Apply(old(model), Create)
    {
      var id := |nodes|;
      node := new TaskNode(id, program[id].priority, |program[id].pres|);
      Record(Create);
      nodes := nodes + [node];
      forall i | 0 <= i < |nodes| ensures NodeOk(i) {
        if i < id { assert old(NodeOk(i)); }
      }
      assert forall k | 0 <= k < |queue| :: old(Known(queue[k]));
    }

    /** Adds to the counter of a task and queues the task when the counter meets its goal. */
    method UpdateFinishedPreCount(node: TaskNode, count: nat)
      modifies node`finishedPre, this`queue
      ensures node.finishedPre == old(node.finishedPre) + count
      ensures queue == if node.finishedPre == node.preCount then old(queue) + [node] else old(queue)
    {
      node.finishedPre := node.finishedPre + count;
      if node.finishedPre == node.preCount {
        queue := queue + [node];
      }
    }

    /** One iteration of the registration loop of `node`. */
    method InsertInto(pre: TaskNode, node: TaskNode) returns (stored: bool)
      requires pre != node && !pre.locked
      modifies pre`posts, node`cursor, node`tally
      ensures stored == !pre.isFinished
      ensures pre.posts == if stored then old(pre.posts) + [node] else old(pre.posts)
      ensures node.cursor == old(node.cursor) + 1
      ensures node.tally == if stored then old(node.tally) else old(node.tally) + 1
    {
      stored := pre.InsertPost(node);
      if !stored {
        node.tally := node.tally + 1;
      }
      node.cursor := node.cursor + 1;
    }

    /** Different ids, different objects. */
    lemma Distinct(j: nat)
      requires Coupled() && j < |nodes|
      ensures forall i | 0 <= i < |nodes| && i != j :: nodes[i] != nodes[j]
    {
      assert NodeOk(j);
      forall i | 0 <= i < |nodes| && i != j ensures nodes[i] != nodes[j] {
        assert NodeOk(i);
      }
    }

    /** The pre-task that the next entry of t names. */
    ghost function NextPre(t: nat): nat
      requires CanInsert(model, t)
      reads this
    {
      model.prog[t].pres[|model.tasks[t].fates|]
    }

    twostate predicate SameExceptInsertion(k: TaskNode)
      reads k
    {
      && k.finishedPre == old(k.finishedPre) && k.isFinished == old(k.isFinished) && k.hasFn == old(k.hasFn)
      && k.locked == old(k.locked) && k.notified == old(k.notified) && k.closed == old(k.closed)
    }

    /** What InsertInto changed, on the objects. */
    twostate predicate ObjectsInserted(t: nat)
      requires old(t < |nodes| && CanInsert(model, t) && NextPre(t) < |nodes|) && nodes == old(nodes)
      reads this, nodes
    {
      var p := old(NextPre(t));
      var stored := !old(nodes[p].isFinished);
      && SameExceptInsertion(nodes[t]) && SameExceptInsertion(nodes[p])
      && nodes[t].posts == old(nodes[t].posts) && nodes[t].cursor == old(nodes[t].cursor) + 1
      && nodes[t].tally == (if stored then old(nodes[t].tally) else old(nodes[t].tally) + 1)
      && nodes[p].cursor == old(nodes[p].cursor) && nodes[p].tally == old(nodes[p].tally)
      && nodes[p].posts == (if stored then old(nodes[p].posts) + [nodes[t]] else old(nodes[p].posts))
      && (forall i | 0 <= i < |nodes| && i != t && i != p :: unchanged(nodes[i]))
    }

    /** A task that takes no part in the registration stays as it is. */
    twostate lemma InsertionSpares(at: (nat, nat))
      requires var (t, i) := at;
               && old(|nodes| == |model.tasks| <= |program| && t < |nodes| && i < |nodes| && CanInsert(model, t))
               && old(NextPre(t)) < |nodes| && nodes == old(nodes) && i != t && i != old(NextPre(t))
               && old(NodeOk(i)) && unchanged(nodes[i]) && |model.tasks| == |nodes|
               && model.tasks[i] == old(model.tasks[i])
      ensures NodeOk(at.1)
    {
      assert forall j | 0 <= j < |old(nodes[at.1].posts)| :: old(Known(nodes[at.1].posts[j]));
    }

    /** Objects and model move together when an entry is registered, seen from the task i. */
    twostate lemma InsertionAgreesAt(at: (nat, nat))
      requires var (t, i) := at;
               && old(|nodes| == |model.tasks| <= |program| && t < |nodes| && i < |nodes| && CanInsert(model, t))
               && old(NextPre(t)) < |nodes| && nodes == old(nodes) && ObjectsInserted(t)
               && old(NodeOk(i)) && old(NodeOk(t))
               && Inserted(old(model), model, t, old(NextPre(t)), FateAt(old(model), old(NextPre(t))))
      requires old(nodes[NextPre(at.0)].isFinished) == old(model.tasks[NextPre(at.0)].isFinished)
      ensures |model.tasks| == |nodes| && NodeOk(at.1)
    {
      var (t, i) := at;
      assert forall j | 0 <= j < |old(nodes[i].posts)| :: old(Known(nodes[i].posts[j]));
      if i != t && i != old(NextPre(t)) {
        InsertionSpares(at);
      }
    }

    /** Objects and model move together when an entry is registered. */
    twostate lemma InsertionAgrees(t: nat)
      requires old(Coupled() && t < |nodes| && CanInsert(model, t)) && model == InsertPost(old(model), t)
      requires nodes == old(nodes) && queue == old(queue) && workers == old(workers) && ObjectsInserted(t)
      ensures Coupled()
    {
      var p := old(NextPre(t));
      assert Inserted(old(model), model, t, p, FateAt(old(model), p));
      assert old(NodeOk(t)) && old(NodeOk(p));
      forall i | 0 <= i < |nodes| ensures NodeOk(i) {
        assert old(NodeOk(i));
        InsertionAgreesAt((t, i));
      }
      assert forall k | 0 <= k < |queue| :: old(Known(queue[k]));
    }

    /** Registers the next entry of a task with its pre-task. */
    method RegisterNext(node: TaskNode)
      requires Valid() && Known(node) && CanInsert(model, node.id)
      modifies this`model, this`history, nodes
      ensures Valid() && nodes == old(nodes) && queue == old(queue)
      ensures model == InsertPost(old(model), node.id)
    {
      ghost var t: nat, p: nat := node.id, NextPre(node.id);
      assert NodeOk(t) && NodeOk(p);
      Distinct(t);
      Distinct(p);
      var pre := nodes[program[node.id].pres[node.cursor]];
      var stored := InsertInto(pre, node);
      Record(Insert(t));
      InsertionAgrees(t);
    }

    /** The objects after the counter of k went up, and perhaps k was queued. */
    twostate predicate QueueFollows(k: TaskNode)
      reads this, k
    {
      queue == if k.finishedPre == k.preCount then old(queue) + [k] else old(queue)
    }

    /** The object queue follows the model's queue when the counter of k goes up. */
    twostate lemma QueueAgrees(k: TaskNode)
      requires old(forall i | 0 <= i < |queue| :: Known(queue[i])) && nodes == old(nodes) && old(Known(k))
      requires old(multiset(Ids(queue)) == model.queue) && QueueFollows(k)
      requires model.queue ==
               if k.finishedPre == k.preCount then old(model.queue) + multiset{k.id} else old(model.queue)
      ensures (forall i | 0 <= i < |queue| :: Known(queue[i])) && multiset(Ids(queue)) == model.queue
    {
      AppendedIds(old(queue), k);
      assert forall i | 0 <= i < |old(queue)| :: old(Known(queue[i]));
    }

    twostate lemma ClosingAgrees(t: nat)
      requires old(Coupled() && t < |nodes| && CanClose(model, t)) && model == CloseRegistration(old(model), t)
      requires nodes == old(nodes) && workers == old(workers) && QueueFollows(nodes[t])
      requires forall i | 0 <= i < |nodes| && i != t :: unchanged(nodes[i])
      requires var k := nodes[t];
               && k.finishedPre == old(k.finishedPre) + old(k.tally) && k.closed
               && k.isFinished == old(k.isFinished) && k.hasFn == old(k.hasFn)
               && k.locked == old(k.locked) && k.notified == old(k.notified)
               && k.posts == old(k.posts) && k.cursor == old(k.cursor) && k.tally == old(k.tally)
      ensures Coupled()
    {
      assert Closed(old(model), model, t);
      assert old(NodeOk(t));
      ObjectsAgree((t, t));
      QueueAgrees(nodes[t]);
    }

    /** The closing update of a registration. */
    method CloseRegistered(node: TaskNode)
      requires Valid() && Known(node) && CanClose(model, node.id)
      modifies this`model, this`history, this`queue, node
      ensures Valid() && nodes == old(nodes)
      ensures model == CloseRegistration(old(model), node.id)
    {
      ghost var t: nat := node.id;
      assert NodeOk(t);
      Distinct(t);
      node.closed := true;
      UpdateFinishedPreCount(node, node.tally);
      Record(Close(t));
      ClosingAgrees(t);
    }

    // ---- workers

    /** A position in the queue of maximal priority. */
    method TopIndex() returns (i: nat)
      requires Coupled() && queue != []
      ensures i < |queue| && Known(queue[i]) && TopOfQueue(model, queue[i].id)
    {
      ghost var best := SomeMaximum(queue);
      i :| i < |queue| && forall j | 0 <= j < |queue| :: queue[j].priority <= queue[i].priority;
      QueueTop(i);
    }

    /** ReadyQueue::pop: takes some queued task of maximal priority. */
    method PopReady(w: nat) returns (node: TaskNode)
      requires Valid() && w < |workers| && workers[w] == Idle && queue != []
      modifies this`model, this`history, this`queue, this`workers
      ensures Valid() && nodes == old(nodes) && Known(node) && node in old(queue)
      ensures CanPop(old(model), w, node.id) && model == PopTask(old(model), w, node.id)
    {
      var i := TopIndex();
      node := queue[i];
      queue := queue[..i] + queue[i + 1..];
      workers := workers[w := Calling(node.id)];
      Record(Pop(w, node.id));
      PopAgrees((w, i));
    }

    /** Objects and model agree once worker at.0 has taken the queue entry at.1. */
    twostate lemma PopAgrees(at: (nat, nat))
      requires var (w, i) := at;
               && old(Coupled()) && i < |old(queue)| && CanPop(old(model), w, old(queue)[i].id)
               && model == PopTask(old(model), w, old(queue)[i].id) && nodes == old(nodes)
               && queue == old(queue)[..i] + old(queue)[i + 1..]
               && workers == old(workers)[w := Calling(old(queue)[i].id)]
      requires forall i | 0 <= i < |nodes| :: unchanged(nodes[i])
      ensures Coupled()
    {
      var t := old(queue)[at.1].id;
      PopEffect(old(model), at.0, t);
      assert old(Known(queue[at.1]) && NodeOk(t));
      ObjectsAgree((t, t));
      QueueShrinks(at.1);
    }

    /** The queue without the entry i still agrees with a model that lost the same task. */
    twostate lemma QueueShrinks(i: nat)
      requires old(Coupled()) && i < |old(queue)| && nodes == old(nodes)
      requires queue == old(queue)[..i] + old(queue)[i + 1..]
      requires model.queue == old(model.queue) - multiset{old(queue)[i].id}
      ensures (forall k | 0 <= k < |queue| :: Known(queue[k])) && multiset(Ids(queue)) == model.queue
    {
      RemovedIds(old(queue), i);
      assert forall k | 0 <= k < |old(queue)| :: old(Known(queue[k]));
    }

    /** A queued object of maximal priority is a top of the model's queue. */
    lemma QueueTop(i: nat)
      requires Coupled() && i < |queue| && forall j | 0 <= j < |queue| :: queue[j].priority <= queue[i].priority
      ensures Known(queue[i]) && TopOfQueue(model, queue[i].id)
    {
      var t := queue[i].id;
      assert Known(queue[i]) && NodeOk(t);
      assert Ids(queue)[i] == t && t in Ids(queue) && t in multiset(Ids(queue));
      forall u | u in model.queue ensures u < |program| && program[u].priority <= program[t].priority {
        assert u in Ids(queue);
        var j :| 0 <= j < |queue| && Ids(queue)[j] == u;
        assert Known(queue[j]) && NodeOk(u);
      }
    }

    /** The function of the task has returned; it is swapped for the empty one. */
    method CallReturned(w: nat)
      requires Valid() && CanReturn(model, w)
      modifies this`model, this`history, this`workers, nodes
      ensures Valid() && nodes == old(nodes) && queue == old(queue)
      ensures model == ReturnFromCall(old(model), w)
    {
      var t := workers[w].task;
      assert NodeOk(t);
      Distinct(t);
      nodes[t].hasFn := false;
      workers := workers[w := Returned(t)];
      Record(Return(w));
      ObjectsAgree((t, t));
      assert forall k | 0 <= k < |queue| :: old(Known(queue[k]));
    }

    /** post_run takes the lock of its task. */
    method TakeLock(w: nat)
      requires Valid() && CanAcquire(model, w)
      modifies this`model, this`history, this`workers, nodes
      ensures Valid() && nodes == old(nodes) && queue == old(queue)
      ensures model == AcquireLock(old(model), w)
    {
      var t := workers[w].task;
      assert NodeOk(t);
      Distinct(t);
      nodes[t].locked, nodes[t].notified := true, 0;
      workers := workers[w := Notifying(t)];
      Record(Acquire(w));
      ObjectsAgree((t, t));
      assert forall k | 0 <= k < |queue| :: old(Known(queue[k]));
    }

    twostate predicate SentOne(k: TaskNode)
      reads k
    {
      && k.notified == old(k.notified) + 1 && k.locked == old(k.locked)
      && k.finishedPre == old(k.finishedPre) && k.isFinished == old(k.isFinished)
      && k.hasFn == old(k.hasFn) && k.posts == old(k.posts)
      && k.cursor == old(k.cursor) && k.tally == old(k.tally) && k.closed == old(k.closed)
    }

    twostate predicate ReceivedOne(k: TaskNode)
      reads k
    {
      && k.finishedPre == old(k.finishedPre) + 1 && k.isFinished == old(k.isFinished)
      && k.notified == old(k.notified) && k.locked == old(k.locked)
      && k.hasFn == old(k.hasFn) && k.posts == old(k.posts)
      && k.cursor == old(k.cursor) && k.tally == old(k.tally) && k.closed == old(k.closed)
    }

    /** The notifying and the notified object follow the model. */
    twostate lemma NotifiedObjectsAgree(at: (nat, nat))
      requires var (q, t) := at;
               && q < |nodes| == |old(nodes)| == |old(model).tasks| <= |program| && t < |nodes|
               && old(model).prog == program && nodes == old(nodes)
               && old(NodeOk(q)) && old(NodeOk(t)) && old(model).tasks[q].lock.Some?
               && Notified(old(model), model, q, old(model).tasks[q].lock.value, t)
               && SentOne(nodes[q]) && ReceivedOne(nodes[t])
      ensures nodes[at.0].Agrees(model.tasks[at.0]) && nodes[at.1].Agrees(model.tasks[at.1])
      ensures model.queue == if nodes[at.1].finishedPre == nodes[at.1].preCount
                             then old(model.queue) + multiset{nodes[at.1].id} else old(model.queue)
    {
    }

    /** Objects and model move together when a worker notifies the next post. */
    twostate lemma NotificationAgrees(w: nat)
      requires old(Coupled() && CanNotify(model, w)) && model == NotifyPost(old(model), w)
      requires nodes == old(nodes) && workers == old(workers)
      requires var q := old(model).workers[w].task; var t := old(NextPost(model, q));
               && q < |nodes| && t < |nodes| && q != t && QueueFollows(nodes[t])
               && (forall i | 0 <= i < |nodes| && i != q && i != t :: unchanged(nodes[i]))
               && SentOne(nodes[q]) && ReceivedOne(nodes[t])
      ensures Coupled()
    {
      var q := old(model).workers[w].task;
      var t := old(NextPost(model, q));
      assert old(NodeOk(q)) && old(NodeOk(t));
      NotifyEffect(old(model), w);
      NotifiedObjectsAgree((q, t));
      ObjectsAgree((q, t));
      QueueAgrees(nodes[t]);
    }

    /** One iteration of the loop of post_run. */
    method NotifyNext(w: nat)
      requires Valid() && CanNotify(model, w)
      modifies this`model, this`history, this`queue, nodes
      ensures Valid() && nodes == old(nodes) && workers == old(workers)
      ensures model == NotifyPost(old(model), w)
    {
      var q := workers[w].task;
      assert NodeOk(q);
      var node := nodes[q];
      var post := node.posts[node.notified];
      assert Known(post);
      Distinct(q);
      Distinct(post.id);
      node.notified := node.notified + 1;
      UpdateFinishedPreCount(post, 1);
      Record(Notify(w));
      NotificationAgrees(w);
    }

    /** post_run marks its task finished and releases the lock. */
    method FinishTask(w: nat)
      requires Valid() && CanFinish(model, w)
      modifies this`model, this`history, this`workers, nodes
      ensures Valid() && nodes == old(nodes) && queue == old(queue)
      ensures model == FinishRun(old(model), w)
    {
      var t := workers[w].task;
      assert NodeOk(t);
      Distinct(t);
      nodes[t].isFinished, nodes[t].locked := true, false;
      workers := workers[w := Idle];
      Record(Finish(w));
      ObjectsAgree((t, t));
      assert forall k | 0 <= k < |queue| :: old(Known(queue[k]));
    }

    // ---- the loops of Task, run without interference

    /** The registration of `node` is under way, and no lock is held. */
    ghost predicate Registering(node: TaskNode)
      reads this, nodes
    {
      Valid() && Known(node) && NoLockHeld(model) && node.cursor <= node.preCount && !node.closed
    }

    method RegisterStep(node: TaskNode)
      requires Registering(node) && node.cursor < node.preCount
      modifies this`model, this`history, nodes
      ensures nodes == old(nodes) && queue == old(queue) && Registering(node) && node.cursor == old(node.cursor) + 1
      ensures CanInsert(old(model), node.id) && model == InsertPost(old(model), node.id)
    {
      assert NodeOk(node.id);
      RegisterNext(node);
      assert NodeOk(node.id);
    }

    /** The registration loop of Task::sync_with_pre_tasks. */
    method RegisterAll(node: TaskNode)
      requires Registering(node) && node.cursor == 0
      modifies this`model, this`history, nodes
      ensures Valid() && nodes == old(nodes) && CanClose(model, node.id)
      ensures Run(old(model), Repeat(Insert(node.id), node.preCount), model)
    {
      ghost var s0 := model;
      while node.cursor < node.preCount
        invariant nodes == old(nodes) && Registering(node)
        invariant Run(s0, Repeat(Insert(node.id), node.cursor), model)
        decreases node.preCount - node.cursor
      {
        ghost var c, m := node.cursor, model;
        RegisterStep(node);
        RunSnoc(s0, Repeat(Insert(node.id), c), m, Insert(node.id));
        RepeatOnceMore(Insert(node.id), c);
      }
      assert NodeOk(node.id);
    }

    /** Task::sync_with_pre_tasks: every entry in turn, then the closing update. */
    method SyncWithPreTasks(node: TaskNode)
      requires Registering(node) && node.cursor == 0
      modifies this`model, this`history, this`queue, nodes
      ensures Valid() && nodes == old(nodes)
      ensures Run(old(model), Repeat(Insert(node.id), node.preCount) + [Close(node.id)], model)
    {
      ghost var t: nat, s0 := node.id, model;
      RegisterAll(node);
      ghost var m := model;
      CloseRegistered(node);
      RunSnoc(s0, Repeat(Insert(t), node.preCount), m, Close(t));
    }

    /** Worker w is inside post_run of q, and no other lock is held. */
    ghost predicate InPostRun(w: nat, q: nat)
      reads this, nodes
    {
      && Valid() && w < |workers| && workers[w] == Notifying(q) && q < |nodes|
      && nodes[q].locked && nodes[q].notified <= |nodes[q].posts|
      && (forall i | 0 <= i < |nodes[q].posts| :: nodes[q].posts[i].id != q)
      && (forall u | 0 <= u < |nodes| && u != q :: model.tasks[u].lock.None?)
    }

    lemma CanNotifyNext(w: nat, q: nat)
      requires InPostRun(w, q) && nodes[q].notified < |nodes[q].posts|
      ensures CanNotify(model, w)
    {
      assert NodeOk(q);
      assert Known(nodes[q].posts[nodes[q].notified]);
    }

    lemma NotifiedOne(s: State, w: nat, q: nat)
      requires CanNotify(s, w) && s.workers[w].task == q
      ensures var r := NotifyPost(s, w);
              && |r.tasks| == |s.tasks| && r.tasks[q].posts == s.tasks[q].posts
              && r.tasks[q].lock == Some(s.tasks[q].lock.value + 1)
              && forall u | 0 <= u < |s.tasks| && u != q :: r.tasks[u].lock == s.tasks[u].lock
    {
    }

    method NotifyStep(w: nat, ghost q: nat)
      requires InPostRun(w, q) && nodes[q].notified < |nodes[q].posts|
      modifies this`model, this`history, this`queue, nodes
      ensures nodes == old(nodes) && workers == old(workers) && InPostRun(w, q)
      ensures nodes[q].posts == old(nodes[q].posts) && nodes[q].notified == old(nodes[q].notified) + 1
      ensures CanNotify(old(model), w) && model == NotifyPost(old(model), w)
    {
      ghost var m := model;
      assert NodeOk(q);
      CanNotifyNext(w, q);
      NotifyNext(w);
      NotifiedOne(m, w, q);
      assert NodeOk(q);
    }

    /** The body of that loop, with the run so far. */
    method NotifyCounted(w: nat, ghost q: nat, ghost s0: State)
      requires InPostRun(w, q) && nodes[q].notified < |nodes[q].posts|
      requires Run(s0, Repeat(Notify(w), nodes[q].notified), model)
      modifies this`model, this`history, this`queue, nodes
      ensures nodes == old(nodes) && workers == old(workers) && InPostRun(w, q)
      ensures nodes[q].posts == old(nodes[q].posts) && nodes[q].notified == old(nodes[q].notified) + 1
      ensures Run(s0, Repeat(Notify(w), nodes[q].notified), model)
    {
      ghost var j, m := nodes[q].notified, model;
      NotifyStep(w, q);
      RunSnoc(s0, Repeat(Notify(w), j), m, Notify(w));
      RepeatOnceMore(Notify(w), j);
    }

    /** The loop of Task::post_run. */
    method NotifyAll(w: nat, ghost q: nat)
      requires InPostRun(w, q) && nodes[q].notified == 0
      modifies this`model, this`history, this`queue, nodes
      ensures Valid() && nodes == old(nodes) && workers == old(workers) && CanFinish(model, w)
      ensures Run(old(model), Repeat(Notify(w), |old(nodes[q].posts)|), model)
    {
      ghost var s0, posts := model, nodes[q].posts;
      var node := nodes[workers[w].task];
      while node.notified < |node.posts|
        invariant nodes == old(nodes) && workers == old(workers) && node == nodes[q] && InPostRun(w, q)
        invariant node.posts == posts
        invariant Run(s0, Repeat(Notify(w), node.notified), model)
        decreases |posts| - node.notified
      {
        NotifyCounted(w, q, s0);
      }
      assert NodeOk(q);
    }

    /** Task::post_run: lock, notify every post, mark finished, unlock. */
    method PostRun(w: nat)
      requires Valid() && NoLockHeld(model) && CanAcquire(model, w)
      modifies this`model, this`history, this`queue, this`workers, nodes
      ensures Valid() && nodes == old(nodes)
      ensures var node := nodes[old(workers[w].task)];
              Run(old(model), [Acquire(w)] + Repeat(Notify(w), |old(node.posts)|) + [Finish(w)], model)
    {
      ghost var s0, q: nat := model, workers[w].task;
      ReachedInv(program, serial, workerCount, history, model);
      assert NodeOk(q);
      forall i | 0 <= i < |nodes[q].posts| ensures nodes[q].posts[i].id != q {
        assert SlotOk(s0, q, i);
      }
      TakeLock(w);
      assert NodeOk(q);
      ghost var s1 := model;
      RunOne(s0, Acquire(w));
      NotifyAll(w, q);
      ghost var s2 := model;
      RunAppend(s0, [Acquire(w)], s1, Repeat(Notify(w), |old(nodes[q].posts)|), s2);
      FinishTask(w);
      RunSnoc(s0, [Acquire(w)] + Repeat(Notify(w), |old(nodes[q].posts)|), s2, Finish(w));
    }

    // ---- what the results about runs say of the objects

    lemma ValidKeepsInv()
      requires Valid()
      ensures Inv(model)
    {
      ReachedInv(program, serial, workerCount, history, model);
    }

    /** A task object is never in the queue and in the hands of workers more than twice. */
    lemma HandledAtMostTwice(node: TaskNode)
      requires Valid() && Known(node)
      ensures multiset(queue)[node] + multiset(workers)[Calling(node.id)] + multiset(workers)[Returned(node.id)]
              + multiset(workers)[Notifying(node.id)] <= 2
    {
      ValidKeepsInv();
      CountedById(queue, node);
      PushedAtMostTwice(program, serial, workerCount, history, model, node.id);
      assert TaskOk(model, node.id);
    }

    /** In a program that cannot start early, the functions of all pre-tasks of a queued
        task object have returned. */
    lemma QueuedAfterPres(node: TaskNode)
      requires Valid() && Known(node) && node in queue && !CanStartEarly(program)
      ensures node.id < |program| && forall p | p in program[node.id].pres :: p < |nodes| && !nodes[p].hasFn
    {
      ValidKeepsInv();
      CountedById(queue, node);
      assert node in multiset(queue);
      assert TaskOk(model, node.id);
      AlwaysInOrder(model);
      assert PresReturned(model, node.id);
      forall p | p in program[node.id].pres ensures p < |nodes| && !nodes[p].hasFn {
        assert NodeOk(p);
      }
    }

    /** A program that can neither start early nor lose tasks ends with every object finished. */
    lemma ObjectsFinish()
      requires Valid() && Stuck(model) && workerCount > 0 && WaitsArePres(program)
      requires !CanStartEarly(program) && !CanLose(program)
      ensures |nodes| == |program| && forall i | 0 <= i < |nodes| :: nodes[i].isFinished && !nodes[i].locked
    {
      OrderlyProgramFinishes(program, serial, workerCount, history, model);
      forall i | 0 <= i < |nodes| ensures nodes[i].isFinished && !nodes[i].locked {
        assert NodeOk(i);
      }
    }
  }
}
