/** The plugin task scheduler: the indexed heap, the owner index, the per-owner
    counters and the active flags, kept in step, and refining the sorted list of
    TaskModel.

    The class keeps the sorted list that it stands for in a ghost field, and
    every method says what it does to that list. Valid ties the fields to it in
    five parts: the tasks handed out, the queue, the index and the counters, the
    plain fields, and the list itself. RepresentationInvariant restates it in
    terms of the fields alone. */
module TaskScheduler {
  import opened Collections
  import opened PluginOwner
  import opened TaskModel
  import opened TaskTheorems
  import opened TaskHeap

  /** schedulerOwnerState, without its timing counters. */
  datatype OwnerState = OwnerState(open: bool, pending: int)

  datatype Result = Scheduled(task: Task) | Refused(error: Error)

  // ----- the owner index -----

  type Index = map<Owner, map<nat, Task>>

  function TasksOf(byOwner: Index, o: Owner): map<nat, Task> {
    if o in byOwner then byOwner[o] else map[]
  }

  /** The tasks of `live` that belong to `o`. */
  ghost function OwnedBy(handles: map<nat, Task>, live: set<nat>, o: Owner): map<nat, Task> {
    map id | id in live && id in handles && handles[id].owner == o :: handles[id]
  }

  function AddPending(owners: map<Owner, OwnerState>, o: Owner, d: int): map<Owner, OwnerState>
    requires o in owners
  {
    owners[o := owners[o].(pending := owners[o].pending + d)]
  }

  /** What the index holds for `o` is exactly o's tasks in `live`, and pending
      counts them. */
  ghost predicate SlotOk(byOwner: Index, owners: map<Owner, OwnerState>, handles: map<nat, Task>, live: set<nat>, o: Owner) {
    && o in owners
    && TasksOf(byOwner, o) == OwnedBy(handles, live, o)
    && owners[o].pending == |OwnedBy(handles, live, o)|
  }

  ghost predicate Registered(byOwner: Index, owners: map<Owner, OwnerState>, handles: map<nat, Task>, live: set<nat>) {
    && live <= handles.Keys && byOwner.Keys <= owners.Keys
    && (forall id | id in live :: handles[id].owner in owners)
    && (forall o | o in byOwner :: byOwner[o] != map[])
    && (forall o | o in owners :: SlotOk(byOwner, owners, handles, live, o))
  }

  lemma SizeWithout(m: map<nat, Task>, id: nat)
    requires id in m
    ensures |m - {id}| == |m| - 1
  {
    assert m.Keys == (m - {id}).Keys + {id};
  }

  lemma OwnedWith(handles: map<nat, Task>, live: set<nat>, id: nat, task: Task, o: Owner)
    requires live <= handles.Keys && id !in handles
    ensures var before := OwnedBy(handles, live, o);
            && id !in before
            && OwnedBy(handles[id := task], live + {id}, o) == if o == task.owner then before[id := task] else before
  {
  }

  lemma SizeWith(m: map<nat, Task>, id: nat, task: Task)
    requires id !in m
    ensures |m[id := task]| == |m| + 1
  {
    assert m[id := task].Keys == m.Keys + {id};
  }

  /** `schedule` on the index. */
  function Register(byOwner: Index, id: nat, task: Task): Index {
    byOwner[task.owner := TasksOf(byOwner, task.owner)[id := task]]
  }

  lemma RegisterSlot(byOwner: Index, owners: map<Owner, OwnerState>, handles: map<nat, Task>, live: set<nat>, id: nat, task: Task, o: Owner)
    requires SlotOk(byOwner, owners, handles, live, o)
    requires live <= handles.Keys && id !in handles && task.owner in owners
    ensures SlotOk(Register(byOwner, id, task), AddPending(owners, task.owner, 1), handles[id := task], live + {id}, o)
  {
    hide OwnedBy;
    OwnedWith(handles, live, id, task, o);
    SizeWith(OwnedBy(handles, live, o), id, task);
  }

  lemma RegisterOne(byOwner: Index, owners: map<Owner, OwnerState>, handles: map<nat, Task>, live: set<nat>, id: nat, task: Task)
    requires Registered(byOwner, owners, handles, live)
    requires id !in handles && task.owner in owners
    ensures Registered(Register(byOwner, id, task), AddPending(owners, task.owner, 1), handles[id := task], live + {id})
  {
    hide SlotOk;
    forall o | o in owners
      ensures SlotOk(Register(byOwner, id, task), AddPending(owners, task.owner, 1), handles[id := task], live + {id}, o)
    {
      RegisterSlot(byOwner, owners, handles, live, id, task, o);
    }
    assert id in Register(byOwner, id, task)[task.owner];
  }

  /** removeRegistrationLocked on the index. */
  function Unregister(byOwner: Index, o: Owner, id: nat): Index {
    if o !in byOwner then byOwner
    else if byOwner[o] - {id} == map[] then byOwner - {o}
    else byOwner[o := byOwner[o] - {id}]
  }

  lemma UnregisterSlot(byOwner: Index, owners: map<Owner, OwnerState>, handles: map<nat, Task>, live: set<nat>, id: nat, o: Owner)
    requires SlotOk(byOwner, owners, handles, live, o)
    requires live <= handles.Keys && id in live && handles[id].owner in owners
    ensures SlotOk(Unregister(byOwner, handles[id].owner, id), AddPending(owners, handles[id].owner, -1), handles, live - {id}, o)
  {
    var before, after := OwnedBy(handles, live, o), OwnedBy(handles, live - {id}, o);
    if o == handles[id].owner {
      assert after == before - {id};
      SizeWithout(before, id);
    } else {
      assert after == before;
    }
  }

  lemma UnregisterOne(byOwner: Index, owners: map<Owner, OwnerState>, handles: map<nat, Task>, live: set<nat>, id: nat)
    requires Registered(byOwner, owners, handles, live) && id in live
    ensures Registered(Unregister(byOwner, handles[id].owner, id), AddPending(owners, handles[id].owner, -1), handles, live - {id})
  {
    hide SlotOk;
    forall o | o in owners
      ensures SlotOk(Unregister(byOwner, handles[id].owner, id), AddPending(owners, handles[id].owner, -1), handles, live - {id}, o)
    {
      UnregisterSlot(byOwner, owners, handles, live, id, o);
    }
  }

  lemma NewOwner(byOwner: Index, owners: map<Owner, OwnerState>, handles: map<nat, Task>, live: set<nat>, owner: Owner)
    requires Registered(byOwner, owners, handles, live) && owner !in owners
    ensures Registered(byOwner, owners[owner := OwnerState(false, 0)], handles, live)
  {
    var after := owners[owner := OwnerState(false, 0)];
    assert OwnedBy(handles, live, owner) == map[];
    forall o | o in after ensures SlotOk(byOwner, after, handles, live, o) {
      if o != owner { assert SlotOk(byOwner, owners, handles, live, o); }
    }
  }

  lemma SameOwners(byOwner: Index, owners: map<Owner, OwnerState>, owners': map<Owner, OwnerState>, handles: map<nat, Task>, live: set<nat>)
    requires Registered(byOwner, owners, handles, live) && owners'.Keys == owners.Keys
    requires forall o | o in owners :: owners'[o].pending == owners[o].pending
    ensures Registered(byOwner, owners', handles, live)
  {
    forall o | o in owners' ensures SlotOk(byOwner, owners', handles, live, o) {
      assert SlotOk(byOwner, owners, handles, live, o);
    }
  }

  lemma Tasks(byOwner: Index, owners: map<Owner, OwnerState>, handles: map<nat, Task>, live: set<nat>, o: Owner)
    requires Registered(byOwner, owners, handles, live) && o in owners
    ensures SlotOk(byOwner, owners, handles, live, o)
  {
  }

  lemma OwnedAfterClose(handles: map<nat, Task>, live: set<nat>, owner: Owner, o: Owner)
    ensures OwnedBy(handles, live - OwnedBy(handles, live, owner).Keys, o)
         == if o == owner then map[] else OwnedBy(handles, live, o)
  {
  }

  lemma CloseSlot(byOwner: Index, owners: map<Owner, OwnerState>, handles: map<nat, Task>, live: set<nat>, owner: Owner, o: Owner)
    requires SlotOk(byOwner, owners, handles, live, owner) && SlotOk(byOwner, owners, handles, live, o)
    ensures SlotOk(byOwner - {owner}, owners[owner := OwnerState(false, 0)], handles, live - TasksOf(byOwner, owner).Keys, o)
  {
    hide OwnedBy;
    OwnedAfterClose(handles, live, owner, o);
  }

  /** removeOwnerLocked on the index, once every task's counter was taken off. */
  lemma UnregisterOwner(byOwner: Index, owners: map<Owner, OwnerState>, handles: map<nat, Task>, live: set<nat>, owner: Owner)
    requires Registered(byOwner, owners, handles, live) && owner in owners
    ensures Registered(byOwner - {owner}, owners[owner := OwnerState(false, 0)], handles, live - TasksOf(byOwner, owner).Keys)
  {
    hide SlotOk, OwnedBy, TasksOf;
    var owners' := owners[owner := OwnerState(false, 0)];
    var live' := live - TasksOf(byOwner, owner).Keys;
    forall o | o in owners' ensures SlotOk(byOwner - {owner}, owners', handles, live', o) {
      CloseSlot(byOwner, owners, handles, live, owner, o);
    }
  }

  /** Which tasks an owner has. */
  lemma OwnersTasks(byOwner: Index, owners: map<Owner, OwnerState>, handles: map<nat, Task>, live: set<nat>, owner: Owner)
    requires Registered(byOwner, owners, handles, live)
    ensures var tasks := TasksOf(byOwner, owner);
            && tasks.Keys <= live
            && (forall id | id in live :: id in handles && (id in tasks <==> handles[id].owner == owner))
            && (forall id | id in tasks :: tasks[id] == handles[id])
            && (owner in owners ==> owners[owner].pending == |tasks|)
            && (owner !in owners ==> owner !in byOwner)
  {
    if owner in owners {
      assert SlotOk(byOwner, owners, handles, live, owner);
    }
  }

  // ----- what the operations do to the model's contents -----

  ghost function Jobs(q: seq<Job>): set<Job> {
    set j | j in q
  }

  ghost function Ids(q: seq<Job>, running: Option<Job>): set<nat> {
    (set j | j in q :: j.id) + RunningId(running)
  }

  function RunningId(running: Option<Job>): set<nat> {
    if running.Some? then {running.value.id} else {}
  }

  lemma IssueContents(m: Sched, job: Job, delay: nat)
    ensures Jobs(Issue(m, job, delay).queue) == Jobs(m.queue) + {job}
    ensures Ids(Issue(m, job, delay).queue, m.running) == Ids(m.queue, m.running) + {job.id}
  {
    InsertMembers(m.queue, job);
    assert job in Insert(m.queue, job);
    assert forall j | j in m.queue :: j in Insert(m.queue, job);
  }

  lemma RunningIsIssued(m: Sched)
    requires Inv(m)
    ensures m.running.Some? ==> 1 <= m.running.value.id <= m.nextID
  {
  }

  lemma CancelContents(m: Sched, id: nat)
    requires Inv(m) && Active(m, id)
    ensures var c := Exec(m, Cancel(id));
            && Jobs(c.queue) == (set j | j in m.queue && j.id != id)
            && Ids(c.queue, c.running) == Ids(m.queue, m.running) - {id}
  {
    RemoveMembers(m.queue, id);
    assert forall j | j in m.queue && j.id != id :: j in Remove(m.queue, id);
  }

  lemma CloseContents(m: Sched, o: Owner, gone: set<nat>)
    requires forall j | j in m.queue :: j.id in gone <==> j.owner == o
    requires m.running.Some? ==> (m.running.value.id in gone <==> m.running.value.owner == o)
    ensures var c := Exec(m, Close(o));
            && Jobs(c.queue) == (set j | j in Jobs(m.queue) && j.id !in gone)
            && Ids(c.queue, c.running) == Ids(m.queue, m.running) - gone
  {
    RemoveOwnerMembers(m.queue, o);
    assert forall j | j in m.queue && j.owner != o :: j in RemoveOwner(m.queue, o);
  }

  lemma CloseFields(m: Sched, o: Owner)
    ensures var c := Exec(m, Close(o));
            && c.now == m.now && c.nextID == m.nextID && c.enabled == m.enabled && c.open == m.open - {o}
            && (c.running.Some? ==> c.running == m.running)
  {
  }

  lemma PopContents(m: Sched)
    requires Inv(m) && HeadDue(m) && m.running.None?
    ensures var job := m.queue[0];
            && Jobs(Pop(m).queue) == Jobs(m.queue) - {job}
            && Ids(Pop(m).queue, Pop(m).running) == if job.interval == 0 then Ids(m.queue, None) - {job.id} else Ids(m.queue, None)
  {
    PopKeepsInv(m);
    var job := m.queue[0];
    assert m.queue == [job] + m.queue[1..];
    assert job in m.queue;
  }

  lemma RequeueContents(m: Sched, job: Job)
    requires Mid(m, job) && job.interval > 0
    ensures var r := Requeue(m, job);
            var next := job.(due := m.now + job.interval);
            if Wanted(m, job) && MAX_TICK - m.now >= job.interval then
              Jobs(r.queue) == Jobs(m.queue) + {next} && Ids(r.queue, r.running) == Ids(m.queue, m.running)
            else
              r.queue == m.queue && Ids(r.queue, r.running) == Ids(m.queue, m.running) - RunningId(m.running)
  {
    var next := job.(due := m.now + job.interval);
    InsertMembers(m.queue, next);
    assert next in Insert(m.queue, next);
    assert forall j | j in m.queue :: j in Insert(m.queue, next);
  }

  lemma ActiveIsId(m: Sched, id: nat)
    ensures Active(m, id) <==> id in Ids(m.queue, m.running)
  {
    assert forall i | 0 <= i < |m.queue| :: m.queue[i] in m.queue;
  }

  class Scheduler {
    var now: nat
    var nextID: nat
    const queue: Heap
    var byOwner: Index
    var owners: map<Owner, OwnerState>

    /** The owners whose entry has its enabled flag set; the manager writes it. */
    var enabled: set<Owner>

    /** The tasks handed out so far; callers may hold on to any of them. */
    var handles: map<nat, Task>

    /** The tasks in `handles`, for frames. */
    ghost var repr: set<Task>

    /** The sorted list that this scheduler stands for. */
    ghost var model: Sched

    ghost function ActiveIds(): set<nat>
      reads this`handles, this`repr, repr`active
    {
      set id | id in handles && handles[id] in repr && handles[id].active
    }

    ghost function QueuedJobs(): set<Job>
      reads queue`tasks, queue.tasks`due
    {
      set t | t in queue.tasks :: t.Job()
    }

    ghost predicate HandlesOk()
      reads this`handles, this`repr, this`nextID, this`owners
    {
      forall id | id in handles ::
        handles[id] in repr && handles[id].id == id && 1 <= id <= nextID && handles[id].owner in owners
    }

    /** The heap's tasks were handed out, and a task has an index exactly while
        it is queued. */
    ghost predicate QueueOk()
      reads this`handles, queue, queue.tasks`index, queue.tasks`due, this`repr, repr`index
    {
      && queue.Valid()
      && (forall t | t in queue.tasks :: t.id in handles && handles[t.id] == t)
      && (forall id | id in handles :: handles[id] in repr && (handles[id].index == -1 <==> handles[id] !in queue.tasks))
    }

    ghost predicate RegisteredOk()
      reads this`handles, this`byOwner, this`owners, this`repr, repr`active
    {
      Registered(byOwner, owners, handles, ActiveIds())
    }

    ghost predicate FieldsOk()
      reads this`model, this`now, this`nextID, this`enabled, this`owners
    {
      && Inv(model)
      && model.now == now && model.nextID == nextID && model.enabled == enabled
      && (forall o :: o in model.open <==> o in owners && owners[o].open)
    }

    /** The queue holds the model's jobs, and the only active task that is not
        queued is the one that is running. */
    ghost predicate ModelOk()
      reads this`model, this`handles, queue`tasks, queue.tasks`due, this`repr, repr`due, repr`active
    {
      && Jobs(model.queue) == QueuedJobs()
      && Ids(model.queue, model.running) == ActiveIds()
      && (model.running.Some? ==>
            var j := model.running.value;
            j.id in handles && handles[j.id] in repr && handles[j.id].Job() == j)
    }

    ghost predicate Valid()
      reads this, queue, queue.tasks, repr
    {
      HandlesOk() && QueueOk() && RegisteredOk() && FieldsOk() && ModelOk()
    }

    constructor ()
      ensures Valid() && model == START && handles == map[]
      ensures fresh(queue) && repr == {}
    {
      now, nextID := 0, 0;
      queue := new Heap();
      byOwner, owners, enabled, handles := map[], map[], {}, map[];
      repr := {};
      model := START;
    }

    /** ownerStateLocked */
    method EnsureOwner(owner: Owner)
      requires Valid()
      modifies this`owners
      ensures Valid() && owner in owners
      ensures forall o | o in old(owners) :: o in owners && owners[o] == old(owners)[o]
      ensures owner !in old(owners) ==> !owners[owner].open
    {
      hide QueueOk, ModelOk, ActiveIds, Inv, Registered;
      if owner !in owners {
        NewOwner(byOwner, owners, handles, ActiveIds(), owner);
        owners := owners[owner := OwnerState(false, 0)];
      }
    }

    /** Sets an owner's open flag. */
    method SetOpen(owner: Owner, on: bool)
      requires HandlesOk() && RegisteredOk() && owner in owners
      modifies this`owners
      ensures HandlesOk() && RegisteredOk()
      ensures owners == old(owners)[owner := OwnerState(on, old(owners)[owner].pending)]
    {
      hide Registered, ActiveIds;
      SameOwners(byOwner, owners, owners[owner := owners[owner].(open := on)], handles, ActiveIds());
      owners := owners[owner := owners[owner].(open := on)];
    }

    method OpenOwner(owner: Owner)
      requires Valid()
      modifies this`owners, this`model
      ensures Valid() && model == Exec(old(model), Open(owner))
    {
      hide QueueOk, ActiveIds, QueuedJobs, Inv, Jobs, Ids, HandlesOk, RegisteredOk;
      EnsureOwner(owner);
      SetOpen(owner, true);
      ExecKeepsInv(model, Open(owner));
      model := Exec(model, Open(owner));
    }

    method SetEnabledFlag(owner: Owner, on: bool)
      requires Valid()
      modifies this`enabled, this`model
      ensures Valid() && model == Exec(old(model), SetEnabled(owner, on))
    {
      hide QueueOk, ActiveIds, QueuedJobs, Inv, RegisteredOk, HandlesOk;
      enabled := if on then enabled + {owner} else enabled - {owner};
      ExecKeepsInv(model, SetEnabled(owner, on));
      model := Exec(model, SetEnabled(owner, on));
    }

    /** schedule */
    method ScheduleTask(owner: Option<Owner>, delay: nat, interval: nat, hasHandler: bool) returns (r: Result)
      requires Valid()
      modifies this, queue, repr`index
      ensures Valid() && model == Exec(old(model), Schedule(owner, delay, interval, hasHandler))
      ensures HandlesGrow()
      ensures match Refusal(old(model), owner, delay, interval, hasHandler)
              case Some(error) => r == Refused(error) && handles == old(handles) && repr == old(repr)
              case None =>
                && r.Scheduled? && fresh(r.task)
                && handles == old(handles)[r.task.id := r.task] && repr == old(repr) + {r.task}
                && r.task.Job() == Job(old(model.nextID) + 1, owner.value, old(model.now) + delay, interval)
    {
      hide QueueOk, ActiveIds, QueuedJobs, Inv, RegisteredOk, HandlesOk, ModelOk, Issue;
      if !hasHandler {
        return Refused(NilHandler);
      }
      if delay == 0 {
        return Refused(if interval == 0 then InvalidDelay else InvalidInterval);
      }
      if owner.None? {
        return Refused(Closed);
      }
      EnsureOwner(owner.value);
      if !owners[owner.value].open {
        return Refused(Closed);
      }
      if MAX_TICK - now < delay {
        return Refused(DeadlineOverflow);
      }
      var task := new Task(nextID + 1, owner.value, now + delay, interval);
      Admit(task, delay);
      r := Scheduled(task);
    }

    /** The part of schedule that registers and queues a new task. */
    method Admit(task: Task, ghost delay: nat)
      requires Valid()
      requires task.id == nextID + 1 && task !in queue.tasks && task !in repr
      requires task.active && task.index == -1 && now < task.due <= MAX_TICK && task.due == now + delay
      requires task.owner in owners && owners[task.owner].open
      modifies this, queue, repr`index, task`index
      ensures Valid() && model == Issue(old(model), old(task.Job()), delay)
      ensures handles == old(handles)[task.id := task] && repr == old(repr) + {task}
      ensures task.Job() == old(task.Job()) && task.id !in old(handles)
    {
      hide QueueOk, ActiveIds, QueuedJobs, Inv, Jobs, Ids, HandlesOk, RegisteredOk;
      IssueContents(model, task.Job(), delay);
      IssueKeepsInv(model, task.Job(), delay);
      RunningIsIssued(model);
      Record(task);
      Enqueue(task);
      model := Issue(model, task.Job(), delay);
    }

    /** Counts a new task in, before it is queued. */
    method Record(task: Task)
      requires HandlesOk() && QueueOk() && RegisteredOk()
      requires task.id == nextID + 1 && task !in queue.tasks
      requires task.active && task.index == -1 && task.owner in owners
      modifies this`nextID, this`byOwner, this`owners, this`handles, this`repr
      ensures HandlesOk() && QueueOk() && RegisteredOk()
      ensures task.id !in old(handles)
      ensures nextID == task.id && handles == old(handles)[task.id := task] && repr == old(repr) + {task}
      ensures ActiveIds() == old(ActiveIds()) + {task.id}
      ensures owners.Keys == old(owners.Keys) && forall o | o in owners :: owners[o].open == old(owners)[o].open
    {
      hide QueueOk, ActiveIds, Registered;
      RegisterOne(byOwner, owners, handles, ActiveIds(), task.id, task);
      nextID := nextID + 1;
      byOwner := Register(byOwner, task.id, task);
      owners := AddPending(owners, task.owner, 1);
      AddHandle(task);
    }

    method AddHandle(task: Task)
      requires QueueOk() && task.id !in handles
      requires task.active && task.index == -1 && task !in queue.tasks
      modifies this`handles, this`repr
      ensures QueueOk() && handles == old(handles)[task.id := task] && repr == old(repr) + {task}
      ensures ActiveIds() == old(ActiveIds()) + {task.id}
    {
      handles := handles[task.id := task];
      repr := repr + {task};
    }

    /** heap.Push of a task that was handed out. */
    method Enqueue(task: Task)
      requires QueueOk() && task.id in handles && handles[task.id] == task && task.index == -1
      modifies queue, repr`index
      ensures QueueOk() && QueuedJobs() == old(QueuedJobs()) + {task.Job()}
    {
      queue.Push(task);
      Positions(queue);
      QueuedIsMembers();
    }

    lemma QueuedIsMembers()
      ensures QueuedJobs() == set t | t in Members(queue.tasks) :: t.Job()
      ensures forall t :: t in queue.tasks <==> t in Members(queue.tasks)
    {
    }

    /** Takes a task out of the queue, if it is there. */
    method Withdraw(task: Task)
      requires QueueOk() && task.id in handles && handles[task.id] == task
      modifies queue, repr`index
      ensures QueueOk() && task !in queue.tasks
      ensures QueuedJobs() == set j | j in old(QueuedJobs()) && j.id != task.id
    {
      Positions(queue);
      if task.index >= 0 {
        var removed := queue.Remove(task.index);
        Positions(queue);
      }
      QueuedIsMembers();
    }

    /** Marks a task inactive and drops it from the owner index. */
    method Retire(task: Task)
      requires HandlesOk() && RegisteredOk()
      requires task.id in handles && handles[task.id] == task && task.active
      modifies task`active, this`byOwner, this`owners
      ensures HandlesOk() && RegisteredOk() && !task.active
      ensures ActiveIds() == old(ActiveIds()) - {task.id}
      ensures owners.Keys == old(owners.Keys) && forall o | o in owners :: owners[o].open == old(owners)[o].open
    {
      hide Registered;
      UnregisterOne(byOwner, owners, handles, ActiveIds(), task.id);
      assert forall id | id in handles && handles[id] == task :: id == task.id;
      task.active := false;
      byOwner := Unregister(byOwner, task.owner, task.id);
      owners := AddPending(owners, task.owner, -1);
      assert ActiveIds() == old(ActiveIds()) - {task.id};
    }

    /** cancel */
    method CancelTask(task: Task) returns (ok: bool)
      requires Valid() && task.id in handles && handles[task.id] == task
      modifies this, queue, repr`index, repr`active
      ensures Valid() && model == Exec(old(model), Cancel(task.id))
      ensures ok == Active(old(model), task.id)
      ensures handles == old(handles) && repr == old(repr)
    {
      hide QueueOk, QueuedJobs, Inv, Ids, RegisteredOk, Active;
      ActiveIsId(model, task.id);
      if !task.active {
        return false;
      }
      CancelContents(model, task.id);
      ExecKeepsInv(model, Cancel(task.id));
      Retire(task);
      Withdraw(task);
      model := Exec(model, Cancel(task.id));
      return true;
    }

    /** closeOwner */
    method CloseOwner(owner: Owner)
      requires Valid()
      modifies this`byOwner, this`owners, this`model, queue, repr`index, repr`active
      ensures Valid() && model == Exec(old(model), Close(owner))
      ensures owner !in byOwner
    {
      hide QueueOk, QueuedJobs, Inv, Jobs, Ids, HandlesOk, RegisteredOk, Registered, ActiveIds, TasksOf, Exec;
      CloseFields(model, owner);
      ghost var gone := TasksOf(byOwner, owner).Keys;
      OwnedIds(owner);
      ExecKeepsInv(model, Close(owner));
      CloseContents(model, owner, gone);
      if owner in owners {
        RemoveOwnerTasks(owner);
      }
      model := Exec(model, Close(owner));
    }

    lemma OwnedIds(owner: Owner)
      requires Valid()
      ensures var gone := TasksOf(byOwner, owner).Keys;
              && (forall j | j in model.queue :: j.id in gone <==> j.owner == owner)
              && (model.running.Some? ==> (model.running.value.id in gone <==> model.running.value.owner == owner))
              && (owner !in owners ==> gone == {} && owner !in byOwner)
    {
      hide Inv, Registered, FieldsOk;
      OwnersTasks(byOwner, owners, handles, ActiveIds(), owner);
      forall j | j in model.queue
        ensures j.id in TasksOf(byOwner, owner).Keys <==> j.owner == owner
      {
        assert j in Jobs(model.queue);
        assert j.id in Ids(model.queue, model.running);
        var t :| t in queue.tasks && t.Job() == j;
      }
    }

    /** One task of removeOwnerLocked. */
    method Drop(task: Task, owner: Owner)
      requires HandlesOk() && QueueOk() && owner in owners
      requires task.id in handles && handles[task.id] == task
      modifies this`owners, queue, repr`index, task`active
      ensures HandlesOk() && QueueOk()
      ensures ActiveIds() == old(ActiveIds()) - {task.id}
      ensures QueuedJobs() == set j | j in old(QueuedJobs()) && j.id != task.id
      ensures owners == AddPending(old(owners), owner, -1)
    {
      hide QueueOk, QueuedJobs;
      assert forall id | id in handles && handles[id] == task :: id == task.id;
      task.active := false;
      Withdraw(task);
      owners := AddPending(owners, owner, -1);
    }

    method CloseFlag(owner: Owner)
      requires HandlesOk() && owner in owners
      modifies this`owners
      ensures HandlesOk() && owners == old(owners)[owner := OwnerState(false, old(owners)[owner].pending)]
    {
      owners := owners[owner := owners[owner].(open := false)];
    }

    lemma IdOf(id: nat)
      requires HandlesOk() && id in handles
      ensures handles[id].id == id && handles[id] in repr
    {
    }

    /** Closes an owner and runs the loop of removeOwnerLocked. */
    method DropAll(owner: Owner, tasks: map<nat, Task>)
      requires HandlesOk() && QueueOk() && owner in owners && owners[owner].pending == |tasks|
      requires forall id | id in tasks :: id in handles && tasks[id] == handles[id]
      modifies this`owners, queue, repr`index, repr`active
      ensures HandlesOk() && QueueOk()
      ensures ActiveIds() == old(ActiveIds()) - tasks.Keys
      ensures QueuedJobs() == set j | j in old(QueuedJobs()) && j.id !in tasks
      ensures owners == old(owners)[owner := OwnerState(false, 0)]
    {
      hide QueueOk, QueuedJobs, ActiveIds, HandlesOk;
      CloseFlag(owner);
      var left := tasks.Keys;
      while left != {}
        invariant left <= tasks.Keys && HandlesOk()
        invariant QueueOk()
        invariant ActiveIds() == old(ActiveIds()) - (tasks.Keys - left)
        invariant QueuedJobs() == set j | j in old(QueuedJobs()) && j.id !in tasks.Keys - left
        invariant owners == old(owners)[owner := OwnerState(false, |left|)]
        decreases |left|
      {
        var id :| id in left;
        IdOf(id);
        Drop(tasks[id], owner);
        left := left - {id};
      }
    }

    /** closeOwner of an owner that has a state, with removeOwnerLocked */
    method RemoveOwnerTasks(owner: Owner)
      requires HandlesOk() && QueueOk() && RegisteredOk() && owner in owners
      modifies this`byOwner, this`owners, queue, repr`index, repr`active
      ensures HandlesOk() && QueueOk() && RegisteredOk()
      ensures byOwner == old(byOwner) - {owner}
      ensures owners == old(owners)[owner := OwnerState(false, 0)]
      ensures ActiveIds() == old(ActiveIds()) - TasksOf(old(byOwner), owner).Keys
      ensures QueuedJobs() == set j | j in old(QueuedJobs()) && j.id !in TasksOf(old(byOwner), owner)
    {
      hide QueueOk, QueuedJobs, Registered, ActiveIds, TasksOf, HandlesOk;
      OwnersTasks(byOwner, owners, handles, ActiveIds(), owner);
      UnregisterOwner(byOwner, owners, handles, ActiveIds(), owner);
      DropAll(owner, TasksOf(byOwner, owner));
      byOwner := byOwner - {owner};
    }

    /** cancel of a task that a caller may or may not have been given */
    method CancelHandle(id: nat)
      requires Valid()
      modifies this, queue, repr`index, repr`active
      ensures Valid() && model == Exec(old(model), Cancel(id))
      ensures handles == old(handles) && repr == old(repr)
    {
      hide QueueOk, QueuedJobs, Inv, RegisteredOk, Active;
      if id in handles {
        assert handles[id].id == id;
        var ok := CancelTask(handles[id]);
      } else {
        ActiveIsId(model, id);
        assert id !in ActiveIds();
      }
    }

    /** The root of the heap is the head of the model's list. */
    lemma RootIsHead()
      requires QueueOk() && Jobs(model.queue) == QueuedJobs() && Sorted(model.queue)
      ensures |queue.tasks| > 0 <==> |model.queue| > 0
      ensures |queue.tasks| > 0 ==> queue.tasks[0].Job() == model.queue[0]
    {
      if |queue.tasks| > 0 {
        var root := queue.tasks[0];
        assert root in queue.tasks && root.Job() in Jobs(model.queue);
        HeadFirst(model.queue);
        assert model.queue == [model.queue[0]] + model.queue[1..];
        assert model.queue[0] in Jobs(model.queue);
        var t :| t in queue.tasks && t.Job() == model.queue[0];
        var i :| 0 <= i < |queue.tasks| && queue.tasks[i] == t;
        RootIsLeast(queue.tasks, i);
      }
      assert |model.queue| > 0 ==> model.queue[0] in Jobs(model.queue);
    }

    /** Does the loop of advance have something to do? */
    method IsDue() returns (due: bool)
      requires Valid()
      ensures due == HeadDue(model)
      ensures due ==> |queue.tasks| > 0
    {
      hide HandlesOk, RegisteredOk, Ids, Jobs, QueuedJobs, ActiveIds, QueueOk;
      RootIsHead();
      due := |queue.tasks| > 0 && queue.tasks[0].due <= now;
    }

    /** heap.Pop */
    method Dequeue() returns (task: Task)
      requires QueueOk() && |queue.tasks| > 0
      modifies queue, repr`index
      ensures task == old(queue.tasks)[0] && task.id in handles && handles[task.id] == task && task in repr
      ensures QueueOk() && task !in queue.tasks && task.index == -1
      ensures QueuedJobs() == old(QueuedJobs()) - {task.Job()}
    {
      Positions(queue);
      ghost var tasks := queue.tasks;
      assert tasks[0] in tasks;
      task := queue.Pop();
      Positions(queue);
      QueuedIsMembers();
      assert forall t | t in queue.tasks :: t.id != task.id;
    }

    /** The first locked section of a round. */
    method TakeDue() returns (task: Task)
      requires Valid() && HeadDue(model) && model.running.None?
      modifies this`byOwner, this`owners, this`model, queue, repr`index, repr`active
      ensures Valid() && model == Pop(old(model))
      ensures task.id in handles && handles[task.id] == task && task in repr && task.Job() == old(model).queue[0]
    {
      hide QueueOk, QueuedJobs, Inv, Jobs, Ids, RegisteredOk, ActiveIds, HandlesOk;
      RootAgrees();
      PopContents(model);
      PopKeepsInv(model);
      ghost var m := model;
      HeadIsActive();
      task := Dequeue();
      if task.interval == 0 {
        Retire(task);
      }
      model := Pop(m);
    }

    lemma RootAgrees()
      requires Valid()
      ensures |queue.tasks| > 0 <==> |model.queue| > 0
      ensures |queue.tasks| > 0 ==> queue.tasks[0].Job() == model.queue[0]
    {
      hide HandlesOk, RegisteredOk, Ids, Jobs, QueuedJobs, ActiveIds, QueueOk;
      RootIsHead();
    }

    lemma HeadIsActive()
      requires Valid() && |model.queue| > 0
      ensures var id := model.queue[0].id; id in handles && handles[id] in repr && handles[id].active
    {
      hide HandlesOk, RegisteredOk, QueuedJobs, QueueOk, Inv;
      assert model.queue[0] in model.queue;
      assert model.queue[0].id in ActiveIds();
    }

    /** The last locked section of a round, for a repeating task whose handler
        was run: requeue it if it is still wanted. */
    method Settle(task: Task) returns (overflow: bool)
      requires Valid() && task.id in handles && handles[task.id] == task && task.interval > 0
      requires CheckOk(model, task.Job())
      modifies this`byOwner, this`owners, this`model, queue, repr`index, repr`active, task`due
      ensures Valid() && model == Requeue(old(model), old(task.Job()))
      ensures overflow == (Wanted(old(model), old(task.Job())) && MAX_TICK - old(model).now < task.interval)
    {
      hide QueueOk, QueuedJobs, Inv, Jobs, Ids, RegisteredOk, ActiveIds, HandlesOk;
      overflow := false;
      ghost var m, job := model, task.Job();
      RequeueKeepsInv(m, job);
      RequeueContents(m, job);
      RunningIsActive(task);
      if task.active && task.owner in enabled && owners[task.owner].open {
        if MAX_TICK - now < task.interval {
          Retire(task);
          overflow := true;
        } else {
          task.due := now + task.interval;
          Enqueue(task);
        }
      } else if task.active {
        Retire(task);
      }
      model := Requeue(m, job);
    }

    /** While a task is being run it is active exactly if it is the running one. */
    lemma RunningIsActive(task: Task)
      requires Valid() && task.id in handles && handles[task.id] == task
      requires CheckOk(model, task.Job())
      ensures task.active <==> model.running.Some?
      ensures task in repr && task.index == -1 && task !in queue.tasks && task.owner in owners
      ensures model.running.Some? ==> task.id in ActiveIds()
    {
      hide RegisteredOk, Inv;
      forall t | t in queue.tasks ensures t.id != task.id {
        assert t.Job() in QueuedJobs();
        assert t.Job() in Jobs(model.queue);
      }
      assert task.active <==> task.id in ActiveIds();
      assert task.id in Ids(model.queue, model.running) <==> model.running.Some?;
    }

    /** The frame of what other code may do: tasks handed out keep their
        identity, and no deadline changes. */
    twostate predicate HandlesGrow()
      reads this
    {
      && old(repr) <= repr
      && (forall t | t in repr && t !in old(repr) :: !old(allocated(t)))
      && (forall id | id in old(handles) :: id in handles && handles[id] == old(handles)[id])
    }

    /** One call by a handler or another thread. */
    method ExecOp(op: Op)
      requires Valid()
      modifies this, queue, repr`index, repr`active
      ensures Valid() && model == Exec(old(model), op)
      ensures HandlesGrow()
    {
      hide Valid, Exec;
      match op
      case Schedule(owner, delay, interval, hasHandler) =>
        var r := ScheduleTask(owner, delay, interval, hasHandler);
      case Cancel(id) => CancelHandle(id);
      case Open(who) => OpenOwner(who);
      case Close(who) => CloseOwner(who);
      case SetEnabled(who, on) => SetEnabledFlag(who, on);
    }

    method ExecOps(ops: seq<Op>)
      requires Valid()
      modifies this, queue, repr`index, repr`active
      ensures Valid() && model == ExecAll(old(model), ops)
      ensures HandlesGrow()
    {
      hide Valid, Exec;
      var i := 0;
      while i < |ops|
        invariant i <= |ops| && Valid()
        invariant ExecAll(model, ops[i..]) == ExecAll(old(model), ops)
        invariant HandlesGrow()
      {
        assert ops[i..][1..] == ops[i + 1..];
        ExecOp(ops[i]);
        i := i + 1;
      }
    }

    lemma Facts()
      requires Valid()
      ensures Inv(model) && model.enabled == enabled && model.now == now
    {
    }

    /** Notes in the model that a handler is being run. */
    ghost method LogRun(job: Job)
      requires Valid()
      modifies this`model
      ensures Valid() && model == old(model).(log := old(model).log + [Ran(job, old(model).now)])
      ensures CheckOk(old(model), job) ==> CheckOk(model, job)
    {
      hide QueueOk, HandlesOk, RegisteredOk, Jobs, Ids, QueuedJobs, ActiveIds;
      model := model.(log := model.log + [Ran(job, model.now)]);
    }

    /** The rest of a round whose task belongs to a disabled plugin. */
    method Skip(task: Task, w: Window)
      requires Valid() && task.id in handles && handles[task.id] == task
      modifies this, queue, repr`index, repr`active
      ensures Valid() && model == Skipped(old(model), old(task.Job()), w)
      ensures HandlesGrow()
    {
      hide Valid, Exec, ExecAll;
      ExecOps(w.during);
      if task.interval != 0 {
        var ok := CancelTask(task);
      }
    }

    /** The rest of a round whose handler is run. */
    method Handle(task: Task, w: Window) returns (failures: seq<nat>)
      requires Valid() && task.id in handles && handles[task.id] == task && task in repr
      requires CheckOk(model, task.Job())
      modifies this, queue, repr
      ensures Valid() && model == Handled(old(model), old(task.Job()), w)
      ensures failures == HandlerFailures(old(model), old(task.Job()), w)
      ensures HandlesGrow()
    {
      hide Valid, Exec, ExecAll, Requeue, CheckOk, Wanted;
      LogRun(task.Job());
      CheckStays(model, w.during, task.Job());
      ExecOps(w.during);
      failures := if w.fails then [task.id] else [];
      if task.interval != 0 {
        var overflow := Settle(task);
        if overflow {
          failures := failures + [task.id];
        }
      }
    }

    /** One round of advance: pop a due task, run its handler unless its owner is
        disabled, and requeue or drop it. */
    method RunRound(w: Window) returns (spent: bool, failures: seq<nat>)
      requires Valid() && HeadDue(model) && model.running.None?
      modifies this, queue, repr
      ensures Valid() && model == Round(old(model), w) && model.running.None?
      ensures spent == Spends(old(model), w) && failures == RoundFailures(old(model), w)
      ensures HandlesGrow()
    {
      hide Valid, ExecAll, Pop, CheckOk, Inv, Handled, Skipped, HandlerFailures;
      Facts();
      AtCheck(model, w);
      var task := TakeDue();
      ExecOps(w.before);
      Facts();
      spent := task.owner in enabled;
      if spent {
        failures := Handle(task, w);
      } else {
        failures := [];
        Skip(task, w);
      }
      ExecOps(w.after);
    }

    /** advance: what it does to the state is what the sorted list does, and the
        failures it reports are those of the list. */
    method AdvanceTick(limit: int, lead: seq<Op>, ws: seq<Window>) returns (failures: seq<nat>)
      requires Valid() && model.running.None?
      modifies this, queue, repr
      ensures Valid() && model == Advance(old(model), limit, lead, ws) && model.running.None?
      ensures limit <= 0 ==> failures == []
      ensures limit > 0 ==>
                failures == Failures(ExecAll(old(model).(now := old(model).now + 1), lead), limit, ws)
      ensures HandlesGrow()
    {
      hide Valid, Exec, ExecAll, Round, Inv, Spends, RoundFailures;
      NextTick();
      failures := [];
      if limit <= 0 {
        return;
      }
      ghost var t := model;
      ExecOps(lead);
      Facts();
      ExecAllIdle(t, lead);
      failures := RunLoop(limit, ws);
    }

    /** The loop of advance. */
    method RunLoop(limit: nat, ws: seq<Window>) returns (failures: seq<nat>)
      requires Valid() && model.running.None?
      modifies this, queue, repr
      ensures Valid() && model == Loop(old(model), limit, ws) && model.running.None?
      ensures failures == Failures(old(model), limit, ws)
      ensures HandlesGrow()
    {
      hide Valid, Round, Inv, Spends, RoundFailures, DueCount;
      failures := [];
      var executed := 0;
      var rest := ws;
      var due := IsDue();
      while executed < limit && due
        invariant 0 <= executed <= limit && Valid() && model.running.None?
        invariant due == HeadDue(model)
        invariant Loop(old(model), limit, ws) == Loop(model, limit - executed, rest)
        invariant Failures(old(model), limit, ws) == failures + Failures(model, limit - executed, rest)
        invariant HandlesGrow()
        decreases DueCount(model.queue, model.now)
      {
        RoundProgress(model, First(rest));
        var spent, failed := RunRound(First(rest));
        failures := failures + failed;
        executed := if spent then executed + 1 else executed;
        rest := Rest(rest);
        due := IsDue();
      }
    }

    /** The first locked section of advance. */
    method NextTick()
      requires Valid() && model.running.None?
      modifies this`now, this`model
      ensures Valid() && model == old(model).(now := old(model).now + 1) && Inv(model)
    {
      hide QueueOk, HandlesOk, RegisteredOk, Jobs, Ids, QueuedJobs, ActiveIds;
      now := now + 1;
      model := model.(now := now);
    }
  }

  /** What Valid says of the fields alone, without the model: the queue is a
      (due, id) heap whose tasks know their positions, the index and the counters
      record exactly the active tasks, and the one active task that may be off
      the queue is a repeating one. */
  lemma RepresentationInvariant(s: Scheduler)
    requires s.Valid()
    ensures forall i | 0 <= i < |s.queue.tasks| :: s.queue.tasks[i].index == i && s.queue.tasks[i].active
    ensures forall c | 0 < c < |s.queue.tasks| ::
              !Before(s.queue.tasks[c].Job(), s.queue.tasks[Parent(c)].Job())
    ensures forall id | id in s.handles && s.handles[id] !in s.queue.tasks :: s.handles[id].index == -1
    ensures forall o: Owner :: TasksOf(s.byOwner, o) == OwnedBy(s.handles, s.ActiveIds(), o)
    ensures forall o | o in s.owners :: s.owners[o].pending == |TasksOf(s.byOwner, o)|
    ensures forall i, j | i in s.ActiveIds() && j in s.ActiveIds()
                          && s.handles[i] !in s.queue.tasks && s.handles[j] !in s.queue.tasks :: i == j
    ensures forall i | i in s.ActiveIds() && s.handles[i] !in s.queue.tasks :: s.handles[i].interval > 0
  {
    QueuedAreActive(s);
    IndexIsExact(s);
    OffQueueIsRunning(s);
    forall c | 0 < c < |s.queue.tasks|
      ensures !Before(s.queue.tasks[c].Job(), s.queue.tasks[Parent(c)].Job())
    {
      assert OrderedAt(s.queue.tasks, c);
    }
  }

  lemma QueuedAreActive(s: Scheduler)
    requires s.Valid()
    ensures forall t | t in s.queue.tasks :: t.active
  {
    hide Inv, Registered;
    forall t | t in s.queue.tasks ensures t.active {
      assert t.Job() in s.QueuedJobs();
      assert t.id in s.ActiveIds();
    }
  }

  lemma IndexIsExact(s: Scheduler)
    requires s.Valid()
    ensures forall o: Owner :: TasksOf(s.byOwner, o) == OwnedBy(s.handles, s.ActiveIds(), o)
    ensures forall o | o in s.owners :: s.owners[o].pending == |TasksOf(s.byOwner, o)|
  {
    forall o: Owner ensures TasksOf(s.byOwner, o) == OwnedBy(s.handles, s.ActiveIds(), o) {
      if o in s.owners {
        assert SlotOk(s.byOwner, s.owners, s.handles, s.ActiveIds(), o);
      }
    }
  }

  lemma OffQueueIsRunning(s: Scheduler)
    requires s.Valid()
    ensures forall i | i in s.ActiveIds() && s.handles[i] !in s.queue.tasks ::
              s.model.running.Some? && s.model.running.value.id == i && s.handles[i].interval > 0
  {
    hide Registered;
    forall j | j in s.model.queue
      ensures j.id in s.handles && s.handles[j.id] in s.queue.tasks
    {
      assert j in s.QueuedJobs();
    }
    forall i | i in s.ActiveIds() && s.handles[i] !in s.queue.tasks
      ensures s.model.running.Some? && s.model.running.value.id == i && s.handles[i].interval > 0
    {
      assert i in Ids(s.model.queue, s.model.running);
    }
  }

  /** An active task has a job in the model, with the same owner. */
  lemma JobOf(s: Scheduler, id: nat) returns (j: Job)
    requires s.Valid() && id in s.ActiveIds()
    ensures j in s.model.queue || s.model.running == Some(j)
    ensures j.id == id && s.handles[id].owner == j.owner
  {
    hide Inv, Registered;
    assert id in Ids(s.model.queue, s.model.running);
    if s.model.running.Some? && s.model.running.value.id == id {
      j := s.model.running.value;
    } else {
      j :| j in s.model.queue && j.id == id;
      assert j in s.QueuedJobs();
    }
  }

  lemma Positions(heap: Heap)
    requires heap.Valid()
    ensures forall t | t in heap.tasks :: 0 <= t.index < |heap.tasks| && heap.tasks[t.index] == t
  {
  }
}
