/** The three owner-scoped registries together, with the flags that gate them,
    and what plugin code may do to them.

    Plugin code is a list of actions, each one call into the event bus, the
    command registry or the scheduler; it runs inside hooks, handlers and tasks.
    Quiet says that an owner holds nothing in any of the three and that none of
    them would accept anything more from it. The lemmas here say which actions
    and which steps of disabling an owner keep that, and the class ties the
    registries' own contracts together for the manager. */
module PluginHost {
  import opened Collections
  import opened PluginOwner
  import EventBus
  import CommandRegistry
  import TaskModel
  import TaskScheduler
  import TaskTheorems

  /** A call that plugin code makes through its context or through a handle it
      kept. `early` is what the call read of the owner's acceptSubscriptions
      flag before it took the registry's lock. */
  datatype Action =
    | Subscribe(owner: Owner, early: bool, t: EventBus.Type, hasHandler: bool)
    | CancelSubscription(t: EventBus.Type, id: nat)
    | RegisterCommand(owner: Owner, early: bool, d: CommandRegistry.Definition, hasHandler: bool)
    | UnregisterCommand(id: nat)
    | ScheduleTask(owner: Owner, delay: nat, interval: nat, hasHandler: bool)
    | CancelTask(id: nat)

  // ----- what belongs to an owner -----

  ghost predicate NoHandlers(table: EventBus.Table, o: Owner) {
    forall t | t in table :: forall h | h in table[t] :: h.owner != o
  }

  ghost predicate NoCommands(byID: map<nat, CommandRegistry.Record>, o: Owner) {
    forall id | id in byID :: byID[id].owner != o
  }

  ghost predicate NoTasks(m: TaskModel.Sched, o: Owner) {
    && o !in m.open
    && (forall j | j in m.queue :: j.owner != o)
    && (m.running.Some? ==> m.running.value.owner != o)
  }

  lemma AddedKeepsOthers(table: EventBus.Table, t: EventBus.Type, h: EventBus.Handler, o: Owner)
    requires NoHandlers(table, o) && h.owner != o
    ensures NoHandlers(EventBus.Added(table, t, h), o)
  {
  }

  lemma {:induction false} DroppedIsPart(handlers: seq<EventBus.Handler>, id: nat)
    ensures forall h | h in EventBus.Dropped(handlers, id) :: h in handlers
  {
    if handlers != [] {
      DroppedIsPart(handlers[1..], id);
    }
  }

  lemma RemovalKeepsOthers(table: EventBus.Table, t: EventBus.Type, id: nat, after: EventBus.Table, o: Owner)
    requires NoHandlers(table, o)
    requires EventBus.Handlers(after, t) == EventBus.Dropped(EventBus.Handlers(table, t), id)
    requires after - {t} == table - {t}
    ensures NoHandlers(after, o)
  {
    DroppedIsPart(EventBus.Handlers(table, t), id);
    forall u | u in after
      ensures forall h | h in after[u] :: h.owner != o
    {
      if u != t {
        assert u in after - {t} && (after - {t})[u] == (table - {t})[u];
      }
    }
  }

  /** Nothing but openOwner lets a closed owner have tasks again. */
  lemma ExecKeepsNoTasks(m: TaskModel.Sched, op: TaskModel.Op, o: Owner)
    requires NoTasks(m, o) && op != TaskModel.Open(o)
    ensures NoTasks(TaskModel.Exec(m, op), o)
  {
    match op
    case Schedule(owner, delay, interval, hasHandler) =>
      if TaskModel.Refusal(m, owner, delay, interval, hasHandler).None? {
        TaskTheorems.InsertMembers(m.queue, TaskModel.Job(m.nextID + 1, owner.value, m.now + delay, interval));
      }
    case Cancel(id) => TaskTheorems.RemoveMembers(m.queue, id);
    case Close(who) => TaskTheorems.RemoveOwnerMembers(m.queue, who);
    case _ =>
  }

  lemma CloseLeavesNoTasks(m: TaskModel.Sched, o: Owner)
    ensures NoTasks(TaskModel.Exec(m, TaskModel.Close(o)), o)
  {
    TaskTheorems.RemoveOwnerMembers(m.queue, o);
  }

  lemma PurgedKeepsOthers(table: EventBus.Table, owner: Owner, o: Owner)
    requires NoHandlers(table, o)
    ensures NoHandlers(EventBus.Purged(table, table.Keys, owner), o)
  {
    var after := EventBus.Purged(table, table.Keys, owner);
    forall t | t in after
      ensures forall h: EventBus.Handler | h in after[t] :: h.owner != o
    {
      assert after[t] == EventBus.Kept(table[t], owner);
    }
  }

  class Host {
    const events: EventBus.Bus
    const commands: CommandRegistry.Registry
    const scheduler: TaskScheduler.Scheduler

    /** The owners whose acceptSubscriptions flag is set. */
    var accepting: set<Owner>

    ghost predicate Valid()
      reads events, commands, scheduler, scheduler.queue, scheduler.queue.tasks, scheduler.repr
    {
      events.Valid() && commands.Valid() && scheduler.Valid()
    }

    /** The owner holds nothing in the three registries, and none of them would
        take anything from it. */
    ghost predicate Quiet(o: Owner)
      reads this`accepting, events`table, commands`byID, scheduler`model
    {
      && o !in accepting
      && o !in scheduler.model.enabled
      && NoHandlers(events.table, o) && NoCommands(commands.byID, o) && NoTasks(scheduler.model, o)
    }

    /** The part of Quiet that holds before the owner's registrations are dropped. */
    ghost predicate ShutOut(o: Owner)
      reads this`accepting, scheduler`model
    {
      o !in accepting && o !in scheduler.model.enabled && NoTasks(scheduler.model, o)
    }

    /** The tasks that have been added are new objects. */
    twostate predicate Grew()
      reads scheduler`repr
    {
      forall t | t in scheduler.repr && t !in old(scheduler.repr) :: !old(allocated(t))
    }

    /** What plugin code cannot undo: where an owner is shut out it stays out,
        and the flags are not its to set. */
    twostate predicate Confined()
      reads this`accepting, events`table, commands`byID, scheduler`model
    {
      && accepting == old(accepting)
      && scheduler.model.enabled == old(scheduler.model.enabled) && scheduler.model.open == old(scheduler.model.open)
      && (forall o | o !in accepting && NoHandlers(old(events.table), o) :: NoHandlers(events.table, o))
      && (forall o | o !in accepting && NoCommands(old(commands.byID), o) :: NoCommands(commands.byID, o))
      && (forall o | NoTasks(old(scheduler.model), o) :: NoTasks(scheduler.model, o))
    }

    constructor ()
      ensures Valid() && forall o :: Quiet(o)
      ensures fresh(events) && fresh(commands) && fresh(scheduler) && fresh(scheduler.queue) && scheduler.repr == {}
    {
      hide TaskScheduler.Scheduler.Valid, EventBus.Bus.Valid, CommandRegistry.Registry.Valid;
      events := new EventBus.Bus();
      commands := new CommandRegistry.Registry();
      scheduler := new TaskScheduler.Scheduler();
      accepting := {};
    }

    /** One call by plugin code, from any goroutine. */
    method Act(a: Action)
      requires Valid()
      modifies events, commands, scheduler, scheduler.queue, scheduler.repr
      ensures Valid() && Confined()
      ensures Grew()
    {
      match a
      case Subscribe(owner, early, t, hasHandler) => OnSubscribe(owner, early, t, hasHandler);
      case CancelSubscription(t, id) => OnCancelSubscription(t, id);
      case RegisterCommand(owner, early, d, hasHandler) => OnRegister(owner, early, d, hasHandler);
      case UnregisterCommand(id) => OnUnregister(id);
      case ScheduleTask(owner, delay, interval, hasHandler) =>
        OnTasks(TaskModel.Schedule(Some(owner), delay, interval, hasHandler));
      case CancelTask(id) => OnTasks(TaskModel.Cancel(id));
    }

    method OnSubscribe(owner: Owner, early: bool, t: EventBus.Type, hasHandler: bool)
      requires Valid()
      modifies events
      ensures Valid() && Confined()
    {
      hide NoTasks, NoHandlers, NoCommands;
      hide TaskScheduler.Scheduler.Valid, EventBus.Bus.Valid, CommandRegistry.Registry.Valid;
      var r := events.Add(owner, early, owner in accepting, t, hasHandler);
      if r.Subscribed? {
        forall o | o !in accepting && NoHandlers(old(events.table), o)
          ensures NoHandlers(events.table, o)
        {
          AddedKeepsOthers(old(events.table), t, EventBus.Handler(r.id, owner), o);
        }
      }
    }

    method OnCancelSubscription(t: EventBus.Type, id: nat)
      requires Valid()
      modifies events
      ensures Valid() && Confined()
    {
      hide NoTasks, NoHandlers, NoCommands;
      hide TaskScheduler.Scheduler.Valid, EventBus.Bus.Valid, CommandRegistry.Registry.Valid;
      var removed := events.Remove(t, id);
      forall o | o !in accepting && NoHandlers(old(events.table), o)
        ensures NoHandlers(events.table, o)
      {
        RemovalKeepsOthers(old(events.table), t, id, events.table, o);
      }
    }

    method OnRegister(owner: Owner, early: bool, d: CommandRegistry.Definition, hasHandler: bool)
      requires Valid()
      modifies commands
      ensures Valid() && Confined()
    {
      hide NoTasks, NoHandlers;
      hide TaskScheduler.Scheduler.Valid, EventBus.Bus.Valid, CommandRegistry.Registry.Valid, CommandRegistry.ValidDefinition;
      var r := commands.Register(owner, early, owner in accepting, d, hasHandler);
    }

    method OnUnregister(id: nat)
      requires Valid()
      modifies commands
      ensures Valid() && Confined()
    {
      hide NoTasks, NoHandlers;
      hide TaskScheduler.Scheduler.Valid, EventBus.Bus.Valid, CommandRegistry.Registry.Valid;
      var removed := commands.Remove(id);
    }

    method OnTasks(op: TaskModel.Op)
      requires Valid() && (op.Schedule? || op.Cancel?)
      modifies scheduler, scheduler.queue, scheduler.repr
      ensures Valid() && Confined()
      ensures Grew()
    {
      hide NoTasks, NoHandlers, NoCommands;
      hide TaskScheduler.Scheduler.Valid, EventBus.Bus.Valid, CommandRegistry.Registry.Valid;
      scheduler.ExecOp(op);
      forall o | NoTasks(old(scheduler.model), o)
        ensures NoTasks(scheduler.model, o)
      {
        ExecKeepsNoTasks(old(scheduler.model), op, o);
      }
    }

    method Acts(actions: seq<Action>)
      requires Valid()
      modifies events, commands, scheduler, scheduler.queue, scheduler.repr
      ensures Valid() && Confined()
      ensures Grew()
    {
      hide Valid, NoTasks, NoHandlers, NoCommands;
      for i := 0 to |actions|
        invariant Valid() && Confined()
        invariant Grew()
      {
        hide Valid, NoTasks, NoHandlers, NoCommands;
        Act(actions[i]);
      }
    }

    /** Owners other than `o` that were quiet still are. */
    twostate predicate Spares(o: Owner)
      reads this`accepting, events`table, commands`byID, scheduler`model
    {
      forall p | p != o && old(Quiet(p)) :: Quiet(p)
    }

    /** Writes an entry's enabled flag. */
    method SetEnabled(o: Owner, on: bool)
      requires Valid()
      modifies scheduler`enabled, scheduler`model
      ensures Valid() && Spares(o) && accepting == old(accepting)
      ensures scheduler.model.enabled == old(scheduler.model.enabled) + (if on then {o} else {}) - (if on then {} else {o})
      ensures scheduler.model.open == old(scheduler.model.open)
    {
      hide NoHandlers, NoCommands;
      hide TaskScheduler.Scheduler.Valid, EventBus.Bus.Valid, CommandRegistry.Registry.Valid;
      scheduler.SetEnabledFlag(o, on);
    }

    /** Writes an entry's acceptSubscriptions flag. */
    method SetAccepting(o: Owner, on: bool)
      requires Valid()
      modifies this`accepting
      ensures Valid() && Spares(o)
      ensures accepting == if on then old(accepting) + {o} else old(accepting) - {o}
    {
      hide Valid, NoHandlers, NoCommands, NoTasks;
      accepting := if on then accepting + {o} else accepting - {o};
    }

    method Open(o: Owner)
      requires Valid()
      modifies scheduler`owners, scheduler`model
      ensures Valid() && Spares(o) && accepting == old(accepting)
      ensures scheduler.model.enabled == old(scheduler.model.enabled)
      ensures scheduler.model.open == old(scheduler.model.open) + {o}
    {
      hide NoHandlers, NoCommands, NoTasks;
      hide TaskScheduler.Scheduler.Valid, EventBus.Bus.Valid, CommandRegistry.Registry.Valid;
      scheduler.OpenOwner(o);
      forall p | p != o && NoTasks(old(scheduler.model), p)
        ensures NoTasks(scheduler.model, p)
      {
        ExecKeepsNoTasks(old(scheduler.model), TaskModel.Open(o), p);
      }
    }

    method Close(o: Owner)
      requires Valid()
      modifies scheduler, scheduler.queue, scheduler.repr
      ensures Valid() && Spares(o) && accepting == old(accepting)
      ensures NoTasks(scheduler.model, o) && scheduler.model.enabled == old(scheduler.model.enabled)
      ensures scheduler.repr == old(scheduler.repr)
    {
      hide NoHandlers, NoCommands, NoTasks;
      hide TaskScheduler.Scheduler.Valid, EventBus.Bus.Valid, CommandRegistry.Registry.Valid;
      scheduler.CloseOwner(o);
      CloseLeavesNoTasks(old(scheduler.model), o);
      forall p | NoTasks(old(scheduler.model), p)
        ensures NoTasks(scheduler.model, p)
      {
        ExecKeepsNoTasks(old(scheduler.model), TaskModel.Close(o), p);
      }
    }

    /** The part of enabling before the hook. The windows are what plugin code
        does between its steps. */
    method Admit(o: Owner, w: seq<seq<Action>>)
      requires Valid() && |w| == 3
      modifies this, events, commands, scheduler, scheduler.queue, scheduler.repr
      ensures Valid() && Spares(o)
      ensures accepting == old(accepting) + {o}
      ensures scheduler.model.enabled == old(scheduler.model.enabled) - {o}
      ensures scheduler.model.open == old(scheduler.model.open) + {o}
      ensures Grew()
    {
      hide Valid, Quiet, NoTasks, NoHandlers, NoCommands;
      SetEnabled(o, false);
      ActsSpare(o, w[0]);
      SetAccepting(o, true);
      ActsSpare(o, w[1]);
      Open(o);
      ActsSpare(o, w[2]);
    }

    method ActsSpare(o: Owner, actions: seq<Action>)
      requires Valid()
      modifies events, commands, scheduler, scheduler.queue, scheduler.repr
      ensures Valid() && Spares(o) && Confined()
      ensures old(ShutOut(o)) ==> ShutOut(o)
      ensures Grew()
    {
      hide Valid, NoTasks, NoHandlers, NoCommands;
      Acts(actions);
    }

    /** The part of disabling before the hook. */
    method Shut(o: Owner, w: seq<seq<Action>>)
      requires Valid() && |w| == 3
      modifies this, events, commands, scheduler, scheduler.queue, scheduler.repr
      ensures Valid() && Spares(o)
      ensures ShutOut(o)
      ensures Grew()
    {
      hide Valid, Quiet, NoTasks, NoHandlers, NoCommands;
      SetEnabled(o, false);
      ActsSpare(o, w[0]);
      SetAccepting(o, false);
      ActsSpare(o, w[1]);
      Close(o);
      ActsSpare(o, w[2]);
    }

    method DropHandlers(o: Owner)
      requires Valid()
      modifies events
      ensures Valid() && Spares(o) && NoHandlers(events.table, o)
    {
      hide NoCommands, NoTasks;
      hide TaskScheduler.Scheduler.Valid, EventBus.Bus.Valid, CommandRegistry.Registry.Valid;
      var removed := events.RemoveOwner(o);
      forall p | NoHandlers(old(events.table), p)
        ensures NoHandlers(events.table, p)
      {
        PurgedKeepsOthers(old(events.table), o, p);
      }
    }

    method DropCommands(o: Owner)
      requires Valid()
      modifies commands
      ensures Valid() && Spares(o) && NoCommands(commands.byID, o)
    {
      hide NoHandlers, NoTasks;
      hide TaskScheduler.Scheduler.Valid, EventBus.Bus.Valid, CommandRegistry.Registry.Valid;
      var removed := commands.RemoveOwner(o);
    }

    /** The part of disabling after the hook. */
    method Purge(o: Owner, w: seq<seq<Action>>)
      requires Valid() && |w| == 2
      requires ShutOut(o)
      modifies events, commands, scheduler, scheduler.queue, scheduler.repr
      ensures Valid() && Spares(o) && Quiet(o)
      ensures Grew()
    {
      hide Valid, NoTasks, NoHandlers, NoCommands;
      DropHandlers(o);
      ActsSpare(o, w[0]);
      DropCommands(o);
      ActsSpare(o, w[1]);
    }
  }

  /** What Quiet means in the fields of the three registries. */
  lemma QuietHoldsNothing(h: Host, o: Owner)
    requires h.Valid() && h.Quiet(o)
    ensures h.events.Free(o) && h.commands.Free(o)
    ensures o !in h.scheduler.byOwner
    ensures o in h.scheduler.owners ==> h.scheduler.owners[o] == TaskScheduler.OwnerState(false, 0)
    ensures forall t | t in h.scheduler.queue.tasks :: t.owner != o
  {
    NoTasksMeansNoIndex(h.scheduler, o);
    NoCommandsMeansFree(h.commands, o);
  }

  lemma NoCommandsMeansFree(r: CommandRegistry.Registry, o: Owner)
    requires r.Valid() && NoCommands(r.byID, o)
    ensures r.Free(o)
  {
  }

  lemma NoTasksMeansNoIndex(s: TaskScheduler.Scheduler, o: Owner)
    requires s.Valid() && NoTasks(s.model, o)
    ensures o !in s.byOwner
    ensures o in s.owners ==> s.owners[o] == TaskScheduler.OwnerState(false, 0)
    ensures forall t | t in s.queue.tasks :: t.owner != o
  {
    forall t | t in s.queue.tasks ensures t.owner != o {
      assert t.Job() in s.QueuedJobs();
    }
    forall id | id in s.ActiveIds() ensures s.handles[id].owner != o {
      var j := TaskScheduler.JobOf(s, id);
    }
    IndexIsEmpty(s, o);
  }

  lemma IndexIsEmpty(s: TaskScheduler.Scheduler, o: Owner)
    requires s.RegisteredOk() && s.FieldsOk() && o !in s.model.open
    requires forall id | id in s.ActiveIds() :: s.handles[id].owner != o
    ensures o !in s.byOwner
    ensures o in s.owners ==> s.owners[o] == TaskScheduler.OwnerState(false, 0)
  {
    hide TaskTheorems.Inv;
    assert TaskScheduler.OwnedBy(s.handles, s.ActiveIds(), o) == map[];
    if o in s.owners {
      assert TaskScheduler.SlotOk(s.byOwner, s.owners, s.handles, s.ActiveIds(), o);
    }
  }
}
