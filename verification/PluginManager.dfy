/** The plugin manager: registration, transactional enabling and disabling, over
    the three registries.

    Each lifecycle method equates the entries' states, the active flag and the
    trace of hook calls with the functions of PluginLifecycle, whose theorems
    then hold of the manager, and says beside that what the host holds
    afterwards: whatever is not enabled is quiet. What a hook does, how it ends
    and what its plugin code asks of the registries are parameters, so the
    contracts hold whatever plugins do. */
module PluginManager {
  import opened PluginOwner
  import opened PluginHost
  import opened PluginLifecycle

  /** A registered plugin; `owner` names it in the three registries. */
  datatype Entry = Entry(owner: Owner, state: State)

  /** DisableAll's loop, with the plugins before `index` still to do. */
  ghost predicate Unwinding(was: Life, now: Life, index: nat, hooks: nat -> Hook, failures: nat) {
    && |now.states| == |now.order| && now.order == was.order && |was.states| == |was.order| && index <= |now.order|
    && DisableEnabled(now, index, hooks) == DisableEnabled(was, |was.order|, hooks)
    && failures + EnabledFailures(was.states, index, hooks) == EnabledFailures(was.states, |was.order|, hooks)
    && now.states[..index] == was.states[..index]
  }

  lemma UnwindingStarts(l: Life, hooks: nat -> Hook)
    requires Sound(l)
    ensures Unwinding(l, l, |l.order|, hooks, 0)
    ensures forall j | 0 <= j < |l.states| :: l.states[j].Enabled? <==> l.active
  {
    RunningTogether(l);
  }

  lemma UnwindingStep(was: Life, now: Life, i: nat, hooks: nat -> Hook, failures: nat)
    requires Unwinding(was, now, i + 1, hooks, failures)
    ensures |now.states| == |now.order| > i && |was.states| == |was.order| > i && now.states[i] == was.states[i]
    ensures now.order == was.order
    ensures if now.states[i].Enabled?
            then Unwinding(was, DisableEntry(now, i, Disabled, hooks(i)), i, hooks, failures + if hooks(i).fails then 1 else 0)
            else Unwinding(was, now, i, hooks, failures)
  {
    assert was.states[..i + 1][i] == now.states[..i + 1][i];
    assert now.states[..i] == now.states[..i + 1][..i];
  }

  /** EnableAll's loop, with the plugins before k enabled. */
  ghost predicate Winding(was: Life, now: Life, k: nat, enable: nat -> Hook, disable: nat -> Hook) {
    && |now.states| == |now.order| && now.order == was.order && |was.states| == |was.order| && k <= |now.order|
    && EnableFrom(now, k, enable, disable) == EnableFrom(was, 0, enable, disable)
    && FirstFailure(enable, 0, |now.order|) == FirstFailure(enable, k, |now.order|)
  }

  lemma WindingStep(was: Life, now: Life, k: nat, enable: nat -> Hook, disable: nat -> Hook)
    requires Winding(was, now, k, enable, disable) && k < |now.order| && !enable(k).fails
    ensures |now.states| == |now.order|
    ensures Winding(was, EnableEntry(now, k, enable(k)), k + 1, enable, disable)
  {
  }

  /** The steps of disableEntry leave what DisableEntry says. */
  lemma DisableSteps(l: Life, i: nat, success: State, hook: Hook)
    requires i < |l.order| == |l.states|
    ensures var begun := l.(states := l.states[i := Disabling], trace := l.trace + [DisableCall(l.order[i])]);
      begun.(states := begun.states[i := Settled(success, hook)]) == DisableEntry(l, i, success, hook)
  {
    assert l.states[i := Disabling][i := Settled(success, hook)] == l.states[i := Settled(success, hook)];
  }

  lemma WindingStarts(l: Life, enable: nat -> Hook, disable: nat -> Hook)
    requires |l.states| == |l.order|
    ensures Winding(l, l, 0, enable, disable)
  {
  }

  /** Where the loop of EnableAll ends. */
  lemma WindingEnds(was: Life, now: Life, k: nat, enable: nat -> Hook, disable: nat -> Hook)
    requires Winding(was, now, k, enable, disable) && (k == |now.order| || enable(k).fails)
    ensures |now.states| == |now.order| == |was.states| == |was.order| && FirstFailure(enable, 0, |now.order|) == k <= |now.order|
    ensures EnableFrom(was, 0, enable, disable)
         == if k == |now.order| then now.(active := true)
            else RollBack(DisableEntry(EnableEntry(now, k, enable(k)), k, Failed, disable(k)), k, disable).(active := false)
  {
    hide RollBack, DisableEntry, EnableEntry;
  }

  class Manager {
    var order: seq<Id>
    var entries: map<Id, Entry>
    var active: bool
    const host: Host

    /** The lifecycle that the fields stand for, with every hook call so far. */
    ghost var life: Life

    ghost predicate FieldsOk()
      reads this
    {
      && |life.states| == |life.order| && order == life.order && active == life.active
      && (forall i, j | 0 <= i < j < |order| :: order[i] != order[j])
      && (forall id :: id in order <==> id in entries)
      && (forall i | 0 <= i < |order| :: entries[order[i]] == Entry(i, life.states[i]))
    }

    /** Between calls a plugin that does not run holds nothing in any registry. */
    ghost predicate Valid()
      reads this, host, host.events, host.commands, host.scheduler, host.scheduler.queue
      reads host.scheduler.queue.tasks, host.scheduler.repr
    {
      && host.Valid() && FieldsOk() && Sound(life)
      && (forall o: Owner | !active || |order| <= o :: host.Quiet(o))
    }

    constructor ()
      ensures Valid() && life == EMPTY
      ensures fresh(host) && fresh(host.events) && fresh(host.commands) && fresh(host.scheduler)
      ensures fresh(host.scheduler.queue) && host.scheduler.repr == {}
    {
      hide Host.Valid, Host.Quiet;
      order, entries, active := [], map[], false;
      host := new Host();
      life := EMPTY;
    }

    /** Register. `descriptor` is the id that the plugin reports, `valid` whether
        reading and validating its descriptor succeeds. */
    method AddPlugin(hasPlugin: bool, descriptor: Id, valid: bool, loggerFails: bool) returns (r: Result)
      requires Valid()
      modifies this`order, this`entries, this`life
      ensures Valid()
      ensures r == if !hasPlugin then Rejected(NilPlugin)
                   else if active then Rejected(ManagerActive)
                   else if !valid || loggerFails then Rejected(InvalidDescriptor)
                   else if descriptor in old(life).order then Rejected(DuplicatePlugin)
                   else Done
      ensures life == if r.Done? then Register(old(life), descriptor) else old(life)
    {
      hide Host.Valid, Host.Quiet, Sound;
      if !hasPlugin {
        return Rejected(NilPlugin);
      }
      if active {
        return Rejected(ManagerActive);
      }
      if !valid || loggerFails {
        return Rejected(InvalidDescriptor);
      }
      if descriptor in entries {
        return Rejected(DuplicatePlugin);
      }
      RegisterKeepsSound(life, descriptor);
      life := Register(life, descriptor);
      entries := entries[descriptor := Entry(|order|, Registered)];
      order := order + [descriptor];
      return Done;
    }

    method SetState(i: nat, state: State)
      requires FieldsOk() && i < |order|
      modifies this`entries, this`life
      ensures FieldsOk() && life == old(life).(states := old(life).states[i := state])
    {
      entries := entries[order[i] := Entry(i, state)];
      life := life.(states := life.states[i := state]);
    }

    /** Notes in the trace that a hook is being called. */
    ghost method LogCall(call: Call)
      requires FieldsOk()
      modifies this`life
      ensures FieldsOk() && life == old(life).(trace := old(life).trace + [call])
    {
      life := life.(trace := life.trace + [call]);
    }

    /** disableEntry: the flags, the scheduler and the hook first, then the
        registrations. */
    method Disable(i: nat, success: State, hook: Hook) returns (failed: bool)
      requires host.Valid() && FieldsOk() && i < |order|
      modifies this`entries, this`life
      modifies host, host.events, host.commands, host.scheduler, host.scheduler.queue, host.scheduler.repr
      ensures host.Valid() && FieldsOk() && host.Quiet(i) && host.Spares(i)
      ensures failed == hook.fails && life == DisableEntry(old(life), i, success, hook)
      ensures host.Grew()
    {
      hide Host.Valid, Host.Quiet, Host.ShutOut, Host.Confined, FieldsOk, DisableEntry, PluginLifecycle.Settled;
      Lengths();
      DisableSteps(life, i, success, hook);
      host.Shut(i, hook.before);
      SetState(i, Disabling);
      LogCall(DisableCall(order[i]));
      host.ActsSpare(i, hook.during);
      host.Purge(i, hook.after);
      SetState(i, Settled(success, hook));
      failed := hook.fails;
    }

    /** One turn of EnableAll's loop, up to the result of the hook. */
    method Enable(i: nat, hook: Hook) returns (failed: bool)
      requires host.Valid() && FieldsOk() && i < |order|
      modifies this`entries, this`life
      modifies host, host.events, host.commands, host.scheduler, host.scheduler.queue, host.scheduler.repr
      ensures host.Valid() && FieldsOk() && host.Spares(i)
      ensures failed == hook.fails && life == EnableEntry(old(life), i, hook)
      ensures host.Grew()
    {
      hide Host.Valid, Host.Quiet, Host.Confined, FieldsOk;
      Lengths();
      host.Admit(i, hook.before);
      SetState(i, Enabling);
      LogCall(EnableCall(order[i]));
      host.ActsSpare(i, hook.during);
      failed := hook.fails;
      if !failed {
        MarkEnabled(i);
      }
      Lengths();
      assert old(life).states[i := Enabling][i := Enabled] == old(life).states[i := Enabled];
    }

    method MarkEnabled(i: nat)
      requires host.Valid() && FieldsOk() && i < |order|
      modifies this`entries, this`life, host.scheduler`enabled, host.scheduler`model
      ensures host.Valid() && FieldsOk() && host.Spares(i)
      ensures life == old(life).(states := old(life).states[i := Enabled])
    {
      hide Host.Valid, Host.Quiet, FieldsOk;
      host.SetEnabled(i, true);
      SetState(i, Enabled);
    }

    /** EnableAll. `enable(i)` and `disable(i)` are the hooks of the i-th plugin. */
    method EnablePlugins(enable: nat -> Hook, disable: nat -> Hook) returns (r: Result)
      requires Valid()
      modifies this`entries, this`life, this`active
      modifies host, host.events, host.commands, host.scheduler, host.scheduler.queue, host.scheduler.repr
      ensures Valid() && host.Grew()
      ensures life == EnableAll(old(life), enable, disable)
      ensures r == EnableResult(old(life), enable, disable)
    {
      hide Host.Valid, Host.Quiet, Host.Confined, Host.Spares, Sound;
      EnableAllKeepsSound(life, enable, disable);
      if active {
        return Rejected(ManagerActive);
      }
      r := Plan();
      if !r.Done? {
        return;
      }
      r := RunPlan(enable, disable);
    }

    /** enablePlan */
    method Plan() returns (r: Result)
      requires FieldsOk()
      ensures r == PlanFrom(life.states, 0)
    {
      for i := 0 to |order|
        invariant PlanFrom(life.states, 0) == PlanFrom(life.states, i)
      {
        var state := entries[order[i]].state;
        if state.Registered? || state.Disabled? {
        } else if state.Failed? {
          return Rejected(PluginFailed);
        } else {
          return Rejected(BadState);
        }
      }
      return Done;
    }

    /** The loop of EnableAll and, for the first plugin whose hook fails, the rest of its turn. */
    method RunPlan(enable: nat -> Hook, disable: nat -> Hook) returns (r: Result)
      requires host.Valid() && FieldsOk() && forall o: Owner :: host.Quiet(o)
      modifies this`entries, this`life, this`active
      modifies host, host.events, host.commands, host.scheduler, host.scheduler.queue, host.scheduler.repr
      ensures host.Valid() && FieldsOk() && host.Grew()
      ensures life == EnableFrom(old(life), 0, enable, disable)
      ensures forall o: Owner | !active || |order| <= o :: host.Quiet(o)
      ensures var k := FirstFailure(enable, 0, |order|);
              r == if k == |order| then Done else HooksFailed(1 + Failures(disable, k + 1))
    {
      hide Host.Valid, Host.Quiet, Host.Confined, FieldsOk, Winding, EnableFrom, RollBack, DisableEntry, EnableEntry, FirstFailure;
      var k := 0;
      Lengths();
      WindingStarts(life, enable, disable);
      while k < |order| && !enable(k).fails
        invariant k <= |order| && host.Valid() && FieldsOk() && host.Grew()
        invariant Winding(old(life), life, k, enable, disable)
        invariant forall o: Owner | k <= o :: host.Quiet(o)
      {
        hide Host.Valid, Host.Quiet, Host.Confined, FieldsOk, Winding, EnableEntry, EnableFrom;
        Lengths();
        WindingStep(old(life), life, k, enable, disable);
        var failed := Enable(k, enable(k));
        k := k + 1;
      }
      Lengths();
      WindingEnds(old(life), life, k, enable, disable);
      if k == |order| {
        Activate(true);
        return Done;
      }
      r := Undo(k, enable(k), disable);
    }

    lemma Lengths()
      requires FieldsOk()
      ensures |life.states| == |life.order| && life.order == order && life.active == active
    {
    }

    /** active.Store */
    method Activate(on: bool)
      requires FieldsOk()
      modifies this`active, this`life
      ensures FieldsOk() && active == on && life == old(life).(active := on)
    {
      active := on;
      life := life.(active := on);
    }

    /** The failing plugin's turn in EnableAll, its clean-up, and the roll-back. */
    method Undo(k: nat, enable: Hook, disable: nat -> Hook) returns (r: Result)
      requires host.Valid() && FieldsOk() && k < |order| && enable.fails
      requires forall o: Owner | k <= o :: host.Quiet(o)
      modifies this`entries, this`life, this`active
      modifies host, host.events, host.commands, host.scheduler, host.scheduler.queue, host.scheduler.repr
      ensures host.Valid() && FieldsOk() && host.Grew()
      ensures (forall o: Owner :: host.Quiet(o)) && !active
      ensures |old(life).states| == |old(life).order| == |order|
      ensures life == RollBack(DisableEntry(EnableEntry(old(life), k, enable), k, Failed, disable(k)), k, disable).(active := false)
      ensures r == HooksFailed(1 + Failures(disable, k + 1))
    {
      hide Host.Valid, Host.Quiet, Host.Confined, FieldsOk;
      Lengths();
      var failures := 1;
      var failed := Enable(k, enable);
      failed := Disable(k, Failed, disable(k));
      if failed {
        failures := failures + 1;
      }
      var more := Revert(k, disable);
      Activate(false);
      return HooksFailed(failures + more);
    }

    /** Disables the first k plugins, last first. */
    method Revert(k: nat, hooks: nat -> Hook) returns (failures: nat)
      requires host.Valid() && FieldsOk() && k <= |order|
      requires forall o: Owner | k <= o :: host.Quiet(o)
      modifies this`entries, this`life
      modifies host, host.events, host.commands, host.scheduler, host.scheduler.queue, host.scheduler.repr
      ensures host.Valid() && FieldsOk() && host.Grew()
      ensures forall o: Owner :: host.Quiet(o)
      ensures |old(life).states| == |old(life).order| == |order|
      ensures life == RollBack(old(life), k, hooks) && failures == Failures(hooks, k)
    {
      hide Host.Valid, Host.Quiet, Host.Confined, FieldsOk;
      Lengths();
      failures := 0;
      var index: nat := k;
      while index > 0
        invariant index <= k && host.Valid() && FieldsOk() && host.Grew()
        invariant |life.states| == |life.order| && life.order == order
        invariant RollBack(life, index, hooks) == RollBack(old(life), k, hooks)
        invariant failures + Failures(hooks, index) == Failures(hooks, k)
        invariant forall o: Owner | index <= o :: host.Quiet(o)
      {
        hide Host.Valid, Host.Quiet, Host.Confined, FieldsOk;
        index := index - 1;
        var failed := Disable(index, Disabled, hooks(index));
        if failed {
          failures := failures + 1;
        }
      }
    }

    /** DisableAll */
    method DisablePlugins(hooks: nat -> Hook) returns (r: Result)
      requires Valid()
      modifies this`entries, this`life, this`active
      modifies host, host.events, host.commands, host.scheduler, host.scheduler.queue, host.scheduler.repr
      ensures Valid() && host.Grew() && !active
      ensures life == DisableAll(old(life), hooks) && r == DisableResult(old(life), hooks)
    {
      hide Host.Valid, Host.Quiet, Host.Confined, Host.Spares, Sound, FieldsOk;
      Lengths();
      DisableAllKeepsSound(life, hooks);
      var failures := DisableRunning(hooks);
      Lengths();
      Activate(false);
      return if failures == 0 then Done else HooksFailed(failures);
    }

    /** The loop of DisableAll: every plugin in reverse order, if it is enabled. */
    method DisableRunning(hooks: nat -> Hook) returns (failures: nat)
      requires Valid()
      modifies this`entries, this`life
      modifies host, host.events, host.commands, host.scheduler, host.scheduler.queue, host.scheduler.repr
      ensures host.Valid() && FieldsOk() && host.Grew()
      ensures forall o: Owner :: host.Quiet(o)
      ensures Unwinding(old(life), life, 0, hooks, failures)
    {
      hide Host.Valid, Host.Quiet, Host.Confined, FieldsOk, Sound, Unwinding, DisableEntry;
      UnwindingStarts(life, hooks);
      Lengths();
      failures := 0;
      var index: nat := |order|;
      while index > 0
        invariant index <= |order| && host.Valid() && FieldsOk() && host.Grew()
        invariant Unwinding(old(life), life, index, hooks, failures)
        invariant forall o: Owner | !active || index <= o :: host.Quiet(o)
      {
        hide Host.Valid, Host.Quiet, Host.Confined, FieldsOk, Sound, Unwinding, DisableEntry;
        index := index - 1;
        UnwindingStep(old(life), life, index, hooks, failures);
        var failed := DisableIfEnabled(index, hooks(index));
        if failed {
          failures := failures + 1;
        }
      }
    }

    method DisableIfEnabled(i: nat, hook: Hook) returns (failed: bool)
      requires host.Valid() && FieldsOk() && i < |order|
      modifies this`entries, this`life
      modifies host, host.events, host.commands, host.scheduler, host.scheduler.queue, host.scheduler.repr
      ensures host.Valid() && FieldsOk() && host.Grew() && host.Spares(i)
      ensures i < |order| == |life.states| == |life.order| && |old(life).states| == |life.states|
      ensures if old(life).states[i].Enabled? then
                host.Quiet(i) && failed == hook.fails && life == DisableEntry(old(life), i, Disabled, hook)
              else !failed && life == old(life) && (old(host.Quiet(i)) ==> host.Quiet(i))
      ensures life.states[..i] == old(life).states[..i]
    {
      hide Host.Valid, Host.Quiet, Host.Confined, FieldsOk;
      Lengths();
      var running := IsEnabled(i);
      failed := false;
      if running {
        failed := Disable(i, Disabled, hook);
      }
    }

    method IsEnabled(i: nat) returns (yes: bool)
      requires FieldsOk() && i < |order|
      ensures i < |life.states| && yes == life.states[i].Enabled?
    {
      yes := entries[order[i]].state.Enabled?;
    }
  }
}
