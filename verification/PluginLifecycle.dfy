/** The lifecycle of plugins as values. */
module PluginLifecycle {
  import opened PluginHost

  // What the manager's operations do to the states of the plugins and which of
  // their hooks they call, and what every run of operations keeps. The class
  // PluginManager.Manager refines it.

  type Id = string

  datatype State = Registered | Enabling | Enabled | Disabling | Disabled | Failed

  /** A call of a plugin's own Enable or Disable. */
  datatype Call = EnableCall(id: Id) | DisableCall(id: Id)

  datatype Error = NilPlugin | ManagerActive | InvalidDescriptor | DuplicatePlugin | PluginFailed | BadState

  datatype Result = Done | Rejected(error: Error) | HooksFailed(count: nat)

  /** One call of a plugin's hook: the calls that plugin code makes meanwhile,
      and whether the hook returns an error or panics. `before` and `after` hold
      the calls that fall between the manager's own steps around the hook. */
  datatype Run = Run(before: seq<seq<Action>>, during: seq<Action>, after: seq<seq<Action>>, fails: bool)

  type Hook = h: Run | |h.before| == 3 && |h.after| == 2
    witness Run([[], [], []], [], [[], []], false)

  /** Plugin i has id order[i] and state states[i]; `trace` has every Enable and
      Disable call so far. */
  datatype Life = Life(order: seq<Id>, states: seq<State>, active: bool, trace: seq<Call>)

  const EMPTY := Life([], [], false, [])

  // ----- operations -----

  function Register(l: Life, descriptor: Id): Life {
    if l.active || descriptor in l.order then l
    else l.(order := l.order + [descriptor], states := l.states + [Registered])
  }

  function Settled(success: State, hook: Hook): State {
    if hook.fails then Failed else success
  }

  /** disableEntry */
  function DisableEntry(l: Life, i: nat, success: State, hook: Hook): Life
    requires i < |l.order| == |l.states|
  {
    l.(states := l.states[i := Settled(success, hook)], trace := l.trace + [DisableCall(l.order[i])])
  }

  /** One turn of EnableAll's loop, up to the result of the hook. */
  function EnableEntry(l: Life, i: nat, hook: Hook): Life
    requires i < |l.order| == |l.states|
  {
    l.(states := l.states[i := if hook.fails then Enabling else Enabled],
       trace := l.trace + [EnableCall(l.order[i])])
  }

  /** The roll-back of EnableAll: disables the first k plugins, last first. */
  function RollBack(l: Life, k: nat, hooks: nat -> Hook): (r: Life)
    requires k <= |l.order| == |l.states|
    ensures r.order == l.order && |r.states| == |l.states|
    decreases k
  {
    if k == 0 then l else RollBack(DisableEntry(l, k - 1, Disabled, hooks(k - 1)), k - 1, hooks)
  }

  /** The loop of DisableAll: those of the first k plugins that are enabled. */
  function DisableEnabled(l: Life, k: nat, hooks: nat -> Hook): (r: Life)
    requires k <= |l.order| == |l.states|
    ensures r.order == l.order && |r.states| == |l.states|
    decreases k
  {
    if k == 0 then l
    else DisableEnabled(if l.states[k - 1].Enabled? then DisableEntry(l, k - 1, Disabled, hooks(k - 1)) else l, k - 1, hooks)
  }

  function DisableAll(l: Life, hooks: nat -> Hook): Life
    requires |l.order| == |l.states|
  {
    DisableEnabled(l, |l.order|, hooks).(active := false)
  }

  /** The loop of EnableAll from plugin i on. */
  function EnableFrom(l: Life, i: nat, enable: nat -> Hook, disable: nat -> Hook): (r: Life)
    requires i <= |l.order| == |l.states|
    ensures r.order == l.order && |r.states| == |l.states|
    decreases |l.order| - i
  {
    if i == |l.order| then l.(active := true)
    else if enable(i).fails then
      RollBack(DisableEntry(EnableEntry(l, i, enable(i)), i, Failed, disable(i)), i, disable).(active := false)
    else EnableFrom(EnableEntry(l, i, enable(i)), i + 1, enable, disable)
  }

  /** enablePlan, from plugin i on: the first state that does not allow enabling decides. */
  function PlanFrom(states: seq<State>, i: nat): Result
    requires i <= |states|
    decreases |states| - i
  {
    if i == |states| then Done
    else if states[i].Registered? || states[i].Disabled? then PlanFrom(states, i + 1)
    else if states[i].Failed? then Rejected(PluginFailed)
    else Rejected(BadState)
  }

  function EnableAll(l: Life, enable: nat -> Hook, disable: nat -> Hook): Life
    requires |l.order| == |l.states|
  {
    if l.active || !PlanFrom(l.states, 0).Done? then l else EnableFrom(l, 0, enable, disable)
  }

  /** The outcome of EnableAll: one error for the failing hook, and one for each
      Disable that fails in the clean-up and the roll-back. */
  function EnableResult(l: Life, enable: nat -> Hook, disable: nat -> Hook): Result {
    if l.active then Rejected(ManagerActive)
    else if !PlanFrom(l.states, 0).Done? then PlanFrom(l.states, 0)
    else
      var k := FirstFailure(enable, 0, |l.order|);
      if k == |l.order| then Done else HooksFailed(1 + Failures(disable, k + 1))
  }

  function DisableResult(l: Life, hooks: nat -> Hook): Result
    requires |l.order| == |l.states|
  {
    var failed := EnabledFailures(l.states, |l.order|, hooks);
    if failed == 0 then Done else HooksFailed(failed)
  }

  /** How many of the enabled ones among the first k plugins fail to disable. */
  function EnabledFailures(states: seq<State>, k: nat, hooks: nat -> Hook): nat
    requires k <= |states|
  {
    if k == 0 then 0
    else EnabledFailures(states, k - 1, hooks) + if states[k - 1].Enabled? && hooks(k - 1).fails then 1 else 0
  }

  // ----- traces -----

  ghost function Enables(ids: seq<Id>): seq<Call> {
    seq(|ids|, i requires 0 <= i < |ids| => EnableCall(ids[i]))
  }

  /** The Disable calls of `ids`, last first. */
  ghost function Disables(ids: seq<Id>): seq<Call> {
    seq(|ids|, i requires 0 <= i < |ids| => DisableCall(ids[|ids| - 1 - i]))
  }

  datatype Stack = Stack(open: seq<Id>) | Broken

  /** The plugins whose Enable is open after the calls, innermost last; Broken
      if some Disable did not close the innermost Enable. */
  function After(stack: Stack, calls: seq<Call>): Stack
    decreases |calls|
  {
    if stack.Broken? || calls == [] then stack
    else After(Step(stack.open, calls[0]), calls[1..])
  }

  function Step(open: seq<Id>, call: Call): Stack {
    match call
    case EnableCall(id) => Stack(open + [id])
    case DisableCall(id) =>
      if open != [] && open[|open| - 1] == id then Stack(open[..|open| - 1]) else Broken
  }

  lemma {:induction false} AfterAppend(stack: Stack, a: seq<Call>, b: seq<Call>)
    ensures After(stack, a + b) == After(After(stack, a), b)
    decreases |a|
  {
    if a == [] {
      assert a + b == b;
    } else if stack.Stack? {
      assert (a + b)[1..] == a[1..] + b;
      AfterAppend(Step(stack.open, a[0]), a[1..], b);
    }
  }

  lemma {:induction false} EnablesOpen(open: seq<Id>, ids: seq<Id>)
    ensures After(Stack(open), Enables(ids)) == Stack(open + ids)
    decreases |ids|
  {
    if ids == [] {
      assert open + ids == open;
    } else {
      assert Enables(ids)[1..] == Enables(ids[1..]);
      assert open + [ids[0]] + ids[1..] == open + ids;
      EnablesOpen(open + [ids[0]], ids[1..]);
    }
  }

  lemma {:induction false} DisablesClose(open: seq<Id>, ids: seq<Id>)
    ensures After(Stack(open + ids), Disables(ids)) == Stack(open)
    decreases |ids|
  {
    if ids == [] {
      assert open + ids == open;
    } else {
      var n := |ids| - 1;
      assert Disables(ids)[1..] == Disables(ids[..n]);
      assert (open + ids)[..|open| + n] == open + ids[..n];
      DisablesClose(open, ids[..n]);
    }
  }

  lemma BracketsMatch(trace: seq<Call>, ids: seq<Id>)
    requires After(Stack([]), trace) == Stack([])
    ensures After(Stack([]), trace + Enables(ids)) == Stack(ids)
    ensures After(Stack([]), trace + Enables(ids) + Disables(ids)) == Stack([])
  {
    AfterAppend(Stack([]), trace, Enables(ids));
    EnablesOpen([], ids);
    assert [] + ids == ids;
    BracketsClose(trace + Enables(ids), ids);
  }

  lemma BracketsClose(trace: seq<Call>, ids: seq<Id>)
    requires After(Stack([]), trace) == Stack(ids)
    ensures After(Stack([]), trace + Disables(ids)) == Stack([])
  {
    AfterAppend(Stack([]), trace, Disables(ids));
    assert [] + ids == ids;
    DisablesClose([], ids);
  }

  lemma EnablesStep(ids: seq<Id>, k: nat)
    requires k < |ids|
    ensures Enables(ids[..k + 1]) == Enables(ids[..k]) + [EnableCall(ids[k])]
  {
  }

  lemma DisablesStep(ids: seq<Id>, k: nat)
    requires k < |ids|
    ensures Disables(ids[..k + 1]) == [DisableCall(ids[k])] + Disables(ids[..k])
  {
  }

  // ----- outcomes -----

  /** The first plugin at or after `i` whose hook fails, or n. */
  function FirstFailure(hooks: nat -> Hook, i: nat, n: nat): (k: nat)
    requires i <= n
    ensures i <= k <= n
    ensures forall j | i <= j < k :: !hooks(j).fails
    ensures k < n ==> hooks(k).fails
    decreases n - i
  {
    if i == n || hooks(i).fails then i else FirstFailure(hooks, i + 1, n)
  }

  /** How many of the first k hooks fail. */
  function Failures(hooks: nat -> Hook, k: nat): nat {
    if k == 0 then 0 else Failures(hooks, k - 1) + if hooks(k - 1).fails then 1 else 0
  }

  lemma {:induction false} RollBackOutcome(l: Life, k: nat, hooks: nat -> Hook)
    requires k <= |l.order| == |l.states|
    ensures var r := RollBack(l, k, hooks);
      && r.active == l.active && r.trace == l.trace + Disables(l.order[..k])
      && forall j | 0 <= j < |l.order| :: r.states[j] == if j < k then Settled(Disabled, hooks(j)) else l.states[j]
    decreases k
  {
    if k > 0 {
      DisablesStep(l.order, k - 1);
      RollBackOutcome(DisableEntry(l, k - 1, Disabled, hooks(k - 1)), k - 1, hooks);
    } else {
      assert Disables(l.order[..0]) == [];
    }
  }

  lemma {:induction false} DisableEnabledOutcome(l: Life, k: nat, hooks: nat -> Hook)
    requires k <= |l.order| == |l.states|
    ensures (forall j | 0 <= j < k :: l.states[j].Enabled?) ==> DisableEnabled(l, k, hooks) == RollBack(l, k, hooks)
    ensures (forall j | 0 <= j < k :: !l.states[j].Enabled?) ==> DisableEnabled(l, k, hooks) == l
    decreases k
  {
    if k > 0 {
      DisableEnabledOutcome(if l.states[k - 1].Enabled? then DisableEntry(l, k - 1, Disabled, hooks(k - 1)) else l, k - 1, hooks);
    }
  }

  /** What EnableAll leaves when its hooks run: all plugins enabled in order; or,
      if plugin k is the first whose hook fails, that one failed, those before it
      disabled in reverse order, and those after it untouched. */
  ghost predicate Ran(l: Life, r: Life, k: nat, disable: nat -> Hook)
    requires |l.order| == |l.states| == |r.states| && k <= |l.order|
  {
    if k == |l.order| then
      && r.active && r.trace == l.trace + Enables(l.order)
      && forall j | 0 <= j < |l.order| :: r.states[j].Enabled?
    else
      && !r.active && r.trace == l.trace + Enables(l.order[..k + 1]) + Disables(l.order[..k + 1])
      && forall j | 0 <= j < |l.order| :: r.states[j] ==
           if j < k then Settled(Disabled, disable(j)) else if j == k then Failed else l.states[j]
  }

  /** The plugins before i have been enabled since `l`. */
  ghost predicate EnabledUpTo(l: Life, m: Life, i: nat)
    requires i <= |l.order|
  {
    && m.order == l.order && |m.states| == |l.states| == |l.order|
    && m.trace == l.trace + Enables(l.order[..i])
    && forall j | 0 <= j < |l.order| :: m.states[j] == if j < i then Enabled else l.states[j]
  }

  lemma {:induction false} EnableFromOutcome(l: Life, m: Life, i: nat, enable: nat -> Hook, disable: nat -> Hook)
    requires i <= |l.order| && EnabledUpTo(l, m, i)
    ensures var r := EnableFrom(m, i, enable, disable);
      r.order == l.order && |r.states| == |l.states| && Ran(l, r, FirstFailure(enable, i, |l.order|), disable)
    decreases |l.order| - i
  {
    if i == |l.order| {
      assert l.order[..i] == l.order;
    } else {
      EnablesStep(l.order, i);
      var next := EnableEntry(m, i, enable(i));
      assert next.trace == l.trace + Enables(l.order[..i + 1]);
      if enable(i).fails {
        var cleaned := DisableEntry(next, i, Failed, disable(i));
        RollBackOutcome(cleaned, i, disable);
        DisablesStep(l.order, i);
      } else {
        EnableFromOutcome(l, next, i + 1, enable, disable);
      }
    }
  }

  // ----- what every run keeps -----

  /** What holds between calls: the manager is active exactly when its plugins
      run, and the open Enable calls are theirs, in registration order. */
  ghost predicate Sound(l: Life) {
    && |l.states| == |l.order|
    && (forall i, j | 0 <= i < j < |l.order| :: l.order[i] != l.order[j])
    && (forall s | s in l.states :: if l.active then s.Enabled? else s.Registered? || s.Disabled? || s.Failed?)
    && After(Stack([]), l.trace) == Stack(if l.active then l.order else [])
  }

  lemma RunningTogether(l: Life)
    requires Sound(l)
    ensures forall j | 0 <= j < |l.states| :: l.states[j].Enabled? <==> l.active
  {
    assert forall j | 0 <= j < |l.states| :: l.states[j] in l.states;
  }

  lemma {:induction false} PlanOutcome(l: Life, i: nat)
    requires Sound(l) && !l.active && i <= |l.states|
    ensures PlanFrom(l.states, i).Done? <==> forall j | i <= j < |l.states| :: !l.states[j].Failed?
    ensures !PlanFrom(l.states, i).Done? ==> PlanFrom(l.states, i) == Rejected(PluginFailed)
    decreases |l.states| - i
  {
    if i < |l.states| {
      assert l.states[i] in l.states;
      PlanOutcome(l, i + 1);
    }
  }

  /** EnableAll rejects an active manager and a failed plugin without calling a
      hook; otherwise it enables all plugins or rolls back. */
  lemma EnableAllOutcome(l: Life, enable: nat -> Hook, disable: nat -> Hook)
    requires Sound(l)
    ensures var r := EnableAll(l, enable, disable);
      && r.order == l.order && |r.states| == |l.states|
      && if l.active || Failed in l.states then r == l
         else Ran(l, r, FirstFailure(enable, 0, |l.order|), disable)
  {
    if !l.active {
      PlanOutcome(l, 0);
      if PlanFrom(l.states, 0).Done? {
        assert Failed !in l.states;
        assert Enables(l.order[..0]) == [];
        EnableFromOutcome(l, l, 0, enable, disable);
      }
    }
  }

  lemma EnableAllKeepsSound(l: Life, enable: nat -> Hook, disable: nat -> Hook)
    requires Sound(l)
    ensures Sound(EnableAll(l, enable, disable))
  {
    EnableAllOutcome(l, enable, disable);
    if !l.active && Failed !in l.states {
      var k := FirstFailure(enable, 0, |l.order|);
      BracketsMatch(l.trace, l.order);
      if k < |l.order| {
        BracketsMatch(l.trace, l.order[..k + 1]);
      }
      assert forall j | 0 <= j < |l.states| :: l.states[j] in l.states;
    }
  }

  /** DisableAll disables every running plugin in reverse order, whatever the
      hooks do, and nothing if the manager is not active. */
  lemma DisableAllOutcome(l: Life, hooks: nat -> Hook)
    requires Sound(l)
    ensures var r := DisableAll(l, hooks);
      && r.order == l.order && |r.states| == |l.states| && !r.active
      && (!l.active ==> r == l)
      && (l.active ==> r.trace == l.trace + Disables(l.order)
                       && forall j | 0 <= j < |l.order| :: r.states[j] == Settled(Disabled, hooks(j)))
  {
    assert forall j | 0 <= j < |l.states| :: l.states[j] in l.states;
    DisableEnabledOutcome(l, |l.order|, hooks);
    if l.active {
      RollBackOutcome(l, |l.order|, hooks);
      assert l.order[..|l.order|] == l.order;
    }
  }

  lemma DisableAllKeepsSound(l: Life, hooks: nat -> Hook)
    requires Sound(l)
    ensures Sound(DisableAll(l, hooks))
  {
    DisableAllOutcome(l, hooks);
    if l.active {
      BracketsClose(l.trace, l.order);
    }
  }

  lemma RegisterKeepsSound(l: Life, descriptor: Id)
    requires Sound(l)
    ensures Sound(Register(l, descriptor))
  {
  }

  datatype Operation =
    | DoRegister(descriptor: Id)
    | DoEnableAll(enable: nat -> Hook, disable: nat -> Hook)
    | DoDisableAll(hooks: nat -> Hook)

  ghost function Perform(l: Life, op: Operation): Life
    requires |l.order| == |l.states|
  {
    match op
    case DoRegister(descriptor) => Register(l, descriptor)
    case DoEnableAll(enable, disable) => EnableAll(l, enable, disable)
    case DoDisableAll(hooks) => DisableAll(l, hooks)
  }

  ghost function PerformAll(l: Life, ops: seq<Operation>): (r: Life)
    requires Sound(l)
    ensures Sound(r)
    decreases |ops|
  {
    if ops == [] then l
    else
      PerformKeepsSound(l, ops[0]);
      PerformAll(Perform(l, ops[0]), ops[1..])
  }

  lemma PerformKeepsSound(l: Life, op: Operation)
    requires Sound(l)
    ensures Sound(Perform(l, op))
  {
    hide Sound, EnableAll, DisableAll, Register;
    match op
    case DoRegister(descriptor) => RegisterKeepsSound(l, descriptor);
    case DoEnableAll(enable, disable) => EnableAllKeepsSound(l, enable, disable);
    case DoDisableAll(hooks) => DisableAllKeepsSound(l, hooks);
  }

  /** Over every sequence of operations and hook outcomes: at any point of the
      trace each Disable has closed the innermost open Enable; and the default
      branch of enablePlan is not reached. */
  lemma LifecycleIsBracketed(ops: seq<Operation>, k: nat)
    requires k <= |PerformAll(EMPTY, ops).trace|
    ensures After(Stack([]), PerformAll(EMPTY, ops).trace[..k]).Stack?
    ensures !PerformAll(EMPTY, ops).active ==> PlanFrom(PerformAll(EMPTY, ops).states, 0) != Rejected(BadState)
  {
    var l := PerformAll(EMPTY, ops);
    assert l.trace[..k] + l.trace[k..] == l.trace;
    AfterAppend(Stack([]), l.trace[..k], l.trace[k..]);
    if !l.active {
      PlanOutcome(l, 0);
    }
  }
}
