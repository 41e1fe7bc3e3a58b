/** One plugin's registrations racing its being disabled. */
module NoResidue {
  // The steps are single flag reads and writes and lock acquisitions; the
  // registries are left with nothing of the plugin whichever way its goroutines
  // interleave.

  datatype Kind = Events | Commands | Tasks

  datatype Who = Nobody | TheManager | Thread(t: nat)

  /** A registry: who holds its mutex, and the ids of what the plugin has in it. */
  datatype Registry = Registry(lock: Who, items: set<nat>)

  /** Where a registering goroutine is: past the unlocked read of the flag,
      holding the lock, and past the second read. */
  datatype Place = Idle | Passed(k: Kind) | Holding(k: Kind) | Admitted(k: Kind)

  /** Where the manager is. Each phase is entered by one write or one lock operation:
      the enabling of the plugin, its running, and disableEntry. */
  datatype Phase =
    | Off            // not enabled, or disabled
    | Cleared        // enabled stored false, at the start of enabling
    | Accepting      // acceptSubscriptions stored true
    | Opening        // openOwner holds the scheduler's lock
    | Starting       // open stored true; the Enable hook runs
    | Running        // enabled stored true
    | Stopping       // disableEntry stored enabled false
    | Refusing       // ... and acceptSubscriptions false
    | Closing        // closeOwner holds the scheduler's lock
    | Ending         // open stored false and the tasks removed; the Disable hook runs
    | PurgingEvents  // events.removeOwner holds the bus lock
    | Purged         // ... and has removed the handlers
    | PurgingCommands // commands.removeOwner holds the registry's lock

  datatype World = World(
    phase: Phase,
    enabled: bool,
    accepts: bool,
    open: bool,
    events: Registry,
    commands: Registry,
    tasks: Registry,
    places: map<nat, Place>)

  const INITIAL := World(Off, false, false, false, Registry(Nobody, {}), Registry(Nobody, {}), Registry(Nobody, {}), map[])

  function At(w: World, k: Kind): Registry {
    match k
    case Events => w.events
    case Commands => w.commands
    case Tasks => w.tasks
  }

  function Put(w: World, k: Kind, r: Registry): World {
    match k
    case Events => w.(events := r)
    case Commands => w.(commands := r)
    case Tasks => w.(tasks := r)
  }

  function PlaceOf(w: World, t: nat): Place {
    if t in w.places then w.places[t] else Idle
  }

  function Move(w: World, t: nat, p: Place): World {
    w.(places := w.places[t := p])
  }

  /** The flag that guards a registry: the scheduler has its own. */
  predicate Gate(w: World, k: Kind) {
    if k.Tasks? then w.open else w.accepts
  }

  datatype Step =
    | Manage(hookFails: bool)
    | ReadFlag(t: nat, k: Kind)
    | Lock(t: nat, k: Kind)
    | ReadAgain(t: nat)
    | Insert(t: nat, id: nat)
    | Remove(k: Kind, id: nat)

  predicate Free(w: World, k: Kind) {
    At(w, k).lock.Nobody?
  }

  /** May the step be taken? The manager waits for locks as anyone does. */
  predicate Enabled(w: World, s: Step) {
    match s
    case Manage(_) =>
      if w.phase.Accepting? || w.phase.Refusing? then Free(w, Tasks)
      else if w.phase.Ending? then Free(w, Events)
      else if w.phase.Purged? then Free(w, Commands)
      else true
    case ReadFlag(t, k) => PlaceOf(w, t).Idle? && !k.Tasks?
    case Lock(t, k) => PlaceOf(w, t) == (if k.Tasks? then Idle else Passed(k)) && Free(w, k)
    case ReadAgain(t) => PlaceOf(w, t).Holding?
    case Insert(t, id) => PlaceOf(w, t).Admitted?
    case Remove(k, id) => Free(w, k)
  }

  function Managed(w: World, hookFails: bool): World {
    match w.phase
    case Off => w.(phase := Cleared, enabled := false)
    case Cleared => w.(phase := Accepting, accepts := true)
    case Accepting => w.(phase := Opening, tasks := w.tasks.(lock := TheManager))
    case Opening => w.(phase := Starting, open := true, tasks := w.tasks.(lock := Nobody))
    case Starting => if hookFails then w.(phase := Stopping, enabled := false) else w.(phase := Running, enabled := true)
    case Running => w.(phase := Stopping, enabled := false)
    case Stopping => w.(phase := Refusing, accepts := false)
    case Refusing => w.(phase := Closing, tasks := w.tasks.(lock := TheManager))
    case Closing => w.(phase := Ending, open := false, tasks := Registry(Nobody, {}))
    case Ending => w.(phase := PurgingEvents, events := w.events.(lock := TheManager))
    case PurgingEvents => w.(phase := Purged, events := Registry(Nobody, {}))
    case Purged => w.(phase := PurgingCommands, commands := w.commands.(lock := TheManager))
    case PurgingCommands => w.(phase := Off, commands := Registry(Nobody, {}))
  }

  function Take(w: World, s: Step): World
    requires Enabled(w, s)
  {
    match s
    case Manage(hookFails) => Managed(w, hookFails)
    case ReadFlag(t, k) => if w.accepts then Move(w, t, Passed(k)) else w
    case Lock(t, k) => Move(Put(w, k, At(w, k).(lock := Thread(t))), t, Holding(k))
    case ReadAgain(t) =>
      var k := PlaceOf(w, t).k;
      if Gate(w, k) then Move(w, t, Admitted(k)) else Move(Put(w, k, At(w, k).(lock := Nobody)), t, Idle)
    case Insert(t, id) =>
      var k := PlaceOf(w, t).k;
      Move(Put(w, k, Registry(Nobody, At(w, k).items + {id})), t, Idle)
    case Remove(k, id) => Put(w, k, At(w, k).(items := At(w, k).items - {id}))
  }

  // ----- the invariant -----

  /** The registry holds nothing of the plugin, and nobody is about to change that. */
  ghost predicate Clear(w: World, k: Kind) {
    At(w, k).items == {} && forall t :: PlaceOf(w, t) != Admitted(k)
  }

  /** A goroutine past the lock holds it. */
  ghost predicate Exclusive(w: World) {
    && (forall t | PlaceOf(w, t).Holding? || PlaceOf(w, t).Admitted? :: At(w, PlaceOf(w, t).k).lock == Thread(t))
    && (w.phase.Opening? || w.phase.Closing? ==> w.tasks.lock == TheManager)
    && (w.phase.PurgingEvents? ==> w.events.lock == TheManager)
    && (w.phase.PurgingCommands? ==> w.commands.lock == TheManager)
  }

  ghost predicate FlagsFollow(w: World) {
    && w.enabled == w.phase.Running?
    && w.accepts == (w.phase.Accepting? || w.phase.Opening? || w.phase.Starting? || w.phase.Running? || w.phase.Stopping?)
    && w.open == (w.phase.Starting? || w.phase.Running? || w.phase.Stopping? || w.phase.Refusing? || w.phase.Closing?)
  }

  ghost predicate Inv(w: World) {
    && Exclusive(w) && FlagsFollow(w)
    && (!w.open ==> Clear(w, Tasks))
    && (w.phase.Off? || w.phase.Cleared? || w.phase.Purged? || w.phase.PurgingCommands? ==> Clear(w, Events))
    && (w.phase.Off? || w.phase.Cleared? ==> Clear(w, Commands))
  }

  lemma ManagerKeepsInv(w: World, hookFails: bool)
    requires Inv(w) && Enabled(w, Manage(hookFails))
    ensures Inv(Take(w, Manage(hookFails)))
  {
    var v := Managed(w, hookFails);
    assert forall t :: PlaceOf(v, t) == PlaceOf(w, t);
  }

  lemma FlagReadKeepsInv(w: World, t: nat, k: Kind)
    requires Inv(w) && Enabled(w, ReadFlag(t, k))
    ensures Inv(Take(w, ReadFlag(t, k)))
  {
    var v := Take(w, ReadFlag(t, k));
    assert forall u | u != t :: PlaceOf(v, u) == PlaceOf(w, u);
  }

  lemma LockKeepsInv(w: World, t: nat, k: Kind)
    requires Inv(w) && Enabled(w, Lock(t, k))
    ensures Inv(Take(w, Lock(t, k)))
  {
    var v := Take(w, Lock(t, k));
    assert forall u | u != t :: PlaceOf(v, u) == PlaceOf(w, u);
    assert PlaceOf(v, t) == Holding(k);
    assert forall j :: At(v, j).items == At(w, j).items;
  }

  /** A goroutine that holds the lock reads the flag as it is: it is admitted
      only while the registry is not claimed to be clear. */
  lemma SecondReadKeepsInv(w: World, t: nat)
    requires Inv(w) && Enabled(w, ReadAgain(t))
    ensures Inv(Take(w, ReadAgain(t)))
  {
    var v, k := Take(w, ReadAgain(t)), PlaceOf(w, t).k;
    assert forall u | u != t :: PlaceOf(v, u) == PlaceOf(w, u);
    assert forall j :: At(v, j).items == At(w, j).items;
    assert At(w, k).lock == Thread(t);
  }

  lemma InsertKeepsInv(w: World, t: nat, id: nat)
    requires Inv(w) && Enabled(w, Insert(t, id))
    ensures Inv(Take(w, Insert(t, id)))
  {
    var v, k := Take(w, Insert(t, id)), PlaceOf(w, t).k;
    assert forall u | u != t :: PlaceOf(v, u) == PlaceOf(w, u);
    assert PlaceOf(v, t).Idle? && !Clear(w, k);
    assert At(w, k).lock == Thread(t);
    assert forall j | j != k :: At(v, j) == At(w, j);
  }

  lemma RemovalKeepsInv(w: World, k: Kind, id: nat)
    requires Inv(w) && Enabled(w, Remove(k, id))
    ensures Inv(Take(w, Remove(k, id)))
  {
    var v := Take(w, Remove(k, id));
    assert forall u :: PlaceOf(v, u) == PlaceOf(w, u);
    assert forall j :: At(v, j).lock == At(w, j).lock && At(v, j).items <= At(w, j).items;
  }

  lemma StepKeepsInv(w: World, s: Step)
    requires Inv(w) && Enabled(w, s)
    ensures Inv(Take(w, s))
  {
    hide Inv, Take;
    match s
    case Manage(hookFails) =>
      ManagerKeepsInv(w, hookFails);
    case ReadFlag(t, k) => FlagReadKeepsInv(w, t, k);
    case Lock(t, k) => LockKeepsInv(w, t, k);
    case ReadAgain(t) => SecondReadKeepsInv(w, t);
    case Insert(t, id) => InsertKeepsInv(w, t, id);
    case Remove(k, id) => RemovalKeepsInv(w, k, id);
  }

  // ----- whole runs -----

  ghost predicate Run(w: World, steps: seq<Step>, v: World)
    decreases |steps|
  {
    if steps == [] then v == w
    else Enabled(w, steps[0]) && Run(Take(w, steps[0]), steps[1..], v)
  }

  lemma {:induction false} RunKeepsInv(w: World, steps: seq<Step>, v: World)
    requires Inv(w) && Run(w, steps, v)
    ensures Inv(v)
    decreases |steps|
  {
    if steps != [] {
      StepKeepsInv(w, steps[0]);
      RunKeepsInv(Take(w, steps[0]), steps[1..], v);
    }
  }

  /** In every interleaving: when the manager has left disableEntry, the three
      registries hold nothing of the plugin, and no call still under way will
      add anything. */
  lemma NothingIsLeft(steps: seq<Step>, w: World)
    requires Run(INITIAL, steps, w) && w.phase.Off?
    ensures !w.enabled && !w.accepts && !w.open
    ensures Clear(w, Events) && Clear(w, Commands) && Clear(w, Tasks)
  {
    RunKeepsInv(INITIAL, steps, w);
  }

  /** ... and they stay empty, whatever the plugin's goroutines go on to do,
      until the manager enables it again. */
  lemma {:induction false} NothingComesBack(w: World, steps: seq<Step>, v: World)
    requires Inv(w) && w.phase.Off? && Run(w, steps, v)
    requires forall s | s in steps :: !s.Manage?
    ensures v.phase.Off? && v.events.items == {} && v.commands.items == {} && v.tasks.items == {}
    decreases |steps|
  {
    if steps != [] {
      StepKeepsInv(w, steps[0]);
      var next := Take(w, steps[0]);
      assert next.phase == w.phase;
      NothingComesBack(next, steps[1..], v);
    }
  }
}
