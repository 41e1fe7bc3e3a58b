/** The restartable tick loop. */
module TickLoop {
  // Concurrent calls of Start and Stop, and the run goroutine of each generation,
  // one critical section or channel operation a step.

  /** A run goroutine, between two selects, in the callback, or gone. */
  datatype Runner = Selecting | InCallback | Exited

  /** A call of Stop that passed its first critical section. */
  datatype Stopper = Waiting(gen: nat) | Woken(gen: nat) | Returning(gen: nat)

  datatype Event =
    | Started(gen: nat)        // Start is about to return true
    | Signalled(gen: nat)      // close(stopCh)
    | CallbackBegan(gen: nat)
    | CallbackEnded(gen: nat)
    | Stopped(gen: nat)        // the last critical section of Stop
    | StopReturned(gen: nat)   // Stop has returned true

  /** Generation g runs with the g-th pair of channels; `gen` is the last one. */
  datatype State = State(
    running: bool, stopping: bool, gen: nat,
    stopClosed: set<nat>, doneClosed: set<nat>,
    runners: map<nat, Runner>, stoppers: map<nat, Stopper>, log: seq<Event>)

  const START := State(false, false, 0, {}, {}, map[], map[], [])

  datatype Step =
    | CallStart
    | CallStop(thread: nat)
    | Wake(thread: nat)
    | EndStop(thread: nat)
    | Return(thread: nat)
    | Fire(g: nat)
    | EndCallback(g: nat)
    | Leave(g: nat)

  predicate Enabled(st: State, step: Step) {
    match step
    case CallStart => true
    case CallStop(t) => t !in st.stoppers
    case Wake(t) => t in st.stoppers && st.stoppers[t].Waiting? && st.stoppers[t].gen in st.doneClosed
    case EndStop(t) => t in st.stoppers && st.stoppers[t].Woken?
    case Return(t) => t in st.stoppers && st.stoppers[t].Returning?
    case Fire(g) => g in st.runners && st.runners[g] == Selecting
    case EndCallback(g) => g in st.runners && st.runners[g] == InCallback
    case Leave(g) => g in st.runners && st.runners[g] == Selecting && g in st.stopClosed
  }

  /** Does Start, or the first critical section of Stop, go ahead? */
  predicate CanStart(st: State) {
    !st.running && !st.stopping
  }

  predicate CanStop(st: State) {
    st.running && !st.stopping
  }

  function Do(st: State, step: Step): State
    requires Enabled(st, step)
  {
    match step
    case CallStart =>
      if !CanStart(st) then st
      else st.(running := true, gen := st.gen + 1, runners := st.runners[st.gen + 1 := Selecting],
               log := st.log + [Started(st.gen + 1)])
    case CallStop(t) =>
      if !CanStop(st) then st
      else st.(stopping := true, stopClosed := st.stopClosed + {st.gen}, stoppers := st.stoppers[t := Waiting(st.gen)],
               log := st.log + [Signalled(st.gen)])
    case Wake(t) => st.(stoppers := st.stoppers[t := Woken(st.stoppers[t].gen)])
    case EndStop(t) =>
      var g := st.stoppers[t].gen;
      st.(running := false, stopping := false, stoppers := st.stoppers[t := Returning(g)], log := st.log + [Stopped(g)])
    case Return(t) => st.(stoppers := st.stoppers - {t}, log := st.log + [StopReturned(st.stoppers[t].gen)])
    case Fire(g) => st.(runners := st.runners[g := InCallback], log := st.log + [CallbackBegan(g)])
    case EndCallback(g) => st.(runners := st.runners[g := Selecting], log := st.log + [CallbackEnded(g)])
    case Leave(g) => st.(runners := st.runners[g := Exited], doneClosed := st.doneClosed + {g})
  }

  predicate Runs(st: State, steps: seq<Step>)
    decreases |steps|
  {
    |steps| == 0 || (Enabled(st, steps[0]) && Runs(Do(st, steps[0]), steps[1..]))
  }

  function Run(st: State, steps: seq<Step>): State
    requires Runs(st, steps)
    decreases |steps|
  {
    if |steps| == 0 then st else Run(Do(st, steps[0]), steps[1..])
  }

  // ----- the invariant -----

  predicate Alive(st: State, g: nat) {
    g in st.runners && st.runners[g] != Exited
  }

  /** A Stop between its two critical sections works on the last generation. */
  ghost predicate StopperOk(st: State, s: Stopper) {
    match s
    case Waiting(g) => g == st.gen && st.running && st.stopping
    case Woken(g) => g == st.gen && st.running && st.stopping && g in st.doneClosed
    case Returning(g) => g <= st.gen && g in st.doneClosed && (g == st.gen ==> !st.running)
  }

  predicate Active(s: Stopper) {
    s.Waiting? || s.Woken?
  }

  ghost predicate Structure(st: State) {
    RunnersOk(st) && ChannelsOk(st) && StoppersOk(st)
  }

  ghost predicate RunnersOk(st: State) {
    && (forall g | g in st.runners :: 1 <= g <= st.gen)
    && (forall g | Alive(st, g) :: g == st.gen && st.running)
    && (forall g | g in st.doneClosed :: g in st.runners && st.runners[g] == Exited)
  }

  ghost predicate ChannelsOk(st: State) {
    && (forall g | g in st.stopClosed :: g <= st.gen)
    && (st.gen in st.stopClosed ==> st.stopping || !st.running)
    && (st.stopping ==> st.running && st.gen in st.stopClosed)
    && (st.running ==> st.gen > 0)
  }

  ghost predicate StoppersOk(st: State) {
    && (forall t | t in st.stoppers :: StopperOk(st, st.stoppers[t]))
    && (forall t, u | t in st.stoppers && u in st.stoppers && Active(st.stoppers[t]) && Active(st.stoppers[u]) :: t == u)
  }

  /** What two events of a log, the second after the first, never violate. */
  predicate Ordered(x: Event, y: Event) {
    match y
    case Started(h) => (x.Started? || x.CallbackBegan? || x.CallbackEnded? || x.Stopped? || x.StopReturned? || x.Signalled?) ==> x.gen < h
    case CallbackBegan(h) => x.Stopped? || x.StopReturned? ==> x.gen < h
    case CallbackEnded(h) => x.Stopped? || x.StopReturned? ==> x.gen < h
    case Signalled(g) => x.Signalled? || x.Stopped? ==> x.gen < g
    case Stopped(g) => (x.Started? ==> x.gen <= g) && (x.Stopped? ==> x.gen < g)
    case StopReturned(_) => true
  }

  /** Every event is about a generation that exists, and a stopped one is over. */
  predicate Fits(st: State, x: Event) {
    && x.gen <= st.gen
    && (x.Stopped? || x.StopReturned? ==> x.gen < st.gen || !st.running)
    && (x.Signalled? ==> x.gen < st.gen || st.stopping || !st.running)
  }

  ghost predicate History(st: State) {
    && (forall a, b | 0 <= a < b < |st.log| :: Ordered(st.log[a], st.log[b]))
    && (forall a | 0 <= a < |st.log| :: Fits(st, st.log[a]))
    && (forall g | 1 <= g <= st.gen :: Started(g) in st.log)
  }

  ghost predicate Inv(st: State) {
    Structure(st) && History(st)
  }

  lemma StepKeepsStructure(st: State, step: Step)
    requires Structure(st) && Enabled(st, step)
    ensures Structure(Do(st, step))
  {
    hide Enabled, Do, RunnersOk, ChannelsOk, StoppersOk;
    StepKeepsRunners(st, step);
    StepKeepsChannels(st, step);
    StepKeepsStoppers(st, step);
  }

  lemma StepKeepsRunners(st: State, step: Step)
    requires Structure(st) && Enabled(st, step)
    ensures RunnersOk(Do(st, step))
  {
    var st' := Do(st, step);
    assert forall g | Alive(st', g) && g in st.runners :: Alive(st, g);
    if step.EndStop? {
      assert StopperOk(st, st.stoppers[step.thread]);
      assert !Alive(st, st.gen);
    }
  }

  lemma StepKeepsChannels(st: State, step: Step)
    requires Structure(st) && Enabled(st, step)
    ensures ChannelsOk(Do(st, step))
  {
    hide RunnersOk;
    if step.EndStop? {
      assert StopperOk(st, st.stoppers[step.thread]);
    }
  }

  lemma StepKeepsStoppers(st: State, step: Step)
    requires Structure(st) && Enabled(st, step)
    ensures StoppersOk(Do(st, step))
  {
    var st' := Do(st, step);
    forall t | t in st'.stoppers ensures StopperOk(st', st'.stoppers[t]) {
      if t in st.stoppers {
        assert StopperOk(st, st.stoppers[t]);
      }
    }
  }

  lemma StepKeepsHistory(st: State, step: Step)
    requires Inv(st) && Enabled(st, step)
    ensures History(Do(st, step))
  {
    hide Structure, Ordered;
    var st' := Do(st, step);
    StepFits(st, step);
    if |st'.log| > |st.log| {
      var e := st'.log[|st.log|];
      forall a, b | 0 <= a < b < |st'.log| ensures Ordered(st'.log[a], st'.log[b]) {
        if b == |st.log| { assert st'.log[a] == st.log[a]; }
      }
    }
    forall g | 1 <= g <= st'.gen ensures Started(g) in st'.log {
      if g <= st.gen { assert Started(g) in st.log; }
    }
  }

  lemma StepFits(st: State, step: Step)
    requires Inv(st) && Enabled(st, step)
    ensures var st' := Do(st, step);
            && (st'.log == st.log || exists e :: st'.log == st.log + [e])
            && (forall a | 0 <= a < |st'.log| :: Fits(st', st'.log[a]))
            && (|st'.log| > |st.log| ==> forall a | 0 <= a < |st.log| :: Ordered(st.log[a], st'.log[|st.log|]))
            && (st'.gen > st.gen ==> st'.gen == st.gen + 1 && |st'.log| == |st.log| + 1 && st'.log[|st.log|] == Started(st'.gen))
  {
    if step.Fire? || step.EndCallback? {
      assert Alive(st, step.g);
    } else if step.EndStop? || step.Return? {
      assert StopperOk(st, st.stoppers[step.thread]);
    }
  }

  lemma {:induction false} RunKeeps(st: State, steps: seq<Step>)
    requires Inv(st) && Runs(st, steps)
    ensures Inv(Run(st, steps))
    decreases |steps|
  {
    hide Structure, History, Enabled, Do;
    if |steps| > 0 {
      StepKeepsStructure(st, steps[0]);
      StepKeepsHistory(st, steps[0]);
      RunKeeps(Do(st, steps[0]), steps[1..]);
    }
  }

  // ----- whole runs -----

  /** At most one run goroutine is alive, and it is of the last generation. */
  lemma OneRunner(steps: seq<Step>, g: nat, h: nat)
    requires Runs(START, steps) && Alive(Run(START, steps), g) && Alive(Run(START, steps), h)
    ensures g == h == Run(START, steps).gen && Run(START, steps).running
  {
    RunKeeps(START, steps);
  }

  /** Stop closes each generation's stop channel at most once: when it goes ahead
      the channel is open. */
  lemma StopChannelClosedOnce(steps: seq<Step>)
    requires Runs(START, steps)
    ensures var st := Run(START, steps); CanStop(st) ==> st.gen !in st.stopClosed
    ensures var log := Run(START, steps).log;
            forall a, b | 0 <= a < b < |log| && log[a].Signalled? && log[b].Signalled? :: log[a].gen != log[b].gen
  {
    RunKeeps(START, steps);
  }

  /** After a Stop has stopped the loop no callback begins, or is still running,
      until a later Start: the callback belongs to a generation that was started
      after that Stop's last critical section. */
  lemma NoCallbackAfterStop(steps: seq<Step>, a: nat, b: nat)
    requires Runs(START, steps)
    requires a < b < |Run(START, steps).log|
    requires Run(START, steps).log[a].Stopped?
    requires Run(START, steps).log[b].CallbackBegan? || Run(START, steps).log[b].CallbackEnded?
    ensures var log := Run(START, steps).log;
            exists c :: a < c < b && log[c] == Started(log[b].gen)
  {
    RunKeeps(START, steps);
    var st := Run(START, steps);
    var log := st.log;
    var h := log[b].gen;
    assert Ordered(log[a], log[b]) && Fits(st, log[b]);
    var c :| 0 <= c < |log| && log[c] == Started(h);
    assert forall i, j | 0 <= i < j < |log| :: Ordered(log[i], log[j]);
  }

  /** Once Stop has returned, no callback of the generation it stopped, or of an
      earlier one, begins or ends. */
  lemma NoCallbackAfterReturn(steps: seq<Step>, a: nat, b: nat)
    requires Runs(START, steps)
    requires a < b < |Run(START, steps).log|
    requires Run(START, steps).log[a].StopReturned?
    requires Run(START, steps).log[b].CallbackBegan? || Run(START, steps).log[b].CallbackEnded?
    ensures Run(START, steps).log[a].gen < Run(START, steps).log[b].gen
  {
    RunKeeps(START, steps);
    var log := Run(START, steps).log;
    assert Ordered(log[a], log[b]);
  }
}
