/** The laws of the session protocol. */
module SessionHistory {
  // No ghost players, conservation of players and events, and the shutdown
  // barrier, over whole runs.
  import opened SessionProtocol
  import opened SessionSafety

  // ----- the log -----

  /** Two events of a log, the second after the first: joining is the first event
      of a session, being turned away is its only one, it quits once, and after
      its removal nothing is changed on its behalf. */
  predicate Apart(x: Event, y: Event) {
    x.sid == y.sid ==>
      match y
      case Joined(_) => false
      case TurnedAway(_) => false
      case Mutated(_) => x.Joined? || x.Mutated?
      case Removed(_) => x.Joined? || x.Mutated?
      case Quit(_) => x.Joined? || x.Mutated? || x.Removed?
  }

  ghost predicate LogOk(log: seq<Event>) {
    forall a, b | 0 <= a < b < |log| :: Apart(log[a], log[b])
  }

  /** The events of a session so far are those of its stage. */
  ghost predicate LogFits(log: seq<Event>, i: Sid, stage: Stage, pc: Pc) {
    && (Joined(i) in log <==> stage.Present? || stage.Gone?)
    && (Removed(i) in log <==> stage.Gone?)
    && (TurnedAway(i) in log <==> stage.Refused?)
    && (Quit(i) in log <==> stage.Gone? && !pc.RemoveCount? && !pc.RemoveQuit?)
    && (Mutated(i) in log ==> stage.Present? || stage.Gone?)
  }

  /** A session whose removal has been handled is not a player, nor on its way. */
  predicate Drained(se: Session, pc: Pc) {
    se.closer.Finished? && !se.stage.Present? && !BeforeMapped(pc) && !Mapped(pc)
  }

  ghost predicate History(st: State) {
    && LogOk(st.log)
    && (forall i | i in st.sessions :: LogFits(st.log, i, st.sessions[i].stage, PcOf(st, i)))
    && st.posted == st.handled + InHand(st.owner) + st.critical
    && (forall i | Remove(i) in st.handled :: i in st.sessions && Drained(st.sessions[i], PcOf(st, i)))
  }

  lemma StartHistory()
    ensures History(START)
  {
  }

  /** A change of one session that leaves its stage alone. */
  lemma SetHistory(st: State, i: Sid, se: Session)
    requires History(st) && i in st.sessions && se.stage == st.sessions[i].stage
    requires st.sessions[i].closer.Finished? ==> se.closer.Finished?
    ensures History(Set(st, i, se))
  {
    hide LogFits, LogOk;
    var st' := Set(st, i, se);
    forall j | j in st'.sessions ensures LogFits(st'.log, j, st'.sessions[j].stage, PcOf(st', j)) {
      assert LogFits(st.log, j, st.sessions[j].stage, PcOf(st, j));
    }
  }

  lemma SessionDoHistory(se: Session, step: Step)
    requires !step.AskBarrier? && !step.OwnerPop? && !step.OwnerStep?
    requires se.closer.Finished? ==> se.closeOnce
    ensures SessionDo(se, step).stage == se.stage
    ensures se.closer.Finished? ==> SessionDo(se, step).closer.Finished?
  {
  }

  lemma ConnectHistory(st: State, i: Sid)
    requires Inv(st) && History(st) && i !in st.sessions
    ensures History(Set(st, i, NEW))
  {
    hide LogOk, SessionsOk, CountOk;
    var st' := Set(st, i, NEW);
    forall j | j in st'.sessions ensures LogFits(st'.log, j, st'.sessions[j].stage, PcOf(st', j)) {
      if j == i {
        assert forall e | e in st.log :: e.sid != i;
      }
    }
  }

  lemma QueueHistory(st: State, c: Critical)
    requires History(st)
    ensures History(st.(critical := st.critical + [c], posted := st.posted + [c]))
  {
    hide LogFits, LogOk;
    assert st.handled + InHand(st.owner) + st.critical + [c] == st.handled + InHand(st.owner) + (st.critical + [c]);
  }

  lemma EnqueueHistory(st: State, e: Ordinary)
    requires History(st)
    ensures History(st.(ordinary := st.ordinary + [e]))
  {
    hide LogFits, LogOk;
  }

  lemma FinishedIsClosing(st: State, i: Sid)
    requires Inv(st) && i in st.sessions
    ensures var se := st.sessions[i]; se.closer.Finished? ==> se.closeOnce
    ensures History(st) ==> LogFits(st.log, i, st.sessions[i].stage, PcOf(st, i))
  {
  }

  lemma NetworkHistory(st: State, step: Step)
    requires Inv(st) && History(st) && Enabled(st, step) && !step.OwnerStep? && !step.OwnerPop?
    ensures History(Do(st, step))
  {
    hide Inv, History, SessionDo, Closing, CloserSession;
    if step.Connect? {
      ConnectHistory(st, step.sid);
    } else if step.AskBarrier? {
      QueueHistory(st, Barrier(step.id));
    } else if step.CloserStep? {
      CloserHistory(st, step.sid);
    } else if step.PostEnter? {
      PostHistory(st, step.sid, EnterPlay(step.sid));
    } else if step.PostEvent? {
      PostHistory(st, step.sid, Action(step.sid));
    } else {
      FinishedIsClosing(st, step.sid);
      SessionDoHistory(st.sessions[step.sid], step);
      SetHistory(st, step.sid, SessionDo(st.sessions[step.sid], step));
    }
  }

  lemma CloserHistory(st: State, i: Sid)
    requires History(st) && i in st.sessions
    ensures History(CloserDo(st, i))
  {
    hide History;
    var se := CloserSession(st.sessions[i]);
    SetHistory(st, i, se);
    if st.sessions[i].closer.PostRemoval? {
      QueueHistory(Set(st, i, se), Remove(i));
    }
  }

  lemma PostHistory(st: State, i: Sid, e: Ordinary)
    requires Inv(st) && History(st) && i in st.sessions
    ensures History(Post(st, i, e))
  {
    hide History, Inv;
    FinishedIsClosing(st, i);
    var se := st.sessions[i].(reader := Reading);
    SetHistory(st, i, se);
    SetHistory(st, i, Closing(se));
    EnqueueHistory(Set(st, i, se), e);
  }

  // ----- the tick owner -----

  lemma PopHistory(st: State)
    requires Inv(st) && History(st) && st.owner.Between? && (|st.critical| > 0 || |st.ordinary| > 0)
    ensures History(Pop(st))
  {
    hide LogOk, Inv, LogFits, Drained;
    var st' := Pop(st);
    if |st.critical| > 0 {
      assert st.handled + [] + st.critical == st.handled + [st.critical[0]] + st.critical[1..];
    }
    forall j | j in st'.sessions ensures LogFits(st'.log, j, st'.sessions[j].stage, PcOf(st', j)) {
      BeginningFits(st.log, j, st.sessions[j].stage);
      assert LogFits(st.log, j, st.sessions[j].stage, PcOf(st, j));
    }
    forall j | Remove(j) in st'.handled ensures j in st'.sessions && Drained(st'.sessions[j], PcOf(st', j)) {
      BeginningDrained(st.sessions[j]);
    }
  }

  /** An operation that has only begun has not logged anything. */
  lemma BeginningFits(log: seq<Event>, j: Sid, stage: Stage)
    requires LogFits(log, j, stage, Nothing)
    ensures LogFits(log, j, stage, RemoveSwap) && LogFits(log, j, stage, EnterLoadPhase) && LogFits(log, j, stage, ActLoadPhase)
  {
  }

  lemma BeginningDrained(se: Session)
    requires Drained(se, Nothing)
    ensures Drained(se, RemoveSwap) && Drained(se, EnterLoadPhase) && Drained(se, ActLoadPhase)
  {
  }

  lemma SignalHistory(st: State, ok: bool)
    requires History(st) && st.owner.Signalling?
    ensures History(OwnerDo(st, ok))
  {
    hide LogOk;
    var st' := OwnerDo(st, ok);
    assert st'.handled + [] + st'.critical == st.handled + InHand(st.owner) + st.critical;
  }

  /** An effect's events fit the session's stage. */
  lemma EffectLog(log: seq<Event>, pc: Pc, i: Sid, se: Session, taken: bool, inMap: bool, ok: bool, removal: bool)
    requires SessionOk(se, pc, inMap, removal)
    requires LogFits(log, i, se.stage, pc)
    ensures var e := EffectOf(pc, i, se, taken, inMap, ok);
            && LogFits(log + e.events, i, e.se.stage, e.next)
            && |e.events| <= 1
            && (forall x, y | x in log && y in e.events :: Apart(x, y))
  {
    EventsOf(pc, i, se, taken, inMap, ok);
    NextOf(pc, i, se, taken, inMap, ok);
    hide EffectOf;
    var e := EffectOf(pc, i, se, taken, inMap, ok);
    forall x, y | x in log && y in e.events ensures Apart(x, y) {
      assert x == Joined(x.sid) || x == Quit(x.sid) || x == Removed(x.sid) || x == TurnedAway(x.sid) || x == Mutated(x.sid);
    }
  }

  /** Which operations log an event, and how the stage moves. */
  lemma EventsOf(pc: Pc, i: Sid, se: Session, taken: bool, mine: bool, ok: bool)
    ensures var e := EffectOf(pc, i, se, taken, mine, ok);
            && (e.events == [] || e.events == [Joined(i)] || e.events == [Removed(i)] || e.events == [TurnedAway(i)]
                || e.events == [Quit(i)] || e.events == [Mutated(i)])
            && (e.events == [Joined(i)] <==> pc.AddJoin?)
            && (e.events == [Removed(i)] <==> pc.RemoveDelete? && mine)
            && (e.events == [TurnedAway(i)] <==> pc.UndoDelete? || (pc.AddStore? && taken))
            && (e.events == [Quit(i)] <==> pc.RemoveQuit?)
            && (e.events == [Mutated(i)] <==> pc.ActMutate?)
            && e.se.stage == (if pc.AddJoin? then Present
                              else if pc.RemoveDelete? && mine then Gone
                              else if pc.UndoDelete? || (pc.AddStore? && taken) then Refused
                              else if pc.EnterCas? && se.phase.PlayPending? then Entering
                              else se.stage)
  {
  }

  /** How the owner's operation goes on. */
  lemma NextOf(pc: Pc, i: Sid, se: Session, taken: bool, mine: bool, ok: bool)
    ensures var e := EffectOf(pc, i, se, taken, mine, ok);
            && (e.next.RemoveCount? <==> pc.RemoveDelete? && mine)
            && (e.next.RemoveQuit? <==> pc.RemoveCount?)
            && (se.closer.Finished? && se.closeOnce ==> e.se.closer.Finished?)
            && (BeforeMapped(e.next) || Mapped(e.next) ==> BeforeMapped(pc) || Mapped(pc) || (pc.EnterCas? && se.phase.PlayPending?))
            && (IsRemoving(pc) && e.next.Nothing? ==> pc.RemoveQuit? || (pc.RemoveSwap? && !se.registered) || (pc.RemoveDelete? && !mine))
            && (IsRemoving(e.next) ==> IsRemoving(pc)) && (IsRemoving(pc) && !e.next.Nothing? ==> IsRemoving(e.next))
  {
  }

  /** Once a removal has been handled the session stays drained. */
  lemma EffectDrained(pc: Pc, i: Sid, se: Session, taken: bool, inMap: bool, ok: bool, removal: bool)
    requires SessionOk(se, pc, inMap, removal)
    ensures var e := EffectOf(pc, i, se, taken, inMap, ok);
            && (Drained(se, pc) ==> Drained(e.se, e.next))
            && (IsRemoving(pc) && e.next.Nothing? ==> Drained(e.se, e.next))
            && (IsRemoving(e.next) <==> IsRemoving(pc) && !e.next.Nothing?)
  {
    EventsOf(pc, i, se, taken, inMap, ok);
    NextOf(pc, i, se, taken, inMap, ok);
    hide EffectOf;
  }

  lemma OwnerHistory(st: State, ok: bool)
    requires Inv(st) && History(st) && st.owner.At?
    ensures History(OwnerDo(st, ok))
  {
    hide EffectOf, LogFits, SessionOk, LogOk, Drained, Apart;
    var i := st.owner.who;
    var se := st.sessions[i];
    EffectLog(st.log, st.owner.pc, i, se, se.key in st.players, InMap(st, i), ok, RemovalQueued(st, i));
    EffectDrained(st.owner.pc, i, se, se.key in st.players, InMap(st, i), ok, RemovalQueued(st, i));
    EffectOk(st.owner.pc, i, se, se.key in st.players, InMap(st, i), ok, RemovalQueued(st, i));
    var e := OwnerEffect(st, ok);
    LogGrows(st.log, e.events);
    ApplyFits(st, i, e);
    ApplyQueues(st, i, e);
  }

  lemma LogGrows(log: seq<Event>, events: seq<Event>)
    requires LogOk(log) && |events| <= 1
    requires forall x, y | x in log && y in events :: Apart(x, y)
    ensures LogOk(log + events)
  {
    hide Apart;
    var all := log + events;
    forall a, b | 0 <= a < b < |all| ensures Apart(all[a], all[b]) {
      if b == |log| {
        assert all[a] == log[a] && all[b] == events[0];
      }
    }
  }

  lemma FitsOthers(log: seq<Event>, events: seq<Event>, j: Sid, stage: Stage, pc: Pc)
    requires LogFits(log, j, stage, pc)
    requires forall x | x in events :: x.sid != j
    ensures LogFits(log + events, j, stage, pc)
  {
  }

  lemma ApplyFits(st: State, i: Sid, e: Effect)
    requires History(st) && st.owner.At? && st.owner.who == i && i in st.sessions
    requires LogFits(st.log + e.events, i, e.se.stage, e.next)
    requires forall x | x in e.events :: x.sid == i
    ensures var st' := Apply(st, i, e);
            forall j | j in st'.sessions :: LogFits(st'.log, j, st'.sessions[j].stage, PcOf(st', j))
  {
    hide LogFits, LogOk, Drained;
    var st' := Apply(st, i, e);
    forall j | j in st'.sessions ensures LogFits(st'.log, j, st'.sessions[j].stage, PcOf(st', j)) {
      if j != i {
        assert j in st.sessions;
        FitsOthers(st.log, e.events, j, st.sessions[j].stage, PcOf(st, j));
      }
    }
  }

  lemma ApplyQueues(st: State, i: Sid, e: Effect)
    requires History(st) && st.owner.At? && st.owner.who == i && i in st.sessions
    requires Drained(st.sessions[i], st.owner.pc) ==> Drained(e.se, e.next)
    requires IsRemoving(st.owner.pc) && e.next.Nothing? ==> Drained(e.se, e.next)
    requires IsRemoving(e.next) <==> IsRemoving(st.owner.pc) && !e.next.Nothing?
    ensures var st' := Apply(st, i, e);
            && st'.posted == st'.handled + InHand(st'.owner) + st'.critical
            && (forall j | Remove(j) in st'.handled :: j in st'.sessions && Drained(st'.sessions[j], PcOf(st', j)))
  {
    hide LogFits, LogOk, Drained, IsRemoving;
    var st' := Apply(st, i, e);
    if e.next.Nothing? {
      assert st.handled + InHand(st.owner) + st.critical == st'.handled + [] + st'.critical;
    }
    forall j | Remove(j) in st'.handled ensures j in st'.sessions && Drained(st'.sessions[j], PcOf(st', j)) {
      if Remove(j) in st.handled {
        assert j in st.sessions && Drained(st.sessions[j], PcOf(st, j));
      } else {
        assert Remove(j) in InHand(st.owner);
      }
    }
  }

  lemma StepHistory(st: State, step: Step)
    requires Inv(st) && History(st) && Enabled(st, step)
    ensures History(Do(st, step))
  {
    hide Inv, History, Pop, OwnerDo;
    if step.OwnerPop? {
      PopHistory(st);
    } else if step.OwnerStep? {
      if st.owner.Signalling? { SignalHistory(st, step.ok); } else { OwnerHistory(st, step.ok); }
    } else {
      NetworkHistory(st, step);
    }
  }

  // ----- whole runs -----

  lemma {:induction false} RunKeeps(st: State, steps: seq<Step>)
    requires Inv(st) && History(st) && Runs(st, steps)
    ensures Inv(Run(st, steps)) && History(Run(st, steps))
    decreases |steps|
  {
    hide Inv, History, Enabled, Do;
    if |steps| > 0 {
      StepKeeps(st, steps[0]);
      StepHistory(st, steps[0]);
      RunKeeps(Do(st, steps[0]), steps[1..]);
    }
  }

  ghost predicate Reachable(st: State) {
    exists steps :: Runs(START, steps) && Run(START, steps) == st
  }

  lemma ReachableOk(st: State)
    requires Reachable(st)
    ensures Inv(st) && History(st)
  {
    StartOk();
    StartHistory();
    var steps :| Runs(START, steps) && Run(START, steps) == st;
    RunKeeps(START, steps);
  }

  /** No ghost players: a closed session that is in the player map always has a
      removal queued, a Close that has not yet come to queueing one, or the owner
      about to take it out. */
  lemma NoGhostPlayers(st: State, i: Sid)
    requires Reachable(st) && InMap(st, i) && st.sessions[i].phase.Closed?
    ensures RemovalQueued(st, i) || !st.sessions[i].closer.Finished? || AboutToDelete(PcOf(st, i))
  {
    ReachableOk(st);
    assert SessionOk(st.sessions[i], PcOf(st, i), InMap(st, i), RemovalQueued(st, i));
  }

  /** So when the owner has nothing left to do and no Close is under way, no
      closed session is a player. */
  lemma QuietMeansNoGhosts(st: State, i: Sid)
    requires Reachable(st) && st.owner.Between? && |st.critical| == 0
    requires i in st.sessions && (st.sessions[i].closer.NotClosing? || st.sessions[i].closer.Finished?)
    requires st.sessions[i].phase.Closed?
    ensures !InMap(st, i) && !st.sessions[i].registered
  {
    ReachableOk(st);
    assert SessionOk(st.sessions[i], PcOf(st, i), InMap(st, i), RemovalQueued(st, i));
  }

  /** No operation moves a session out of Closed, and only EnterCas moves one
      to Play. */
  lemma PhaseMoves(se: Session, step: Step, pc: Pc, i: Sid, taken: bool, mine: bool, ok: bool)
    ensures !step.AskBarrier? && !step.OwnerPop? && !step.OwnerStep? ==>
              var t := SessionDo(se, step);
              (se.phase.Closed? ==> t.phase.Closed?) && (t.phase.Play? ==> se.phase.Play?)
    ensures var t := CloserSession(se);
            (se.phase.Closed? ==> t.phase.Closed?) && (t.phase.Play? ==> se.phase.Play?)
    ensures var t := EffectOf(pc, i, se, taken, mine, ok).se;
            && (se.phase.Closed? ==> t.phase.Closed?)
            && (t.phase.Play? ==> se.phase.Play? || (pc.EnterCas? && se.phase.PlayPending?))
  {
  }

  /** Closed is absorbing, and only the owner's compare-and-swap from PlayPending
      makes a session play. */
  lemma ClosedIsAbsorbing(st: State, step: Step, i: Sid)
    requires Reachable(st) && OwnerKnown(st) && Enabled(st, step) && i in st.sessions
    ensures i in Do(st, step).sessions
    ensures st.sessions[i].phase.Closed? ==> Do(st, step).sessions[i].phase.Closed?
    ensures Do(st, step).sessions[i].phase.Play? && !st.sessions[i].phase.Play? ==>
              step.OwnerStep? && st.owner == At(EnterCas, i) && st.sessions[i].phase.PlayPending? && st.sessions[i].configurationSent
  {
    hide Reachable, SessionDo, CloserSession, EffectOf;
    var se := st.sessions[i];
    PendingIsConfigured(st, i);
    var pc := if st.owner.At? then st.owner.pc else Nothing;
    var ok := step.OwnerStep? && step.ok;
    PhaseMoves(se, step, pc, i, se.key in st.players, Holds(st.players, se.key, i), ok);
  }

  lemma PendingIsConfigured(st: State, i: Sid)
    requires Reachable(st) && i in st.sessions
    ensures st.sessions[i].phase.PlayPending? ==> st.sessions[i].configurationSent
  {
    ReachableOk(st);
    hide History;
    assert SessionOk(st.sessions[i], PcOf(st, i), InMap(st, i), RemovalQueued(st, i));
  }

  /** Between events the count is the size of the player map, and a session is
      registered exactly when the map holds it under its own key. */
  lemma PlayersConserved(st: State)
    requires Reachable(st) && st.owner.Between?
    ensures st.online == |st.players|
    ensures forall i | i in st.sessions :: st.sessions[i].registered <==> InMap(st, i)
    ensures forall k | k in st.players :: st.players[k] in st.sessions && st.sessions[st.players[k]].key == k
    ensures forall i | i in st.sessions ::
              InMap(st, i) <==> Joined(i) in st.log && Removed(i) !in st.log
  {
    ReachableOk(st);
    forall i | i in st.sessions
      ensures st.sessions[i].registered <==> InMap(st, i)
      ensures InMap(st, i) <==> Joined(i) in st.log && Removed(i) !in st.log
    {
      assert SessionOk(st.sessions[i], PcOf(st, i), InMap(st, i), RemovalQueued(st, i));
      assert LogFits(st.log, i, st.sessions[i].stage, PcOf(st, i));
    }
  }

  /** Each session joins at most once and quits at most once, after joining; one
      that was turned away does neither; and nothing is changed on a session's
      behalf before it joined or after its removal. */
  lemma EventsConserved(st: State, a: nat, b: nat)
    requires Reachable(st) && a < b < |st.log|
    ensures Apart(st.log[a], st.log[b])
    ensures st.log[b].Quit? ==> Joined(st.log[b].sid) in st.log && Removed(st.log[b].sid) in st.log
    ensures st.log[b].Mutated? ==> Joined(st.log[b].sid) in st.log
  {
    ReachableOk(st);
    var i := st.log[b].sid;
    assert st.log[b] in st.log;
    assert LogFits(st.log, i, st.sessions[i].stage, PcOf(st, i));
  }

  /** The shutdown barrier: when the owner has signalled it, every removal queued
      before it has been applied, however much ordinary work is waiting. */
  lemma BarrierDrains(st: State, n: nat, m: nat, i: Sid)
    requires Reachable(st) && m < n < |st.handled| && m < |st.posted|
    requires st.handled[n].Barrier? && st.posted[m] == Remove(i)
    ensures st.handled <= st.posted
    ensures i in st.sessions && !InMap(st, i) && (st.owner.Between? ==> !st.sessions[i].registered)
  {
    ReachableOk(st);
    assert st.posted[m] == st.handled[m];
    assert Remove(i) in st.handled;
    assert SessionOk(st.sessions[i], PcOf(st, i), InMap(st, i), RemovalQueued(st, i));
  }
}
