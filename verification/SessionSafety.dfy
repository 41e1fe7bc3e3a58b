/** Safety of the session protocol in every interleaving of its steps.

    The invariant Inv has a clause for each session, SessionOk, which relates the
    session's phase, how far its Close has come, whether the player map holds it,
    whether a removal of it is queued, and the tick owner's next operation on it.
    Two clauses concern the whole state: the session that the owner works on is
    known, and the online count differs from the size of the player map only
    while the owner is between the two updates. A step works on one session, so
    most lemmas show that SessionOk holds of that session again and that the
    others keep it. */
module SessionSafety {
  import opened SessionProtocol

  // ----- the inductive invariant -----

  ghost predicate InMap(st: State, i: Sid) {
    i in st.sessions && Holds(st.players, st.sessions[i].key, i)
  }

  ghost function PcOf(st: State, i: Sid): Pc {
    if st.owner.At? && st.owner.who == i then st.owner.pc else Nothing
  }

  ghost predicate RemovalQueued(st: State, i: Sid) {
    Remove(i) in st.critical
  }

  /** The owner has marked the session registered but not made it a player. */
  predicate Holding(pc: Pc) {
    pc.AddStore? || pc.DupUnregister? || pc.UndoUnregister? || Mapped(pc)
  }

  /** The owner has put the session in the player map but not made it a player. */
  predicate Mapped(pc: Pc) {
    pc.ConfirmPhase? || pc.ConfirmClose? || pc.UndoDelete? || pc.AddCount? || pc.AddJoin?
  }

  predicate BeforeMapped(pc: Pc) {
    || pc.EnterSend? || pc.EnterCheckPhase? || pc.EnterCheckClose?
    || pc.AddLoadPhase? || pc.AddLoadClose? || pc.AddRegister? || pc.AddStore?
  }

  /** The owner is about to take the session out of the player map. */
  predicate AboutToDelete(pc: Pc) {
    pc.ConfirmPhase? || pc.ConfirmClose? || pc.UndoDelete? || pc.RemoveSwap? || pc.RemoveDelete?
  }

  /** The state of one session, against the owner's position on it, whether it
      is in the player map and whether a removal is queued for it. */
  predicate SessionOk(se: Session, pc: Pc, inMap: bool, removal: bool) {
    && (se.closeOnce <==> !se.closer.NotClosing?)
    && (se.phase.Closed? <==> !se.closer.NotClosing? && !se.closer.StorePhase?)
    && (se.phase.Play? ==> !se.stage.Fresh?)
    && (!se.phase.Play? && !se.phase.Closed? ==> se.stage.Fresh?)
    && (se.phase.PlayPending? || !se.stage.Fresh? ==> se.entered)
    && (se.entered ==> se.configurationSent)
    && (se.registered <==> (se.stage.Present? && !pc.RemoveDelete?) || Holding(pc))
    && (inMap <==> se.stage.Present? || Mapped(pc))
    && (BeforeMapped(pc) || Mapped(pc) ==> se.stage.Entering?)
    && (pc.DupUnregister? || pc.DupClose? || pc.UndoUnregister? ==> se.stage.Refused?)
    && (pc.RemoveDelete? || pc.ActMutate? ==> se.stage.Present?)
    && (pc.RemoveCount? || pc.RemoveQuit? ==> se.stage.Gone?)
    && (IsRemoving(pc) || removal ==> se.closer.Finished?)
    && (inMap && se.closer.Finished? ==> removal || AboutToDelete(pc))
  }

  ghost predicate SessionsOk(st: State) {
    forall i | i in st.sessions :: SessionOk(st.sessions[i], PcOf(st, i), InMap(st, i), RemovalQueued(st, i))
  }

  /** Everything refers to sessions that exist, and the map to its keys' owners. */
  ghost predicate Known(st: State) {
    && OwnerKnown(st)
    && (forall k | k in st.players :: st.players[k] in st.sessions && st.sessions[st.players[k]].key == k)
    && (forall e | e in st.critical && e.Remove? :: e.sid in st.sessions)
    && (forall e | e in st.ordinary :: e.sid in st.sessions)
    && (forall e | e in st.log :: e.sid in st.sessions)
  }

  /** How far the count is from the size of the player map. */
  function Lag(owner: Owner): int {
    if !owner.At? then 0
    else if owner.pc.RemoveCount? then 1
    else if Mapped(owner.pc) && !owner.pc.AddJoin? then -1
    else 0
  }

  ghost predicate CountOk(st: State) {
    st.online == |st.players| + Lag(st.owner)
  }

  ghost predicate Inv(st: State) {
    Known(st) && SessionsOk(st) && CountOk(st)
  }

  lemma StartOk()
    ensures Inv(START)
  {
  }

  /** A step that touches at most session `i`. */
  ghost predicate Frame(st: State, st': State, i: Sid) {
    && st'.sessions.Keys == st.sessions.Keys
    && (forall j | j in st.sessions && j != i ::
          && st'.sessions[j] == st.sessions[j]
          && PcOf(st', j) == PcOf(st, j)
          && InMap(st', j) == InMap(st, j)
          && RemovalQueued(st', j) == RemovalQueued(st, j))
  }

  lemma SessionsFromOne(st: State, st': State, i: Sid)
    requires SessionsOk(st) && Frame(st, st', i) && i in st.sessions
    requires SessionOk(st'.sessions[i], PcOf(st', i), InMap(st', i), RemovalQueued(st', i))
    ensures SessionsOk(st')
  {
    hide SessionOk;
    forall j | j in st'.sessions ensures SessionOk(st'.sessions[j], PcOf(st', j), InMap(st', j), RemovalQueued(st', j)) {
      if j != i { assert j in st.sessions; }
    }
  }

  // ----- network threads -----

  lemma SessionDoOk(se: Session, step: Step, pc: Pc, inMap: bool, removal: bool)
    requires SessionOk(se, pc, inMap, removal)
    requires !step.AskBarrier? && !step.OwnerPop? && !step.OwnerStep?
    ensures SessionOk(SessionDo(se, step), pc, inMap, removal)
    ensures SessionDo(se, step).key != se.key ==> step.SetName?
  {
  }

  /** Changing one session's record, with its key or before it is a player. */
  lemma SetKeeps(st: State, i: Sid, se: Session)
    requires Inv(st) && i in st.sessions
    requires se.key == st.sessions[i].key || !InMap(st, i)
    requires SessionOk(se, PcOf(st, i), InMap(st, i), RemovalQueued(st, i))
    ensures Inv(Set(st, i, se))
  {
    hide SessionOk;
    var st' := Set(st, i, se);
    assert InMap(st', i) == InMap(st, i);
    SessionsFromOne(st, st', i);
  }

  lemma NetworkKeeps(st: State, step: Step)
    requires Inv(st) && Enabled(st, step) && !step.OwnerStep? && !step.OwnerPop?
    ensures Inv(Do(st, step))
  {
    hide Inv, SessionDo, CloserDo, Post, SessionOk, InMap;
    if step.Connect? {
      ConnectKeeps(st, step.sid);
    } else if step.AskBarrier? {
      QueueKeeps(st, Barrier(step.id));
    } else if step.CloserStep? {
      CloserKeeps(st, step.sid);
    } else if step.PostEnter? {
      PostKeeps(st, step.sid, EnterPlay(step.sid));
    } else if step.PostEvent? {
      PostKeeps(st, step.sid, Action(step.sid));
    } else {
      AlterKeeps(st, step);
    }
  }

  lemma AlterKeeps(st: State, step: Step)
    requires Inv(st) && Enabled(st, step)
    requires !step.AskBarrier? && !step.OwnerPop? && !step.OwnerStep? && !step.Connect?
    ensures Inv(Set(st, step.sid, SessionDo(st.sessions[step.sid], step)))
  {
    hide SessionDo, Set;
    var i := step.sid;
    SessionDoOk(st.sessions[i], step, PcOf(st, i), InMap(st, i), RemovalQueued(st, i));
    SetKeeps(st, i, SessionDo(st.sessions[i], step));
  }

  lemma ConnectKeeps(st: State, i: Sid)
    requires Inv(st) && i !in st.sessions
    ensures Inv(Set(st, i, NEW))
  {
    var st' := Set(st, i, NEW);
    forall j | j in st'.sessions ensures SessionOk(st'.sessions[j], PcOf(st', j), InMap(st', j), RemovalQueued(st', j)) {
      if j != i { assert InMap(st', j) == InMap(st, j); }
    }
  }

  lemma QueueKeeps(st: State, c: Critical)
    requires Inv(st)
    requires c.Remove? ==> c.sid in st.sessions && st.sessions[c.sid].closer.Finished?
    ensures Inv(st.(critical := st.critical + [c], posted := st.posted + [c]))
  {
    var st' := st.(critical := st.critical + [c], posted := st.posted + [c]);
    assert forall e :: e in st'.critical <==> e in st.critical || e == c;
    forall j | j in st'.sessions ensures SessionOk(st'.sessions[j], PcOf(st', j), InMap(st', j), RemovalQueued(st', j)) {
      assert InMap(st', j) == InMap(st, j);
    }
  }

  lemma CloserOk(se: Session, pc: Pc, inMap: bool, removal: bool)
    requires SessionOk(se, pc, inMap, removal)
    ensures SessionOk(CloserSession(se), pc, inMap, removal || se.closer.PostRemoval?)
  {
  }

  lemma CloserKeeps(st: State, i: Sid)
    requires Inv(st) && i in st.sessions
    ensures Inv(CloserDo(st, i))
  {
    hide SessionOk, CloserSession, Inv;
    var se := st.sessions[i];
    CloserFits(st, i);
    CloserKey(se);
    if se.closer.PostRemoval? {
      RemovalKeeps(st, i, CloserSession(se));
    } else {
      SetKeeps(st, i, CloserSession(se));
    }
  }

  lemma CloserFits(st: State, i: Sid)
    requires Inv(st) && i in st.sessions
    ensures var se := st.sessions[i];
            SessionOk(CloserSession(se), PcOf(st, i), InMap(st, i), RemovalQueued(st, i) || se.closer.PostRemoval?)
  {
    hide SessionOk, CloserSession, CountOk, Known;
    CloserOk(st.sessions[i], PcOf(st, i), InMap(st, i), RemovalQueued(st, i));
  }

  lemma RemovalKeeps(st: State, i: Sid, se: Session)
    requires Inv(st) && i in st.sessions && se.key == st.sessions[i].key
    requires SessionOk(se, PcOf(st, i), InMap(st, i), true)
    ensures Inv(Set(st, i, se).(critical := st.critical + [Remove(i)], posted := st.posted + [Remove(i)]))
  {
    hide SessionOk, SessionsOk, Known, CountOk, Frame;
    var st' := Set(st, i, se).(critical := st.critical + [Remove(i)], posted := st.posted + [Remove(i)]);
    RemovalKnown(st, st', i);
    RemovalFrame(st, st', i);
    SessionsFromOne(st, st', i);
  }

  lemma RemovalKnown(st: State, st': State, i: Sid)
    requires Known(st) && CountOk(st) && i in st.sessions
    requires st'.sessions.Keys == st.sessions.Keys && forall j | j in st.sessions :: st'.sessions[j].key == st.sessions[j].key
    requires st'.critical == st.critical + [Remove(i)] && st'.players == st.players && st'.owner == st.owner
    requires st'.ordinary == st.ordinary && st'.log == st.log && st'.online == st.online
    ensures Known(st') && CountOk(st')
  {
    assert forall e :: e in st'.critical <==> e in st.critical || e == Remove(i);
  }

  lemma RemovalFrame(st: State, st': State, i: Sid)
    requires i in st.sessions && st'.sessions.Keys == st.sessions.Keys
    requires (forall j | j in st.sessions && j != i :: st'.sessions[j] == st.sessions[j])
    requires st'.sessions[i].key == st.sessions[i].key
    requires st'.critical == st.critical + [Remove(i)] && st'.players == st.players && st'.owner == st.owner
    ensures Frame(st, st', i) && RemovalQueued(st', i) && InMap(st', i) == InMap(st, i) && PcOf(st', i) == PcOf(st, i)
  {
    assert forall e :: e in st'.critical <==> e in st.critical || e == Remove(i);
  }

  lemma CloserKey(se: Session)
    ensures CloserSession(se).key == se.key
  {
  }

  lemma PostKeeps(st: State, i: Sid, e: Ordinary)
    requires Inv(st) && i in st.sessions && e.sid == i
    ensures Inv(Post(st, i, e))
  {
    hide SessionOk, Closing, Inv;
    var se := st.sessions[i].(reader := Reading);
    ReaderIsFree(st, i);
    if |st.ordinary| < CAPACITY {
      SetKeeps(st, i, se);
      EnqueueKeeps(Set(st, i, se), e);
    } else {
      SetKeeps(st, i, Closing(se));
    }
  }

  lemma ReaderIsFree(st: State, i: Sid)
    requires Inv(st) && i in st.sessions
    ensures var se := st.sessions[i].(reader := Reading);
            && SessionOk(se, PcOf(st, i), InMap(st, i), RemovalQueued(st, i))
            && SessionOk(Closing(se), PcOf(st, i), InMap(st, i), RemovalQueued(st, i))
            && Closing(se).key == se.key == st.sessions[i].key
  {
  }

  lemma EnqueueKeeps(st: State, e: Ordinary)
    requires Inv(st) && e.sid in st.sessions
    ensures Inv(st.(ordinary := st.ordinary + [e]))
  {
    hide SessionOk;
    var st' := st.(ordinary := st.ordinary + [e]);
    assert Frame(st, st', e.sid);
    SessionsFromOne(st, st', e.sid);
  }

  // ----- the tick owner -----

  lemma PopCriticalKeeps(st: State)
    requires Inv(st) && st.owner.Between? && |st.critical| > 0
    ensures Inv(Pop(st))
  {
    hide SessionOk;
    var st' := Pop(st);
    var c := st.critical[0];
    assert st.critical == [c] + st.critical[1..];
    assert forall e :: e in st.critical <==> e == c || e in st'.critical;
    forall j | j in st'.sessions ensures SessionOk(st'.sessions[j], PcOf(st', j), InMap(st', j), RemovalQueued(st', j)) {
      assert InMap(st', j) == InMap(st, j);
      PoppedOk(st.sessions[j], PcOf(st, j), InMap(st, j));
    }
  }

  lemma PoppedOk(se: Session, pc: Pc, inMap: bool)
    ensures SessionOk(se, Nothing, inMap, true) ==> SessionOk(se, RemoveSwap, inMap, true) && SessionOk(se, RemoveSwap, inMap, false)
  {
  }

  lemma PopOrdinaryKeeps(st: State)
    requires Inv(st) && st.owner.Between? && |st.critical| == 0 && |st.ordinary| > 0
    ensures Inv(Pop(st))
  {
    hide SessionOk;
    var st' := Pop(st);
    var e := st.ordinary[0];
    assert e in st.ordinary;
    assert st.ordinary == [e] + st'.ordinary;
    forall j | j in st'.sessions ensures SessionOk(st'.sessions[j], PcOf(st', j), InMap(st', j), RemovalQueued(st', j)) {
      assert InMap(st', j) == InMap(st, j);
      if j == e.sid { PoppedOrdinaryOk(st.sessions[j], InMap(st, j), RemovalQueued(st, j)); }
    }
  }

  lemma PoppedOrdinaryOk(se: Session, inMap: bool, removal: bool)
    requires SessionOk(se, Nothing, inMap, removal)
    ensures SessionOk(se, EnterLoadPhase, inMap, removal) && SessionOk(se, ActLoadPhase, inMap, removal)
  {
  }

  /** What an effect does to the session's place in the map. */
  function MapAfter(inMap: bool, change: MapChange): bool {
    match change
    case Keep => inMap
    case Insert => true
    case Delete => false
  }

  ghost predicate EffectKeeps(e: Effect, i: Sid, se: Session, taken: bool, inMap: bool, removal: bool) {
    && SessionOk(e.se, e.next, MapAfter(inMap, e.change), removal)
    && e.se.key == se.key
    && (e.change.Insert? ==> !taken)
    && (e.change.Delete? ==> inMap)
    && forall x | x in e.events :: x.sid == i
  }

  predicate IsLooking(pc: Pc) {
    pc.Nothing? || pc.EnterLoadPhase? || pc.EnterLoadClose? || pc.EnterCheckPhase? || pc.EnterCheckClose?
  }

  predicate IsEntering(pc: Pc) {
    pc.EnterCas? || pc.EnterSend? || pc.AddLoadPhase?
  }

  predicate IsAdding(pc: Pc) {
    pc.AddLoadClose? || pc.AddRegister? || pc.AddStore?
  }

  predicate IsConfirming(pc: Pc) {
    pc.ConfirmPhase? || pc.ConfirmClose? || pc.AddCount? || pc.AddJoin?
  }

  predicate IsUndoing(pc: Pc) {
    pc.DupUnregister? || pc.DupClose? || pc.UndoDelete? || pc.UndoUnregister?
  }

  predicate IsActing(pc: Pc) {
    pc.ActLoadPhase? || pc.ActLoadRegistered? || pc.ActMutate?
  }

  lemma LookingOk(pc: Pc, i: Sid, se: Session, taken: bool, inMap: bool, ok: bool, removal: bool)
    requires IsLooking(pc)
    requires SessionOk(se, pc, inMap, removal)
    requires inMap ==> taken
    ensures EffectKeeps(EffectOf(pc, i, se, taken, inMap, ok), i, se, taken, inMap, removal)
  {
  }

  lemma EnteringOk(pc: Pc, i: Sid, se: Session, taken: bool, inMap: bool, ok: bool, removal: bool)
    requires IsEntering(pc)
    requires SessionOk(se, pc, inMap, removal)
    requires inMap ==> taken
    ensures EffectKeeps(EffectOf(pc, i, se, taken, inMap, ok), i, se, taken, inMap, removal)
  {
  }

  lemma AddingOk(pc: Pc, i: Sid, se: Session, taken: bool, inMap: bool, ok: bool, removal: bool)
    requires IsAdding(pc)
    requires SessionOk(se, pc, inMap, removal)
    requires inMap ==> taken
    ensures EffectKeeps(EffectOf(pc, i, se, taken, inMap, ok), i, se, taken, inMap, removal)
  {
  }

  lemma ConfirmingOk(pc: Pc, i: Sid, se: Session, taken: bool, inMap: bool, ok: bool, removal: bool)
    requires IsConfirming(pc)
    requires SessionOk(se, pc, inMap, removal)
    requires inMap ==> taken
    ensures EffectKeeps(EffectOf(pc, i, se, taken, inMap, ok), i, se, taken, inMap, removal)
  {
  }

  lemma UndoingOk(pc: Pc, i: Sid, se: Session, taken: bool, inMap: bool, ok: bool, removal: bool)
    requires IsUndoing(pc)
    requires SessionOk(se, pc, inMap, removal)
    requires inMap ==> taken
    ensures EffectKeeps(EffectOf(pc, i, se, taken, inMap, ok), i, se, taken, inMap, removal)
  {
  }

  lemma RemovingOk(pc: Pc, i: Sid, se: Session, taken: bool, inMap: bool, ok: bool, removal: bool)
    requires IsRemoving(pc)
    requires SessionOk(se, pc, inMap, removal)
    requires inMap ==> taken
    ensures EffectKeeps(EffectOf(pc, i, se, taken, inMap, ok), i, se, taken, inMap, removal)
  {
  }

  lemma ActingOk(pc: Pc, i: Sid, se: Session, taken: bool, inMap: bool, ok: bool, removal: bool)
    requires IsActing(pc)
    requires SessionOk(se, pc, inMap, removal)
    requires inMap ==> taken
    ensures EffectKeeps(EffectOf(pc, i, se, taken, inMap, ok), i, se, taken, inMap, removal)
  {
  }

  lemma EffectOk(pc: Pc, i: Sid, se: Session, taken: bool, inMap: bool, ok: bool, removal: bool)
    requires SessionOk(se, pc, inMap, removal)
    requires inMap ==> taken
    ensures EffectKeeps(EffectOf(pc, i, se, taken, inMap, ok), i, se, taken, inMap, removal)
  {
    hide SessionOk, EffectOf, EffectKeeps;
    if IsLooking(pc) {
      LookingOk(pc, i, se, taken, inMap, ok, removal);
    } else if IsEntering(pc) {
      EnteringOk(pc, i, se, taken, inMap, ok, removal);
    } else if IsAdding(pc) {
      AddingOk(pc, i, se, taken, inMap, ok, removal);
    } else if IsConfirming(pc) {
      ConfirmingOk(pc, i, se, taken, inMap, ok, removal);
    } else if IsUndoing(pc) {
      UndoingOk(pc, i, se, taken, inMap, ok, removal);
    } else if IsRemoving(pc) {
      RemovingOk(pc, i, se, taken, inMap, ok, removal);
    } else {
      ActingOk(pc, i, se, taken, inMap, ok, removal);
    }
  }

  /** The count follows the map. */
  lemma EffectCount(pc: Pc, i: Sid, se: Session, taken: bool, inMap: bool, ok: bool, removal: bool)
    requires SessionOk(se, pc, inMap, removal)
    ensures var e := EffectOf(pc, i, se, taken, inMap, ok);
            e.count == Lag(if e.next.Nothing? then Between else At(e.next, i)) - Lag(At(pc, i))
                       + (match e.change case Keep => 0 case Insert => 1 case Delete => -1)
  {
  }

  lemma OwnerKeeps(st: State, ok: bool)
    requires Inv(st) && st.owner.At?
    ensures Inv(OwnerDo(st, ok))
  {
    hide SessionOk, EffectOf, Lag, EffectKeeps;
    var i := st.owner.who;
    var se := st.sessions[i];
    EffectOk(st.owner.pc, i, se, se.key in st.players, InMap(st, i), ok, RemovalQueued(st, i));
    EffectCount(st.owner.pc, i, se, se.key in st.players, InMap(st, i), ok, RemovalQueued(st, i));
    ApplyKeeps(st, i, OwnerEffect(st, ok));
  }

  lemma ApplyKeeps(st: State, i: Sid, e: Effect)
    requires Inv(st) && st.owner.At? && st.owner.who == i
    requires EffectKeeps(e, i, st.sessions[i], st.sessions[i].key in st.players, InMap(st, i), RemovalQueued(st, i))
    requires e.count == Lag(if e.next.Nothing? then Between else At(e.next, i)) - Lag(st.owner)
                        + (match e.change case Keep => 0 case Insert => 1 case Delete => -1)
    ensures Inv(Apply(st, i, e))
  {
    hide SessionOk, Lag, SessionsOk, Frame, Known;
    ApplyFrame(st, i, e);
    ApplyKnown(st, i, e);
    assert i in st.sessions by { ApplyWho(st); }
    SessionsFromOne(st, Apply(st, i, e), i);
    ApplyCount(st, i, e);
  }

  lemma ApplyWho(st: State)
    requires Known(st) && st.owner.At?
    ensures st.owner.who in st.sessions
  {
  }

  lemma ApplyFrame(st: State, i: Sid, e: Effect)
    requires Inv(st) && st.owner.At? && st.owner.who == i
    requires EffectKeeps(e, i, st.sessions[i], st.sessions[i].key in st.players, InMap(st, i), RemovalQueued(st, i))
    ensures Frame(st, Apply(st, i, e), i)
    ensures var st' := Apply(st, i, e);
            SessionOk(st'.sessions[i], PcOf(st', i), InMap(st', i), RemovalQueued(st', i))
  {
    hide SessionOk, SessionsOk, CountOk;
    var st' := Apply(st, i, e);
    assert InMap(st', i) == MapAfter(InMap(st, i), e.change);
  }

  lemma ApplyKnown(st: State, i: Sid, e: Effect)
    requires Inv(st) && st.owner.At? && st.owner.who == i
    requires EffectKeeps(e, i, st.sessions[i], st.sessions[i].key in st.players, InMap(st, i), RemovalQueued(st, i))
    ensures Known(Apply(st, i, e))
  {
    hide SessionOk, SessionsOk, CountOk;
  }

  lemma ApplyCount(st: State, i: Sid, e: Effect)
    requires Inv(st) && st.owner.At? && st.owner.who == i
    requires EffectKeeps(e, i, st.sessions[i], st.sessions[i].key in st.players, InMap(st, i), RemovalQueued(st, i))
    requires e.count == Lag(if e.next.Nothing? then Between else At(e.next, i)) - Lag(st.owner)
                        + (match e.change case Keep => 0 case Insert => 1 case Delete => -1)
    ensures CountOk(Apply(st, i, e))
  {
    hide SessionOk, SessionsOk, Lag, Known;
    MapSizes(st.players, e.se.key, i);
  }

  lemma MapSizes(players: map<Key, Sid>, key: Key, i: Sid)
    ensures key !in players ==> |players[key := i]| == |players| + 1
    ensures key in players ==> |players - {key}| == |players| - 1
  {
    if key in players {
      assert players.Keys == (players - {key}).Keys + {key};
    } else {
      assert players[key := i].Keys == players.Keys + {key};
    }
  }

  lemma SignalKeeps(st: State, ok: bool)
    requires Inv(st) && st.owner.Signalling?
    ensures Inv(OwnerDo(st, ok))
  {
    hide SessionOk;
    var st' := OwnerDo(st, ok);
    forall j | j in st'.sessions ensures SessionOk(st'.sessions[j], PcOf(st', j), InMap(st', j), RemovalQueued(st', j)) {
      assert InMap(st', j) == InMap(st, j);
    }
  }

  lemma StepKeeps(st: State, step: Step)
    requires Inv(st) && Enabled(st, step)
    ensures Inv(Do(st, step))
  {
    hide Inv, Pop, OwnerDo;
    if step.OwnerPop? {
      if |st.critical| > 0 { PopCriticalKeeps(st); } else { PopOrdinaryKeeps(st); }
    } else if step.OwnerStep? {
      if st.owner.Signalling? { SignalKeeps(st, step.ok); } else { OwnerKeeps(st, step.ok); }
    } else {
      NetworkKeeps(st, step);
    }
  }
}
