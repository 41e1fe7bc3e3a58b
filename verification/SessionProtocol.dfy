/** Player sessions between the network threads and the tick owner, one atomic
    operation a step: the session states, Close, the two-class mailbox, and the
    owner's enterPlay, AddPlayer and removePlayerOwned. The tick loop is running. */
module SessionProtocol {

  type Sid = nat
  type Key = string

  /** runtimeMailboxCapacity */
  const CAPACITY: nat := 4096

  datatype Phase = Handshake | Status | Login | Config | PlayPending | Play | Closed

  /** How far the one Close that won closeOnce has come: its next operation. */
  datatype Closer =
    | NotClosing | StorePhase | CloseDone | CloseConn | LoadRegistered
    | ReloadRegistered | CheckRunning | PostRemoval | Finished

  /** What a session's read loop does next, besides reading a packet. */
  datatype Reader = Reading | PostEnterPlay | PostAction

  /** History of a session: before Play, on its way into the player map, a
      player, a player no more, or turned away by AddPlayer. */
  datatype Stage = Fresh | Entering | Present | Gone | Refused

  /** `key` is the lower-cased user name; `entered` says that the session has
      left Configuration for Play; `stage` is history. */
  datatype Session = Session(
    phase: Phase, closeOnce: bool, registered: bool, key: Key, configurationSent: bool,
    closer: Closer, reader: Reader, entered: bool, stage: Stage)

  const NEW := Session(Handshake, false, false, "", false, NotClosing, Reading, false, Fresh)

  /** The tick owner's next operation on a session. */
  datatype Pc =
    | Nothing
    // enterPlay
    | EnterLoadPhase | EnterLoadClose | EnterCas | EnterSend | EnterCheckPhase | EnterCheckClose
    // AddPlayer
    | AddLoadPhase | AddLoadClose | AddRegister | AddStore | DupUnregister | DupClose
    | ConfirmPhase | ConfirmClose | UndoDelete | UndoUnregister | AddCount | AddJoin
    // removePlayerOwned
    | RemoveSwap | RemoveDelete | RemoveCount | RemoveQuit
    // an ordinary player event
    | ActLoadPhase | ActLoadRegistered | ActMutate

  datatype Owner = Between | At(pc: Pc, who: Sid) | Signalling(barrier: nat)

  datatype Critical = Remove(sid: Sid) | Barrier(id: nat)
  datatype Ordinary = EnterPlay(sid: Sid) | Action(sid: Sid)

  datatype Event = Joined(sid: Sid) | Quit(sid: Sid) | Removed(sid: Sid) | TurnedAway(sid: Sid) | Mutated(sid: Sid)

  /** `posted` and `handled` are the history of the critical class: what was ever
      queued in it, and what the owner has finished with. */
  datatype State = State(
    sessions: map<Sid, Session>, players: map<Key, Sid>, online: int,
    critical: seq<Critical>, ordinary: seq<Ordinary>, owner: Owner,
    log: seq<Event>, posted: seq<Critical>, handled: seq<Critical>)

  const START := State(map[], map[], 0, [], [], Between, [], [], [])

  datatype Step =
    | Connect(sid: Sid)
    | Greet(sid: Sid, login: bool)
    | SetName(sid: Sid, key: Key)
    | LeaveLogin(sid: Sid)
    | SendConfiguration(sid: Sid, sent: bool)
    | LeaveConfig(sid: Sid)
    | PostEnter(sid: Sid)
    | SeePlay(sid: Sid)
    | PostEvent(sid: Sid)
    | BeginClose(sid: Sid)
    | CloserStep(sid: Sid)
    | AskBarrier(id: nat)
    | OwnerPop
    | OwnerStep(ok: bool)

  // ----- one step -----

  function Set(st: State, i: Sid, se: Session): State {
    st.(sessions := st.sessions[i := se])
  }

  /** A call of Close: only the first one goes on. */
  function Closing(se: Session): Session {
    if se.closeOnce then se else se.(closeOnce := true, closer := StorePhase)
  }

  function Cas(se: Session, from: Phase, to: Phase): Session {
    if se.phase == from then se.(phase := to) else se
  }

  predicate Enabled(st: State, step: Step) {
    match step
    case Connect(i) => i !in st.sessions
    case SetName(i, _) => i in st.sessions && !st.sessions[i].entered
    case PostEnter(i) => i in st.sessions && st.sessions[i].reader.PostEnterPlay?
    case PostEvent(i) => i in st.sessions && st.sessions[i].reader.PostAction?
    case CloserStep(i) => i in st.sessions && !st.sessions[i].closer.NotClosing? && !st.sessions[i].closer.Finished?
    case SeePlay(i) => i in st.sessions && st.sessions[i].reader.Reading? && st.sessions[i].phase.Play?
    case LeaveConfig(i) => i in st.sessions && st.sessions[i].reader.Reading?
    case AskBarrier(_) => true
    case OwnerPop => st.owner.Between? && (|st.critical| > 0 || |st.ordinary| > 0)
    case OwnerStep(_) => !st.owner.Between?
    case _ => step.sid in st.sessions
  }

  function Do(st: State, step: Step): State
    requires Enabled(st, step)
    requires OwnerKnown(st)
  {
    match step
    case Connect(i) => Set(st, i, NEW)
    case OwnerPop => Pop(st)
    case OwnerStep(ok) => OwnerDo(st, ok)
    case AskBarrier(b) => st.(critical := st.critical + [Barrier(b)], posted := st.posted + [Barrier(b)])
    case CloserStep(i) => CloserDo(st, i)
    case PostEnter(i) => Post(st, i, EnterPlay(i))
    case PostEvent(i) => Post(st, i, Action(i))
    case _ => Set(st, step.sid, SessionDo(st.sessions[step.sid], step))
  }

  predicate OwnerKnown(st: State) {
    st.owner.At? ==> st.owner.who in st.sessions
  }

  /** The steps of network threads that touch one session only. */
  function SessionDo(se: Session, step: Step): Session
    requires !step.AskBarrier? && !step.OwnerPop? && !step.OwnerStep?
  {
    match step
    case Greet(_, login) => Cas(se, Handshake, if login then Login else Status)
    case SetName(_, key) => se.(key := key)
    case LeaveLogin(_) => Cas(se, Login, Config)
    case SendConfiguration(_, sent) =>
      if !se.phase.Config? then se
      else if se.configurationSent || !sent then Closing(se.(configurationSent := true))
      else se.(configurationSent := true)
    case LeaveConfig(_) =>
      if !se.phase.Config? then se
      else if !se.configurationSent then Closing(se)
      else se.(phase := PlayPending, entered := true, reader := PostEnterPlay)
    case SeePlay(_) => se.(reader := PostAction)
    case BeginClose(_) => Closing(se)
    case _ => se
  }

  /** postRuntimeEvent of an ordinary event, or Close when the mailbox is full. */
  function Post(st: State, i: Sid, e: Ordinary): State
    requires i in st.sessions
  {
    var se := st.sessions[i].(reader := Reading);
    if |st.ordinary| < CAPACITY then Set(st, i, se).(ordinary := st.ordinary + [e])
    else Set(st, i, Closing(se))
  }

  /** The next operation of Close and RemovePlayer, on the session. */
  function CloserSession(se: Session): Session {
    match se.closer
    case StorePhase => se.(phase := Closed, closer := CloseDone)
    case CloseDone => se.(closer := CloseConn)
    case CloseConn => se.(closer := LoadRegistered)
    case LoadRegistered => se.(closer := if se.registered then ReloadRegistered else Finished)
    case ReloadRegistered => se.(closer := if se.registered then CheckRunning else Finished)
    case CheckRunning => se.(closer := PostRemoval)
    case PostRemoval => se.(closer := Finished)
    case _ => se
  }

  function CloserDo(st: State, i: Sid): State
    requires i in st.sessions
  {
    var t := Set(st, i, CloserSession(st.sessions[i]));
    if st.sessions[i].closer.PostRemoval? then
      t.(critical := st.critical + [Remove(i)], posted := st.posted + [Remove(i)])
    else t
  }

  /** TryPop: critical values first. */
  function Pop(st: State): State
    requires |st.critical| > 0 || |st.ordinary| > 0
  {
    if |st.critical| > 0 then
      var e := st.critical[0];
      st.(critical := st.critical[1..],
          owner := match e case Remove(i) => At(RemoveSwap, i) case Barrier(b) => Signalling(b))
    else
      var e := st.ordinary[0];
      st.(ordinary := st.ordinary[1..],
          owner := match e case EnterPlay(i) => At(EnterLoadPhase, i) case Action(i) => At(ActLoadPhase, i))
  }

  predicate IsRemoving(pc: Pc) {
    pc.RemoveSwap? || pc.RemoveDelete? || pc.RemoveCount? || pc.RemoveQuit?
  }

  /** The critical event that the owner is working on. */
  function InHand(owner: Owner): seq<Critical> {
    match owner
    case Between => []
    case Signalling(b) => [Barrier(b)]
    case At(pc, i) => if IsRemoving(pc) then [Remove(i)] else []
  }

  /** sync.Map's CompareAndDelete. */
  predicate Holds(players: map<Key, Sid>, key: Key, i: Sid) {
    key in players && players[key] == i
  }

  datatype MapChange = Keep | Insert | Delete

  /** What one operation of the owner does: to the session, to the player map
      under the session's key, to the count and to the log; and its next
      operation on the session, or Nothing when it is done with the event. */
  datatype Effect = Effect(se: Session, next: Pc, change: MapChange := Keep, count: int := 0, events: seq<Event> := [])

  /** The owner's operation `pc` on session `i`. `taken` says whether the player
      map has the session's key, `mine` whether it maps it to this session, and
      `ok` whether the initial packets of a player could be queued. */
  function EffectOf(pc: Pc, i: Sid, se: Session, taken: bool, mine: bool, ok: bool): Effect {
    match pc
    case Nothing => Effect(se, Nothing)
    case EnterLoadPhase => Effect(se, if !se.phase.PlayPending? then Nothing else EnterLoadClose)
    case EnterLoadClose => Effect(se, if se.closeOnce then Nothing else EnterCas)
    case EnterCas =>
      if !se.phase.PlayPending? then Effect(se, Nothing)
      else Effect(se.(phase := Play, stage := Entering), EnterSend)
    case EnterSend => if ok then Effect(se, EnterCheckPhase) else Effect(Closing(se), Nothing)
    case EnterCheckPhase => Effect(se, if !se.phase.Play? then Nothing else EnterCheckClose)
    case EnterCheckClose => Effect(se, if se.closeOnce then Nothing else AddLoadPhase)
    case AddLoadPhase => Effect(se, if !se.phase.Play? then Nothing else AddLoadClose)
    case AddLoadClose => Effect(se, if se.closeOnce then Nothing else AddRegister)
    case AddRegister => if se.registered then Effect(se, Nothing) else Effect(se.(registered := true), AddStore)
    case AddStore =>
      if taken then Effect(se.(stage := Refused), DupUnregister, events := [TurnedAway(i)])
      else Effect(se, ConfirmPhase, change := Insert)
    case DupUnregister => Effect(se.(registered := false), if mine then Nothing else DupClose)
    case DupClose => Effect(Closing(se), Nothing)
    case ConfirmPhase => Effect(se, if !se.phase.Play? then UndoDelete else ConfirmClose)
    case ConfirmClose => Effect(se, if se.closeOnce then UndoDelete else AddCount)
    case UndoDelete =>
      Effect(se.(stage := Refused), UndoUnregister, change := if mine then Delete else Keep, events := [TurnedAway(i)])
    case UndoUnregister => Effect(se.(registered := false), Nothing)
    case AddCount => Effect(se, AddJoin, count := 1)
    case AddJoin => Effect(se.(stage := Present), Nothing, events := [Joined(i)])
    case RemoveSwap => if !se.registered then Effect(se, Nothing) else Effect(se.(registered := false), RemoveDelete)
    case RemoveDelete =>
      if !mine then Effect(se, Nothing)
      else Effect(se.(stage := Gone), RemoveCount, change := Delete, events := [Removed(i)])
    case RemoveCount => Effect(se, RemoveQuit, count := -1)
    case RemoveQuit => Effect(se, Nothing, events := [Quit(i)])
    case ActLoadPhase => Effect(se, if !se.phase.Play? then Nothing else ActLoadRegistered)
    case ActLoadRegistered => Effect(se, if !se.registered then Nothing else ActMutate)
    case ActMutate => Effect(se, Nothing, events := [Mutated(i)])
  }

  function Apply(st: State, i: Sid, e: Effect): State {
    st.(sessions := st.sessions[i := e.se],
        players := match e.change
                   case Keep => st.players
                   case Insert => st.players[e.se.key := i]
                   case Delete => st.players - {e.se.key},
        online := st.online + e.count,
        log := st.log + e.events,
        owner := if e.next.Nothing? then Between else At(e.next, i),
        handled := if e.next.Nothing? then st.handled + InHand(st.owner) else st.handled)
  }

  /** The effect of the owner's next operation. */
  function OwnerEffect(st: State, ok: bool): Effect
    requires st.owner.At? && OwnerKnown(st)
  {
    var i := st.owner.who;
    var se := st.sessions[i];
    EffectOf(st.owner.pc, i, se, se.key in st.players, Holds(st.players, se.key, i), ok)
  }

  function OwnerDo(st: State, ok: bool): State
    requires !st.owner.Between? && OwnerKnown(st)
  {
    if st.owner.Signalling? then st.(owner := Between, handled := st.handled + InHand(st.owner))
    else Apply(st, st.owner.who, OwnerEffect(st, ok))
  }

  function Run(st: State, steps: seq<Step>): State
    requires Runs(st, steps)
    decreases |steps|
  {
    if |steps| == 0 then st else Run(Do(st, steps[0]), steps[1..])
  }

  /** Every step of the sequence is enabled when its turn comes. */
  predicate Runs(st: State, steps: seq<Step>)
    decreases |steps|
  {
    |steps| == 0 || (OwnerKnown(st) && Enabled(st, steps[0]) && Runs(Do(st, steps[0]), steps[1..]))
  }
}
