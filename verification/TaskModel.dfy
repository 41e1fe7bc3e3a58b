/** The plugin task scheduler as a sorted list of jobs; TaskScheduler refines it. */
module TaskModel {
  import opened Collections
  import opened PluginOwner

  const MAX_TICK: nat := 0xffff_ffff_ffff_ffff

  /** A registered task; interval 0 means one-shot. */
  datatype Job = Job(id: nat, owner: Owner, due: nat, interval: nat)

  predicate Before(a: Job, b: Job) {
    a.due < b.due || (a.due == b.due && a.id < b.id)
  }

  datatype Error = NilHandler | InvalidDelay | InvalidInterval | Closed | DeadlineOverflow

  datatype Op =
    | Schedule(owner: Option<Owner>, delay: nat, interval: nat, hasHandler: bool)
    | Cancel(id: nat)
    | Open(who: Owner)
    | Close(who: Owner)
    | SetEnabled(who: Owner, on: bool)

  datatype Event =
    | Issued(id: nat, tick: nat, delay: nat, interval: nat)
    | Popped(job: Job, tick: nat)
    | Ran(job: Job, tick: nat)
    | Cancelled(id: nat)

  /** What other code does in one round of advance while its lock is released:
      after the pop and before the owner's enabled flag is read; from there to
      the next locked section, which is when the handler runs and where the
      handler's own calls are; and from the end of that section to the next
      round. `fails` says whether the handler reports an error. */
  datatype Window = Window(before: seq<Op>, during: seq<Op>, after: seq<Op>, fails: bool)

  const QUIET := Window([], [], [], false)

  /** `running` is the repeating task that advance has popped and not yet
      requeued, while it is still active. */
  datatype Sched = Sched(
    now: nat,
    nextID: nat,
    queue: seq<Job>,
    running: Option<Job>,
    open: set<Owner>,
    enabled: set<Owner>,
    log: seq<Event>)

  const START := Sched(0, 0, [], None, {}, {}, [])

  // ----- operations -----

  function Insert(q: seq<Job>, j: Job): seq<Job> {
    if |q| == 0 || Before(j, q[0]) then [j] + q else [q[0]] + Insert(q[1..], j)
  }

  function Remove(q: seq<Job>, id: nat): seq<Job> {
    if |q| == 0 then []
    else if q[0].id == id then Remove(q[1..], id)
    else [q[0]] + Remove(q[1..], id)
  }

  function RemoveOwner(q: seq<Job>, owner: Owner): seq<Job> {
    if |q| == 0 then []
    else if q[0].owner == owner then RemoveOwner(q[1..], owner)
    else [q[0]] + RemoveOwner(q[1..], owner)
  }

  /** Why `schedule` refuses, if it does. */
  function Refusal(s: Sched, owner: Option<Owner>, delay: nat, interval: nat, hasHandler: bool): Option<Error> {
    if !hasHandler then Some(NilHandler)
    else if delay == 0 then Some(if interval == 0 then InvalidDelay else InvalidInterval)
    else if owner.None? || owner.value !in s.open then Some(Closed)
    else if MAX_TICK - s.now < delay then Some(DeadlineOverflow)
    else None
  }

  predicate Active(s: Sched, id: nat) {
    (exists i :: 0 <= i < |s.queue| && s.queue[i].id == id) || (s.running.Some? && s.running.value.id == id)
  }

  function Issue(s: Sched, job: Job, delay: nat): Sched {
    s.(nextID := job.id,
       queue := Insert(s.queue, job),
       log := s.log + [Issued(job.id, s.now, delay, job.interval)])
  }

  function Exec(s: Sched, op: Op): Sched {
    match op
    case Schedule(owner, delay, interval, hasHandler) =>
      if Refusal(s, owner, delay, interval, hasHandler).Some? then s
      else Issue(s, Job(s.nextID + 1, owner.value, s.now + delay, interval), delay)
    case Cancel(id) =>
      if !Active(s, id) then s
      else s.(queue := Remove(s.queue, id),
              running := if s.running.Some? && s.running.value.id == id then None else s.running,
              log := s.log + [Cancelled(id)])
    case Open(who) => s.(open := s.open + {who})
    case Close(who) =>
      s.(open := s.open - {who},
         queue := RemoveOwner(s.queue, who),
         running := if s.running.Some? && s.running.value.owner == who then None else s.running)
    case SetEnabled(who, on) =>
      s.(enabled := if on then s.enabled + {who} else s.enabled - {who})
  }

  function ExecAll(s: Sched, ops: seq<Op>): Sched
    decreases |ops|
  {
    if |ops| == 0 then s else ExecAll(Exec(s, ops[0]), ops[1..])
  }

  predicate HeadDue(s: Sched) {
    |s.queue| > 0 && s.queue[0].due <= s.now
  }

  /** heap.Pop and, for a one-shot, its retirement. */
  function Pop(s: Sched): Sched
    requires HeadDue(s)
  {
    var job := s.queue[0];
    s.(queue := s.queue[1..],
       running := if job.interval == 0 then None else Some(job),
       log := s.log + [Popped(job, s.now)])
  }

  predicate Wanted(s: Sched, job: Job) {
    s.running.Some? && job.owner in s.enabled && job.owner in s.open
  }

  /** The last locked section of a round: requeue a repeating task that is still wanted. */
  function Requeue(s: Sched, job: Job): Sched {
    if Wanted(s, job) && MAX_TICK - s.now >= job.interval then
      s.(running := None, queue := Insert(s.queue, job.(due := s.now + job.interval)))
    else s.(running := None)
  }

  /** The state in which a round reads the enabled flag of the task's owner. */
  function Checked(s: Sched, w: Window): Sched
    requires HeadDue(s)
  {
    ExecAll(Pop(s), w.before)
  }

  /** Does the round run a handler, and so spend budget? */
  predicate Spends(s: Sched, w: Window)
    requires HeadDue(s)
  {
    s.queue[0].owner in Checked(s, w).enabled
  }

  /** The rest of a round whose handler is run. */
  function Handled(c: Sched, job: Job, w: Window): Sched {
    var d := ExecAll(c.(log := c.log + [Ran(job, c.now)]), w.during);
    if job.interval == 0 then d else Requeue(d, job)
  }

  /** The rest of a round whose task belongs to a disabled plugin. */
  function Skipped(c: Sched, job: Job, w: Window): Sched {
    var d := ExecAll(c, w.during);
    if job.interval == 0 then d else Exec(d, Cancel(job.id))
  }

  /** A round, up to the end of its last locked section. */
  function Settled(s: Sched, w: Window): Sched
    requires HeadDue(s)
  {
    var c := Checked(s, w);
    if Spends(s, w) then Handled(c, s.queue[0], w) else Skipped(c, s.queue[0], w)
  }

  /** One round of advance's loop. */
  function Round(s: Sched, w: Window): Sched
    requires HeadDue(s)
  {
    ExecAll(Settled(s, w), w.after)
  }

  /** The tasks named in the errors that one round adds: a failed handler, and a
      repeating task whose next deadline would overflow. */
  function RoundFailures(s: Sched, w: Window): seq<nat>
    requires HeadDue(s)
  {
    if Spends(s, w) then HandlerFailures(Checked(s, w), s.queue[0], w) else []
  }

  function HandlerFailures(c: Sched, job: Job, w: Window): seq<nat> {
    var d := ExecAll(c.(log := c.log + [Ran(job, c.now)]), w.during);
    (if w.fails then [job.id] else []) +
    (if job.interval > 0 && Wanted(d, job) && MAX_TICK - d.now < job.interval then [job.id] else [])
  }

  function DueCount(q: seq<Job>, now: nat): nat {
    if |q| == 0 then 0 else (if q[0].due <= now then 1 else 0) + DueCount(q[1..], now)
  }

  function First(ws: seq<Window>): Window {
    if |ws| == 0 then QUIET else ws[0]
  }

  function Rest(ws: seq<Window>): seq<Window> {
    if |ws| == 0 then [] else ws[1..]
  }

  /** The loop of advance. It ends whatever the windows do: no operation adds a
      task that is already due. */
  function Loop(s: Sched, budget: nat, ws: seq<Window>): Sched
    decreases DueCount(s.queue, s.now)
  {
    if budget == 0 || !HeadDue(s) then s
    else
      RoundProgress(s, First(ws));
      Loop(Round(s, First(ws)), if Spends(s, First(ws)) then budget - 1 else budget, Rest(ws))
  }

  /** advance; `lead` is what happens between its first locked section and its loop. */
  function Advance(s: Sched, limit: int, lead: seq<Op>, ws: seq<Window>): Sched {
    var t := s.(now := s.now + 1);
    if limit <= 0 then t else Loop(ExecAll(t, lead), limit, ws)
  }

  function Failures(s: Sched, budget: nat, ws: seq<Window>): seq<nat>
    decreases DueCount(s.queue, s.now)
  {
    if budget == 0 || !HeadDue(s) then []
    else
      RoundProgress(s, First(ws));
      RoundFailures(s, First(ws)) +
      Failures(Round(s, First(ws)), if Spends(s, First(ws)) then budget - 1 else budget, Rest(ws))
  }

  // ----- termination: a round takes one due task and adds none -----

  lemma {:induction false} InsertDueCount(q: seq<Job>, j: Job, now: nat)
    requires j.due > now
    ensures DueCount(Insert(q, j), now) == DueCount(q, now)
  {
    if |q| == 0 || Before(j, q[0]) {
      assert ([j] + q)[1..] == q;
    } else {
      assert ([q[0]] + Insert(q[1..], j))[1..] == Insert(q[1..], j);
      InsertDueCount(q[1..], j, now);
    }
  }

  lemma {:induction false} RemoveDueCount(q: seq<Job>, id: nat, now: nat)
    ensures DueCount(Remove(q, id), now) <= DueCount(q, now)
  {
    if |q| > 0 {
      assert ([q[0]] + Remove(q[1..], id))[1..] == Remove(q[1..], id);
      RemoveDueCount(q[1..], id, now);
    }
  }

  lemma {:induction false} RemoveOwnerDueCount(q: seq<Job>, owner: Owner, now: nat)
    ensures DueCount(RemoveOwner(q, owner), now) <= DueCount(q, now)
  {
    if |q| > 0 {
      assert ([q[0]] + RemoveOwner(q[1..], owner))[1..] == RemoveOwner(q[1..], owner);
      RemoveOwnerDueCount(q[1..], owner, now);
    }
  }

  lemma ExecDueCount(s: Sched, op: Op)
    ensures Exec(s, op).now == s.now
    ensures DueCount(Exec(s, op).queue, s.now) <= DueCount(s.queue, s.now)
  {
    match op
    case Schedule(owner, delay, interval, hasHandler) =>
      if Refusal(s, owner, delay, interval, hasHandler).None? {
        InsertDueCount(s.queue, Job(s.nextID + 1, owner.value, s.now + delay, interval), s.now);
      }
    case Cancel(id) => RemoveDueCount(s.queue, id, s.now);
    case Close(who) => RemoveOwnerDueCount(s.queue, who, s.now);
    case _ =>
  }

  lemma {:induction false} ExecAllDueCount(s: Sched, ops: seq<Op>)
    ensures ExecAll(s, ops).now == s.now
    ensures DueCount(ExecAll(s, ops).queue, s.now) <= DueCount(s.queue, s.now)
    decreases |ops|
  {
    if |ops| > 0 {
      ExecDueCount(s, ops[0]);
      ExecAllDueCount(Exec(s, ops[0]), ops[1..]);
    }
  }

  lemma RoundProgress(s: Sched, w: Window)
    requires HeadDue(s)
    ensures Round(s, w).now == s.now
    ensures DueCount(Round(s, w).queue, s.now) < DueCount(s.queue, s.now)
  {
    hide Exec, ExecAll;
    var job := s.queue[0];
    ExecAllDueCount(Pop(s), w.before);
    var c := Checked(s, w);
    var r := if Spends(s, w) then c.(log := c.log + [Ran(job, c.now)]) else c;
    ExecAllDueCount(r, w.during);
    var d := ExecAll(r, w.during);
    ExecDueCount(d, Cancel(job.id));
    if job.interval > 0 {
      InsertDueCount(d.queue, job.(due := s.now + job.interval), s.now);
    }
    ExecAllDueCount(Settled(s, w), w.after);
  }
}
