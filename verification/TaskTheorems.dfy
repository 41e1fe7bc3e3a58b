/** The laws of the scheduler. */
module TaskTheorems {
  // What its operations keep, and what holds over whole runs of it, whatever
  // handlers and other threads do while its lock is released.
  import opened Collections
  import opened PluginOwner
  import opened Rounds
  import opened TaskModel

  // ----- lists of jobs -----

  ghost predicate Sorted(q: seq<Job>) {
    forall i, j | 0 <= i < j < |q| :: Before(q[i], q[j])
  }

  ghost predicate OneIdEach(q: seq<Job>) {
    forall a, b | a in q && b in q && a.id == b.id :: a == b
  }

  lemma {:induction false} InsertMembers(q: seq<Job>, j: Job)
    ensures forall x :: x in Insert(q, j) <==> x in q || x == j
  {
    if |q| > 0 && !Before(j, q[0]) {
      InsertMembers(q[1..], j);
      assert q == [q[0]] + q[1..];
    }
  }

  lemma {:induction false} InsertSorted(q: seq<Job>, j: Job)
    requires Sorted(q) && forall x | x in q :: x.id != j.id
    ensures Sorted(Insert(q, j))
  {
    if |q| > 0 && !Before(j, q[0]) {
      HeadFirst(q);
      InsertSorted(q[1..], j);
      InsertMembers(q[1..], j);
      var t := Insert(q[1..], j);
      forall i | 0 <= i < |t| ensures Before(q[0], t[i]) {
        assert t[i] in t;
      }
    }
  }

  lemma HeadFirst(q: seq<Job>)
    requires Sorted(q) && |q| > 0
    ensures forall x | x in q[1..] :: x in q && Before(q[0], x)
  {
    forall x | x in q[1..] ensures x in q && Before(q[0], x) {
      var i :| 0 <= i < |q| - 1 && q[1..][i] == x;
      assert x == q[i + 1];
    }
  }

  lemma {:induction false} RemoveMembers(q: seq<Job>, id: nat)
    ensures forall x :: x in Remove(q, id) <==> x in q && x.id != id
    ensures Sorted(q) ==> Sorted(Remove(q, id))
  {
    if |q| > 0 {
      RemoveMembers(q[1..], id);
      assert q == [q[0]] + q[1..];
      if Sorted(q) { HeadFirst(q); }
      var t := Remove(q[1..], id);
      assert forall i | 0 <= i < |t| :: t[i] in t;
    }
  }

  lemma {:induction false} RemoveOwnerMembers(q: seq<Job>, owner: Owner)
    ensures forall x :: x in RemoveOwner(q, owner) <==> x in q && x.owner != owner
    ensures Sorted(q) ==> Sorted(RemoveOwner(q, owner))
  {
    if |q| > 0 {
      RemoveOwnerMembers(q[1..], owner);
      assert q == [q[0]] + q[1..];
      if Sorted(q) { HeadFirst(q); }
      var t := RemoveOwner(q[1..], owner);
      assert forall i | 0 <= i < |t| :: t[i] in t;
    }
  }

  // ----- the invariant -----

  ghost predicate JobOk(s: Sched, j: Job) {
    1 <= j.id <= s.nextID && j.due <= MAX_TICK && j.owner in s.open
  }

  /** The list is sorted, ids are unique and were issued, deadlines do not wrap,
      nothing belongs to a closed owner, and the task being run is repeating
      and not queued. */
  ghost predicate Inv(s: Sched) {
    && Sorted(s.queue) && OneIdEach(s.queue)
    && (forall j | j in s.queue :: JobOk(s, j))
    && (s.running.Some? ==>
          && JobOk(s, s.running.value) && s.running.value.interval > 0
          && s.running.value.due <= s.now
          && forall j | j in s.queue :: j.id != s.running.value.id)
  }

  lemma IssueKeepsInv(s: Sched, job: Job, delay: nat)
    requires Inv(s) && job.id == s.nextID + 1 && job.due <= MAX_TICK && job.owner in s.open
    ensures Inv(Issue(s, job, delay))
  {
    InsertMembers(s.queue, job);
    InsertSorted(s.queue, job);
  }

  lemma CancelKeepsInv(s: Sched, id: nat)
    requires Inv(s)
    ensures Inv(Exec(s, Cancel(id)))
  {
    hide Active, Sorted;
    RemoveMembers(s.queue, id);
  }

  lemma CloseKeepsInv(s: Sched, who: Owner)
    requires Inv(s)
    ensures Inv(Exec(s, Close(who)))
  {
    hide Sorted;
    RemoveOwnerMembers(s.queue, who);
  }

  lemma ExecKeepsInv(s: Sched, op: Op)
    requires Inv(s)
    ensures Inv(Exec(s, op))
  {
    hide Issue, Sorted, OneIdEach, Active;
    match op
    case Schedule(owner, delay, interval, hasHandler) =>
      if Refusal(s, owner, delay, interval, hasHandler).None? {
        IssueKeepsInv(s, Job(s.nextID + 1, owner.value, s.now + delay, interval), delay);
      }
    case Cancel(id) => CancelKeepsInv(s, id);
    case Close(who) => CloseKeepsInv(s, who);
    case _ =>
  }

  lemma {:induction false} ExecAllKeepsInv(s: Sched, ops: seq<Op>)
    requires Inv(s)
    ensures Inv(ExecAll(s, ops))
    decreases |ops|
  {
    if |ops| > 0 {
      ExecKeepsInv(s, ops[0]);
      ExecAllKeepsInv(Exec(s, ops[0]), ops[1..]);
    }
  }

  lemma PopKeepsInv(s: Sched)
    requires Inv(s) && HeadDue(s) && s.running.None?
    ensures Inv(Pop(s))
    ensures forall j | j in s.queue[1..] :: j in s.queue && Before(s.queue[0], j) && j.id != s.queue[0].id
  {
    HeadFirst(s.queue);
    assert s.queue[0] in s.queue;
  }

  /** While a round is under way: the task it popped is running, or it has
      been cancelled or is a one-shot and nothing is running. */
  ghost predicate Mid(s: Sched, job: Job) {
    Inv(s) && (s.running.Some? ==> s.running.value == job && job.interval > 0)
  }

  lemma {:induction false} ExecAllKeepsMid(s: Sched, ops: seq<Op>, job: Job)
    requires Mid(s, job)
    ensures Mid(ExecAll(s, ops), job)
    decreases |ops|
  {
    if |ops| > 0 {
      ExecKeepsInv(s, ops[0]);
      ExecAllKeepsMid(Exec(s, ops[0]), ops[1..], job);
    }
  }

  lemma RequeueKeepsInv(s: Sched, job: Job)
    requires Mid(s, job) && job.interval > 0
    ensures Inv(Requeue(s, job)) && Requeue(s, job).running.None?
  {
    var next := job.(due := s.now + job.interval);
    if s.running.Some? {
      InsertMembers(s.queue, next);
      InsertSorted(s.queue, next);
    }
  }

  /** The states a round goes through. */
  lemma RoundStages(s: Sched, w: Window)
    requires Inv(s) && HeadDue(s) && s.running.None?
    ensures var job := s.queue[0];
            && Mid(Pop(s), job) && Mid(Checked(s, w), job)
            && Inv(Settled(s, w)) && Settled(s, w).running.None?
            && Inv(Round(s, w)) && Round(s, w).running.None?
  {
    hide Exec, ExecAll, Requeue;
    var job := s.queue[0];
    PopKeepsInv(s);
    ExecAllKeepsMid(Pop(s), w.before, job);
    var c := Checked(s, w);
    var r := if Spends(s, w) then c.(log := c.log + [Ran(job, c.now)]) else c;
    ExecAllKeepsMid(r, w.during, job);
    var d := ExecAll(r, w.during);
    if job.interval > 0 {
      if Spends(s, w) {
        RequeueKeepsInv(d, job);
      } else {
        CancelStops(d, job);
      }
    }
    ExecAllIdle(Settled(s, w), w.after);
  }

  lemma CancelStops(s: Sched, job: Job)
    requires Mid(s, job)
    ensures Inv(Exec(s, Cancel(job.id))) && Exec(s, Cancel(job.id)).running.None?
  {
    ExecKeepsInv(s, Cancel(job.id));
  }

  lemma {:induction false} ExecAllIdle(s: Sched, ops: seq<Op>)
    requires Inv(s) && s.running.None?
    ensures Inv(ExecAll(s, ops)) && ExecAll(s, ops).running.None?
    decreases |ops|
  {
    if |ops| > 0 {
      ExecKeepsInv(s, ops[0]);
      ExecAllIdle(Exec(s, ops[0]), ops[1..]);
    }
  }

  lemma {:induction false} LoopKeepsInv(s: Sched, budget: nat, ws: seq<Window>)
    requires Inv(s) && s.running.None?
    ensures Inv(Loop(s, budget, ws)) && Loop(s, budget, ws).running.None?
    decreases DueCount(s.queue, s.now)
  {
    if budget > 0 && HeadDue(s) {
      RoundStages(s, First(ws));
      RoundProgress(s, First(ws));
      LoopKeepsInv(Round(s, First(ws)), if Spends(s, First(ws)) then budget - 1 else budget, Rest(ws));
    }
  }

  lemma AdvanceKeepsInv(s: Sched, limit: int, lead: seq<Op>, ws: seq<Window>)
    requires Inv(s) && s.running.None?
    ensures Inv(Advance(s, limit, lead, ws)) && Advance(s, limit, lead, ws).running.None?
  {
    var t := s.(now := s.now + 1);
    if limit > 0 {
      ExecAllIdle(t, lead);
      LoopKeepsInv(ExecAll(t, lead), limit, ws);
    }
  }

  // ----- what advance executes, and in which order -----

  /** The tasks that the loop pops. */
  ghost function PopTrace(s: Sched, budget: nat, ws: seq<Window>): seq<Job>
    decreases DueCount(s.queue, s.now)
  {
    if budget == 0 || !HeadDue(s) then []
    else
      RoundProgress(s, First(ws));
      [s.queue[0]] + PopTrace(Round(s, First(ws)), if Spends(s, First(ws)) then budget - 1 else budget, Rest(ws))
  }

  /** The tasks whose handlers the loop runs. */
  ghost function RunTrace(s: Sched, budget: nat, ws: seq<Window>): seq<Job>
    decreases DueCount(s.queue, s.now)
  {
    if budget == 0 || !HeadDue(s) then []
    else
      RoundProgress(s, First(ws));
      (if Spends(s, First(ws)) then [s.queue[0]] else []) +
      RunTrace(Round(s, First(ws)), if Spends(s, First(ws)) then budget - 1 else budget, Rest(ws))
  }

  /** Due tasks only come from the list as it was: nothing due is added. */
  ghost predicate NoNewDue(q: seq<Job>, q': seq<Job>, now: nat) {
    forall j | j in q' && j.due <= now :: j in q
  }

  lemma ExecNoNewDue(s: Sched, op: Op)
    ensures NoNewDue(s.queue, Exec(s, op).queue, s.now)
  {
    match op
    case Schedule(owner, delay, interval, hasHandler) =>
      if Refusal(s, owner, delay, interval, hasHandler).None? {
        InsertMembers(s.queue, Job(s.nextID + 1, owner.value, s.now + delay, interval));
      }
    case Cancel(id) => RemoveMembers(s.queue, id);
    case Close(who) => RemoveOwnerMembers(s.queue, who);
    case _ =>
  }

  lemma {:induction false} ExecAllNoNewDue(s: Sched, ops: seq<Op>)
    ensures ExecAll(s, ops).now == s.now
    ensures NoNewDue(s.queue, ExecAll(s, ops).queue, s.now)
    decreases |ops|
  {
    if |ops| > 0 {
      ExecDueCount(s, ops[0]);
      ExecNoNewDue(s, ops[0]);
      ExecAllNoNewDue(Exec(s, ops[0]), ops[1..]);
    }
  }

  lemma RoundNoNewDue(s: Sched, w: Window)
    requires HeadDue(s)
    ensures Round(s, w).now == s.now
    ensures NoNewDue(s.queue[1..], Round(s, w).queue, s.now)
  {
    hide Exec, ExecAll;
    var job := s.queue[0];
    ExecAllNoNewDue(Pop(s), w.before);
    var c := Checked(s, w);
    var r := if Spends(s, w) then c.(log := c.log + [Ran(job, c.now)]) else c;
    ExecAllNoNewDue(r, w.during);
    var d := ExecAll(r, w.during);
    ExecDueCount(d, Cancel(job.id));
    ExecNoNewDue(d, Cancel(job.id));
    if job.interval > 0 {
      InsertMembers(d.queue, job.(due := s.now + job.interval));
    }
    ExecAllNoNewDue(Settled(s, w), w.after);
  }

  ghost predicate InOrder(js: seq<Job>) {
    forall i, j | 0 <= i < j < |js| :: Before(js[i], js[j]) && js[i].id != js[j].id
  }

  /** advance takes due tasks in strictly increasing (due, id), no task twice. */
  lemma {:induction false} PopsInOrder(s: Sched, budget: nat, ws: seq<Window>)
    requires Inv(s) && s.running.None?
    ensures InOrder(PopTrace(s, budget, ws))
    ensures forall j | j in PopTrace(s, budget, ws) :: j in s.queue && j.due <= s.now
    decreases DueCount(s.queue, s.now)
  {
    hide Round, Spends, Inv, InOrder;
    if budget > 0 && HeadDue(s) {
      var w := First(ws);
      RoundStages(s, w);
      RoundProgress(s, w);
      RoundNoNewDue(s, w);
      PopKeepsInv(s);
      var b := if Spends(s, w) then budget - 1 else budget;
      PopsInOrder(Round(s, w), b, Rest(ws));
      InOrderAfter(s.queue[0], PopTrace(Round(s, w), b, Rest(ws)));
    } else {
      NothingInOrder();
    }
  }

  lemma InOrderAfter(j: Job, js: seq<Job>)
    requires InOrder(js) && forall x | x in js :: Before(j, x) && x.id != j.id
    ensures InOrder([j] + js)
  {
    assert forall i | 0 <= i < |js| :: js[i] in js;
  }

  lemma NothingInOrder()
    ensures InOrder([])
  {
  }

  ghost predicate Subsequence(a: seq<Job>, b: seq<Job>)
  {
    if |b| == 0 then |a| == 0
    else (|a| > 0 && a[0] == b[0] && Subsequence(a[1..], b[1..])) || Subsequence(a, b[1..])
  }

  /** The handlers run are among the tasks popped, in the same order; at most
      `budget` of them are run, and if fewer are then no queued task is due:
      tasks of disabled plugins are dropped without spending budget. */
  lemma {:induction false} RunsWithinBudget(s: Sched, budget: nat, ws: seq<Window>)
    ensures Subsequence(RunTrace(s, budget, ws), PopTrace(s, budget, ws))
    ensures |RunTrace(s, budget, ws)| <= budget
    ensures |RunTrace(s, budget, ws)| < budget ==> !HeadDue(Loop(s, budget, ws))
    decreases DueCount(s.queue, s.now)
  {
    hide Round, Spends;
    if budget > 0 && HeadDue(s) {
      var w := First(ws);
      RoundProgress(s, w);
      RunsWithinBudget(Round(s, w), if Spends(s, w) then budget - 1 else budget, Rest(ws));
      var p := PopTrace(s, budget, ws);
      assert p[1..] == PopTrace(Round(s, w), if Spends(s, w) then budget - 1 else budget, Rest(ws));
      if Spends(s, w) {
        var r := RunTrace(s, budget, ws);
        assert r[1..] == RunTrace(Round(s, w), budget - 1, Rest(ws));
      } else {
        assert RunTrace(s, budget, ws) == RunTrace(Round(s, w), budget, Rest(ws));
      }
    }
  }

  /** The events of the log that say a handler was run. */
  ghost function Runs(log: seq<Event>): seq<Job> {
    if |log| == 0 then []
    else
      var last := log[|log| - 1];
      Runs(log[..|log| - 1]) + (if last.Ran? then [last.job] else [])
  }

  lemma ExecRunsNothing(s: Sched, op: Op)
    ensures Runs(Exec(s, op).log) == Runs(s.log)
  {
    var t := Exec(s, op);
    assert |t.log| > |s.log| ==> t.log[..|t.log| - 1] == s.log;
  }

  lemma {:induction false} ExecAllRunsNothing(s: Sched, ops: seq<Op>)
    ensures Runs(ExecAll(s, ops).log) == Runs(s.log)
    decreases |ops|
  {
    if |ops| > 0 {
      ExecRunsNothing(s, ops[0]);
      ExecAllRunsNothing(Exec(s, ops[0]), ops[1..]);
    }
  }

  /** RunTrace is what the log records. */
  lemma {:induction false} LoopLogsRuns(s: Sched, budget: nat, ws: seq<Window>)
    ensures Runs(Loop(s, budget, ws).log) == Runs(s.log) + RunTrace(s, budget, ws)
    decreases DueCount(s.queue, s.now)
  {
    if budget > 0 && HeadDue(s) {
      var w := First(ws);
      RoundProgress(s, w);
      RoundLogsRun(s, w);
      LoopLogsRuns(Round(s, w), if Spends(s, w) then budget - 1 else budget, Rest(ws));
    }
  }

  lemma RunsOfAppend(log: seq<Event>, e: Event)
    ensures Runs(log + [e]) == Runs(log) + if e.Ran? then [e.job] else []
  {
    assert (log + [e])[..|log|] == log;
  }

  lemma RoundLogsRun(s: Sched, w: Window)
    requires HeadDue(s)
    ensures Runs(Round(s, w).log) == Runs(s.log) + if Spends(s, w) then [s.queue[0]] else []
  {
    hide ExecAll, Exec, Runs;
    var job := s.queue[0];
    RunsOfAppend(s.log, Popped(job, s.now));
    ExecAllRunsNothing(Pop(s), w.before);
    var c := Checked(s, w);
    RunsOfAppend(c.log, Ran(job, c.now));
    var r := if Spends(s, w) then c.(log := c.log + [Ran(job, c.now)]) else c;
    ExecAllRunsNothing(r, w.during);
    var d := ExecAll(r, w.during);
    ExecRunsNothing(d, Cancel(job.id));
    ExecAllRunsNothing(Settled(s, w), w.after);
  }

  // ----- whole runs -----

  datatype Step = Do(op: Op) | Tick(limit: int, lead: seq<Op>, ws: seq<Window>)

  function Take(s: Sched, step: Step): Sched {
    match step
    case Do(op) => Exec(s, op)
    case Tick(limit, lead, ws) => Advance(s, limit, lead, ws)
  }

  function Run(s: Sched, steps: seq<Step>): Sched
    decreases |steps|
  {
    if |steps| == 0 then s else Run(Take(s, steps[0]), steps[1..])
  }

  lemma TakeKeepsInv(s: Sched, step: Step)
    requires Inv(s) && s.running.None?
    ensures Inv(Take(s, step)) && Take(s, step).running.None?
  {
    match step
    case Do(op) => ExecKeepsInv(s, op);
    case Tick(limit, lead, ws) => AdvanceKeepsInv(s, limit, lead, ws);
  }

  // ----- no starvation -----

  /** How many queued tasks come before `j`. */
  function Ahead(q: seq<Job>, j: Job): nat {
    if |q| == 0 then 0 else (if Before(q[0], j) then 1 else 0) + Ahead(q[1..], j)
  }

  /** Seen from an overdue task `j`: nothing new is ahead of it, and it is not
      put back once it is gone. */
  ghost predicate Nearer(q: seq<Job>, q': seq<Job>, j: Job) {
    Ahead(q', j) <= Ahead(q, j) && (j in q' ==> j in q)
  }

  lemma {:induction false} InsertAhead(q: seq<Job>, k: Job, j: Job)
    requires k.due > j.due
    ensures Ahead(Insert(q, k), j) == Ahead(q, j)
  {
    if |q| == 0 || Before(k, q[0]) {
      assert ([k] + q)[1..] == q;
    } else {
      assert ([q[0]] + Insert(q[1..], k))[1..] == Insert(q[1..], k);
      InsertAhead(q[1..], k, j);
    }
  }

  lemma {:induction false} RemoveAhead(q: seq<Job>, id: nat, j: Job)
    ensures Ahead(Remove(q, id), j) <= Ahead(q, j)
  {
    if |q| > 0 {
      assert ([q[0]] + Remove(q[1..], id))[1..] == Remove(q[1..], id);
      RemoveAhead(q[1..], id, j);
    }
  }

  lemma {:induction false} RemoveOwnerAhead(q: seq<Job>, owner: Owner, j: Job)
    ensures Ahead(RemoveOwner(q, owner), j) <= Ahead(q, j)
  {
    if |q| > 0 {
      assert ([q[0]] + RemoveOwner(q[1..], owner))[1..] == RemoveOwner(q[1..], owner);
      RemoveOwnerAhead(q[1..], owner, j);
    }
  }

  lemma ExecNearer(s: Sched, op: Op, j: Job)
    requires j.due <= s.now
    ensures Exec(s, op).now == s.now && Nearer(s.queue, Exec(s, op).queue, j)
  {
    ExecDueCount(s, op);
    ExecNoNewDue(s, op);
    match op
    case Schedule(owner, delay, interval, hasHandler) =>
      if Refusal(s, owner, delay, interval, hasHandler).None? {
        InsertAhead(s.queue, Job(s.nextID + 1, owner.value, s.now + delay, interval), j);
      }
    case Cancel(id) => RemoveAhead(s.queue, id, j);
    case Close(who) => RemoveOwnerAhead(s.queue, who, j);
    case _ =>
  }

  lemma {:induction false} ExecAllNearer(s: Sched, ops: seq<Op>, j: Job)
    requires j.due <= s.now
    ensures ExecAll(s, ops).now == s.now && Nearer(s.queue, ExecAll(s, ops).queue, j)
    decreases |ops|
  {
    if |ops| > 0 {
      ExecNearer(s, ops[0], j);
      ExecAllNearer(Exec(s, ops[0]), ops[1..], j);
    }
  }

  lemma RoundNearer(s: Sched, w: Window, j: Job)
    requires HeadDue(s) && j.due <= s.now
    ensures Nearer(s.queue[1..], Round(s, w).queue, j)
  {
    hide Exec, ExecAll;
    RoundNoNewDue(s, w);
    var job := s.queue[0];
    ExecAllNearer(Pop(s), w.before, j);
    var c := Checked(s, w);
    var r := if Spends(s, w) then c.(log := c.log + [Ran(job, c.now)]) else c;
    ExecAllNearer(r, w.during, j);
    var d := ExecAll(r, w.during);
    ExecNearer(d, Cancel(job.id), j);
    if job.interval > 0 {
      InsertAhead(d.queue, job.(due := s.now + job.interval), j);
    }
    ExecAllNearer(Settled(s, w), w.after, j);
  }

  /** A loop with a budget that leaves `j` queued has taken at least that many
      tasks from ahead of it. */
  lemma {:induction false} LoopNearer(s: Sched, budget: nat, ws: seq<Window>, j: Job)
    requires Inv(s) && s.running.None? && j.due <= s.now
    ensures Loop(s, budget, ws).now == s.now
    ensures Nearer(s.queue, Loop(s, budget, ws).queue, j)
    ensures j in Loop(s, budget, ws).queue ==> Ahead(Loop(s, budget, ws).queue, j) + budget <= Ahead(s.queue, j)
    decreases DueCount(s.queue, s.now)
  {
    hide Round, Spends, Ahead;
    if budget > 0 && HeadDue(s) {
      var w := First(ws);
      RoundStages(s, w);
      RoundProgress(s, w);
      RoundNearer(s, w, j);
      AheadOfRest(s, j);
      LoopNearer(Round(s, w), if Spends(s, w) then budget - 1 else budget, Rest(ws), j);
    } else if !HeadDue(s) {
      NothingDue(s);
    }
  }

  lemma NothingDue(s: Sched)
    requires Sorted(s.queue) && !HeadDue(s)
    ensures forall j | j in s.queue :: j.due > s.now
  {
    if |s.queue| > 0 {
      HeadFirst(s.queue);
      assert s.queue == [s.queue[0]] + s.queue[1..];
    }
  }

  lemma AheadOfRest(s: Sched, j: Job)
    requires Inv(s) && HeadDue(s)
    ensures Ahead(s.queue[1..], j) <= Ahead(s.queue, j)
    ensures j in s.queue[1..] ==> j in s.queue && Ahead(s.queue[1..], j) + 1 == Ahead(s.queue, j)
  {
    if j in s.queue[1..] {
      var i :| 0 <= i < |s.queue| - 1 && s.queue[1..][i] == j;
      assert Before(s.queue[0], s.queue[i + 1]);
    }
  }

  lemma AdvanceNearer(s: Sched, limit: int, lead: seq<Op>, ws: seq<Window>, j: Job)
    requires Inv(s) && s.running.None? && j.due <= s.now
    ensures var t := Advance(s, limit, lead, ws);
            && t.now == s.now + 1
            && Nearer(s.queue, t.queue, j)
            && (limit > 0 && j in t.queue ==> Ahead(t.queue, j) + limit <= Ahead(s.queue, j))
  {
    hide Loop, ExecAll;
    var t := s.(now := s.now + 1);
    if limit > 0 {
      ExecAllIdle(t, lead);
      ExecAllNearer(t, lead, j);
      LoopNearer(ExecAll(t, lead), limit, ws, j);
    }
  }

  function Ticks(steps: seq<Step>): nat {
    if |steps| == 0 then 0 else (if steps[0].Tick? then 1 else 0) + Ticks(steps[1..])
  }

  ghost predicate SameLimit(steps: seq<Step>, limit: nat) {
    forall i | 0 <= i < |steps| && steps[i].Tick? :: steps[i].limit == limit
  }

  /** A step leaves an overdue task no further back; a tick brings it closer. */
  lemma TakeNearer(s: Sched, step: Step, limit: nat, j: Job)
    requires Inv(s) && s.running.None? && j.due <= s.now && limit > 0
    requires step.Tick? ==> step.limit == limit
    ensures var t := Take(s, step);
            && j.due <= t.now
            && Nearer(s.queue, t.queue, j)
            && (step.Tick? && j in t.queue ==> Ahead(t.queue, j) + limit <= Ahead(s.queue, j))
  {
    match step
    case Do(op) => ExecNearer(s, op, j);
    case Tick(n, lead, ws) => AdvanceNearer(s, n, lead, ws, j);
  }

  /** However many ticks a run has, an overdue task still queued at its end has
      seen `limit` tasks go from ahead of it in each. */
  lemma {:induction false} RunNearer(s: Sched, steps: seq<Step>, limit: nat, j: Job)
    requires Inv(s) && s.running.None? && j.due <= s.now && limit > 0
    requires SameLimit(steps, limit)
    ensures j in Run(s, steps).queue ==> j in s.queue && limit * Ticks(steps) <= Ahead(s.queue, j)
    decreases |steps|
  {
    hide Take, Ahead;
    if |steps| > 0 {
      TakeNearer(s, steps[0], limit, j);
      TakeKeepsInv(s, steps[0]);
      RunNearer(Take(s, steps[0]), steps[1..], limit, j);
      assert limit * (1 + Ticks(steps[1..])) == limit + limit * Ticks(steps[1..]);
    }
  }

  /** No starvation: a queued task that is overdue, with k tasks ahead of it, has
      been popped or removed after k / limit + 1 further advances, whatever is
      scheduled, cancelled, opened or closed in the meantime. */
  lemma {:induction false} NoStarvation(s: Sched, steps: seq<Step>, limit: nat, j: Job)
    requires Inv(s) && s.running.None?
    requires j in s.queue && j.due <= s.now
    requires limit > 0 && SameLimit(steps, limit)
    requires Ticks(steps) >= Ahead(s.queue, j) / limit + 1
    ensures j !in Run(s, steps).queue
  {
    RunNearer(s, steps, limit, j);
    EnoughTicks(Ahead(s.queue, j), limit, Ticks(steps));
  }

  // ----- fixed delay and cancellation -----

  /** What two events of a log, the second after the first, never violate:
      a task is popped no earlier than its delay after it was issued, its next
      pop is at least its interval after any pop or run of it, a one-shot is
      popped and run once, and a cancelled task is not popped again. */
  ghost predicate Spaced(x: Event, y: Event) {
    match y
    case Popped(j, t) =>
      (match x
       case Issued(id, t0, delay, interval) => id == j.id ==> interval == j.interval && t0 + delay <= t
       case Popped(j0, t0) => j0.id == j.id ==> j.interval > 0 && t0 + j.interval <= t
       case Ran(j0, t0) => j0.id == j.id ==> j.interval > 0 && t0 + j.interval <= t
       case Cancelled(id) => id != j.id)
    case Ran(j, t) =>
      (match x
       case Issued(id, t0, delay, interval) => id == j.id ==> interval == j.interval && t0 + delay <= t
       case Ran(j0, t0) => j0.id == j.id ==> j.interval > 0 && t0 + j.interval <= t
       case _ => true)
    case Issued(id, t, delay, interval) =>
      (match x
       case Issued(id0, _, _, _) => id0 != id
       case Popped(j0, _) => j0.id != id
       case Ran(j0, _) => j0.id != id
       case Cancelled(id0) => id0 != id)
    case Cancelled(_) => true
  }

  ghost predicate LogOk(log: seq<Event>) {
    forall a, b | 0 <= a < b < |log| :: Spaced(log[a], log[b])
  }

  /** May a pop of `j` at a tick no earlier than `due` be logged after `x`? */
  ghost predicate Linked(x: Event, j: Job) {
    match x
    case Issued(id, t0, delay, interval) => id == j.id ==> interval == j.interval && t0 + delay <= j.due
    case Popped(j0, t0) => j0.id == j.id ==> j.interval > 0 && t0 + j.interval <= j.due
    case Ran(j0, t0) => j0.id == j.id ==> j.interval > 0 && t0 + j.interval <= j.due
    case Cancelled(id) => id != j.id
  }

  /** The same for a task that is running: its old deadline has passed. */
  ghost predicate LinkedRunning(x: Event, j: Job) {
    match x
    case Issued(id, t0, delay, interval) => id == j.id ==> interval == j.interval && t0 + delay <= j.due
    case Cancelled(id) => id != j.id
    case _ => true
  }

  ghost predicate Known(x: Event, s: Sched) {
    match x
    case Issued(id, t, _, _) => id <= s.nextID && t <= s.now
    case Popped(j, t) => j.id <= s.nextID && t <= s.now
    case Ran(j, t) => j.id <= s.nextID && t <= s.now
    case Cancelled(id) => id <= s.nextID
  }

  ghost predicate History(s: Sched) {
    && LogOk(s.log)
    && (forall i | 0 <= i < |s.log| :: Known(s.log[i], s))
    && (forall i, j | 0 <= i < |s.log| && j in s.queue :: Linked(s.log[i], j))
    && (s.running.Some? ==> forall i | 0 <= i < |s.log| :: LinkedRunning(s.log[i], s.running.value))
  }

  /** The popped task may still be run: no event of the log forbids it. */
  ghost predicate MayRun(s: Sched, job: Job) {
    job.id <= s.nextID && forall i | 0 <= i < |s.log| :: Spaced(s.log[i], Ran(job, s.now))
  }

  lemma IssueKeepsHistory(s: Sched, job: Job, delay: nat)
    requires History(s) && job.id == s.nextID + 1 && job.due == s.now + delay
    requires forall j | j in s.queue :: j.id <= s.nextID
    requires s.running.Some? ==> s.running.value.id <= s.nextID
    ensures History(Issue(s, job, delay))
    ensures forall other | MayRun(s, other) :: MayRun(Issue(s, job, delay), other)
  {
    InsertMembers(s.queue, job);
    var e := Issued(job.id, s.now, delay, job.interval);
    assert forall i | 0 <= i < |s.log| :: Known(s.log[i], s) ==> Spaced(s.log[i], e) && Linked(s.log[i], job);
  }

  lemma CancelKeepsHistory(s: Sched, id: nat)
    requires Inv(s) && History(s)
    ensures History(Exec(s, Cancel(id)))
    ensures forall other | MayRun(s, other) :: MayRun(Exec(s, Cancel(id)), other)
  {
    RemoveMembers(s.queue, id);
    if Active(s, id) {
      ActiveIsIssued(s, id);
    }
  }

  lemma ActiveIsIssued(s: Sched, id: nat)
    requires Inv(s) && Active(s, id)
    ensures 1 <= id <= s.nextID
  {
    if s.running.None? || s.running.value.id != id {
      var i :| 0 <= i < |s.queue| && s.queue[i].id == id;
      assert s.queue[i] in s.queue;
    }
  }

  lemma ExecKeepsHistory(s: Sched, op: Op)
    requires Inv(s) && History(s)
    ensures History(Exec(s, op))
    ensures forall job | MayRun(s, job) :: MayRun(Exec(s, op), job)
  {
    match op
    case Schedule(owner, delay, interval, hasHandler) =>
      if Refusal(s, owner, delay, interval, hasHandler).None? {
        IssueKeepsHistory(s, Job(s.nextID + 1, owner.value, s.now + delay, interval), delay);
      }
    case Cancel(id) => CancelKeepsHistory(s, id);
    case Close(who) => RemoveOwnerMembers(s.queue, who);
    case _ =>
  }

  lemma {:induction false} ExecAllKeepsHistory(s: Sched, ops: seq<Op>, job: Job)
    requires Mid(s, job) && History(s)
    ensures Mid(ExecAll(s, ops), job) && History(ExecAll(s, ops))
    ensures MayRun(s, job) ==> MayRun(ExecAll(s, ops), job)
    decreases |ops|
  {
    ExecAllKeepsMid(s, ops, job);
    if |ops| > 0 {
      ExecAllKeepsMid(s, [ops[0]], job);
      assert ExecAll(s, [ops[0]]) == Exec(s, ops[0]) by { assert [ops[0]][1..] == []; }
      ExecKeepsHistory(s, ops[0]);
      ExecAllKeepsHistory(Exec(s, ops[0]), ops[1..], job);
    }
  }

  lemma PopKeepsHistory(s: Sched)
    requires Inv(s) && History(s) && HeadDue(s) && s.running.None?
    ensures History(Pop(s)) && MayRun(Pop(s), s.queue[0])
  {
    PopKeepsInv(s);
    assert s.queue[0] in s.queue;
  }

  lemma RunKeepsHistory(s: Sched, job: Job)
    requires Mid(s, job) && History(s) && MayRun(s, job)
    requires forall j | j in s.queue :: j.id != job.id
    ensures Mid(s.(log := s.log + [Ran(job, s.now)]), job)
    ensures History(s.(log := s.log + [Ran(job, s.now)]))
  {
  }

  lemma RequeueKeepsHistory(s: Sched, job: Job)
    requires Mid(s, job) && History(s) && job.interval > 0
    ensures History(Requeue(s, job))
  {
    InsertMembers(s.queue, job.(due := s.now + job.interval));
  }

  /** The popped task is not in the list again before the round is over. */
  lemma {:induction false} ExecAllNotQueued(s: Sched, ops: seq<Op>, id: nat)
    requires id <= s.nextID && forall j | j in s.queue :: j.id != id
    ensures forall j | j in ExecAll(s, ops).queue :: j.id != id
    decreases |ops|
  {
    if |ops| > 0 {
      var op := ops[0];
      match op {
        case Schedule(owner, delay, interval, hasHandler) =>
          if owner.Some? { InsertMembers(s.queue, Job(s.nextID + 1, owner.value, s.now + delay, interval)); }
        case Cancel(id') => RemoveMembers(s.queue, id');
        case Close(who) => RemoveOwnerMembers(s.queue, who);
        case _ =>
      }
      ExecAllNotQueued(Exec(s, op), ops[1..], id);
    }
  }

  lemma RoundKeepsHistory(s: Sched, w: Window)
    requires Inv(s) && History(s) && HeadDue(s) && s.running.None?
    ensures History(Round(s, w))
  {
    hide Exec, ExecAll, Requeue, History, MayRun, Inv;
    var job := s.queue[0];
    RoundStages(s, w);
    PopKeepsHistory(s);
    ExecAllKeepsHistory(Pop(s), w.before, job);
    var c := Checked(s, w);
    PoppedNotQueued(s, w);
    ExecAllDueCount(Pop(s), w.before);
    if Spends(s, w) {
      RunKeepsHistory(c, job);
    }
    var r := if Spends(s, w) then c.(log := c.log + [Ran(job, c.now)]) else c;
    ExecAllKeepsHistory(r, w.during, job);
    var d := ExecAll(r, w.during);
    if job.interval > 0 {
      if Spends(s, w) {
        RequeueKeepsHistory(d, job);
      } else {
        CancelKeepsHistory(d, job.id);
      }
    }
    IdleIsMid(Settled(s, w), job);
    ExecAllKeepsHistory(Settled(s, w), w.after, job);
  }

  lemma IdleIsMid(s: Sched, job: Job)
    requires Inv(s)
    ensures s.running.None? ==> Mid(s, job)
    ensures Mid(s, job) ==> Inv(s)
  {
  }

  lemma PoppedNotQueued(s: Sched, w: Window)
    requires Inv(s) && HeadDue(s) && s.running.None?
    ensures forall j | j in Checked(s, w).queue :: j.id != s.queue[0].id
  {
    PopKeepsInv(s);
    assert s.queue[0] in s.queue;
    ExecAllNotQueued(Pop(s), w.before, s.queue[0].id);
  }

  lemma {:induction false} LoopKeepsHistory(s: Sched, budget: nat, ws: seq<Window>)
    requires Inv(s) && History(s) && s.running.None?
    ensures History(Loop(s, budget, ws))
    decreases DueCount(s.queue, s.now)
  {
    hide History, Round, Inv;
    if budget > 0 && HeadDue(s) {
      var w := First(ws);
      RoundStages(s, w);
      RoundProgress(s, w);
      RoundKeepsHistory(s, w);
      LoopKeepsHistory(Round(s, w), if Spends(s, w) then budget - 1 else budget, Rest(ws));
    }
  }

  lemma TickKeepsHistory(s: Sched)
    requires Inv(s) && History(s)
    ensures Inv(s.(now := s.now + 1)) && History(s.(now := s.now + 1))
  {
  }

  lemma TakeKeepsHistory(s: Sched, step: Step)
    requires Inv(s) && History(s) && s.running.None?
    ensures History(Take(s, step))
  {
    hide History, Exec, ExecAll, Loop;
    match step
    case Do(op) => ExecKeepsHistory(s, op);
    case Tick(limit, lead, ws) =>
      var t := s.(now := s.now + 1);
      TickKeepsHistory(s);
      if limit > 0 {
        var job := Job(0, 0, 0, 0);
        IdleIsMid(t, job);
        ExecAllKeepsHistory(t, lead, job);
        ExecAllIdle(t, lead);
        LoopKeepsHistory(ExecAll(t, lead), limit, ws);
      }
  }

  lemma {:induction false} RunKeeps(s: Sched, steps: seq<Step>)
    requires Inv(s) && History(s) && s.running.None?
    ensures Inv(Run(s, steps)) && History(Run(s, steps)) && Run(s, steps).running.None?
    decreases |steps|
  {
    hide History, Take;
    if |steps| > 0 {
      TakeKeepsInv(s, steps[0]);
      TakeKeepsHistory(s, steps[0]);
      RunKeeps(Take(s, steps[0]), steps[1..]);
    }
  }

  // ----- every run has its own pop -----

  ghost predicate RunOf(e: Event, id: nat) {
    e.Ran? && e.job.id == id
  }

  /** The pop at `a` is the one that the run at `b` belongs to: of the same task
      at the same tick, with no other run of the task between them. */
  ghost predicate PopFor(log: seq<Event>, a: nat, b: nat) {
    && a < b < |log| && log[b].Ran? && log[a] == Popped(log[b].job, log[b].tick)
    && forall c | a < c < b :: !RunOf(log[c], log[b].job.id)
  }

  ghost predicate RunsArePopped(log: seq<Event>) {
    forall b: nat | b < |log| && log[b].Ran? :: exists a :: PopFor(log, a, b)
  }

  /** `b` is `a` and further events, none of them a pop or a run. */
  ghost predicate Extends(a: seq<Event>, b: seq<Event>) {
    a <= b && forall i | |a| <= i < |b| :: b[i].Issued? || b[i].Cancelled?
  }

  lemma {:induction false} ExecAllExtends(s: Sched, ops: seq<Op>)
    ensures Extends(s.log, ExecAll(s, ops).log)
    decreases |ops|
  {
    if |ops| > 0 {
      assert Extends(s.log, Exec(s, ops[0]).log);
      ExecAllExtends(Exec(s, ops[0]), ops[1..]);
    }
  }

  lemma ExtendsKeepsPops(a: seq<Event>, b: seq<Event>)
    requires Extends(a, b) && RunsArePopped(a)
    ensures RunsArePopped(b)
  {
    forall i: nat | i < |b| && b[i].Ran? ensures exists p :: PopFor(b, p, i) {
      var p :| PopFor(a, p, i);
      assert PopFor(b, p, i);
    }
  }

  lemma PopAlone(before: seq<Event>, job: Job, now: nat)
    requires RunsArePopped(before)
    ensures RunsArePopped(before + [Popped(job, now)])
  {
    var p := before + [Popped(job, now)];
    forall i: nat | i < |p| && p[i].Ran? ensures exists a :: PopFor(p, a, i) {
      var a :| PopFor(before, a, i);
      assert PopFor(p, a, i);
    }
  }

  /** A run that follows its pop with nothing but issues and cancellations between. */
  lemma RunAfterPop(before: seq<Event>, log: seq<Event>, job: Job, now: nat)
    requires RunsArePopped(before) && Extends(before + [Popped(job, now)], log)
    ensures RunsArePopped(log + [Ran(job, now)])
  {
    var p := before + [Popped(job, now)];
    PopAlone(before, job, now);
    ExtendsKeepsPops(p, log);
    var r := log + [Ran(job, now)];
    forall i: nat | i < |r| && r[i].Ran? ensures exists a :: PopFor(r, a, i) {
      if i < |log| {
        var a :| PopFor(log, a, i);
        assert PopFor(r, a, i);
      } else {
        assert PopFor(r, |before|, i);
      }
    }
  }

  lemma RoundKeepsPops(s: Sched, w: Window)
    requires HeadDue(s) && RunsArePopped(s.log)
    ensures RunsArePopped(Round(s, w).log)
  {
    hide Exec, ExecAll, RunsArePopped, Extends, Wanted;
    var job := s.queue[0];
    PopAlone(s.log, job, s.now);
    ExecAllExtends(Pop(s), w.before);
    ExecAllDueCount(Pop(s), w.before);
    var c := Checked(s, w);
    if Spends(s, w) {
      RunAfterPop(s.log, c.log, job, s.now);
    } else {
      ExtendsKeepsPops(Pop(s).log, c.log);
    }
    var r := if Spends(s, w) then c.(log := c.log + [Ran(job, c.now)]) else c;
    var d := ExecAll(r, w.during);
    ExecAllExtends(r, w.during);
    ExtendsKeepsPops(r.log, d.log);
    CancelKeepsPops(d, job.id);
    ExecAllExtends(Settled(s, w), w.after);
    ExtendsKeepsPops(Settled(s, w).log, Round(s, w).log);
  }

  lemma CancelKeepsPops(s: Sched, id: nat)
    requires RunsArePopped(s.log)
    ensures RunsArePopped(Exec(s, Cancel(id)).log)
  {
    hide RunsArePopped;
    ExtendsKeepsPops(s.log, Exec(s, Cancel(id)).log);
  }

  lemma {:induction false} LoopKeepsPops(s: Sched, budget: nat, ws: seq<Window>)
    requires RunsArePopped(s.log)
    ensures RunsArePopped(Loop(s, budget, ws).log)
    decreases DueCount(s.queue, s.now)
  {
    hide Round, RunsArePopped;
    if budget > 0 && HeadDue(s) {
      var w := First(ws);
      RoundProgress(s, w);
      RoundKeepsPops(s, w);
      LoopKeepsPops(Round(s, w), if Spends(s, w) then budget - 1 else budget, Rest(ws));
    }
  }

  lemma {:induction false} RunKeepsPops(s: Sched, steps: seq<Step>)
    requires RunsArePopped(s.log)
    ensures RunsArePopped(Run(s, steps).log)
    decreases |steps|
  {
    hide ExecAll, Loop, RunsArePopped;
    if |steps| > 0 {
      match steps[0] {
        case Do(op) =>
          assert Extends(s.log, Exec(s, op).log);
          ExtendsKeepsPops(s.log, Exec(s, op).log);
        case Tick(limit, lead, ws) =>
          var t := s.(now := s.now + 1);
          if limit > 0 {
            ExecAllExtends(t, lead);
            ExtendsKeepsPops(t.log, ExecAll(t, lead).log);
            LoopKeepsPops(ExecAll(t, lead), limit, ws);
          }
      }
      RunKeepsPops(Take(s, steps[0]), steps[1..]);
    }
  }

  /** What may still happen to a task after Cancel has returned true: a run that
      had been popped before, and no other. */
  ghost predicate CancelIsFinal(log: seq<Event>) {
    forall c: nat, b: nat | c < b < |log| && log[c].Cancelled? && RunOf(log[b], log[c].id) ::
      && (exists a: nat :: a < c && PopFor(log, a, b))
      && forall d: nat | c < d < |log| && d != b :: !RunOf(log[d], log[c].id)
  }

  lemma CancelAllowsOneRun(log: seq<Event>)
    requires LogOk(log) && RunsArePopped(log)
    ensures CancelIsFinal(log)
  {
  }

  /** Over every run of a new scheduler: the representation is kept; a task runs
      no earlier than its delay, repeats at least its interval apart with no
      catch-up burst, and runs once if it is one-shot; every run has a pop of its
      own at the same tick; and once Cancel has returned true the task is not
      popped again, and runs at most once more, if it had been popped before. */
  lemma WholeRuns(steps: seq<Step>)
    ensures Inv(Run(START, steps))
    ensures LogOk(Run(START, steps).log)
    ensures RunsArePopped(Run(START, steps).log)
    ensures CancelIsFinal(Run(START, steps).log)
  {
    hide LogOk, RunsArePopped, CancelIsFinal;
    NothingLogged();
    RunKeeps(START, steps);
    RunKeepsPops(START, steps);
    CancelAllowsOneRun(Run(START, steps).log);
  }

  lemma NothingLogged()
    ensures Inv(START) && History(START) && RunsArePopped(START.log)
  {
  }

  /** What is known when a round reads the enabled flag. */
  lemma AtCheck(s: Sched, w: Window)
    requires Inv(s) && HeadDue(s) && s.running.None?
    ensures CheckOk(Checked(s, w), s.queue[0])
    ensures Round(s, w).running.None?
  {
    hide Exec, ExecAll, Requeue;
    RoundStages(s, w);
    PopKeepsInv(s);
    PoppedNotQueued(s, w);
    IdsGrow(Pop(s), w.before);
    assert s.queue[0] in s.queue;
  }

  ghost predicate CheckOk(c: Sched, job: Job) {
    Mid(c, job) && job.id <= c.nextID && forall j | j in c.queue :: j.id != job.id
  }

  lemma CheckStays(c: Sched, ops: seq<Op>, job: Job)
    requires CheckOk(c, job)
    ensures CheckOk(ExecAll(c, ops), job) && ExecAll(c, ops).now == c.now
  {
    ExecAllKeepsMid(c, ops, job);
    ExecAllNotQueued(c, ops, job.id);
    ExecAllDueCount(c, ops);
    IdsGrow(c, ops);
  }

  lemma {:induction false} IdsGrow(s: Sched, ops: seq<Op>)
    ensures s.nextID <= ExecAll(s, ops).nextID
    decreases |ops|
  {
    if |ops| > 0 {
      IdsGrow(Exec(s, ops[0]), ops[1..]);
    }
  }
}
