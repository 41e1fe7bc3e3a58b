/** The two-class mailbox. */
module Mailbox {
  // Between producers and the one consumer: a bounded ordinary class and an
  // unbounded critical class that is served first.
  import opened Collections
  import opened Rounds

  datatype Class = Ordinary | Critical

  datatype Post<+T> = Post(class_: Class, value: T)

  /** The contents of a mailbox, and the history of each class: what was
      accepted and what was delivered. */
  datatype Box<+T> = Box(
    capacity: nat, values: seq<T>, critical: seq<T>,
    acceptedValues: seq<T>, acceptedCritical: seq<T>,
    deliveredValues: seq<T>, deliveredCritical: seq<T>)

  // ----- operations -----

  /** TryPost or PostCritical */
  function Put<T>(b: Box<T>, p: Post<T>): Box<T> {
    if p.class_ == Critical then
      b.(critical := b.critical + [p.value], acceptedCritical := b.acceptedCritical + [p.value])
    else if |b.values| < b.capacity then
      b.(values := b.values + [p.value], acceptedValues := b.acceptedValues + [p.value])
    else b
  }

  function PutAll<T>(b: Box<T>, ps: seq<Post<T>>): Box<T>
    decreases |ps|
  {
    if |ps| == 0 then b else PutAll(Put(b, ps[0]), ps[1..])
  }

  function TakeCritical<T>(b: Box<T>): Box<T>
    requires |b.critical| > 0
  {
    b.(critical := b.critical[1..], deliveredCritical := b.deliveredCritical + [b.critical[0]])
  }

  function TakeValue<T>(b: Box<T>): Box<T>
    requires |b.values| > 0
  {
    b.(values := b.values[1..], deliveredValues := b.deliveredValues + [b.values[0]])
  }

  /** The contents after TryPop; producers may post `mid` between its look at the
      critical class and its look at the ordinary one. */
  function AfterPop<T>(b: Box<T>, mid: seq<Post<T>>): Box<T> {
    if |b.critical| > 0 then TakeCritical(b)
    else
      var c := PutAll(b, mid);
      if |c.values| > 0 then TakeValue(c) else c
  }

  /** What TryPop returns, with its class. */
  function Popped<T>(b: Box<T>, mid: seq<Post<T>>): Option<Post<T>> {
    if |b.critical| > 0 then Some(Post(Critical, b.critical[0]))
    else
      var c := PutAll(b, mid);
      if |c.values| > 0 then Some(Post(Ordinary, c.values[0])) else None
  }

  function ValueOf<T>(p: Option<Post<T>>): Option<T> {
    if p.None? then None else Some(p.value.value)
  }

  function Values<T>(ps: seq<Post<T>>): seq<T> {
    if |ps| == 0 then [] else [ps[0].value] + Values(ps[1..])
  }

  /** The values of one class, in order. */
  function OfClass<T>(ps: seq<Post<T>>, c: Class): seq<T> {
    if |ps| == 0 then []
    else (if ps[0].class_ == c then [ps[0].value] else []) + OfClass(ps[1..], c)
  }

  /** What producers post while one round of the drain loop is under way: inside
      TryPop, and while the event is applied. */
  datatype Window<+T> = Window(mid: seq<Post<T>>, after: seq<Post<T>>)

  function First<T>(ws: seq<Window<T>>): Window<T> {
    if |ws| == 0 then Window([], []) else ws[0]
  }

  function Rest<T>(ws: seq<Window<T>>): seq<Window<T>> {
    if |ws| == 0 then [] else ws[1..]
  }

  /** The contents after drainRuntimeEvents(limit). */
  function AfterDrain<T>(b: Box<T>, limit: nat, ws: seq<Window<T>>): Box<T>
    decreases limit
  {
    if limit == 0 then b
    else
      var c := AfterPop(b, First(ws).mid);
      if Popped(b, First(ws).mid).None? then c
      else AfterDrain(AfterRound(b, First(ws)), limit - 1, Rest(ws))
  }

  /** The events that drainRuntimeEvents(limit) applies, in order, each with the
      class it was taken from. */
  function Drained<T>(b: Box<T>, limit: nat, ws: seq<Window<T>>): seq<Post<T>>
    decreases limit
  {
    if limit == 0 || Popped(b, First(ws).mid).None? then []
    else [Popped(b, First(ws).mid).value] + Drained(AfterRound(b, First(ws)), limit - 1, Rest(ws))
  }

  /** The contents after one round of the drain loop. */
  function AfterRound<T>(b: Box<T>, w: Window<T>): Box<T> {
    PutAll(AfterPop(b, w.mid), w.after)
  }

  /** The contents when the drain loop begins its i-th round. */
  function AtRound<T>(b: Box<T>, ws: seq<Window<T>>, i: nat): Box<T>
    decreases i
  {
    if i == 0 then b else AtRound(AfterRound(b, First(ws)), Rest(ws), i - 1)
  }

  // ----- conservation -----

  /** Every accepted value is delivered or still waiting, once each and in order
      within its class. */
  ghost predicate Conserved<T(!new)>(b: Box<T>) {
    && |b.values| <= b.capacity
    && b.acceptedValues == b.deliveredValues + b.values
    && b.acceptedCritical == b.deliveredCritical + b.critical
  }

  /** `c` is what becomes of `b`: histories only grow. */
  ghost predicate Later<T(!new)>(b: Box<T>, c: Box<T>) {
    && c.capacity == b.capacity
    && b.acceptedValues <= c.acceptedValues && b.acceptedCritical <= c.acceptedCritical
    && b.deliveredValues <= c.deliveredValues && b.deliveredCritical <= c.deliveredCritical
  }

  lemma PutConserves<T(!new)>(b: Box<T>, p: Post<T>)
    requires Conserved(b)
    ensures Conserved(Put(b, p)) && Later(b, Put(b, p))
    ensures Put(b, p).deliveredValues == b.deliveredValues && Put(b, p).deliveredCritical == b.deliveredCritical
  {
    assert b.deliveredValues + (b.values + [p.value]) == b.deliveredValues + b.values + [p.value];
    assert b.deliveredCritical + (b.critical + [p.value]) == b.deliveredCritical + b.critical + [p.value];
  }

  lemma {:induction false} PutAllConserves<T(!new)>(b: Box<T>, ps: seq<Post<T>>)
    requires Conserved(b)
    ensures Conserved(PutAll(b, ps)) && Later(b, PutAll(b, ps))
    ensures PutAll(b, ps).deliveredValues == b.deliveredValues && PutAll(b, ps).deliveredCritical == b.deliveredCritical
    decreases |ps|
  {
    if |ps| > 0 {
      PutConserves(b, ps[0]);
      PutAllConserves(Put(b, ps[0]), ps[1..]);
    }
  }

  lemma PopConserves<T(!new)>(b: Box<T>, mid: seq<Post<T>>)
    requires Conserved(b)
    ensures Conserved(AfterPop(b, mid)) && Later(b, AfterPop(b, mid))
  {
    PutAllConserves(b, mid);
    if |b.critical| > 0 {
      assert b.critical == [b.critical[0]] + b.critical[1..];
      assert b.deliveredCritical + b.critical == b.deliveredCritical + [b.critical[0]] + b.critical[1..];
    } else {
      var c := PutAll(b, mid);
      if |c.values| > 0 {
        assert c.deliveredValues + c.values == c.deliveredValues + [c.values[0]] + c.values[1..];
      }
    }
  }

  lemma LaterRefl<T(!new)>(b: Box<T>)
    ensures Later(b, b)
  {
  }

  lemma LaterTrans<T(!new)>(b: Box<T>, c: Box<T>, d: Box<T>)
    requires Later(b, c) && Later(c, d)
    ensures Later(b, d)
  {
  }

  /** `c` has delivered what `b` has, and `ps` after that, each to its class. */
  ghost predicate Delivers<T(!new)>(b: Box<T>, c: Box<T>, ps: seq<Post<T>>) {
    && c.deliveredCritical == b.deliveredCritical + OfClass(ps, Critical)
    && c.deliveredValues == b.deliveredValues + OfClass(ps, Ordinary)
  }

  lemma DeliversNothing<T(!new)>(b: Box<T>, c: Box<T>)
    requires c.deliveredValues == b.deliveredValues && c.deliveredCritical == b.deliveredCritical
    ensures Delivers(b, c, [])
  {
  }

  lemma DeliversMore<T(!new)>(b: Box<T>, c: Box<T>, d: Box<T>, p: Post<T>, ps: seq<Post<T>>)
    requires Delivers(b, c, [p]) && Delivers(c, d, ps)
    ensures Delivers(b, d, [p] + ps)
  {
    OneThenMore(p, ps, Critical);
    OneThenMore(p, ps, Ordinary);
  }

  lemma OneThenMore<T>(p: Post<T>, ps: seq<Post<T>>, c: Class)
    ensures OfClass([p] + ps, c) == OfClass([p], c) + OfClass(ps, c)
    ensures Values([p] + ps) == [p.value] + Values(ps)
  {
    assert ([p] + ps)[1..] == ps && [p][1..] == [];
  }

  /** TryPop delivers what it returns, and returns nothing only when no ordinary
      value is left. */
  lemma PopDelivers<T(!new)>(b: Box<T>, mid: seq<Post<T>>)
    requires Conserved(b)
    ensures Popped(b, mid).Some? ==> Delivers(b, AfterPop(b, mid), [Popped(b, mid).value])
    ensures Popped(b, mid).None? ==> Delivers(b, AfterPop(b, mid), []) && AfterPop(b, mid).values == []
  {
    PutAllConserves(b, mid);
    if Popped(b, mid).Some? {
      assert [Popped(b, mid).value][1..] == [];
    }
  }

  lemma RoundConserves<T(!new)>(b: Box<T>, w: Window<T>)
    requires Conserved(b)
    ensures Conserved(AfterRound(b, w)) && Later(b, AfterRound(b, w))
    ensures Popped(b, w.mid).Some? ==> Delivers(b, AfterRound(b, w), [Popped(b, w.mid).value])
  {
    hide Conserved, Later, AfterPop, Popped, PutAll;
    PopConserves(b, w.mid);
    PopDelivers(b, w.mid);
    PutAllConserves(AfterPop(b, w.mid), w.after);
    LaterTrans(b, AfterPop(b, w.mid), AfterRound(b, w));
  }

  /** A drain delivers to each class exactly what it applies of that class, in
      the order in which it applies it, and it stops short of its limit only on
      an empty mailbox. */
  lemma {:induction false} DrainConserves<T(!new)>(b: Box<T>, limit: nat, ws: seq<Window<T>>)
    requires Conserved(b)
    ensures var c := AfterDrain(b, limit, ws);
            && Conserved(c) && Later(b, c)
            && Delivers(b, c, Drained(b, limit, ws))
            && |Drained(b, limit, ws)| <= limit
            && (|Drained(b, limit, ws)| < limit ==> c.values == [])
    decreases limit
  {
    hide Conserved, Later, Delivers, AfterPop, Popped, AfterRound;
    LaterRefl(b);
    DeliversNothing(b, b);
    if limit > 0 {
      var w := First(ws);
      if Popped(b, w.mid).Some? {
        var c := AfterRound(b, w);
        RoundConserves(b, w);
        DrainConserves(c, limit - 1, Rest(ws));
        LaterTrans(b, c, AfterDrain(b, limit, ws));
        DeliversMore(b, c, AfterDrain(b, limit, ws), Popped(b, w.mid).value, Drained(c, limit - 1, Rest(ws)));
      } else {
        PopConserves(b, w.mid);
        PopDelivers(b, w.mid);
      }
    }
  }

  /** Every event that a drain applies is the oldest of its class, and an ordinary
      one is applied only if no critical one was waiting when it was taken. */
  lemma {:induction false} DrainPrefersCritical<T(!new)>(b: Box<T>, limit: nat, ws: seq<Window<T>>, i: nat)
    requires Conserved(b) && i < |Drained(b, limit, ws)|
    ensures var c, p := AtRound(b, ws, i), Drained(b, limit, ws)[i];
      && Conserved(c) && Later(b, c) && Delivers(b, c, Drained(b, limit, ws)[..i])
      && (p.class_ == Critical ==> c.critical != [] && p.value == c.critical[0])
      && (p.class_ == Ordinary ==> c.critical == [] && c.deliveredCritical == c.acceptedCritical)
    decreases i
  {
    hide Later, AfterPop, AfterRound, PutAll, Delivers;
    LaterRefl(b);
    DeliversNothing(b, b);
    if i > 0 {
      var c, p := AfterRound(b, First(ws)), Popped(b, First(ws).mid).value;
      RoundConserves(b, First(ws));
      DrainPrefersCritical(c, limit - 1, Rest(ws), i - 1);
      LaterTrans(b, c, AtRound(b, ws, i));
      DeliversMore(b, c, AtRound(b, ws, i), p, Drained(c, limit - 1, Rest(ws))[..i - 1]);
      assert Drained(b, limit, ws)[..i] == [p] + Drained(c, limit - 1, Rest(ws))[..i - 1];
    }
  }

  // ----- the barrier -----

  /** A drain begins with the critical values that are waiting at its start, in
      order, as far as its limit goes, whatever ordinary values are waiting and
      whatever is posted meanwhile. */
  lemma {:induction false} DrainServesCritical<T(!new)>(b: Box<T>, limit: nat, ws: seq<Window<T>>, n: nat)
    requires Conserved(b) && n <= |b.critical| && n <= limit
    ensures n <= |Drained(b, limit, ws)|
    ensures forall i | 0 <= i < n :: Drained(b, limit, ws)[i] == Post(Critical, b.critical[i])
    ensures |AfterDrain(b, limit, ws).deliveredCritical| >= |b.deliveredCritical| + n
    decreases limit
  {
    DrainConserves(b, limit, ws);
    if n > 0 {
      hide Conserved, Later, Delivers;
      var w := First(ws);
      var c := AfterRound(b, w);
      RoundConserves(b, w);
      RoundServes(b, w);
      DrainServesCritical(c, limit - 1, Rest(ws), n - 1);
    }
  }

  /** A round with a critical value waiting takes the oldest and leaves the others. */
  lemma RoundServes<T(!new)>(b: Box<T>, w: Window<T>)
    requires Conserved(b) && |b.critical| > 0
    ensures b.critical[1..] <= AfterRound(b, w).critical
    ensures |AfterRound(b, w).deliveredCritical| == |b.deliveredCritical| + 1
  {
    PopConserves(b, w.mid);
    PutAllConserves(AfterPop(b, w.mid), w.after);
    PutAllKeepsCritical(AfterPop(b, w.mid), w.after);
  }

  lemma {:induction false} PutAllKeepsCritical<T>(b: Box<T>, ps: seq<Post<T>>)
    ensures b.critical <= PutAll(b, ps).critical
    decreases |ps|
  {
    if |ps| > 0 {
      PutAllKeepsCritical(Put(b, ps[0]), ps[1..]);
    }
  }

  /** Ticks of the consumer, with producers posting `posts` before each. */
  datatype Tick<+T> = Tick(posts: seq<Post<T>>, ws: seq<Window<T>>)

  function AfterTicks<T>(b: Box<T>, limit: nat, ticks: seq<Tick<T>>): Box<T>
    decreases |ticks|
  {
    if |ticks| == 0 then b
    else AfterTicks(AfterDrain(PutAll(b, ticks[0].posts), limit, ticks[0].ws), limit, ticks[1..])
  }

  /** limit, n times over. */
  function Budget(limit: nat, n: nat): nat {
    if n == 0 then 0 else limit + Budget(limit, n - 1)
  }

  lemma {:induction false} BudgetIsProduct(limit: nat, n: nat)
    ensures Budget(limit, n) == limit * n
  {
    if n > 0 {
      BudgetIsProduct(limit, n - 1);
      assert limit * n == limit + limit * (n - 1);
    }
  }

  lemma {:induction false} TicksServeCritical<T(!new)>(b: Box<T>, limit: nat, ticks: seq<Tick<T>>, n: nat)
    requires Conserved(b) && n <= |b.critical|
    ensures var c := AfterTicks(b, limit, ticks);
            && Conserved(c) && Later(b, c)
            && |c.deliveredCritical| >= |b.deliveredCritical| + if Budget(limit, |ticks|) < n then Budget(limit, |ticks|) else n
    decreases |ticks|
  {
    hide Conserved, Later, AfterDrain, PutAll, Delivers;
    LaterRefl(b);
    if |ticks| > 0 {
      var c := PutAll(b, ticks[0].posts);
      var d := AfterDrain(c, limit, ticks[0].ws);
      PutAllConserves(b, ticks[0].posts);
      CriticalKept(b, c);
      DrainConserves(c, limit, ticks[0].ws);
      var m := if |c.critical| < limit then |c.critical| else limit;
      DrainServesCritical(c, limit, ticks[0].ws, m);
      LaterTrans(b, c, d);
      CriticalKept(b, d);
      var served := |d.deliveredCritical| - |b.deliveredCritical|;
      TicksServeCritical(d, limit, ticks[1..], if served >= n then 0 else n - served);
      LaterTrans(b, d, AfterTicks(b, limit, ticks));
    }
  }

  /** What was waiting is delivered or still waiting. */
  lemma CriticalKept<T(!new)>(b: Box<T>, c: Box<T>)
    requires Conserved(b) && Conserved(c) && Later(b, c)
    ensures |c.critical| + |c.deliveredCritical| >= |b.critical| + |b.deliveredCritical|
    ensures |c.deliveredCritical| >= |b.deliveredCritical|
  {
  }

  /** The shutdown barrier. A critical value posted behind k others has been
      delivered after k / limit + 1 further ticks, whatever ordinary backlog
      there is and whatever producers post; and then so has every critical
      value that was accepted before it. */
  lemma BarrierIsReached<T(!new)>(b: Box<T>, barrier: T, limit: nat, ticks: seq<Tick<T>>)
    requires Conserved(b) && limit > 0
    requires |ticks| >= |b.critical| / limit + 1
    ensures var c := AfterTicks(Put(b, Post(Critical, barrier)), limit, ticks);
            b.acceptedCritical + [barrier] <= c.deliveredCritical
  {
    var p := Put(b, Post(Critical, barrier));
    PutConserves(b, Post(Critical, barrier));
    TicksServeCritical(p, limit, ticks, |p.critical|);
    BudgetIsProduct(limit, |ticks|);
    EnoughTicks(|b.critical|, limit, |ticks|);
    var c := AfterTicks(p, limit, ticks);
    assert p.acceptedCritical <= c.acceptedCritical;
    assert c.deliveredCritical <= c.acceptedCritical;
    assert |c.deliveredCritical| >= |p.acceptedCritical|;
  }

  // ----- the class -----

  lemma DrainStep<T(!new)>(b: Box<T>, limit: nat, ws: seq<Window<T>>)
    requires limit > 0
    ensures Popped(b, First(ws).mid).None? ==>
              AfterDrain(b, limit, ws) == AfterPop(b, First(ws).mid) && Values(Drained(b, limit, ws)) == []
    ensures Popped(b, First(ws).mid).Some? ==>
              && AfterDrain(b, limit, ws) == AfterDrain(AfterRound(b, First(ws)), limit - 1, Rest(ws))
              && Values(Drained(b, limit, ws))
              == [Popped(b, First(ws).mid).value.value] + Values(Drained(AfterRound(b, First(ws)), limit - 1, Rest(ws)))
  {
    hide AfterPop, Popped, AfterRound;
    if p :| Popped(b, First(ws).mid) == Some(p) {
      OneThenMore(p, Drained(AfterRound(b, First(ws)), limit - 1, Rest(ws)), Critical);
    }
  }

  /** Queue: the channel buffer, and the critical slice under its mutex. */
  class Queue<T(!new)> {
    const capacity: nat
    var values: seq<T>
    var critical: seq<T>
    ghost var box: Box<T>

    ghost predicate Valid()
      reads this
    {
      && capacity > 0
      && box.capacity == capacity && box.values == values && box.critical == critical
      && Conserved(box)
    }

    /** New, which panics unless the capacity is positive. */
    constructor (capacity: nat)
      requires capacity > 0
      ensures Valid() && box == Box(capacity, [], [], [], [], [], [])
    {
      this.capacity := capacity;
      values, critical := [], [];
      box := Box(capacity, [], [], [], [], [], []);
    }

    method TryPost(value: T) returns (ok: bool)
      requires Valid()
      modifies this
      ensures Valid() && box == Put(old(box), Post(Ordinary, value))
      ensures ok <==> |old(values)| < capacity
    {
      PutConserves(box, Post(Ordinary, value));
      ok := |values| < capacity;
      if ok {
        values := values + [value];
      }
      box := Put(box, Post(Ordinary, value));
    }

    method PostCritical(value: T)
      requires Valid()
      modifies this
      ensures Valid() && box == Put(old(box), Post(Critical, value))
    {
      PutConserves(box, Post(Critical, value));
      critical := critical + [value];
      box := Put(box, Post(Critical, value));
    }

    /** Producers at work while the consumer holds nothing. */
    method Produce(posts: seq<Post<T>>)
      requires Valid()
      modifies this
      ensures Valid() && box == PutAll(old(box), posts)
    {
      var i := 0;
      while i < |posts|
        invariant i <= |posts| && Valid()
        invariant PutAll(box, posts[i..]) == PutAll(old(box), posts)
      {
        assert posts[i..][1..] == posts[i + 1..];
        if posts[i].class_ == Critical {
          PostCritical(posts[i].value);
        } else {
          var ok := TryPost(posts[i].value);
        }
        i := i + 1;
      }
    }

    method PopCritical() returns (r: Option<T>)
      requires Valid()
      modifies this
      ensures Valid()
      ensures |old(critical)| == 0 ==> r == None && box == old(box)
      ensures |old(critical)| > 0 ==> r == Some(old(critical)[0]) && box == TakeCritical(old(box))
    {
      if |critical| == 0 {
        return None;
      }
      PopConserves(box, []);
      r := Some(critical[0]);
      box := TakeCritical(box);
      critical := if |critical| == 1 then [] else critical[1..];
    }

    method TryPop(mid: seq<Post<T>>) returns (r: Option<T>)
      requires Valid()
      modifies this
      ensures Valid() && box == AfterPop(old(box), mid)
      ensures r == ValueOf(Popped(old(box), mid))
    {
      PopConserves(box, mid);
      r := PopCritical();
      if r.Some? {
        return;
      }
      Produce(mid);
      if |values| > 0 {
        r := Some(values[0]);
        values := values[1..];
        box := TakeValue(box);
      }
    }

    /** drainRuntimeEvents: the events it applies are returned in order. */
    method Drain(limit: int, ws: seq<Window<T>>) returns (applied: seq<T>)
      requires Valid()
      modifies this
      ensures Valid()
      ensures limit <= 0 ==> applied == [] && box == old(box)
      ensures limit > 0 ==> applied == Values(Drained(old(box), limit, ws)) && box == AfterDrain(old(box), limit, ws)
    {
      applied := [];
      if limit <= 0 {
        return;
      }
      var drained := 0;
      var rest := ws;
      while drained < limit
        invariant 0 <= drained <= limit && Valid()
        invariant AfterDrain(old(box), limit, ws) == AfterDrain(box, limit - drained, rest)
        invariant Values(Drained(old(box), limit, ws)) == applied + Values(Drained(box, limit - drained, rest))
      {
        hide AfterPop, Popped, Values, Conserved, PutAll;
        DrainStep(box, limit - drained, rest);
        var event := TryPop(First(rest).mid);
        if event.None? {
          return;
        }
        applied := applied + [event.value];
        Produce(First(rest).after);
        drained := drained + 1;
        rest := Rest(rest);
      }
    }
  }
}
