/** The plugin event bus: an immutable table of handlers per event type that
    every change replaces, and dispatch over the table it loaded. */
module EventBus {
  import opened PluginOwner

  type Type = string

  const MAX_TYPE: nat := 96

  predicate TypeCharacter(c: char) {
    'a' <= c <= 'z' || '0' <= c <= '9' || c == '.' || c == '_' || c == '-' || c == '/'
  }

  /** ParseType: namespace:path, both non-empty, with exactly one colon. */
  predicate ValidType(t: Type) {
    && |t| <= MAX_TYPE
    && exists colon | 0 < colon < |t| - 1 ::
         t[colon] == ':' && forall i | 0 <= i < |t| :: i == colon || TypeCharacter(t[i])
  }

  datatype Handler = Handler(id: nat, owner: Owner)

  type Table = map<Type, seq<Handler>>

  /** A map lookup in Go: a missing key yields the nil slice. */
  function Handlers(table: Table, t: Type): seq<Handler> {
    if t in table then table[t] else []
  }

  /** Ids increase along a list: it is in subscription order. */
  ghost predicate Ordered(handlers: seq<Handler>) {
    forall i, j | 0 <= i < j < |handlers| :: handlers[i].id < handlers[j].id
  }

  ghost predicate Bounded(handlers: seq<Handler>, nextID: nat) {
    forall h | h in handlers :: 1 <= h.id <= nextID
  }

  /** The two lists share no id. */
  ghost predicate Apart(a: seq<Handler>, b: seq<Handler>) {
    forall h, k | h in a && k in b :: h.id != k.id
  }

  /** Each list is non-empty and in subscription order, and no id occurs twice. */
  ghost predicate Sound(table: Table, nextID: nat) {
    && (forall t | t in table :: ValidType(t) && table[t] != [])
    && (forall t | t in table :: Ordered(table[t]))
    && (forall t | t in table :: Bounded(table[t], nextID))
    && (forall t, u | t in table && u in table && t != u :: Apart(table[t], table[u]))
  }

  /** Replacing one list by another that adds nothing but new ids keeps the table sound. */
  lemma ReplaceIsSound(table: Table, nextID: nat, t: Type, handlers: seq<Handler>, newID: nat)
    requires Sound(table, nextID) && nextID <= newID && ValidType(t)
    requires handlers != [] && Ordered(handlers) && Bounded(handlers, newID)
    requires forall h | h in handlers :: h in Handlers(table, t) || nextID < h.id
    ensures Sound(table[t := handlers], newID)
  {
    hide ValidType, Ordered;
    forall u | u in table && u != t
      ensures Apart(handlers, table[u]) && Apart(table[u], handlers)
    {
      forall h, k | h in handlers && k in table[u]
        ensures h.id != k.id
      {
        if t in table && h in table[t] {
          assert Apart(table[t], table[u]);
        }
      }
    }
  }

  /** The table after one more handler of type `t`. */
  ghost function Added(table: Table, t: Type, h: Handler): Table {
    table[t := Handlers(table, t) + [h]]
  }

  lemma AddedIsSound(table: Table, nextID: nat, t: Type, owner: Owner)
    requires Sound(table, nextID) && ValidType(t)
    ensures Sound(Added(table, t, Handler(nextID + 1, owner)), nextID + 1)
  {
    hide ValidType, Apart;
    ReplaceIsSound(table, nextID, t, Handlers(table, t) + [Handler(nextID + 1, owner)], nextID + 1);
  }

  /** `handlers` without the one called `id`. */
  ghost function Dropped(handlers: seq<Handler>, id: nat): seq<Handler> {
    if handlers == [] then []
    else if handlers[0].id == id then handlers[1..]
    else [handlers[0]] + Dropped(handlers[1..], id)
  }

  lemma {:induction false} DroppedAt(handlers: seq<Handler>, i: nat)
    requires i < |handlers| && Ordered(handlers)
    ensures Dropped(handlers, handlers[i].id) == handlers[..i] + handlers[i + 1..]
  {
    if i > 0 {
      DroppedAt(handlers[1..], i - 1);
    }
  }

  /** `handlers` without those of `owner`. */
  ghost function Kept(handlers: seq<Handler>, owner: Owner): (r: seq<Handler>)
    ensures forall h | h in r :: h in handlers && h.owner != owner
    ensures forall h | h in handlers && h.owner != owner :: h in r
    ensures |r| <= |handlers| && (|r| == |handlers| ==> r == handlers)
  {
    if handlers == [] then []
    else
      var rest := Kept(handlers[..|handlers| - 1], owner);
      var h := handlers[|handlers| - 1];
      assert handlers == handlers[..|handlers| - 1] + [h];
      if h.owner == owner then rest else rest + [h]
  }

  lemma OrderedAppend(handlers: seq<Handler>, h: Handler)
    requires Ordered(handlers) && forall k | k in handlers :: k.id < h.id
    ensures Ordered(handlers + [h])
  {
    forall i | 0 <= i < |handlers| ensures handlers[i].id < h.id {
      assert handlers[i] in handlers;
    }
  }

  lemma {:induction false} KeptIsOrdered(handlers: seq<Handler>, owner: Owner)
    requires Ordered(handlers)
    ensures Ordered(Kept(handlers, owner))
  {
    if handlers != [] {
      var n := |handlers| - 1;
      KeptIsOrdered(handlers[..n], owner);
      assert forall h | h in handlers[..n] :: h.id < handlers[n].id;
      if handlers[n].owner != owner {
        hide Ordered;
        OrderedAppend(Kept(handlers[..n], owner), handlers[n]);
      }
    }
  }

  /** The table after the lists at `types` have lost the handlers of `owner`. */
  ghost function Purged(table: Table, types: set<Type>, owner: Owner): Table {
    map t | t in table && (t in types ==> Kept(table[t], owner) != []) ::
      if t in types then Kept(table[t], owner) else table[t]
  }

  lemma PurgedIsSound(table: Table, nextID: nat, owner: Owner)
    requires Sound(table, nextID)
    ensures Sound(Purged(table, table.Keys, owner), nextID)
  {
    hide ValidType, Ordered, Kept;
    var purged := Purged(table, table.Keys, owner);
    forall t | t in purged
      ensures Ordered(purged[t]) && Bounded(purged[t], nextID)
    {
      KeptIsOrdered(table[t], owner);
    }
    forall t, u | t in purged && u in purged && t != u
      ensures Apart(purged[t], purged[u])
    {
      assert Apart(table[t], table[u]);
    }
  }

  /** What one handler invocation does to the bus, and whether it fails. */
  datatype Change =
    | Subscribe(owner: Owner, early: bool, accepts: bool, t: Type, hasHandler: bool)
    | Unsubscribe(t: Type, id: nat)
    | Disown(owner: Owner)

  datatype Reaction = Reaction(changes: seq<Change>, failed: bool)

  /** The fields of a bus. */
  datatype Contents = Contents(table: Table, nextID: nat)

  /** The list that empties goes. */
  ghost function WithHandlers(table: Table, t: Type, handlers: seq<Handler>): Table {
    if handlers == [] then table - {t} else table[t := handlers]
  }

  ghost function Changed(c: Contents, change: Change): Contents {
    match change
    case Subscribe(owner, early, accepts, t, hasHandler) =>
      if early && ValidType(t) && hasHandler && accepts
      then Contents(Added(c.table, t, Handler(c.nextID + 1, owner)), c.nextID + 1)
      else c
    case Unsubscribe(t, id) => c.(table := WithHandlers(c.table, t, Dropped(Handlers(c.table, t), id)))
    case Disown(owner) => c.(table := Purged(c.table, c.table.Keys, owner))
  }

  ghost function ChangedAll(c: Contents, changes: seq<Change>): Contents
    decreases |changes|
  {
    if changes == [] then c else ChangedAll(Changed(c, changes[0]), changes[1..])
  }

  /** The bus after these handlers have been called, one after the other. */
  ghost function Reacted(c: Contents, calls: seq<nat>, reaction: nat -> Reaction): Contents {
    if calls == [] then c
    else
      var n := |calls| - 1;
      ChangedAll(Reacted(c, calls[..n], reaction), reaction(calls[n]).changes)
  }

  lemma ReactedStep(c: Contents, calls: seq<nat>, id: nat, reaction: nat -> Reaction)
    ensures Reacted(c, calls + [id], reaction) == ChangedAll(Reacted(c, calls, reaction), reaction(id).changes)
    ensures Reacted(c, [], reaction) == c
  {
    assert (calls + [id])[..|calls|] == calls;
  }

  lemma TableFollows(was: Table, now: Table, t: Type, handlers: seq<Handler>)
    requires Handlers(now, t) == handlers && now - {t} == was - {t} && (t in now ==> now[t] != [])
    ensures now == WithHandlers(was, t, handlers)
  {
    forall u | u in now && u != t ensures u in was && was[u] == now[u] {
      assert (now - {t})[u] == (was - {t})[u];
    }
    forall u | u in was && u != t ensures u in now {
      assert u in was - {t};
    }
  }

  datatype Outcome = Subscribed(id: nat) | SubscriptionsClosed | InvalidType | NilHandler

  /** The ids that dispatch calls: those whose owner is enabled when its turn comes. */
  ghost function Called(handlers: seq<Handler>, enabledAt: nat -> set<Owner>): seq<nat> {
    if handlers == [] then []
    else
      var n := |handlers| - 1;
      Called(handlers[..n], enabledAt) + if handlers[n].owner in enabledAt(n) then [handlers[n].id] else []
  }

  ghost function Failed(calls: seq<nat>, reaction: nat -> Reaction): nat {
    if calls == [] then 0
    else Failed(calls[..|calls| - 1], reaction) + if reaction(calls[|calls| - 1]).failed then 1 else 0
  }

  lemma CalledStep(handlers: seq<Handler>, k: nat, enabledAt: nat -> set<Owner>, reaction: nat -> Reaction)
    requires k < |handlers|
    ensures
      var calls := Called(handlers[..k], enabledAt);
      var id := handlers[k].id;
      if handlers[k].owner in enabledAt(k)
      then Called(handlers[..k + 1], enabledAt) == calls + [id]
           && Failed(calls + [id], reaction) == Failed(calls, reaction) + if reaction(id).failed then 1 else 0
      else Called(handlers[..k + 1], enabledAt) == calls
  {
    var calls, id := Called(handlers[..k], enabledAt), handlers[k].id;
    assert handlers[..k + 1][..k] == handlers[..k];
    assert (calls + [id])[..|calls|] == calls;
  }

  /** Dispatch calls a handler exactly when it is in the table that was loaded
      and its owner is enabled at its turn, once, in subscription order. */
  lemma {:induction false} CallsFollowTheSnapshot(handlers: seq<Handler>, enabledAt: nat -> set<Owner>)
    requires Ordered(handlers)
    ensures forall i, j | 0 <= i < j < |Called(handlers, enabledAt)| ::
              Called(handlers, enabledAt)[i] < Called(handlers, enabledAt)[j]
    ensures forall i | 0 <= i < |handlers| ::
              handlers[i].id in Called(handlers, enabledAt) <==> handlers[i].owner in enabledAt(i)
    ensures forall id | id in Called(handlers, enabledAt) :: exists i | 0 <= i < |handlers| :: handlers[i].id == id
  {
    if handlers != [] {
      var n := |handlers| - 1;
      CallsFollowTheSnapshot(handlers[..n], enabledAt);
      forall id | id in Called(handlers[..n], enabledAt)
        ensures id < handlers[n].id
        ensures exists i | 0 <= i < |handlers| :: handlers[i].id == id
      {
        var i :| 0 <= i < n && handlers[..n][i].id == id;
        assert handlers[i].id == id;
      }
      var before := Called(handlers[..n], enabledAt);
      forall i | 0 <= i < |before| ensures before[i] < handlers[n].id {
        assert before[i] in before;
      }
      forall i | 0 <= i < n
        ensures handlers[i].id in Called(handlers, enabledAt) <==> handlers[i].owner in enabledAt(i)
      {
        assert handlers[..n][i] == handlers[i];
      }
      forall id | id in Called(handlers, enabledAt)
        ensures exists i | 0 <= i < |handlers| :: handlers[i].id == id
      {
        if id !in Called(handlers[..n], enabledAt) {
          assert handlers[n].id == id;
        }
      }
    }
  }

  class Bus {
    var nextID: nat
    var table: Table

    ghost predicate Valid()
      reads this
    {
      Sound(table, nextID)
    }

    /** Nothing on the bus belongs to `owner`. */
    ghost predicate Free(owner: Owner)
      reads this
    {
      forall t | t in table :: forall h | h in table[t] :: h.owner != owner
    }

    constructor ()
      ensures Valid() && table == map[] && nextID == 0
    {
      nextID, table := 0, map[];
    }

    /** subscribe. `early` and `accepts` are the owner's flag as read before the
        lock is taken and again under it. */
    method Add(owner: Owner, early: bool, accepts: bool, t: Type, hasHandler: bool) returns (r: Outcome)
      requires Valid()
      modifies this
      ensures Valid()
      ensures !early ==> r.SubscriptionsClosed?
      ensures early && !ValidType(t) ==> r.InvalidType?
      ensures early && ValidType(t) && !hasHandler ==> r.NilHandler?
      ensures early && ValidType(t) && hasHandler ==>
                if accepts then r == Subscribed(old(nextID) + 1) else r.SubscriptionsClosed?
      ensures r.Subscribed? ==> nextID == r.id && table == Added(old(table), t, Handler(r.id, owner))
      ensures !r.Subscribed? ==> nextID == old(nextID) && table == old(table)
    {
      hide Sound, ValidType;
      if !early {
        return SubscriptionsClosed;
      }
      if !ValidType(t) {
        return InvalidType;
      }
      if !hasHandler {
        return NilHandler;
      }
      if !accepts {
        return SubscriptionsClosed;
      }
      AddedIsSound(table, nextID, t, owner);
      nextID := nextID + 1;
      table := table[t := Handlers(table, t) + [Handler(nextID, owner)]];
      return Subscribed(nextID);
    }

    /** remove, as a subscription's Cancel calls it. */
    method Remove(t: Type, id: nat) returns (removed: bool)
      requires Valid()
      modifies this`table
      ensures Valid()
      ensures removed <==> exists h | h in Handlers(old(table), t) :: h.id == id
      ensures Handlers(table, t) == Dropped(Handlers(old(table), t), id)
      ensures table - {t} == old(table) - {t}
    {
      hide ValidType, Ordered, Apart;
      var handlers := Handlers(table, t);
      if id == 0 {
        AbsentIsNotDropped(handlers, id);
        return false;
      }
      var index := 0;
      while index < |handlers| && handlers[index].id != id
        invariant 0 <= index <= |handlers|
        invariant forall i | 0 <= i < index :: handlers[i].id != id
      {
        index := index + 1;
      }
      if index == |handlers| {
        AbsentIsNotDropped(handlers, id);
        return false;
      }
      DropAt(t, index);
      return true;
    }

    method DropAt(t: Type, index: nat)
      requires Valid() && t in table && index < |table[t]|
      modifies this`table
      ensures Valid()
      ensures Handlers(table, t) == Dropped(old(table)[t], old(table)[t][index].id)
      ensures table - {t} == old(table) - {t}
    {
      var handlers := table[t];
      DroppedAt(handlers, index);
      RemovalIsSound(table, nextID, t, index);
      HandlersAfterRemoval(table, t, index);
      hide Sound, Handlers, Dropped;
      if |handlers| == 1 {
        table := table - {t};
      } else {
        table := table[t := handlers[..index] + handlers[index + 1..]];
      }
    }

    /** removeOwner: the lists are visited in any order, a list that empties is
        dropped, and the new table is stored only if something was removed. */
    method RemoveOwner(owner: Owner) returns (removed: nat)
      requires Valid()
      modifies this`table
      ensures Valid() && Free(owner)
      ensures table == Purged(old(table), old(table).Keys, owner)
      ensures exists order: seq<Type> :: Lists(order, old(table).Keys) && removed == OwnedAlong(old(table), order, owner)
    {
      hide Sound, Kept, Purged, OwnedAlong, Ordered, Lists, Swept;
      NoEmptyList(table, nextID);
      PurgedIsSound(table, nextID, owner);
      removed := 0;
      var next := table;
      var unseen := table.Keys;
      ghost var order: seq<Type> := [];
      SweepStarts(table, owner);
      while unseen != {}
        invariant table == old(table) && nextID == old(nextID)
        invariant Swept(table, owner, unseen, order, next, removed)
        decreases |unseen|
      {
        hide Sound, Kept, Purged, OwnedAlong, Lists, Swept, Ordered;
        var t :| t in unseen;
        SweepStep(table, owner, unseen, order, next, removed, t);
        var kept := Filter(table[t], owner);
        removed := removed + (|table[t]| - |kept|);
        if |kept| == 0 {
          next := next - {t};
        } else if |kept| != |table[t]| {
          next := next[t := kept];
        }
        order := order + [t];
        unseen := unseen - {t};
      }
      SweepEnds(table, owner, order, next, removed);
      if removed > 0 {
        table := next;
      }
    }

    /** One change that a handler makes while it runs. */
    method Perform(c: Change)
      requires Valid()
      modifies this
      ensures Valid() && Contents(table, nextID) == Changed(old(Contents(table, nextID)), c)
    {
      match c
      case Subscribe(owner, early, accepts, t, hasHandler) => var _ := Add(owner, early, accepts, t, hasHandler);
      case Unsubscribe(t, id) =>
        var _ := Remove(t, id);
        TableFollows(old(table), table, t, Dropped(Handlers(old(table), t), id));
      case Disown(owner) => var _ := RemoveOwner(owner);
    }

    /** dispatch. `enabledAt(k)` is the set of owners whose enabled flag is set
        when the k-th handler of the loaded list is looked at, and
        `reaction(id)` what handler `id` does if it is called. */
    method Dispatch(readable: bool, t: Type, enabledAt: nat -> set<Owner>, reaction: nat -> Reaction)
      returns (calls: seq<nat>, failures: nat)
      requires Valid()
      modifies this
      ensures Valid() && Contents(table, nextID) == Reacted(old(Contents(table, nextID)), calls, reaction)
      ensures !readable || !ValidType(t) ==> calls == [] && failures == 1
      ensures readable && ValidType(t) ==>
                calls == Called(Handlers(old(table), t), enabledAt) && failures == Failed(calls, reaction)
    {
      hide ValidType, Sound, Reacted;
      ReactedStep(Contents(table, nextID), [], 0, reaction);
      calls, failures := [], 0;
      if !readable || !ValidType(t) {
        return calls, 1;
      }
      var handlers := Handlers(table, t);
      for k := 0 to |handlers|
        invariant Valid() && Contents(table, nextID) == Reacted(old(Contents(table, nextID)), calls, reaction)
        invariant calls == Called(handlers[..k], enabledAt) && failures == Failed(calls, reaction)
      {
        hide ValidType, Sound, Called, Failed, Reacted, ChangedAll;
        CalledStep(handlers, k, enabledAt, reaction);
        var h := handlers[k];
        ReactedStep(old(Contents(table, nextID)), calls, h.id, reaction);
        if h.owner in enabledAt(k) {
          ApplyAll(reaction(h.id).changes);
          calls := calls + [h.id];
          if reaction(h.id).failed {
            failures := failures + 1;
          }
        }
      }
      assert handlers[..|handlers|] == handlers;
    }

    method ApplyAll(changes: seq<Change>)
      requires Valid()
      modifies this
      ensures Valid() && Contents(table, nextID) == ChangedAll(old(Contents(table, nextID)), changes)
    {
      hide Sound, Changed;
      for i := 0 to |changes|
        invariant Valid()
        invariant ChangedAll(Contents(table, nextID), changes[i..]) == ChangedAll(old(Contents(table, nextID)), changes)
      {
        hide Sound, Changed;
        assert changes[i..][1..] == changes[i + 1..];
        Perform(changes[i]);
      }
    }
  }

  method Filter(handlers: seq<Handler>, owner: Owner) returns (kept: seq<Handler>)
    ensures kept == Kept(handlers, owner)
  {
    kept := [];
    for i := 0 to |handlers|
      invariant kept == Kept(handlers[..i], owner)
    {
      assert handlers[..i + 1][..i] == handlers[..i];
      if handlers[i].owner != owner {
        kept := kept + [handlers[i]];
      }
    }
    assert handlers[..|handlers|] == handlers;
  }

  lemma HandlersAfterRemoval(table: Table, t: Type, i: nat)
    requires t in table && i < |table[t]|
    ensures
      var next := if |table[t]| == 1 then table - {t} else table[t := table[t][..i] + table[t][i + 1..]];
      Handlers(next, t) == table[t][..i] + table[t][i + 1..] && next - {t} == table - {t}
  {
  }

  lemma {:induction false} AbsentIsNotDropped(handlers: seq<Handler>, id: nat)
    requires forall h | h in handlers :: h.id != id
    ensures Dropped(handlers, id) == handlers
  {
    if handlers != [] {
      AbsentIsNotDropped(handlers[1..], id);
    }
  }

  lemma RemovalIsSound(table: Table, nextID: nat, t: Type, i: nat)
    requires Sound(table, nextID) && t in table && i < |table[t]|
    ensures Sound(if |table[t]| == 1 then table - {t} else table[t := table[t][..i] + table[t][i + 1..]], nextID)
  {
    hide ValidType, Apart;
    if |table[t]| > 1 {
      ReplaceIsSound(table, nextID, t, table[t][..i] + table[t][i + 1..], nextID);
    }
  }

  /** `order` lists the elements of `types`, each once. */
  ghost predicate Lists(order: seq<Type>, types: set<Type>) {
    && (forall t :: t in order <==> t in types)
    && forall i, j | 0 <= i < j < |order| :: order[i] != order[j]
  }

  /** How many handlers of `owner` the lists of these types hold together. */
  ghost function OwnedAlong(table: Table, order: seq<Type>, owner: Owner): nat
    requires forall t | t in order :: t in table
  {
    if order == [] then 0
    else
      var t := order[|order| - 1];
      OwnedAlong(table, order[..|order| - 1], owner) + (|table[t]| - |Kept(table[t], owner)|)
  }

  ghost predicate Swept(table: Table, owner: Owner, unseen: set<Type>, order: seq<Type>, next: Table, removed: nat) {
    && unseen <= table.Keys
    && Lists(order, table.Keys - unseen)
    && removed == OwnedAlong(table, order, owner)
    && next == Purged(table, table.Keys - unseen, owner)
  }

  lemma NoEmptyList(table: Table, nextID: nat)
    requires Sound(table, nextID)
    ensures forall t | t in table :: table[t] != []
  {
  }

  lemma SweepStarts(table: Table, owner: Owner)
    ensures Swept(table, owner, table.Keys, [], table, 0)
  {
  }

  lemma PurgeOne(table: Table, owner: Owner, seen: set<Type>, t: Type)
    requires t in table && t !in seen
    ensures
      var kept, next := Kept(table[t], owner), Purged(table, seen, owner);
      Purged(table, seen + {t}, owner)
      == if |kept| == 0 then next - {t} else if |kept| != |table[t]| then next[t := kept] else next
  {
  }

  lemma ListOne(order: seq<Type>, seen: set<Type>, t: Type)
    requires Lists(order, seen) && t !in seen
    ensures Lists(order + [t], seen + {t})
  {
  }

  lemma {:induction false} SweepStep(table: Table, owner: Owner, unseen: set<Type>, order: seq<Type>, next: Table, removed: nat, t: Type)
    requires Swept(table, owner, unseen, order, next, removed) && t in unseen
    ensures t in table
    ensures
      var kept := Kept(table[t], owner);
      Swept(table, owner, unseen - {t}, order + [t],
            if |kept| == 0 then next - {t} else if |kept| != |table[t]| then next[t := kept] else next,
            removed + (|table[t]| - |kept|))
  {
    assert forall u | u in order :: u in table;
    assert (order + [t])[..|order|] == order;
    assert OwnedAlong(table, order + [t], owner)
        == OwnedAlong(table, order, owner) + (|table[t]| - |Kept(table[t], owner)|);
    assert table.Keys - (unseen - {t}) == (table.Keys - unseen) + {t};
    PurgeOne(table, owner, table.Keys - unseen, t);
    ListOne(order, table.Keys - unseen, t);
    hide Kept, Purged, OwnedAlong, Lists;
  }

  lemma {:induction false} NothingOwned(table: Table, order: seq<Type>, owner: Owner)
    requires forall t | t in order :: t in table
    ensures OwnedAlong(table, order, owner) == 0 ==> forall t | t in order :: Kept(table[t], owner) == table[t]
  {
    if order != [] {
      NothingOwned(table, order[..|order| - 1], owner);
    }
  }

  lemma PurgedFrees(table: Table, owner: Owner)
    ensures forall t | t in Purged(table, table.Keys, owner) :: forall h | h in Purged(table, table.Keys, owner)[t] :: h.owner != owner
  {
    forall t | t in Purged(table, table.Keys, owner)
      ensures forall h | h in Purged(table, table.Keys, owner)[t] :: h.owner != owner
    {
      assert Purged(table, table.Keys, owner)[t] == Kept(table[t], owner);
    }
  }

  lemma SweepEnds(table: Table, owner: Owner, order: seq<Type>, next: Table, removed: nat)
    requires Swept(table, owner, {}, order, next, removed)
    requires forall t | t in table :: table[t] != []
    ensures next == Purged(table, table.Keys, owner)
    ensures removed == 0 ==> next == table
    ensures forall t | t in next :: forall h | h in next[t] :: h.owner != owner
    ensures Lists(order, table.Keys) && removed == OwnedAlong(table, order, owner)
  {
    hide Kept, Purged, OwnedAlong, Lists;
    assert table.Keys - {} == table.Keys;
    PurgedFrees(table, owner);
    if removed == 0 {
      NothingPurged(table, order, owner);
    }
  }

  lemma NothingPurged(table: Table, order: seq<Type>, owner: Owner)
    requires Lists(order, table.Keys) && OwnedAlong(table, order, owner) == 0
    requires forall t | t in table :: table[t] != []
    ensures Purged(table, table.Keys, owner) == table
  {
    hide Kept;
    NothingOwned(table, order, owner);
    hide OwnedAlong;
    assert forall t | t in table :: Kept(table[t], owner) == table[t];
  }
}
