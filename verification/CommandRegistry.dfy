/** The plugin command registry: records by id and by literal, and the literals
    that the host reserves. */
module CommandRegistry {
  import opened Collections
  import opened PluginOwner

  type Name = string

  const MAX_NAME: nat := 48
  const MAX_DESCRIPTION: nat := 256

  predicate IsAlphaNumeric(c: char) {
    'a' <= c <= 'z' || '0' <= c <= '9'
  }

  /** ParseName: 1 to 48 characters of [a-z0-9_-], beginning and ending with [a-z0-9]. */
  predicate ValidName(n: Name) {
    && 1 <= |n| <= MAX_NAME
    && (forall i | 0 <= i < |n| :: IsAlphaNumeric(n[i]) || n[i] == '_' || n[i] == '-')
    && IsAlphaNumeric(n[0]) && IsAlphaNumeric(n[|n| - 1])
  }

  /** A definition; of the description only its length after trimming matters. */
  datatype Definition = Definition(name: Name, aliases: seq<Name>, descriptionLength: nat)

  function Literals(d: Definition): seq<Name> {
    [d.name] + d.aliases
  }

  /** Definition.Validate */
  predicate ValidDefinition(d: Definition) {
    && (forall n | n in Literals(d) :: ValidName(n))
    && d.descriptionLength <= MAX_DESCRIPTION
    && Distinct(Literals(d))
  }

  datatype Record = Record(id: nat, owner: Owner, literals: seq<Name>)

  datatype Outcome = Registered(id: nat) | RegistrationClosed | InvalidDefinition | NilHandler | ReservedLiteral | Conflict

  /** What execute does with a literal before any handler runs. */
  datatype Resolution = Unhandled | NilSource | Invoke(record: Record)

  /** byName and byID describe the same records. */
  ghost predicate Consistent(byName: map<Name, Record>, byID: map<nat, Record>) {
    && (forall id | id in byID :: byID[id].id == id && Distinct(byID[id].literals))
    && (forall n | n in byName :: byName[n].id in byID && byID[byName[n].id] == byName[n] && n in byName[n].literals)
    && (forall id | id in byID :: forall n | n in byID[id].literals :: n in byName && byName[n] == byID[id])
  }

  function Set(names: seq<Name>): set<Name> {
    set n | n in names
  }

  /** `byName` after each of `literals` is pointed at `record`. */
  ghost function Enlisted(byName: map<Name, Record>, record: Record, literals: seq<Name>): map<Name, Record> {
    byName + map n | n in literals :: record
  }

  /** A literal that the host reserved, or that a record holds, stops a registration. */
  ghost function FirstObstacle(literals: seq<Name>, reserved: set<Name>, taken: set<Name>, id: nat): (r: Outcome)
    ensures r.Registered? <==> Set(literals) !! reserved + taken
    ensures r.Registered? ==> r.id == id
  {
    if literals == [] then Registered(id)
    else if literals[0] in reserved then ReservedLiteral
    else if literals[0] in taken then Conflict
    else
      assert Set(literals) == {literals[0]} + Set(literals[1..]);
      FirstObstacle(literals[1..], reserved, taken, id)
  }

  /** The error comes from the first literal that is reserved or taken. */
  lemma {:induction false} FirstObstacleIsFirst(literals: seq<Name>, reserved: set<Name>, taken: set<Name>, id: nat, i: nat)
    requires i < |literals| && literals[i] in reserved + taken
    requires forall j | 0 <= j < i :: literals[j] !in reserved + taken
    ensures FirstObstacle(literals, reserved, taken, id)
         == if literals[i] in reserved then ReservedLiteral else Conflict
  {
    if i > 0 {
      FirstObstacleIsFirst(literals[1..], reserved, taken, id, i - 1);
    }
  }

  lemma EnlistedIsConsistent(byName: map<Name, Record>, byID: map<nat, Record>, record: Record)
    requires Consistent(byName, byID) && record.id !in byID
    requires Distinct(record.literals) && Set(record.literals) !! byName.Keys
    ensures Consistent(Enlisted(byName, record, record.literals), byID[record.id := record])
  {
    var names, ids := Enlisted(byName, record, record.literals), byID[record.id := record];
    forall id, n | id in ids && n in ids[id].literals
      ensures n in names && names[n] == ids[id]
    {
      if id != record.id {
        assert n in byName;
        assert n !in Set(record.literals);
      }
    }
  }

  lemma EnlistedStep(byName: map<Name, Record>, record: Record, i: nat)
    requires i < |record.literals|
    ensures Enlisted(byName, record, record.literals[..i])[record.literals[i] := record]
         == Enlisted(byName, record, record.literals[..i + 1])
  {
    assert record.literals[..i + 1] == record.literals[..i] + [record.literals[i]];
  }

  lemma EnlistedKeys(byName: map<Name, Record>, record: Record, reserved: set<Name>)
    requires forall n | n in byName :: ValidName(n) && n !in reserved
    requires forall n | n in record.literals :: ValidName(n) && n !in reserved
    ensures Enlisted(byName, record, record.literals[..0]) == byName
    ensures record.literals[..|record.literals|] == record.literals
    ensures forall n | n in Enlisted(byName, record, record.literals) :: ValidName(n) && n !in reserved
  {
  }

  /** The literals that point to none of the records in `gone`. */
  ghost function Without(byName: map<Name, Record>, gone: set<nat>): map<Name, Record> {
    map n | n in byName && byName[n].id !in gone :: byName[n]
  }

  lemma WithoutAgain(byName: map<Name, Record>, gone: set<nat>, id: nat)
    ensures Without(Without(byName, gone), {id}) == Without(byName, gone + {id})
    ensures Without(byName, {}) == byName
  {
  }

  /** Dropping a record's literals is dropping the entries that point to it. */
  lemma DropIsFilter(byName: map<Name, Record>, byID: map<nat, Record>, id: nat)
    requires Consistent(byName, byID) && id in byID
    ensures byName - Set(byID[id].literals) == Without(byName, {id})
  {
  }

  lemma DropIsConsistent(byName: map<Name, Record>, byID: map<nat, Record>, id: nat)
    requires Consistent(byName, byID) && id in byID
    ensures Consistent(byName - Set(byID[id].literals), byID - {id})
  {
  }

  /** Each literal of a record still points to it when it is deleted. */
  lemma DropStep(names: map<Name, Record>, byName: map<Name, Record>, byID: map<nat, Record>, id: nat, i: nat)
    requires Consistent(names, byID) && id in byID && i < |byID[id].literals|
    requires byName == names - Set(byID[id].literals[..i])
    ensures var literal := byID[id].literals[i];
      && literal in byName && byName[literal] == byID[id]
      && byName - {literal} == names - Set(byID[id].literals[..i + 1])
  {
    assert byID[id].literals[..i + 1] == byID[id].literals[..i] + [byID[id].literals[i]];
  }

  ghost function Owned(byID: map<nat, Record>, owner: Owner): set<nat> {
    set id | id in byID && byID[id].owner == owner
  }

  ghost function OfOthers(byName: map<Name, Record>, owner: Owner): map<Name, Record> {
    map n | n in byName && byName[n].owner != owner :: byName[n]
  }

  /** Both maps after the records of `owned` outside `unseen` have been deleted. */
  ghost predicate Swept(names: map<Name, Record>, ids: map<nat, Record>, owned: set<nat>, unseen: set<nat>,
                        byName: map<Name, Record>, byID: map<nat, Record>, removed: nat) {
    && unseen <= ids.Keys
    && removed == |owned - unseen|
    && byID == ids - (owned - unseen)
    && byName == Without(names, owned - unseen)
  }

  lemma SweepStarts(names: map<Name, Record>, ids: map<nat, Record>, owned: set<nat>)
    requires owned <= ids.Keys
    ensures Swept(names, ids, owned, ids.Keys, names, ids, 0)
  {
    assert owned - ids.Keys == {};
  }

  lemma SweepSkips(names: map<Name, Record>, ids: map<nat, Record>, owned: set<nat>, unseen: set<nat>,
                   byName: map<Name, Record>, byID: map<nat, Record>, removed: nat, id: nat)
    requires Swept(names, ids, owned, unseen, byName, byID, removed) && id in unseen
    ensures id in byID && byID[id] == ids[id]
    ensures id !in owned ==> Swept(names, ids, owned, unseen - {id}, byName, byID, removed)
  {
    if id !in owned {
      assert owned - (unseen - {id}) == owned - unseen;
    }
  }

  lemma SweepDeletes(names: map<Name, Record>, ids: map<nat, Record>, owned: set<nat>, unseen: set<nat>,
                     byName: map<Name, Record>, byID: map<nat, Record>, removed: nat, id: nat)
    requires Swept(names, ids, owned, unseen, byName, byID, removed) && id in unseen && id in owned
    ensures Swept(names, ids, owned, unseen - {id}, Without(byName, {id}), byID - {id}, removed + 1)
  {
    WithoutAgain(names, owned - unseen, id);
    assert owned - (unseen - {id}) == (owned - unseen) + {id};
  }

  lemma OwnersAgree(byName: map<Name, Record>, byID: map<nat, Record>, owner: Owner)
    requires Consistent(byName, byID)
    ensures forall id | id in byID :: id in Owned(byID, owner) <==> byID[id].owner == owner
    ensures Owned(byID, owner) <= byID.Keys
    ensures Without(byName, Owned(byID, owner)) == OfOthers(byName, owner)
  {
  }

  lemma SweepEnds(names: map<Name, Record>, ids: map<nat, Record>, owner: Owner,
                  byName: map<Name, Record>, byID: map<nat, Record>, removed: nat)
    requires Consistent(names, ids)
    requires Swept(names, ids, Owned(ids, owner), {}, byName, byID, removed)
    ensures byID == ids - Owned(ids, owner) && byName == OfOthers(names, owner)
    ensures removed == |Owned(ids, owner)|
    ensures forall id | id in byID :: byID[id].owner != owner
    ensures forall n | n in byName :: byName[n].owner != owner
  {
    OwnersAgree(names, ids, owner);
    assert Owned(ids, owner) - {} == Owned(ids, owner);
  }

  /** Two records have no literal in common. */
  lemma LiteralsAreDisjoint(byName: map<Name, Record>, byID: map<nat, Record>, a: nat, b: nat, n: Name)
    requires Consistent(byName, byID) && a in byID && b in byID
    requires n in byID[a].literals && n in byID[b].literals
    ensures a == b
  {
    assert byName[n] == byID[a];
  }

  class Registry {
    var nextID: nat
    var byName: map<Name, Record>
    var byID: map<nat, Record>
    var reserved: set<Name>

    ghost predicate Valid()
      reads this
    {
      && Consistent(byName, byID)
      && (forall id | id in byID :: 1 <= id <= nextID)
      && (forall n | n in byName :: ValidName(n) && n !in reserved)
    }

    /** Nothing in the registry belongs to `owner`. */
    ghost predicate Free(owner: Owner)
      reads this
    {
      && (forall id | id in byID :: byID[id].owner != owner)
      && (forall n | n in byName :: byName[n].owner != owner)
    }

    constructor ()
      ensures Valid() && byName == map[] && byID == map[] && reserved == {}
    {
      nextID, byName, byID, reserved := 0, map[], map[], {};
    }

    /** reserve: all of the names or none. */
    method Reserve(names: seq<Name>) returns (ok: bool)
      requires Valid()
      modifies this`reserved
      ensures Valid()
      ensures ok <==> forall n | n in names :: ValidName(n) && n !in byName
      ensures reserved == if ok then old(reserved) + (set n | n in names) else old(reserved)
    {
      for i := 0 to |names|
        invariant forall n | n in names[..i] :: ValidName(n)
        invariant reserved == old(reserved)
      {
        if !ValidName(names[i]) {
          return false;
        }
      }
      for i := 0 to |names|
        invariant forall n | n in names[..i] :: n !in byName
        invariant reserved == old(reserved)
      {
        if names[i] in byName {
          return false;
        }
      }
      for i := 0 to |names|
        invariant reserved == old(reserved) + (set n | n in names[..i])
      {
        assert names[..i + 1] == names[..i] + [names[i]];
        reserved := reserved + {names[i]};
      }
      assert names[..|names|] == names;
      return true;
    }

    /** register. `early` and `accepts` are the owner's flag as read before the
        lock is taken and again under it. Every literal is registered or none. */
    method Register(owner: Owner, early: bool, accepts: bool, d: Definition, hasHandler: bool) returns (r: Outcome)
      requires Valid()
      modifies this`nextID, this`byName, this`byID
      ensures Valid()
      ensures !early ==> r.RegistrationClosed?
      ensures early && !ValidDefinition(d) ==> r.InvalidDefinition?
      ensures early && ValidDefinition(d) && !hasHandler ==> r.NilHandler?
      ensures early && ValidDefinition(d) && hasHandler && !accepts ==> r.RegistrationClosed?
      ensures early && ValidDefinition(d) && hasHandler && accepts ==> r == old(Admission(Literals(d)))
      ensures r.Registered? ==>
                && r.id == nextID == old(nextID) + 1
                && byID == old(byID)[r.id := Record(r.id, owner, Literals(d))]
                && byName == Enlisted(old(byName), Record(r.id, owner, Literals(d)), Literals(d))
      ensures !r.Registered? ==> nextID == old(nextID) && byID == old(byID) && byName == old(byName)
    {
      hide Consistent, FirstObstacle, Enlisted, ValidName;
      if !early {
        return RegistrationClosed;
      }
      if !ValidDefinition(d) {
        return InvalidDefinition;
      }
      if !hasHandler {
        return NilHandler;
      }
      if !accepts {
        return RegistrationClosed;
      }
      r := Admit(Literals(d));
      if !r.Registered? {
        return;
      }
      nextID := nextID + 1;
      Enlist(Record(nextID, owner, Literals(d)));
    }

    /** Enters a record whose literals are free under its fresh id. */
    method Enlist(record: Record)
      requires Consistent(byName, byID) && (forall n | n in byName :: ValidName(n) && n !in reserved)
      requires (forall id | id in byID :: 1 <= id < nextID) && record.id == nextID >= 1
      requires Distinct(record.literals)
      requires forall n | n in record.literals :: ValidName(n) && n !in reserved && n !in byName
      modifies this`byName, this`byID
      ensures Valid()
      ensures byID == old(byID)[record.id := record]
      ensures byName == Enlisted(old(byName), record, record.literals)
    {
      EnlistedIsConsistent(byName, byID, record);
      EnlistedKeys(byName, record, reserved);
      hide Consistent, Enlisted, ValidName;
      byID := byID[record.id := record];
      for i := 0 to |record.literals|
        invariant byName == Enlisted(old(byName), record, record.literals[..i])
        invariant byID == old(byID)[record.id := record]
      {
        hide Consistent, Enlisted, ValidName;
        EnlistedStep(old(byName), record, i);
        byName := byName[record.literals[i] := record];
      }
    }

    /** What the registry answers to these literals: the first obstacle in
        order, or the next id. */
    ghost function Admission(literals: seq<Name>): Outcome
      reads this
    {
      FirstObstacle(literals, reserved, byName.Keys, nextID + 1)
    }

    method Admit(literals: seq<Name>) returns (r: Outcome)
      ensures r == Admission(literals)
    {
      for i := 0 to |literals|
        invariant Admission(literals) == FirstObstacle(literals[i..], reserved, byName.Keys, nextID + 1)
      {
        if literals[i] in reserved {
          return ReservedLiteral;
        }
        if literals[i] in byName {
          return Conflict;
        }
        assert literals[i..][1..] == literals[i + 1..];
      }
      return Registered(nextID + 1);
    }

    /** remove, as a registration's Unregister calls it. */
    method Remove(id: nat) returns (removed: bool)
      requires Valid()
      modifies this`byName, this`byID
      ensures Valid()
      ensures removed <==> id in old(byID)
      ensures byID == old(byID) - {id}
      ensures byName == if id in old(byID) then old(byName) - Set(old(byID)[id].literals) else old(byName)
    {
      if id == 0 || id !in byID {
        return false;
      }
      Delete(id);
      return true;
    }

    /** Deletes one record and the literals that still point to it. */
    method Delete(id: nat)
      requires Valid() && id in byID
      modifies this`byName, this`byID
      ensures Valid()
      ensures byID == old(byID) - {id}
      ensures byName == old(byName) - Set(old(byID)[id].literals)
      ensures byName == Without(old(byName), {id})
    {
      DropIsFilter(byName, byID, id);
      DropIsConsistent(byName, byID, id);
      hide Consistent, ValidName;
      var record := byID[id];
      byID := byID - {id};
      for i := 0 to |record.literals|
        invariant byID == old(byID) - {id}
        invariant byName == old(byName) - Set(record.literals[..i])
      {
        hide Consistent, ValidName;
        DropStep(old(byName), byName, old(byID), id, i);
        var literal := record.literals[i];
        if literal in byName && byName[literal] == record {
          byName := byName - {literal};
        }
      }
      assert record.literals[..|record.literals|] == record.literals;
    }

    lemma IsConsistent()
      requires Valid()
      ensures Consistent(byName, byID)
    {
    }

    /** removeOwner: every record of `owner` goes, in whatever order they are
        visited, and no other record is touched. */
    method RemoveOwner(owner: Owner) returns (removed: nat)
      requires Valid()
      modifies this`byName, this`byID
      ensures Valid() && Free(owner)
      ensures byID == old(byID) - Owned(old(byID), owner)
      ensures byName == OfOthers(old(byName), owner)
      ensures removed == |Owned(old(byID), owner)|
    {
      hide Consistent, Valid, Without, Owned, OfOthers, Swept;
      IsConsistent();
      OwnersAgree(byName, byID, owner);
      ghost var names, ids, owned := byName, byID, Owned(byID, owner);
      SweepStarts(names, ids, owned);
      removed := 0;
      var unseen := byID.Keys;
      while unseen != {}
        invariant Valid() && Swept(names, ids, owned, unseen, byName, byID, removed)
        decreases |unseen|
      {
        hide Consistent, Valid, Without, Owned, OfOthers, Swept;
        var id :| id in unseen;
        SweepSkips(names, ids, owned, unseen, byName, byID, removed, id);
        if byID[id].owner == owner {
          SweepDeletes(names, ids, owned, unseen, byName, byID, removed, id);
          Delete(id);
          removed := removed + 1;
        }
        unseen := unseen - {id};
      }
      SweepEnds(names, ids, owner, byName, byID, removed);
    }

    /** execute up to the handler: `enabled` holds the owners whose enabled flag
        is set when the record is found. */
    method Resolve(name: Name, enabled: set<Owner>, hasSource: bool) returns (r: Resolution)
      requires Valid()
      ensures r.Unhandled? <==> !(name in byName && byName[name].owner in enabled)
      ensures r.NilSource? <==> name in byName && byName[name].owner in enabled && !hasSource
      ensures r.Invoke? ==> r.record.id in byID && byID[r.record.id] == r.record && name in r.record.literals
    {
      if !ValidName(name) {
        assert name !in byName;
        return Unhandled;
      }
      if name !in byName || byName[name].owner !in enabled {
        return Unhandled;
      }
      if !hasSource {
        return NilSource;
      }
      return Invoke(byName[name]);
    }
  }
}
