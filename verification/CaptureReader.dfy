/** The loops that decode captured Configuration payloads, proved against the
    recursive parsers of CaptureCodec.

    A loop over a list has read some items and has some to go; Following says
    what the whole parse is in terms of the two, and stays the same from one turn
    to the next. The second half of the module shows that what is decoded is
    well formed: keys are valid and distinct, so that the checks that NewRegistry
    repeats cannot fail, and everything can be encoded again. */
module CaptureReader {
  import opened Collections
  import opened Streams
  import opened Wire
  import opened NbtValue
  import opened NetworkNbt
  import opened RegistryModel
  import opened ConfigurationCodec
  import opened CaptureCodec
  import NbtCodec

  method ReadCount(r: Reader) returns (p: Parse<nat>)
    requires r.Valid()
    modifies r
    ensures r.Valid()
    ensures p == TakeCount(old(r.Remaining()))
    ensures p.Done? ==> r.Remaining() == p.rest
  {
    hide TakeVarInt;
    var n := ReadVarInt(r);
    if n.Fail? || n.value < 0 || n.value > MAX_ENTRIES {
      return Fail;
    }
    return Done(n.value, n.rest);
  }

  /** Reads a string, checks that it is an identifier and that it is new. */
  method ReadKey(r: Reader, seen: set<Identifier>) returns (p: Parse<Identifier>)
    requires r.Valid()
    modifies r
    ensures r.Valid()
    ensures p == TakeKey(old(r.Remaining()), seen)
    ensures p.Done? ==> r.Remaining() == p.rest
  {
    hide TakeText, ValidIdentifier;
    p := ReadString(r, MAX_STRING);
    if p.Fail? || !ValidIdentifier(p.value) || p.value in seen {
      return Fail;
    }
  }

  method ReadData(r: Reader, requireData: bool) returns (p: Parse<Value>)
    requires r.Valid()
    modifies r
    ensures r.Valid()
    ensures p == TakeData(old(r.Remaining()), requireData)
    ensures p.Done? ==> r.Remaining() == p.rest
  {
    hide DecodeNetwork;
    var present := r.ReadByte();
    if present.Fail? || (present.value != 0 && present.value != 1) {
      return Fail;
    }
    if present.value == 1 {
      p := NbtCodec.ReadNetwork(r);
    } else if requireData {
      p := Fail;
    } else {
      p := Done(Nil, present.rest);
    }
  }

  /** A parse that has read `done` and goes on with `more`. */
  ghost function Following<T>(done: seq<T>, more: Parse<seq<T>>): Parse<seq<T>> {
    if more.Fail? then Fail else Done(done + more.value, more.rest)
  }

  lemma FollowingFacts<T>(done: seq<T>, p: Parse<seq<T>>, rest: seq<byte>)
    ensures Following([], p) == p && Following(done, Fail) == Fail && Following(done, Done([], rest)) == Done(done, rest)
  {
    if p.Done? {
      assert [] + p.value == p.value;
    }
    assert done + [] == done;
  }

  lemma FollowingOne<T>(done: seq<T>, x: T, more: Parse<seq<T>>)
    ensures Following(done + [x], more) == Following(done, Prefixed(x, more))
    ensures Following(done, Fail) == Fail
  {
    if more.Done? {
      assert done + [x] + more.value == done + ([x] + more.value);
    }
  }

  method ReadEntry(r: Reader, requireData: bool, seen: set<Identifier>) returns (p: Parse<Entry>)
    requires r.Valid()
    modifies r
    ensures r.Valid()
    ensures p == TakeEntry(old(r.Remaining()), requireData, seen)
    ensures p.Done? ==> r.Remaining() == p.rest
  {
    hide TakeKey, TakeData;
    var key := ReadKey(r, seen);
    if key.Fail? {
      return Fail;
    }
    var data := ReadData(r, requireData);
    if data.Fail? {
      return Fail;
    }
    return Done(Entry(key.value, data.value), data.rest);
  }

  method ReadEntries(r: Reader, count: nat, requireData: bool) returns (p: Parse<seq<Entry>>)
    requires r.Valid()
    modifies r
    ensures r.Valid()
    ensures p == TakeEntries(count, old(r.Remaining()), requireData, {})
    ensures p.Done? ==> r.Remaining() == p.rest
  {
    hide TakeEntry, Following, Prefixed;
    var entries: seq<Entry> := [];
    var seen: set<Identifier> := {};
    FollowingFacts(entries, TakeEntries(count, r.Remaining(), requireData, {}), []);
    for i := 0 to count
      invariant r.Valid()
      invariant Following(entries, TakeEntries(count - i, r.Remaining(), requireData, seen))
             == TakeEntries(count, old(r.Remaining()), requireData, {})
    {
      hide TakeEntry, Following, Prefixed;
      var e := ReadEntry(r, requireData, seen);
      if e.Fail? {
        FollowingFacts(entries, Fail, []);
        return Fail;
      }
      FollowingOne(entries, e.value, TakeEntries(count - i - 1, e.rest, requireData, seen + {e.value.key}));
      seen := seen + {e.value.key};
      entries := entries + [e.value];
    }
    FollowingFacts(entries, Fail, r.Remaining());
    return Done(entries, r.Remaining());
  }

  method ReadIds(r: Reader, count: nat) returns (p: Parse<seq<int32>>)
    requires r.Valid()
    modifies r
    ensures r.Valid()
    ensures p == TakeIds(count, old(r.Remaining()))
    ensures p.Done? ==> r.Remaining() == p.rest
  {
    hide TakeVarInt, Following, Prefixed;
    var ids: seq<int32> := [];
    FollowingFacts(ids, TakeIds(count, r.Remaining()), []);
    for i := 0 to count
      invariant r.Valid()
      invariant Following(ids, TakeIds(count - i, r.Remaining())) == TakeIds(count, old(r.Remaining()))
    {
      hide TakeVarInt, Following, Prefixed;
      var id := ReadVarInt(r);
      if id.Fail? || id.value < 0 {
        FollowingFacts(ids, Fail, []);
        return Fail;
      }
      FollowingOne(ids, id.value, TakeIds(count - i - 1, id.rest));
      ids := ids + [id.value];
    }
    FollowingFacts(ids, Fail, r.Remaining());
    return Done(ids, r.Remaining());
  }

  method ReadTag(r: Reader, seen: set<Identifier>) returns (p: Parse<RawTag>)
    requires r.Valid()
    modifies r
    ensures r.Valid()
    ensures p == TakeTag(old(r.Remaining()), seen)
    ensures p.Done? ==> r.Remaining() == p.rest
  {
    hide TakeKey, TakeCount, TakeIds;
    var key := ReadKey(r, seen);
    if key.Fail? {
      return Fail;
    }
    var count := ReadCount(r);
    if count.Fail? {
      return Fail;
    }
    var ids := ReadIds(r, count.value);
    if ids.Fail? {
      return Fail;
    }
    return Done(RawTag(key.value, ids.value), ids.rest);
  }

  method ReadTags(r: Reader, count: nat) returns (p: Parse<seq<RawTag>>)
    requires r.Valid()
    modifies r
    ensures r.Valid()
    ensures p == TakeTags(count, old(r.Remaining()), {})
    ensures p.Done? ==> r.Remaining() == p.rest
  {
    hide TakeTag, Following, Prefixed;
    var tags: seq<RawTag> := [];
    var seen: set<Identifier> := {};
    FollowingFacts(tags, TakeTags(count, r.Remaining(), {}), []);
    for i := 0 to count
      invariant r.Valid()
      invariant Following(tags, TakeTags(count - i, r.Remaining(), seen)) == TakeTags(count, old(r.Remaining()), {})
    {
      hide TakeTag, Following, Prefixed;
      var tag := ReadTag(r, seen);
      if tag.Fail? {
        FollowingFacts(tags, Fail, []);
        return Fail;
      }
      FollowingOne(tags, tag.value, TakeTags(count - i - 1, tag.rest, seen + {tag.value.key}));
      seen := seen + {tag.value.key};
      tags := tags + [tag.value];
    }
    FollowingFacts(tags, Fail, r.Remaining());
    return Done(tags, r.Remaining());
  }

  method ReadGroup(r: Reader, seen: set<Identifier>) returns (p: Parse<RawTagGroup>)
    requires r.Valid()
    modifies r
    ensures r.Valid()
    ensures p == TakeGroup(old(r.Remaining()), seen)
    ensures p.Done? ==> r.Remaining() == p.rest
  {
    hide TakeKey, TakeCount, TakeTags;
    var key := ReadKey(r, seen);
    if key.Fail? {
      return Fail;
    }
    var count := ReadCount(r);
    if count.Fail? || count.value == 0 {
      return Fail;
    }
    var tags := ReadTags(r, count.value);
    if tags.Fail? {
      return Fail;
    }
    return Done(RawTagGroup(key.value, tags.value), tags.rest);
  }

  method ReadGroups(r: Reader, count: nat) returns (p: Parse<seq<RawTagGroup>>)
    requires r.Valid()
    modifies r
    ensures r.Valid()
    ensures p == TakeGroups(count, old(r.Remaining()), {})
    ensures p.Done? ==> r.Remaining() == p.rest
  {
    hide TakeGroup, Following, Prefixed;
    var groups: seq<RawTagGroup> := [];
    var seen: set<Identifier> := {};
    FollowingFacts(groups, TakeGroups(count, r.Remaining(), {}), []);
    for i := 0 to count
      invariant r.Valid()
      invariant Following(groups, TakeGroups(count - i, r.Remaining(), seen)) == TakeGroups(count, old(r.Remaining()), {})
    {
      hide TakeGroup, Following, Prefixed;
      var group := ReadGroup(r, seen);
      if group.Fail? {
        FollowingFacts(groups, Fail, []);
        return Fail;
      }
      FollowingOne(groups, group.value, TakeGroups(count - i - 1, group.rest, seen + {group.value.registry}));
      seen := seen + {group.value.registry};
      groups := groups + [group.value];
    }
    FollowingFacts(groups, Fail, r.Remaining());
    return Done(groups, r.Remaining());
  }

  /** DecodeUpdateTags */
  method ReadUpdateTags(payload: seq<byte>) returns (groups: Option<seq<RawTagGroup>>)
    ensures groups == DecodeUpdateTags(payload)
  {
    hide TakeCount, TakeGroups;
    var buf := new Reader(payload);
    var count := ReadCount(buf);
    if count.Fail? {
      return None;
    }
    var all := ReadGroups(buf, count.value);
    if all.Fail? || |buf.Remaining()| != 0 {
      return None;
    }
    return Some(all.value);
  }

  // ----- what is decoded is well formed -----

  lemma NoKeys()
    ensures Distinct(Keys([])) && Distinct(RawKeys([])) && Distinct(RawGroupKeys([]))
  {
  }

  /** What is known of an entry that was read. */
  ghost predicate EntryTaken(e: Entry, requireData: bool, seen: set<Identifier>) {
    ValidIdentifier(e.key) && e.key !in seen && EntryFits(e, requireData) && DataOk(e)
  }

  lemma TakenEntryOk(b: seq<byte>, requireData: bool, seen: set<Identifier>)
    requires TakeEntry(b, requireData, seen).Done?
    ensures EntryTaken(TakeEntry(b, requireData, seen).value, requireData, seen)
  {
    hide ValidIdentifier, DecodeNetwork;
    var key := TakeKey(b, seen);
    var present := Take8(key.rest);
    if present.value == 1 {
      DecodableIsEncodable(present.rest, []);
    }
  }

  /** Decoded keys are valid, new and distinct, so that NewRegistry's own checks
      never fail on them. */
  lemma {:induction false} TakenEntriesOk(n: nat, b: seq<byte>, requireData: bool, seen: set<Identifier>)
    requires TakeEntries(n, b, requireData, seen).Done?
    ensures var es := TakeEntries(n, b, requireData, seen).value;
      |es| == n && Distinct(Keys(es)) && forall e | e in es :: EntryTaken(e, requireData, seen)
    decreases n
  {
    hide EntryTaken, TakeEntry, Distinct;
    NoKeys();
    if n > 0 {
      var e := TakeEntry(b, requireData, seen);
      TakenEntryOk(b, requireData, seen);
      TakenEntriesOk(n - 1, e.rest, requireData, seen + {e.value.key});
      DistinctKeys(e.value, TakeEntries(n - 1, e.rest, requireData, seen + {e.value.key}).value, requireData, seen);
    }
  }

  lemma DistinctKeys(e: Entry, rest: seq<Entry>, requireData: bool, seen: set<Identifier>)
    requires EntryTaken(e, requireData, seen) && Distinct(Keys(rest))
    requires forall x | x in rest :: EntryTaken(x, requireData, seen + {e.key})
    ensures Distinct(Keys([e] + rest)) && forall x | x in [e] + rest :: EntryTaken(x, requireData, seen)
  {
    hide ValidIdentifier, DataOk, EntryFits;
    assert Keys([e] + rest) == [e.key] + Keys(rest);
    forall i | 0 <= i < |rest| ensures rest[i].key != e.key && EntryTaken(rest[i], requireData, seen) {
      assert rest[i] in rest;
    }
  }

  /** What DecodeRegistryData accepts can be encoded, and is within the bounds
      under which encoding it and decoding it again gives it back. */
  lemma DecodedRegistryReencodes(payload: seq<byte>, requireData: bool)
    requires DecodeRegistryData(payload, requireData).Some?
    ensures var r := DecodeRegistryData(payload, requireData).value;
      && WellFormed(r) && RegistryDataOk(r)
      && DecodeRegistryData(RegistryData(r), requireData) == Some(r)
  {
    hide ValidIdentifier, TakeEntries, TakeCount, DataOk, RegistryData;
    var key := TakeKey(payload, {});
    var count := TakeCount(key.rest);
    TakenEntriesOk(count.value, count.rest, requireData, {});
    var r := DecodeRegistryData(payload, requireData).value;
    assert forall i | 0 <= i < |r.entries| :: r.entries[i] in r.entries;
    RegistryDataRoundTrip(r, requireData);
  }

  lemma TakenKeyIsValid(b: seq<byte>, seen: set<Identifier>)
    ensures TakeKey(b, seen).Done? ==> ValidIdentifier(TakeKey(b, seen).value)
  {
    hide ValidIdentifier, TakeText;
  }

  /** DecodeRegistryData */
  method ReadRegistryData(payload: seq<byte>, requireData: bool) returns (r: Option<Registry>)
    ensures r == DecodeRegistryData(payload, requireData)
  {
    hide ValidIdentifier, TakeKey, TakeCount, TakeEntries;
    var buf := new Reader(payload);
    var key := ReadKey(buf, {});
    if key.Fail? {
      return None;
    }
    var count := ReadCount(buf);
    if count.Fail? {
      return None;
    }
    var entries := ReadEntries(buf, count.value, requireData);
    if entries.Fail? || |buf.Remaining()| != 0 {
      return None;
    }
    TakenEntriesOk(count.value, count.rest, requireData, {});
    TakenKeyIsValid(payload, {});
    assert forall i | 0 <= i < |entries.value| :: entries.value[i] in entries.value;
    r := NewRegistry(key.value, entries.value);
  }

  lemma {:induction false} TakenIdsOk(n: nat, b: seq<byte>)
    requires TakeIds(n, b).Done?
    ensures |TakeIds(n, b).value| == n && NonNegative(TakeIds(n, b).value)
    decreases n
  {
    hide TakeVarInt;
    if n > 0 {
      TakenIdsOk(n - 1, TakeVarInt(b).rest);
    }
  }

  ghost predicate TagTaken(t: RawTag, seen: set<Identifier>) {
    ValidIdentifier(t.key) && t.key !in seen && TagFits(t)
  }

  lemma TakenTagOk(b: seq<byte>, seen: set<Identifier>)
    requires TakeTag(b, seen).Done?
    ensures TagTaken(TakeTag(b, seen).value, seen)
  {
    hide ValidIdentifier, TakeText, TakeIds, NonNegative;
    var count := TakeCount(TakeKey(b, seen).rest);
    TakenIdsOk(count.value, count.rest);
  }

  lemma {:induction false} TakenTagsOk(n: nat, b: seq<byte>, seen: set<Identifier>)
    requires TakeTags(n, b, seen).Done?
    ensures var tags := TakeTags(n, b, seen).value;
      |tags| == n && Distinct(RawKeys(tags)) && forall t | t in tags :: TagTaken(t, seen)
    decreases n
  {
    hide TagTaken, TakeTag, Distinct;
    NoKeys();
    if n > 0 {
      var t := TakeTag(b, seen);
      TakenTagOk(b, seen);
      TakenTagsOk(n - 1, t.rest, seen + {t.value.key});
      DistinctTags(t.value, TakeTags(n - 1, t.rest, seen + {t.value.key}).value, seen);
    }
  }

  lemma DistinctTags(t: RawTag, rest: seq<RawTag>, seen: set<Identifier>)
    requires TagTaken(t, seen) && Distinct(RawKeys(rest))
    requires forall x | x in rest :: TagTaken(x, seen + {t.key})
    ensures Distinct(RawKeys([t] + rest)) && forall x | x in [t] + rest :: TagTaken(x, seen)
  {
    hide ValidIdentifier, TagFits;
    assert RawKeys([t] + rest) == [t.key] + RawKeys(rest);
    forall i | 0 <= i < |rest| ensures rest[i].key != t.key && TagTaken(rest[i], seen) {
      assert rest[i] in rest;
    }
  }

  ghost predicate GroupTaken(g: RawTagGroup, seen: set<Identifier>) {
    GroupWellFormed(g) && g.registry !in seen && GroupFits(g)
  }

  lemma TakenGroupOk(b: seq<byte>, seen: set<Identifier>)
    requires TakeGroup(b, seen).Done?
    ensures GroupTaken(TakeGroup(b, seen).value, seen)
  {
    hide ValidIdentifier, TakeText, TakeTags, NonNegative;
    var count := TakeCount(TakeKey(b, seen).rest);
    TakenTagsOk(count.value, count.rest, {});
  }

  lemma {:induction false} TakenGroupsOk(n: nat, b: seq<byte>, seen: set<Identifier>)
    requires TakeGroups(n, b, seen).Done?
    ensures var groups := TakeGroups(n, b, seen).value;
      |groups| == n && Distinct(RawGroupKeys(groups)) && forall g | g in groups :: GroupTaken(g, seen)
    decreases n
  {
    hide GroupTaken, TakeGroup, Distinct;
    NoKeys();
    if n > 0 {
      var g := TakeGroup(b, seen);
      TakenGroupOk(b, seen);
      TakenGroupsOk(n - 1, g.rest, seen + {g.value.registry});
      DistinctGroups(g.value, TakeGroups(n - 1, g.rest, seen + {g.value.registry}).value, seen);
    }
  }

  lemma DistinctGroups(g: RawTagGroup, rest: seq<RawTagGroup>, seen: set<Identifier>)
    requires GroupTaken(g, seen) && Distinct(RawGroupKeys(rest))
    requires forall x | x in rest :: GroupTaken(x, seen + {g.registry})
    ensures Distinct(RawGroupKeys([g] + rest)) && forall x | x in [g] + rest :: GroupTaken(x, seen)
  {
    hide GroupWellFormed, GroupFits;
    assert RawGroupKeys([g] + rest) == [g.registry] + RawGroupKeys(rest);
    forall i | 0 <= i < |rest| ensures rest[i].registry != g.registry && GroupTaken(rest[i], seen) {
      assert rest[i] in rest;
    }
  }

  /** What DecodeUpdateTags accepts is well formed and within its own bounds, so
      that encoding it and decoding it again gives it back. */
  lemma DecodedTagsReencode(payload: seq<byte>)
    requires DecodeUpdateTags(payload).Some?
    ensures var groups := DecodeUpdateTags(payload).value;
      && GroupsWellFormed(groups) && GroupsFit(groups) && |groups| <= MAX_ENTRIES
      && DecodeUpdateTags(UpdateTags(groups)) == Some(groups)
  {
    hide TakeGroups, TakeCount, GroupWellFormed, GroupFits, UpdateTags, Distinct;
    var count := TakeCount(payload);
    TakenGroupsOk(count.value, count.rest, {});
    RawGroupsRoundTrip(DecodeUpdateTags(payload).value);
  }
}
