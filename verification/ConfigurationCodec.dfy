/** The clientbound Configuration payloads RegistryData and UpdateTags: the bytes
    of each as functions of a registry and of a set, when they can be encoded,
    and the append loops that are proved to compute them. */
module ConfigurationCodec {
  import opened Collections
  import opened Streams
  import opened Wire
  import opened NbtValue
  import opened NetworkNbt
  import opened RegistryModel
  import NbtCodec

  /** int32(count) as a VarInt. */
  function Count(n: nat): seq<byte> {
    VarInt(Signed(n % TWO_32, TWO_32))
  }

  lemma CountFits(n: nat)
    requires n <= MAX_INT32
    ensures Count(n) == VarInt(n)
  {
    hide VarInt;
  }

  // ----- RegistryData -----

  ghost function EntryBytes(e: Entry): seq<byte> {
    Text(e.key) + if e.data.Nil? then [0] else [1] + Network(e.data)
  }

  ghost function EntriesBytes(entries: seq<Entry>): seq<byte> {
    if entries == [] then [] else EntryBytes(entries[0]) + EntriesBytes(entries[1..])
  }

  ghost function RegistryData(r: Registry): seq<byte> {
    Text(r.key) + (Count(|r.entries|) + EntriesBytes(r.entries))
  }

  ghost predicate DataOk(e: Entry) {
    e.data.Nil? || Encodable(e.data, 0)
  }

  ghost predicate RegistryDataOk(r: Registry) {
    |r.entries| <= MAX_INT32 && forall e | e in r.entries :: DataOk(e)
  }

  lemma {:induction false} EntriesBytesAppend(entries: seq<Entry>, e: Entry)
    ensures EntriesBytes(entries + [e]) == EntriesBytes(entries) + EntryBytes(e)
  {
    if entries == [] {
      assert (entries + [e])[1..] == [];
    } else {
      assert (entries + [e])[1..] == entries[1..] + [e];
      EntriesBytesAppend(entries[1..], e);
    }
  }

  /** One turn of EncodeRegistryData's loop; `payload` is the writer's buffer. */
  method AppendEntry(payload: Writer, e: Entry) returns (ok: bool)
    requires payload.plan == []
    modifies payload
    ensures ok <==> DataOk(e)
    ensures ok ==> payload.plan == [] && payload.sink == old(payload.sink) + EntryBytes(e)
  {
    hide Network, Encodable, Text;
    var text := AppendString(payload.sink, e.key);
    payload.sink := text;
    if e.data.Nil? {
      payload.sink := payload.sink + [0];
      return true;
    }
    payload.sink := payload.sink + [1];
    ok := NbtCodec.WriteNetwork(payload, e.data);
    if ok {
      assert payload.sink == old(payload.sink) + (Text(e.key) + ([1] + Network(e.data)));
    }
  }

  method EncodeRegistryData(r: Registry) returns (payload: Option<seq<byte>>)
    ensures payload == if RegistryDataOk(r) then Some(RegistryData(r)) else None
  {
    if |r.entries| > MAX_INT32 {
      return None;
    }
    hide DataOk, EntriesBytes, VarInt, Text, Count, RegistryData;
    CountFits(|r.entries|);
    RegistryDataParts(r);
    var head := AppendString([], r.key);
    head := AppendVarInt(head, |r.entries|);
    assert head == Text(r.key) + Count(|r.entries|);
    var w := new Writer([]);
    w.sink := head;
    var ok := AppendEntries(w, r.entries);
    if !ok {
      return None;
    }
    return Some(w.sink);
  }

  lemma RegistryDataParts(r: Registry)
    ensures Text(r.key) + Count(|r.entries|) + EntriesBytes(r.entries) == RegistryData(r)
  {
    hide Text, Count, EntriesBytes;
  }

  lemma NoEntries(entries: seq<Entry>)
    ensures EntriesBytes(entries[..0]) == [] && entries[..|entries|] == entries
  {
  }

  method AppendEntries(payload: Writer, entries: seq<Entry>) returns (ok: bool)
    requires payload.plan == []
    modifies payload
    ensures ok <==> forall e | e in entries :: DataOk(e)
    ensures ok ==> payload.sink == old(payload.sink) + EntriesBytes(entries)
  {
    hide DataOk, EntryBytes, EntriesBytes;
    NoEntries(entries);
    for i := 0 to |entries|
      invariant payload.plan == []
      invariant payload.sink == old(payload.sink) + EntriesBytes(entries[..i])
      invariant forall j | 0 <= j < i :: DataOk(entries[j])
    {
      hide DataOk, EntryBytes, EntriesBytes;
      assert entries[..i + 1] == entries[..i] + [entries[i]];
      EntriesBytesAppend(entries[..i], entries[i]);
      ok := AppendEntry(payload, entries[i]);
      if !ok {
        return;
      }
    }
    assert entries[..|entries|] == entries;
    return true;
  }

  // ----- UpdateTags -----

  /** A tag and a group of tags as they are on the wire, with numeric ids. */
  datatype RawTag = RawTag(key: Identifier, ids: seq<int32>)

  datatype RawTagGroup = RawTagGroup(registry: Identifier, tags: seq<RawTag>)

  function IdsBytes(ids: seq<int32>): seq<byte> {
    if ids == [] then [] else VarInt(ids[0]) + IdsBytes(ids[1..])
  }

  function TagBytes(tag: RawTag): seq<byte> {
    Text(tag.key) + (Count(|tag.ids|) + IdsBytes(tag.ids))
  }

  function TagsBytes(tags: seq<RawTag>): seq<byte> {
    if tags == [] then [] else TagBytes(tags[0]) + TagsBytes(tags[1..])
  }

  function GroupBytes(group: RawTagGroup): seq<byte> {
    Text(group.registry) + (Count(|group.tags|) + TagsBytes(group.tags))
  }

  function GroupsBytes(groups: seq<RawTagGroup>): seq<byte> {
    if groups == [] then [] else GroupBytes(groups[0]) + GroupsBytes(groups[1..])
  }

  function UpdateTags(groups: seq<RawTagGroup>): seq<byte> {
    Count(|groups|) + GroupsBytes(groups)
  }

  /** What NewSet guarantees of every s. */
  ghost predicate Linked(s: Set) {
    && (forall k | k in s.order :: k in s.registries)
    && (forall k | k in s.groups :: s.groups[k].registry == k)
  }

  function IdsFor(r: Registry, entries: seq<Identifier>): seq<int32>
    requires forall e | e in entries :: e in r.ids
  {
    seq(|entries|, i requires 0 <= i < |entries| => r.ids[entries[i]])
  }

  function RawTagOf(r: Registry, tag: Tag): RawTag
    requires forall e | e in tag.entries :: e in r.ids
  {
    RawTag(tag.key, IdsFor(r, tag.entries))
  }

  /** Every entry of the tags has an id. */
  ghost predicate Resolved(r: Registry, tags: seq<Tag>) {
    forall t | t in tags :: forall e | e in t.entries :: e in r.ids
  }

  function RawTagsOf(r: Registry, tags: seq<Tag>): seq<RawTag>
    requires Resolved(r, tags)
  {
    seq(|tags|, i requires 0 <= i < |tags| => RawTagOf(r, tags[i]))
  }

  ghost predicate CountsOk(tags: seq<Tag>) {
    |tags| <= MAX_INT32 && forall t | t in tags :: |t.entries| <= MAX_INT32
  }

  ghost predicate GroupEncodable(r: Registry, group: TagGroup) {
    Resolved(r, group.tags) && CountsOk(group.tags)
  }

  /** The registries of `keys` that have tags, in order. */
  function Tagged(s: Set, keys: seq<Identifier>): seq<Identifier> {
    if keys == [] then []
    else (if keys[0] in s.groups then [keys[0]] else []) + Tagged(s, keys[1..])
  }

  lemma {:induction false} TaggedMembers(s: Set, keys: seq<Identifier>)
    ensures forall k :: k in Tagged(s, keys) <==> k in keys && k in s.groups
    ensures Distinct(keys) ==> Distinct(Tagged(s, keys))
  {
    if keys != [] {
      TaggedMembers(s, keys[1..]);
      assert keys == [keys[0]] + keys[1..];
      if Distinct(keys) {
        assert keys[0] !in keys[1..];
      }
    }
  }

  /** Each of these registries has tags, and they can be encoded. */
  ghost predicate GroupsEncodable(s: Set, keys: seq<Identifier>) {
    forall k | k in keys :: k in s.registries && k in s.groups && GroupEncodable(s.registries[k], s.groups[k])
  }

  ghost predicate UpdateTagsOk(s: Set) {
    |Tagged(s, s.order)| <= MAX_INT32 && GroupsEncodable(s, Tagged(s, s.order))
  }

  /** The raw groups of the tagged registries `keys`. */
  ghost function RawGroupsFor(s: Set, keys: seq<Identifier>): (r: seq<RawTagGroup>)
    requires GroupsEncodable(s, keys)
    ensures |r| == |keys|
  {
    seq(|keys|, i requires 0 <= i < |keys| =>
      RawTagGroup(keys[i], RawTagsOf(s.registries[keys[i]], s.groups[keys[i]].tags)))
  }

  /** The groups of tags that the payload carries: those of the registries, in
      registry order, with each entry as its position in its registry. */
  ghost function RawGroups(s: Set): seq<RawTagGroup>
    requires UpdateTagsOk(s)
  {
    RawGroupsFor(s, Tagged(s, s.order))
  }

  lemma {:induction false} IdsBytesAppend(ids: seq<int32>, id: int32)
    ensures IdsBytes(ids + [id]) == IdsBytes(ids) + VarInt(id)
  {
    if ids == [] {
      assert (ids + [id])[1..] == [];
    } else {
      assert (ids + [id])[1..] == ids[1..] + [id];
      IdsBytesAppend(ids[1..], id);
    }
  }

  lemma {:induction false} TagsBytesAppend(tags: seq<RawTag>, tag: RawTag)
    ensures TagsBytes(tags + [tag]) == TagsBytes(tags) + TagBytes(tag)
  {
    if tags == [] {
      assert (tags + [tag])[1..] == [];
    } else {
      assert (tags + [tag])[1..] == tags[1..] + [tag];
      TagsBytesAppend(tags[1..], tag);
    }
  }

  lemma {:induction false} GroupsBytesAppend(groups: seq<RawTagGroup>, g: RawTagGroup)
    ensures GroupsBytes(groups + [g]) == GroupsBytes(groups) + GroupBytes(g)
  {
    if groups == [] {
      assert (groups + [g])[1..] == [];
    } else {
      assert (groups + [g])[1..] == groups[1..] + [g];
      GroupsBytesAppend(groups[1..], g);
    }
  }

  /** appendCount */
  method AppendCount(dst: seq<byte>, count: nat) returns (r: Option<seq<byte>>)
    ensures r == if count <= MAX_INT32 then Some(dst + Count(count)) else None
  {
    if count > MAX_INT32 {
      return None;
    }
    var b := AppendVarInt(dst, count);
    return Some(b);
  }

  method AppendTag(dst: seq<byte>, r: Registry, tag: Tag) returns (payload: Option<seq<byte>>)
    ensures payload.Some? <==> |tag.entries| <= MAX_INT32 && forall e | e in tag.entries :: e in r.ids
    ensures payload.Some? ==> payload.value == dst + TagBytes(RawTagOf(r, tag))
  {
    hide VarInt, Text, Count;
    var b := AppendString(dst, tag.key);
    var counted := AppendCount(b, |tag.entries|);
    if counted.None? {
      return None;
    }
    b := counted.value;
    ghost var ids: seq<int32> := [];
    for i := 0 to |tag.entries|
      invariant forall e | e in tag.entries[..i] :: e in r.ids
      invariant ids == IdsFor(r, tag.entries[..i])
      invariant b == dst + Text(tag.key) + Count(|tag.entries|) + IdsBytes(ids)
    {
      hide VarInt, Text, Count, IdsBytes;
      var id := EntryID(r, tag.entries[i]);
      if id.None? {
        return None;
      }
      IdsBytesAppend(ids, id.value);
      ids := ids + [id.value];
      b := AppendVarInt(b, id.value);
    }
    assert tag.entries[..|tag.entries|] == tag.entries;
    assert b == dst + TagBytes(RawTagOf(r, tag));
    return Some(b);
  }

  method AppendGroup(dst: seq<byte>, r: Registry, group: TagGroup) returns (payload: Option<seq<byte>>)
    ensures payload.Some? <==> GroupEncodable(r, group)
    ensures payload.Some? ==> payload.value == dst + GroupBytes(RawTagGroup(group.registry, RawTagsOf(r, group.tags)))
  {
    hide Text, Count, TagBytes;
    var b := AppendString(dst, group.registry);
    var counted := AppendCount(b, |group.tags|);
    if counted.None? {
      return None;
    }
    b := counted.value;
    ghost var raw: seq<RawTag> := [];
    for i := 0 to |group.tags|
      invariant Resolved(r, group.tags[..i]) && forall t | t in group.tags[..i] :: |t.entries| <= MAX_INT32
      invariant raw == RawTagsOf(r, group.tags[..i])
      invariant b == dst + Text(group.registry) + Count(|group.tags|) + TagsBytes(raw)
    {
      hide Text, Count, TagBytes, TagsBytes;
      var tag := group.tags[i];
      var next := AppendTag(b, r, tag);
      if next.None? {
        return None;
      }
      TagsBytesAppend(raw, RawTagOf(r, tag));
      raw := raw + [RawTagOf(r, tag)];
      b := next.value;
    }
    assert group.tags[..|group.tags|] == group.tags;
    assert b == dst + GroupBytes(RawTagGroup(group.registry, RawTagsOf(r, group.tags)));
    return Some(b);
  }

  lemma {:induction false} TaggedAppend(s: Set, keys: seq<Identifier>, k: Identifier)
    ensures Tagged(s, keys + [k]) == Tagged(s, keys) + if k in s.groups then [k] else []
  {
    if keys == [] {
      assert (keys + [k])[1..] == [];
    } else {
      assert (keys + [k])[1..] == keys[1..] + [k];
      TaggedAppend(s, keys[1..], k);
    }
  }

  lemma RawGroupsAppend(s: Set, keys: seq<Identifier>, k: Identifier)
    requires GroupsEncodable(s, keys)
    requires k in s.registries && k in s.groups && s.groups[k].registry == k && GroupEncodable(s.registries[k], s.groups[k])
    ensures GroupsEncodable(s, keys + [k])
    ensures GroupsBytes(RawGroupsFor(s, keys + [k]))
         == GroupsBytes(RawGroupsFor(s, keys)) + GroupBytes(RawTagGroup(k, RawTagsOf(s.registries[k], s.groups[k].tags)))
  {
    hide RawTagsOf, GroupBytes, GroupsBytes;
    var g := RawTagGroup(k, RawTagsOf(s.registries[k], s.groups[k].tags));
    GroupsBytesAppend(RawGroupsFor(s, keys), g);
    assert RawGroupsFor(s, keys + [k]) == RawGroupsFor(s, keys) + [g];
  }

  lemma NotEncodable(s: Set, keys: seq<Identifier>, k: Identifier)
    requires k in keys && k in s.registries && k in s.groups && !GroupEncodable(s.registries[k], s.groups[k])
    ensures !GroupsEncodable(s, keys)
  {
    hide GroupEncodable;
  }

  /** The first loop of EncodeUpdateTags. */
  method CountGroups(s: Set) returns (count: nat)
    ensures count == |Tagged(s, s.order)|
  {
    count := 0;
    for i := 0 to |s.order|
      invariant count == |Tagged(s, s.order[..i])|
    {
      hide Tagged;
      assert s.order[..i + 1] == s.order[..i] + [s.order[i]];
      TaggedAppend(s, s.order[..i], s.order[i]);
      if s.order[i] in s.groups {
        count := count + 1;
      }
    }
    assert s.order[..|s.order|] == s.order;
  }

  method EncodeUpdateTags(s: Set) returns (payload: Option<seq<byte>>)
    requires Linked(s)
    ensures payload == if UpdateTagsOk(s) then Some(UpdateTags(RawGroups(s))) else None
  {
    hide GroupsEncodable, Tagged, RawGroupsFor, Linked, Count, GroupsBytes;
    var groupCount := CountGroups(s);
    var counted := AppendCount([], groupCount);
    if counted.None? {
      return None;
    }
    payload := AppendGroups(counted.value, s);
    if payload.Some? {
      assert counted.value == Count(|RawGroups(s)|);
    }
  }

  lemma NothingTagged(s: Set)
    ensures Tagged(s, s.order[..0]) == [] && GroupsEncodable(s, []) && GroupsBytes(RawGroupsFor(s, [])) == []
    ensures s.order[..|s.order|] == s.order
  {
  }

  /** The second loop of EncodeUpdateTags. */
  method AppendGroups(dst: seq<byte>, s: Set) returns (payload: Option<seq<byte>>)
    requires Linked(s)
    ensures payload.Some? <==> GroupsEncodable(s, Tagged(s, s.order))
    ensures payload.Some? ==> payload.value == dst + GroupsBytes(RawGroupsFor(s, Tagged(s, s.order)))
  {
    hide Tagged, GroupEncodable, GroupBytes, GroupsBytes, RawTagsOf, RawGroupsFor;
    TaggedMembers(s, s.order);
    NothingTagged(s);
    var b := dst;
    ghost var done: seq<Identifier> := [];
    for i := 0 to |s.order|
      invariant done == Tagged(s, s.order[..i]) && GroupsEncodable(s, done)
      invariant b == dst + GroupsBytes(RawGroupsFor(s, done))
    {
      hide Tagged, GroupEncodable, GroupBytes, GroupsBytes, RawTagsOf, RawGroupsFor, GroupsEncodable;
      var k := s.order[i];
      assert s.order[..i + 1] == s.order[..i] + [k];
      TaggedAppend(s, s.order[..i], k);
      if k in s.groups {
        var next := AppendGroup(b, s.registries[k], s.groups[k]);
        if next.None? {
          NotEncodable(s, Tagged(s, s.order), k);
          return None;
        }
        RawGroupsAppend(s, done, k);
        done := done + [k];
        b := next.value;
      }
    }
    return Some(b);
  }
}
