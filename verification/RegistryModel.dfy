/** Ordered registries, resolved tags, and the self-consistent set of both. */
module RegistryModel {
  import opened Collections
  import opened Streams
  import opened NbtValue

  /** The bytes of a Go string. */
  type Identifier = seq<byte>

  predicate NamespaceByte(c: byte) {
    'a' as int <= c <= 'z' as int || '0' as int <= c <= '9' as int
    || c == '_' as int || c == '-' as int || c == '.' as int
  }

  predicate PathByte(c: byte) {
    NamespaceByte(c) || c == '/' as int
  }

  /** ParseIdentifier: namespace:path, both non-empty, with one colon. */
  predicate ValidIdentifier(s: Identifier) {
    exists colon | 0 < colon < |s| - 1 ::
      && s[colon] == ':' as int
      && (forall i | 0 <= i < colon :: NamespaceByte(s[i]))
      && (forall i | colon < i < |s| :: PathByte(s[i]))
  }

  /** A nil payload is the value Nil. */
  datatype Entry = Entry(key: Identifier, data: Value)

  datatype Registry = Registry(key: Identifier, entries: seq<Entry>, ids: map<Identifier, int32>)

  function Keys(entries: seq<Entry>): (keys: seq<Identifier>)
    ensures |keys| == |entries| && forall i | 0 <= i < |keys| :: keys[i] == entries[i].key
  {
    seq(|entries|, i requires 0 <= i < |entries| => entries[i].key)
  }

  /** Go's int32(index): positions from 2^31 on wrap. */
  function Position(i: nat): int32 {
    Signed(i % TWO_32, TWO_32)
  }

  function IdsOf(keys: seq<Identifier>): map<Identifier, int32> {
    if keys == [] then map[]
    else IdsOf(keys[..|keys| - 1])[keys[|keys| - 1] := Position(|keys| - 1)]
  }

  lemma {:induction false} IdsArePositions(keys: seq<Identifier>)
    requires Distinct(keys)
    ensures forall k :: k in IdsOf(keys) <==> k in keys
    ensures forall i | 0 <= i < |keys| :: IdsOf(keys)[keys[i]] == Position(i)
  {
    if keys != [] {
      var n := |keys| - 1;
      IdsArePositions(keys[..n]);
      assert forall i | 0 <= i < n :: keys[i] == keys[..n][i];
    }
  }

  ghost predicate RegistryOk(key: Identifier, entries: seq<Entry>) {
    && ValidIdentifier(key)
    && (forall i | 0 <= i < |entries| :: ValidIdentifier(entries[i].key))
    && Distinct(Keys(entries))
  }

  function MakeRegistry(key: Identifier, entries: seq<Entry>): Registry {
    Registry(key, entries, IdsOf(Keys(entries)))
  }

  /** A registry that NewRegistry can return. */
  ghost predicate WellFormed(r: Registry) {
    RegistryOk(r.key, r.entries) && r == MakeRegistry(r.key, r.entries)
  }

  function EntryID(r: Registry, key: Identifier): Option<int32> {
    if key in r.ids then Some(r.ids[key]) else None
  }

  lemma PositionFits(i: nat)
    requires i <= MAX_INT32
    ensures Position(i) == i
  {
  }

  /** Position and id are inverse to each other, while positions fit an int32. */
  lemma EntryIDInvertsPosition(r: Registry, key: Identifier, id: int32)
    requires WellFormed(r) && |r.entries| <= MAX_INT32 + 1
    ensures EntryID(r, key) == Some(id) <==> 0 <= id < |r.entries| && r.entries[id].key == key
  {
    var keys := Keys(r.entries);
    IdsArePositions(keys);
    hide ValidIdentifier, IdsOf, Position;
    forall i | 0 <= i < |keys| ensures Position(i) == i {
      PositionFits(i);
    }
    if EntryID(r, key) == Some(id) {
      var i :| 0 <= i < |keys| && keys[i] == key;
    }
  }

  method NewRegistry(key: Identifier, entries: seq<Entry>) returns (r: Option<Registry>)
    ensures r == if RegistryOk(key, entries) then Some(MakeRegistry(key, entries)) else None
  {
    if !ValidIdentifier(key) {
      return None;
    }
    hide Distinct, IdsOf;
    ghost var keys := Keys(entries);
    DistinctStarts(keys);
    NoIds(keys);
    var ids: map<Identifier, int32> := map[];
    for index := 0 to |entries|
      invariant Distinct(keys[..index]) && ids == IdsOf(keys[..index])
      invariant forall i | 0 <= i < index :: ValidIdentifier(entries[i].key)
    {
      hide ValidIdentifier, Distinct, IdsOf;
      var k := entries[index].key;
      NextId(keys, index);
      DistinctSoFar(keys, index);
      if !ValidIdentifier(k) {
        return None;
      }
      if k in ids {
        return None;
      }
      ids := ids[k := Position(index)];
    }
    return Some(Registry(key, entries, ids));
  }

  lemma NoIds(keys: seq<Identifier>)
    ensures IdsOf(keys[..0]) == map[]
  {
  }

  lemma NextId(keys: seq<Identifier>, i: nat)
    requires i < |keys| && Distinct(keys[..i])
    ensures keys[i] in IdsOf(keys[..i]) <==> keys[i] in keys[..i]
    ensures IdsOf(keys[..i + 1]) == IdsOf(keys[..i])[keys[i] := Position(i)]
  {
    IdsArePositions(keys[..i]);
    assert keys[..i + 1][..i] == keys[..i];
  }

  // ----- sets -----

  datatype Tag = Tag(key: Identifier, entries: seq<Identifier>)

  datatype TagGroup = TagGroup(registry: Identifier, tags: seq<Tag>)

  datatype Set = Set(registries: map<Identifier, Registry>, order: seq<Identifier>, groups: map<Identifier, TagGroup>)

  function RegistryKeys(registries: seq<Registry>): (keys: seq<Identifier>)
    ensures |keys| == |registries| && forall i | 0 <= i < |keys| :: keys[i] == registries[i].key
  {
    seq(|registries|, i requires 0 <= i < |registries| => registries[i].key)
  }

  function GroupKeys(groups: seq<TagGroup>): (keys: seq<Identifier>)
    ensures |keys| == |groups| && forall i | 0 <= i < |keys| :: keys[i] == groups[i].registry
  {
    seq(|groups|, i requires 0 <= i < |groups| => groups[i].registry)
  }

  function TagKeys(tags: seq<Tag>): (keys: seq<Identifier>)
    ensures |keys| == |tags| && forall i | 0 <= i < |keys| :: keys[i] == tags[i].key
  {
    seq(|tags|, i requires 0 <= i < |tags| => tags[i].key)
  }

  ghost predicate TagOk(r: Registry, tag: Tag) {
    ValidIdentifier(tag.key) && Distinct(tag.entries) && forall e | e in tag.entries :: e in r.ids
  }

  ghost predicate TagsOk(r: Registry, tags: seq<Tag>) {
    (forall tag | tag in tags :: TagOk(r, tag)) && Distinct(TagKeys(tags))
  }

  ghost predicate GroupOk(registries: map<Identifier, Registry>, group: TagGroup) {
    && ValidIdentifier(group.registry) && group.registry in registries
    && TagsOk(registries[group.registry], group.tags)
  }

  function ByKey(registries: seq<Registry>): map<Identifier, Registry> {
    if registries == [] then map[]
    else
      var last := registries[|registries| - 1];
      ByKey(registries[..|registries| - 1])[last.key := last]
  }

  function GroupsByKey(groups: seq<TagGroup>): map<Identifier, TagGroup> {
    if groups == [] then map[]
    else
      var last := groups[|groups| - 1];
      GroupsByKey(groups[..|groups| - 1])[last.registry := last]
  }

  lemma {:induction false} ByKeyFinds(registries: seq<Registry>)
    requires Distinct(RegistryKeys(registries))
    ensures forall k :: k in ByKey(registries) <==> k in RegistryKeys(registries)
    ensures forall i | 0 <= i < |registries| :: ByKey(registries)[registries[i].key] == registries[i]
  {
    if registries != [] {
      var n := |registries| - 1;
      var keys := RegistryKeys(registries);
      DistinctLast(keys);
      hide Distinct;
      assert RegistryKeys(registries[..n]) == keys[..n];
      ByKeyFinds(registries[..n]);
      forall i | 0 <= i < n ensures ByKey(registries)[registries[i].key] == registries[i] {
        assert keys[i] != keys[n];
        assert registries[..n][i] == registries[i];
      }
    }
  }

  lemma {:induction false} GroupsByKeyFinds(groups: seq<TagGroup>)
    requires Distinct(GroupKeys(groups))
    ensures forall k :: k in GroupsByKey(groups) <==> k in GroupKeys(groups)
    ensures forall i | 0 <= i < |groups| :: GroupsByKey(groups)[groups[i].registry] == groups[i]
  {
    if groups != [] {
      var n := |groups| - 1;
      var keys := GroupKeys(groups);
      DistinctLast(keys);
      hide Distinct;
      assert GroupKeys(groups[..n]) == keys[..n];
      GroupsByKeyFinds(groups[..n]);
      forall i | 0 <= i < n ensures GroupsByKey(groups)[groups[i].registry] == groups[i] {
        assert keys[i] != keys[n];
        assert groups[..n][i] == groups[i];
      }
    }
  }

  ghost predicate SetOk(registries: seq<Registry>, groups: seq<TagGroup>) {
    && Distinct(RegistryKeys(registries))
    && Distinct(GroupKeys(groups))
    && (forall g | g in groups :: GroupOk(ByKey(registries), g))
  }

  function MakeSet(registries: seq<Registry>, groups: seq<TagGroup>): Set {
    Set(ByKey(registries), RegistryKeys(registries), GroupsByKey(groups))
  }

  /** The inner loops of addTagGroup, for one tag. */
  method CheckTag(r: Registry, tag: Tag) returns (ok: bool)
    ensures ok <==> TagOk(r, tag)
  {
    if !ValidIdentifier(tag.key) {
      return false;
    }
    hide ValidIdentifier, Distinct;
    DistinctStarts(tag.entries);
    var seen: set<Identifier> := {};
    for i := 0 to |tag.entries|
      invariant forall e :: e in seen <==> e in tag.entries[..i]
      invariant Distinct(tag.entries[..i]) && forall e | e in tag.entries[..i] :: e in r.ids
    {
      hide ValidIdentifier, Distinct;
      var e := tag.entries[i];
      DistinctSoFar(tag.entries, i);
      if e in seen {
        return false;
      }
      seen := seen + {e};
      if e !in r.ids {
        return false;
      }
    }
    return true;
  }

  method CheckTags(r: Registry, tags: seq<Tag>) returns (ok: bool)
    ensures ok <==> TagsOk(r, tags)
  {
    hide TagOk, Distinct;
    ghost var keys := TagKeys(tags);
    DistinctStarts(keys);
    var seen: set<Identifier> := {};
    for i := 0 to |tags|
      invariant forall k :: k in seen <==> k in keys[..i]
      invariant Distinct(keys[..i]) && forall j | 0 <= j < i :: TagOk(r, tags[j])
    {
      hide TagOk, Distinct;
      var k := tags[i].key;
      DistinctSoFar(keys, i);
      if k in seen {
        return false;
      }
      seen := seen + {k};
      var good := CheckTag(r, tags[i]);
      if !good {
        return false;
      }
    }
    return true;
  }

  method NewSet(registries: seq<Registry>, groups: seq<TagGroup>) returns (r: Option<Set>)
    ensures r == if SetOk(registries, groups) then Some(MakeSet(registries, groups)) else None
  {
    var distinct, byKey := IndexRegistries(registries);
    if !distinct {
      return None;
    }
    hide GroupOk, Distinct, GroupsByKey, ByKey;
    ghost var keys := GroupKeys(groups);
    DistinctStarts(keys);
    NothingByKey(registries, groups);
    var added: map<Identifier, TagGroup> := map[];
    for i := 0 to |groups|
      invariant Distinct(keys[..i]) && added == GroupsByKey(groups[..i])
      invariant forall j | 0 <= j < i :: GroupOk(byKey, groups[j])
    {
      hide GroupOk, Distinct, GroupsByKey, ByKey;
      var g := groups[i];
      NextGroup(groups, i);
      DistinctSoFar(keys, i);
      var ok := CheckGroup(byKey, g);
      if !ok {
        return None;
      }
      if g.registry in added {
        return None;
      }
      added := added[g.registry := g];
    }
    assert groups[..|groups|] == groups;
    return Some(Set(byKey, RegistryKeys(registries), added));
  }

  lemma NothingByKey(registries: seq<Registry>, groups: seq<TagGroup>)
    ensures ByKey(registries[..0]) == map[] && GroupsByKey(groups[..0]) == map[]
    ensures registries[..|registries|] == registries && groups[..|groups|] == groups
  {
  }

  lemma NextGroup(groups: seq<TagGroup>, i: nat)
    requires i < |groups| && Distinct(GroupKeys(groups)[..i])
    ensures groups[i].registry in GroupsByKey(groups[..i]) <==> groups[i].registry in GroupKeys(groups)[..i]
    ensures GroupsByKey(groups[..i + 1]) == GroupsByKey(groups[..i])[groups[i].registry := groups[i]]
  {
    assert GroupKeys(groups[..i]) == GroupKeys(groups)[..i];
    GroupsByKeyFinds(groups[..i]);
    assert groups[..i + 1][..i] == groups[..i];
  }

  lemma NextRegistry(registries: seq<Registry>, i: nat)
    requires i < |registries| && Distinct(RegistryKeys(registries)[..i])
    ensures registries[i].key in ByKey(registries[..i]) <==> registries[i].key in RegistryKeys(registries)[..i]
    ensures ByKey(registries[..i + 1]) == ByKey(registries[..i])[registries[i].key := registries[i]]
  {
    assert RegistryKeys(registries[..i]) == RegistryKeys(registries)[..i];
    ByKeyFinds(registries[..i]);
    assert registries[..i + 1][..i] == registries[..i];
  }

  method CheckGroup(byKey: map<Identifier, Registry>, g: TagGroup) returns (ok: bool)
    ensures ok <==> GroupOk(byKey, g)
  {
    hide TagsOk, ValidIdentifier;
    if !ValidIdentifier(g.registry) || g.registry !in byKey {
      return false;
    }
    ok := CheckTags(byKey[g.registry], g.tags);
  }

  method IndexRegistries(registries: seq<Registry>) returns (distinct: bool, byKey: map<Identifier, Registry>)
    ensures distinct == Distinct(RegistryKeys(registries))
    ensures distinct ==> byKey == ByKey(registries)
  {
    byKey := map[];
    hide Distinct, ByKey;
    ghost var keys := RegistryKeys(registries);
    DistinctStarts(keys);
    NothingByKey(registries, []);
    for i := 0 to |registries|
      invariant Distinct(keys[..i]) && byKey == ByKey(registries[..i])
    {
      hide Distinct, ByKey;
      var r := registries[i];
      NextRegistry(registries, i);
      DistinctSoFar(keys, i);
      if r.key in byKey {
        return false, byKey;
      }
      byKey := byKey[r.key := r];
    }
    assert registries[..|registries|] == registries;
    return true, byKey;
  }
}
