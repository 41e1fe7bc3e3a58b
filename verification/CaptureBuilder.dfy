/** The loops of BuildDataset and DecodeDataset, proved against CaptureDataset.

    Each loop of the source is a method: over the synchronized registries, over
    the raw groups, over the keys of the static registries, over the groups in
    order, over the tags of a group and the ids of a tag; and, on the way back,
    over the definitions, their entries and the groups. A method returns what
    its part of the dataset is specified to be, or nothing exactly when the part
    fails its checks; BuildOkByParts and CheckedAgain show that the checks of the
    parts together are those of the whole. */
module CaptureBuilder {
  import opened Collections
  import opened Streams
  import opened Sorting
  import opened NbtValue
  import opened NbtJson
  import opened RegistryModel
  import opened ConfigurationCodec
  import opened CaptureCodec
  import opened RawTagOrder
  import opened CaptureDataset
  import NbtJsonCodec

  // ----- BuildDataset -----

  /** EncodeJSON */
  method EncodeJSON(v: Value, fmt: Format) returns (j: Option<Json>)
    ensures j == if v.Nil? || JsonOk(v) then Some(EncodedData(v, fmt)) else None
  {
    if v.Nil? {
      return Some(JNull);
    }
    j := NbtJsonCodec.EncodeNode(v, fmt);
  }

  method DefineRegistry(r: Registry, fmt: Format) returns (d: Option<RegistryDefinition>)
    ensures d == if DataEncodable(r) then Some(DefinitionFrom(r, fmt)) else None
  {
    hide JsonOk, EncodedData;
    var entries: seq<EntryDefinition> := [];
    for i := 0 to |r.entries|
      invariant |entries| == i
      invariant forall k | 0 <= k < i ::
                  && (r.entries[k].data.Nil? || JsonOk(r.entries[k].data))
                  && entries[k] == EntryDefinition(r.entries[k].key, Some(EncodedData(r.entries[k].data, fmt)))
    {
      hide JsonOk, EncodedData;
      var j := EncodeJSON(r.entries[i].data, fmt);
      if j.None? {
        assert r.entries[i] in r.entries;
        return None;
      }
      entries := entries + [EntryDefinition(r.entries[i].key, j)];
    }
    assert entries == DefinitionFrom(r, fmt).entries;
    return Some(RegistryDefinition(r.key, entries));
  }

  /** The loop over the synchronized registries. */
  method DefineSynchronized(registries: seq<Registry>, fmt: Format)
    returns (defined: Option<seq<RegistryDefinition>>, byKey: map<Identifier, Registry>)
    ensures defined.Some? <==> Distinct(RegistryKeys(registries)) && forall r | r in registries :: DataEncodable(r)
    ensures defined.Some? ==> byKey == ByKey(registries) && defined.value == Definitions(registries, fmt)
  {
    hide Distinct, ByKey, DataEncodable, DefinitionFrom;
    ghost var keys := RegistryKeys(registries);
    byKey := map[];
    var ds: seq<RegistryDefinition> := [];
    Starts(registries);
    for i := 0 to |registries|
      invariant Distinct(keys[..i]) && byKey == ByKey(registries[..i])
      invariant |ds| == i && forall k | 0 <= k < i :: DataEncodable(registries[k]) && ds[k] == DefinitionFrom(registries[k], fmt)
    {
      hide Distinct, ByKey, DataEncodable, DefinitionFrom;
      NextRegistry(registries, i);
      DistinctSoFar(keys, i);
      if registries[i].key in byKey {
        return None, byKey;
      }
      byKey := byKey[registries[i].key := registries[i]];
      var d := DefineRegistry(registries[i], fmt);
      if d.None? {
        return None, byKey;
      }
      ds := ds + [d.value];
    }
    assert ds == Definitions(registries, fmt);
    return Some(ds), byKey;
  }

  lemma Starts(registries: seq<Registry>)
    ensures Distinct(RegistryKeys(registries)[..0]) && ByKey(registries[..0]) == map[]
    ensures RegistryKeys(registries)[..|registries|] == RegistryKeys(registries) && registries[..|registries|] == registries
  {
  }

  /** The loop over the raw groups. */
  method IndexGroups(groups: seq<RawTagGroup>) returns (distinct: bool, byRegistry: map<Identifier, RawTagGroup>)
    ensures distinct == Distinct(RawGroupKeys(groups))
    ensures distinct ==> byRegistry == ByRegistry(groups)
  {
    hide Distinct, ByRegistry;
    ghost var keys := RawGroupKeys(groups);
    byRegistry := map[];
    GroupsStart(groups);
    for i := 0 to |groups|
      invariant Distinct(keys[..i]) && byRegistry == ByRegistry(groups[..i])
    {
      hide Distinct, ByRegistry;
      NextRawGroup(groups, i);
      DistinctSoFar(keys, i);
      if groups[i].registry in byRegistry {
        return false, byRegistry;
      }
      byRegistry := byRegistry[groups[i].registry := groups[i]];
    }
    return true, byRegistry;
  }

  lemma GroupsStart(groups: seq<RawTagGroup>)
    ensures Distinct(RawGroupKeys(groups)[..0]) && ByRegistry(groups[..0]) == map[]
    ensures RawGroupKeys(groups)[..|groups|] == RawGroupKeys(groups) && groups[..|groups|] == groups
  {
  }

  lemma NextRawGroup(groups: seq<RawTagGroup>, i: nat)
    requires i < |groups| && Distinct(RawGroupKeys(groups)[..i])
    ensures groups[i].registry in ByRegistry(groups[..i]) <==> groups[i].registry in RawGroupKeys(groups)[..i]
    ensures ByRegistry(groups[..i + 1]) == ByRegistry(groups[..i])[groups[i].registry := groups[i]]
  {
    assert RawGroupKeys(groups[..i]) == RawGroupKeys(groups)[..i];
    ByRegistryFinds(groups[..i]);
    assert groups[..i + 1][..i] == groups[..i];
  }

  /** Collects identifiers and sorts them. */
  method SortIdentifiers(ids: set<Identifier>) returns (keys: seq<Identifier>)
    ensures keys == InOrder(ids)
  {
    var sorted := SortStrings(ids);
    assert forall i | 0 <= i < |sorted| :: sorted[i] in sorted;
    keys := sorted;
  }

  method DefineStatic(key: Identifier, entries: seq<ReportEntry>) returns (d: Option<RegistryDefinition>)
    ensures d == if Contiguous(entries) then Some(StaticDefinition(key, entries)) else None
  {
    var ds: seq<EntryDefinition> := [];
    for i := 0 to |entries|
      invariant |ds| == i && forall k | 0 <= k < i :: ds[k] == EntryDefinition(entries[k].key, None)
      invariant Contiguous(entries[..i])
    {
      if !entries[i].hasID || entries[i].id != Position(i) {
        return None;
      }
      ds := ds + [EntryDefinition(entries[i].key, None)];
    }
    assert entries[..|entries|] == entries;
    assert ds == StaticDefinition(key, entries).entries;
    return Some(RegistryDefinition(key, ds));
  }

  /** The loop over the static keys. */
  method DefineStatics(keys: seq<Identifier>, report: Report) returns (defined: Option<seq<RegistryDefinition>>)
    ensures defined.Some? <==> forall k | k in keys :: k in report && Contiguous(report[k])
    ensures defined.Some? ==> defined.value == StaticDefinitions(keys, report)
  {
    hide Contiguous, StaticDefinition;
    var ds: seq<RegistryDefinition> := [];
    for i := 0 to |keys|
      invariant |ds| == i
      invariant forall j | 0 <= j < i ::
                  keys[j] in report && Contiguous(report[keys[j]]) && ds[j] == StaticDefinition(keys[j], report[keys[j]])
    {
      hide Contiguous, StaticDefinition;
      if keys[i] !in report {
        return None;
      }
      var d := DefineStatic(keys[i], report[keys[i]]);
      if d.None? {
        return None;
      }
      ds := ds + [d.value];
    }
    return Some(ds);
  }

  /** resolveEntryID */
  method ResolveEntryID(key: Identifier, id: int32, registries: map<Identifier, Registry>, report: Report)
    returns (name: Option<Identifier>)
    ensures var names := NamesFor(registries, report, key);
      name == if 0 <= id < |names| then Some(names[id]) else None
  {
    if key in registries {
      var entries := registries[key].entries;
      return if 0 <= id < |entries| then Some(entries[id].key) else None;
    }
    if key !in report {
      return None;
    }
    return if 0 <= id < |report[key]| then Some(report[key][id].key) else None;
  }

  method ResolveTag(key: Identifier, ids: seq<int32>, registries: map<Identifier, Registry>, report: Report)
    returns (entries: Option<seq<Identifier>>)
    ensures var names := NamesFor(registries, report, key);
      && (entries.Some? <==> Resolvable(ids, names))
      && (entries.Some? ==> entries.value == ResolvedIds(ids, names))
  {
    hide NamesFor;
    ghost var names := NamesFor(registries, report, key);
    var done: seq<Identifier> := [];
    for i := 0 to |ids|
      invariant |done| == i && forall k | 0 <= k < i :: 0 <= ids[k] < |names| && done[k] == names[ids[k]]
    {
      hide NamesFor;
      var name := ResolveEntryID(key, ids[i], registries, report);
      if name.None? {
        return None;
      }
      done := done + [name.value];
    }
    return Some(done);
  }

  /** sort.Slice of the tags of a group. */
  method SortTagsByKey(tags: seq<RawTag>) returns (sorted: seq<RawTag>)
    ensures sorted == SortTags(tags)
  {
    sorted := [];
    for i := 0 to |tags|
      invariant sorted == SortTags(tags[..i])
    {
      hide InsertTag;
      assert tags[..i + 1][..i] == tags[..i];
      sorted := InsertTag(sorted, tags[i]);
    }
    assert tags[..|tags|] == tags;
  }

  method ResolveGroup(g: RawTagGroup, registries: map<Identifier, Registry>, report: Report) returns (group: Option<TagGroup>)
    ensures var names := NamesFor(registries, report, g.registry);
      && (group.Some? <==> TagsResolvable(SortTags(g.tags), names))
      && (group.Some? ==> group.value == ResolvedGroup(g, names))
  {
    hide NamesFor, SortTags, Resolvable, ResolvedIds;
    var tags := SortTagsByKey(g.tags);
    ghost var names := NamesFor(registries, report, g.registry);
    var done: seq<Tag> := [];
    for i := 0 to |tags|
      invariant |done| == i
      invariant forall k | 0 <= k < i :: Resolvable(tags[k].ids, names) && done[k] == Tag(tags[k].key, ResolvedIds(tags[k].ids, names))
    {
      hide NamesFor, SortTags, Resolvable, ResolvedIds;
      var entries := ResolveTag(g.registry, tags[i].ids, registries, report);
      if entries.None? {
        assert tags[i] in tags;
        return None;
      }
      done := done + [Tag(tags[i].key, entries.value)];
    }
    return Some(TagGroup(g.registry, done));
  }

  method ResolveGroups(keys: seq<Identifier>, view: map<Identifier, RawTagGroup>, registries: map<Identifier, Registry>, report: Report)
    returns (groups: Option<seq<TagGroup>>)
    requires forall k | k in keys :: k in view && view[k].registry == k
    ensures groups.Some? <==> AllResolvable(view, registries, report, keys)
    ensures groups.Some? ==> groups.value == ResolvedGroups(view, registries, report, keys)
  {
    hide NamesFor, SortTags, TagsResolvable, ResolvedGroup;
    var done: seq<TagGroup> := [];
    for i := 0 to |keys|
      invariant |done| == i
      invariant forall j | 0 <= j < i ::
                  && TagsResolvable(SortTags(view[keys[j]].tags), NamesFor(registries, report, keys[j]))
                  && done[j] == ResolvedGroup(view[keys[j]], NamesFor(registries, report, keys[j]))
    {
      hide NamesFor, SortTags, TagsResolvable, ResolvedGroup;
      assert keys[i] in keys;
      var g := ResolveGroup(view[keys[i]], registries, report);
      if g.None? {
        return None;
      }
      done := done + [g.value];
    }
    return Some(done);
  }

  lemma SortedResolvable(tags: seq<RawTag>, names: seq<Identifier>)
    ensures TagsResolvable(SortTags(tags), names) <==> TagsResolvable(tags, names)
  {
    hide Resolvable, SortTags;
    SortTagsMembers(tags);
  }

  /** The checks of the three loops together are those of BuildOk. */
  lemma BuildOkByParts(synchronized: seq<Registry>, groups: seq<RawTagGroup>, report: Report)
    requires Distinct(RawGroupKeys(groups))
    ensures (forall g | g in groups :: GroupOkFor(ByKey(synchronized), report, g)) <==>
              && (forall k | k in StaticKeys(synchronized, groups) :: k in report && Contiguous(report[k]))
              && AllResolvable(ByRegistry(groups), ByKey(synchronized), report, InOrder(ByRegistry(groups).Keys))
  {
    hide Contiguous, ByKey, NamesFor, Resolvable, SortTags, ByRegistry, Distinct, TagsResolvable;
    ByRegistryFinds(groups);
    var keys := InOrder(ByRegistry(groups).Keys);
    forall k | k in ByRegistry(groups)
      ensures TagsResolvable(SortTags(ByRegistry(groups)[k].tags), NamesFor(ByKey(synchronized), report, k))
         <==> TagsResolvable(ByRegistry(groups)[k].tags, NamesFor(ByKey(synchronized), report, k))
    {
      SortedResolvable(ByRegistry(groups)[k].tags, NamesFor(ByKey(synchronized), report, k));
    }
    forall g | g in groups ensures g.registry in keys && ByRegistry(groups)[g.registry] == g {
      var i :| 0 <= i < |groups| && groups[i] == g;
      assert RawGroupKeys(groups)[i] == g.registry;
    }
  }

  /** BuildDataset */
  method BuildDataset(synchronized: seq<Registry>, groups: seq<RawTagGroup>, report: Report, fmt: Format)
    returns (d: Option<Dataset>)
    ensures d == if BuildOk(synchronized, groups, report) then Some(Built(synchronized, groups, report, fmt)) else None
  {
    hide Distinct, ByKey, ByRegistry, DataEncodable, GroupOkFor, Contiguous, Definitions, StaticDefinitions, ResolvedGroups;
    hide AllResolvable, InOrder;
    var defined, byKey := DefineSynchronized(synchronized, fmt);
    if defined.None? {
      return None;
    }
    var distinct, byRegistry := IndexGroups(groups);
    if !distinct {
      return None;
    }
    ByRegistryFinds(groups);
    BuildOkByParts(synchronized, groups, report);
    var staticKeys := SortIdentifiers(byRegistry.Keys - byKey.Keys);
    var statics := DefineStatics(staticKeys, report);
    if statics.None? {
      return None;
    }
    var groupKeys := SortIdentifiers(byRegistry.Keys);
    var tags := ResolveGroups(groupKeys, byRegistry, byKey, report);
    if tags.None? {
      return None;
    }
    return Some(Dataset(defined.value + statics.value, tags.value));
  }

  // ----- DecodeDataset -----

  method DecodeData(data: Option<Json>) returns (v: Option<Value>)
    ensures v == OptionalData(data)
  {
    if data.None? || data.value.JNull? {
      return Some(Nil);
    }
    v := NbtJsonCodec.DecodeNode(data.value);
  }

  /** One registry of the dataset. */
  method DecodeDefinition(d: RegistryDefinition) returns (r: Option<Registry>)
    ensures r == if DefinitionOk(d) then Some(RegistryOf(d)) else None
  {
    hide ValidIdentifier, OptionalData, Distinct;
    if !ValidIdentifier(d.key) {
      return None;
    }
    var entries: seq<Entry> := [];
    for i := 0 to |d.entries|
      invariant |entries| == i
      invariant forall k | 0 <= k < i ::
                  && ValidIdentifier(d.entries[k].key) && OptionalData(d.entries[k].data).Some?
                  && entries[k] == Entry(d.entries[k].key, OptionalData(d.entries[k].data).value)
    {
      hide ValidIdentifier, OptionalData, Distinct;
      if !ValidIdentifier(d.entries[i].key) {
        assert EntriesOf(d.entries)[i].key == d.entries[i].key;
        return None;
      }
      var data := DecodeData(d.entries[i].data);
      if data.None? {
        assert d.entries[i] in d.entries;
        return None;
      }
      entries := entries + [Entry(d.entries[i].key, data.value)];
    }
    assert entries == EntriesOf(d.entries);
    r := NewRegistry(d.key, entries);
  }

  method DecodeDefinitions(ds: seq<RegistryDefinition>) returns (r: Option<seq<Registry>>)
    ensures r.Some? <==> forall d | d in ds :: DefinitionOk(d)
    ensures r.Some? ==> r.value == RegistriesOf(ds)
  {
    hide DefinitionOk, RegistryOf;
    var registries: seq<Registry> := [];
    for i := 0 to |ds|
      invariant |registries| == i && forall k | 0 <= k < i :: DefinitionOk(ds[k]) && registries[k] == RegistryOf(ds[k])
    {
      hide DefinitionOk, RegistryOf;
      var x := DecodeDefinition(ds[i]);
      if x.None? {
        assert ds[i] in ds;
        return None;
      }
      registries := registries + [x.value];
    }
    return Some(registries);
  }

  /** The identifiers of a group, as they are parsed before the set is made. */
  ghost predicate GroupKeysOk(g: TagGroup) {
    ValidIdentifier(g.registry) && (forall t | t in g.tags :: ValidIdentifier(t.key)) && EntryKeysOk(g)
  }

  method CheckGroupKeys(g: TagGroup) returns (ok: bool)
    ensures ok <==> GroupKeysOk(g)
  {
    hide ValidIdentifier;
    if !ValidIdentifier(g.registry) {
      return false;
    }
    for i := 0 to |g.tags|
      invariant forall k | 0 <= k < i ::
                  ValidIdentifier(g.tags[k].key) && forall e | e in g.tags[k].entries :: ValidIdentifier(e)
    {
      hide ValidIdentifier;
      if !ValidIdentifier(g.tags[i].key) {
        return false;
      }
      for j := 0 to |g.tags[i].entries|
        invariant forall k | 0 <= k < j :: ValidIdentifier(g.tags[i].entries[k])
      {
        if !ValidIdentifier(g.tags[i].entries[j]) {
          assert g.tags[i].entries[j] in g.tags[i].entries && g.tags[i] in g.tags;
          return false;
        }
      }
    }
    return true;
  }

  /** DecodeDataset, of the parsed document. */
  method LoadDataset(d: Dataset) returns (s: Option<Set>)
    ensures s == DecodeDataset(d)
  {
    hide DefinitionOk, RegistriesOf, ValidIdentifier;
    var registries := DecodeDefinitions(d.registries);
    if registries.None? {
      return None;
    }
    for i := 0 to |d.tags|
      invariant forall k | 0 <= k < i :: GroupKeysOk(d.tags[k])
    {
      hide DefinitionOk, RegistriesOf, ValidIdentifier, EntryKeysOk, SetOk;
      var ok := CheckGroupKeys(d.tags[i]);
      if !ok {
        CheckedAgain(RegistriesOf(d.registries), d.tags, d.tags[i]);
        assert d.tags[i] in d.tags;
        return None;
      }
    }
    s := NewSet(registries.value, d.tags);
  }

  /** NewSet checks the keys of groups and tags itself. */
  lemma CheckedAgain(registries: seq<Registry>, groups: seq<TagGroup>, g: TagGroup)
    requires g in groups && !GroupKeysOk(g)
    ensures !EntryKeysOk(g) || !SetOk(registries, groups)
  {
    hide ValidIdentifier;
  }
}
