/** The dataset built from a capture. */
module CaptureDataset {
  import opened Collections
  import opened Streams
  import opened Sorting
  import opened NbtValue
  import opened NetworkNbt
  import opened NbtJson
  import opened RegistryModel
  import opened ConfigurationCodec
  import opened CaptureCodec
  import opened RawTagOrder
  import CaptureReader

  // A capture consists of synchronized registries, groups of tags whose entries
  // are positions in a registry, and Mojang's report, which gives the order of
  // the registries that are not synchronized. BuildDataset turns the positions
  // into names; DecodeDataset makes a set of registries and tags of the names;
  // and EncodeUpdateTags turns the names of the set into positions again. Built
  // is the dataset, CapturedSet the set, and RawGroups (in ConfigurationCodec)
  // what the last step emits. Keys are sorted on the way, so what is kept is the
  // view of the groups by key, GroupView, and not their order.

  /** The parsed dataset document. An entry without a data member has None; keys
      are not validated yet. */
  datatype EntryDefinition = EntryDefinition(key: Identifier, data: Option<Json>)

  datatype RegistryDefinition = RegistryDefinition(key: Identifier, entries: seq<EntryDefinition>)

  datatype Dataset = Dataset(registries: seq<RegistryDefinition>, tags: seq<TagGroup>)

  /** An entry of Mojang's registries report. */
  datatype ReportEntry = ReportEntry(key: Identifier, hasID: bool, id: int32)

  type Report = map<Identifier, seq<ReportEntry>>

  // ----- DecodeDataset -----

  /** decodeOptionalNBT: a missing or null data member is no data. */
  function OptionalData(data: Option<Json>): Option<Value> {
    if data.None? || data.value.JNull? then Some(Nil) else ParseNode(data.value)
  }

  ghost predicate DefinitionOk(d: RegistryDefinition) {
    (forall e | e in d.entries :: OptionalData(e.data).Some?) && RegistryOk(d.key, EntriesOf(d.entries))
  }

  /** The entries of a definition; what does not decode is left without data. */
  function EntriesOf(entries: seq<EntryDefinition>): (r: seq<Entry>)
    ensures |r| == |entries|
  {
    seq(|entries|, i requires 0 <= i < |entries| =>
      Entry(entries[i].key, if OptionalData(entries[i].data).Some? then OptionalData(entries[i].data).value else Nil))
  }

  function RegistryOf(d: RegistryDefinition): Registry {
    MakeRegistry(d.key, EntriesOf(d.entries))
  }

  function RegistriesOf(ds: seq<RegistryDefinition>): (r: seq<Registry>)
    ensures |r| == |ds|
  {
    seq(|ds|, i requires 0 <= i < |ds| => RegistryOf(ds[i]))
  }

  ghost predicate EntryKeysOk(group: TagGroup) {
    forall t | t in group.tags :: forall e | e in t.entries :: ValidIdentifier(e)
  }

  ghost predicate DatasetOk(d: Dataset) {
    && (forall r | r in d.registries :: DefinitionOk(r))
    && (forall g | g in d.tags :: EntryKeysOk(g))
    && SetOk(RegistriesOf(d.registries), d.tags)
  }

  /** DecodeDataset */
  ghost function DecodeDataset(d: Dataset): Option<Set> {
    if DatasetOk(d) then Some(MakeSet(RegistriesOf(d.registries), d.tags)) else None
  }

  // ----- BuildDataset -----

  /** EncodeJSON; nil is written as null. */
  ghost function EncodedData(v: Value, fmt: Format): Json {
    if v.Nil? then JNull else Node(v, fmt)
  }

  ghost predicate DataEncodable(r: Registry) {
    forall e | e in r.entries :: e.data.Nil? || JsonOk(e.data)
  }

  /** registryDefinitionFromRuntime */
  ghost function DefinitionFrom(r: Registry, fmt: Format): RegistryDefinition {
    RegistryDefinition(r.key, seq(|r.entries|, i requires 0 <= i < |r.entries| =>
      EntryDefinition(r.entries[i].key, Some(EncodedData(r.entries[i].data, fmt)))))
  }

  function ReportKeys(entries: seq<ReportEntry>): (keys: seq<Identifier>)
    ensures |keys| == |entries| && forall i | 0 <= i < |keys| :: keys[i] == entries[i].key
  {
    seq(|entries|, i requires 0 <= i < |entries| => entries[i].key)
  }

  /** A reported registry whose entries have the static ids 0, 1, 2, ... */
  predicate Contiguous(entries: seq<ReportEntry>) {
    forall i | 0 <= i < |entries| :: entries[i].hasID && entries[i].id == Position(i)
  }

  function StaticDefinition(key: Identifier, entries: seq<ReportEntry>): RegistryDefinition {
    RegistryDefinition(key, seq(|entries|, i requires 0 <= i < |entries| => EntryDefinition(entries[i].key, None)))
  }

  /** Which entry a numeric id of a registry stands for: the position in the
      synchronized registry if there is one, or else in the report. */
  function NamesFor(registries: map<Identifier, Registry>, report: Report, key: Identifier): seq<Identifier> {
    if key in registries then Keys(registries[key].entries)
    else if key in report then ReportKeys(report[key])
    else []
  }

  predicate Resolvable(ids: seq<int32>, names: seq<Identifier>) {
    forall i | 0 <= i < |ids| :: 0 <= ids[i] < |names|
  }

  function ResolvedIds(ids: seq<int32>, names: seq<Identifier>): (r: seq<Identifier>)
    requires Resolvable(ids, names)
    ensures |r| == |ids| && forall i | 0 <= i < |ids| :: r[i] == names[ids[i]]
  {
    seq(|ids|, i requires 0 <= i < |ids| => names[ids[i]])
  }

  ghost predicate TagsResolvable(tags: seq<RawTag>, names: seq<Identifier>) {
    forall t | t in tags :: Resolvable(t.ids, names)
  }

  function ResolvedTags(tags: seq<RawTag>, names: seq<Identifier>): (r: seq<Tag>)
    requires TagsResolvable(tags, names)
    ensures |r| == |tags|
  {
    seq(|tags|, i requires 0 <= i < |tags| => Tag(tags[i].key, ResolvedIds(tags[i].ids, names)))
  }

  function ByRegistry(groups: seq<RawTagGroup>): map<Identifier, RawTagGroup> {
    if groups == [] then map[]
    else
      var last := groups[|groups| - 1];
      ByRegistry(groups[..|groups| - 1])[last.registry := last]
  }

  lemma ByRegistryFinds(groups: seq<RawTagGroup>)
    requires Distinct(RawGroupKeys(groups))
    ensures forall k :: k in ByRegistry(groups) <==> k in RawGroupKeys(groups)
    ensures forall g | g in groups :: ByRegistry(groups)[g.registry] == g
    ensures forall k | k in ByRegistry(groups) :: ByRegistry(groups)[k] in groups && ByRegistry(groups)[k].registry == k
  {
    hide Distinct, ByRegistry;
    ByRegistryAt(groups);
    forall g | g in groups ensures ByRegistry(groups)[g.registry] == g {
      var i :| 0 <= i < |groups| && groups[i] == g;
    }
    forall k | k in ByRegistry(groups)
      ensures ByRegistry(groups)[k] in groups && ByRegistry(groups)[k].registry == k
    {
      var i :| 0 <= i < |groups| && RawGroupKeys(groups)[i] == k;
    }
  }

  lemma {:induction false} ByRegistryAt(groups: seq<RawTagGroup>)
    requires Distinct(RawGroupKeys(groups))
    ensures forall k :: k in ByRegistry(groups) <==> k in RawGroupKeys(groups)
    ensures forall i | 0 <= i < |groups| :: ByRegistry(groups)[groups[i].registry] == groups[i]
  {
    if groups != [] {
      var n := |groups| - 1;
      var keys := RawGroupKeys(groups);
      DistinctLast(keys);
      hide Distinct;
      assert RawGroupKeys(groups[..n]) == keys[..n];
      ByRegistryAt(groups[..n]);
      forall i | 0 <= i < n ensures ByRegistry(groups)[groups[i].registry] == groups[i] {
        assert keys[i] != keys[n] && groups[..n][i] == groups[i];
      }
    }
  }

  /** Identifiers in the order in which sort.Slice puts them. */
  ghost function InOrder(ids: set<Identifier>): (r: seq<Identifier>)
    ensures Lists(r, ids)
  {
    var r := SortedKeys(ids);
    assert forall i | 0 <= i < |r| :: r[i] in r;
    r
  }

  ghost predicate GroupOkFor(registries: map<Identifier, Registry>, report: Report, g: RawTagGroup) {
    && (g.registry in registries || (g.registry in report && Contiguous(report[g.registry])))
    && TagsResolvable(g.tags, NamesFor(registries, report, g.registry))
  }

  ghost predicate BuildOk(synchronized: seq<Registry>, groups: seq<RawTagGroup>, report: Report) {
    && Distinct(RegistryKeys(synchronized)) && Distinct(RawGroupKeys(groups))
    && (forall r | r in synchronized :: DataEncodable(r))
    && (forall g | g in groups :: GroupOkFor(ByKey(synchronized), report, g))
  }

  /** The groups' registries that are not synchronized, in order. */
  ghost function StaticKeys(synchronized: seq<Registry>, groups: seq<RawTagGroup>): seq<Identifier> {
    InOrder(ByRegistry(groups).Keys - ByKey(synchronized).Keys)
  }

  ghost function StaticDefinitions(keys: seq<Identifier>, report: Report): seq<RegistryDefinition>
    requires forall k | k in keys :: k in report
  {
    seq(|keys|, i requires 0 <= i < |keys| => StaticDefinition(keys[i], report[keys[i]]))
  }

  ghost function Definitions(registries: seq<Registry>, fmt: Format): seq<RegistryDefinition> {
    seq(|registries|, i requires 0 <= i < |registries| => DefinitionFrom(registries[i], fmt))
  }

  /** One group of the dataset: its tags by key, and their ids by name. */
  function ResolvedGroup(g: RawTagGroup, names: seq<Identifier>): TagGroup
    requires TagsResolvable(SortTags(g.tags), names)
  {
    TagGroup(g.registry, ResolvedTags(SortTags(g.tags), names))
  }

  ghost predicate AllResolvable(view: map<Identifier, RawTagGroup>, registries: map<Identifier, Registry>, report: Report,
                                keys: seq<Identifier>) {
    forall k | k in keys :: k in view && TagsResolvable(SortTags(view[k].tags), NamesFor(registries, report, k))
  }

  ghost function ResolvedGroups(view: map<Identifier, RawTagGroup>, registries: map<Identifier, Registry>, report: Report,
                                keys: seq<Identifier>): seq<TagGroup>
    requires AllResolvable(view, registries, report, keys)
  {
    seq(|keys|, i requires 0 <= i < |keys| => ResolvedGroup(view[keys[i]], NamesFor(registries, report, keys[i])))
  }

  lemma BuildIsDefined(synchronized: seq<Registry>, groups: seq<RawTagGroup>, report: Report)
    requires BuildOk(synchronized, groups, report)
    ensures forall k | k in StaticKeys(synchronized, groups) :: k in report
    ensures AllResolvable(ByRegistry(groups), ByKey(synchronized), report, InOrder(ByRegistry(groups).Keys))
  {
    ByRegistryFinds(groups);
    forall k | k in ByRegistry(groups)
      ensures TagsResolvable(SortTags(ByRegistry(groups)[k].tags), NamesFor(ByKey(synchronized), report, k))
    {
      SortTagsMembers(ByRegistry(groups)[k].tags);
    }
  }

  /** The dataset that BuildDataset returns when it succeeds. */
  ghost function Built(synchronized: seq<Registry>, groups: seq<RawTagGroup>, report: Report, fmt: Format): Dataset
    requires BuildOk(synchronized, groups, report)
  {
    BuildIsDefined(synchronized, groups, report);
    Dataset(
      Definitions(synchronized, fmt) + StaticDefinitions(StaticKeys(synchronized, groups), report),
      ResolvedGroups(ByRegistry(groups), ByKey(synchronized), report, InOrder(ByRegistry(groups).Keys)))
  }

  // ----- the registries come back -----

  /** The data of the registry has only valid strings. */
  ghost predicate Surviving(r: Registry) {
    forall e | e in r.entries :: TextOk(e.data)
  }

  lemma DataSurvives(v: Value, fmt: Format)
    requires Faithful(fmt) && (v.Nil? || JsonOk(v)) && TextOk(v)
    ensures OptionalData(Some(EncodedData(v, fmt))) == Some(v)
  {
    hide Faithful, JsonOk, TextOk;
    if !v.Nil? {
      JsonRoundTrip(v, fmt);
    }
  }

  /** A synchronized registry is decoded from the dataset as it was captured. */
  lemma SynchronizedSurvives(r: Registry, fmt: Format)
    requires Faithful(fmt) && WellFormed(r) && DataEncodable(r) && Surviving(r)
    ensures DefinitionOk(DefinitionFrom(r, fmt)) && RegistryOf(DefinitionFrom(r, fmt)) == r
  {
    hide Faithful, JsonOk, TextOk, EncodedData, OptionalData, ValidIdentifier, IdsOf, Keys;
    var d := DefinitionFrom(r, fmt);
    forall i | 0 <= i < |r.entries| ensures OptionalData(d.entries[i].data) == Some(r.entries[i].data) {
      assert r.entries[i] in r.entries;
      DataSurvives(r.entries[i].data, fmt);
    }
    assert EntriesOf(d.entries) == r.entries;
  }

  /** The registry that a report describes: its entries have no data. */
  function StaticRegistry(key: Identifier, entries: seq<ReportEntry>): Registry {
    RegistryOf(StaticDefinition(key, entries))
  }

  ghost predicate ReportOk(entries: seq<ReportEntry>) {
    (forall e | e in entries :: ValidIdentifier(e.key)) && Distinct(ReportKeys(entries))
  }

  lemma StaticIsOk(key: Identifier, entries: seq<ReportEntry>)
    requires ValidIdentifier(key) && ReportOk(entries)
    ensures DefinitionOk(StaticDefinition(key, entries)) && WellFormed(StaticRegistry(key, entries))
    ensures Keys(StaticRegistry(key, entries).entries) == ReportKeys(entries) && StaticRegistry(key, entries).key == key
  {
    hide ValidIdentifier, IdsOf;
    var es := EntriesOf(StaticDefinition(key, entries).entries);
    assert Keys(es) == ReportKeys(entries);
    forall i | 0 <= i < |es| ensures ValidIdentifier(es[i].key) {
      assert entries[i] in entries;
    }
  }

  ghost function StaticRegistries(keys: seq<Identifier>, report: Report): (r: seq<Registry>)
    requires forall k | k in keys :: k in report
    ensures |r| == |keys|
  {
    seq(|keys|, i requires 0 <= i < |keys| => StaticRegistry(keys[i], report[keys[i]]))
  }

  /** What the decoders of a capture guarantee, and a report with valid and
      distinct names. */
  ghost predicate Captured(synchronized: seq<Registry>, groups: seq<RawTagGroup>, report: Report) {
    && (forall r | r in synchronized :: WellFormed(r) && Surviving(r))
    && GroupsWellFormed(groups)
    && (forall k | k in report :: ReportOk(report[k]))
  }

  /** The registries of the set: the synchronized ones as they were, then the
      static ones. */
  ghost function AllRegistries(synchronized: seq<Registry>, groups: seq<RawTagGroup>, report: Report): seq<Registry>
    requires BuildOk(synchronized, groups, report)
  {
    BuildIsDefined(synchronized, groups, report);
    synchronized + StaticRegistries(StaticKeys(synchronized, groups), report)
  }

  lemma StaticKeysAreValid(synchronized: seq<Registry>, groups: seq<RawTagGroup>, report: Report)
    requires BuildOk(synchronized, groups, report) && Captured(synchronized, groups, report)
    ensures forall k | k in StaticKeys(synchronized, groups) ::
              k in report && ValidIdentifier(k) && ReportOk(report[k]) && k !in ByKey(synchronized)
  {
    hide ReportOk, WellFormed, Surviving, ValidIdentifier, Distinct;
    BuildIsDefined(synchronized, groups, report);
    ByRegistryFinds(groups);
    forall k | k in StaticKeys(synchronized, groups) ensures ValidIdentifier(k) {
      assert ByRegistry(groups)[k] in groups;
    }
  }

  lemma RegistriesOfConcat(a: seq<RegistryDefinition>, b: seq<RegistryDefinition>)
    ensures RegistriesOf(a + b) == RegistriesOf(a) + RegistriesOf(b)
  {
    hide RegistryOf;
  }

  lemma SynchronizedComeBack(synchronized: seq<Registry>, fmt: Format)
    requires Faithful(fmt) && forall r | r in synchronized :: WellFormed(r) && Surviving(r) && DataEncodable(r)
    ensures RegistriesOf(Definitions(synchronized, fmt)) == synchronized
    ensures forall d | d in Definitions(synchronized, fmt) :: DefinitionOk(d)
  {
    hide Faithful, WellFormed, Surviving, DataEncodable, DefinitionFrom, DefinitionOk, RegistryOf;
    forall i | 0 <= i < |synchronized|
      ensures DefinitionOk(Definitions(synchronized, fmt)[i]) && RegistryOf(Definitions(synchronized, fmt)[i]) == synchronized[i]
    {
      assert synchronized[i] in synchronized;
      SynchronizedSurvives(synchronized[i], fmt);
    }
  }

  lemma StaticsComeBack(keys: seq<Identifier>, report: Report)
    requires forall k | k in keys :: k in report && ValidIdentifier(k) && ReportOk(report[k])
    ensures RegistriesOf(StaticDefinitions(keys, report)) == StaticRegistries(keys, report)
    ensures forall d | d in StaticDefinitions(keys, report) :: DefinitionOk(d)
  {
    hide ReportOk, ValidIdentifier, StaticDefinition, DefinitionOk, RegistryOf;
    forall i | 0 <= i < |keys| ensures DefinitionOk(StaticDefinitions(keys, report)[i]) {
      assert keys[i] in keys;
      StaticIsOk(keys[i], report[keys[i]]);
    }
  }

  lemma RegistriesComeBack(synchronized: seq<Registry>, groups: seq<RawTagGroup>, report: Report, fmt: Format)
    requires Faithful(fmt) && BuildOk(synchronized, groups, report) && Captured(synchronized, groups, report)
    ensures var ds := Built(synchronized, groups, report, fmt).registries;
      && (forall d | d in ds :: DefinitionOk(d))
      && RegistriesOf(ds) == AllRegistries(synchronized, groups, report)
  {
    hide Faithful, ReportOk, WellFormed, Surviving, ValidIdentifier, Distinct, DefinitionOk, RegistriesOf, Definitions;
    hide StaticDefinitions, StaticRegistries, DataEncodable, ResolvedGroups, StaticKeys;
    BuildIsDefined(synchronized, groups, report);
    StaticKeysAreValid(synchronized, groups, report);
    SynchronizedComeBack(synchronized, fmt);
    StaticsComeBack(StaticKeys(synchronized, groups), report);
    RegistriesOfConcat(Definitions(synchronized, fmt), StaticDefinitions(StaticKeys(synchronized, groups), report));
  }

  lemma DistinctConcat(a: seq<Identifier>, b: seq<Identifier>)
    requires Distinct(a) && Distinct(b) && forall k | k in b :: k !in a
    ensures Distinct(a + b)
  {
    forall i, j | 0 <= i < j < |a + b| ensures (a + b)[i] != (a + b)[j] {
      if i < |a| <= j {
        assert b[j - |a|] in b;
      }
    }
  }

  lemma AllRegistriesWellFormed(synchronized: seq<Registry>, groups: seq<RawTagGroup>, report: Report)
    requires BuildOk(synchronized, groups, report) && Captured(synchronized, groups, report)
    ensures var all := AllRegistries(synchronized, groups, report);
      && RegistryKeys(all) == RegistryKeys(synchronized) + StaticKeys(synchronized, groups)
      && Distinct(RegistryKeys(all))
      && forall i | 0 <= i < |all| :: WellFormed(all[i])
  {
    hide ReportOk, WellFormed, Surviving, ValidIdentifier, Distinct, StaticRegistry, DataEncodable, Contiguous;
    hide ByKey, ByRegistry, TagsResolvable, GroupWellFormed;
    StaticKeysAreValid(synchronized, groups, report);
    ByKeyFinds(synchronized);
    var statics := StaticKeys(synchronized, groups);
    var all := AllRegistries(synchronized, groups, report);
    forall i | 0 <= i < |statics|
      ensures WellFormed(all[|synchronized| + i]) && all[|synchronized| + i].key == statics[i]
    {
      assert statics[i] in statics;
      StaticIsOk(statics[i], report[statics[i]]);
      assert all[|synchronized| + i] == StaticRegistry(statics[i], report[statics[i]]);
    }
    assert RegistryKeys(all) == RegistryKeys(synchronized) + statics;
    SortedIsDistinct(statics);
    DistinctConcat(RegistryKeys(synchronized), statics);
    forall i | 0 <= i < |all| ensures WellFormed(all[i]) {
      if i < |synchronized| {
        assert synchronized[i] in synchronized;
      } else {
        assert all[i] == all[|synchronized| + (i - |synchronized|)];
      }
    }
  }

  /** The registries of the set have distinct keys, and every captured group has
      one, whose positions are the numeric ids of the capture. */
  lemma {:induction false} RegistriesByKey(synchronized: seq<Registry>, groups: seq<RawTagGroup>, report: Report)
    requires BuildOk(synchronized, groups, report) && Captured(synchronized, groups, report)
    ensures var all := AllRegistries(synchronized, groups, report);
      && Distinct(RegistryKeys(all))
      && (forall i | 0 <= i < |synchronized| ::
            synchronized[i].key in ByKey(all) && ByKey(all)[synchronized[i].key] == synchronized[i])
      && (forall k | k in ByKey(all) :: ByKey(all)[k].key == k && WellFormed(ByKey(all)[k]))
      && (forall k | k in ByRegistry(groups) ::
            && k in ByKey(all)
            && Keys(ByKey(all)[k].entries) == NamesFor(ByKey(synchronized), report, k))
  {
    hide BuildOk, Captured, WellFormed, Distinct, ByKey, ByRegistry, AllRegistries, NamesFor;
    var all := AllRegistries(synchronized, groups, report);
    BuildIsDistinct(synchronized, groups, report);
    AllRegistriesWellFormed(synchronized, groups, report);
    ByKeyFinds(all);
    forall k | k in ByKey(all) ensures ByKey(all)[k].key == k && WellFormed(ByKey(all)[k]) {
      var i :| 0 <= i < |all| && RegistryKeys(all)[i] == k;
    }
    forall i | 0 <= i < |synchronized|
      ensures synchronized[i].key in ByKey(all) && ByKey(all)[synchronized[i].key] == synchronized[i]
    {
      assert all[..|synchronized|][i] == synchronized[i];
    }
    forall k | k in ByRegistry(groups)
      ensures k in ByKey(all) && Keys(ByKey(all)[k].entries) == NamesFor(ByKey(synchronized), report, k)
    {
      NamesArePositions(synchronized, groups, report, k);
    }
  }

  lemma NamesArePositions(synchronized: seq<Registry>, groups: seq<RawTagGroup>, report: Report, k: Identifier)
    requires BuildOk(synchronized, groups, report) && Captured(synchronized, groups, report) && k in ByRegistry(groups)
    requires var all := AllRegistries(synchronized, groups, report);
      Distinct(RegistryKeys(all)) && RegistryKeys(all) == RegistryKeys(synchronized) + StaticKeys(synchronized, groups)
    ensures var all := AllRegistries(synchronized, groups, report);
      k in ByKey(all) && Keys(ByKey(all)[k].entries) == NamesFor(ByKey(synchronized), report, k)
  {
    hide ReportOk, WellFormed, Surviving, ValidIdentifier, Distinct, StaticRegistry, DataEncodable, Contiguous;
    hide ByKey, ByRegistry, TagsResolvable, GroupWellFormed;
    var statics := StaticKeys(synchronized, groups);
    var all := AllRegistries(synchronized, groups, report);
    ByKeyFinds(synchronized);
    ByKeyFinds(all);
    if k in ByKey(synchronized) {
      var i :| 0 <= i < |synchronized| && RegistryKeys(synchronized)[i] == k;
      assert all[i] == synchronized[i];
    } else {
      assert k in statics;
      var i :| 0 <= i < |statics| && statics[i] == k;
      StaticKeysAreValid(synchronized, groups, report);
      StaticIsOk(k, report[k]);
      assert RegistryKeys(all)[|synchronized| + i] == k;
      assert all[|synchronized| + i] == StaticRegistry(k, report[k]);
    }
  }

  // ----- the ids come back -----

  /** The name at position `id` gets back the id, whatever the registry's size. */
  lemma IdRestored(r: Registry, id: int32)
    requires WellFormed(r) && 0 <= id < |r.entries|
    ensures r.entries[id].key in r.ids && r.ids[r.entries[id].key] == id
  {
    IdsArePositions(Keys(r.entries));
    assert Keys(r.entries)[id] == r.entries[id].key;
  }

  lemma IdsRestored(r: Registry, ids: seq<int32>, names: seq<Identifier>)
    requires WellFormed(r) && names == Keys(r.entries) && Resolvable(ids, names)
    ensures forall e | e in ResolvedIds(ids, names) :: e in r.ids
    ensures IdsFor(r, ResolvedIds(ids, names)) == ids
    ensures Distinct(ResolvedIds(ids, names)) <==> Distinct(ids)
  {
    hide WellFormed;
    forall i | 0 <= i < |ids|
      ensures ResolvedIds(ids, names)[i] in r.ids && r.ids[ResolvedIds(ids, names)[i]] == ids[i]
    {
      IdRestored(r, ids[i]);
    }
  }

  /** A resolved tag passes NewSet's checks exactly when no id was captured twice. */
  lemma ResolvedTagOk(r: Registry, t: RawTag, names: seq<Identifier>)
    requires WellFormed(r) && names == Keys(r.entries) && Resolvable(t.ids, names) && ValidIdentifier(t.key)
    ensures TagOk(r, Tag(t.key, ResolvedIds(t.ids, names))) <==> Distinct(t.ids)
    ensures forall e | e in ResolvedIds(t.ids, names) :: ValidIdentifier(e)
  {
    hide ValidIdentifier, IdsOf;
    IdsRestored(r, t.ids, names);
    forall i | 0 <= i < |t.ids| ensures ValidIdentifier(ResolvedIds(t.ids, names)[i]) {
      assert ResolvedIds(t.ids, names)[i] == r.entries[t.ids[i]].key;
    }
  }

  ghost predicate IdsDistinct(tags: seq<RawTag>) {
    forall t | t in tags :: Distinct(t.ids)
  }

  lemma ResolvedTagsOk(r: Registry, tags: seq<RawTag>, names: seq<Identifier>)
    requires WellFormed(r) && names == Keys(r.entries)
    requires TagsResolvable(tags, names) && TagsWellFormed(tags)
    ensures TagsOk(r, ResolvedTags(tags, names)) <==> IdsDistinct(tags)
    ensures forall t | t in ResolvedTags(tags, names) :: forall e | e in t.entries :: ValidIdentifier(e)
    ensures Resolved(r, ResolvedTags(tags, names)) && RawTagsOf(r, ResolvedTags(tags, names)) == tags
  {
    hide WellFormed, ValidIdentifier, TagOk, Distinct, Resolvable;
    var resolved := ResolvedTags(tags, names);
    assert TagKeys(resolved) == RawKeys(tags);
    forall i | 0 <= i < |tags|
      ensures TagOk(r, resolved[i]) <==> Distinct(tags[i].ids)
      ensures forall e | e in resolved[i].entries :: ValidIdentifier(e) && e in r.ids
      ensures IdsFor(r, resolved[i].entries) == tags[i].ids
    {
      assert tags[i] in tags;
      ResolvedTagOk(r, tags[i], names);
      IdsRestored(r, tags[i].ids, names);
    }
    assert (forall t | t in resolved :: TagOk(r, t)) <==> IdsDistinct(tags) by {
      assert forall i | 0 <= i < |tags| :: resolved[i] in resolved && tags[i] in tags;
    }
  }

  // ----- the main results -----

  /** No id occurs twice in a tag. */
  ghost predicate NoRepeats(groups: seq<RawTagGroup>) {
    forall g | g in groups :: IdsDistinct(g.tags)
  }

  /** For one group: what it becomes in the dataset, and that its ids come back. */
  lemma {:induction false} ResolvedGroupOk(all: map<Identifier, Registry>, g: RawTagGroup, names: seq<Identifier>)
    requires g.registry in all && WellFormed(all[g.registry]) && names == Keys(all[g.registry].entries)
    requires GroupWellFormed(g) && TagsResolvable(SortTags(g.tags), names)
    ensures var group := ResolvedGroup(g, names);
      && (GroupOk(all, group) <==> IdsDistinct(g.tags)) && EntryKeysOk(group)
      && GroupEncodable(all[g.registry], group)
      && RawTagsOf(all[g.registry], group.tags) == SortTags(g.tags)
  {
    SortTagsMembers(g.tags);
    SortTagsView(g.tags);
    hide ValidIdentifier, WellFormed, TagsOk, SortTags, Distinct, Keys, TagView, RawTagsOf, ResolvedTags, Resolvable;
    ResolvedTagsOk(all[g.registry], SortTags(g.tags), names);
    CountsAreKept(SortTags(g.tags), names);
  }

  lemma CountsAreKept(tags: seq<RawTag>, names: seq<Identifier>)
    requires TagsResolvable(tags, names) && |tags| <= MAX_INT32 && forall t | t in tags :: |t.ids| <= MAX_INT32
    ensures CountsOk(ResolvedTags(tags, names))
  {
    forall t | t in ResolvedTags(tags, names) ensures |t.entries| <= MAX_INT32 {
      var i :| 0 <= i < |tags| && ResolvedTags(tags, names)[i] == t;
      assert tags[i] in tags;
    }
  }

  /** A group of the dataset stands for the captured group of its registry. */
  ghost predicate StandsFor(all: map<Identifier, Registry>, view: map<Identifier, RawTagGroup>, g: TagGroup) {
    && g.registry in all && g.registry in view
    && (GroupOk(all, g) <==> IdsDistinct(view[g.registry].tags)) && EntryKeysOk(g)
    && GroupEncodable(all[g.registry], g)
    && RawTagsOf(all[g.registry], g.tags) == SortTags(view[g.registry].tags)
  }

  lemma BuiltGroup(synchronized: seq<Registry>, groups: seq<RawTagGroup>, report: Report, k: Identifier)
    requires BuildOk(synchronized, groups, report) && Captured(synchronized, groups, report) && k in ByRegistry(groups)
    ensures TagsResolvable(SortTags(ByRegistry(groups)[k].tags), NamesFor(ByKey(synchronized), report, k))
    ensures var g := ResolvedGroup(ByRegistry(groups)[k], NamesFor(ByKey(synchronized), report, k));
      g.registry == k && StandsFor(ByKey(AllRegistries(synchronized, groups, report)), ByRegistry(groups), g)
  {
    BuildIsDefined(synchronized, groups, report);
    RegistriesByKey(synchronized, groups, report);
    ByRegistryFinds(groups);
    hide AllRegistries, WellFormed, GroupOk, EntryKeysOk, GroupEncodable, RawTagsOf, SortTags, NamesFor, ByKey, ByRegistry;
    hide GroupWellFormed, Distinct, IdsDistinct, TagsResolvable, DataEncodable, Surviving, ReportOk, Keys, BuildOk, ResolvedTags;
    assert k in InOrder(ByRegistry(groups).Keys);
    ResolvedGroupOk(ByKey(AllRegistries(synchronized, groups, report)), ByRegistry(groups)[k],
                    NamesFor(ByKey(synchronized), report, k));
  }

  lemma {:induction false} BuiltGroups(synchronized: seq<Registry>, groups: seq<RawTagGroup>, report: Report, fmt: Format)
    requires BuildOk(synchronized, groups, report) && Captured(synchronized, groups, report)
    ensures var all, tags := ByKey(AllRegistries(synchronized, groups, report)), Built(synchronized, groups, report, fmt).tags;
      && GroupKeys(tags) == InOrder(ByRegistry(groups).Keys) && Distinct(GroupKeys(tags))
      && forall i | 0 <= i < |tags| :: StandsFor(all, ByRegistry(groups), tags[i])
  {
    BuildIsDefined(synchronized, groups, report);
    hide AllRegistries, SortTags, NamesFor, ByKey, ByRegistry, StandsFor, ResolvedGroup, TagsResolvable;
    hide BuildOk, Captured, Distinct, InOrder;
    var keys := InOrder(ByRegistry(groups).Keys);
    SortedIsDistinct(keys);
    var tags := Built(synchronized, groups, report, fmt).tags;
    forall i | 0 <= i < |keys|
      ensures tags[i].registry == keys[i]
      ensures StandsFor(ByKey(AllRegistries(synchronized, groups, report)), ByRegistry(groups), tags[i])
    {
      assert keys[i] in keys;
      BuiltGroup(synchronized, groups, report, keys[i]);
    }
    assert GroupKeys(tags) == keys;
  }

  lemma GroupsAgree(all: map<Identifier, Registry>, groups: seq<RawTagGroup>, tags: seq<TagGroup>)
    requires Distinct(RawGroupKeys(groups)) && forall i | 0 <= i < |tags| :: StandsFor(all, ByRegistry(groups), tags[i])
    requires forall k :: k in GroupKeys(tags) <==> k in ByRegistry(groups)
    ensures (forall g | g in tags :: GroupOk(all, g)) <==> NoRepeats(groups)
    ensures forall g | g in tags :: EntryKeysOk(g)
  {
    hide GroupOk, EntryKeysOk, GroupEncodable, RawTagsOf, SortTags, ByRegistry, Distinct, IdsDistinct, NoRepeats;
    RepeatsByKey(groups, GroupKeys(tags));
    assert forall i | 0 <= i < |tags| :: tags[i] in tags;
  }

  lemma {:induction false} AllGroupsOk(synchronized: seq<Registry>, groups: seq<RawTagGroup>, report: Report, fmt: Format)
    requires BuildOk(synchronized, groups, report) && Captured(synchronized, groups, report)
    ensures var all, tags := ByKey(AllRegistries(synchronized, groups, report)), Built(synchronized, groups, report, fmt).tags;
      && Distinct(GroupKeys(tags))
      && ((forall g | g in tags :: GroupOk(all, g)) <==> NoRepeats(groups))
      && (forall g | g in tags :: EntryKeysOk(g))
  {
    hide AllRegistries, GroupOk, EntryKeysOk, StandsFor, ByKey, ByRegistry, Built, Distinct, NoRepeats, Captured;
    hide RegistryKeys, DataEncodable, GroupOkFor;
    BuiltGroups(synchronized, groups, report, fmt);
    GroupsAgree(ByKey(AllRegistries(synchronized, groups, report)), groups, Built(synchronized, groups, report, fmt).tags);
  }

  lemma RepeatsByKey(groups: seq<RawTagGroup>, keys: seq<Identifier>)
    requires Distinct(RawGroupKeys(groups)) && forall k :: k in keys <==> k in ByRegistry(groups)
    ensures NoRepeats(groups) <==> forall i | 0 <= i < |keys| :: IdsDistinct(ByRegistry(groups)[keys[i]].tags)
  {
    hide IdsDistinct, Distinct, ByRegistry;
    ByRegistryFinds(groups);
    if forall i | 0 <= i < |keys| :: IdsDistinct(ByRegistry(groups)[keys[i]].tags) {
      forall g | g in groups ensures IdsDistinct(g.tags) {
        assert g.registry in keys;
        var i :| 0 <= i < |keys| && keys[i] == g.registry;
      }
    }
    if NoRepeats(groups) {
      forall i | 0 <= i < |keys| ensures IdsDistinct(ByRegistry(groups)[keys[i]].tags) {
        assert keys[i] in keys;
      }
    }
  }

  /** A dataset that BuildDataset returns is accepted by DecodeDataset exactly
      when no tag of the capture repeats an id. */
  lemma AcceptedUnlessRepeated(synchronized: seq<Registry>, groups: seq<RawTagGroup>, report: Report, fmt: Format)
    requires Faithful(fmt) && BuildOk(synchronized, groups, report) && Captured(synchronized, groups, report)
    ensures DecodeDataset(Built(synchronized, groups, report, fmt)).Some? <==> NoRepeats(groups)
  {
    hide Faithful, BuildOk, Captured, AllRegistries, DatasetOk, DecodeDataset, NoRepeats, Built, Distinct, RegistriesOf, ByKey;
    hide DefinitionOk, GroupOk, EntryKeysOk, NamesFor, WellFormed, ByRegistry;
    RegistriesComeBack(synchronized, groups, report, fmt);
    RegistriesByKey(synchronized, groups, report);
    AllGroupsOk(synchronized, groups, report, fmt);
    AcceptedByGroups(Built(synchronized, groups, report, fmt));
  }

  lemma AcceptedByGroups(d: Dataset)
    requires forall r | r in d.registries :: DefinitionOk(r)
    requires forall g | g in d.tags :: EntryKeysOk(g)
    requires Distinct(RegistryKeys(RegistriesOf(d.registries))) && Distinct(GroupKeys(d.tags))
    ensures DecodeDataset(d).Some? <==> forall g | g in d.tags :: GroupOk(ByKey(RegistriesOf(d.registries)), g)
  {
    hide DefinitionOk, EntryKeysOk, Distinct, RegistriesOf, GroupOk, ByKey;
  }

  /** The set that DecodeDataset returns for it. */
  ghost function CapturedSet(synchronized: seq<Registry>, groups: seq<RawTagGroup>, report: Report, fmt: Format): Set
    requires BuildOk(synchronized, groups, report)
  {
    MakeSet(AllRegistries(synchronized, groups, report), Built(synchronized, groups, report, fmt).tags)
  }

  lemma DecodedSet(synchronized: seq<Registry>, groups: seq<RawTagGroup>, report: Report, fmt: Format)
    requires Faithful(fmt) && BuildOk(synchronized, groups, report) && Captured(synchronized, groups, report)
    requires NoRepeats(groups)
    ensures DecodeDataset(Built(synchronized, groups, report, fmt)) == Some(CapturedSet(synchronized, groups, report, fmt))
  {
    hide Faithful, BuildOk, Captured, AllRegistries, DatasetOk, RegistriesOf, Built, NoRepeats;
    AcceptedUnlessRepeated(synchronized, groups, report, fmt);
    RegistriesComeBack(synchronized, groups, report, fmt);
  }

  // ----- the payload of the set -----

  lemma {:induction false} DistinctFits(a: seq<Identifier>, b: seq<Identifier>)
    requires Distinct(a) && forall k | k in a :: k in b
    ensures |a| <= |b|
    decreases |a|
  {
    if a != [] {
      assert a[0] in a;
      var j :| 0 <= j < |b| && b[j] == a[0];
      var rest := b[..j] + b[j + 1..];
      forall k | k in a[1..] ensures k in rest {
        var i :| 0 < i < |a| && a[i] == k;
        assert a[0] != k && k in b;
        var m :| 0 <= m < |b| && b[m] == k;
        assert m < j ==> rest[m] == k;
        assert m > j ==> rest[m - 1] == k;
      }
      DistinctFits(a[1..], rest);
    }
  }

  lemma BuildIsDistinct(synchronized: seq<Registry>, groups: seq<RawTagGroup>, report: Report)
    requires BuildOk(synchronized, groups, report)
    ensures Distinct(RawGroupKeys(groups))
    ensures var all := AllRegistries(synchronized, groups, report);
      |all| >= |synchronized| && all[..|synchronized|] == synchronized
  {
  }

  /** The set's tags belong to the captured registries, one group each. */
  lemma TaggedRegistries(synchronized: seq<Registry>, groups: seq<RawTagGroup>, report: Report, fmt: Format)
    requires BuildOk(synchronized, groups, report) && Captured(synchronized, groups, report)
    ensures var s := CapturedSet(synchronized, groups, report, fmt);
      && (forall k :: k in Tagged(s, s.order) <==> k in ByRegistry(groups)) && Distinct(Tagged(s, s.order))
      && |Tagged(s, s.order)| <= |groups|
      && (forall k | k in ByRegistry(groups) ::
            && k in s.groups && k in s.registries && s.registries[k].key == k
            && s.groups[k].registry == k && StandsFor(s.registries, ByRegistry(groups), s.groups[k]))
  {
    hide AllRegistries, StandsFor, ByKey, ByRegistry, Built, Distinct, Captured, GroupsByKey, Tagged, BuildOk, WellFormed;
    var s, tags := CapturedSet(synchronized, groups, report, fmt), Built(synchronized, groups, report, fmt).tags;
    BuiltGroups(synchronized, groups, report, fmt);
    GroupsByKeyFinds(tags);
    RegistriesByKey(synchronized, groups, report);
    ByKeyFinds(AllRegistries(synchronized, groups, report));
    TaggedMembers(s, s.order);
    BuildIsDistinct(synchronized, groups, report);
    ByRegistryFinds(groups);
    DistinctFits(Tagged(s, s.order), RawGroupKeys(groups));
    forall k | k in ByRegistry(groups)
      ensures k in s.groups && s.groups[k].registry == k && StandsFor(s.registries, ByRegistry(groups), s.groups[k])
    {
      assert k in GroupKeys(tags);
      var i :| 0 <= i < |tags| && GroupKeys(tags)[i] == k;
    }
  }

  /** The raw groups that the set's payload carries: for each captured registry
      its captured tags, in the order of their keys. */
  lemma EmittedGroups(synchronized: seq<Registry>, groups: seq<RawTagGroup>, report: Report, fmt: Format)
    requires BuildOk(synchronized, groups, report) && Captured(synchronized, groups, report) && |groups| <= MAX_INT32
    ensures var s := CapturedSet(synchronized, groups, report, fmt);
      && UpdateTagsOk(s)
      && RawGroupKeys(RawGroups(s)) == Tagged(s, s.order)
      && forall g | g in RawGroups(s) ::
           g.registry in ByRegistry(groups) && g.tags == SortTags(ByRegistry(groups)[g.registry].tags)
  {
    hide AllRegistries, ByKey, ByRegistry, Built, Distinct, Captured, GroupsByKey, Tagged, BuildOk, WellFormed;
    hide GroupOk, EntryKeysOk, IdsDistinct, SortTags, GroupEncodable, CapturedSet, RawTagsOf;
    TaggedRegistries(synchronized, groups, report, fmt);
    var s := CapturedSet(synchronized, groups, report, fmt);
    var keys := Tagged(s, s.order);
    forall k | k in keys ensures k in s.registries && k in s.groups && GroupEncodable(s.registries[k], s.groups[k]) {
      assert StandsFor(s.registries, ByRegistry(groups), s.groups[k]);
    }
    forall i | 0 <= i < |keys|
      ensures RawGroups(s)[i].registry == keys[i]
      ensures keys[i] in ByRegistry(groups) && RawGroups(s)[i].tags == SortTags(ByRegistry(groups)[keys[i]].tags)
    {
      assert keys[i] in keys;
      assert StandsFor(s.registries, ByRegistry(groups), s.groups[keys[i]]);
    }
    assert RawGroupKeys(RawGroups(s)) == keys;
  }

  lemma SortedGroup(g: RawTagGroup)
    requires GroupWellFormed(g)
    ensures var sorted := RawTagGroup(g.registry, SortTags(g.tags));
      && TagView(sorted.tags) == TagView(g.tags) && GroupWellFormed(sorted) && (GroupFits(g) ==> GroupFits(sorted))
  {
    hide TagView, SortTags, Distinct, ValidIdentifier, TagFits;
    SortTagsView(g.tags);
    SortTagsMembers(g.tags);
  }

  /** Groups that are the captured ones, with their tags in order. */
  ghost predicate Emitted(raw: seq<RawTagGroup>, groups: seq<RawTagGroup>) {
    && Distinct(RawGroupKeys(raw))
    && (forall k :: k in RawGroupKeys(raw) <==> k in ByRegistry(groups))
    && (forall g | g in raw :: g.registry in ByRegistry(groups) && g.tags == SortTags(ByRegistry(groups)[g.registry].tags))
  }

  lemma EmittedFits(raw: seq<RawTagGroup>, groups: seq<RawTagGroup>)
    requires Emitted(raw, groups) && GroupsWellFormed(groups)
    ensures GroupsWellFormed(raw) && (GroupsFit(groups) ==> GroupsFit(raw))
  {
    hide ByRegistry, TagView, SortTags, Distinct, GroupWellFormed, GroupFits;
    ByRegistryFinds(groups);
    forall g | g in raw ensures GroupWellFormed(g) && (GroupsFit(groups) ==> GroupFits(g)) {
      SortedGroup(ByRegistry(groups)[g.registry]);
    }
  }

  /** The emitted groups are the captured ones, whatever the order of either. */
  lemma {:induction false} EmittedView(raw: seq<RawTagGroup>, groups: seq<RawTagGroup>)
    requires Emitted(raw, groups) && GroupsWellFormed(groups)
    ensures GroupView(raw) == GroupView(groups)
  {
    hide ByRegistry, GroupView, TagView, SortTags, Distinct, GroupWellFormed, GroupFits;
    GroupViewFinds(raw);
    GroupViewFinds(groups);
    ByRegistryFinds(groups);
    forall g | g in raw ensures GroupView(raw)[g.registry] == GroupView(groups)[g.registry] {
      SortedGroup(ByRegistry(groups)[g.registry]);
    }
    forall k | k in GroupView(raw) ensures GroupView(raw)[k] == GroupView(groups)[k] {
      var i :| 0 <= i < |raw| && RawGroupKeys(raw)[i] == k;
      assert raw[i] in raw;
    }
  }

  lemma RegistriesKept(synchronized: seq<Registry>, groups: seq<RawTagGroup>, report: Report, fmt: Format)
    requires BuildOk(synchronized, groups, report) && Captured(synchronized, groups, report)
    ensures Keeps(CapturedSet(synchronized, groups, report, fmt), synchronized)
  {
    RegistriesByKey(synchronized, groups, report);
    hide BuildOk, Captured, ByKey, ByRegistry, Built, GroupsByKey, WellFormed, NamesFor;
  }

  /** The set begins with these registries, unchanged. */
  ghost predicate Keeps(s: Set, registries: seq<Registry>) {
    forall i | 0 <= i < |registries| ::
      && registries[i].key in s.registries && s.registries[registries[i].key] == registries[i]
      && i < |s.order| && s.order[i] == registries[i].key
  }

  /** The set's tags payload carries exactly these ids for each registry and tag. */
  ghost predicate Carries(s: Set, groups: seq<RawTagGroup>) {
    UpdateTagsOk(s) && GroupView(RawGroups(s)) == GroupView(groups)
  }

  lemma IdsKept(synchronized: seq<Registry>, groups: seq<RawTagGroup>, report: Report, fmt: Format)
    requires BuildOk(synchronized, groups, report) && Captured(synchronized, groups, report) && |groups| <= MAX_INT32
    ensures var s := CapturedSet(synchronized, groups, report, fmt);
      && Carries(s, groups)
      && (|groups| <= MAX_ENTRIES && GroupsFit(groups) ==> DecodeUpdateTags(UpdateTags(RawGroups(s))) == Some(RawGroups(s)))
  {
    hide BuildOk, CapturedSet, ByRegistry, Distinct, Tagged, UpdateTagsOk, RawGroups, WellFormed, Surviving, ReportOk;
    hide GroupView, GroupsWellFormed, GroupsFit, SortTags, DecodeUpdateTags, UpdateTags, StandsFor;
    TaggedRegistries(synchronized, groups, report, fmt);
    EmittedGroups(synchronized, groups, report, fmt);
    var s := CapturedSet(synchronized, groups, report, fmt);
    assert |RawGroups(s)| == |RawGroupKeys(RawGroups(s))| <= |groups|;
    EmittedView(RawGroups(s), groups);
    EmittedFits(RawGroups(s), groups);
    RawGroupsRoundTrip(RawGroups(s));
  }

  lemma DatasetKeepsIds(synchronized: seq<Registry>, groups: seq<RawTagGroup>, report: Report, fmt: Format)
    requires Faithful(fmt) && BuildOk(synchronized, groups, report) && Captured(synchronized, groups, report)
    requires NoRepeats(groups) && |groups| <= MAX_INT32
    ensures var s := CapturedSet(synchronized, groups, report, fmt);
      && DecodeDataset(Built(synchronized, groups, report, fmt)) == Some(s)
      && Keeps(s, synchronized) && Carries(s, groups)
      && (|groups| <= MAX_ENTRIES && GroupsFit(groups) ==> DecodeUpdateTags(UpdateTags(RawGroups(s))) == Some(RawGroups(s)))
  {
    hide Faithful, BuildOk, Captured, NoRepeats, Built, Keeps, GroupsFit, DecodeUpdateTags, UpdateTags, CapturedSet, DecodeDataset;
    hide RawGroups, UpdateTagsOk, GroupView;
    DecodedSet(synchronized, groups, report, fmt);
    RegistriesKept(synchronized, groups, report, fmt);
    IdsKept(synchronized, groups, report, fmt);
  }

  // ----- from the payloads -----

  /** What network NBT can carry has only valid strings. */
  lemma {:induction false} EncodableTextOk(v: Value, depth: nat)
    requires Encodable(v, depth)
    ensures TextOk(v)
    decreases v
  {
    match v
    case List(_, vs) =>
      forall i | 0 <= i < |vs| ensures TextOk(vs[i]) {
        EncodableTextOk(vs[i], depth + 1);
      }
    case Compound(m) =>
      forall k | k in m ensures TextOk(m[k]) {
        EncodableTextOk(m[k], depth + 1);
      }
    case _ =>
  }

  /** The registries and the groups are what the decoders make of the payloads. */
  ghost predicate Received(payloads: seq<seq<byte>>, requireData: bool, tagsPayload: seq<byte>,
                           synchronized: seq<Registry>, groups: seq<RawTagGroup>) {
    && |payloads| == |synchronized|
    && (forall i | 0 <= i < |payloads| :: DecodeRegistryData(payloads[i], requireData) == Some(synchronized[i]))
    && DecodeUpdateTags(tagsPayload) == Some(groups)
  }

  lemma DecodedSurvives(payload: seq<byte>, requireData: bool, r: Registry)
    requires DecodeRegistryData(payload, requireData) == Some(r)
    ensures WellFormed(r) && Surviving(r)
  {
    hide DecodeRegistryData, WellFormed, TextOk, Encodable;
    CaptureReader.DecodedRegistryReencodes(payload, requireData);
    forall e | e in r.entries ensures TextOk(e.data) {
      assert DataOk(e);
      if e.data.Nil? {
        NilTextOk();
      } else {
        EncodableTextOk(e.data, 0);
      }
    }
  }

  lemma NilTextOk()
    ensures TextOk(Nil)
  {
  }

  lemma ReceivedIsCaptured(payloads: seq<seq<byte>>, requireData: bool, tagsPayload: seq<byte>,
                           synchronized: seq<Registry>, groups: seq<RawTagGroup>, report: Report)
    requires Received(payloads, requireData, tagsPayload, synchronized, groups)
    requires forall k | k in report :: ReportOk(report[k])
    ensures Captured(synchronized, groups, report) && |groups| <= MAX_ENTRIES && GroupsFit(groups)
  {
    hide DecodeRegistryData, DecodeUpdateTags, WellFormed, Surviving, ReportOk, GroupsFit, GroupsWellFormed, UpdateTags;
    CaptureReader.DecodedTagsReencode(tagsPayload);
    forall r | r in synchronized ensures WellFormed(r) && Surviving(r) {
      var i :| 0 <= i < |synchronized| && synchronized[i] == r;
      DecodedSurvives(payloads[i], requireData, r);
    }
  }

  /** A capture keeps its numeric ids. Whenever BuildDataset succeeds on what was
      decoded from captured payloads, the dataset is accepted exactly when no tag
      repeats an id. Then the set that is loaded has the synchronized registries
      as they were captured, and its tags payload has for every registry and tag
      exactly the ids that were captured, and nothing else; and it is accepted
      by the reader that accepted the captured one. */
  lemma CaptureKeepsIds(payloads: seq<seq<byte>>, requireData: bool, tagsPayload: seq<byte>,
                        synchronized: seq<Registry>, groups: seq<RawTagGroup>, report: Report, fmt: Format)
    requires Received(payloads, requireData, tagsPayload, synchronized, groups)
    requires Faithful(fmt) && (forall k | k in report :: ReportOk(report[k])) && BuildOk(synchronized, groups, report)
    ensures var s, loaded := CapturedSet(synchronized, groups, report, fmt), DecodeDataset(Built(synchronized, groups, report, fmt));
      && (loaded.Some? <==> NoRepeats(groups))
      && (loaded.Some? ==>
            && loaded == Some(s) && Keeps(s, synchronized) && Carries(s, groups)
            && DecodeUpdateTags(UpdateTags(RawGroups(s))) == Some(RawGroups(s)))
  {
    hide Faithful, BuildOk, Captured, NoRepeats, Built, Keeps, GroupsFit, DecodeUpdateTags, UpdateTags, CapturedSet, DecodeDataset;
    hide RawGroups, UpdateTagsOk, GroupView, Received, ReportOk;
    ReceivedIsCaptured(payloads, requireData, tagsPayload, synchronized, groups, report);
    AcceptedUnlessRepeated(synchronized, groups, report, fmt);
    if NoRepeats(groups) {
      DatasetKeepsIds(synchronized, groups, report, fmt);
    }
  }

  // ----- order -----

  /** What is captured, regardless of the order of the groups and of their tags. */
  ghost predicate SameCapture(a: seq<RawTagGroup>, b: seq<RawTagGroup>) {
    && Distinct(RawGroupKeys(a)) && Distinct(RawGroupKeys(b))
    && (forall g | g in a + b :: Distinct(RawKeys(g.tags))) && GroupView(a) == GroupView(b)
  }

  lemma SameViewResolvable(a: seq<RawTag>, b: seq<RawTag>, names: seq<Identifier>)
    requires Distinct(RawKeys(a)) && Distinct(RawKeys(b)) && TagView(a) == TagView(b)
    requires TagsResolvable(a, names)
    ensures TagsResolvable(b, names)
  {
    hide TagView, Distinct, Resolvable;
    TagViewFinds(a);
    TagViewFinds(b);
    forall t | t in b ensures Resolvable(t.ids, names) {
      var j :| 0 <= j < |b| && b[j] == t;
      assert RawKeys(b)[j] == t.key && t.key in TagView(b) && t.key in TagView(a);
      var i :| 0 <= i < |a| && RawKeys(a)[i] == t.key;
      assert a[i] in a;
    }
  }

  /** The group of the same registry in the other order. */
  lemma Counterpart(a: seq<RawTagGroup>, b: seq<RawTagGroup>, g: RawTagGroup) returns (h: RawTagGroup)
    requires SameCapture(a, b) && g in b
    ensures h in a && h.registry == g.registry && TagView(h.tags) == TagView(g.tags)
    ensures Distinct(RawKeys(h.tags)) && Distinct(RawKeys(g.tags))
  {
    hide TagView, GroupView, Distinct;
    GroupViewFinds(a);
    GroupViewFinds(b);
    var j :| 0 <= j < |b| && b[j] == g;
    assert RawGroupKeys(b)[j] == g.registry;
    assert g.registry in GroupView(a);
    var i :| 0 <= i < |a| && RawGroupKeys(a)[i] == g.registry;
    h := a[i];
    assert h in a + b && g in a + b;
  }

  lemma SameGroupsOk(registries: map<Identifier, Registry>, report: Report, a: seq<RawTagGroup>, b: seq<RawTagGroup>)
    requires SameCapture(a, b) && forall g | g in a :: GroupOkFor(registries, report, g)
    ensures forall g | g in b :: GroupOkFor(registries, report, g)
  {
    hide TagView, Distinct, TagsResolvable, Contiguous, NamesFor, SameCapture;
    forall g | g in b ensures GroupOkFor(registries, report, g) {
      var h := Counterpart(a, b, g);
      SameViewResolvable(h.tags, g.tags, NamesFor(registries, report, g.registry));
    }
  }

  /** BuildDataset succeeds on one order of the groups and of their tags exactly
      when it does on any other, and then returns the same dataset. */
  lemma {:induction false} OrderDoesNotMatter(synchronized: seq<Registry>, a: seq<RawTagGroup>, b: seq<RawTagGroup>, report: Report, fmt: Format)
    requires SameCapture(a, b)
    ensures BuildOk(synchronized, a, report) <==> BuildOk(synchronized, b, report)
    ensures BuildOk(synchronized, a, report) ==> Built(synchronized, a, report, fmt) == Built(synchronized, b, report, fmt)
  {
    hide Distinct, DataEncodable, GroupOkFor, GroupView, ByKey, Built;
    assert SameCapture(b, a) by {
      assert forall g :: g in b + a <==> g in a + b;
    }
    if BuildOk(synchronized, a, report) {
      SameGroupsOk(ByKey(synchronized), report, a, b);
      SameBuilt(synchronized, a, b, report, fmt);
    } else if BuildOk(synchronized, b, report) {
      SameGroupsOk(ByKey(synchronized), report, b, a);
    }
  }

  lemma SameBuilt(synchronized: seq<Registry>, a: seq<RawTagGroup>, b: seq<RawTagGroup>, report: Report, fmt: Format)
    requires BuildOk(synchronized, a, report) && BuildOk(synchronized, b, report) && SameCapture(a, b)
    ensures Built(synchronized, a, report, fmt) == Built(synchronized, b, report, fmt)
  {
    SameGroups(a, b);
    BuildIsDefined(synchronized, a, report);
    BuildIsDefined(synchronized, b, report);
    hide BuildOk, ByRegistry, SortTags, GroupView, ByKey, Definitions, StaticDefinitions, ResolvedGroups, AllResolvable, Distinct;
    SameResolved(ByRegistry(a), ByRegistry(b), ByKey(synchronized), report, InOrder(ByRegistry(a).Keys));
  }

  lemma SameResolved(a: map<Identifier, RawTagGroup>, b: map<Identifier, RawTagGroup>, registries: map<Identifier, Registry>,
                     report: Report, keys: seq<Identifier>)
    requires AllResolvable(a, registries, report, keys) && AllResolvable(b, registries, report, keys)
    requires forall k | k in keys :: a[k].registry == b[k].registry && SortTags(a[k].tags) == SortTags(b[k].tags)
    ensures ResolvedGroups(a, registries, report, keys) == ResolvedGroups(b, registries, report, keys)
  {
    hide SortTags, NamesFor, TagsResolvable, ResolvedTags;
    forall i | 0 <= i < |keys|
      ensures ResolvedGroups(a, registries, report, keys)[i] == ResolvedGroups(b, registries, report, keys)[i]
    {
      assert keys[i] in keys;
    }
  }

  lemma {:induction false} SameGroups(a: seq<RawTagGroup>, b: seq<RawTagGroup>)
    requires SameCapture(a, b)
    ensures ByRegistry(a).Keys == ByRegistry(b).Keys
    ensures forall k | k in ByRegistry(a) ::
              SortTags(ByRegistry(a)[k].tags) == SortTags(ByRegistry(b)[k].tags)
              && ByRegistry(a)[k].registry == ByRegistry(b)[k].registry
  {
    hide ByRegistry, GroupView, TagView, SortTags, Distinct;
    GroupViewFinds(a);
    GroupViewFinds(b);
    ByRegistryFinds(a);
    ByRegistryFinds(b);
    assert forall k :: k in ByRegistry(a) <==> k in GroupView(a);
    assert forall k :: k in ByRegistry(b) <==> k in GroupView(b);
    forall k | k in ByRegistry(a)
      ensures SortTags(ByRegistry(a)[k].tags) == SortTags(ByRegistry(b)[k].tags)
    {
      assert ByRegistry(a)[k] in a + b && ByRegistry(b)[k] in a + b;
      SortTagsCanonical(ByRegistry(a)[k].tags, ByRegistry(b)[k].tags);
    }
  }
}
