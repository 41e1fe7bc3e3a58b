/** Reading captured Configuration payloads. */
module CaptureCodec {
  // The parsers, and the round trips with the encoders.
  import opened Collections
  import opened Streams
  import opened Wire
  import opened NbtValue
  import opened NetworkNbt
  import opened RegistryModel
  import opened ConfigurationCodec
  import NbtCodec

  const MAX_ENTRIES: nat := 0x10_0000

  /** readCount */
  function TakeCount(b: seq<byte>): (p: Parse<nat>)
    ensures p.Done? ==> p.value <= MAX_ENTRIES && |p.rest| < |b|
  {
    var n := TakeVarInt(b);
    if n.Fail? || n.value < 0 || n.value > MAX_ENTRIES then Fail else Done(n.value, n.rest)
  }

  /** An identifier that is not in `seen`. */
  function TakeKey(b: seq<byte>, seen: set<Identifier>): (p: Parse<Identifier>)
    ensures p.Done? ==> |p.rest| < |b|
  {
    var raw := TakeText(b, MAX_STRING);
    if raw.Fail? || !ValidIdentifier(raw.value) || raw.value in seen then Fail else raw
  }

  /** The presence byte of an entry, and its NBT if there is any. */
  function TakeData(b: seq<byte>, requireData: bool): (p: Parse<Value>)
    ensures p.Done? ==> |p.rest| <= |b|
  {
    var present := Take8(b);
    if present.Fail? then Fail
    else if present.value == 1 then DecodeNetwork(present.rest)
    else if present.value == 0 && !requireData then Done(Nil, present.rest)
    else Fail
  }

  /** One item, and then more of them. */
  function Prefixed<T>(x: T, more: Parse<seq<T>>): Parse<seq<T>> {
    if more.Fail? then Fail else Done([x] + more.value, more.rest)
  }

  function TakeEntry(b: seq<byte>, requireData: bool, seen: set<Identifier>): (p: Parse<Entry>) {
    var key := TakeKey(b, seen);
    if key.Fail? then Fail
    else
      var data := TakeData(key.rest, requireData);
      if data.Fail? then Fail else Done(Entry(key.value, data.value), data.rest)
  }

  function TakeEntries(n: nat, b: seq<byte>, requireData: bool, seen: set<Identifier>): (p: Parse<seq<Entry>>)
    decreases n
  {
    if n == 0 then Done([], b)
    else
      var e := TakeEntry(b, requireData, seen);
      if e.Fail? then Fail
      else Prefixed(e.value, TakeEntries(n - 1, e.rest, requireData, seen + {e.value.key}))
  }

  /** DecodeRegistryData */
  function DecodeRegistryData(payload: seq<byte>, requireData: bool): Option<Registry> {
    var key := TakeKey(payload, {});
    if key.Fail? then None
    else
      var count := TakeCount(key.rest);
      if count.Fail? then None
      else
        var entries := TakeEntries(count.value, count.rest, requireData, {});
        if entries.Fail? || entries.rest != [] then None
        else Some(MakeRegistry(key.value, entries.value))
  }

  function TakeIds(n: nat, b: seq<byte>): (p: Parse<seq<int32>>)
    decreases n
  {
    if n == 0 then Done([], b)
    else
      var id := TakeVarInt(b);
      if id.Fail? || id.value < 0 then Fail else Prefixed(id.value, TakeIds(n - 1, id.rest))
  }

  function TakeTag(b: seq<byte>, seen: set<Identifier>): (p: Parse<RawTag>) {
    var key := TakeKey(b, seen);
    if key.Fail? then Fail
    else
      var count := TakeCount(key.rest);
      if count.Fail? then Fail
      else
        var ids := TakeIds(count.value, count.rest);
        if ids.Fail? then Fail else Done(RawTag(key.value, ids.value), ids.rest)
  }

  function TakeTags(n: nat, b: seq<byte>, seen: set<Identifier>): (p: Parse<seq<RawTag>>)
    decreases n
  {
    if n == 0 then Done([], b)
    else
      var t := TakeTag(b, seen);
      if t.Fail? then Fail else Prefixed(t.value, TakeTags(n - 1, t.rest, seen + {t.value.key}))
  }

  function TakeGroup(b: seq<byte>, seen: set<Identifier>): (p: Parse<RawTagGroup>) {
    var key := TakeKey(b, seen);
    if key.Fail? then Fail
    else
      var count := TakeCount(key.rest);
      if count.Fail? || count.value == 0 then Fail
      else
        var tags := TakeTags(count.value, count.rest, {});
        if tags.Fail? then Fail else Done(RawTagGroup(key.value, tags.value), tags.rest)
  }

  function TakeGroups(n: nat, b: seq<byte>, seen: set<Identifier>): (p: Parse<seq<RawTagGroup>>)
    decreases n
  {
    if n == 0 then Done([], b)
    else
      var g := TakeGroup(b, seen);
      if g.Fail? then Fail else Prefixed(g.value, TakeGroups(n - 1, g.rest, seen + {g.value.registry}))
  }

  /** DecodeUpdateTags */
  function DecodeUpdateTags(payload: seq<byte>): Option<seq<RawTagGroup>> {
    var count := TakeCount(payload);
    if count.Fail? then None
    else
      var groups := TakeGroups(count.value, count.rest, {});
      if groups.Fail? || groups.rest != [] then None else Some(groups.value)
  }

  // ----- round trip of RegistryData -----

  /** A count is read back exactly when it is within the reader's bound. */
  lemma CountRoundTrip(n: nat, s: seq<byte>)
    requires n <= MAX_INT32
    ensures TakeCount(Count(n) + s) == if n <= MAX_ENTRIES then Done(n, s) else Fail
  {
    hide VarInt, TakeVarInt, Count;
    CountFits(n);
    VarIntRoundTrip(n, s);
  }

  /** `b` begins with `n` bytes of the path of an identifier. */
  predicate PathBytes(b: seq<byte>, n: nat) {
    n <= |b| && forall i | 0 <= i < n :: PathByte(b[i])
  }

  /** A parse that has failed, or has gone on in the middle of an identifier
      whose length was cut to 32 bits. */
  predicate Astray<T>(p: Parse<T>, n: nat) {
    p.Done? ==> PathBytes(p.rest, n)
  }

  /** More path bytes than any parser of this module reads before it notices. */
  const MARGIN: nat := 1024

  /** Where a reader goes on in a path, it finds small numbers. */
  lemma PathByteIsNumber(b: seq<byte>)
    requires PathBytes(b, 1)
    ensures TakeVarInt(b) == Done(b[0], b[1..]) && 45 <= b[0] <= 122
    ensures TakeCount(b) == Done(b[0], b[1..])
  {
    Weights();
    assert PathByte(b[0]);
    assert TakeSeptets(b, 0, 0) == Done(b[0], b[1..]);
  }

  /** It finds no identifier there, since a path has no colon. */
  lemma PathIsNoKey(b: seq<byte>, seen: set<Identifier>)
    requires PathBytes(b, 123)
    ensures TakeKey(b, seen).Fail?
  {
    hide TakeVarInt;
    PathByteIsNumber(b);
    var key := b[1..][..b[0]];
    assert forall i | 0 <= i < |key| :: key[i] == b[1 + i];
    assert !ValidIdentifier(key);
  }

  lemma {:induction false} PathIsIds(n: nat, b: seq<byte>, m: nat)
    requires PathBytes(b, n + m)
    ensures Astray(TakeIds(n, b), m)
    decreases n
  {
    hide TakeVarInt, PathByte;
    if n > 0 {
      PathByteIsNumber(b);
      PathIsIds(n - 1, b[1..], m);
    }
  }

  lemma KeyRoundTrip(key: Identifier, seen: set<Identifier>, s: seq<byte>)
    requires ValidIdentifier(key) && key !in seen
    ensures |key| <= MAX_STRING ==> TakeKey(Text(key) + s, seen) == Done(key, s)
    ensures |key| > MAX_STRING ==> Astray(TakeKey(Text(key) + s, seen), MARGIN)
  {
    hide ValidIdentifier, TakeText, Text, PathBytes;
    if |key| <= MAX_INT32 {
      TextRoundTrip(key, MAX_STRING, s);
    } else {
      OversizedText(key, MAX_STRING, s);
      var p := TakeText(Text(key) + s, MAX_STRING);
      if p.Done? && ValidIdentifier(p.value) {
        CutKey(key, |p.value|, s);
      }
    }
  }

  /** If the front of an identifier is one, then what is cut off is a path. */
  lemma CutKey(key: Identifier, n: nat, s: seq<byte>)
    requires ValidIdentifier(key) && n + MARGIN <= |key| && ValidIdentifier(key[..n])
    ensures PathBytes(key[n..] + s, MARGIN)
  {
    var c :| 0 < c < n - 1 && key[..n][c] == ':' as int;
    assert key[c] == ':' as int;
    forall i | n <= i < |key| ensures PathByte(key[i]) {
    }
  }

  /** What a reader that may insist on data accepts of an entry. */
  predicate EntryFits(e: Entry, requireData: bool) {
    |e.key| <= MAX_STRING && (requireData ==> !e.data.Nil?)
  }

  ghost predicate EntriesFit(es: seq<Entry>, requireData: bool) {
    forall e | e in es :: EntryFits(e, requireData)
  }

  lemma DataRoundTrip(v: Value, requireData: bool, s: seq<byte>)
    requires v.Nil? || Encodable(v, 0)
    ensures TakeData((if v.Nil? then [0] else [1] + Network(v)) + s, requireData)
         == if v.Nil? && requireData then Fail else Done(v, s)
  {
    if v.Nil? {
      assert ([0] + s)[1..] == s;
    } else {
      assert ([1] + Network(v) + s)[1..] == Network(v) + s;
      NetworkRoundTrip(v, s);
    }
  }

  ghost predicate EntryOk(e: Entry, seen: set<Identifier>) {
    ValidIdentifier(e.key) && e.key !in seen && DataOk(e)
  }

  lemma PathIsNoData(b: seq<byte>, requireData: bool)
    requires PathBytes(b, 1)
    ensures TakeData(b, requireData).Fail?
  {
    hide DecodeNetwork;
    assert PathByte(b[0]);
  }

  /** An encoded entry is read back, or refused. */
  lemma EntryStep(e: Entry, requireData: bool, seen: set<Identifier>, rest: seq<byte>)
    requires EntryOk(e, seen)
    ensures TakeEntry(EntryBytes(e) + rest, requireData, seen) == if EntryFits(e, requireData) then Done(e, rest) else Fail
  {
    hide ValidIdentifier, Network, DecodeNetwork, Text, TakeData, TakeKey, Encodable;
    var data: seq<byte> := if e.data.Nil? then [0] else [1] + Network(e.data);
    assert EntryBytes(e) + rest == Text(e.key) + (data + rest);
    KeyRoundTrip(e.key, seen, data + rest);
    DataRoundTrip(e.data, requireData, rest);
    var key := TakeKey(EntryBytes(e) + rest, seen);
    if |e.key| > MAX_STRING && key.Done? {
      PathIsNoData(key.rest, requireData);
    }
  }

  lemma EntriesEnd(requireData: bool, seen: set<Identifier>, s: seq<byte>)
    ensures TakeEntries(0, EntriesBytes([]) + s, requireData, seen) == Done([], s) && EntriesFit([], requireData)
  {
    assert EntriesBytes([]) + s == s;
  }

  lemma EntriesSplit(es: seq<Entry>, s: seq<byte>)
    requires es != []
    ensures EntriesBytes(es) + s == EntryBytes(es[0]) + (EntriesBytes(es[1..]) + s)
  {
    hide EntryBytes;
  }

  lemma {:induction false} EntriesRoundTrip(es: seq<Entry>, requireData: bool, seen: set<Identifier>, s: seq<byte>)
    requires (forall e | e in es :: EntryOk(e, seen)) && Distinct(Keys(es))
    ensures TakeEntries(|es|, EntriesBytes(es) + s, requireData, seen)
         == if EntriesFit(es, requireData) then Done(es, s) else Fail
    decreases |es|
  {
    hide EntryOk, EntryBytes, TakeEntry, EntriesBytes, EntryFits, EntriesFit, Distinct;
    if es == [] {
      EntriesEnd(requireData, seen, s);
    } else {
      var e, rest := es[0], EntriesBytes(es[1..]) + s;
      EntriesSplit(es, s);
      RestOfEntries(es, requireData, seen);
      EntryStep(e, requireData, seen, rest);
      EntriesRoundTrip(es[1..], requireData, seen + {e.key}, s);
    }
  }

  lemma RestOfEntries(es: seq<Entry>, requireData: bool, seen: set<Identifier>)
    requires es != [] && (forall e | e in es :: EntryOk(e, seen)) && Distinct(Keys(es))
    ensures EntryOk(es[0], seen) && Distinct(Keys(es[1..])) && es == [es[0]] + es[1..]
    ensures forall e | e in es[1..] :: EntryOk(e, seen + {es[0].key})
    ensures EntriesFit(es, requireData) <==> EntryFits(es[0], requireData) && EntriesFit(es[1..], requireData)
  {
    hide ValidIdentifier, DataOk, EntryFits;
    var keys := Keys(es);
    assert Keys(es[1..]) == keys[1..] && es == [es[0]] + es[1..];
    forall i | 0 < i < |es| ensures EntryOk(es[i], seen + {es[0].key}) {
      assert keys[i] != keys[0] && EntryOk(es[i], seen);
    }
  }

  /** A registry's payload is read back, with the same key, entries, order and
      data, exactly when its identifiers and its size are within the reader's
      bounds and the data that the reader insists on is there; otherwise it is
      refused. */
  lemma RegistryDataRoundTrip(r: Registry, requireData: bool)
    requires WellFormed(r) && RegistryDataOk(r)
    ensures DecodeRegistryData(RegistryData(r), requireData)
         == if RegistryFits(r, requireData) then Some(r) else None
  {
    hide ValidIdentifier, Text, TakeKey, Count, TakeCount, TakeEntries, EntriesBytes, DataOk, EntriesFit;
    var body := EntriesBytes(r.entries);
    KeyRoundTrip(r.key, {}, Count(|r.entries|) + body);
    CountRoundTrip(|r.entries|, body);
    assert forall e | e in r.entries :: EntryOk(e, {});
    EntriesRoundTrip(r.entries, requireData, {}, []);
    assert body + [] == body;
    if |r.key| > MAX_STRING {
      var key := TakeKey(RegistryData(r), {});
      if key.Done? {
        PathIsNoEntries(key.rest, requireData);
      }
    }
  }

  lemma PathIsNoEntries(b: seq<byte>, requireData: bool)
    requires PathBytes(b, MARGIN)
    ensures TakeCount(b).Done? && TakeEntries(TakeCount(b).value, TakeCount(b).rest, requireData, {}).Fail?
  {
    hide TakeKey, TakeCount;
    PathByteIsNumber(b);
    PathIsNoKey(b[1..], {});
  }

  ghost predicate RegistryFits(r: Registry, requireData: bool) {
    && |r.key| <= MAX_STRING && |r.entries| <= MAX_ENTRIES
    && EntriesFit(r.entries, requireData)
  }

  // ----- round trip of UpdateTags -----

  /** Groups of tags as the encoder can emit them: each registry once, each of
      its tags once, under valid identifiers. */
  ghost predicate TagsWellFormed(tags: seq<RawTag>) {
    && (forall t | t in tags :: ValidIdentifier(t.key) && |t.ids| <= MAX_INT32)
    && Distinct(RawKeys(tags))
  }

  ghost predicate GroupWellFormed(g: RawTagGroup) {
    ValidIdentifier(g.registry) && |g.tags| <= MAX_INT32 && TagsWellFormed(g.tags)
  }

  ghost predicate GroupsWellFormed(groups: seq<RawTagGroup>) {
    && (forall g | g in groups :: GroupWellFormed(g))
    && Distinct(RawGroupKeys(groups))
  }

  function RawKeys(tags: seq<RawTag>): (keys: seq<Identifier>)
    ensures |keys| == |tags| && forall i | 0 <= i < |keys| :: keys[i] == tags[i].key
  {
    seq(|tags|, i requires 0 <= i < |tags| => tags[i].key)
  }

  function RawGroupKeys(groups: seq<RawTagGroup>): (keys: seq<Identifier>)
    ensures |keys| == |groups| && forall i | 0 <= i < |keys| :: keys[i] == groups[i].registry
  {
    seq(|groups|, i requires 0 <= i < |groups| => groups[i].registry)
  }

  predicate NonNegative(ids: seq<int32>) {
    forall i | 0 <= i < |ids| :: ids[i] >= 0
  }

  /** What the reader accepts of a tag and of a group. */
  predicate TagFits(t: RawTag) {
    |t.key| <= MAX_STRING && |t.ids| <= MAX_ENTRIES && NonNegative(t.ids)
  }

  ghost predicate TagsFit(tags: seq<RawTag>) {
    forall t | t in tags :: TagFits(t)
  }

  ghost predicate GroupFits(g: RawTagGroup) {
    |g.registry| <= MAX_STRING && 0 < |g.tags| <= MAX_ENTRIES && TagsFit(g.tags)
  }

  ghost predicate GroupsFit(groups: seq<RawTagGroup>) {
    forall g | g in groups :: GroupFits(g)
  }

  lemma {:induction false} IdsRoundTrip(ids: seq<int32>, s: seq<byte>)
    ensures TakeIds(|ids|, IdsBytes(ids) + s) == if NonNegative(ids) then Done(ids, s) else Fail
    decreases |ids|
  {
    hide VarInt, TakeVarInt;
    if ids == [] {
      assert IdsBytes(ids) + s == s;
    } else {
      var rest := IdsBytes(ids[1..]) + s;
      assert IdsBytes(ids) + s == VarInt(ids[0]) + rest;
      VarIntRoundTrip(ids[0], rest);
      IdsRoundTrip(ids[1..], s);
      assert ids == [ids[0]] + ids[1..];
      assert NonNegative(ids) <==> ids[0] >= 0 && NonNegative(ids[1..]);
    }
  }

  lemma TagStep(t: RawTag, seen: set<Identifier>, rest: seq<byte>)
    requires ValidIdentifier(t.key) && |t.ids| <= MAX_INT32 && t.key !in seen
    ensures TagFits(t) ==> TakeTag(TagBytes(t) + rest, seen) == Done(t, rest)
    ensures !TagFits(t) ==> Astray(TakeTag(TagBytes(t) + rest, seen), 123)
  {
    hide ValidIdentifier, Text, Count, IdsBytes, TakeIds, TakeKey, TakeCount, NonNegative;
    var after := IdsBytes(t.ids) + rest;
    assert TagBytes(t) + rest == Text(t.key) + (Count(|t.ids|) + after);
    KeyRoundTrip(t.key, seen, Count(|t.ids|) + after);
    CountRoundTrip(|t.ids|, after);
    IdsRoundTrip(t.ids, rest);
    if |t.key| > MAX_STRING {
      var key := TakeKey(TagBytes(t) + rest, seen);
      if key.Done? {
        PathByteIsNumber(key.rest);
        PathIsIds(key.rest[0], key.rest[1..], 123);
      }
    }
  }

  /** A reader that has gone astray finds no further tag. */
  lemma PathIsNoTags(n: nat, b: seq<byte>, seen: set<Identifier>)
    requires PathBytes(b, 123)
    ensures n == 0 ==> TakeTags(n, b, seen) == Done([], b)
    ensures n > 0 ==> TakeTags(n, b, seen).Fail?
  {
    hide TakeKey, PathBytes;
    PathIsNoKey(b, seen);
  }

  /** Nor a further group. */
  lemma PathIsNoGroups(n: nat, b: seq<byte>, seen: set<Identifier>)
    requires PathBytes(b, 123)
    ensures n == 0 ==> TakeGroups(n, b, seen) == Done([], b)
    ensures n > 0 ==> TakeGroups(n, b, seen).Fail?
  {
    hide TakeKey, PathBytes;
    PathIsNoKey(b, seen);
  }

  lemma TagsEnd(seen: set<Identifier>, s: seq<byte>)
    ensures TakeTags(0, TagsBytes([]) + s, seen) == Done([], s) && TagsFit([])
  {
    assert TagsBytes([]) + s == s;
  }

  lemma TagsSplit(tags: seq<RawTag>, s: seq<byte>)
    requires tags != []
    ensures TagsBytes(tags) + s == TagBytes(tags[0]) + (TagsBytes(tags[1..]) + s)
  {
    hide TagBytes;
  }

  lemma {:induction false} TagsRoundTrip(tags: seq<RawTag>, seen: set<Identifier>, s: seq<byte>)
    requires TagsWellFormed(tags) && forall t | t in tags :: t.key !in seen
    ensures TagsFit(tags) ==> TakeTags(|tags|, TagsBytes(tags) + s, seen) == Done(tags, s)
    ensures !TagsFit(tags) ==> Astray(TakeTags(|tags|, TagsBytes(tags) + s, seen), 123)
    decreases |tags|
  {
    hide TagsWellFormed, TagBytes, TakeTag, TagsBytes, TagFits, TagsFit, PathBytes;
    if tags == [] {
      TagsEnd(seen, s);
    } else {
      var t, rest := tags[0], TagsBytes(tags[1..]) + s;
      TagsSplit(tags, s);
      RestOfTags(tags, seen);
      TagStep(t, seen, rest);
      var p := TakeTag(TagBytes(t) + rest, seen);
      if TagFits(t) {
        TagsRoundTrip(tags[1..], seen + {t.key}, s);
      } else if p.Done? {
        PathIsNoTags(|tags| - 1, p.rest, seen + {p.value.key});
      }
    }
  }

  lemma RestOfTags(tags: seq<RawTag>, seen: set<Identifier>)
    requires TagsWellFormed(tags) && tags != [] && forall t | t in tags :: t.key !in seen
    ensures TagsWellFormed(tags[1..]) && forall t | t in tags[1..] :: t.key !in seen + {tags[0].key}
    ensures ValidIdentifier(tags[0].key) && |tags[0].ids| <= MAX_INT32
    ensures tags[0].key !in seen && tags == [tags[0]] + tags[1..]
    ensures TagsFit(tags) <==> TagFits(tags[0]) && TagsFit(tags[1..])
  {
    var keys := RawKeys(tags);
    DistinctFirst(keys);
    hide ValidIdentifier, TagFits, Distinct;
    assert RawKeys(tags[1..]) == keys[1..] && tags == [tags[0]] + tags[1..];
    forall i | 0 < i < |tags| ensures tags[i].key != tags[0].key {
      assert keys[i] != keys[0];
    }
    assert tags[0] in tags;
  }

  lemma GroupStep(g: RawTagGroup, seen: set<Identifier>, rest: seq<byte>)
    requires GroupWellFormed(g) && g.registry !in seen
    ensures GroupFits(g) ==> TakeGroup(GroupBytes(g) + rest, seen) == Done(g, rest)
    ensures !GroupFits(g) ==> Astray(TakeGroup(GroupBytes(g) + rest, seen), 123)
  {
    hide PathBytes, ValidIdentifier, Text, Count, TagsBytes, TakeTags, TakeKey, TakeCount, TagFits, TagsFit, TagsWellFormed;
    var after := TagsBytes(g.tags) + rest;
    assert GroupBytes(g) + rest == Text(g.registry) + (Count(|g.tags|) + after);
    KeyRoundTrip(g.registry, seen, Count(|g.tags|) + after);
    CountRoundTrip(|g.tags|, after);
    TagsRoundTrip(g.tags, {}, rest);
    if |g.registry| > MAX_STRING {
      var key := TakeKey(GroupBytes(g) + rest, seen);
      if key.Done? {
        PathIsNoGroupBody(key.rest);
      }
    }
  }

  lemma PathIsNoGroupBody(b: seq<byte>)
    requires PathBytes(b, MARGIN)
    ensures TakeCount(b).Done? && TakeTags(TakeCount(b).value, TakeCount(b).rest, {}).Fail?
  {
    hide TakeTags, TakeCount;
    PathByteIsNumber(b);
    PathIsNoTags(b[0], b[1..], {});
  }

  lemma RestOfGroups(groups: seq<RawTagGroup>, seen: set<Identifier>)
    requires GroupsWellFormed(groups) && groups != [] && forall g | g in groups :: g.registry !in seen
    ensures GroupsWellFormed(groups[1..]) && forall g | g in groups[1..] :: g.registry !in seen + {groups[0].registry}
    ensures GroupWellFormed(groups[0]) && groups[0].registry !in seen && groups == [groups[0]] + groups[1..]
    ensures GroupsFit(groups) <==> GroupFits(groups[0]) && GroupsFit(groups[1..])
  {
    hide GroupWellFormed, GroupFits;
    var keys := RawGroupKeys(groups);
    assert RawGroupKeys(groups[1..]) == keys[1..] && groups == [groups[0]] + groups[1..];
    forall i | 0 < i < |groups| ensures groups[i].registry != groups[0].registry {
      assert keys[i] != keys[0];
    }
    assert groups[0] in groups;
  }

  lemma GroupsEnd(seen: set<Identifier>, s: seq<byte>)
    ensures TakeGroups(0, GroupsBytes([]) + s, seen) == Done([], s) && GroupsFit([])
  {
    assert GroupsBytes([]) + s == s;
  }

  lemma GroupsSplit(groups: seq<RawTagGroup>, s: seq<byte>)
    requires groups != []
    ensures GroupsBytes(groups) + s == GroupBytes(groups[0]) + (GroupsBytes(groups[1..]) + s)
  {
    hide GroupBytes;
  }

  lemma {:induction false} GroupsRoundTrip(groups: seq<RawTagGroup>, seen: set<Identifier>, s: seq<byte>)
    requires GroupsWellFormed(groups) && forall g | g in groups :: g.registry !in seen
    ensures GroupsFit(groups) ==> TakeGroups(|groups|, GroupsBytes(groups) + s, seen) == Done(groups, s)
    ensures !GroupsFit(groups) ==> Astray(TakeGroups(|groups|, GroupsBytes(groups) + s, seen), 123)
    decreases |groups|
  {
    hide PathBytes, GroupsWellFormed, GroupWellFormed, GroupBytes, TakeGroup, GroupsBytes, GroupFits, GroupsFit;
    if groups == [] {
      GroupsEnd(seen, s);
    } else {
      var g, rest := groups[0], GroupsBytes(groups[1..]) + s;
      GroupsSplit(groups, s);
      RestOfGroups(groups, seen);
      GroupStep(g, seen, rest);
      var p := TakeGroup(GroupBytes(g) + rest, seen);
      if GroupFits(g) {
        GroupsRoundTrip(groups[1..], seen + {g.registry}, s);
      } else if p.Done? {
        PathIsNoGroups(|groups| - 1, p.rest, seen + {p.value.registry});
      }
    }
  }

  /** A tags payload is read back exactly when the reader's bounds hold and no
      group is empty; otherwise it is refused. */
  lemma RawGroupsRoundTrip(groups: seq<RawTagGroup>)
    requires GroupsWellFormed(groups) && |groups| <= MAX_INT32
    ensures DecodeUpdateTags(UpdateTags(groups))
         == if |groups| <= MAX_ENTRIES && GroupsFit(groups) then Some(groups) else None
  {
    hide GroupsWellFormed, GroupsBytes, TakeGroups, Count, TakeCount, GroupFits, GroupsFit;
    CountRoundTrip(|groups|, GroupsBytes(groups));
    GroupsRoundTrip(groups, {}, []);
    assert GroupsBytes(groups) + [] == GroupsBytes(groups);
  }

  // ----- round trip of a set's tags -----

  /** A set that NewSet returns keeps NewSet's checks. */
  lemma MadeSetIsLinked(registries: seq<Registry>, groups: seq<TagGroup>)
    requires SetOk(registries, groups)
    ensures Linked(MakeSet(registries, groups))
  {
    hide GroupOk;
    ByKeyFinds(registries);
    GroupsByKeyFinds(groups);
    forall k | k in GroupsByKey(groups)
      ensures GroupsByKey(groups)[k].registry == k
    {
      var i :| 0 <= i < |groups| && GroupKeys(groups)[i] == k;
      assert GroupsByKey(groups)[groups[i].registry] == groups[i];
    }
  }

  /** The ids of a tag's entries: each is the entry's position in its registry,
      cut to 32 bits; so it names the entry unless positions do not fit. */
  ghost predicate IdsName(r: Registry, entries: seq<Identifier>, ids: seq<int32>) {
    |ids| == |entries| && forall i | 0 <= i < |ids| :: IdNames(r, entries[i], ids[i])
  }

  ghost predicate IdNames(r: Registry, entry: Identifier, id: int32) {
    && (exists p :: 0 <= p < |r.entries| && r.entries[p].key == entry && id == Position(p))
    && (|r.entries| <= MAX_INT32 + 1 ==> 0 <= id < |r.entries| && r.entries[id].key == entry)
  }

  lemma IdsResolve(r: Registry, entries: seq<Identifier>)
    requires WellFormed(r) && forall e | e in entries :: e in r.ids
    ensures IdsName(r, entries, IdsFor(r, entries))
  {
    var keys := Keys(r.entries);
    IdsArePositions(keys);
    hide WellFormed, Distinct, Position, IdsOf;
    forall i | 0 <= i < |entries| ensures IdNames(r, entries[i], IdsFor(r, entries)[i]) {
      assert entries[i] in keys;
      var p :| 0 <= p < |keys| && keys[p] == entries[i];
      assert r.ids[keys[p]] == Position(p);
      if p <= MAX_INT32 {
        PositionFits(p);
      }
    }
  }

  /** A group on the wire is the set's group of that registry: the same tags in
      the same order, each with the positions of its entries. */
  ghost predicate Resolves(s: Set, g: RawTagGroup) {
    && g.registry in s.registries && g.registry in s.groups
    && var r, tags := s.registries[g.registry], s.groups[g.registry].tags;
       && |g.tags| == |tags|
       && forall j | 0 <= j < |tags| :: g.tags[j].key == tags[j].key && IdsName(r, tags[j].entries, g.tags[j].ids)
  }

  ghost predicate GoodGroup(registries: map<Identifier, Registry>, k: Identifier, g: TagGroup) {
    GroupOk(registries, g) && g.registry == k && WellFormed(registries[k])
  }

  lemma SetGroupsAreGood(registries: seq<Registry>, groups: seq<TagGroup>)
    requires SetOk(registries, groups) && forall r | r in registries :: WellFormed(r)
    ensures forall k | k in GroupsByKey(groups) :: GoodGroup(ByKey(registries), k, GroupsByKey(groups)[k])
  {
    MadeSetIsLinked(registries, groups);
    GroupsByKeyFinds(groups);
    ByKeyFinds(registries);
    hide WellFormed, TagsOk, ValidIdentifier, Distinct, GroupsByKey, ByKey;
    forall k | k in GroupsByKey(groups) ensures GoodGroup(ByKey(registries), k, GroupsByKey(groups)[k]) {
      var i :| 0 <= i < |groups| && GroupKeys(groups)[i] == k;
      assert groups[i] in groups;
      var j :| 0 <= j < |registries| && RegistryKeys(registries)[j] == k;
      assert registries[j] in registries;
    }
  }

  lemma RawGroupIsGood(s: Set, k: Identifier)
    requires k in s.registries && k in s.groups
    requires GoodGroup(s.registries, k, s.groups[k]) && GroupEncodable(s.registries[k], s.groups[k])
    ensures var g := RawTagGroup(k, RawTagsOf(s.registries[k], s.groups[k].tags));
      GroupWellFormed(g) && Resolves(s, g)
  {
    hide WellFormed, ValidIdentifier, IdsName;
    var r, tags := s.registries[k], s.groups[k].tags;
    var raw := RawTagsOf(r, tags);
    forall j | 0 <= j < |tags|
      ensures ValidIdentifier(raw[j].key) && |raw[j].ids| <= MAX_INT32
      ensures raw[j].key == tags[j].key && IdsName(r, tags[j].entries, raw[j].ids)
    {
      assert tags[j] in tags;
      IdsResolve(r, tags[j].entries);
    }
    assert RawKeys(raw) == TagKeys(tags);
  }

  /** A set's tags payload is read back as the set's groups, in registry order,
      exactly when the reader's bounds hold, and is refused otherwise; and every
      id in it is the position of the entry that it stands for. */
  lemma UpdateTagsRoundTrip(registries: seq<Registry>, groups: seq<TagGroup>)
    requires SetOk(registries, groups) && forall r | r in registries :: WellFormed(r)
    requires UpdateTagsOk(MakeSet(registries, groups))
    ensures var s := MakeSet(registries, groups); var raw := RawGroups(s);
      && Linked(s) && GroupsWellFormed(raw) && RawGroupKeys(raw) == Tagged(s, s.order)
      && (forall g | g in raw :: Resolves(s, g))
      && DecodeUpdateTags(UpdateTags(raw)) == if |raw| <= MAX_ENTRIES && GroupsFit(raw) then Some(raw) else None
  {
    hide WellFormed, ByKey, GroupsByKey, DecodeUpdateTags, UpdateTags, GoodGroup, GroupEncodable, GroupWellFormed, Resolves;
    hide GroupsFit, Distinct, RawTagsOf, Tagged;
    MadeSetIsLinked(registries, groups);
    SetGroupsAreGood(registries, groups);
    var s := MakeSet(registries, groups);
    TaggedMembers(s, s.order);
    var keys, raw := Tagged(s, s.order), RawGroups(s);
    forall i | 0 <= i < |raw| ensures GroupWellFormed(raw[i]) && Resolves(s, raw[i]) {
      assert keys[i] in keys;
      RawGroupIsGood(s, keys[i]);
    }
    assert RawGroupKeys(raw) == keys;
    RawGroupsRoundTrip(raw);
  }
}
