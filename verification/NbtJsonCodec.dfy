/** The recursive functions and loops of the typed JSON codec, proved against NbtJson.

    The functions that dispatch on a type call the functions that loop over a
    list or a map, which call them again for the elements; all of them are
    methods here. A loop over a map visits its keys in any order, so its
    invariants speak of the keys that are left (Encoded, Decoded); a loop over a
    list of items keeps what is done and what is to go together equal to the
    whole (Joined). */
module NbtJsonCodec {
  import opened Collections
  import opened Streams
  import opened ModifiedUtf8
  import opened Sorting
  import opened NbtValue
  import opened NbtJson

  // ----- encoding -----

  method EncodeBytes(bytes: seq<byte>, fmt: Format) returns (items: seq<Json>)
    ensures items == ByteTrees(bytes, fmt)
  {
    items := [];
    for i := 0 to |bytes|
      invariant items == ByteTrees(bytes[..i], fmt)
    {
      items := items + [IntTree(Signed(bytes[i], TWO_8), fmt)];
    }
    assert bytes[..|bytes|] == bytes;
  }

  method EncodeLongs(longs: seq<int64>, fmt: Format) returns (items: seq<Json>)
    ensures items == LongTrees(longs, fmt)
  {
    items := [];
    for i := 0 to |longs|
      invariant items == LongTrees(longs[..i], fmt)
    {
      items := items + [PairTree(longs[i], fmt)];
    }
    assert longs[..|longs|] == longs;
  }

  method EncodeLeaf(v: Value, fmt: Format) returns (j: Option<Json>)
    requires !v.List? && !v.Compound?
    ensures j == if JsonOk(v) then Some(LeafTree(v, fmt)) else None
  {
    match v
    case Nil => return None;
    case Float(f) => return if FiniteSingle(f) then Some(JNumber(fmt.ofSingle(f))) else None;
    case Double(d) => return if FiniteDouble(d) then Some(JNumber(fmt.ofDouble(d))) else None;
    case ByteArray(bytes) =>
      var items := EncodeBytes(bytes, fmt);
      return Some(JArray(items));
    case LongArray(longs) =>
      var items := EncodeLongs(longs, fmt);
      return Some(JArray(items));
    case _ => return Some(LeafTree(v, fmt));
  }

  /** encodeJSONPayload */
  method EncodePayload(v: Value, fmt: Format) returns (j: Option<Json>)
    ensures j == if JsonOk(v) then Some(Tree(v, fmt)) else None
    decreases v, 1
  {
    if v.List? {
      j := EncodeList(v, fmt);
    } else if v.Compound? {
      j := EncodeCompound(v, fmt);
    } else {
      j := EncodeLeaf(v, fmt);
    }
  }

  /** encodeJSONNode */
  method EncodeNode(v: Value, fmt: Format) returns (j: Option<Json>)
    ensures j == if JsonOk(v) then Some(Node(v, fmt)) else None
    decreases v, 2
  {
    hide Typed, Tree, JsonOk;
    var payload := EncodePayload(v, fmt);
    return if payload.Some? then Some(Typed(TypeOf(v), payload.value)) else None;
  }

  method EncodeList(v: Value, fmt: Format) returns (j: Option<Json>)
    requires v.List?
    ensures j == if JsonOk(v) then Some(Tree(v, fmt)) else None
    decreases v, 0
  {
    if v.elementType > LONG_ARRAY || (v.elementType == END && |v.values| != 0) {
      return None;
    }
    var items := EncodeElements(v, fmt);
    if items.None? {
      return None;
    }
    return Some(Typed(v.elementType, JArray(items.value)));
  }

  lemma {:induction false} ElementTreesAppend(vs: seq<Value>, v: Value, fmt: Format)
    ensures ElementTrees(vs + [v], fmt) == ElementTrees(vs, fmt) + [Tree(v, fmt)]
    decreases |vs|
  {
    if |vs| == 0 {
      assert ([] + [v])[1..] == [];
    } else {
      assert (vs + [v])[1..] == vs[1..] + [v];
      ElementTreesAppend(vs[1..], v, fmt);
    }
  }

  method EncodeElements(v: Value, fmt: Format) returns (items: Option<seq<Json>>)
    requires v.List?
    ensures items.Some? <==> forall i | 0 <= i < |v.values| ::
              TypeOf(v.values[i]) == v.elementType && !v.values[i].Nil? && JsonOk(v.values[i])
    ensures items.Some? ==> items.value == ElementTrees(v.values, fmt)
    decreases v, 0, 0
  {
    hide JsonOk, Tree, TypeOf;
    var done: seq<Json> := [];
    for i := 0 to |v.values|
      invariant forall k | 0 <= k < i :: TypeOf(v.values[k]) == v.elementType && !v.values[k].Nil? && JsonOk(v.values[k])
      invariant done == ElementTrees(v.values[..i], fmt)
    {
      hide JsonOk, Tree, TypeOf, ElementTrees;
      var entry := v.values[i];
      if entry.Nil? || TypeOf(entry) != v.elementType {
        return None;
      }
      var payload := EncodePayload(entry, fmt);
      if payload.None? {
        return None;
      }
      ElementTreesAppend(v.values[..i], entry, fmt);
      assert v.values[..i + 1] == v.values[..i] + [entry];
      done := done + [payload.value];
    }
    assert v.values[..|v.values|] == v.values;
    return Some(done);
  }

  lemma CompoundTree(v: Value, fmt: Format)
    requires v.Compound?
    ensures Tree(v, fmt) == JObject(FieldTrees(v, SortedKeys(v.fields.Keys), fmt))
  {
  }

  /** One entry that cannot be represented is enough. */
  lemma NotJsonOk(v: Value, k: GoString)
    requires v.Compound? && k in v.fields
    ensures v.fields[k].Nil? || !JsonOk(v.fields[k]) ==> !JsonOk(v)
  {
  }

  /** The nodes that have been made of the entries outside `unseen`. */
  ghost predicate Encoded(v: Value, unseen: set<GoString>, fields: map<GoString, Json>, fmt: Format) {
    && v.Compound? && unseen <= v.fields.Keys && fields.Keys == v.fields.Keys - unseen
    && forall k | k in fields :: JsonOk(v.fields[k]) && fields[k] == Node(v.fields[k], fmt)
  }

  lemma EncodedStep(v: Value, unseen: set<GoString>, fields: map<GoString, Json>, fmt: Format, k: GoString)
    requires Encoded(v, unseen, fields, fmt) && k in unseen
    ensures k in v.fields
    ensures JsonOk(v.fields[k]) ==> Encoded(v, unseen - {k}, fields[k := Node(v.fields[k], fmt)], fmt)
  {
    hide JsonOk, Node;
  }

  lemma EncodedAll(v: Value, fields: map<GoString, Json>, fmt: Format)
    requires Encoded(v, {}, fields, fmt)
    ensures JsonOk(v) && fields.Keys == v.fields.Keys && forall k | k in fields :: fields[k] == Node(v.fields[k], fmt)
  {
    hide Node;
  }

  /** The loop over a compound's entries, in whatever order they come; the
      members are then written in the order of their names. */
  method EncodeCompound(v: Value, fmt: Format) returns (j: Option<Json>)
    requires v.Compound?
    ensures j == if JsonOk(v) then Some(Tree(v, fmt)) else None
    decreases v, 0
  {
    hide Node, Tree, JsonOk, SortedKeys, FieldTrees;
    CompoundTree(v, fmt);
    var fields: map<GoString, Json> := map[];
    var unseen := v.fields.Keys;
    while unseen != {}
      invariant Encoded(v, unseen, fields, fmt)
      decreases |unseen|
    {
      hide Node, Tree, JsonOk, Encoded, SortedKeys, FieldTrees;
      var k :| k in unseen;
      EncodedStep(v, unseen, fields, fmt, k);
      NotJsonOk(v, k);
      if v.fields[k].Nil? {
        return None;
      }
      var node := EncodeNode(v.fields[k], fmt);
      if node.None? {
        return None;
      }
      fields := fields[k := node.value];
      unseen := unseen - {k};
    }
    EncodedAll(v, fields, fmt);
    var members := MarshalFields(v, fields, fmt);
    return Some(JObject(members));
  }

  method MarshalFields(v: Value, fields: map<GoString, Json>, fmt: Format) returns (members: seq<Member>)
    requires v.Compound? && fields.Keys == v.fields.Keys
    requires forall k | k in fields :: fields[k] == Node(v.fields[k], fmt)
    ensures members == FieldTrees(v, SortedKeys(v.fields.Keys), fmt)
  {
    hide Node, Tree, SortedKeys;
    var keys := SortStrings(fields.Keys);
    members := [];
    for i := 0 to |keys|
      invariant members == FieldTrees(v, keys[..i], fmt)
    {
      hide Node, Tree, SortedKeys, FieldTrees;
      assert keys[i] in v.fields;
      FieldTreesAppend(v, keys[..i], keys[i], fmt);
      assert keys[..i + 1] == keys[..i] + [keys[i]];
      members := members + [Member(Cleaned(keys[i]), fields[keys[i]])];
    }
    assert keys[..|keys|] == keys;
  }

  // ----- decoding -----

  /** parseByteArray's loop */
  method DecodeBytes(items: seq<Json>) returns (r: Option<seq<byte>>)
    ensures r == ParseBytes(items)
  {
    hide Joined;
    var bytes: seq<byte> := [];
    assert items[0..] == items;
    JoinedEnds<byte>(bytes, ParseBytes(items));
    for i := 0 to |items|
      invariant Joined<byte>(bytes, ParseBytes(items[i..])) == ParseBytes(items)
    {
      hide ParseInteger, Joined;
      assert items[i..][1..] == items[i + 1..];
      var x := ParseInteger(items[i], 0x80);
      if x.None? {
        JoinedEnds<byte>(bytes, None);
        return None;
      }
      JoinedStep<byte>(bytes, Unsigned(x.value, TWO_8), ParseBytes(items[i + 1..]));
      bytes := bytes + [Unsigned(x.value, TWO_8)];
    }
    assert items[|items|..] == [];
    JoinedEnds<byte>(bytes, None);
    return Some(bytes);
  }

  /** parseIntArray's loop */
  method DecodeInts(items: seq<Json>) returns (r: Option<seq<int32>>)
    ensures r == ParseInts(items)
  {
    hide Joined;
    var ints: seq<int32> := [];
    assert items[0..] == items;
    JoinedEnds<int32>(ints, ParseInts(items));
    for i := 0 to |items|
      invariant Joined<int32>(ints, ParseInts(items[i..])) == ParseInts(items)
    {
      hide ParseInteger, Joined;
      assert items[i..][1..] == items[i + 1..];
      var x := ParseInteger(items[i], 0x8000_0000);
      if x.None? {
        JoinedEnds<int32>(ints, None);
        return None;
      }
      JoinedStep<int32>(ints, x.value, ParseInts(items[i + 1..]));
      ints := ints + [x.value];
    }
    assert items[|items|..] == [];
    JoinedEnds<int32>(ints, None);
    return Some(ints);
  }

  /** parseLongArray's loop */
  method DecodeLongs(items: seq<Json>) returns (r: Option<seq<int64>>)
    ensures r == ParseLongs(items)
  {
    hide Joined;
    var longs: seq<int64> := [];
    assert items[0..] == items;
    JoinedEnds(longs, ParseLongs(items));
    for i := 0 to |items|
      invariant Joined(longs, ParseLongs(items[i..])) == ParseLongs(items)
    {
      hide ParseLong, Joined;
      assert items[i..][1..] == items[i + 1..];
      var x := ParseLong(items[i]);
      if x.None? {
        JoinedEnds(longs, None);
        return None;
      }
      JoinedStep(longs, x.value, ParseLongs(items[i + 1..]));
      longs := longs + [x.value];
    }
    assert items[|items|..] == [];
    JoinedEnds(longs, None);
    return Some(longs);
  }

  method DecodeArray(t: TagType, j: Json) returns (v: Option<Value>)
    ensures v == ParseArray(t, j)
  {
    hide ParseBytes, ParseInts, ParseLongs;
    var items := Items(j);
    if items.None? {
      return None;
    }
    if t == BYTE_ARRAY {
      var x := DecodeBytes(items.value);
      return if x.Some? then Some(ByteArray(x.value)) else None;
    } else if t == INT_ARRAY {
      var x := DecodeInts(items.value);
      return if x.Some? then Some(IntArray(x.value)) else None;
    } else if t == LONG_ARRAY {
      var x := DecodeLongs(items.value);
      return if x.Some? then Some(LongArray(x.value)) else None;
    }
    return None;
  }

  /** decodeJSONPayload */
  method DecodePayload(t: TagType, j: Json) returns (v: Option<Value>)
    ensures v == ParsePayload(t, j)
    decreases j, 2
  {
    hide ParseArray, ParseScalar, ParseList, ParseCompound;
    if t == LIST {
      v := DecodeList(j);
    } else if t == COMPOUND {
      v := DecodeCompound(j);
    } else if t == BYTE_ARRAY || t == INT_ARRAY || t == LONG_ARRAY {
      v := DecodeArray(t, j);
    } else {
      v := ParseScalar(t, j);
    }
  }

  /** decodeJSONNode */
  method DecodeNode(j: Json) returns (v: Option<Value>)
    ensures v == ParseNode(j)
    decreases j, 0
  {
    hide ParsePayload, ParseTypeName, Scan;
    var shape := ShapeOf(j);
    if shape.None? || shape.value.name == [] || shape.value.value.None? {
      return None;
    }
    var t := ParseTypeName(shape.value.name);
    if t.None? {
      return None;
    }
    v := DecodePayload(t.value, shape.value.value.value);
  }

  /** parseList */
  method DecodeList(j: Json) returns (v: Option<Value>)
    ensures v == ParseList(j)
    decreases j, 1
  {
    hide ParseElements, ParseTypeName, Scan;
    var shape := ShapeOf(j);
    if shape.None? || !ListShaped(j) {
      return None;
    }
    var t := ParseTypeName(shape.value.name);
    if t.None? {
      return None;
    }
    if shape.value.value.None? || !shape.value.value.value.JArray? || |shape.value.value.value.items| == 0 {
      return Some(List(t.value, []));
    }
    if t.value == END {
      return None;
    }
    var vs := DecodeElements(t.value, shape.value.value.value.items);
    return if vs.Some? then Some(List(t.value, vs.value)) else None;
  }

  method DecodeElements(t: TagType, items: seq<Json>) returns (r: Option<seq<Value>>)
    ensures r == ParseElements(t, items)
    decreases items, 3
  {
    hide Joined;
    var vs: seq<Value> := [];
    assert items[0..] == items;
    JoinedEnds(vs, ParseElements(t, items));
    for i := 0 to |items|
      invariant Joined(vs, ParseElements(t, items[i..])) == ParseElements(t, items)
    {
      hide ParsePayload, Joined;
      assert items[i..][1..] == items[i + 1..];
      var x := DecodePayload(t, items[i]);
      if x.None? {
        JoinedEnds(vs, None);
        return None;
      }
      JoinedStep(vs, x.value, ParseElements(t, items[i + 1..]));
      vs := vs + [x.value];
    }
    assert items[|items|..] == [];
    JoinedEnds(vs, None);
    return Some(vs);
  }

  /** The entries that parseCompound has made of the members outside `unseen`. */
  ghost predicate Decoded(raw: map<Utf8, Json>, unseen: set<Utf8>, fields: map<GoString, Value>) {
    && unseen <= raw.Keys
    && (forall k | k in raw && k !in unseen && !raw[k].JNull? :: ParseNode(raw[k]).Some?)
    && fields == map k | k in raw && k !in unseen && !raw[k].JNull? :: ParseNode(raw[k]).value
  }

  lemma DecodedStep(raw: map<Utf8, Json>, unseen: set<Utf8>, fields: map<GoString, Value>, k: Utf8)
    requires Decoded(raw, unseen, fields) && k in unseen
    ensures k in raw
    ensures raw[k].JNull? ==> Decoded(raw, unseen - {k}, fields)
    ensures !raw[k].JNull? && ParseNode(raw[k]).Some? ==> Decoded(raw, unseen - {k}, fields[k := ParseNode(raw[k]).value])
  {
    hide ParseNode;
  }

  lemma DecodedAll(j: Json, fields: map<GoString, Value>)
    requires j.JObject? && Decoded(FieldMap(j.members), {}, fields)
    ensures ParseCompound(j) == Some(Compound(fields))
  {
    hide ParseNode, FieldMap;
    assert ParseCompound(j).Some? && ParseCompound(j).value.Compound?;
    assert ParseCompound(j).value.fields == fields;
  }

  lemma NotDecoded(j: Json, k: Utf8)
    requires j.JObject? && k in FieldMap(j.members)
    requires !FieldMap(j.members)[k].JNull? && ParseNode(FieldMap(j.members)[k]).None?
    ensures ParseCompound(j).None?
  {
    hide ParseNode, FieldMap;
  }

  /** parseCompound, over the members in whatever order the map yields them. */
  method DecodeCompound(j: Json) returns (v: Option<Value>)
    ensures v == ParseCompound(j)
    decreases j, 1
  {
    if j.JNull? {
      return Some(Compound(map[]));
    }
    if !j.JObject? {
      return None;
    }
    hide ParseNode, ParseCompound;
    var raw := FieldMap(j.members);
    var fields: map<GoString, Value> := map[];
    var unseen := raw.Keys;
    while unseen != {}
      invariant Decoded(raw, unseen, fields)
      decreases |unseen|
    {
      hide ParseNode, Decoded, ParseCompound;
      var k :| k in unseen;
      DecodedStep(raw, unseen, fields, k);
      if !raw[k].JNull? {
        var entry := DecodeNode(raw[k]);
        if entry.None? {
          NotDecoded(j, k);
          return None;
        }
        fields := fields[k := entry.value];
      }
      unseen := unseen - {k};
    }
    DecodedAll(j, fields);
    return Some(Compound(fields));
  }
}
