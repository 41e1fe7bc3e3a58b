/** The typed JSON form of NBT, on parsed JSON trees. */
module NbtJson {
  import opened Collections
  import opened Streams
  import opened ModifiedUtf8
  import opened Sorting
  import opened NbtValue

  /** What strconv reads from a number literal: ParseInt, if it is an integer
      literal, and ParseFloat to the nearest single and double, if they are in range. */
  datatype Number = Number(integer: Option<int>, single: Option<uint32>, dbl: Option<uint64>)

  /** A JSON string: encoding/json turns what is not valid UTF-8 into U+FFFD. */
  type Utf8 = s: GoString | ValidString(s)

  datatype Json =
    | JNull
    | JBool(b: bool)
    | JNumber(n: Number)
    | JString(s: Utf8)
    | JArray(items: seq<Json>)
    | JObject(members: seq<Member>)

  datatype Member = Member(key: Utf8, value: Json)

  /** How encoding/json writes an integer, and a finite float32 and float64 in
      their shortest form. */
  datatype Format = Format(ofInt: int -> Number, ofSingle: uint32 -> Number, ofDouble: uint64 -> Number)

  predicate FiniteSingle(f: uint32) {
    f as int / 0x80_0000 % 256 != 255
  }

  predicate FiniteDouble(d: uint64) {
    d as int / 0x10_0000_0000_0000 % 2048 != 2047
  }

  /** The contract of strconv: what is written reads back as the same number. */
  ghost predicate Faithful(fmt: Format) {
    && (forall n: int :: fmt.ofInt(n).integer == Some(n))
    && (forall f: uint32 | FiniteSingle(f) :: fmt.ofSingle(f).single == Some(f))
    && (forall d: uint64 | FiniteDouble(d) :: fmt.ofDouble(d).dbl == Some(d))
  }

  // ----- names -----

  function Ascii(s: string): (r: GoString)
    ensures |r| == |s| && forall i | 0 <= i < |s| :: r[i] == s[i] as int
  {
    seq(|s|, i requires 0 <= i < |s| => s[i] as int)
  }

  /** prismarineTypeName */
  function NameOf(t: TagType): string {
    if t == END then "end"
    else if t == BYTE then "byte"
    else if t == SHORT then "short"
    else if t == INT then "int"
    else if t == LONG then "long"
    else if t == FLOAT then "float"
    else if t == DOUBLE then "double"
    else if t == BYTE_ARRAY then "byteArray"
    else if t == STRING then "string"
    else if t == LIST then "list"
    else if t == COMPOUND then "compound"
    else if t == INT_ARRAY then "intArray"
    else if t == LONG_ARRAY then "longArray"
    else ""
  }

  function TypeName(t: TagType): Utf8 {
    var s := NameOf(t);
    var r := Ascii(s);
    NamesAreScalar(t);
    r
  }

  lemma NamesAreScalar(t: TagType)
    ensures ValidString(Ascii(NameOf(t)))
  {
    forall i | 0 <= i < |NameOf(t)| ensures NameOf(t)[i] < 128 as char {
    }
  }

  /** The tag type of a name, looked up from type `t` on. */
  function LookUp(name: GoString, t: TagType): Option<TagType>
    requires t <= LONG_ARRAY
    decreases LONG_ARRAY - t
  {
    if name == TypeName(t) then Some(t)
    else if t == LONG_ARRAY then None
    else LookUp(name, t + 1)
  }

  /** prismarineType; the name shortArray is not among those it accepts. */
  function ParseTypeName(name: GoString): Option<TagType> {
    LookUp(name, END)
  }

  lemma AsciiInjective(a: string, b: string)
    requires Ascii(a) == Ascii(b)
    ensures a == b
  {
    forall i | 0 <= i < |a| ensures a[i] == b[i] {
      assert Ascii(a)[i] == Ascii(b)[i];
    }
  }

  lemma NamesDiffer(t: TagType, u: TagType)
    requires t < u <= LONG_ARRAY
    ensures TypeName(t) != TypeName(u)
  {
    assert NameOf(t) != NameOf(u);
    if TypeName(t) == TypeName(u) {
      AsciiInjective(NameOf(t), NameOf(u));
    }
  }

  lemma {:induction false} LookUpFinds(t: TagType, u: TagType)
    requires t <= u <= LONG_ARRAY
    ensures LookUp(TypeName(u), t) == Some(u)
    decreases u - t
  {
    if t < u {
      NamesDiffer(t, u);
      hide TypeName;
      LookUpFinds(t + 1, u);
    }
  }

  /** Names and types correspond one to one. */
  lemma TypeNameRoundTrip(t: TagType)
    requires t <= LONG_ARRAY
    ensures ParseTypeName(TypeName(t)) == Some(t) && TypeName(t) != []
  {
    LookUpFinds(END, t);
  }

  const TYPE: Utf8 := TypeKey()
  const VALUE: Utf8 := ValueKey()

  function TypeKey(): Utf8 {
    Ascii("type")
  }

  function ValueKey(): Utf8 {
    Ascii("value")
  }

  // ----- writing -----

  /** What json.Marshal makes of a Go string. */
  function Cleaned(s: GoString): (r: Utf8)
    ensures |r| == |s|
    ensures ValidString(s) ==> r == s
  {
    seq(|s|, i requires 0 <= i < |s| => if IsScalar(s[i]) then s[i] else 0xfffd)
  }

  /** Can EncodeJSON represent the value? */
  ghost predicate JsonOk(v: Value)
    decreases v
  {
    match v
    case Nil => false
    case Float(f) => FiniteSingle(f)
    case Double(d) => FiniteDouble(d)
    case List(t, vs) =>
      t <= LONG_ARRAY && (t == END ==> vs == [])
      && forall i | 0 <= i < |vs| :: TypeOf(vs[i]) == t && JsonOk(vs[i])
    case Compound(m) => forall k | k in m :: JsonOk(m[k])
    case _ => true
  }

  function IntTree(n: int, fmt: Format): Json {
    JNumber(fmt.ofInt(n))
  }

  /** longPair: the high and the low half, both signed. */
  function LongPair(l: int64): (pair: (int32, int32)) {
    (l as int / TWO_32, Signed(l as int % TWO_32, TWO_32))
  }

  function PairTree(l: int64, fmt: Format): Json {
    JArray([IntTree(LongPair(l).0, fmt), IntTree(LongPair(l).1, fmt)])
  }

  function ByteTrees(bytes: seq<byte>, fmt: Format): seq<Json> {
    seq(|bytes|, i requires 0 <= i < |bytes| => IntTree(Signed(bytes[i], TWO_8), fmt))
  }

  function IntTrees(ints: seq<int32>, fmt: Format): seq<Json> {
    seq(|ints|, i requires 0 <= i < |ints| => IntTree(ints[i], fmt))
  }

  function LongTrees(longs: seq<int64>, fmt: Format): seq<Json> {
    seq(|longs|, i requires 0 <= i < |longs| => PairTree(longs[i], fmt))
  }

  /** encodeJSONPayload, for what is neither a list nor a compound. Appending an
      empty intArray to a nil slice leaves it nil, which is written as null. */
  function LeafTree(v: Value, fmt: Format): Json {
    match v
    case Byte(b) => IntTree(b, fmt)
    case Short(s) => IntTree(s, fmt)
    case Int(i) => IntTree(i, fmt)
    case Long(l) => PairTree(l, fmt)
    case Float(f) => JNumber(fmt.ofSingle(f))
    case Double(d) => JNumber(fmt.ofDouble(d))
    case ByteArray(bytes) => JArray(ByteTrees(bytes, fmt))
    case String(s) => JString(Cleaned(s))
    case IntArray(ints) => if ints == [] then JNull else JArray(IntTrees(ints, fmt))
    case LongArray(longs) => JArray(LongTrees(longs, fmt))
    case _ => JNull
  }

  function Typed(t: TagType, payload: Json): Json {
    JObject([Member(TYPE, JString(TypeName(t))), Member(VALUE, payload)])
  }

  /** encodeJSONPayload, for a value that can be represented. */
  ghost function Tree(v: Value, fmt: Format): Json
    decreases v, 1, 0
  {
    match v
    case List(t, vs) => Typed(t, JArray(ElementTrees(vs, fmt)))
    case Compound(m) => JObject(FieldTrees(v, SortedKeys(m.Keys), fmt))
    case _ => LeafTree(v, fmt)
  }

  ghost function ElementTrees(vs: seq<Value>, fmt: Format): (r: seq<Json>)
    ensures |r| == |vs|
    decreases vs, 0, 0
  {
    if |vs| == 0 then [] else [Tree(vs[0], fmt)] + ElementTrees(vs[1..], fmt)
  }

  /** The members of compound `c` under `keys`, each with its type. */
  ghost function FieldTrees(c: Value, keys: seq<GoString>, fmt: Format): (r: seq<Member>)
    requires c.Compound? && forall i | 0 <= i < |keys| :: keys[i] in c.fields
    ensures |r| == |keys|
    decreases c, 0, |keys|
  {
    if |keys| == 0 then []
    else
      var v := c.fields[keys[0]];
      [Member(Cleaned(keys[0]), Typed(TypeOf(v), Tree(v, fmt)))] + FieldTrees(c, keys[1..], fmt)
  }

  /** encodeJSONNode */
  ghost function Node(v: Value, fmt: Format): Json {
    Typed(TypeOf(v), Tree(v, fmt))
  }

  // ----- reading -----

  /** parseSignedInteger */
  function ParseInteger(j: Json, bound: nat): Option<int> {
    if j.JNumber? && j.n.integer.Some? && -(bound as int) <= j.n.integer.value < bound then j.n.integer else None
  }

  /** The elements of an array; null is an empty one. */
  function Items(j: Json): (r: Option<seq<Json>>)
    ensures r.Some? && r.value != [] ==> j.JArray? && r.value == j.items
  {
    if j.JArray? then Some(j.items) else if j.JNull? then Some([]) else None
  }

  /** parseLong */
  function ParseLong(j: Json): Option<int64> {
    var pair := Items(j);
    if pair.None? || |pair.value| != 2 then None
    else
      var high, low := ParseInteger(pair.value[0], 0x8000_0000), ParseInteger(pair.value[1], 0x8000_0000);
      if high.None? || low.None? then None
      else Some(high.value * TWO_32 + Unsigned(low.value, TWO_32))
  }

  function ParseBytes(items: seq<Json>): (r: Option<seq<byte>>)
    ensures r.Some? ==> |r.value| == |items|
  {
    if items == [] then Some([])
    else
      var x, rest := ParseInteger(items[0], 0x80), ParseBytes(items[1..]);
      if x.None? || rest.None? then None else Some([Unsigned(x.value, TWO_8)] + rest.value)
  }

  function ParseInts(items: seq<Json>): (r: Option<seq<int32>>)
    ensures r.Some? ==> |r.value| == |items|
  {
    if items == [] then Some([])
    else
      var x, rest := ParseInteger(items[0], 0x8000_0000), ParseInts(items[1..]);
      if x.None? || rest.None? then None else Some([x.value] + rest.value)
  }

  function ParseLongs(items: seq<Json>): (r: Option<seq<int64>>)
    ensures r.Some? ==> |r.value| == |items|
  {
    if items == [] then Some([])
    else
      var x, rest := ParseLong(items[0]), ParseLongs(items[1..]);
      if x.None? || rest.None? then None else Some([x.value] + rest.value)
  }

  /** decodeJSONPayload of a number or a string. */
  function ParseScalar(t: TagType, j: Json): Option<Value> {
    if t == BYTE then
      var x := ParseInteger(j, 0x80); if x.Some? then Some(Byte(x.value)) else None
    else if t == SHORT then
      var x := ParseInteger(j, 0x8000); if x.Some? then Some(Short(x.value)) else None
    else if t == INT then
      var x := ParseInteger(j, 0x8000_0000); if x.Some? then Some(Int(x.value)) else None
    else if t == LONG then
      var x := ParseLong(j); if x.Some? then Some(Long(x.value)) else None
    else if t == FLOAT then
      if j.JNumber? && j.n.single.Some? && FiniteSingle(j.n.single.value) then Some(Float(j.n.single.value)) else None
    else if t == DOUBLE then
      if j.JNumber? && j.n.dbl.Some? && FiniteDouble(j.n.dbl.value) then Some(Double(j.n.dbl.value)) else None
    else if t == STRING then
      if j.JString? then Some(String(j.s)) else if j.JNull? then Some(String([])) else None
    else None
  }

  /** decodeJSONPayload of an array. */
  function ParseArray(t: TagType, j: Json): Option<Value> {
    var items := Items(j);
    if items.None? then None
    else if t == BYTE_ARRAY then
      var x := ParseBytes(items.value); if x.Some? then Some(ByteArray(x.value)) else None
    else if t == INT_ARRAY then
      var x := ParseInts(items.value); if x.Some? then Some(IntArray(x.value)) else None
    else if t == LONG_ARRAY then
      var x := ParseLongs(items.value); if x.Some? then Some(LongArray(x.value)) else None
    else None
  }

  function ParseLeaf(t: TagType, j: Json): Option<Value> {
    if t == BYTE_ARRAY || t == INT_ARRAY || t == LONG_ARRAY then ParseArray(t, j) else ParseScalar(t, j)
  }

  /** The two fields of a jsonValue or jsonList, as far as they are present. */
  datatype Shape = Shape(name: GoString, value: Option<Json>)

  /** Decoding an object into a struct with the fields type and value and no
      others: a later member overrides an earlier one, and a null type leaves
      the field as it is. */
  function Scan(ms: seq<Member>): (r: Option<Shape>)
    ensures r.Some? && r.value.value.Some? ==> exists i | 0 <= i < |ms| :: ms[i].value == r.value.value.value
  {
    if ms == [] then Some(Shape([], None))
    else
      var n := |ms| - 1;
      var before, m := Scan(ms[..n]), ms[n];
      if before.None? then None
      else if m.key == TYPE then
        if m.value.JString? then Some(before.value.(name := m.value.s))
        else if m.value.JNull? then before
        else None
      else if m.key == VALUE then
        Some(before.value.(value := Some(m.value)))
      else None
  }

  /** The JSON value as such a struct; null leaves it empty. */
  function ShapeOf(j: Json): (r: Option<Shape>)
    ensures r.Some? && r.value.value.Some? ==>
              j.JObject? && exists i | 0 <= i < |j.members| :: j.members[i].value == r.value.value.value
  {
    if j.JObject? then Scan(j.members) else if j.JNull? then Some(Shape([], None)) else None
  }

  /** Decoding an object into a map: a later member overrides an earlier one. */
  function FieldMap(ms: seq<Member>): (r: map<Utf8, Json>)
    ensures forall k | k in r :: exists i | 0 <= i < |ms| :: ms[i].value == r[k]
  {
    if ms == [] then map[]
    else FieldMap(ms[..|ms| - 1])[ms[|ms| - 1].key := ms[|ms| - 1].value]
  }

  /** A list's value field: an array, or null or nothing for an empty one. Every
      member called value must be of that kind. */
  predicate ListShaped(j: Json) {
    j.JObject? ==> forall m | m in j.members :: m.key == VALUE ==> m.value.JArray? || m.value.JNull?
  }

  /** decodeJSONPayload */
  function ParsePayload(t: TagType, j: Json): Option<Value>
    decreases j, 2
  {
    if t == LIST then ParseList(j)
    else if t == COMPOUND then ParseCompound(j)
    else ParseLeaf(t, j)
  }

  /** parseList */
  function ParseList(j: Json): Option<Value>
    decreases j, 1
  {
    var shape := ShapeOf(j);
    if shape.None? || !ListShaped(j) then None
    else
      var t := ParseTypeName(shape.value.name);
      if t.None? then None
      else if shape.value.value.None? || !shape.value.value.value.JArray? || shape.value.value.value.items == [] then
        Some(List(t.value, []))
      else if t.value == END then None
      else
        var vs := ParseElements(t.value, shape.value.value.value.items);
        if vs.None? then None else Some(List(t.value, vs.value))
  }

  function ParseElements(t: TagType, items: seq<Json>): (r: Option<seq<Value>>)
    ensures r.Some? ==> |r.value| == |items|
    decreases items, 3
  {
    if |items| == 0 then Some([])
    else
      var v, rest := ParsePayload(t, items[0]), ParseElements(t, items[1..]);
      if v.None? || rest.None? then None else Some([v.value] + rest.value)
  }

  /** decodeJSONNode */
  function ParseNode(j: Json): Option<Value>
    decreases j, 0
  {
    var shape := ShapeOf(j);
    if shape.None? || shape.value.name == [] || shape.value.value.None? then None
    else
      var t := ParseTypeName(shape.value.name);
      if t.None? then None else ParsePayload(t.value, shape.value.value.value)
  }

  /** parseCompound: null members are dropped. */
  function ParseCompound(j: Json): Option<Value>
    decreases j, 1
  {
    if j.JNull? then Some(Compound(map[]))
    else if !j.JObject? then None
    else
      var raw := FieldMap(j.members);
      if forall k | k in raw && !raw[k].JNull? :: ParseNode(raw[k]).Some? then
        Some(Compound(map k | k in raw && !raw[k].JNull? :: ParseNode(raw[k]).value))
      else None
  }

  // ----- what is written can be read back -----

  /** Are all strings in the value valid UTF-8? */
  ghost predicate TextOk(v: Value)
    decreases v
  {
    match v
    case String(s) => ValidString(s)
    case List(t, vs) => forall i | 0 <= i < |vs| :: TextOk(vs[i])
    case Compound(m) => forall k | k in m :: ValidString(k) && TextOk(m[k])
    case _ => true
  }

  lemma IntegerRoundTrip(n: int, bound: nat, fmt: Format)
    requires Faithful(fmt) && -(bound as int) <= n < bound
    ensures ParseInteger(IntTree(n, fmt), bound) == Some(n)
  {
  }

  /** Splitting a 64-bit integer into signed halves loses nothing. */
  lemma LongPairJoins(l: int64)
    ensures LongPair(l).0 as int * TWO_32 + Unsigned(LongPair(l).1, TWO_32) == l
  {
  }

  lemma LongRoundTrip(l: int64, fmt: Format)
    requires Faithful(fmt)
    ensures ParseLong(PairTree(l, fmt)) == Some(l)
  {
    LongPairJoins(l);
    hide LongPair, ParseInteger, IntTree;
    IntegerRoundTrip(LongPair(l).0, 0x8000_0000, fmt);
    IntegerRoundTrip(LongPair(l).1, 0x8000_0000, fmt);
  }

  lemma {:induction false} BytesRoundTrip(bytes: seq<byte>, fmt: Format)
    requires Faithful(fmt)
    ensures ParseBytes(ByteTrees(bytes, fmt)) == Some(bytes)
  {
    if bytes != [] {
      hide ParseInteger, IntTree;
      IntegerRoundTrip(Signed(bytes[0], TWO_8), 0x80, fmt);
      assert ByteTrees(bytes, fmt)[1..] == ByteTrees(bytes[1..], fmt);
      BytesRoundTrip(bytes[1..], fmt);
      assert bytes == [bytes[0]] + bytes[1..];
    }
  }

  lemma {:induction false} IntsRoundTrip(ints: seq<int32>, fmt: Format)
    requires Faithful(fmt)
    ensures ParseInts(IntTrees(ints, fmt)) == Some(ints)
  {
    if ints != [] {
      hide ParseInteger, IntTree;
      IntegerRoundTrip(ints[0], 0x8000_0000, fmt);
      assert IntTrees(ints, fmt)[1..] == IntTrees(ints[1..], fmt);
      IntsRoundTrip(ints[1..], fmt);
      assert ints == [ints[0]] + ints[1..];
    }
  }

  lemma {:induction false} LongsRoundTrip(longs: seq<int64>, fmt: Format)
    requires Faithful(fmt)
    ensures ParseLongs(LongTrees(longs, fmt)) == Some(longs)
  {
    if longs != [] {
      hide ParseLong, PairTree;
      LongRoundTrip(longs[0], fmt);
      assert LongTrees(longs, fmt)[1..] == LongTrees(longs[1..], fmt);
      LongsRoundTrip(longs[1..], fmt);
      assert longs == [longs[0]] + longs[1..];
    }
  }

  lemma LeafRoundTrip(v: Value, fmt: Format)
    requires Faithful(fmt) && JsonOk(v) && TextOk(v) && !v.List? && !v.Compound?
    ensures ParseLeaf(TypeOf(v), LeafTree(v, fmt)) == Some(v)
  {
    hide ParseInteger, IntTree, ParseLong, PairTree, ParseBytes, ParseInts, ParseLongs;
    match v
    case Byte(b) => IntegerRoundTrip(b, 0x80, fmt);
    case Short(x) => IntegerRoundTrip(x, 0x8000, fmt);
    case Int(x) => IntegerRoundTrip(x, 0x8000_0000, fmt);
    case Long(l) => LongRoundTrip(l, fmt);
    case ByteArray(bytes) => BytesRoundTrip(bytes, fmt);
    case IntArray(ints) =>
      IntsRoundTrip(ints, fmt);
      assert IntTrees([], fmt) == [];
    case LongArray(longs) => LongsRoundTrip(longs, fmt);
    case _ =>
  }

  /** A struct with a type and a value is scanned as just that. */
  lemma TypedShape(t: TagType, payload: Json)
    ensures ShapeOf(Typed(t, payload)) == Some(Shape(TypeName(t), Some(payload)))
    ensures ListShaped(Typed(t, payload)) <==> payload.JArray? || payload.JNull?
  {
    hide TypeName;
    var ms := [Member(TYPE, JString(TypeName(t))), Member(VALUE, payload)];
    assert TYPE != VALUE;
    assert ms[..1] == [Member(TYPE, JString(TypeName(t)))] && ms[..1][..0] == [];
    assert Scan(ms[..1][..0]) == Some(Shape([], None));
    assert Scan(ms[..1]) == Some(Shape(TypeName(t), None));
    assert ms[1].key == VALUE && ms[0].key != VALUE;
    assert forall m | m in ms :: m == ms[0] || m == ms[1];
  }

  /** Decoding inverts encoding, although list elements carry no type of their own. */
  lemma {:induction false} RoundTrip(v: Value, fmt: Format)
    requires Faithful(fmt) && JsonOk(v) && TextOk(v)
    ensures ParsePayload(TypeOf(v), Tree(v, fmt)) == Some(v)
    decreases v, 2, 0
  {
    hide Faithful;
    match v
    case List(t, vs) => ListRoundTrip(v, fmt);
    case Compound(m) => CompoundRoundTrip(v, fmt);
    case _ => LeafRoundTrip(v, fmt);
  }

  lemma {:induction false} ListRoundTrip(v: Value, fmt: Format)
    requires v.List? && Faithful(fmt) && JsonOk(v) && TextOk(v)
    ensures ParseList(Tree(v, fmt)) == Some(v)
    decreases v, 1, 0
  {
    hide Faithful, Typed, ShapeOf, ListShaped, TypeName, ParseTypeName;
    var items := ElementTrees(v.values, fmt);
    TypedShape(v.elementType, JArray(items));
    TypeNameRoundTrip(v.elementType);
    ElementsRoundTrip(v.values, v.elementType, fmt);
  }

  lemma {:induction false} ElementsRoundTrip(vs: seq<Value>, t: TagType, fmt: Format)
    requires Faithful(fmt)
    requires forall i | 0 <= i < |vs| :: TypeOf(vs[i]) == t && JsonOk(vs[i]) && TextOk(vs[i])
    ensures ParseElements(t, ElementTrees(vs, fmt)) == Some(vs)
    decreases vs, 0, 0
  {
    hide Faithful, Tree, ParsePayload, JsonOk, TextOk;
    if |vs| > 0 {
      RoundTrip(vs[0], fmt);
      ElementsRoundTrip(vs[1..], t, fmt);
      assert ElementTrees(vs, fmt)[1..] == ElementTrees(vs[1..], fmt);
      assert vs == [vs[0]] + vs[1..];
    }
  }

  /** A value with its type. */
  lemma {:induction false} NodeRoundTrip(v: Value, fmt: Format)
    requires Faithful(fmt) && JsonOk(v) && TextOk(v)
    ensures ParseNode(Node(v, fmt)) == Some(v)
    decreases v, 3, 0
  {
    RoundTrip(v, fmt);
    TypesAreNamed(v);
    hide Faithful, Typed, ShapeOf, TypeName, ParseTypeName, JsonOk, TextOk, ParsePayload, Tree;
    TypedShape(TypeOf(v), Tree(v, fmt));
    TypeNameRoundTrip(TypeOf(v));
  }

  lemma TypesAreNamed(v: Value)
    ensures TypeOf(v) <= LONG_ARRAY
  {
  }

  lemma {:induction false} CompoundRoundTrip(v: Value, fmt: Format)
    requires v.Compound? && Faithful(fmt) && JsonOk(v) && TextOk(v)
    ensures ParseCompound(Tree(v, fmt)) == Some(v)
    decreases v, 1, 0
  {
    hide Faithful, Node, SortedKeys, FieldMap, ParseNode, FieldTrees;
    var keys := SortedKeys(v.fields.Keys);
    FieldMapOf(v, keys, fmt);
    forall k | k in v.fields
      ensures !Node(v.fields[k], fmt).JNull? && ParseNode(Node(v.fields[k], fmt)) == Some(v.fields[k])
    {
      NodeRoundTrip(v.fields[k], fmt);
      NodeIsObject(v.fields[k], fmt);
    }
    CompoundOf(FieldTrees(v, keys, fmt), v.fields);
  }

  lemma NodeIsObject(v: Value, fmt: Format)
    ensures Node(v, fmt).JObject?
  {
  }

  lemma CompoundOf(ms: seq<Member>, fields: map<GoString, Value>)
    requires forall k | k in fields :: ValidString(k)
    requires forall k: GoString :: k in FieldMap(ms) <==> k in fields
    requires forall k | k in fields :: !FieldMap(ms)[k].JNull? && ParseNode(FieldMap(ms)[k]) == Some(fields[k])
    ensures ParseCompound(JObject(ms)) == Some(Compound(fields))
  {
    hide FieldMap, ParseNode;
    var raw := FieldMap(ms);
    assert forall k | k in raw && !raw[k].JNull? :: ParseNode(raw[k]).Some?;
    assert ParseCompound(JObject(ms)).Some? && ParseCompound(JObject(ms)).value.Compound?;
    assert ParseCompound(JObject(ms)).value.fields == fields;
  }

  /** The members of an encoded compound, read into a map. */
  lemma {:induction false} FieldMapOf(c: Value, keys: seq<GoString>, fmt: Format)
    requires c.Compound? && (forall i | 0 <= i < |keys| :: keys[i] in c.fields)
    requires forall k | k in c.fields :: ValidString(k)
    ensures FieldMap(FieldTrees(c, keys, fmt)) == map k | k in keys :: Node(c.fields[k], fmt)
    decreases |keys|
  {
    hide Node;
    if |keys| > 0 {
      var n := |keys| - 1;
      FieldTreesAppend(c, keys[..n], keys[n], fmt);
      assert keys == keys[..n] + [keys[n]];
      FieldMapOf(c, keys[..n], fmt);
      var ms := FieldTrees(c, keys, fmt);
      assert ms[..n] == FieldTrees(c, keys[..n], fmt);
    }
  }

  lemma {:induction false} FieldTreesAppend(c: Value, keys: seq<GoString>, k: GoString, fmt: Format)
    requires c.Compound? && (forall i | 0 <= i < |keys| :: keys[i] in c.fields) && k in c.fields
    ensures FieldTrees(c, keys + [k], fmt) == FieldTrees(c, keys, fmt) + [Member(Cleaned(k), Node(c.fields[k], fmt))]
    decreases |keys|
  {
    if |keys| == 0 {
      assert ([] + [k])[1..] == [];
    } else {
      assert (keys + [k])[1..] == keys[1..] + [k];
      FieldTreesAppend(c, keys[1..], k, fmt);
    }
  }

  // ----- and only then -----

  /** What is decoded has valid strings throughout, whatever was encoded. */
  lemma {:induction false} ParsedTextOk(t: TagType, j: Json)
    requires ParsePayload(t, j).Some?
    ensures TextOk(ParsePayload(t, j).value)
    decreases j, 2
  {
    if t == LIST {
      ParsedListTextOk(j);
    } else if t == COMPOUND {
      ParsedCompoundTextOk(j);
    }
  }

  lemma {:induction false} ParsedListTextOk(j: Json)
    requires ParseList(j).Some?
    ensures TextOk(ParseList(j).value)
    decreases j, 1
  {
    hide TextOk;
    var shape := ShapeOf(j).value;
    if shape.value.Some? && shape.value.value.JArray? && shape.value.value.items != [] {
      ParsedElementsTextOk(ParseTypeName(shape.name).value, shape.value.value.items);
    }
    TextOkList(ParseList(j).value);
  }

  lemma TextOkList(v: Value)
    requires v.List? && forall x | x in v.values :: TextOk(x)
    ensures TextOk(v)
  {
  }

  lemma {:induction false} ParsedElementsTextOk(t: TagType, items: seq<Json>)
    requires ParseElements(t, items).Some?
    ensures forall v | v in ParseElements(t, items).value :: TextOk(v)
    decreases items, 3
  {
    hide TextOk, ParsePayload;
    if |items| > 0 {
      ParsedTextOk(t, items[0]);
      ParsedElementsTextOk(t, items[1..]);
    }
  }

  lemma {:induction false} ParsedNodeTextOk(j: Json)
    requires ParseNode(j).Some?
    ensures TextOk(ParseNode(j).value)
    decreases j, 0
  {
    hide TextOk, ParsePayload;
    var shape := ShapeOf(j).value;
    ParsedTextOk(ParseTypeName(shape.name).value, shape.value.value);
  }

  lemma {:induction false} ParsedCompoundTextOk(j: Json)
    requires ParseCompound(j).Some?
    ensures TextOk(ParseCompound(j).value)
    decreases j, 1
  {
    if j.JObject? {
      var raw := FieldMap(j.members);
      forall k | k in raw && !raw[k].JNull?
        ensures TextOk(ParseNode(raw[k]).value)
      {
        ParsedNodeTextOk(raw[k]);
      }
    }
  }

  /** For every value that can be encoded: decoding the encoding gives the value
      back exactly when its strings are valid UTF-8. */
  lemma {:induction false} JsonRoundTrip(v: Value, fmt: Format)
    requires Faithful(fmt) && JsonOk(v)
    ensures ParseNode(Node(v, fmt)) == Some(v) <==> TextOk(v)
  {
    hide Faithful, JsonOk, TextOk, ParseNode, Node;
    if TextOk(v) {
      NodeRoundTrip(v, fmt);
    }
    if ParseNode(Node(v, fmt)).Some? {
      ParsedNodeTextOk(Node(v, fmt));
    }
  }
}
