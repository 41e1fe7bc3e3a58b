/** The network form of NBT. */
module NetworkNbt {
  // Which values can be written without a name, the bytes they become, the
  // parser, and the theorems that tie them.
  import opened Collections
  import opened Streams
  import opened ModifiedUtf8
  import opened Sorting
  import opened NbtValue

  const MAX_DEPTH: nat := 512

  // ----- writing -----

  /** The values that writePayload accepts at a nesting depth. */
  ghost predicate Encodable(v: Value, depth: nat)
    decreases v
  {
    && depth <= MAX_DEPTH
    && match v
       case List(t, vs) =>
         if |vs| == 0 then t == END || ValidValueType(t)
         else
           && ValidValueType(t)
           && |vs| <= MAX_INT32
           && forall i | 0 <= i < |vs| :: TypeOf(vs[i]) == t && Encodable(vs[i], depth + 1)
       case Compound(m) =>
         forall k | k in m :: StringOk(k) && Encodable(m[k], depth + 1)
       case _ => LeafOk(v)
  }

  predicate LeafOk(v: Value) {
    match v
    case Nil => false
    case ByteArray(b) => |b| <= MAX_INT32
    case String(s) => StringOk(s)
    case IntArray(a) => |a| <= MAX_INT32
    case LongArray(a) => |a| <= MAX_INT32
    case List(_, _) => false
    case Compound(_) => false
    case _ => true
  }

  function Length(n: nat): seq<byte> {
    if n <= MAX_INT32 then Put32(n) else []
  }

  function Name(s: GoString): seq<byte> {
    if StringOk(s) then StringBytes(s) else []
  }

  function Ints(a: seq<int32>): seq<byte> {
    if |a| == 0 then [] else Put32(Unsigned(a[0], TWO_32)) + Ints(a[1..])
  }

  function Longs(a: seq<int64>): seq<byte> {
    if |a| == 0 then [] else Put64(Unsigned(a[0], TWO_64)) + Longs(a[1..])
  }

  function Leaf(v: Value): seq<byte> {
    match v
    case Byte(x) => [Unsigned(x, TWO_8)]
    case Short(x) => Put16(Unsigned(x, TWO_16))
    case Int(x) => Put32(Unsigned(x, TWO_32))
    case Long(x) => Put64(Unsigned(x, TWO_64))
    case Float(bits) => Put32(bits)
    case Double(bits) => Put64(bits)
    case ByteArray(b) => Length(|b|) + b
    case String(s) => Name(s)
    case IntArray(a) => Length(|a|) + Ints(a)
    case LongArray(a) => Length(|a|) + Longs(a)
    case _ => []
  }

  /** The payload bytes of a value that can be written. */
  ghost function Payload(v: Value): seq<byte>
    decreases v, 1, 0
  {
    match v
    case List(t, vs) => [t] + Length(|vs|) + Elements(vs)
    case Compound(m) => Fields(v, SortedKeys(m.Keys)) + [END]
    case _ => Leaf(v)
  }

  ghost function Elements(vs: seq<Value>): seq<byte>
    decreases vs, 0, 0
  {
    if |vs| == 0 then [] else Payload(vs[0]) + Elements(vs[1..])
  }

  ghost predicate KeysOf(c: Value, keys: seq<GoString>) {
    c.Compound? && forall i | 0 <= i < |keys| :: keys[i] in c.fields
  }

  ghost function Restrict(c: Value, keys: seq<GoString>): map<GoString, Value>
    requires KeysOf(c, keys)
  {
    map k | k in keys :: c.fields[k]
  }

  /** The entries of compound `c` under `keys`, in that order. */
  ghost function Fields(c: Value, keys: seq<GoString>): seq<byte>
    requires KeysOf(c, keys)
    decreases c, 0, |keys|
  {
    if |keys| == 0 then []
    else Field(c.fields[keys[0]], keys[0], Payload(c.fields[keys[0]])) + Fields(c, keys[1..])
  }

  function Field(v: Value, k: GoString, payload: seq<byte>): seq<byte> {
    [TypeOf(v)] + Name(k) + payload
  }

  /** WriteNetwork: the tag type, then the payload. */
  ghost function Network(v: Value): seq<byte> {
    [TypeOf(v)] + Payload(v)
  }

  // ----- reading -----

  function Level(depth: nat): nat {
    if depth > MAX_DEPTH then 0 else MAX_DEPTH + 1 - depth
  }

  /** A non-negative 32-bit length. */
  function TakeLength(b: seq<byte>): (p: Parse<nat>)
    ensures p.Done? ==> p.value <= MAX_INT32 && |p.rest| + 4 == |b|
  {
    match Take32(b)
    case Fail => Fail
    case Done(x, rest) => if x <= MAX_INT32 then Done(x, rest) else Fail
  }

  function TakeInts(n: nat, b: seq<byte>): (p: Parse<seq<int32>>)
    ensures p.Done? ==> |p.rest| <= |b|
  {
    if n == 0 then Done([], b)
    else
      match Take32(b)
      case Fail => Fail
      case Done(x, rest) =>
        match TakeInts(n - 1, rest)
        case Fail => Fail
        case Done(xs, rest') => Done([Signed(x, TWO_32)] + xs, rest')
  }

  function TakeLongs(n: nat, b: seq<byte>): (p: Parse<seq<int64>>)
    ensures p.Done? ==> |p.rest| <= |b|
  {
    if n == 0 then Done([], b)
    else
      match Take64(b)
      case Fail => Fail
      case Done(x, rest) =>
        match TakeLongs(n - 1, rest)
        case Fail => Fail
        case Done(xs, rest') => Done([Signed(x, TWO_64)] + xs, rest')
  }

  function TakeNumber(t: TagType, b: seq<byte>): (p: Parse<Value>)
    requires BYTE <= t <= DOUBLE
  {
    if t == BYTE then
      match Take8(b) case Fail => Fail case Done(x, rest) => Done(Byte(Signed(x, TWO_8)), rest)
    else if t == SHORT then
      match Take16(b) case Fail => Fail case Done(x, rest) => Done(Short(Signed(x, TWO_16)), rest)
    else if t == INT then
      match Take32(b) case Fail => Fail case Done(x, rest) => Done(Int(Signed(x, TWO_32)), rest)
    else if t == LONG then
      match Take64(b) case Fail => Fail case Done(x, rest) => Done(Long(Signed(x, TWO_64)), rest)
    else if t == FLOAT then
      match Take32(b) case Fail => Fail case Done(x, rest) => Done(Float(x), rest)
    else
      match Take64(b) case Fail => Fail case Done(x, rest) => Done(Double(x), rest)
  }

  function TakeArray(t: TagType, b: seq<byte>): (p: Parse<Value>)
    requires t == BYTE_ARRAY || t == INT_ARRAY || t == LONG_ARRAY
  {
    match TakeLength(b)
    case Fail => Fail
    case Done(n, rest) =>
      if t == BYTE_ARRAY then
        match Take(rest, n) case Fail => Fail case Done(x, rest') => Done(ByteArray(x), rest')
      else if t == INT_ARRAY then
        match TakeInts(n, rest) case Fail => Fail case Done(x, rest') => Done(IntArray(x), rest')
      else
        match TakeLongs(n, rest) case Fail => Fail case Done(x, rest') => Done(LongArray(x), rest')
  }

  /** readPayload on every tag type that does not nest. */
  function TakeLeaf(t: TagType, b: seq<byte>): (p: Parse<Value>)
    ensures p.Done? ==> |p.rest| <= |b|
  {
    if BYTE <= t <= DOUBLE then TakeNumber(t, b)
    else if t == STRING then
      match TakeString(b) case Fail => Fail case Done(x, rest) => Done(String(x), rest)
    else if t == BYTE_ARRAY || t == INT_ARRAY || t == LONG_ARRAY then TakeArray(t, b)
    else Fail
  }

  /** readPayload */
  function Decode(t: TagType, b: seq<byte>, depth: nat): (p: Parse<Value>)
    ensures p.Done? ==> |p.rest| <= |b|
    decreases Level(depth), 0, 0
  {
    if depth > MAX_DEPTH then Fail
    else if t == LIST then DecodeList(b, depth)
    else if t == COMPOUND then
      match DecodeFields(b, depth + 1, map[])
      case Fail => Fail
      case Done(m, rest) => Done(Compound(m), rest)
    else TakeLeaf(t, b)
  }

  /** readList, whose elements are one level deeper */
  function DecodeList(b: seq<byte>, depth: nat): (p: Parse<Value>)
    requires depth <= MAX_DEPTH
    ensures p.Done? ==> |p.rest| <= |b|
    decreases Level(depth + 1), 2, 0
  {
    match Take8(b)
    case Fail => Fail
    case Done(t, rest) =>
      match TakeLength(rest)
      case Fail => Fail
      case Done(n, rest') =>
        if n == 0 then
          if t == END || ValidValueType(t) then Done(List(t, []), rest') else Fail
        else if !ValidValueType(t) then Fail
        else
          match DecodeElements(n, t, rest', depth + 1)
          case Fail => Fail
          case Done(vs, rest'') => Done(List(t, vs), rest'')
  }

  function DecodeElements(n: nat, t: TagType, b: seq<byte>, depth: nat): (p: Parse<seq<Value>>)
    ensures p.Done? ==> |p.rest| <= |b|
    decreases Level(depth), 1, n
  {
    if n == 0 then Done([], b)
    else
      match Decode(t, b, depth)
      case Fail => Fail
      case Done(v, rest) =>
        match DecodeElements(n - 1, t, rest, depth)
        case Fail => Fail
        case Done(vs, rest') => Done([v] + vs, rest')
  }

  /** The loop of readCompound; `depth` is that of the entries. */
  function DecodeFields(b: seq<byte>, depth: nat, m: map<GoString, Value>): (p: Parse<map<GoString, Value>>)
    ensures p.Done? ==> |p.rest| <= |b|
    decreases Level(depth), 1, |b|
  {
    match Take8(b)
    case Fail => Fail
    case Done(t, rest) =>
      if t == END then Done(m, rest)
      else if !ValidValueType(t) then Fail
      else
        match TakeString(rest)
        case Fail => Fail
        case Done(k, rest') =>
          if k in m then Fail
          else
            match Decode(t, rest', depth)
            case Fail => Fail
            case Done(v, rest'') => DecodeFields(rest'', depth, m[k := v])
  }

  /** ReadNetwork */
  function DecodeNetwork(b: seq<byte>): (p: Parse<Value>)
  {
    match Take8(b)
    case Fail => Fail
    case Done(t, rest) => if ValidValueType(t) then Decode(t, rest, 0) else Fail
  }

  // ----- what is written can be read back -----

  lemma IntStep(n: nat, x: int32, rest: seq<byte>)
    ensures TakeInts(n + 1, Put32(Unsigned(x, TWO_32)) + rest)
         == match TakeInts(n, rest) case Fail => Fail case Done(xs, rest') => Done([x] + xs, rest')
  {
    hide Put32, Take32;
    TakePut32(Unsigned(x, TWO_32), rest);
  }

  lemma IntsSplit(a: seq<int32>, s: seq<byte>)
    requires |a| > 0
    ensures Ints(a) + s == Put32(Unsigned(a[0], TWO_32)) + (Ints(a[1..]) + s)
  {
    hide Put32;
  }

  lemma IntsEnd(s: seq<byte>)
    ensures TakeInts(0, Ints([]) + s) == Done([], s)
  {
    assert Ints([]) + s == s;
  }

  lemma {:induction false} IntsRoundTrip(a: seq<int32>, s: seq<byte>)
    ensures TakeInts(|a|, Ints(a) + s) == Done(a, s)
  {
    hide Put32, TakeInts, Ints;
    if |a| == 0 {
      IntsEnd(s);
    } else {
      IntsSplit(a, s);
      IntStep(|a| - 1, a[0], Ints(a[1..]) + s);
      IntsRoundTrip(a[1..], s);
      assert a == [a[0]] + a[1..];
    }
  }

  lemma LongStep(n: nat, x: int64, rest: seq<byte>)
    ensures TakeLongs(n + 1, Put64(Unsigned(x, TWO_64)) + rest)
         == match TakeLongs(n, rest) case Fail => Fail case Done(xs, rest') => Done([x] + xs, rest')
  {
    hide Put64, Take64;
    TakePut64(Unsigned(x, TWO_64), rest);
  }

  lemma LongsSplit(a: seq<int64>, s: seq<byte>)
    requires |a| > 0
    ensures Longs(a) + s == Put64(Unsigned(a[0], TWO_64)) + (Longs(a[1..]) + s)
  {
    hide Put64;
  }

  lemma LongsEnd(s: seq<byte>)
    ensures TakeLongs(0, Longs([]) + s) == Done([], s)
  {
    assert Longs([]) + s == s;
  }

  lemma {:induction false} LongsRoundTrip(a: seq<int64>, s: seq<byte>)
    ensures TakeLongs(|a|, Longs(a) + s) == Done(a, s)
  {
    hide Put64, TakeLongs, Longs;
    if |a| == 0 {
      LongsEnd(s);
    } else {
      LongsSplit(a, s);
      LongStep(|a| - 1, a[0], Longs(a[1..]) + s);
      LongsRoundTrip(a[1..], s);
      assert a == [a[0]] + a[1..];
    }
  }

  lemma TakeLengthOf(n: nat, s: seq<byte>)
    requires n <= MAX_INT32
    ensures TakeLength(Length(n) + s) == Done(n, s)
  {
    TakePut32(n, s);
  }

  lemma LeafRoundTrip(v: Value, s: seq<byte>)
    requires LeafOk(v)
    ensures TakeLeaf(TypeOf(v), Leaf(v) + s) == Done(v, s)
  {
    match v
    case String(x) => StringRoundTrip(x, s);
    case ByteArray(x) => ByteArrayRoundTrip(x, s);
    case IntArray(x) => IntArrayRoundTrip(x, s);
    case LongArray(x) => LongArrayRoundTrip(x, s);
    case _ => NumberRoundTrip(v, s);
  }

  lemma NumberRoundTrip(v: Value, s: seq<byte>)
    requires BYTE <= TypeOf(v) <= DOUBLE
    ensures TakeNumber(TypeOf(v), Leaf(v) + s) == Done(v, s)
  {
    match v
    case Byte(x) => assert (Leaf(v) + s)[1..] == s;
    case Short(x) => TakePut16(Unsigned(x, TWO_16), s);
    case Int(x) => TakePut32(Unsigned(x, TWO_32), s);
    case Long(x) => TakePut64(Unsigned(x, TWO_64), s);
    case Float(x) => TakePut32(x, s);
    case Double(x) => TakePut64(x, s);
  }

  lemma ByteArrayRoundTrip(x: seq<byte>, s: seq<byte>)
    requires |x| <= MAX_INT32
    ensures TakeArray(BYTE_ARRAY, Leaf(ByteArray(x)) + s) == Done(ByteArray(x), s)
  {
    assert Leaf(ByteArray(x)) + s == Length(|x|) + (x + s);
    TakeLengthOf(|x|, x + s);
    assert (x + s)[..|x|] == x && (x + s)[|x|..] == s;
  }

  lemma IntArrayRoundTrip(x: seq<int32>, s: seq<byte>)
    requires |x| <= MAX_INT32
    ensures TakeArray(INT_ARRAY, Leaf(IntArray(x)) + s) == Done(IntArray(x), s)
  {
    assert Leaf(IntArray(x)) + s == Length(|x|) + (Ints(x) + s);
    TakeLengthOf(|x|, Ints(x) + s);
    IntsRoundTrip(x, s);
  }

  lemma LongArrayRoundTrip(x: seq<int64>, s: seq<byte>)
    requires |x| <= MAX_INT32
    ensures TakeArray(LONG_ARRAY, Leaf(LongArray(x)) + s) == Done(LongArray(x), s)
  {
    assert Leaf(LongArray(x)) + s == Length(|x|) + (Longs(x) + s);
    TakeLengthOf(|x|, Longs(x) + s);
    LongsRoundTrip(x, s);
  }

  /** The parser inverts the printer at every depth, whatever follows. */
  lemma {:induction false} RoundTrip(v: Value, depth: nat, s: seq<byte>)
    requires Encodable(v, depth)
    ensures Decode(TypeOf(v), Payload(v) + s, depth) == Done(v, s)
    decreases v, 2, 0
  {
    match v
    case List(_, _) => ListRoundTrip(v, depth, s);
    case Compound(_) => CompoundRoundTrip(v, depth, s);
    case _ => LeafRoundTrip(v, s);
  }

  lemma {:induction false} ListRoundTrip(v: Value, depth: nat, s: seq<byte>)
    requires v.List? && Encodable(v, depth)
    ensures DecodeList(Payload(v) + s, depth) == Done(v, s)
    decreases v, 1, 0
  {
    var n, body := |v.values|, Elements(v.values) + s;
    var b := Payload(v) + s;
    assert b == [v.elementType] + (Length(n) + body);
    assert b[1..] == Length(n) + body;
    TakeLengthOf(n, body);
    if n == 0 {
      assert body == s;
    } else {
      ElementsRoundTrip(v.values, v.elementType, depth + 1, s);
    }
  }

  lemma {:induction false} CompoundRoundTrip(v: Value, depth: nat, s: seq<byte>)
    requires v.Compound? && Encodable(v, depth)
    ensures DecodeFields(Payload(v) + s, depth + 1, map[]) == Done(v.fields, s)
    decreases v, 1, 0
  {
    hide Decode, DecodeFields, Fields, SortedKeys;
    var keys := SortedKeys(v.fields.Keys);
    SortedKeysDistinct(v.fields.Keys);
    assert Payload(v) + s == Fields(v, keys) + ([END] + s);
    RestrictAll(v);
    FieldsRoundTrip(v, keys, depth + 1, map[], s);
  }

  lemma RestrictAll(v: Value)
    requires v.Compound?
    ensures map[] + Restrict(v, SortedKeys(v.fields.Keys)) == v.fields
  {
    var keys := SortedKeys(v.fields.Keys);
    assert Restrict(v, keys).Keys == v.fields.Keys;
  }

  lemma ElementStep(n: nat, v: Value, t: TagType, depth: nat, rest: seq<byte>)
    requires Decode(t, Payload(v) + rest, depth) == Done(v, rest)
    ensures DecodeElements(n + 1, t, Payload(v) + rest, depth)
         == match DecodeElements(n, t, rest, depth) case Fail => Fail case Done(vs, rest') => Done([v] + vs, rest')
  {
    hide Decode, Payload;
  }

  lemma ElementsSplit(vs: seq<Value>, s: seq<byte>)
    requires |vs| > 0
    ensures Elements(vs) + s == Payload(vs[0]) + (Elements(vs[1..]) + s)
  {
    hide Payload;
  }

  lemma ElementsEnd(t: TagType, depth: nat, s: seq<byte>)
    ensures DecodeElements(0, t, Elements([]) + s, depth) == Done([], s)
  {
    assert Elements([]) + s == s;
  }

  lemma {:induction false} ElementsRoundTrip(vs: seq<Value>, t: TagType, depth: nat, s: seq<byte>)
    requires forall i | 0 <= i < |vs| :: TypeOf(vs[i]) == t && Encodable(vs[i], depth)
    ensures DecodeElements(|vs|, t, Elements(vs) + s, depth) == Done(vs, s)
    decreases vs, 0, 0
  {
    hide Decode, Payload, Encodable, TypeOf, DecodeElements, Elements;
    if |vs| == 0 {
      ElementsEnd(t, depth, s);
    } else {
      var rest := Elements(vs[1..]) + s;
      ElementsSplit(vs, s);
      RoundTrip(vs[0], depth, rest);
      ElementStep(|vs| - 1, vs[0], t, depth, rest);
      ElementsRoundTrip(vs[1..], t, depth, s);
      assert vs == [vs[0]] + vs[1..];
    }
  }

  lemma SortedKeysDistinct(elements: set<GoString>)
    ensures Distinct(SortedKeys(elements))
  {
    var keys := SortedKeys(elements);
    forall i, j | 0 <= i < j < |keys| ensures keys[i] != keys[j] {
      LessTrichotomy(keys[i], keys[j]);
    }
  }

  /** Entries are read back in whatever order they were written. */
  lemma {:induction false} FieldsRoundTrip(c: Value, keys: seq<GoString>, depth: nat, m: map<GoString, Value>, s: seq<byte>)
    requires KeysOf(c, keys) && Distinct(keys)
    requires forall i | 0 <= i < |keys| :: keys[i] !in m
    requires forall k | k in c.fields :: StringOk(k) && Encodable(c.fields[k], depth)
    ensures DecodeFields(Fields(c, keys) + ([END] + s), depth, m)
         == Done(m + Restrict(c, keys), s)
    decreases c, 0, |keys|
  {
    hide Decode, Payload, StringOk, Name;
    var b := Fields(c, keys) + ([END] + s);
    if |keys| == 0 {
      assert b == [END] + s && b[1..] == s;
      assert Restrict(c, keys) == map[];
      assert m + Restrict(c, keys) == m;
    } else {
      var k := keys[0];
      var v := c.fields[k];
      var rest := Fields(c, keys[1..]) + ([END] + s);
      assert b == Field(v, k, Payload(v)) + rest;
      RoundTrip(v, depth, rest);
      EntryRoundTrip(v, k, depth, m, rest);
      FieldsRoundTrip(c, keys[1..], depth, m[k := v], s);
      FirstKey(c, keys, m);
    }
  }

  lemma EntryRoundTrip(v: Value, k: GoString, depth: nat, m: map<GoString, Value>, rest: seq<byte>)
    requires StringOk(k) && k !in m && ValidValueType(TypeOf(v))
    requires Decode(TypeOf(v), Payload(v) + rest, depth) == Done(v, rest)
    ensures DecodeFields(Field(v, k, Payload(v)) + rest, depth, m) == DecodeFields(rest, depth, m[k := v])
  {
    hide Decode, Payload, TypeOf, StringOk, StringBytes, TakeString;
    var b := Field(v, k, Payload(v)) + rest;
    var b' := StringBytes(k) + (Payload(v) + rest);
    assert b == [TypeOf(v)] + b';
    assert b[1..] == b';
    StringRoundTrip(k, Payload(v) + rest);
  }

  lemma FirstKey(c: Value, keys: seq<GoString>, m: map<GoString, Value>)
    requires KeysOf(c, keys) && Distinct(keys) && |keys| > 0
    ensures m[keys[0] := c.fields[keys[0]]] + Restrict(c, keys[1..])
         == m + Restrict(c, keys)
  {
    assert keys == [keys[0]] + keys[1..];
  }

  // ----- what is read can be written, in no more bytes -----

  lemma {:induction false} TakenIntsSize(n: nat, b: seq<byte>)
    requires TakeInts(n, b).Done?
    ensures var p := TakeInts(n, b);
            |p.value| == n && |Ints(p.value)| + |p.rest| == |b|
  {
    if n > 0 {
      TakenIntsSize(n - 1, b[4..]);
      var p := TakeInts(n, b);
      assert p.value[1..] == TakeInts(n - 1, b[4..]).value;
    }
  }

  lemma {:induction false} TakenLongsSize(n: nat, b: seq<byte>)
    requires TakeLongs(n, b).Done?
    ensures var p := TakeLongs(n, b);
            |p.value| == n && |Longs(p.value)| + |p.rest| == |b|
  {
    if n > 0 {
      TakenLongsSize(n - 1, b[8..]);
      var p := TakeLongs(n, b);
      assert p.value[1..] == TakeLongs(n - 1, b[8..]).value;
    }
  }

  lemma TakenLeaf(t: TagType, b: seq<byte>)
    requires TakeLeaf(t, b).Done?
    ensures var p := TakeLeaf(t, b);
            && TypeOf(p.value) == t && LeafOk(p.value)
            && |Leaf(p.value)| + |p.rest| <= |b|
  {
    if t == STRING {
      ReadableIsWritable(b);
    } else if t == INT_ARRAY {
      TakenIntsSize(TakeLength(b).value, TakeLength(b).rest);
    } else if t == LONG_ARRAY {
      TakenLongsSize(TakeLength(b).value, TakeLength(b).rest);
    }
  }

  /** Everything the parser returns can be written at the same depth, has the
      type asked for, and is re-encoded in no more bytes than were read. */
  lemma {:induction false} DecodedIsEncodable(t: TagType, b: seq<byte>, depth: nat)
    requires Decode(t, b, depth).Done?
    ensures var p := Decode(t, b, depth);
            && TypeOf(p.value) == t && Encodable(p.value, depth)
            && |Payload(p.value)| + |p.rest| <= |b|
    decreases Level(depth), 0, 0
  {
    if t == LIST {
      var length := TakeLength(b[1..]);
      if length.value > 0 {
        DecodedElements(length.value, b[0], length.rest, depth + 1);
      }
    } else if t == COMPOUND {
      DecodedFields(b, depth + 1, map[]);
      FieldsOfNone();
    } else {
      TakenLeaf(t, b);
    }
  }

  lemma {:induction false} DecodedElements(n: nat, t: TagType, b: seq<byte>, depth: nat)
    requires DecodeElements(n, t, b, depth).Done?
    ensures var p := DecodeElements(n, t, b, depth);
            && |p.value| == n
            && (forall i | 0 <= i < n :: TypeOf(p.value[i]) == t && Encodable(p.value[i], depth))
            && |Elements(p.value)| + |p.rest| <= |b|
    decreases Level(depth), 1, n
  {
    if n > 0 {
      DecodedIsEncodable(t, b, depth);
      var rest := Decode(t, b, depth).rest;
      DecodedElements(n - 1, t, rest, depth);
      var p := DecodeElements(n, t, b, depth);
      assert p.value[1..] == DecodeElements(n - 1, t, rest, depth).value;
    }
  }

  ghost predicate AllEncodable(m: map<GoString, Value>, depth: nat) {
    forall k | k in m :: StringOk(k) && Encodable(m[k], depth)
  }

  ghost function FieldsSize(m: map<GoString, Value>): nat {
    |Fields(Compound(m), SortedKeys(m.Keys))|
  }

  lemma FieldsOfNone()
    ensures FieldsSize(map[]) == 0
  {
    var m: map<GoString, Value> := map[];
    EmptyLists(SortedKeys(m.Keys), m.Keys);
  }

  lemma {:induction false} DecodedFields(b: seq<byte>, depth: nat, m: map<GoString, Value>)
    requires DecodeFields(b, depth, m).Done?
    requires AllEncodable(m, depth)
    ensures var p := DecodeFields(b, depth, m);
            && AllEncodable(p.value, depth)
            && FieldsSize(p.value) + 1 + |p.rest| <= FieldsSize(m) + |b|
    decreases Level(depth), 1, |b|
  {
    if b[0] != END {
      ReadableIsWritable(b[1..]);
      var name := TakeString(b[1..]);
      var k := name.value;
      DecodedIsEncodable(b[0], name.rest, depth);
      var entry := Decode(b[0], name.rest, depth);
      FieldsSizeAdd(m, k, entry.value);
      DecodedFields(entry.rest, depth, m[k := entry.value]);
    }
  }

  /** The size of a compound's entries does not depend on their order. */
  lemma FieldsSizeAdd(m: map<GoString, Value>, k: GoString, v: Value)
    requires k !in m
    ensures FieldsSize(m[k := v]) == FieldsSize(m) + |Field(v, k, Payload(v))|
  {
    var m' := m[k := v];
    var keys := SortedKeys(m.Keys);
    InsertLists(keys, m.Keys, k);
    assert m'.Keys == m.Keys + {k};
    ListsUnique(Insert(keys, k), SortedKeys(m'.Keys), m'.Keys);
    FieldsSizeInsert(Compound(m'), keys, k);
    FieldsAgree(Compound(m), Compound(m'), keys);
  }

  lemma {:induction false} FieldsSizeInsert(c: Value, keys: seq<GoString>, k: GoString)
    requires KeysOf(c, keys) && k in c.fields
    ensures KeysOf(c, Insert(keys, k))
    ensures |Fields(c, Insert(keys, k))| == |Fields(c, keys)| + |Field(c.fields[k], k, Payload(c.fields[k]))|
  {
    var inserted := Insert(keys, k);
    if |keys| == 0 || Less(k, keys[0]) {
      assert inserted[1..] == keys;
    } else {
      FieldsSizeInsert(c, keys[1..], k);
      assert inserted[1..] == Insert(keys[1..], k);
      assert forall i | 1 <= i < |inserted| :: inserted[i] == inserted[1..][i - 1];
    }
  }

  lemma {:induction false} FieldsAgree(c: Value, d: Value, keys: seq<GoString>)
    requires KeysOf(c, keys) && KeysOf(d, keys)
    requires forall i | 0 <= i < |keys| :: c.fields[keys[i]] == d.fields[keys[i]]
    ensures Fields(c, keys) == Fields(d, keys)
  {
    if |keys| > 0 {
      FieldsAgree(c, d, keys[1..]);
    }
  }

  // ----- the whole network form -----

  /** WriteNetwork then ReadNetwork, with an arbitrary suffix. */
  lemma NetworkRoundTrip(v: Value, suffix: seq<byte>)
    requires Encodable(v, 0)
    ensures DecodeNetwork(Network(v) + suffix) == Done(v, suffix)
  {
    hide Decode, Payload;
    RoundTrip(v, 0, suffix);
    assert (Network(v) + suffix)[1..] == Payload(v) + suffix;
  }

  /** ReadNetwork returns exactly the values that WriteNetwork accepts: what it
      returns can be written, reads back as the same value, and takes no more
      bytes than were consumed. */
  lemma DecodableIsEncodable(b: seq<byte>, suffix: seq<byte>)
    requires DecodeNetwork(b).Done?
    ensures var p := DecodeNetwork(b);
            && Encodable(p.value, 0)
            && |Network(p.value)| <= |b| - |p.rest|
            && DecodeNetwork(Network(p.value) + suffix) == Done(p.value, suffix)
  {
    DecodedIsEncodable(b[0], b[1..], 0);
    NetworkRoundTrip(DecodeNetwork(b).value, suffix);
  }

  /** No encoding is a proper prefix of another, so values can be concatenated
      without separators. */
  lemma NetworkIsPrefixFree(v: Value, w: Value, s: seq<byte>, t: seq<byte>)
    requires Encodable(v, 0) && Encodable(w, 0)
    requires Network(v) + s == Network(w) + t
    ensures v == w && s == t
  {
    NetworkRoundTrip(v, s);
    NetworkRoundTrip(w, t);
  }
}
