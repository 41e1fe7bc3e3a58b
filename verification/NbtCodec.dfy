/** WriteNetwork and ReadNetwork as the loops over a writer and a reader cursor
    that they are, proved against the functions of NetworkNbt.

    A writer may stop accepting bytes at any point: every write method says that
    what the writer already holds stays, that success means the whole encoding
    was appended, and that a writer without faults fails only on a value that
    cannot be encoded. A read method consumes exactly what the parser of
    NetworkNbt consumes and fails exactly when that parser does. */
module NbtCodec {
  import opened Collections
  import opened Streams
  import opened ModifiedUtf8
  import opened Sorting
  import opened NbtValue
  import opened NetworkNbt

  // ----- writing -----

  method WriteLength(w: Writer, length: nat) returns (ok: bool)
    modifies w
    ensures ok ==> length <= MAX_INT32 && w.sink == old(w.sink) + Length(length)
    ensures length <= MAX_INT32 && old(w.plan) == [] ==> ok
    ensures old(w.sink) <= w.sink
    ensures old(w.plan) == [] ==> w.plan == []
  {
    if length > MAX_INT32 {
      return false;
    }
    ok := w.WriteAll(Put32(length));
  }

  lemma {:induction false} IntsOfAppend(a: seq<int32>, x: int32)
    ensures Ints(a + [x]) == Ints(a) + Put32(Unsigned(x, TWO_32))
  {
    if |a| > 0 {
      assert (a + [x])[0] == a[0] && (a + [x])[1..] == a[1..] + [x];
      IntsOfAppend(a[1..], x);
    }
  }

  lemma {:induction false} LongsOfAppend(a: seq<int64>, x: int64)
    ensures Longs(a + [x]) == Longs(a) + Put64(Unsigned(x, TWO_64))
  {
    if |a| > 0 {
      assert (a + [x])[0] == a[0] && (a + [x])[1..] == a[1..] + [x];
      LongsOfAppend(a[1..], x);
    }
  }

  lemma {:induction false} ElementsOfAppend(vs: seq<Value>, v: Value)
    ensures Elements(vs + [v]) == Elements(vs) + Payload(v)
  {
    hide Payload;
    if |vs| == 0 {
      assert Elements([v]) == Payload(v) + Elements([v][1..]);
      assert vs + [v] == [v];
    } else {
      assert (vs + [v])[0] == vs[0] && (vs + [v])[1..] == vs[1..] + [v];
      ElementsOfAppend(vs[1..], v);
    }
  }

  lemma {:induction false} FieldsOfAppend(c: Value, keys: seq<GoString>, k: GoString)
    requires KeysOf(c, keys) && k in c.fields
    ensures KeysOf(c, keys + [k])
    ensures Fields(c, keys + [k]) == Fields(c, keys) + Field(c.fields[k], k, Payload(c.fields[k]))
  {
    hide Payload, Field;
    if |keys| == 0 {
      assert keys + [k] == [k];
      assert Fields(c, [k][1..]) == [];
    } else {
      assert (keys + [k])[0] == keys[0] && (keys + [k])[1..] == keys[1..] + [k];
      FieldsOfAppend(c, keys[1..], k);
    }
  }

  method WriteInts(w: Writer, a: seq<int32>) returns (ok: bool)
    modifies w
    ensures ok ==> w.sink == old(w.sink) + Ints(a)
    ensures old(w.plan) == [] ==> ok && w.plan == []
    ensures old(w.sink) <= w.sink
  {
    for i := 0 to |a|
      invariant w.sink == old(w.sink) + Ints(a[..i])
      invariant old(w.plan) == [] ==> w.plan == []
    {
      assert a[..i + 1] == a[..i] + [a[i]];
      IntsOfAppend(a[..i], a[i]);
      var good := w.WriteAll(Put32(Unsigned(a[i], TWO_32)));
      if !good {
        return false;
      }
    }
    assert a[..|a|] == a;
    return true;
  }

  method WriteLongs(w: Writer, a: seq<int64>) returns (ok: bool)
    modifies w
    ensures ok ==> w.sink == old(w.sink) + Longs(a)
    ensures old(w.plan) == [] ==> ok && w.plan == []
    ensures old(w.sink) <= w.sink
  {
    for i := 0 to |a|
      invariant w.sink == old(w.sink) + Longs(a[..i])
      invariant old(w.plan) == [] ==> w.plan == []
    {
      assert a[..i + 1] == a[..i] + [a[i]];
      LongsOfAppend(a[..i], a[i]);
      var good := w.WriteAll(Put64(Unsigned(a[i], TWO_64)));
      if !good {
        return false;
      }
    }
    assert a[..|a|] == a;
    return true;
  }

  method WriteLeaf(w: Writer, value: Value) returns (ok: bool)
    requires !value.List? && !value.Compound?
    modifies w
    ensures ok ==> LeafOk(value) && w.sink == old(w.sink) + Leaf(value)
    ensures LeafOk(value) && old(w.plan) == [] ==> ok
    ensures old(w.sink) <= w.sink
    ensures old(w.plan) == [] ==> w.plan == []
  {
    hide StringOk, StringBytes, Ints, Longs, Put16, Put32, Put64;
    match value
    case Nil => ok := false;
    case Byte(x) => ok := w.WriteAll([Unsigned(x, TWO_8)]);
    case Short(x) => ok := w.WriteAll(Put16(Unsigned(x, TWO_16)));
    case Int(x) => ok := w.WriteAll(Put32(Unsigned(x, TWO_32)));
    case Long(x) => ok := w.WriteAll(Put64(Unsigned(x, TWO_64)));
    case Float(x) => ok := w.WriteAll(Put32(x));
    case Double(x) => ok := w.WriteAll(Put64(x));
    case String(x) => ok := WriteModifiedUTF8(w, x);
    case ByteArray(x) =>
      ok := WriteLength(w, |x|);
      if ok { ok := w.WriteAll(x); }
    case IntArray(x) =>
      ok := WriteLength(w, |x|);
      if ok { ok := WriteInts(w, x); }
    case LongArray(x) =>
      ok := WriteLength(w, |x|);
      if ok { ok := WriteLongs(w, x); }
  }

  /** writePayload: it succeeds only on the values that are Encodable, and then
      has written exactly their payload; a writer that never fails makes it
      succeed on all of them. */
  method WritePayload(w: Writer, value: Value, depth: nat) returns (ok: bool)
    modifies w
    ensures ok ==> Encodable(value, depth) && w.sink == old(w.sink) + Payload(value)
    ensures Encodable(value, depth) && old(w.plan) == [] ==> ok
    ensures old(w.sink) <= w.sink
    ensures old(w.plan) == [] ==> w.plan == []
    decreases value, 3
  {
    hide Leaf, LeafOk, SortedKeys, Elements, Fields;
    if depth > MAX_DEPTH {
      return false;
    }
    match value
    case List(_, _) => ok := WriteList(w, value, depth);
    case Compound(_) => ok := WriteCompound(w, value, depth);
    case _ => ok := WriteLeaf(w, value);
  }

  method WriteList(w: Writer, list: Value, depth: nat) returns (ok: bool)
    requires list.List? && depth <= MAX_DEPTH
    modifies w
    ensures ok ==> Encodable(list, depth) && w.sink == old(w.sink) + Payload(list)
    ensures Encodable(list, depth) && old(w.plan) == [] ==> ok
    ensures old(w.sink) <= w.sink
    ensures old(w.plan) == [] ==> w.plan == []
    decreases list, 1
  {
    hide Elements;
    var t, vs := list.elementType, list.values;
    if |vs| == 0 {
      if t != END && !ValidValueType(t) {
        return false;
      }
      ok := w.WriteAll([t]);
      if ok { ok := WriteLength(w, 0); }
      NoElements();
      return;
    }
    if !ValidValueType(t) {
      return false;
    }
    ok := w.WriteAll([t]);
    if !ok { return; }
    ok := WriteLength(w, |vs|);
    if !ok { return; }
    ok := WriteElements(w, list, depth);
    assert old(w.sink) + [t] + Length(|vs|) + Elements(vs) == old(w.sink) + ([t] + Length(|vs|) + Elements(vs));
  }

  /** The loop of writeList. */
  method WriteElements(w: Writer, list: Value, depth: nat) returns (ok: bool)
    requires list.List? && ValidValueType(list.elementType)
    modifies w
    ensures ok ==>
              && w.sink == old(w.sink) + Elements(list.values)
              && forall k | 0 <= k < |list.values| ::
                   TypeOf(list.values[k]) == list.elementType && Encodable(list.values[k], depth + 1)
    ensures Encodable(list, depth) && old(w.plan) == [] ==> ok
    ensures old(w.sink) <= w.sink
    ensures old(w.plan) == [] ==> w.plan == []
    decreases list, 0
  {
    hide Payload, Elements, Encodable;
    var t, vs := list.elementType, list.values;
    assert Elements([]) == [] by { NoElements(); }
    for i := 0 to |vs|
      invariant w.sink == old(w.sink) + Elements(vs[..i])
      invariant forall k | 0 <= k < i :: TypeOf(vs[k]) == t && Encodable(vs[k], depth + 1)
      invariant old(w.plan) == [] ==> w.plan == []
    {
      NotEncodableAt(list, i, depth);
      if vs[i] == Nil {
        return false;
      }
      if TypeOf(vs[i]) != t {
        return false;
      }
      assert vs[..i + 1] == vs[..i] + [vs[i]];
      ElementsOfAppend(vs[..i], vs[i]);
      ok := WritePayload(w, vs[i], depth + 1);
      if !ok {
        return;
      }
    }
    assert vs[..|vs|] == vs;
    return true;
  }

  lemma NoElements()
    ensures Elements([]) == []
  {
  }

  lemma NotEncodableAt(list: Value, i: nat, depth: nat)
    requires list.List? && i < |list.values|
    ensures Encodable(list, depth) ==> TypeOf(list.values[i]) == list.elementType && Encodable(list.values[i], depth + 1)
  {
  }

  method WriteCompound(w: Writer, compound: Value, depth: nat) returns (ok: bool)
    requires compound.Compound? && depth <= MAX_DEPTH
    modifies w
    ensures ok ==> Encodable(compound, depth) && w.sink == old(w.sink) + Payload(compound)
    ensures Encodable(compound, depth) && old(w.plan) == [] ==> ok
    ensures old(w.sink) <= w.sink
    ensures old(w.plan) == [] ==> w.plan == []
    decreases compound, 2
  {
    hide SortedKeys, Fields, StringOk;
    var keys := SortStrings(compound.fields.Keys);
    assert KeysOf(compound, keys) by { forall i | 0 <= i < |keys| ensures keys[i] in compound.fields { assert keys[i] in keys; } }
    ok := WriteFields(w, compound, keys, depth);
    if !ok { return; }
    ok := w.WriteAll([END]);
    assert old(w.sink) + Fields(compound, keys) + [END] == old(w.sink) + (Fields(compound, keys) + [END]);
    forall k | k in compound.fields ensures StringOk(k) && Encodable(compound.fields[k], depth + 1) {
      assert k in keys;
    }
  }

  /** The loop of writeCompound. */
  method WriteFields(w: Writer, compound: Value, keys: seq<GoString>, depth: nat) returns (ok: bool)
    requires KeysOf(compound, keys)
    modifies w
    ensures ok ==>
              && w.sink == old(w.sink) + Fields(compound, keys)
              && forall i | 0 <= i < |keys| :: StringOk(keys[i]) && Encodable(compound.fields[keys[i]], depth + 1)
    ensures Encodable(compound, depth) && old(w.plan) == [] ==> ok
    ensures old(w.sink) <= w.sink
    ensures old(w.plan) == [] ==> w.plan == []
    decreases compound, 1
  {
    hide Payload, Fields, Encodable, StringOk, Field;
    NoFields(compound);
    for i := 0 to |keys|
      invariant w.sink == old(w.sink) + Fields(compound, keys[..i])
      invariant forall k | 0 <= k < i :: StringOk(keys[k]) && Encodable(compound.fields[keys[k]], depth + 1)
      invariant old(w.plan) == [] ==> w.plan == []
    {
      assert keys[..i + 1] == keys[..i] + [keys[i]];
      FieldsOfAppend(compound, keys[..i], keys[i]);
      ok := WriteEntry(w, compound, keys[i], depth);
      if !ok { return; }
    }
    assert keys[..|keys|] == keys;
    return true;
  }

  lemma NoFields(compound: Value)
    requires compound.Compound?
    ensures Fields(compound, []) == []
  {
  }

  /** One round of the loop of writeCompound. */
  method WriteEntry(w: Writer, compound: Value, key: GoString, depth: nat) returns (ok: bool)
    requires compound.Compound? && key in compound.fields
    modifies w
    ensures var entry := compound.fields[key];
            && (ok ==>
                  && StringOk(key) && Encodable(entry, depth + 1)
                  && w.sink == old(w.sink) + Field(entry, key, Payload(entry)))
            && (Encodable(compound, depth) && old(w.plan) == [] ==> ok)
    ensures old(w.sink) <= w.sink
    ensures old(w.plan) == [] ==> w.plan == []
    decreases compound, 0
  {
    hide Payload, Fields, Encodable, StringOk, StringBytes;
    var entry := compound.fields[key];
    NotEncodableUnder(compound, key, depth);
    if entry == Nil || !ValidValueType(TypeOf(entry)) {
      return false;
    }
    ok := w.WriteAll([TypeOf(entry)]);
    if !ok { return; }
    ok := WriteModifiedUTF8(w, key);
    if !ok { return; }
    ok := WritePayload(w, entry, depth + 1);
  }

  lemma NotEncodableUnder(compound: Value, k: GoString, depth: nat)
    requires compound.Compound? && k in compound.fields
    ensures Encodable(compound, depth) ==> StringOk(k) && Encodable(compound.fields[k], depth + 1)
    ensures Encodable(compound.fields[k], depth + 1) ==> ValidValueType(TypeOf(compound.fields[k]))
  {
  }

  lemma ValueTypes(value: Value)
    ensures ValidValueType(TypeOf(value)) <==> value != Nil
    ensures Encodable(value, 0) ==> value != Nil
  {
  }

  /** WriteNetwork */
  method WriteNetwork(w: Writer, value: Value) returns (ok: bool)
    modifies w
    ensures ok ==> Encodable(value, 0) && w.sink == old(w.sink) + Network(value)
    ensures Encodable(value, 0) && old(w.plan) == [] ==> ok
    ensures old(w.sink) <= w.sink
    ensures old(w.plan) == [] ==> w.plan == []
  {
    hide Payload, Encodable, TypeOf;
    ValueTypes(value);
    if value == Nil || !ValidValueType(TypeOf(value)) {
      return false;
    }
    ok := w.WriteAll([TypeOf(value)]);
    if !ok { return; }
    ok := WritePayload(w, value, 0);
  }

  // ----- reading -----

  method ReadLength(r: Reader) returns (p: Parse<nat>)
    requires r.Valid()
    modifies r
    ensures r.Valid()
    ensures p == TakeLength(old(r.Remaining()))
    ensures p.Done? ==> r.Remaining() == p.rest
  {
    var q := r.ReadUint32();
    if q.Fail? {
      return Fail;
    }
    var length := Signed(q.value, TWO_32);
    if length < 0 {
      return Fail;
    }
    return Done(length, q.rest);
  }

  ghost function Before<T>(done: seq<T>, p: Parse<seq<T>>): Parse<seq<T>> {
    match p
    case Fail => Fail
    case Done(more, rest) => Done(done + more, rest)
  }

  lemma BeforeNothing<T>(p: Parse<seq<T>>)
    ensures Before([], p) == p
  {
    assert p.Done? ==> [] + p.value == p.value;
  }

  lemma BeforeOne<T>(done: seq<T>, x: T, p: Parse<seq<T>>)
    ensures Before(done, Before([x], p)) == Before(done + [x], p)
  {
    assert p.Done? ==> done + ([x] + p.value) == done + [x] + p.value;
  }

  method ReadInts(r: Reader, length: nat) returns (p: Parse<seq<int32>>)
    requires r.Valid()
    modifies r
    ensures r.Valid()
    ensures p == TakeInts(length, old(r.Remaining()))
    ensures p.Done? ==> r.Remaining() == p.rest
  {
    var value: seq<int32> := [];
    BeforeNothing(TakeInts(length, r.Remaining()));
    for i := 0 to length
      invariant r.Valid()
      invariant TakeInts(length, old(r.Remaining())) == Before(value, TakeInts(length - i, r.Remaining()))
    {
      ghost var b := r.Remaining();
      var entry := r.ReadUint32();
      if entry.Fail? {
        return Fail;
      }
      BeforeOne(value, Signed(entry.value, TWO_32), TakeInts(length - i - 1, entry.rest));
      value := value + [Signed(entry.value, TWO_32)];
    }
    assert value + [] == value;
    return Done(value, r.Remaining());
  }

  method ReadLongs(r: Reader, length: nat) returns (p: Parse<seq<int64>>)
    requires r.Valid()
    modifies r
    ensures r.Valid()
    ensures p == TakeLongs(length, old(r.Remaining()))
    ensures p.Done? ==> r.Remaining() == p.rest
  {
    var value: seq<int64> := [];
    BeforeNothing(TakeLongs(length, r.Remaining()));
    for i := 0 to length
      invariant r.Valid()
      invariant TakeLongs(length, old(r.Remaining())) == Before(value, TakeLongs(length - i, r.Remaining()))
    {
      ghost var b := r.Remaining();
      var entry := r.ReadUint64();
      if entry.Fail? {
        return Fail;
      }
      BeforeOne(value, Signed(entry.value, TWO_64), TakeLongs(length - i - 1, entry.rest));
      value := value + [Signed(entry.value, TWO_64)];
    }
    assert value + [] == value;
    return Done(value, r.Remaining());
  }

  method ReadNumber(r: Reader, t: TagType) returns (p: Parse<Value>)
    requires r.Valid() && BYTE <= t <= DOUBLE
    modifies r
    ensures r.Valid()
    ensures p == TakeNumber(t, old(r.Remaining()))
    ensures p.Done? ==> r.Remaining() == p.rest
  {
    if t == BYTE {
      var q := r.ReadByte();
      p := if q.Done? then Done(Byte(Signed(q.value, TWO_8)), q.rest) else Fail;
    } else if t == SHORT {
      var q := r.ReadUint16();
      p := if q.Done? then Done(Short(Signed(q.value, TWO_16)), q.rest) else Fail;
    } else if t == INT {
      var q := r.ReadUint32();
      p := if q.Done? then Done(Int(Signed(q.value, TWO_32)), q.rest) else Fail;
    } else if t == LONG {
      var q := r.ReadUint64();
      p := if q.Done? then Done(Long(Signed(q.value, TWO_64)), q.rest) else Fail;
    } else if t == FLOAT {
      var q := r.ReadUint32();
      p := if q.Done? then Done(Float(q.value), q.rest) else Fail;
    } else {
      var q := r.ReadUint64();
      p := if q.Done? then Done(Double(q.value), q.rest) else Fail;
    }
  }

  method ReadLeaf(r: Reader, t: TagType) returns (p: Parse<Value>)
    requires r.Valid()
    modifies r
    ensures r.Valid()
    ensures p == TakeLeaf(t, old(r.Remaining()))
    ensures p.Done? ==> r.Remaining() == p.rest
  {
    if BYTE <= t <= DOUBLE {
      p := ReadNumber(r, t);
    } else if t == STRING {
      var q := ReadModifiedUTF8(r);
      p := if q.Done? then Done(String(q.value), q.rest) else Fail;
    } else if t == BYTE_ARRAY || t == INT_ARRAY || t == LONG_ARRAY {
      var length := ReadLength(r);
      if length.Fail? {
        return Fail;
      }
      if t == BYTE_ARRAY {
        var q := r.ReadFull(length.value);
        p := if q.Done? then Done(ByteArray(q.value), q.rest) else Fail;
      } else if t == INT_ARRAY {
        var q := ReadInts(r, length.value);
        p := if q.Done? then Done(IntArray(q.value), q.rest) else Fail;
      } else {
        var q := ReadLongs(r, length.value);
        p := if q.Done? then Done(LongArray(q.value), q.rest) else Fail;
      }
    } else {
      p := Fail;
    }
  }

  /** readPayload */
  method ReadPayload(r: Reader, t: TagType, depth: nat) returns (p: Parse<Value>)
    requires r.Valid()
    modifies r
    ensures r.Valid()
    ensures p == Decode(t, old(r.Remaining()), depth)
    ensures p.Done? ==> r.Remaining() == p.rest
    decreases Level(depth), 0
  {
    hide TakeLeaf, DecodeList, DecodeFields;
    if depth > MAX_DEPTH {
      return Fail;
    }
    if t == LIST {
      p := ReadList(r, depth);
    } else if t == COMPOUND {
      var q := ReadCompound(r, depth);
      p := if q.Done? then Done(Compound(q.value), q.rest) else Fail;
    } else {
      p := ReadLeaf(r, t);
    }
  }

  method ReadList(r: Reader, depth: nat) returns (p: Parse<Value>)
    requires r.Valid() && depth <= MAX_DEPTH
    modifies r
    ensures r.Valid()
    ensures p == DecodeList(old(r.Remaining()), depth)
    ensures p.Done? ==> r.Remaining() == p.rest
    decreases Level(depth + 1), 1
  {
    hide TakeLeaf, DecodeFields, Decode;
    var elementType := r.ReadByte();
    if elementType.Fail? {
      return Fail;
    }
    var t := elementType.value;
    var length := ReadLength(r);
    if length.Fail? {
      return Fail;
    }
    if length.value == 0 {
      if t != END && !ValidValueType(t) {
        return Fail;
      }
      return Done(List(t, []), length.rest);
    }
    if !ValidValueType(t) {
      return Fail;
    }
    var n := length.value;
    var values: seq<Value> := [];
    BeforeNothing(DecodeElements(n, t, r.Remaining(), depth + 1));
    ghost var all := DecodeElements(n, t, r.Remaining(), depth + 1);
    for i := 0 to n
      invariant r.Valid()
      invariant all == Before(values, DecodeElements(n - i, t, r.Remaining(), depth + 1))
    {
      ghost var b := r.Remaining();
      var value := ReadPayload(r, t, depth + 1);
      if value.Fail? {
        return Fail;
      }
      BeforeOne(values, value.value, DecodeElements(n - i - 1, t, value.rest, depth + 1));
      values := values + [value.value];
    }
    assert values + [] == values;
    return Done(List(t, values), r.Remaining());
  }

  method ReadCompound(r: Reader, depth: nat) returns (p: Parse<map<GoString, Value>>)
    requires r.Valid() && depth <= MAX_DEPTH
    modifies r
    ensures r.Valid()
    ensures p == DecodeFields(old(r.Remaining()), depth + 1, map[])
    ensures p.Done? ==> r.Remaining() == p.rest
    decreases Level(depth + 1), 1
  {
    hide TakeLeaf, DecodeList, Decode, TakeString;
    var value: map<GoString, Value> := map[];
    while true
      invariant r.Valid()
      invariant DecodeFields(old(r.Remaining()), depth + 1, map[]) == DecodeFields(r.Remaining(), depth + 1, value)
      decreases |r.Remaining()|
    {
      var typeByte := r.ReadByte();
      if typeByte.Fail? {
        return Fail;
      }
      var t := typeByte.value;
      if t == END {
        return Done(value, typeByte.rest);
      }
      if !ValidValueType(t) {
        return Fail;
      }
      var name := ReadModifiedUTF8(r);
      if name.Fail? {
        return Fail;
      }
      if name.value in value {
        return Fail;
      }
      var entry := ReadPayload(r, t, depth + 1);
      if entry.Fail? {
        return Fail;
      }
      value := value[name.value := entry.value];
    }
  }

  /** ReadNetwork */
  method ReadNetwork(r: Reader) returns (p: Parse<Value>)
    requires r.Valid()
    modifies r
    ensures r.Valid()
    ensures p == DecodeNetwork(old(r.Remaining()))
    ensures p.Done? ==> r.Remaining() == p.rest
  {
    var typeByte := r.ReadByte();
    if typeByte.Fail? {
      return Fail;
    }
    if !ValidValueType(typeByte.value) {
      return Fail;
    }
    p := ReadPayload(r, typeByte.value, 0);
  }
}
