/** VarInts, strings and packet frames of the protocol. A string here is the
    bytes of a Go string. */
module Wire {
  import opened Streams

  const MAX_VARINT_BYTES: nat := 5
  const MAX_STRING: nat := 32767

  // ----- VarInts -----

  /** The 7-bit groups of an unsigned integer, lowest first; all but the last
      carry the continuation bit. */
  function Septets(u: nat): (b: seq<byte>)
  {
    if u < 128 then [u] else [u % 128 + 128] + Septets(u / 128)
  }

  /** AppendVarInt */
  function VarInt(v: int32): seq<byte> {
    Septets(Unsigned(v, TWO_32))
  }

  /** The weight of group i: 1 << (7 * i). */
  function Weight(i: nat): nat {
    if i == 0 then 1 else 128 * Weight(i - 1)
  }

  /** What is read so far with the payload of byte `b` as group i. What is
      shifted beyond bit 31 is lost. */
  function WithGroup(value: uint32, b: byte, i: nat): uint32 {
    (value as int + b as int % 128 * Weight(i)) % TWO_32
  }

  lemma NothingShiftedOut(value: uint32, b: byte, i: nat)
    requires 0 <= value as int + b as int % 128 * Weight(i) < TWO_32
    ensures WithGroup(value, b, i) as int == value as int + b as int % 128 * Weight(i)
  {
    hide Weight;
  }

  lemma WithGroupIs(value: uint32, b: byte, i: nat)
    ensures WithGroup(value, b, i) == (value as int + b as int % 128 * Weight(i)) % TWO_32
  {
    hide Weight;
  }

  /** ReadVarInt from group i on, with the lower groups read into `value`. */
  function TakeSeptets(b: seq<byte>, i: nat, value: uint32): (p: Parse<int32>)
    ensures p.Done? ==> |p.rest| < |b|
    decreases MAX_VARINT_BYTES - i
  {
    if i >= MAX_VARINT_BYTES || |b| == 0 then Fail
    else
      var next := WithGroup(value, b[0], i);
      if b[0] < 128 then Done(Signed(next, TWO_32), b[1..]) else TakeSeptets(b[1..], i + 1, next)
  }

  function TakeVarInt(b: seq<byte>): (p: Parse<int32>)
    ensures p.Done? ==> |p.rest| < |b|
  {
    TakeSeptets(b, 0, 0)
  }

  lemma NextWeight(i: nat)
    ensures Weight(i + 1) == 128 * Weight(i)
  {
  }

  lemma Weights()
    ensures Weight(0) == 1 && Weight(1) == 128 && Weight(2) == 0x4000 && Weight(3) == 0x20_0000 && Weight(4) == 0x1000_0000
  {
  }

  /** What is left of a 32-bit number after i groups. */
  ghost predicate Fits(i: nat, value: int, u: nat) {
    i < MAX_VARINT_BYTES && 0 <= value < Weight(i) && value + u * Weight(i) < TWO_32
  }

  lemma {:induction false} SeptetsRoundTrip(u: nat, i: nat, value: uint32, s: seq<byte>)
    requires Fits(i, value, u)
    ensures TakeSeptets(Septets(u) + s, i, value) == Done(Signed(value as int + u * Weight(i), TWO_32), s)
    decreases u
  {
    hide Weight, TakeSeptets, Septets, Fits;
    SeptetsSplit(u, s);
    Room(u, i, value);
    if u < 128 {
      TakeLast(Septets(u) + s, i, value, u);
    } else {
      Carry(u, i, value);
      TakeMore(Septets(u) + s, i, value, u % 128);
      SeptetsRoundTrip(u / 128, i + 1, value as int + u % 128 * Weight(i), s);
    }
  }

  lemma SeptetsSplit(u: nat, s: seq<byte>)
    ensures |Septets(u) + s| > 0
    ensures u < 128 ==> (Septets(u) + s)[0] == u && (Septets(u) + s)[1..] == s
    ensures u >= 128 ==> (Septets(u) + s)[0] == u % 128 + 128 && (Septets(u) + s)[1..] == Septets(u / 128) + s
  {
  }

  lemma TakeLast(b: seq<byte>, i: nat, value: uint32, d: nat)
    requires i < MAX_VARINT_BYTES && |b| > 0 && d < 128 && b[0] == d
    requires 0 <= value + d * Weight(i) < TWO_32
    ensures TakeSeptets(b, i, value) == Done(Signed(value as int + d * Weight(i), TWO_32), b[1..])
  {
    hide Weight, WithGroup;
    assert b[0] as int % 128 == d;
    NothingShiftedOut(value, b[0], i);
  }

  lemma TakeMore(b: seq<byte>, i: nat, value: uint32, d: nat)
    requires i < MAX_VARINT_BYTES && |b| > 0 && d < 128 && b[0] == d + 128
    requires 0 <= value + d * Weight(i) < TWO_32
    ensures TakeSeptets(b, i, value) == TakeSeptets(b[1..], i + 1, value as int + d * Weight(i))
  {
    hide Weight, WithGroup;
    assert b[0] as int % 128 == d;
    NothingShiftedOut(value, b[0], i);
  }

  lemma Room(u: nat, i: nat, value: int)
    requires Fits(i, value, u)
    ensures 0 <= value + u % 128 * Weight(i) < TWO_32 && 0 <= value + u * Weight(i) < TWO_32
    ensures i < MAX_VARINT_BYTES
    ensures u >= 128 ==> i + 1 < MAX_VARINT_BYTES
  {
    Weights();
  }

  /** Reading one group moves it from the number into the value. */
  lemma Carry(u: nat, i: nat, value: int)
    requires Fits(i, value, u) && i + 1 < MAX_VARINT_BYTES
    ensures Fits(i + 1, value + u % 128 * Weight(i), u / 128)
    ensures value + u % 128 * Weight(i) + u / 128 * Weight(i + 1) == value + u * Weight(i)
  {
    Weights();
    assert u == u / 128 * 128 + u % 128;
  }

  lemma {:induction false} SeptetsCount(u: nat, n: nat)
    requires u < Weight(n) && n > 0
    ensures 1 <= |Septets(u)| <= n
    decreases n
  {
    if u >= 128 {
      SeptetsCount(u / 128, n - 1);
    }
  }

  /** Every int32 survives, in 1 to 5 bytes, whatever follows it. */
  lemma VarIntRoundTrip(v: int32, s: seq<byte>)
    ensures TakeVarInt(VarInt(v) + s) == Done(v, s)
    ensures 1 <= |VarInt(v)| <= MAX_VARINT_BYTES
  {
    var u := Unsigned(v, TWO_32);
    Weights();
    SeptetsRoundTrip(u, 0, 0, s);
    assert Weight(5) == 128 * Weight(4);
    SeptetsCount(u, 5);
  }

  /** A VarInt is read exactly when one of the first five bytes ends it; the
      bytes after that one are left. */
  lemma {:induction false} SeptetsAccepted(b: seq<byte>, i: nat, value: uint32)
    requires i <= MAX_VARINT_BYTES
    ensures TakeSeptets(b, i, value).Done? <==> exists k | 0 <= k < |b| && i + k < MAX_VARINT_BYTES :: b[k] < 128
    ensures TakeSeptets(b, i, value).Done? ==>
              exists k :: EndsAt(b, k) && i + k < MAX_VARINT_BYTES && TakeSeptets(b, i, value).rest == b[k + 1..]
    decreases MAX_VARINT_BYTES - i
  {
    hide WithGroup, Signed;
    if i < MAX_VARINT_BYTES && |b| > 0 && b[0] >= 128 {
      SeptetsAccepted(b[1..], i + 1, WithGroup(value, b[0], i));
      if k :| 0 <= k < |b| && i + k < MAX_VARINT_BYTES && b[k] < 128 {
        assert b[1..][k - 1] == b[k];
      }
      if TakeSeptets(b, i, value).Done? {
        var k :| EndsAt(b[1..], k) && i + 1 + k < MAX_VARINT_BYTES && TakeSeptets(b, i, value).rest == b[1..][k + 1..];
        EndsLater(b, k);
      }
    } else if i < MAX_VARINT_BYTES && |b| > 0 {
      assert EndsAt(b, 0);
    }
  }

  /** The byte at `k` is the first without the continuation bit. */
  predicate EndsAt(b: seq<byte>, k: int) {
    0 <= k < |b| && b[k] < 128 && forall j | 0 <= j < k :: b[j] >= 128
  }

  lemma EndsLater(b: seq<byte>, k: nat)
    requires |b| > 0 && b[0] >= 128 && EndsAt(b[1..], k)
    ensures EndsAt(b, k + 1) && b[1..][k + 1..] == b[k + 2..]
  {
    forall j | 0 <= j < k + 1 ensures b[j] >= 128 {
      assert j > 0 ==> b[j] == b[1..][j - 1];
    }
  }

  /** A number below the weight of group n has at most n groups; no accepted
      form is shorter than the one that is written. */
  lemma {:induction false} SeptetsAreShortest(b: seq<byte>, i: nat, value: uint32)
    requires i <= MAX_VARINT_BYTES && value < Weight(i) && TakeSeptets(b, i, value).Done?
    ensures var p := TakeSeptets(b, i, value);
      Unsigned(p.value, TWO_32) < Weight(i + (|b| - |p.rest|))
    decreases MAX_VARINT_BYTES - i
  {
    hide Weight, WithGroup;
    SeptetFits(b[0], i, value);
    if b[0] >= 128 {
      SeptetsAreShortest(b[1..], i + 1, WithGroup(value, b[0], i));
    }
  }

  lemma SeptetFits(b: byte, i: nat, value: uint32)
    requires i < MAX_VARINT_BYTES && value < Weight(i)
    ensures WithGroup(value, b, i) < Weight(i + 1)
  {
    Weights();
    assert Weight(5) == 128 * Weight(4);
    assert 0 <= value as int + b as int % 128 * Weight(i) < Weight(i + 1);
  }

  lemma VarIntIsShortest(b: seq<byte>)
    requires TakeVarInt(b).Done?
    ensures |VarInt(TakeVarInt(b).value)| <= |b| - |TakeVarInt(b).rest|
  {
    var p := TakeVarInt(b);
    SeptetsAreShortest(b, 0, 0);
    SeptetsCount(Unsigned(p.value, TWO_32), |b| - |p.rest|);
  }

  // ----- strings -----

  /** AppendString; the length is cut to 32 bits. */
  function Text(s: seq<byte>): seq<byte> {
    VarInt(Signed(|s| % TWO_32, TWO_32)) + s
  }

  /** ReadString */
  function TakeText(b: seq<byte>, max: int): (p: Parse<seq<byte>>)
    ensures p.Done? ==> |p.rest| < |b| && |p.value| <= max
  {
    var n := TakeVarInt(b);
    if n.Fail? || n.value < 0 || n.value > max then Fail
    else Take(n.rest, n.value)
  }

  /** A string is read back exactly when it is no longer than the reader allows. */
  lemma TextRoundTrip(s: seq<byte>, max: int, t: seq<byte>)
    requires max <= MAX_INT32
    ensures TakeText(Text(s) + t, max) == Done(s, t) <==> |s| <= max
    ensures max < |s| <= MAX_INT32 ==> TakeText(Text(s) + t, max).Fail?
  {
    hide TakeVarInt, VarInt;
    var n := Signed(|s| % TWO_32, TWO_32);
    VarIntRoundTrip(n, s + t);
    assert Text(s) + t == VarInt(n) + (s + t);
    if |s| <= max {
      assert (s + t)[..|s|] == s && (s + t)[|s|..] == t;
    }
  }

  /** A string whose length does not fit an int32 is cut short by the reader, by
      a multiple of 2^32 bytes, or refused. */
  lemma OversizedText(s: seq<byte>, max: int, t: seq<byte>)
    requires |s| > MAX_INT32 && max <= MAX_INT32
    ensures var p := TakeText(Text(s) + t, max);
      p.Done? ==> |p.value| + TWO_32 <= |s| && p.value == s[..|p.value|] && p.rest == s[|p.value|..] + t
  {
    hide TakeVarInt, VarInt;
    var n := Signed(|s| % TWO_32, TWO_32);
    VarIntRoundTrip(n, s + t);
    assert Text(s) + t == VarInt(n) + (s + t);
    if 0 <= n <= max {
      assert n + TWO_32 <= |s|;
      assert (s + t)[..n] == s[..n] && (s + t)[n..] == s[n..] + t;
    }
  }

  // ----- packets -----

  /** WritePacket's bytes, for a packet that it accepts. */
  function Packet(id: int32, payload: seq<byte>): seq<byte> {
    var body := VarInt(id) + payload;
    VarInt(Signed(|body| % TWO_32, TWO_32)) + body
  }

  predicate PacketFits(id: int32, payload: seq<byte>, max: int) {
    0 < |VarInt(id)| + |payload| <= max
  }

  /** ReadPacket: a frame of 1 to `max` bytes that begins with the packet's id. */
  function TakePacket(b: seq<byte>, max: int): (p: Parse<(int32, seq<byte>)>)
  {
    var n := TakeVarInt(b);
    if n.Fail? || n.value <= 0 || n.value > max then Fail
    else
      var raw := Take(n.rest, n.value);
      if raw.Fail? then Fail
      else
        var id := TakeVarInt(raw.value);
        if id.Fail? then Fail else Done((id.value, id.rest), raw.rest)
  }

  /** A packet that the writer accepts is read back by a reader with the same
      bound, up to and not beyond its end. */
  lemma PacketRoundTrip(id: int32, payload: seq<byte>, max: int, s: seq<byte>)
    requires PacketFits(id, payload, max) && max <= MAX_INT32
    ensures TakePacket(Packet(id, payload) + s, max) == Done((id, payload), s)
  {
    hide TakeVarInt, VarInt;
    var body := VarInt(id) + payload;
    VarIntRoundTrip(|body|, body + s);
    assert Packet(id, payload) + s == VarInt(|body|) + (body + s);
    assert (body + s)[..|body|] == body && (body + s)[|body|..] == s;
    VarIntRoundTrip(id, payload);
  }

  /** Two packets are never confused, however they are followed. */
  lemma PacketsArePrefixFree(id: int32, payload: seq<byte>, id': int32, payload': seq<byte>, max: int, s: seq<byte>, t: seq<byte>)
    requires PacketFits(id, payload, max) && PacketFits(id', payload', max) && max <= MAX_INT32
    requires Packet(id, payload) + s == Packet(id', payload') + t
    ensures id == id' && payload == payload' && s == t
  {
    hide TakePacket, Packet, PacketFits;
    PacketRoundTrip(id, payload, max, s);
    PacketRoundTrip(id', payload', max, t);
  }

  // ----- the loops -----

  method AppendVarInt(dst: seq<byte>, value: int32) returns (r: seq<byte>)
    ensures r == dst + VarInt(value)
  {
    var u: nat := Unsigned(value, TWO_32);
    r := dst;
    while true
      invariant r + Septets(u) == dst + VarInt(value)
      decreases u
    {
      var b: int := u % 128;
      var rest := u / 128;
      if rest != 0 {
        b := b + 128;
      }
      assert r + Septets(u) == r + [b] + if rest == 0 then [] else Septets(rest);
      r := r + [b];
      u := rest;
      if rest == 0 {
        return;
      }
    }
  }

  method ReadVarInt(r: Reader) returns (p: Parse<int32>)
    requires r.Valid()
    modifies r
    ensures r.Valid()
    ensures p == TakeVarInt(old(r.Remaining()))
    ensures p.Done? ==> r.Remaining() == p.rest
  {
    hide Weight, WithGroup;
    var value: uint32 := 0;
    var weight: nat := 1;
    Weights();
    for i := 0 to MAX_VARINT_BYTES
      invariant r.Valid() && weight == Weight(i)
      invariant TakeSeptets(r.Remaining(), i, value) == TakeVarInt(old(r.Remaining()))
    {
      hide Weight, WithGroup, Signed;
      var b := r.ReadByte();
      if b.Fail? {
        return Fail;
      }
      WithGroupIs(value, b.value, i);
      NextWeight(i);
      value := (value as int + b.value as int % 128 * weight) % TWO_32;
      weight := 128 * weight;
      if b.value < 128 {
        return Done(Signed(value, TWO_32), b.rest);
      }
    }
    return Fail;
  }

  method AppendString(dst: seq<byte>, value: seq<byte>) returns (r: seq<byte>)
    ensures r == dst + Text(value)
  {
    r := AppendVarInt(dst, Signed(|value| % TWO_32, TWO_32));
    r := r + value;
  }

  method ReadString(r: Reader, max: int) returns (p: Parse<seq<byte>>)
    requires r.Valid()
    modifies r
    ensures r.Valid()
    ensures p == TakeText(old(r.Remaining()), max)
    ensures p.Done? ==> r.Remaining() == p.rest
  {
    hide TakeVarInt;
    var length := ReadVarInt(r);
    if length.Fail? || length.value < 0 || length.value > max {
      return Fail;
    }
    p := r.ReadFull(length.value);
  }

  method ReadPacket(r: Reader, max: int) returns (p: Parse<(int32, seq<byte>)>)
    requires r.Valid()
    modifies r
    ensures r.Valid()
    ensures p == TakePacket(old(r.Remaining()), max)
    ensures p.Done? ==> r.Remaining() == p.rest
  {
    hide TakeVarInt;
    var length := ReadVarInt(r);
    if length.Fail? || length.value <= 0 || length.value > max {
      return Fail;
    }
    var raw := r.ReadFull(length.value);
    if raw.Fail? {
      return Fail;
    }
    var buf := new Reader(raw.value);
    var id := ReadVarInt(buf);
    if id.Fail? {
      return Fail;
    }
    return Done((id.value, raw.value[|raw.value| - |buf.Remaining()|..]), raw.rest);
  }

  /** WritePacket. A packet that is too long is refused before anything is
      written; an accepted one is written whole unless the writer fails. */
  method WritePacket(w: Writer, id: int32, payload: seq<byte>, max: int) returns (ok: bool)
    modifies w
    ensures ok ==> PacketFits(id, payload, max)
    ensures !PacketFits(id, payload, max) ==> !ok && w.sink == old(w.sink) && w.plan == old(w.plan)
    ensures ok ==> w.sink == old(w.sink) + Packet(id, payload)
    ensures old(w.plan) == [] && PacketFits(id, payload, max) ==> ok
  {
    hide VarInt;
    var head := AppendVarInt([], id);
    var total := |head| + |payload|;
    if total <= 0 || total > max {
      return false;
    }
    var header := AppendVarInt([], Signed(total % TWO_32, TWO_32));
    header := header + head;
    ok := w.WriteAll(header);
    if ok {
      ok := w.WriteAll(payload);
      assert old(w.sink) + header + payload == old(w.sink) + Packet(id, payload);
    }
  }
}
