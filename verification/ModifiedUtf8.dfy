/** Strings as Java Edition NBT writes them. */
module ModifiedUtf8 {
  import opened Collections
  import opened Streams

  // A string is a 16-bit length and the "Modified UTF-8" form (Java SE,
  // java.io.DataInput) of the string's UTF-16 code units. Masks and shifts are
  // written as arithmetic; MaskForms shows the two agree.

  /** A Go string as what ranging over it yields: its code points, where an
      element that is not a Unicode scalar value stands for bytes that are not
      valid UTF-8. */
  type GoString = seq<int>

  const MAX_BYTES := 65535

  predicate IsScalar(c: int) {
    0 <= c < 0xd800 || 0xe000 <= c < 0x11_0000
  }

  predicate IsHigh(u: uint16) {
    0xd800 <= u <= 0xdbff
  }

  predicate IsLow(u: uint16) {
    0xdc00 <= u <= 0xdfff
  }

  /** utf8.ValidString */
  predicate ValidString(s: GoString) {
    forall i | 0 <= i < |s| :: IsScalar(s[i])
  }

  /** The UTF-16 form of one scalar value (RFC 2781, section 2.1). */
  function UnitsOf(c: int): (u: seq<uint16>)
    requires IsScalar(c)
    ensures 1 <= |u| <= 2
  {
    if c < 0x1_0000 then [c]
    else [0xd800 + (c - 0x1_0000) / 0x400, 0xdc00 + (c - 0x1_0000) % 0x400]
  }

  /** utf16.Encode of a valid string. */
  function Units(s: GoString): seq<uint16>
    requires ValidString(s)
  {
    if |s| == 0 then [] else UnitsOf(s[0]) + Units(s[1..])
  }

  /** utf16.Decode (RFC 2781, section 2.2); an unpaired surrogate becomes U+FFFD. */
  function Codes(u: seq<uint16>): GoString
  {
    if |u| == 0 then []
    else if IsHigh(u[0]) && |u| > 1 && IsLow(u[1]) then
      [0x1_0000 + (u[0] as int - 0xd800) * 0x400 + (u[1] as int - 0xdc00)] + Codes(u[2..])
    else if IsHigh(u[0]) || IsLow(u[0]) then [0xfffd] + Codes(u[1..])
    else [u[0]] + Codes(u[1..])
  }

  /** Every surrogate is part of a high/low pair. */
  predicate Paired(u: seq<uint16>)
  {
    if |u| == 0 then true
    else if IsHigh(u[0]) then |u| > 1 && IsLow(u[1]) && Paired(u[2..])
    else !IsLow(u[0]) && Paired(u[1..])
  }

  /** The bytes of one code unit. */
  function UnitBytes(u: uint16): (b: seq<byte>)
    ensures 1 <= |b| <= 3
  {
    if 0x01 <= u <= 0x7f then [u]
    else if u <= 0x7ff then [0xc0 + u / 0x40, 0x80 + u % 0x40]
    else [0xe0 + u / 0x1000, 0x80 + (u / 0x40) % 0x40, 0x80 + u % 0x40]
  }

  function Bytes(u: seq<uint16>): seq<byte>
  {
    if |u| == 0 then [] else UnitBytes(u[0]) + Bytes(u[1..])
  }

  predicate IsContinuation(b: byte) {
    0x80 <= b < 0xc0
  }

  /** One code unit from the front of a byte string. Overlong forms are accepted. */
  function TakeUnit(b: seq<byte>): (p: Parse<uint16>)
    ensures p.Done? ==> |p.rest| < |b|
  {
    if |b| == 0 then Fail
    else if 0x01 <= b[0] <= 0x7f then Done(b[0], b[1..])
    else if 0xc0 <= b[0] < 0xe0 then
      if |b| < 2 || !IsContinuation(b[1]) then Fail
      else Done((b[0] as int - 0xc0) * 0x40 + (b[1] as int - 0x80), b[2..])
    else if 0xe0 <= b[0] < 0xf0 then
      if |b| < 3 || !IsContinuation(b[1]) || !IsContinuation(b[2]) then Fail
      else Done((b[0] as int - 0xe0) * 0x1000 + (b[1] as int - 0x80) * 0x40 + (b[2] as int - 0x80), b[3..])
    else Fail
  }

  function DecodeUnits(b: seq<byte>): Option<seq<uint16>>
    decreases |b|
  {
    if |b| == 0 then Some([])
    else
      match TakeUnit(b)
      case Fail => None
      case Done(u, rest) =>
        match DecodeUnits(rest)
        case None => None
        case Some(us) => Some([u] + us)
  }

  /** The strings that writeModifiedUTF8 accepts. */
  predicate StringOk(s: GoString) {
    ValidString(s) && |Bytes(Units(s))| <= MAX_BYTES
  }

  function StringBytes(s: GoString): seq<byte>
    requires StringOk(s)
  {
    Put16(|Bytes(Units(s))|) + Bytes(Units(s))
  }

  function TakeString(b: seq<byte>): (p: Parse<GoString>)
    ensures p.Done? ==> |p.rest| <= |b|
  {
    match Take16(b)
    case Fail => Fail
    case Done(n, rest) =>
      match Take(rest, n)
      case Fail => Fail
      case Done(encoded, rest') =>
        match DecodeUnits(encoded)
        case None => Fail
        case Some(u) => if Paired(u) then Done(Codes(u), rest') else Fail
  }

  /** The masks and shifts of the two source files, as the arithmetic used here. */
  lemma MaskForms(b: bv8, u: bv16)
    ensures (b & 0xe0 == 0xc0) <==> 0xc0 <= b < 0xe0
    ensures (b & 0xf0 == 0xe0) <==> 0xe0 <= b < 0xf0
    ensures (b & 0xc0 == 0x80) <==> 0x80 <= b < 0xc0
    ensures 0xc0 <= b < 0xe0 ==> b & 0x1f == b - 0xc0
    ensures 0xe0 <= b < 0xf0 ==> b & 0x0f == b - 0xe0
    ensures 0x80 <= b < 0xc0 ==> b & 0x3f == b - 0x80
    ensures u <= 0x7ff ==> 0xc0 | (u >> 6) == 0xc0 + u / 0x40
    ensures 0xe0 | (u >> 12) == 0xe0 + u / 0x1000
    ensures 0x80 | ((u >> 6) & 0x3f) == 0x80 + (u / 0x40) % 0x40
    ensures 0x80 | (u & 0x3f) == 0x80 + u % 0x40
  {
  }

  // ----- UTF-16 -----

  lemma {:induction false} UnitsThenCodes(s: GoString)
    requires ValidString(s)
    ensures Paired(Units(s)) && Codes(Units(s)) == s
  {
    if |s| > 0 {
      UnitsThenCodes(s[1..]);
      var u, us := UnitsOf(s[0]), Units(s[1..]);
      assert (u + us)[|u|..] == us;
      assert s == [s[0]] + s[1..];
    }
  }

  lemma {:induction false} CodesThenUnits(u: seq<uint16>)
    requires Paired(u)
    ensures ValidString(Codes(u)) && Units(Codes(u)) == u
  {
    if |u| > 0 {
      var n := if IsHigh(u[0]) then 2 else 1;
      CodesThenUnits(u[n..]);
      var c := Codes(u)[0];
      assert Codes(u) == [c] + Codes(u[n..]);
      assert Codes(u)[1..] == Codes(u[n..]);
      assert UnitsOf(c) == u[..n];
      assert u == u[..n] + u[n..];
    }
  }

  // ----- code units to bytes and back -----

  lemma TakeUnitBytes(u: uint16, s: seq<byte>)
    ensures TakeUnit(UnitBytes(u) + s) == Done(u, s)
  {
    var b := UnitBytes(u) + s;
    assert b[|UnitBytes(u)|..] == s;
    assert u == (u / 0x1000) * 0x1000 + ((u / 0x40) % 0x40) * 0x40 + u % 0x40;
  }

  lemma {:induction false} DecodeOfBytes(u: seq<uint16>)
    ensures DecodeUnits(Bytes(u)) == Some(u)
  {
    if |u| > 0 {
      TakeUnitBytes(u[0], Bytes(u[1..]));
      DecodeOfBytes(u[1..]);
      assert u == [u[0]] + u[1..];
    }
  }

  /** Whatever form a unit was read from, its canonical form is no longer, and
      it has the same length only when that form was the canonical one. */
  lemma TakeUnitCanonical(b: seq<byte>)
    requires TakeUnit(b).Done?
    ensures var p := TakeUnit(b);
            var n := |b| - |p.rest|;
            && p.rest == b[n..]
            && |UnitBytes(p.value)| <= n
            && (|UnitBytes(p.value)| == n <==> UnitBytes(p.value) == b[..n])
  {
    var p := TakeUnit(b);
    var n := |b| - |p.rest|;
    var u := p.value;
    if n == 2 {
      assert u / 0x40 == b[0] - 0xc0 && u % 0x40 == b[1] - 0x80;
    } else if n == 3 {
      assert u / 0x1000 == b[0] - 0xe0;
      assert (u / 0x40) % 0x40 == b[1] - 0x80;
      assert u % 0x40 == b[2] - 0x80;
    }
  }

  /** The re-encoding of an accepted string is never longer than the bytes it
      came from, and is as long only when it is the same bytes. */
  lemma {:induction false} BytesOfDecode(b: seq<byte>)
    requires DecodeUnits(b).Some?
    ensures var c := Bytes(DecodeUnits(b).value);
            |c| <= |b| && (|c| == |b| <==> c == b)
    decreases |b|
  {
    if |b| > 0 {
      TakeUnitCanonical(b);
      var p := TakeUnit(b);
      var n := |b| - |p.rest|;
      BytesOfDecode(p.rest);
      var us := DecodeUnits(p.rest).value;
      assert ([p.value] + us)[1..] == us;
      assert b == b[..n] + p.rest;
    }
  }

  lemma {:induction false} BytesOfConcat(u: seq<uint16>, v: seq<uint16>)
    ensures Bytes(u + v) == Bytes(u) + Bytes(v)
  {
    if |u| == 0 {
      assert u + v == v;
    } else {
      assert (u + v)[0] == u[0];
      assert (u + v)[1..] == u[1..] + v;
      BytesOfConcat(u[1..], v);
      assert UnitBytes(u[0]) + (Bytes(u[1..]) + Bytes(v)) == (UnitBytes(u[0]) + Bytes(u[1..])) + Bytes(v);
    }
  }

  // ----- whole strings -----

  /** Reading what was written gives the string back, whatever follows it. */
  lemma StringRoundTrip(s: GoString, suffix: seq<byte>)
    requires StringOk(s)
    ensures TakeString(StringBytes(s) + suffix) == Done(s, suffix)
  {
    var u := Units(s);
    var body := Bytes(u);
    assert StringBytes(s) + suffix == Put16(|body|) + (body + suffix);
    TakePut16(|body|, body + suffix);
    assert (body + suffix)[..|body|] == body && (body + suffix)[|body|..] == suffix;
    DecodeOfBytes(u);
    UnitsThenCodes(s);
  }

  /** Every string that can be read can be written, in no more bytes; in as
      many bytes only when the bytes read were the canonical ones. */
  lemma ReadableIsWritable(b: seq<byte>)
    requires TakeString(b).Done?
    ensures var p := TakeString(b);
            var n := |b| - |p.rest|;
            && 2 <= n <= |b|
            && p.rest == b[n..]
            && StringOk(p.value)
            && |StringBytes(p.value)| <= n
            && (|StringBytes(p.value)| == n <==> StringBytes(p.value) == b[..n])
  {
    var length := Take16(b).value;
    var encoded := b[2..][..length];
    var u := DecodeUnits(encoded).value;
    var p := TakeString(b);
    var n := 2 + length as int;
    assert p.rest == b[n..];
    BytesOfDecode(encoded);
    CodesThenUnits(u);
    assert |StringBytes(p.value)| == 2 + |Bytes(u)|;
    SplitAtTwo(b, n);
    if |Bytes(u)| == length {
      assert Bytes(u) == encoded && StringBytes(p.value) == b[..n];
    }
  }

  lemma SplitAtTwo(b: seq<byte>, n: nat)
    requires 2 <= n <= |b|
    ensures b[..n] == Put16(Get16(b[..2])) + b[2..][..n - 2]
  {
    assert Put16(Get16(b[..2])) == b[..2];
  }

  // ----- the loops of the two source files -----

  /** writeModifiedUTF8 */
  lemma NoUnits(units: seq<uint16>)
    ensures Bytes(units[..0]) == [] && units[..|units|] == units
  {
  }

  lemma NextUnit(units: seq<uint16>, i: nat)
    requires i < |units|
    ensures Bytes(units[..i + 1]) == Bytes(units[..i]) + UnitBytes(units[i])
    ensures |Bytes(units[..i + 1])| <= |Bytes(units)|
  {
    hide UnitBytes;
    assert units == units[..i + 1] + units[i + 1..];
    assert units[..i + 1] == units[..i] + [units[i]];
    BytesOfConcat(units[..i], [units[i]]);
    hide Bytes;
    BytesOfConcat(units[..i + 1], units[i + 1..]);
  }

  /** The branches of the loop over units. */
  method AppendUnit(encoded: seq<byte>, unit: uint16) returns (r: seq<byte>)
    ensures r == encoded + UnitBytes(unit)
  {
    if 0x0001 <= unit <= 0x007f {
      r := encoded + [unit];
    } else if unit <= 0x07ff {
      r := encoded + [0xc0 + unit / 0x40, 0x80 + unit % 0x40];
    } else {
      r := encoded + [0xe0 + unit / 0x1000, 0x80 + (unit / 0x40) % 0x40, 0x80 + unit % 0x40];
    }
  }

  method WriteModifiedUTF8(w: Writer, value: GoString) returns (ok: bool)
    modifies w
    ensures ok ==> StringOk(value) && w.sink == old(w.sink) + StringBytes(value)
    ensures !StringOk(value) ==> !ok && w.sink == old(w.sink)
    ensures StringOk(value) && old(w.plan) == [] ==> ok
    ensures old(w.sink) <= w.sink
    ensures old(w.plan) == [] ==> w.plan == []
  {
    if !ValidString(value) {
      return false;
    }
    hide ValidString, Units, Bytes;
    var units := Units(value);
    var encoded: seq<byte> := [];
    NoUnits(units);
    for i := 0 to |units|
      invariant encoded == Bytes(units[..i])
      invariant |encoded| <= MAX_BYTES
      invariant w.sink == old(w.sink) && w.plan == old(w.plan)
    {
      hide ValidString, Units, Bytes, UnitBytes;
      var unit := units[i];
      NextUnit(units, i);
      encoded := AppendUnit(encoded, unit);
      if |encoded| > MAX_BYTES {
        return false;
      }
    }
    ok := WriteCounted(w, encoded);
  }

  /** The length prefix and the encoded string. */
  method WriteCounted(w: Writer, encoded: seq<byte>) returns (ok: bool)
    requires |encoded| <= MAX_BYTES
    modifies w
    ensures ok ==> w.sink == old(w.sink) + (Put16(|encoded|) + encoded)
    ensures old(w.plan) == [] ==> ok && w.plan == []
    ensures old(w.sink) <= w.sink
  {
    var length: seq<byte> := [|encoded| / 0x100, |encoded| % 0x100];
    ok := w.WriteAll(length);
    if !ok {
      return;
    }
    ok := w.WriteAll(encoded);
  }

  function Prepend(us: seq<uint16>, o: Option<seq<uint16>>): Option<seq<uint16>> {
    match o
    case None => None
    case Some(vs) => Some(us + vs)
  }

  lemma PrependNothing(o: Option<seq<uint16>>)
    ensures Prepend([], o) == o
  {
    assert o.Some? ==> [] + o.value == o.value;
  }

  lemma PrependUnit(us: seq<uint16>, u: uint16, o: Option<seq<uint16>>)
    ensures Prepend(us, Prepend([u], o)) == Prepend(us + [u], o)
  {
    assert o.Some? ==> us + ([u] + o.value) == us + [u] + o.value;
  }

  /** The first loop of readModifiedUTF8: bytes to code units. */
  method ReadUnits(encoded: seq<byte>) returns (r: Option<seq<uint16>>)
    ensures r == DecodeUnits(encoded)
  {
    var units: seq<uint16> := [];
    var i := 0;
    assert encoded[0..] == encoded;
    PrependNothing(DecodeUnits(encoded));
    while i < |encoded|
      invariant 0 <= i <= |encoded|
      invariant DecodeUnits(encoded) == Prepend(units, DecodeUnits(encoded[i..]))
    {
      var first := encoded[i];
      ghost var tail := encoded[i..];
      ghost var taken := TakeUnit(tail);
      ghost var before := units;
      if 0x01 <= first <= 0x7f {
        units := units + [first];
        i := i + 1;
      } else if 0xc0 <= first < 0xe0 {
        if i + 1 >= |encoded| || !IsContinuation(encoded[i + 1]) {
          return None;
        }
        units := units + [(first as int - 0xc0) * 0x40 + (encoded[i + 1] as int - 0x80)];
        i := i + 2;
      } else if 0xe0 <= first < 0xf0 {
        if i + 2 >= |encoded| || !IsContinuation(encoded[i + 1]) || !IsContinuation(encoded[i + 2]) {
          return None;
        }
        units := units + [(first as int - 0xe0) * 0x1000 + (encoded[i + 1] as int - 0x80) * 0x40 + (encoded[i + 2] as int - 0x80)];
        i := i + 3;
      } else {
        return None;
      }
      assert taken.Done? && taken.rest == encoded[i..] && units == before + [taken.value];
      PrependUnit(before, taken.value, DecodeUnits(taken.rest));
    }
    assert encoded[i..] == [];
    assert units + [] == units;
    return Some(units);
  }

  /** The second loop of readModifiedUTF8: the surrogate check. */
  method CheckPairs(units: seq<uint16>) returns (ok: bool)
    ensures ok == Paired(units)
  {
    var i := 0;
    while i < |units|
      invariant 0 <= i <= |units|
      invariant Paired(units) == Paired(units[i..])
    {
      var unit := units[i];
      ghost var tail := units[i..];
      assert tail[1..] == units[i + 1..];
      if IsHigh(unit) {
        if i + 1 >= |units| || units[i + 1] < 0xdc00 || units[i + 1] > 0xdfff {
          return false;
        }
        assert tail[2..] == units[i + 2..];
        i := i + 2;
        continue;
      }
      if IsLow(unit) {
        return false;
      }
      i := i + 1;
    }
    assert units[i..] == [];
    return true;
  }

  /** readModifiedUTF8 */
  method ReadModifiedUTF8(r: Reader) returns (p: Parse<GoString>)
    requires r.Valid()
    modifies r
    ensures r.Valid()
    ensures p == TakeString(old(r.Remaining()))
    ensures p.Done? ==> r.Remaining() == p.rest
  {
    var length := r.ReadUint16();
    if length.Fail? {
      return Fail;
    }
    var encoded := r.ReadFull(length.value);
    if encoded.Fail? {
      return Fail;
    }
    var units := ReadUnits(encoded.value);
    if units.None? {
      return Fail;
    }
    var paired := CheckPairs(units.value);
    if !paired {
      return Fail;
    }
    return Done(Codes(units.value), encoded.rest);
  }
}
