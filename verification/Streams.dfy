/** Fixed-width integers, big-endian fields, and the io.Reader / io.Writer that
    the codecs of the server read from and write to. */
module Streams {

  type byte = x: int | 0 <= x < 0x100
  type uint16 = x: int | 0 <= x < 0x1_0000
  type uint32 = x: int | 0 <= x < 0x1_0000_0000
  type uint64 = x: int | 0 <= x < 0x1_0000_0000_0000_0000
  type int8 = x: int | -0x80 <= x < 0x80
  type int16 = x: int | -0x8000 <= x < 0x8000
  type int32 = x: int | -0x8000_0000 <= x < 0x8000_0000
  type int64 = x: int | -0x8000_0000_0000_0000 <= x < 0x8000_0000_0000_0000

  const MAX_INT32 := 0x7fff_ffff
  const TWO_8: nat := 0x100
  const TWO_16: nat := 0x1_0000
  const TWO_32: nat := 0x1_0000_0000
  const TWO_64: nat := 0x1_0000_0000_0000_0000

  /** The result of a parser: the value read and the bytes left over. */
  datatype Parse<+T> = Fail | Done(value: T, rest: seq<byte>)

  /** Two's complement: an integer of n bits seen as unsigned, with modulus 2^n. */
  function Unsigned(x: int, modulus: nat): (u: int)
    requires modulus > 0
    requires -(modulus as int) <= x < modulus
    ensures 0 <= u < modulus
  {
    if x < 0 then x + modulus else x
  }

  /** Two's complement: an unsigned integer of n bits seen as signed, with modulus 2^n. */
  function Signed(u: int, modulus: nat): (x: int)
    requires 0 <= u < modulus
    requires modulus % 2 == 0
    ensures -(modulus as int / 2) <= x < modulus / 2
  {
    if u < modulus / 2 then u else u - modulus
  }

  function Put16(x: uint16): (b: seq<byte>)
    ensures |b| == 2
  {
    [x / 256, x % 256]
  }

  function Put32(x: uint32): (b: seq<byte>)
    ensures |b| == 4
  {
    Put16(x / TWO_16) + Put16(x % TWO_16)
  }

  function Put64(x: uint64): (b: seq<byte>)
    ensures |b| == 8
  {
    Put32(x / TWO_32) + Put32(x % TWO_32)
  }

  function Get16(b: seq<byte>): uint16
    requires |b| == 2
  {
    b[0] as int * 256 + b[1]
  }

  function Get32(b: seq<byte>): uint32
    requires |b| == 4
  {
    Get16(b[..2]) as int * TWO_16 + Get16(b[2..])
  }

  function Get64(b: seq<byte>): uint64
    requires |b| == 8
  {
    Get32(b[..4]) as int * TWO_32 + Get32(b[4..])
  }

  /** io.ReadFull of n bytes. */
  function Take(b: seq<byte>, n: nat): (p: Parse<seq<byte>>)
  {
    if n <= |b| then Done(b[..n], b[n..]) else Fail
  }

  function Take8(b: seq<byte>): (p: Parse<byte>)
  {
    if |b| == 0 then Fail else Done(b[0], b[1..])
  }

  function Take16(b: seq<byte>): (p: Parse<uint16>)
  {
    if |b| < 2 then Fail else Done(Get16(b[..2]), b[2..])
  }

  function Take32(b: seq<byte>): (p: Parse<uint32>)
  {
    if |b| < 4 then Fail else Done(Get32(b[..4]), b[4..])
  }

  function Take64(b: seq<byte>): (p: Parse<uint64>)
  {
    if |b| < 8 then Fail else Done(Get64(b[..8]), b[8..])
  }

  lemma TakePut16(x: uint16, s: seq<byte>)
    ensures Take16(Put16(x) + s) == Done(x, s)
  {
    var b := Put16(x) + s;
    assert b[..2] == Put16(x) && b[2..] == s;
  }

  lemma TakePut32(x: uint32, s: seq<byte>)
    ensures Take32(Put32(x) + s) == Done(x, s)
  {
    var b := Put32(x) + s;
    assert b[..4] == Put32(x) && b[4..] == s;
    assert Put32(x)[..2] == Put16(x / TWO_16) && Put32(x)[2..] == Put16(x % TWO_16);
  }

  lemma TakePut64(x: uint64, s: seq<byte>)
    ensures Take64(Put64(x) + s) == Done(x, s)
  {
    var hi, lo := Put32(x / TWO_32), Put32(x % TWO_32);
    var b := Put64(x) + s;
    assert b[..8] == Put64(x) && b[8..] == s;
    assert Put64(x)[..4] == hi && Put64(x)[4..] == lo;
    TakePut32(x / TWO_32, []);
    TakePut32(x % TWO_32, []);
    assert (hi + [])[..4] == hi && (lo + [])[..4] == lo;
  }

  /** What one call of an io.Writer's Write does: it takes at most `limit`
      bytes and may report an error. */
  datatype WriteOutcome = WriteOutcome(limit: nat, err: bool)

  /** An io.Writer. `plan` says how the next calls of Write behave; a writer
      whose plan is used up, such as a bytes.Buffer, takes everything. */
  class Writer {
    var sink: seq<byte>
    var plan: seq<WriteOutcome>

    constructor (plan: seq<WriteOutcome>)
      ensures sink == [] && this.plan == plan
    {
      sink, this.plan := [], plan;
    }

    method Write(data: seq<byte>) returns (n: nat, ok: bool)
      modifies this
      ensures n <= |data|
      ensures sink == old(sink) + data[..n]
      ensures old(plan) == [] ==> ok && n == |data| && plan == []
      ensures old(plan) != [] ==>
                && plan == old(plan)[1..]
                && ok == !old(plan)[0].err
                && n == (if old(plan)[0].limit < |data| then old(plan)[0].limit else |data|)
    {
      if plan == [] {
        n, ok := |data|, true;
      } else {
        n := if plan[0].limit < |data| then plan[0].limit else |data|;
        ok := !plan[0].err;
        plan := plan[1..];
      }
      sink := sink + data[..n];
    }

    /** Repeats Write until all of `data` is taken, an error is reported, or a
        call makes no progress. */
    method WriteAll(data: seq<byte>) returns (ok: bool)
      modifies this
      ensures old(plan) == [] ==> ok && plan == []
      ensures ok ==> sink == old(sink) + data
      ensures old(sink) <= sink <= old(sink) + data
    {
      var left := data;
      while |left| > 0
        invariant |left| <= |data| && left == data[|data| - |left|..]
        invariant sink == old(sink) + data[..|data| - |left|]
        invariant old(plan) == [] ==> plan == []
      {
        var n, good := Write(left);
        ghost var at := |data| - |left|;
        assert data[..at] + left[..n] == data[..at + n];
        left := left[n..];
        if !good {
          return false;
        }
        if n == 0 {
          return false;
        }
      }
      return true;
    }
  }

  /** An io.Reader over a byte slice with a cursor, such as a bytes.Reader. */
  class Reader {
    const data: seq<byte>
    var pos: nat

    ghost predicate Valid()
      reads this
    {
      pos <= |data|
    }

    function Remaining(): (b: seq<byte>)
      requires Valid()
      reads this
    {
      data[pos..]
    }

    constructor (data: seq<byte>)
      ensures Valid() && Remaining() == data
    {
      this.data, pos := data, 0;
    }

    method ReadFull(n: nat) returns (p: Parse<seq<byte>>)
      requires Valid()
      modifies this
      ensures Valid()
      ensures p == Take(old(Remaining()), n)
      ensures p.Done? ==> Remaining() == p.rest
    {
      assert n <= |data| - pos ==> data[pos..][..n] == data[pos..pos + n] && data[pos..][n..] == data[pos + n..];
      if n <= |data| - pos {
        p := Done(data[pos..pos + n], data[pos + n..]);
        pos := pos + n;
      } else {
        p := Fail;
        pos := |data|;
      }
    }

    method ReadByte() returns (p: Parse<byte>)
      requires Valid()
      modifies this
      ensures Valid()
      ensures p == Take8(old(Remaining()))
      ensures p.Done? ==> Remaining() == p.rest
    {
      var q := ReadFull(1);
      p := if q.Done? then Done(q.value[0], q.rest) else Fail;
    }

    method ReadUint16() returns (p: Parse<uint16>)
      requires Valid()
      modifies this
      ensures Valid()
      ensures p == Take16(old(Remaining()))
      ensures p.Done? ==> Remaining() == p.rest
    {
      var q := ReadFull(2);
      p := if q.Done? then Done(Get16(q.value), q.rest) else Fail;
    }

    method ReadUint32() returns (p: Parse<uint32>)
      requires Valid()
      modifies this
      ensures Valid()
      ensures p == Take32(old(Remaining()))
      ensures p.Done? ==> Remaining() == p.rest
    {
      var q := ReadFull(4);
      p := if q.Done? then Done(Get32(q.value), q.rest) else Fail;
    }

    method ReadUint64() returns (p: Parse<uint64>)
      requires Valid()
      modifies this
      ensures Valid()
      ensures p == Take64(old(Remaining()))
      ensures p.Done? ==> Remaining() == p.rest
    {
      var q := ReadFull(8);
      p := if q.Done? then Done(Get64(q.value), q.rest) else Fail;
    }
  }
}
