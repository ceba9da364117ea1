/** Bytes: streams of them, and little-endian numbers and runs of numbers in them. */
module Bytes {

  type Byte = x: int | 0 <= x < 256

  type U16 = x: int | 0 <= x < 0x1_0000

  type U32 = x: int | 0 <= x < 0x1_0000_0000

  // ----- Single numbers, low byte first -----

  function ByteOf(x: U16, k: nat): Byte {
    if k == 0 then x % 256 else x / 256
  }

  function PutU16(x: U16): (b: seq<Byte>)
    ensures |b| == 2
  {
    seq(2, k requires 0 <= k < 2 => ByteOf(x, k))
  }

  function Half(x: U32, k: nat): U16 {
    if k == 0 then x % 65536 else x / 65536
  }

  function PutU32(x: U32): (b: seq<Byte>)
    ensures |b| == 4
  {
    PutU16(Half(x, 0)) + PutU16(Half(x, 1))
  }

  function U16At(raw: seq<Byte>, off: nat): U16
    requires off + 2 <= |raw|
  {
    raw[off] as int + 256 * (raw[off + 1] as int)
  }

  function U32At(raw: seq<Byte>, off: nat): U32
    requires off + 4 <= |raw|
  {
    U16At(raw, off) as int + 65536 * (U16At(raw, off + 2) as int)
  }

  /** From position off on, raw shows the bytes b. */
  ghost predicate Shows(raw: seq<Byte>, off: nat, b: seq<Byte>) {
    off + |b| <= |raw| && forall k :: 0 <= k < |b| ==> ShowsByte(raw, off, b, k)
  }

  ghost predicate ShowsByte(raw: seq<Byte>, off: nat, b: seq<Byte>, k: int)
    requires off + |b| <= |raw| && 0 <= k < |b|
  {
    raw[off + k] == b[k]
  }

  lemma SameStart(raw: seq<Byte>, b: seq<Byte>)
    requires |b| <= |raw|
    ensures raw[..|b|] == b <==> forall k :: 0 <= k < |b| ==> b[k] == raw[k]
  {
  }

  lemma ShowsSlice(raw: seq<Byte>, off: nat, b: seq<Byte>)
    requires off + |b| <= |raw|
    ensures Shows(raw, off, b) <==> raw[off..off + |b|] == b
  {
    if raw[off..off + |b|] == b {
      forall k | 0 <= k < |b|
        ensures ShowsByte(raw, off, b, k)
      {
        assert raw[off + k] == raw[off..off + |b|][k];
      }
    }
    if Shows(raw, off, b) {
      forall k | 0 <= k < |b|
        ensures raw[off..off + |b|][k] == b[k]
      {
        assert ShowsByte(raw, off, b, k);
      }
    }
  }

  /** Showing a concatenation is showing both parts. */
  lemma ShowsBoth(raw: seq<Byte>, off: nat, a: seq<Byte>, b: seq<Byte>)
    ensures Shows(raw, off, a + b) <==> Shows(raw, off, a) && Shows(raw, off + |a|, b)
  {
    var next: nat := off + |a|;
    if Shows(raw, off, a + b) {
      forall k | 0 <= k < |a|
        ensures ShowsByte(raw, off, a, k)
      {
        assert ShowsByte(raw, off, a + b, k);
      }
      forall k | 0 <= k < |b|
        ensures ShowsByte(raw, next, b, k)
      {
        assert ShowsByte(raw, off, a + b, |a| + k);
      }
    }
    if Shows(raw, off, a) && Shows(raw, off + |a|, b) {
      forall k | 0 <= k < |a + b|
        ensures ShowsByte(raw, off, a + b, k)
      {
        if k < |a| {
          assert ShowsByte(raw, off, a, k);
        } else {
          assert ShowsByte(raw, next, b, k - |a|);
        }
      }
    }
  }

  lemma U16Back(raw: seq<Byte>, off: nat, x: U16)
    requires Shows(raw, off, PutU16(x))
    ensures U16At(raw, off) == x
  {
    assert ShowsByte(raw, off, PutU16(x), 0) && ShowsByte(raw, off, PutU16(x), 1);
  }

  lemma U32Back(raw: seq<Byte>, off: nat, x: U32)
    requires Shows(raw, off, PutU32(x))
    ensures U32At(raw, off) == x
  {
    ShowsBoth(raw, off, PutU16(Half(x, 0)), PutU16(Half(x, 1)));
    U16Back(raw, off, Half(x, 0));
    U16Back(raw, off + 2, Half(x, 1));
  }

  /** Both formats are little-endian: byte k of a number is its digit k to the base 256. */
  lemma PutU16Is(x: U16)
    ensures PutU16(x)[0] as int == x % 256 && PutU16(x)[1] as int == x / 256 % 256
  {
  }

  lemma PutU32Is(x: U32)
    ensures PutU32(x)[0] as int == x % 256 && PutU32(x)[1] as int == x / 256 % 256
    ensures PutU32(x)[2] as int == x / 65536 % 256 && PutU32(x)[3] as int == x / 16777216 % 256
  {
    PutU16Is(x % 65536);
    PutU16Is(x / 65536);
    HalvesDigits(x);
  }

  lemma HalvesDigits(x: U32)
    ensures (x % 65536) % 256 == x % 256 && (x % 65536) / 256 % 256 == x / 256 % 256
    ensures (x / 65536) % 256 == x / 65536 % 256 && (x / 65536) / 256 % 256 == x / 16777216 % 256
  {
  }

  /** The four digits of a number to the base 256, lowest first. */
  function LittleEndian(x: U32): (b: seq<int>)
    ensures |b| == 4
  {
    [x % 256, x / 256 % 256, x / 65536 % 256, x / 16777216 % 256]
  }

  lemma PutU32IsLittleEndian(x: U32)
    ensures PutU32(x) == LittleEndian(x)
  {
    PutU32Is(x);
  }

  lemma U16AtIs(raw: seq<Byte>, off: nat)
    requires off + 2 <= |raw|
    ensures U16At(raw, off) as int == raw[off] as int + 256 * (raw[off + 1] as int)
  {
  }

  lemma U32AtIs(raw: seq<Byte>, off: nat)
    requires off + 4 <= |raw|
    ensures U32At(raw, off) as int == raw[off] as int + 256 * (raw[off + 1] as int)
                                      + 65536 * (raw[off + 2] as int) + 16777216 * (raw[off + 3] as int)
  {
  }

  lemma FourDigits(b0: Byte, b1: Byte, b2: Byte, b3: Byte, x: int)
    requires x == b0 as int + 256 * (b1 as int) + 65536 * (b2 as int) + 16777216 * (b3 as int)
    ensures x % 256 == b0 && x / 256 % 256 == b1 && x / 65536 % 256 == b2 && x / 16777216 % 256 == b3
  {
    assert x / 256 == b1 as int + 256 * (b2 as int) + 65536 * (b3 as int);
    assert x / 65536 == b2 as int + 256 * (b3 as int);
    assert x / 16777216 == b3;
  }

  /** A number reads as x exactly if its bytes are those of x. */
  lemma ReadsAs(raw: seq<Byte>, off: nat, x: U32)
    requires off + 4 <= |raw|
    ensures U32At(raw, off) == x <==> raw[off..off + 4] == LittleEndian(x)
  {
    U32AtIs(raw, off);
    FourDigits(raw[off], raw[off + 1], raw[off + 2], raw[off + 3], U32At(raw, off));
    assert raw[off..off + 4] == LittleEndian(U32At(raw, off));
    if raw[off..off + 4] == LittleEndian(x) {
      SameDigits(x, U32At(raw, off));
    }
  }

  lemma SameDigits(x: U32, y: U32)
    requires LittleEndian(x) == LittleEndian(y)
    ensures x == y
  {
    SumOfDigits(x);
    SumOfDigits(y);
    assert LittleEndian(x)[0] == LittleEndian(y)[0] && LittleEndian(x)[1] == LittleEndian(y)[1];
    assert LittleEndian(x)[2] == LittleEndian(y)[2] && LittleEndian(x)[3] == LittleEndian(y)[3];
  }

  lemma SumOfDigits(x: U32)
    ensures var b := LittleEndian(x);
            x == b[0] + 256 * b[1] + 65536 * b[2] + 16777216 * b[3]
  {
    var y, z := x / 256, x / 65536;
    assert x == 256 * y + x % 256 && y / 256 == z && y == 256 * z + y % 256;
    assert z / 256 == x / 16777216 && z == 256 * (z / 256) + z % 256 && z / 256 < 256;
  }

  // ----- Two's complement -----

  function FromI16(x: int): (u: U16) {
    if 0 <= x < 0x1_0000 then x else if -0x1_0000 <= x < 0 then x + 0x1_0000 else x % 0x1_0000
  }

  function ToI16(u: U16): (x: int)
    ensures -0x8000 <= x < 0x8000
  {
    if u < 0x8000 then u else u - 0x1_0000
  }

  function FromI32(x: int): (u: U32) {
    if 0 <= x < 0x1_0000_0000 then x else if -0x1_0000_0000 <= x < 0 then x + 0x1_0000_0000 else x % 0x1_0000_0000
  }

  function ToI32(u: U32): (x: int)
    ensures -0x8000_0000 <= x < 0x8000_0000
  {
    if u < 0x8000_0000 then u else u - 0x1_0000_0000
  }

  lemma SignedRoundTrip(x: int)
    ensures -0x8000 <= x < 0x8000 ==> ToI16(FromI16(x)) == x
    ensures -0x8000_0000 <= x < 0x8000_0000 ==> ToI32(FromI32(x)) == x
  {
  }

  /** Unsigned and signed numbers that stand for each other differ by a multiple of
      2^16, or 2^32. */
  lemma SignedIs(x: int, u: U16, w: U32)
    ensures (x - FromI16(x) as int) % 0x1_0000 == 0 && (x - FromI32(x) as int) % 0x1_0000_0000 == 0
    ensures (ToI16(u) - u as int) % 0x1_0000 == 0 && (ToI32(w) - w as int) % 0x1_0000_0000 == 0
  {
  }

  // ----- Runs of numbers -----

  type I16 = x: int | -0x8000 <= x < 0x8000

  function EncI16s(s: seq<I16>): (b: seq<Byte>)
    ensures |b| == 2 * |s|
  {
    if s == [] then [] else EncI16s(s[..|s| - 1]) + PutU16(FromI16(s[|s| - 1]))
  }

  function EncU32s(s: seq<U32>): (b: seq<Byte>)
    ensures |b| == 4 * |s|
  {
    if s == [] then [] else EncU32s(s[..|s| - 1]) + PutU32(s[|s| - 1])
  }

  /** The signed 16-bit numbers in raw[lo..hi]. */
  function DecI16s(raw: seq<Byte>, lo: nat, hi: nat): (s: seq<I16>)
    requires lo <= hi <= |raw|
    ensures |s| == (hi - lo) / 2
    decreases hi
  {
    if hi < lo + 2 then [] else DecI16s(raw, lo, hi - 2) + [ToI16(U16At(raw, hi - 2))]
  }

  /** The unsigned 32-bit numbers in raw[lo..hi]. */
  function DecU32s(raw: seq<Byte>, lo: nat, hi: nat): (s: seq<U32>)
    requires lo <= hi <= |raw|
    ensures |s| == (hi - lo) / 4
    decreases hi
  {
    if hi < lo + 4 then [] else DecU32s(raw, lo, hi - 4) + [U32At(raw, hi - 4)]
  }

  /** What was written comes back, negative numbers included. */
  lemma {:induction false} I16sRoundTrip(raw: seq<Byte>, off: nat, s: seq<I16>)
    requires Shows(raw, off, EncI16s(s))
    ensures DecI16s(raw, off, off + 2 * |s|) == s
    decreases |s|
  {
    if s != [] {
      var n := |s| - 1;
      ShowsBoth(raw, off, EncI16s(s[..n]), PutU16(FromI16(s[n])));
      I16sRoundTrip(raw, off, s[..n]);
      U16Back(raw, off + 2 * n, FromI16(s[n]));
      SignedRoundTrip(s[n]);
    }
  }

  lemma {:induction false} U32sRoundTrip(raw: seq<Byte>, off: nat, s: seq<U32>)
    requires Shows(raw, off, EncU32s(s))
    ensures DecU32s(raw, off, off + 4 * |s|) == s
    decreases |s|
  {
    if s != [] {
      var n := |s| - 1;
      ShowsBoth(raw, off, EncU32s(s[..n]), PutU32(s[n]));
      U32sRoundTrip(raw, off, s[..n]);
      U32Back(raw, off + 4 * n, s[n]);
    }
  }

  /** Number i of a run stands i numbers behind its start. */
  lemma {:induction false} DecI16sAt(raw: seq<Byte>, lo: nat, n: nat, i: nat)
    requires i < n && lo + 2 * n <= |raw|
    ensures |DecI16s(raw, lo, lo + 2 * n)| == n && DecI16s(raw, lo, lo + 2 * n)[i] == ToI16(U16At(raw, lo + 2 * i))
    decreases n
  {
    if i < n - 1 {
      DecI16sAt(raw, lo, n - 1, i);
    }
  }

  lemma {:induction false} DecU32sAt(raw: seq<Byte>, lo: nat, n: nat, i: nat)
    requires i < n && lo + 4 * n <= |raw|
    ensures |DecU32s(raw, lo, lo + 4 * n)| == n && DecU32s(raw, lo, lo + 4 * n)[i] == U32At(raw, lo + 4 * i)
    decreases n
  {
    if i < n - 1 {
      DecU32sAt(raw, lo, n - 1, i);
    }
  }

  /** From lo on, raw holds the numbers of s, four bytes each. */
  ghost predicate HoldsU32s(raw: seq<Byte>, lo: nat, s: seq<U32>) {
    lo + 4 * |s| <= |raw| && forall i :: 0 <= i < |s| ==> HoldsU32(raw, lo, s, i)
  }

  ghost predicate HoldsU32(raw: seq<Byte>, lo: nat, s: seq<U32>, i: int)
    requires lo + 4 * |s| <= |raw| && 0 <= i < |s|
  {
    U32At(raw, lo + 4 * i) == s[i]
  }

  /** Two bytes each, in two's complement. */
  ghost predicate HoldsI16s(raw: seq<Byte>, lo: nat, s: seq<I16>) {
    lo + 2 * |s| <= |raw| && forall i :: 0 <= i < |s| ==> HoldsI16(raw, lo, s, i)
  }

  ghost predicate HoldsI16(raw: seq<Byte>, lo: nat, s: seq<I16>, i: int)
    requires lo + 2 * |s| <= |raw| && 0 <= i < |s|
  {
    ToI16(U16At(raw, lo + 2 * i)) == s[i]
  }

  lemma DecodedHolds(raw: seq<Byte>, lo: nat, hi: nat, s: seq<U32>)
    requires hi == lo + 4 * |s| <= |raw| && DecU32s(raw, lo, hi) == s
    ensures HoldsU32s(raw, lo, s)
  {
    forall i | 0 <= i < |s|
      ensures HoldsU32(raw, lo, s, i)
    {
      DecU32sAt(raw, lo, |s|, i);
    }
  }

  lemma SignedHolds(raw: seq<Byte>, lo: nat, hi: nat, s: seq<I16>)
    requires hi == lo + 2 * |s| <= |raw| && DecI16s(raw, lo, hi) == s
    ensures HoldsI16s(raw, lo, s)
  {
    forall i | 0 <= i < |s|
      ensures HoldsI16(raw, lo, s, i)
    {
      DecI16sAt(raw, lo, |s|, i);
    }
  }

  lemma {:induction false} I16sInSlice(raw: seq<Byte>, lo: nat, hi: nat, end: nat)
    requires lo <= hi <= end <= |raw|
    ensures DecI16s(raw[lo..end], 0, hi - lo) == DecI16s(raw, lo, hi)
    decreases hi
  {
    if hi >= lo + 2 {
      I16sInSlice(raw, lo, hi - 2, end);
    }
  }

  lemma {:induction false} U32sInSlice(raw: seq<Byte>, lo: nat, hi: nat, end: nat)
    requires lo <= hi <= end <= |raw|
    ensures DecU32s(raw[lo..end], 0, hi - lo) == DecU32s(raw, lo, hi)
    decreases hi
  {
    if hi >= lo + 4 {
      U32sInSlice(raw, lo, hi - 4, end);
    }
  }

  // ----- Streams -----

  class Reader {
    const data: seq<Byte>
    var at: nat

    constructor (data: seq<Byte>)
      ensures this.data == data && at == 0
    {
      this.data, at := data, 0;
    }

    /** The next n bytes, or nothing at all. */
    method ReadFull(n: nat) returns (ok: bool, b: seq<Byte>)
      requires at <= |data|
      modifies this`at
      ensures ok <==> old(at) + n <= |data|
      ensures at <= |data| && (ok ==> at == old(at) + n && b == data[old(at)..at])
    {
      if at + n > |data| {
        at := |data|;
        return false, [];
      }
      ok, b := true, data[at..at + n];
      at := at + n;
    }
  }


  /** The first writesOk writes succeed. */
  class Writer {
    const writesOk: nat
    var data: seq<Byte>
    var writes: nat

    constructor (writesOk: nat)
      ensures this.writesOk == writesOk && data == [] && writes == 0
    {
      this.writesOk, data, writes := writesOk, [], 0;
    }

    method Write(b: seq<Byte>) returns (ok: bool)
      modifies this
      ensures ok <==> old(writes) < writesOk
      ensures writes == old(writes) + 1
      ensures data == if ok then old(data) + b else old(data)
    {
      ok := writes < writesOk;
      writes := writes + 1;
      if ok {
        data := data + b;
      }
    }
  }
}
