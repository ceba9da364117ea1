/** What the connection loop reads out of a request head: where the head ends, the
    path, the content length; and the reference framing of a byte stream. */
module HttpParsing {
  import opened Bytes

  const MAX_REQUEST: nat := 8192

  const INT64_SPAN: int := 0x1_0000_0000_0000_0000

  /** Two's complement wrap-around of a 64-bit int. */
  function Wrap(n: int): (r: int)
    ensures -0x8000_0000_0000_0000 <= r < 0x8000_0000_0000_0000
    ensures -0x8000_0000_0000_0000 <= n < 0x8000_0000_0000_0000 ==> r == n
  {
    var u := n % INT64_SPAN;
    if u < 0x8000_0000_0000_0000 then u else u - INT64_SPAN
  }

  /** It drops a multiple of 2^64. */
  lemma WrapIs(n: int)
    ensures exists k: int :: n == Wrap(n) + k * 0x1_0000_0000_0000_0000
  {
    var k := n / INT64_SPAN;
    assert n == n % INT64_SPAN + k * INT64_SPAN;
    if n % INT64_SPAN >= 0x8000_0000_0000_0000 {
      assert n == Wrap(n) + (k + 1) * 0x1_0000_0000_0000_0000;
    } else {
      assert n == Wrap(n) + k * 0x1_0000_0000_0000_0000;
    }
  }

  // ----- End of the head -----

  /** The blank line that ends a head starts at i. */
  predicate EndAt(s: seq<Byte>, i: int) {
    0 <= i && i + 3 < |s| && s[i] == 13 && s[i + 1] == 10 && s[i + 2] == 13 && s[i + 3] == 10
  }

  ghost predicate NoEndBefore(s: seq<Byte>, n: int) {
    forall i {:trigger EndAt(s, i)} :: 0 <= i < n ==> !EndAt(s, i)
  }

  method IndexHeaderEnd(buf: array<Byte>, pos: nat, used: nat) returns (idx: int)
    requires pos <= used <= buf.Length
    ensures idx == -1 || EndAt(buf[pos..used], idx)
    ensures NoEndBefore(buf[pos..used], if idx == -1 then used - pos else idx)
  {
    idx := 0;
    ghost var b := buf[pos..used];
    while idx + 3 < used - pos
      invariant 0 <= idx && NoEndBefore(b, idx)
    {
      if buf[pos + idx] == 13 && buf[pos + idx + 1] == 10 && buf[pos + idx + 2] == 13 && buf[pos + idx + 3] == 10 {
        assert EndAt(b, idx);
        return;
      }
      idx := idx + 1;
    }
    idx := -1;
  }

  /** The first blank line at or after i, |s| when there is none. */
  ghost function FirstEnd(s: seq<Byte>, i: nat): (k: nat)
    ensures k < |s| ==> i <= k <= |s| - 4
    decreases |s| - i
  {
    if i >= |s| then |s| else if EndAt(s, i) then i else FirstEnd(s, i + 1)
  }

  /** The length of the head at the front of s, blank line included; 0 when it does
      not end within the first 8192 bytes. */
  ghost function HeadLen(s: seq<Byte>): (h: nat)
    ensures h == 0 || (4 <= h <= MAX_REQUEST && h <= |s|)
  {
    var k := FirstEnd(s, 0);
    if k < |s| && k + 4 <= MAX_REQUEST then k + 4 else 0
  }

  lemma {:induction false} FirstEndIs(s: seq<Byte>, i: nat, k: nat)
    requires i <= k && EndAt(s, k) && NoEndBefore(s, k)
    ensures FirstEnd(s, i) == k
    decreases k - i
  {
    if i < k {
      assert !EndAt(s, i);
      FirstEndIs(s, i + 1, k);
    }
  }

  lemma {:induction false} FirstEndPast(s: seq<Byte>, i: nat, n: nat)
    requires i <= n && NoEndBefore(s, n)
    ensures FirstEnd(s, i) >= n || FirstEnd(s, i) == |s|
    decreases n - i
  {
    if i < n && i < |s| {
      assert !EndAt(s, i);
      FirstEndPast(s, i + 1, n);
    }
  }

  /** A head found in the bytes received so far is the head of the whole stream. */
  lemma HeadLenOfPrefix(s: seq<Byte>, p: seq<Byte>, i: nat)
    requires p <= s && |p| <= MAX_REQUEST && EndAt(p, i) && NoEndBefore(p, i)
    ensures HeadLen(s) == i + 4 && s[..i + 4] == p[..i + 4]
  {
    assert EndAt(s, i);
    forall k | 0 <= k < i
      ensures !EndAt(s, k)
    {
      assert !EndAt(p, k);
    }
    FirstEndIs(s, 0, i);
  }

  /** A full buffer without one means the head is too long. */
  lemma NoHeadInBuffer(s: seq<Byte>, p: seq<Byte>)
    requires p <= s && NoEndBefore(p, |p|) && (|p| == MAX_REQUEST || p == s)
    ensures HeadLen(s) == 0
  {
    var n := if p == s then |s| else MAX_REQUEST - 3;
    forall i | 0 <= i < n
      ensures !EndAt(s, i)
    {
      assert EndAt(s, i) ==> EndAt(p, i);
    }
    FirstEndPast(s, 0, n);
  }

  /** As long as no blank line was received, the head is longer than that. */
  lemma NoHeadInside(s: seq<Byte>, p: seq<Byte>)
    requires p <= s && NoEndBefore(p, |p|)
    ensures HeadLen(s) > 0 ==> |p| < HeadLen(s)
  {
    FirstEndIsEnd(s, 0);
    var k := FirstEnd(s, 0);
    assert k < |s| && k + 4 <= |p| ==> EndAt(p, k);
  }

  lemma {:induction false} FirstEndIsEnd(s: seq<Byte>, i: nat)
    ensures FirstEnd(s, i) < |s| ==> EndAt(s, FirstEnd(s, i))
    decreases |s| - i
  {
    if i < |s| && !EndAt(s, i) {
      FirstEndIsEnd(s, i + 1);
    }
  }

  // ----- The request line -----

  /** The first space at or after i, or the end. */
  function SpaceFrom(s: seq<Byte>, i: nat): (k: nat)
    requires i <= |s|
    ensures i <= k <= |s| && (k < |s| ==> s[k] == 32)
    decreases |s| - i
  {
    if i < |s| && s[i] != 32 then SpaceFrom(s, i + 1) else i
  }

  lemma {:induction false} SpaceFromIsFirst(s: seq<Byte>, i: nat)
    requires i <= |s|
    ensures forall j :: i <= j < SpaceFrom(s, i) ==> s[j] != 32
    decreases |s| - i
  {
    if i < |s| && s[i] != 32 {
      SpaceFromIsFirst(s, i + 1);
    }
  }

  /** The second word of the request line; empty when there is no space at all. */
  function PathOf(head: seq<Byte>): seq<Byte> {
    var i := SpaceFrom(head, 0);
    if i == |head| then [] else head[i + 1..SpaceFrom(head, i + 1)]
  }

  // ----- Content-Length -----

  /** Letters A to Z in lower case, everything else as it is. */
  function Lower(c: Byte): Byte {
    if 65 <= c <= 90 then c + 32 else c
  }

  /** "content-length:" */
  const NAME: seq<Byte> := [99, 111, 110, 116, 101, 110, 116, 45, 108, 101, 110, 103, 116, 104, 58]

  /** The header name starts at i, in any case; one more byte follows it. */
  predicate NameAt(s: seq<Byte>, i: int) {
    0 <= i && i + 16 < |s| && forall k {:trigger NameByte(s, i, k)} :: 0 <= k < 15 ==> NameByte(s, i, k)
  }

  /** Byte k of the name stands at i + k: as it is, or a letter of it in upper case. */
  predicate NameByte(s: seq<Byte>, i: int, k: int)
    requires 0 <= i && 0 <= k < 15 && i + 15 <= |s|
  {
    s[i + k] == NAME[k] || (97 <= NAME[k] <= 122 && s[i + k] == NAME[k] - 32)
  }

  lemma NameText()
    ensures |NAME| == 15 && forall k :: 0 <= k < 15 ==> NAME[k] == "content-length:"[k] as int
  {
  }

  /** The name is recognised in any case, and nothing else is. */
  lemma NameInAnyCase(s: seq<Byte>, i: nat)
    ensures NameAt(s, i) <==>
              i + 16 < |s| && forall k {:trigger "content-length:"[k]} :: 0 <= k < 15 ==>
                                var c := "content-length:"[k] as int;
                                s[i + k] == c || (97 <= c <= 122 && s[i + k] == c - 32)
  {
    NameText();
    if i + 16 < |s| {
      forall k | 0 <= k < 15
        ensures NameByte(s, i, k) <==>
                  var c := "content-length:"[k] as int;
                  s[i + k] == c || (97 <= c <= 122 && s[i + k] == c - 32)
      {
      }
    }
  }

  /** The first header name at or after i. */
  function NameFrom(s: seq<Byte>, i: nat): (k: nat)
    ensures i <= k && (k < |s| ==> k + 16 < |s|)
    decreases |s| - i
  {
    if i >= |s| then i else if NameAt(s, i) then i else NameFrom(s, i + 1)
  }

  function SkipSpaces(s: seq<Byte>, j: nat): (k: nat)
    requires j <= |s|
    ensures j <= k <= |s|
    decreases |s| - j
  {
    if j < |s| && s[j] == 32 then SkipSpaces(s, j + 1) else j
  }

  predicate IsDigit(c: Byte) {
    48 <= c <= 57
  }

  /** Continues the decimal number n with the digits at j. */
  function Number(s: seq<Byte>, j: nat, n: int): int
    requires j <= |s|
    decreases |s| - j
  {
    if j < |s| && IsDigit(s[j]) then Number(s, j + 1, Wrap(n * 10 + (s[j] - 48))) else n
  }

  /** The value of the first Content-Length header, 0 without one. */
  function ContentLength(head: seq<Byte>): int {
    var i := NameFrom(head, 0);
    if i < |head| then Number(head, SkipSpaces(head, i + 16), 0) else 0
  }

  method IsContentLengthPrefix(s: seq<Byte>, i: nat) returns (yes: bool)
    requires i < |s|
    ensures yes <==>
              i + 16 <= |s| && forall k {:trigger NAME[k]} :: 0 <= k < 15 ==>
                                 s[i + k] == NAME[k] || (97 <= NAME[k] <= 122 && s[i + k] == NAME[k] - 32)
  {
    if |s| - i < 16 {
      return false;
    }
    for k := 0 to 15
      invariant forall l {:trigger NAME[l]} :: 0 <= l < k ==>
                  s[i + l] == NAME[l] || (97 <= NAME[l] <= 122 && s[i + l] == NAME[l] - 32)
    {
      LowerIs(s[i + k], NAME[k]);
      if Lower(s[i + k]) != NAME[k] {
        return false;
      }
    }
    return true;
  }

  lemma NameAtIs(s: seq<Byte>, i: nat)
    requires i + 16 < |s|
    ensures NameAt(s, i) <==>
              forall k {:trigger NAME[k]} :: 0 <= k < 15 ==>
                s[i + k] == NAME[k] || (97 <= NAME[k] <= 122 && s[i + k] == NAME[k] - 32)
  {
    if NameAt(s, i) {
      assert forall k {:trigger NAME[k]} :: 0 <= k < 15 ==> NameByte(s, i, k);
    }
  }

  /** What lower case turns into c, which is no upper-case letter. */
  lemma LowerIs(b: Byte, c: Byte)
    requires !(65 <= c <= 90)
    ensures Lower(b) == c <==> b == c || (97 <= c <= 122 && b == c - 32)
  {
  }

  lemma FirstLetter(s: seq<Byte>, i: nat)
    requires i < |s|
    ensures NameAt(s, i) ==> s[i] == 67 || s[i] == 99
  {
    assert NAME[0] == 99;
    assert NameAt(s, i) ==> NameByte(s, i, 0);
  }

  method FindContentLength(s: seq<Byte>) returns (n: int)
    ensures n == ContentLength(s)
  {
    var i := 0;
    while i + 16 < |s|
      invariant 0 <= i && NameFrom(s, 0) == NameFrom(s, i)
      decreases |s| - i
    {
      if s[i] == 67 || s[i] == 99 {
        var yes := IsContentLengthPrefix(s, i);
        NameAtIs(s, i);
        if yes {
          n := ReadNumber(s, i + 16);
          return;
        }
      }
      FirstLetter(s, i);
      i := i + 1;
    }
    NoNameNearEnd(s, i);
    return 0;
  }

  lemma {:induction false} NoNameNearEnd(s: seq<Byte>, i: nat)
    requires i + 16 >= |s|
    ensures NameFrom(s, i) >= |s|
    decreases |s| - i
  {
  }

  method ReadNumber(s: seq<Byte>, start: nat) returns (n: int)
    requires start <= |s|
    ensures n == Number(s, SkipSpaces(s, start), 0)
  {
    var j := start;
    while j < |s| && s[j] == 32
      invariant start <= j <= |s| && SkipSpaces(s, j) == SkipSpaces(s, start)
    {
      j := j + 1;
    }
    n := 0;
    while j < |s| && IsDigit(s[j])
      invariant j <= |s| && Number(s, j, n) == Number(s, SkipSpaces(s, start), 0)
    {
      n := Wrap(n * 10 + (s[j] - 48));
      j := j + 1;
    }
  }

  // ----- The reference framing -----

  datatype Frame = Frame(head: seq<Byte>, body: seq<Byte>)

  /** The request at the front of s fits and has arrived in full. */
  ghost predicate Whole(s: seq<Byte>) {
    var h := HeadLen(s);
    h > 0 && 0 <= ContentLength(s[..h]) <= MAX_REQUEST - h && h + ContentLength(s[..h]) <= |s|
  }

  ghost function FrameLen(s: seq<Byte>): (n: nat)
    requires Whole(s)
    ensures 4 <= n <= |s|
  {
    HeadLen(s) + ContentLength(s[..HeadLen(s)])
  }

  ghost function FrontFrame(s: seq<Byte>): Frame
    requires Whole(s)
  {
    var h := HeadLen(s);
    Frame(s[..h], s[h..FrameLen(s)])
  }

  /** The requests in a byte stream, up to the first that is too long, malformed
      or cut short. */
  ghost function Frames(s: seq<Byte>): seq<Frame>
    decreases |s|
  {
    if Whole(s) then [FrontFrame(s)] + Frames(s[FrameLen(s)..]) else []
  }
}
