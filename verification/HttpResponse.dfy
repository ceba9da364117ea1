/** The prebuilt responses, read back by the same framing as the requests. */
module HttpResponse {
  import opened Bytes
  import opened HttpParsing

  // ----- Decimal numbers -----

  function Decimal(n: nat): (s: seq<Byte>)
    ensures |s| > 0 && forall i :: 0 <= i < |s| ==> IsDigit(s[i])
  {
    if n < 10 then [48 + n] else Decimal(n / 10) + [48 + n % 10]
  }

  function Power10(k: nat): (p: nat)
    ensures p >= 1
  {
    if k == 0 then 1 else 10 * Power10(k - 1)
  }

  lemma TenToTheSixteenth()
    ensures Power10(16) == 10000000000000000
  {
    assert Power10(4) == 10000;
    assert Power10(8) == 100000000;
    assert Power10(12) == 1000000000000;
  }

  lemma {:induction false} DecimalLength(n: nat, k: nat)
    requires n < Power10(k) && k > 0
    ensures |Decimal(n)| <= k
  {
    if n >= 10 {
      DecimalLength(n / 10, k - 1);
    }
  }

  /** The digits of n0 are those of n followed by tail, of at most 16. */
  ghost predicate LeftToWrite(n0: nat, n: nat, tail: seq<Byte>) {
    |Decimal(n0)| <= 16 && Decimal(n0) == (if n > 0 then Decimal(n) else []) + tail
  }

  lemma OneDigit(n0: nat, n: nat, tail: seq<Byte>)
    requires n > 0 && LeftToWrite(n0, n, tail)
    ensures |tail| < 16 && LeftToWrite(n0, n / 10, [48 + n % 10] + tail)
  {
    if n >= 10 {
      assert Decimal(n) == Decimal(n / 10) + [48 + n % 10];
      assert Decimal(n) + tail == Decimal(n / 10) + ([48 + n % 10] + tail);
    } else {
      assert Decimal(n) == [48 + n % 10];
    }
  }

  /** Digits are written backwards into a buffer of 16. */
  method Itoa(n0: nat) returns (s: seq<Byte>)
    requires n0 < 10000000000000000
    ensures s == Decimal(n0)
  {
    if n0 == 0 {
      return [48];
    }
    var buf := new Byte[16](_ => 0);
    var i: nat, n: nat := 16, n0;
    TenToTheSixteenth();
    DecimalLength(n0, 16);
    while n > 0
      invariant i <= 16 && LeftToWrite(n0, n, buf[i..])
    {
      ghost var tail := buf[i..];
      OneDigit(n0, n, tail);
      i := i - 1;
      buf[i] := 48 + n % 10;
      assert buf[i..] == [48 + n % 10] + tail;
      n := n / 10;
    }
    s := buf[i..];
  }

  /** The value of a run of digits read after acc. */
  ghost function Fold(ds: seq<Byte>, acc: int): int {
    if ds == [] then acc else Wrap(Fold(ds[..|ds| - 1], acc) * 10 + (ds[|ds| - 1] as int - 48))
  }

  /** The number a run of decimal digits stands for. */
  ghost function ValueOf(ds: seq<Byte>): int {
    if ds == [] then 0 else 10 * ValueOf(ds[..|ds| - 1]) + (ds[|ds| - 1] as int - 48)
  }

  lemma WrapShifted(n: int, k: int)
    ensures Wrap(n + k * INT64_SPAN) == Wrap(n)
  {
    assert (n + k * INT64_SPAN) % INT64_SPAN == n % INT64_SPAN;
  }

  lemma {:induction false} FoldIsValue(ds: seq<Byte>)
    ensures Fold(ds, 0) == Wrap(ValueOf(ds))
  {
    if ds != [] {
      var front := ds[..|ds| - 1];
      FoldIsValue(front);
      WrapIs(ValueOf(front));
      var k: int :| ValueOf(front) == Wrap(ValueOf(front)) + k * 0x1_0000_0000_0000_0000;
      WrapShifted(Wrap(ValueOf(front)) * 10 + (ds[|ds| - 1] as int - 48), 10 * k);
    }
  }

  /** The first header name at i; the byte after its colon, and then spaces up to j, are
      passed over; digits from j to e make up the value. */
  ghost predicate HeaderAt(head: seq<Byte>, i: nat, j: nat, e: nat) {
    && i + 16 <= j <= e <= |head| && i + 16 < |head|
    && NameAt(head, i) && (forall k {:trigger NameAt(head, k)} :: 0 <= k < i ==> !NameAt(head, k))
    && (forall k :: i + 16 <= k < j ==> head[k] == 32) && (j < |head| ==> head[j] != 32)
    && (forall k :: j <= k < e ==> 48 <= head[k] <= 57) && (e < |head| ==> head[e] < 48 || head[e] > 57)
  }

  /** The content length is the number those digits stand for, less a multiple of 2^64
      that brings it into the range of a signed 64-bit integer. */
  lemma ContentLengthIs(head: seq<Byte>, i: nat, j: nat, e: nat)
    requires HeaderAt(head, i, j, e)
    ensures ContentLength(head) == Wrap(ValueOf(head[j..e]))
    ensures -0x8000_0000_0000_0000 <= ContentLength(head) < 0x8000_0000_0000_0000
    ensures exists k: int :: ValueOf(head[j..e]) == ContentLength(head) + k * 0x1_0000_0000_0000_0000
  {
    NameFromSkips(head, 0, i);
    SpacesSkipped(head, i + 16, j);
    NumberFolds(head, j, e, 0);
    FoldIsValue(head[j..e]);
    WrapIs(ValueOf(head[j..e]));
  }

  /** Without such a header it is 0. */
  lemma ContentLengthWithout(head: seq<Byte>)
    requires forall k {:trigger NameAt(head, k)} :: 0 <= k < |head| ==> !NameAt(head, k)
    ensures ContentLength(head) == 0
  {
    NameNowhere(head, 0);
  }

  lemma {:induction false} NameNowhere(s: seq<Byte>, i: nat)
    requires forall k {:trigger NameAt(s, k)} :: 0 <= k < |s| ==> !NameAt(s, k)
    ensures NameFrom(s, i) >= |s|
    decreases |s| - i
  {
    if i < |s| {
      assert !NameAt(s, i);
      NameNowhere(s, i + 1);
    }
  }

  /** A decimal has the value it was made of, and no leading zero. */
  lemma {:induction false} DecimalIs(n: nat)
    ensures ValueOf(Decimal(n)) == n && (n > 0 ==> Decimal(n)[0] != 48)
    ensures forall i :: 0 <= i < |Decimal(n)| ==> 48 <= Decimal(n)[i] <= 57
  {
    if n < 10 {
      assert Decimal(n)[..0] == [];
    } else {
      DecimalIs(n / 10);
      assert Decimal(n)[..|Decimal(n)| - 1] == Decimal(n / 10);
    }
  }

  lemma {:induction false} NumberFolds(s: seq<Byte>, j: nat, e: nat, acc: int)
    requires j <= e <= |s| && forall i :: j <= i < e ==> IsDigit(s[i])
    ensures Number(s, j, acc) == Number(s, e, Fold(s[j..e], acc))
  {
    if j < e {
      NumberFolds(s, j, e - 1, acc);
      assert s[j..e][..e - 1 - j] == s[j..e - 1];
    }
  }

  lemma {:induction false} FoldDecimal(n: nat)
    requires n < 0x8000_0000_0000_0000
    ensures Fold(Decimal(n), 0) == n
  {
    if n < 10 {
      assert Decimal(n)[..0] == [];
    } else {
      FoldDecimal(n / 10);
      assert Decimal(n)[..|Decimal(n)| - 1] == Decimal(n / 10);
    }
  }

  lemma NumberIsFold(s: seq<Byte>, j: nat, n: nat)
    requires j + |Decimal(n)| <= |s| && s[j..j + |Decimal(n)|] == Decimal(n)
    requires j + |Decimal(n)| < |s| ==> !IsDigit(s[j + |Decimal(n)|])
    ensures Number(s, j, 0) == Fold(Decimal(n), 0)
  {
    var e := j + |Decimal(n)|;
    forall i | j <= i < e
      ensures IsDigit(s[i])
    {
      assert s[i] == s[j..e][i - j];
    }
    NumberFolds(s, j, e, 0);
  }

  /** What the header scanner reads back of a decimal number that some other byte
      follows. */
  lemma NumberReadsDecimal(s: seq<Byte>, j: nat, n: nat)
    requires n < 0x8000_0000_0000_0000 && j + |Decimal(n)| <= |s| && s[j..j + |Decimal(n)|] == Decimal(n)
    requires j + |Decimal(n)| < |s| ==> !IsDigit(s[j + |Decimal(n)|])
    ensures Number(s, j, 0) == n
  {
    NumberIsFold(s, j, n);
    FoldDecimal(n);
  }

  // ----- A Content-Length header as a client may write it -----

  lemma {:induction false} WithoutLeadingDigit(n: nat)
    requires 0 < n < 0x8000_0000_0000_0000
    ensures 0 <= Fold(Decimal(n)[1..], 0) < n
  {
    var d := Decimal(n);
    if n >= 10 {
      WithoutLeadingDigit(n / 10);
      assert d[1..][..|d[1..]| - 1] == Decimal(n / 10)[1..];
    }
  }

  lemma {:induction false} SpacesSkipped(s: seq<Byte>, j: nat, e: nat)
    requires j <= e <= |s| && (forall i :: j <= i < e ==> s[i] == 32) && (e < |s| ==> s[e] != 32)
    ensures SkipSpaces(s, j) == e
    decreases e - j
  {
    if j < e {
      SpacesSkipped(s, j + 1, e);
    }
  }

  /** The first Content-Length header has its colon at i + 14 and, after spaces up
      to j, the decimal n. */
  ghost predicate Declares(head: seq<Byte>, i: nat, j: nat, n: nat) {
    && NameFrom(head, 0) == i && i + 15 <= j && j + |Decimal(n)| < |head|
    && (forall k :: i + 15 <= k < j ==> head[k] == 32)
    && head[j..j + |Decimal(n)|] == Decimal(n) && !IsDigit(head[j + |Decimal(n)|]) && head[j + |Decimal(n)|] != 32
  }

  /** The scanner takes the byte after the colon for granted, so the declared length
      is the one used exactly when a space follows the colon (or it is zero). */
  lemma DeclaredLengthUsed(head: seq<Byte>, i: nat, j: nat, n: nat)
    requires Declares(head, i, j, n) && n < 0x8000_0000_0000_0000
    ensures ContentLength(head) == n <==> j > i + 15 || n == 0
  {
    var d, e := Decimal(n), j + |Decimal(n)|;
    assert head[j] == head[j..e][0];
    if j > i + 15 {
      SpacesSkipped(head, i + 16, j);
      NumberReadsDecimal(head, j, n);
    } else {
      ShortenedNumber(head, j, n);
    }
  }

  lemma ShortenedNumber(head: seq<Byte>, j: nat, n: nat)
    requires n < 0x8000_0000_0000_0000 && j + |Decimal(n)| < |head| && head[j..j + |Decimal(n)|] == Decimal(n)
    requires !IsDigit(head[j + |Decimal(n)|]) && head[j + |Decimal(n)|] != 32
    ensures Number(head, SkipSpaces(head, j + 1), 0) == n <==> n == 0
  {
    var d, e := Decimal(n), j + |Decimal(n)|;
    forall k | j <= k < e
      ensures IsDigit(head[k])
    {
      assert head[k] == head[j..e][k - j];
    }
    SpacesSkipped(head, j + 1, j + 1);
    NumberFolds(head, j + 1, e, 0);
    assert head[j + 1..e] == d[1..];
    if n > 0 {
      WithoutLeadingDigit(n);
    } else {
      assert d[1..] == [];
    }
  }

  lemma FoldWraps(n: nat)
    requires 0x8000_0000_0000_0000 <= n < 0x1_0000_0000_0000_0000
    ensures Fold(Decimal(n), 0) == n - 0x1_0000_0000_0000_0000
  {
    FoldDecimal(n / 10);
    assert Decimal(n)[..|Decimal(n)| - 1] == Decimal(n / 10);
  }

  lemma LongNumber(s: seq<Byte>, j: nat, n: nat)
    requires 0x8000_0000_0000_0000 <= n < 0x1_0000_0000_0000_0000
    requires j + |Decimal(n)| < |s| && s[j..j + |Decimal(n)|] == Decimal(n) && !IsDigit(s[j + |Decimal(n)|])
    ensures Number(s, j, 0) == n - 0x1_0000_0000_0000_0000
  {
    NumberIsFold(s, j, n);
    FoldWraps(n);
  }

  /** A declared length of 64 bits comes out negative. */
  lemma DeclaredLengthWraps(head: seq<Byte>, i: nat, j: nat, n: nat)
    requires Declares(head, i, j, n) && j > i + 15 && 0x8000_0000_0000_0000 <= n < 0x1_0000_0000_0000_0000
    ensures ContentLength(head) == n - 0x1_0000_0000_0000_0000 < 0
  {
    assert head[j] == head[j..j + |Decimal(n)|][0];
    SpacesSkipped(head, i + 16, j);
    LongNumber(head, j, n);
  }

  // ----- Responses -----

  /** "HTTP/1.1 200 OK" */
  const STATUS: seq<Byte> := [72, 84, 84, 80, 47, 49, 46, 49, 32, 50, 48, 48, 32, 79, 75, 13, 10]

  /** "Content-Type: application/json" */
  const TYPE: seq<Byte> := [67, 111, 110, 116, 101, 110, 116, 45, 84, 121, 112, 101, 58, 32, 97, 112, 112, 108, 105, 99,
                            97, 116, 105, 111, 110, 47, 106, 115, 111, 110, 13, 10]

  /** "Content-Length: " */
  const LENGTH: seq<Byte> := [67, 111, 110, 116, 101, 110, 116, 45, 76, 101, 110, 103, 116, 104, 58, 32]

  const PREFIX: seq<Byte> := STATUS + TYPE + LENGTH

  const BLANK: seq<Byte> := [13, 10, 13, 10]

  function HeadFor(body: seq<Byte>): seq<Byte> {
    PREFIX + Decimal(|body|) + BLANK
  }

  /** The text before the length, and after it. */
  lemma HeadText(body: seq<Byte>)
    ensures |HeadFor(body)| == 69 + |Decimal(|body|)|
    ensures forall k :: 0 <= k < 17 ==> HeadFor(body)[k] == "HTTP/1.1 200 OK\r\n"[k] as int
    ensures forall k :: 0 <= k < 32 ==> HeadFor(body)[17 + k] == "Content-Type: application/json\r\n"[k] as int
    ensures forall k :: 0 <= k < 16 ==> HeadFor(body)[49 + k] == "Content-Length: "[k] as int
    ensures HeadFor(body)[65..65 + |Decimal(|body|)|] == Decimal(|body|)
    ensures HeadFor(body)[65 + |Decimal(|body|)|..] == [13, 10, 13, 10]
  {
    var d := Decimal(|body|);
    StatusText();
    TypeText();
    LengthText();
    Layered(STATUS, TYPE, LENGTH, d, BLANK, HeadFor(body));
  }

  lemma Layered(a: seq<Byte>, b: seq<Byte>, c: seq<Byte>, d: seq<Byte>, e: seq<Byte>, h: seq<Byte>)
    requires h == a + b + c + d + e
    ensures forall k :: 0 <= k < |a| ==> h[k] == a[k]
    ensures forall k :: 0 <= k < |b| ==> h[|a| + k] == b[k]
    ensures forall k :: 0 <= k < |c| ==> h[|a| + |b| + k] == c[k]
    ensures h[|a| + |b| + |c|..|a| + |b| + |c| + |d|] == d && h[|a| + |b| + |c| + |d|..] == e
  {
  }

  lemma StatusText()
    ensures |STATUS| == 17 && forall k :: 0 <= k < 17 ==> STATUS[k] == "HTTP/1.1 200 OK\r\n"[k] as int
  {
  }

  lemma TypeText()
    ensures |TYPE| == 32 && forall k :: 0 <= k < 32 ==> TYPE[k] == "Content-Type: application/json\r\n"[k] as int
  {
  }

  lemma LengthText()
    ensures |LENGTH| == 16 && forall k :: 0 <= k < 16 ==> LENGTH[k] == "Content-Length: "[k] as int
  {
  }

  method BuildResp(body: seq<Byte>) returns (resp: seq<Byte>)
    requires |body| < 10000000000000000
    ensures resp == HeadFor(body) + body
  {
    var clen := Itoa(|body|);
    resp := PREFIX + clen + BLANK + body;
  }

  lemma StatusBytes()
    ensures |STATUS| == 17 && STATUS[16] == 10
    ensures forall i :: 0 <= i < 17 ==> STATUS[i] != 67 && STATUS[i] != 99 && (STATUS[i] == 13 ==> i == 15)
  {
  }

  lemma TypeBytes()
    ensures |TYPE| == 32 && TYPE[0] == 67 && TYPE[8] == 84 && TYPE[20] == 97
    ensures forall i ::
              0 <= i < 32 ==> (TYPE[i] == 67 || TYPE[i] == 99 ==> i == 0 || i == 19) && (TYPE[i] == 13 ==> i == 30)
  {
  }

  lemma LengthBytes()
    ensures |LENGTH| == 16 && LENGTH[0] == 67 && LENGTH[15] == 32
    ensures forall i :: 0 <= i < 16 ==> LENGTH[i] != 13 && LENGTH[i] != 10
    ensures forall i :: 0 <= i < 15 ==> LENGTH[i] == NAME[i] || (97 <= NAME[i] <= 122 && LENGTH[i] == NAME[i] - 32)
  {
  }

  lemma BlankBytes()
    ensures |BLANK| == 4 && BLANK[0] == 13 && BLANK[1] == 10 && BLANK[2] == 13 && BLANK[3] == 10
  {
  }

  lemma Middle(a: seq<Byte>, p: seq<Byte>, b: seq<Byte>, h: seq<Byte>, s: seq<Byte>)
    requires h == a + (p + b) && h <= s
    ensures forall i :: |a| <= i < |a| + |p| ==> s[i] == p[i - |a|]
    ensures s[|a|..|a| + |p|] == p
  {
  }

  lemma HeadParts(body: seq<Byte>)
    ensures |HeadFor(body)| == 69 + |Decimal(|body|)|
    ensures HeadFor(body) == [] + (STATUS + (TYPE + LENGTH + Decimal(|body|) + BLANK))
    ensures HeadFor(body) == STATUS + (TYPE + (LENGTH + Decimal(|body|) + BLANK))
    ensures HeadFor(body) == (STATUS + TYPE) + (LENGTH + (Decimal(|body|) + BLANK))
    ensures HeadFor(body) == PREFIX + (Decimal(|body|) + BLANK)
    ensures HeadFor(body) == (PREFIX + Decimal(|body|)) + (BLANK + [])
  {
    Regroup(STATUS, TYPE, LENGTH, Decimal(|body|), BLANK);
  }

  lemma Regroup(a: seq<Byte>, b: seq<Byte>, c: seq<Byte>, d: seq<Byte>, e: seq<Byte>)
    ensures a + b + c + d + e == [] + (a + (b + c + d + e)) == a + (b + (c + d + e))
    ensures a + b + c + d + e == (a + b) + (c + (d + e)) == (a + b + c) + (d + e)
    ensures a + b + c + d + e == (a + b + c + d) + (e + [])
  {
  }

  /** Byte by byte, what stands before the body. */
  lemma HeadBytes(body: seq<Byte>, s: seq<Byte>)
    requires HeadFor(body) <= s
    ensures |HeadFor(body)| == 69 + |Decimal(|body|)|
    ensures forall i :: 0 <= i < 17 ==> s[i] == STATUS[i]
    ensures forall i :: 17 <= i < 49 ==> s[i] == TYPE[i - 17]
    ensures forall i :: 49 <= i < 65 ==> s[i] == LENGTH[i - 49]
    ensures s[65..65 + |Decimal(|body|)|] == Decimal(|body|)
    ensures forall i :: 65 <= i < 65 + |Decimal(|body|)| ==> IsDigit(s[i])
    ensures s[|HeadFor(body)| - 4..|HeadFor(body)|] == BLANK
  {
    FixedBytes(body, s);
    DigitBytes(body, s);
  }

  lemma FixedBytes(body: seq<Byte>, s: seq<Byte>)
    requires HeadFor(body) <= s
    ensures |s| >= 65
    ensures forall i :: 0 <= i < 17 ==> s[i] == STATUS[i]
    ensures forall i :: 17 <= i < 49 ==> s[i] == TYPE[i - 17]
    ensures forall i :: 49 <= i < 65 ==> s[i] == LENGTH[i - 49]
  {
    var d, h := Decimal(|body|), HeadFor(body);
    HeadParts(body);
    Middle([], STATUS, TYPE + LENGTH + d + BLANK, h, s);
    Middle(STATUS, TYPE, LENGTH + d + BLANK, h, s);
    Middle(STATUS + TYPE, LENGTH, d + BLANK, h, s);
  }

  lemma DigitBytes(body: seq<Byte>, s: seq<Byte>)
    requires HeadFor(body) <= s
    ensures |HeadFor(body)| == 69 + |Decimal(|body|)|
    ensures s[65..65 + |Decimal(|body|)|] == Decimal(|body|)
    ensures forall i :: 65 <= i < 65 + |Decimal(|body|)| ==> IsDigit(s[i])
    ensures s[|HeadFor(body)| - 4..|HeadFor(body)|] == BLANK
  {
  }

  /** The head of a response ends where its body starts. */
  lemma ResponseHead(body: seq<Byte>, s: seq<Byte>)
    requires HeadFor(body) <= s && |HeadFor(body)| <= MAX_REQUEST
    ensures HeadLen(s) == |HeadFor(body)|
  {
    HeadBytes(body, s);
    StatusBytes();
    TypeBytes();
    LengthBytes();
    var e := |HeadFor(body)| - 4;
    assert s[e] == s[e..e + 4][0] && s[e + 1] == s[e..e + 4][1] && s[e + 2] == s[e..e + 4][2]
           && s[e + 3] == s[e..e + 4][3];
    assert EndAt(s, e);
    forall i | 0 <= i < e
      ensures !EndAt(s, i)
    {
      if i == 15 {
        assert s[17] == TYPE[0];
      } else if i == 47 {
        assert s[49] == LENGTH[0];
      }
    }
    FirstEndIs(s, 0, e);
  }

  lemma {:induction false} NameFromSkips(s: seq<Byte>, i: nat, k: nat)
    requires i <= k < |s| && NameAt(s, k) && forall j {:trigger NameAt(s, j)} :: i <= j < k ==> !NameAt(s, j)
    ensures NameFrom(s, i) == k
    decreases k - i
  {
    if i < k {
      assert !NameAt(s, i);
      NameFromSkips(s, i + 1, k);
    }
  }

  lemma OtherLetters(s: seq<Byte>, body: seq<Byte>, i: nat)
    requires HeadFor(body) <= s && i < 49
    ensures !NameAt(s, i)
  {
    HeadBytes(body, s);
    FirstLetter(s, i);
    if i < 17 {
      StatusBytes();
      assert s[i] == STATUS[i];
    } else {
      TypeLetters(s, i);
    }
  }

  /** Of the Content-Type header two letters could start the name, and do not. */
  lemma TypeLetters(s: seq<Byte>, i: nat)
    requires 17 <= i < 49 && |s| >= 65 && forall j :: 17 <= j < 49 ==> s[j] == TYPE[j - 17]
    ensures !NameAt(s, i)
  {
    TypeBytes();
    FirstLetter(s, i);
    if i == 17 {
      assert s[25] == TYPE[8];
      assert !NameByte(s, 17, 8);
    } else if i == 36 {
      assert s[37] == TYPE[20];
      assert !NameByte(s, 36, 1);
    } else {
      assert s[i] == TYPE[i - 17];
    }
  }

  /** Its Content-Length header is found, and says how long the body is. */
  lemma ResponseLength(body: seq<Byte>)
    requires |body| < 0x8000_0000_0000_0000
    ensures ContentLength(HeadFor(body)) == |body|
  {
    var s := HeadFor(body);
    HeadBytes(body, s);
    LengthBytes();
    forall j | 0 <= j < 49
      ensures !NameAt(s, j)
    {
      OtherLetters(s, body, j);
    }
    forall k | 0 <= k < 15
      ensures NameByte(s, 49, k)
    {
      assert s[49 + k] == LENGTH[k];
    }
    NameFromSkips(s, 0, 49);
    ResponseNumber(body, s);
  }

  lemma ResponseNumber(body: seq<Byte>, s: seq<Byte>)
    requires |body| < 0x8000_0000_0000_0000 && s == HeadFor(body)
    ensures |s| > 65 && Number(s, SkipSpaces(s, 65), 0) == |body|
  {
    HeadBytes(body, s);
    BlankBytes();
    assert SkipSpaces(s, 65) == 65;
    var e := 65 + |Decimal(|body|)|;
    assert s[e] == s[|s| - 4..|s|][0];
    NumberReadsDecimal(s, 65, |body|);
  }

  /** Responses sent one after another are told apart again, each with its body. */
  lemma ResponseIsOneFrame(body: seq<Byte>, rest: seq<Byte>)
    requires |HeadFor(body)| + |body| <= MAX_REQUEST
    ensures Frames(HeadFor(body) + body + rest) == [Frame(HeadFor(body), body)] + Frames(rest)
  {
    var h := HeadFor(body);
    var s := h + body + rest;
    ResponseHead(body, s);
    ResponseLength(body);
    assert s[..|h|] == h;
    assert s[|h|..|h| + |body|] == body;
    assert s[|h| + |body|..] == rest;
    assert Whole(s);
    assert FrontFrame(s) == Frame(h, body);
  }

  ghost function Concat(bodies: seq<seq<Byte>>): seq<Byte> {
    if bodies == [] then [] else HeadFor(bodies[0]) + bodies[0] + Concat(bodies[1..])
  }

  ghost function FramesFor(bodies: seq<seq<Byte>>): seq<Frame> {
    if bodies == [] then [] else [Frame(HeadFor(bodies[0]), bodies[0])] + FramesFor(bodies[1..])
  }

  /** A whole stream of responses. */
  lemma {:induction false} ResponsesRoundTrip(bodies: seq<seq<Byte>>)
    requires forall i :: 0 <= i < |bodies| ==> |HeadFor(bodies[i])| + |bodies[i]| <= MAX_REQUEST
    ensures Frames(Concat(bodies)) == FramesFor(bodies)
  {
    if bodies != [] {
      ResponsesRoundTrip(bodies[1..]);
      ResponseIsOneFrame(bodies[0], Concat(bodies[1..]));
    } else {
      assert HeadLen([]) == 0;
    }
  }
}
