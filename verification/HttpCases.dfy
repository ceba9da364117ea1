/** Streams on which the connection loop does not do what it is meant to. */
module HttpCases {
  import opened Bytes
  import opened HttpParsing
  import opened HttpRun
  import HttpResponse
  import RawHttp

  // ----- A path that slides -----

  /** "P / H", without a body. */
  const FIRST: seq<Byte> := [80, 32, 47, 32, 72, 13, 10, 13, 10]

  /** "P /a H" with Content-Length: 4060. */
  const SECOND: seq<Byte> := [80, 32, 47, 97, 32, 72, 13, 10, 67, 111, 110, 116, 101, 110, 116, 45, 76, 101, 110, 103,
                              116, 104, 58, 32,
                              52, 48, 54, 48, 13, 10, 13, 10]

  /** Two requests, pipelined. */
  function Pipelined(body: seq<Byte>): seq<Byte> {
    FIRST + (SECOND + body)
  }

  lemma FirstHead(s: seq<Byte>)
    requires FIRST <= s
    ensures HeadLen(s) == 9 && HeadOf(s) == FIRST
    ensures ContentLength(FIRST) == 0 && SpaceFrom(FIRST, 0) == 1 && PathOf(FIRST) == [47]
  {
    assert s[5] == FIRST[5] && s[6] == FIRST[6] && s[7] == FIRST[7] && s[8] == FIRST[8];
    assert EndAt(s, 5);
    forall i | 0 <= i < 5
      ensures !EndAt(s, i)
    {
      assert s[i] == FIRST[i];
    }
    FirstEndIs(s, 0, 5);
    NoNameNearEnd(FIRST, 0);
    assert SpaceFrom(FIRST, 1) == 1 && SpaceFrom(FIRST, 3) == 3 && SpaceFrom(FIRST, 2) == 3;
  }

  lemma SecondEnd(s: seq<Byte>)
    requires SECOND <= s
    ensures HeadLen(s) == 32 && HeadOf(s) == SECOND
  {
    assert s[28] == SECOND[28] && s[29] == SECOND[29] && s[30] == SECOND[30] && s[31] == SECOND[31];
    assert EndAt(s, 28);
    forall i | 0 <= i < 28
      ensures !EndAt(s, i)
    {
      assert s[i] == SECOND[i] && s[i + 2] == SECOND[i + 2];
    }
    FirstEndIs(s, 0, 28);
  }

  lemma SecondName()
    ensures NameFrom(SECOND, 0) == 8
  {
    forall j | 0 <= j < 8
      ensures !NameAt(SECOND, j)
    {
      FirstLetter(SECOND, j);
    }
    forall k | 0 <= k < 15
      ensures NameByte(SECOND, 8, k)
    {
    }
    HttpResponse.NameFromSkips(SECOND, 0, 8);
  }

  lemma SecondNumber()
    ensures SkipSpaces(SECOND, 24) == 24 && Number(SECOND, 24, 0) == 4060
  {
    assert Number(SECOND, 28, 4060) == 4060;
    assert Number(SECOND, 27, 406) == 4060;
    assert Number(SECOND, 26, 40) == 4060;
    assert Number(SECOND, 25, 4) == 4060;
  }

  lemma SecondLength()
    ensures ContentLength(SECOND) == 4060
  {
    SecondName();
    SecondNumber();
  }

  lemma SecondPath()
    ensures SpaceFrom(SECOND, 0) == 1 && PathEnd(SECOND) == 4 && PathOf(SECOND) == [47, 97]
  {
    SecondStart();
    WordsOf(SECOND);
  }

  lemma SecondStart()
    ensures |SECOND| == 32 && SECOND[0] == 80 && SECOND[1] == 32 && SECOND[2] == 47 && SECOND[3] == 97
            && SECOND[4] == 32
  {
  }

  /** The words of a line that starts "P /a ". */
  lemma WordsOf(s: seq<Byte>)
    requires |s| > 4 && s[0] == 80 && s[1] == 32 && s[2] == 47 && s[3] == 97 && s[4] == 32
    ensures SpaceFrom(s, 0) == 1 && PathEnd(s) == 4 && PathOf(s) == [47, 97]
  {
    assert SpaceFrom(s, 1) == 1;
    assert SpaceFrom(s, 4) == 4 && SpaceFrom(s, 3) == 4 && SpaceFrom(s, 2) == 4;
    assert s[2..4] == [47, 97];
  }

  lemma Pieces(body: seq<Byte>)
    requires |body| == 4060
    ensures |Pipelined(body)| == 4101 && FIRST <= Pipelined(body)
    ensures Pipelined(body)[9..] == SECOND + body && SECOND <= Pipelined(body)[9..]
    ensures Pipelined(body)[4101..] == [] && (SECOND + body)[32..4092] == body
  {
  }

  lemma NothingBetween(s: seq<Byte>, i: nat)
    requires i <= |s|
    ensures s[i..i] == []
  {
  }

  /** The first request, of which a read of 4096 bytes brings all, and nearly all of the second. */
  lemma FirstStep(body: seq<Byte>, plan: nat -> nat, c: Cursor)
    requires |body| == 4060 && Sound(c, 4101) && Start(c) == 0
    requires FillTo(plan, 4101, 9, c) == Cursor(4096, 0, 4096, 4096, 1)
    ensures |Pipelined(body)| == 4101
    ensures var step := StepAt(Pipelined(body), plan, c);
            step.Serve? && step.next == Cursor(4096, 9, 4096, 4096, 1) && step.v.frame == Frame(FIRST, [])
                && step.v.path == [47]
  {
    var s, c1 := Pipelined(body), Cursor(4096, 0, 4096, 4096, 1);
    Pieces(body);
    FirstHead(s);
    assert s[0..] == s;
    RawHttp.WholeFront(s, FIRST, 0);
    NothingBetween(s, 9);
    StepServes(s, plan, c, c1, c1, 9);
    PathIsRight(FIRST, s, 0, 0);
  }

  lemma SecondMiddle()
    ensures |SECOND| == 32 && SECOND[11] == 116 && SECOND[12] == 101
  {
  }

  lemma SlidPath(s: seq<Byte>)
    requires SECOND <= s && |s| == 4092
    ensures RoutedPath(SECOND, s, 9, 4092) == [116, 101]
  {
    SecondPath();
    SecondMiddle();
    var seen := Seen(s, 9, 4092, 32);
    assert seen[2] == s[11] == SECOND[11] && seen[3] == s[12] == SECOND[12];
    assert seen[2..4] == [116, 101];
  }

  /** The second, which is moved to the front before its body is complete. */
  lemma SecondStep(body: seq<Byte>, plan: nat -> nat)
    requires |body| == 4060
    ensures var step := StepAt(Pipelined(body), plan, Cursor(4096, 9, 4096, 4096, 1));
            step.Serve? && step.next.pos == step.next.used == 0 && step.next.at == 4101
            && step.v.frame == Frame(SECOND, body) && step.v.path == [116, 101]
  {
    var s, c := Pipelined(body), Cursor(4096, 9, 4096, 4096, 1);
    Pieces(body);
    SecondEnd(s[9..]);
    SecondLength();
    SecondPath();
    assert FillTo(plan, 4101, 32, c) == c;
    var d := FillTo(plan, 4101, 4092, c);
    assert d.pos == 0 && d.used == 4092 && d.size == 4096;
    StepServes(s, plan, c, c, d, 4092);
    SlidPath(s[9..]);
  }

  lemma RepeatOnce(step: Cursor -> Step, left: nat, c: Cursor)
    requires step(c).Serve? && left > 0
    ensures Repeat(step, left, c).log == [step(c).v] + Repeat(step, left - 1, step(c).next).log
    ensures Repeat(step, left, c).status == Repeat(step, left - 1, step(c).next).status
  {
  }

  lemma NothingLeft(s: seq<Byte>, plan: nat -> nat, left: nat, c: Cursor)
    requires Sound(c, |s|) && Start(c) == |s|
    ensures Repeat(Steps(s, plan), left, c) == Life(Closed, [], c)
  {
    assert HeadLen(s[Start(c)..]) == 0;
  }

  /** Two requests, after which the stream is empty. */
  lemma TwoRequests(s: seq<Byte>, plan: nat -> nat, left: nat, step: Cursor -> Step, c: Cursor, c': Cursor)
    requires step == Steps(s, plan) && left >= 2
    requires step(c).Serve? && step(c).next == c' && step(c').Serve?
    requires Sound(step(c').next, |s|) && Start(step(c').next) == |s|
    ensures Repeat(step, left, c).status == Closed && Repeat(step, left, c).log == [step(c).v, step(c').v]
  {
    RepeatOnce(step, left, c);
    RepeatOnce(step, left - 1, c');
    NothingLeft(s, plan, left - 2, step(c').next);
  }

  /** How the second request comes to be misrouted. */
  ghost predicate Misrouted(l: Life, body: seq<Byte>, route: (seq<Byte>, seq<Byte>) -> seq<Byte>) {
    l.status == Closed && Replies(route, l.log) == [route([47], []), route([116, 101], body)]
  }

  lemma TwoReplies(l: Life, body: seq<Byte>, route: (seq<Byte>, seq<Byte>) -> seq<Byte>, v: Served, w: Served)
    requires l.status == Closed && l.log == [v, w]
    requires v.path == [47] && v.frame == Frame(FIRST, []) && w.path == [116, 101] && w.frame == Frame(SECOND, body)
    ensures Misrouted(l, body, route)
  {
  }

  lemma PipelinedFrom(body: seq<Byte>, plan: nat -> nat, left: nat, c: Cursor,
                      route: (seq<Byte>, seq<Byte>) -> seq<Byte>)
    requires |body| == 4060 && left >= 2 && Sound(c, 4101) && Start(c) == 0
    requires FillTo(plan, 4101, 9, c) == Cursor(4096, 0, 4096, 4096, 1)
    ensures Misrouted(Repeat(Steps(Pipelined(body), plan), left, c), body, route)
  {
    var step := Steps(Pipelined(body), plan);
    FirstStep(body, plan, c);
    var c' := step(c).next;
    SecondStep(body, plan);
    TwoRequests(Pipelined(body), plan, left, step, c, c');
    TwoReplies(Repeat(step, left, c), body, route, step(c).v, step(c').v);
  }

  /** If the first read fills the buffer, the second request is routed under "te", which
      is what slid to where its path "/a" stood, whatever follows that read. */
  lemma MovedPathDiffers(body: seq<Byte>, plan: nat -> nat, writes: nat, route: (seq<Byte>, seq<Byte>) -> seq<Byte>)
    requires |body| == 4060 && writes >= 2 && plan(0) >= 4096
    ensures Misrouted(LifeOf(Pipelined(body), plan, writes, 4096), body, route)
  {
    FirstTurn(plan, 4101);
    FillOnce(plan, 4101, First(4096), 9, Cursor(4096, 0, 4096, 4096, 1));
    PipelinedFrom(body, plan, writes, First(4096), route);
  }

  lemma EmptyStream()
    ensures Frames([]) == [] && Regular([])
  {
    assert HeadLen([]) == 0;
  }

  /** A stream of one regular request. */
  lemma OneFrame(head: seq<Byte>, body: seq<Byte>)
    requires HeadOf(head + body) == head && |head| > 1 && head[1] == 32 && ContentLength(head) == |body|
             && |head| + |body| <= MAX_REQUEST
    ensures Frames(head + body) == [Frame(head, body)] && Regular(head + body)
  {
    var s := head + body;
    assert s[|head|..|s|] == body;
    OneFrameIn(s, head, |body|);
  }

  lemma OneFrameIn(s: seq<Byte>, head: seq<Byte>, n: nat)
    requires HeadOf(s) == head && |head| > 1 && head[1] == 32 && ContentLength(head) == n
    requires |s| == |head| + n <= MAX_REQUEST
    ensures Frames(s) == [Frame(head, s[|head|..|s|])] && Regular(s)
  {
    RawHttp.WholeFront(s, head, n);
    FrameAlone(s);
  }

  lemma FrameAlone(s: seq<Byte>)
    requires Whole(s) && FrameLen(s) == |s| && !Malformed(s)
    ensures Frames(s) == [FrontFrame(s)] && Regular(s)
  {
    assert s[|s|..] == [];
    EmptyStream();
    FramesUnfold(s);
  }

  lemma Front(a: seq<Byte>, b: seq<Byte>)
    ensures a <= a + b
  {
  }

  lemma SecondFrame(body: seq<Byte>)
    requires |body| == 4060
    ensures Frames(SECOND + body) == [Frame(SECOND, body)] && Regular(SECOND + body)
  {
    Front(SECOND, body);
    SecondEnd(SECOND + body);
    SecondLength();
    SecondPath();
    OneFrame(SECOND, body);
  }

  lemma PipelinedFrames(body: seq<Byte>)
    requires |body| == 4060
    ensures Frames(Pipelined(body)) == [Frame(FIRST, []), Frame(SECOND, body)] && Regular(Pipelined(body))
  {
    var s := Pipelined(body);
    Pieces(body);
    FirstHead(s);
    RawHttp.WholeFront(s, FIRST, 0);
    NothingBetween(s, 9);
    FramesUnfold(s);
    SecondFrame(body);
    assert FIRST[1] == 32;
  }

  /** Handed out one by one, the same bytes get the answers the program means to give. */
  lemma OneByOneIsRight(body: seq<Byte>, plan: nat -> nat, writes: nat, route: (seq<Byte>, seq<Byte>) -> seq<Byte>)
    requires |body| == 4060 && writes >= 2 && forall t :: plan(t) == 1
    ensures var l := LifeOf(Pipelined(body), plan, writes, 4096);
            l.status == Closed && Replies(route, l.log) == [route([47], []), route([47, 97], body)]
  {
    PipelinedFrames(body);
    IdealTwo(body, route);
    RegularLife(Pipelined(body), plan, writes, 4096);
    OneByOneStream(Pipelined(body), plan, writes, 4096, route);
  }

  lemma IdealTwo(body: seq<Byte>, route: (seq<Byte>, seq<Byte>) -> seq<Byte>)
    ensures Ideal(route, [Frame(FIRST, []), Frame(SECOND, body)]) == [route([47], []), route([47, 97], body)]
  {
    FirstHead(FIRST);
    SecondPath();
  }

  /** One stream served twice: the answers differ by how the bytes are handed out. */
  method ServeAtOnce(body: seq<Byte>, route: (seq<Byte>, seq<Byte>) -> seq<Byte>) returns (sent: seq<seq<Byte>>)
    requires |body| == 4060
    ensures sent == [route([47], []), route([116, 101], body)]
  {
    var conn := new RawHttp.Conn(Pipelined(body), _ => 8192, 2);
    var buf := new Byte[4096](_ => 0);
    MovedPathDiffers(body, conn.plan, 2, route);
    ghost var l := LifeOf(conn.input, conn.plan, conn.writesOk, buf.Length);
    var status := RawHttp.Serve(conn, route, buf, l);
    return conn.sent;
  }

  method ServeOneByOne(body: seq<Byte>, route: (seq<Byte>, seq<Byte>) -> seq<Byte>) returns (sent: seq<seq<Byte>>)
    requires |body| == 4060
    ensures sent == [route([47], []), route([47, 97], body)]
  {
    var conn := new RawHttp.Conn(Pipelined(body), _ => 1, 2);
    var buf := new Byte[4096](_ => 0);
    OneByOneIsRight(body, conn.plan, 2, route);
    ghost var l := LifeOf(conn.input, conn.plan, conn.writesOk, buf.Length);
    var status := RawHttp.Serve(conn, route, buf, l);
    return conn.sent;
  }

  // ----- A length that wraps -----

  /** A first request that declares a length of 64 bits makes the loop slice out of
      range, however its bytes come. */
  lemma WrappedLengthBreaks(input: seq<Byte>, plan: nat -> nat, writes: nat, size: nat, i: nat, j: nat, n: nat)
    requires (size == 4096 || size == 8192) && HeadLen(input) > 0
    requires HttpResponse.Declares(HeadOf(input), i, j, n) && j > i + 15
    requires 0x8000_0000_0000_0000 <= n < 0x1_0000_0000_0000_0000
    ensures BreaksAtOnce(LifeOf(input, plan, writes, size))
  {
    HttpResponse.DeclaredLengthWraps(HeadOf(input), i, j, n);
    assert Frames(input) == [];
    NegativeLengthBreaks(input, plan, writes, size);
  }

  /** Such a request: nothing but "Content-Length: ", the number and a blank line. */
  function Wrapped(n: nat): seq<Byte> {
    HttpResponse.LENGTH + (HttpResponse.Decimal(n) + HttpResponse.BLANK)
  }

  lemma WrappedBytes(n: nat, d: nat)
    requires n < 0x1_0000_0000_0000_0000 && d == |HttpResponse.Decimal(n)|
    ensures d <= 20 && |Wrapped(n)| == 20 + d
    ensures forall k :: 0 <= k < 16 ==> Wrapped(n)[k] == HttpResponse.LENGTH[k]
    ensures Wrapped(n)[16..16 + d] == HttpResponse.Decimal(n)
    ensures forall k :: 16 <= k < 16 + d ==> IsDigit(Wrapped(n)[k])
    ensures forall k :: 0 <= k < 4 ==> Wrapped(n)[16 + d + k] == HttpResponse.BLANK[k]
  {
    HttpResponse.TenToTheSixteenth();
    assert HttpResponse.Power10(20) == 10000 * HttpResponse.Power10(16);
    HttpResponse.DecimalLength(n, 20);
  }

  lemma WrappedEnd(s: seq<Byte>, e: nat)
    requires |s| == e + 4 <= MAX_REQUEST && (forall k :: 0 <= k < e ==> s[k] != 13)
    requires s[e] == 13 && s[e + 1] == 10 && s[e + 2] == 13 && s[e + 3] == 10
    ensures HeadLen(s) == |s| && HeadOf(s) == s
  {
    assert EndAt(s, e);
    FirstEndIs(s, 0, e);
  }

  lemma WrappedName(s: seq<Byte>)
    requires |s| > 16 && forall k :: 0 <= k < 16 ==> s[k] == HttpResponse.LENGTH[k]
    ensures NameFrom(s, 0) == 0
  {
    HttpResponse.LengthBytes();
    forall k | 0 <= k < 15
      ensures NameByte(s, 0, k)
    {
      assert s[k] == HttpResponse.LENGTH[k];
    }
  }

  lemma WrappedHead(n: nat)
    requires n < 0x1_0000_0000_0000_0000
    ensures HeadLen(Wrapped(n)) == |Wrapped(n)| && HeadOf(Wrapped(n)) == Wrapped(n)
    ensures HttpResponse.Declares(Wrapped(n), 0, 16, n)
  {
    var s, d: nat := Wrapped(n), |HttpResponse.Decimal(n)|;
    WrappedBytes(n, d);
    HttpResponse.LengthBytes();
    HttpResponse.BlankBytes();
    assert s[16 + d + 0] == 13 && s[16 + d + 1] == 10 && s[16 + d + 2] == 13 && s[16 + d + 3] == 10;
    assert s[15] == HttpResponse.LENGTH[15];
    WrappedEnd(s, 16 + d);
    WrappedName(s);
  }

  /** So there are such streams. */
  lemma WrappedBreaks(n: nat, plan: nat -> nat, writes: nat, size: nat)
    requires (size == 4096 || size == 8192) && 0x8000_0000_0000_0000 <= n < 0x1_0000_0000_0000_0000
    ensures BreaksAtOnce(LifeOf(Wrapped(n), plan, writes, size))
  {
    WrappedHead(n);
    WrappedLengthBreaks(Wrapped(n), plan, writes, size, 0, 16, n);
  }
}
