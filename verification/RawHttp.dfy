/** The connection loop: one growing buffer, pipelined requests, arbitrary reads. */
module RawHttp {
  import opened Bytes
  import opened HttpParsing
  import opened HttpRun

  /** A connection. input is everything the peer gets through before its end is
      reached or a read fails; plan says how much each read hands out; the first
      writesOk writes succeed. */
  class Conn {
    const input: seq<Byte>
    const plan: nat -> nat
    const writesOk: nat
    var at: nat
    var turns: nat
    var sent: seq<seq<Byte>>

    constructor (input: seq<Byte>, plan: nat -> nat, writesOk: nat)
      ensures this.input == input && this.plan == plan && this.writesOk == writesOk
      ensures at == 0 && turns == 0 && sent == []
    {
      this.input, this.plan, this.writesOk := input, plan, writesOk;
      at, turns, sent := 0, 0, [];
    }

    /** Fills buf from position from on with one to all of the bytes that fit, or
        reports the end by 0. The room offered is never empty. */
    method Read(buf: array<Byte>, from: nat) returns (n: nat)
      requires at <= |input| && from < buf.Length
      modifies this`at, this`turns, buf
      ensures n == Given(plan, old(turns), |input| - old(at), buf.Length - from) && turns == old(turns) + 1
      ensures n == 0 <==> old(at) == |input|
      ensures at == old(at) + n <= |input| && from + n <= buf.Length
      ensures forall k :: from <= k < from + n ==> buf[k] == input[old(at) + k - from]
      ensures forall k :: 0 <= k < from || from + n <= k < buf.Length ==> buf[k] == old(buf[k])
    {
      n := Given(plan, turns, |input| - at, buf.Length - from);
      for k := 0 to n
        invariant at == old(at) && turns == old(turns)
        invariant forall l :: from <= l < from + k ==> buf[l] == input[at + l - from]
        invariant forall l :: 0 <= l < from || from + k <= l < buf.Length ==> buf[l] == old(buf[l])
      {
        buf[from + k] := input[at + k];
      }
      at, turns := at + n, turns + 1;
    }

    method Write(resp: seq<Byte>) returns (ok: bool)
      modifies this`sent
      ensures ok <==> |old(sent)| < writesOk
      ensures sent == if ok then old(sent) + [resp] else old(sent)
    {
      ok := |sent| < writesOk;
      if ok {
        sent := sent + [resp];
      }
    }
  }

  ghost function Here(conn: Conn, buf: array<Byte>, pos: nat, used: nat): Cursor
    reads conn
  {
    Cursor(buf.Length, pos, used, conn.at, conn.turns)
  }

  /** buf[pos..used] holds the bytes received since stream position start. */
  ghost predicate View(conn: Conn, buf: array<Byte>, pos: nat, used: nat, start: nat)
    reads conn, buf
  {
    && Sound(Here(conn, buf, pos, used), |conn.input|)
    && start == Start(Here(conn, buf, pos, used))
    && buf[pos..used] == conn.input[start..conn.at]
  }

  ghost predicate Holding(conn: Conn, buf: array<Byte>, pos: nat, used: nat)
    reads conn, buf
  {
    Sound(Here(conn, buf, pos, used), |conn.input|) && View(conn, buf, pos, used, Start(Here(conn, buf, pos, used)))
  }

  /** Moves buf[pos..used] to the front. */
  method CopyDown(buf: array<Byte>, pos: nat, used: nat)
    requires pos <= used <= buf.Length
    modifies buf
    ensures buf[..used - pos] == old(buf[pos..used])
    ensures buf[used - pos..] == old(buf[used - pos..])
  {
    for k := 0 to used - pos
      invariant forall l :: 0 <= l < k ==> buf[l] == old(buf[pos + l])
      invariant forall l :: k <= l < buf.Length ==> buf[l] == old(buf[l])
    {
      buf[k] := buf[pos + k];
    }
  }

  method Grow(buf: array<Byte>, used: nat) returns (nb: array<Byte>)
    requires used <= buf.Length
    ensures fresh(nb) && nb.Length == 2 * buf.Length && nb[..used] == buf[..used]
  {
    nb := new Byte[2 * buf.Length](_ => 0);
    for k := 0 to used
      invariant forall l :: 0 <= l < k ==> nb[l] == buf[l]
    {
      nb[k] := buf[k];
    }
  }

  /** Reads more after the bytes held, which must leave room. */
  method ReadMore(conn: Conn, buf: array<Byte>, pos: nat, used: nat, ghost start: nat) returns (n: nat)
    requires View(conn, buf, pos, used, start) && used < buf.Length
    modifies conn`at, conn`turns, buf
    ensures View(conn, buf, pos, used + n, start)
    ensures Here(conn, buf, pos, used + n) == Fetch(conn.plan, |conn.input|, old(Here(conn, buf, pos, used)))
    ensures n == 0 <==> old(conn.at) == |conn.input|
    ensures conn.at == old(conn.at) + n
    ensures forall k :: 0 <= k < used || used + n <= k < buf.Length ==> buf[k] == old(buf[k])
  {
    n := conn.Read(buf, used);
    assert buf[pos..used] == old(buf[pos..used]);
    assert buf[used..used + n] == conn.input[old(conn.at)..conn.at];
    assert buf[pos..used + n] == buf[pos..used] + buf[used..used + n];
    assert conn.input[start..conn.at] == conn.input[start..old(conn.at)] + conn.input[old(conn.at)..conn.at];
  }

  /** Moves what is held to the front of the buffer. */
  method Compact(conn: Conn, buf: array<Byte>, pos: nat, used: nat, ghost start: nat)
    requires View(conn, buf, pos, used, start)
    modifies buf
    ensures View(conn, buf, 0, used - pos, start)
    ensures buf[..] == old(buf[pos..used]) + old(buf[used - pos..])
  {
    CopyDown(buf, pos, used);
    assert buf[0..used - pos] == buf[..used - pos];
    assert buf[..] == buf[..used - pos] + buf[used - pos..];
  }

  /** Makes room after a full buffer: compact if there is leftover room in front,
      else grow if the limit allows. */
  method MakeRoom(conn: Conn, buf: array<Byte>, pos: nat, used: nat, ghost start: nat)
    returns (ok: bool, buf': array<Byte>, pos': nat, used': nat)
    requires View(conn, buf, pos, used, start)
    modifies buf
    ensures ok ==> View(conn, buf', pos', used', start) && used' < buf'.Length
    ensures ok ==> Here(conn, buf', pos', used') == Room(old(Here(conn, buf, pos, used)))
    ensures !ok ==> pos == 0 && used == MAX_REQUEST
    ensures buf' == buf || (fresh(buf') && pos == pos' == 0 && used == buf.Length)
    ensures used < buf.Length || pos == 0 ==> buf[..] == old(buf[..]) && pos' == pos
    ensures used == buf.Length && pos > 0 ==>
              buf' == buf && pos' == 0 && buf[..] == old(buf[pos..used]) + old(buf[used - pos..])
  {
    ok, buf', pos', used' := true, buf, pos, used;
    if used == buf.Length {
      if pos > 0 {
        Compact(conn, buf, pos, used, start);
        used', pos' := used - pos, 0;
      } else if used >= MAX_REQUEST {
        ok := false;
      } else {
        buf' := Grow(buf, used);
        assert buf'[0..used] == buf'[..used] == buf[0..used];
      }
    }
  }

  /** From here the bytes needed will all have been read at cursor d. */
  ghost predicate Aims(plan: nat -> nat, len: nat, need: nat, c: Cursor, d: Cursor) {
    Sound(c, len) && need <= MAX_REQUEST && FillTo(plan, len, need, c) == d
  }

  lemma StillAims(plan: nat -> nat, len: nat, need: nat, c: Cursor, d: Cursor)
    requires Aims(plan, len, need, c, d) && c.used - c.pos < need && c.at < len
    ensures Aims(plan, len, need, Turn(plan, len, c), d)
  {
  }

  /** Reads until the head of the request at pos is complete. */
  method FindHead(conn: Conn, buf0: array<Byte>, pos0: nat, used0: nat, ghost start: nat)
    returns (ok: bool, buf: array<Byte>, pos: nat, used: nat, headEnd: nat)
    requires View(conn, buf0, pos0, used0, start)
    modifies conn`at, conn`turns, buf0
    ensures buf == buf0 || fresh(buf)
    ensures ok ==> View(conn, buf, pos, used, start) && pos < headEnd <= used
                   && HeadLen(conn.input[start..]) == headEnd - pos
    ensures ok ==> Here(conn, buf, pos, used) == AtHead(conn.input, conn.plan, old(Here(conn, buf0, pos0, used0)))
    ensures !ok ==> HeadLen(conn.input[start..]) == 0
  {
    ok, buf, pos, used, headEnd := false, buf0, pos0, used0, 0;
    ghost var s, d := conn.input[start..], AtHead(conn.input, conn.plan, Here(conn, buf0, pos0, used0));
    ghost var need := HeadLen(s);
    while true
      invariant View(conn, buf, pos, used, start)
      invariant buf == buf0 || fresh(buf)
      invariant need > 0 ==> Aims(conn.plan, |conn.input|, need, Here(conn, buf, pos, used), d)
      decreases |conn.input| - conn.at
    {
      ghost var p := buf[pos..used];
      assert p == s[..conn.at - start];
      var idx := IndexHeaderEnd(buf, pos, used);
      if idx >= 0 {
        HeadLenOfPrefix(s, p, idx);
        headEnd, ok := pos + idx + 4, true;
        return;
      }
      NoHeadInside(s, p);
      var n;
      n, buf, pos, used := HeadTurn(conn, buf, pos, used, start, need, d);
      if n == 0 {
        NoHeadInBuffer(s, p);
        return;
      }
    }
  }

  /** One turn of the head loop: make room, read. Reports 0 if no room can be made or
      nothing is left. */
  method HeadTurn(conn: Conn, buf: array<Byte>, pos: nat, used: nat, ghost start: nat, ghost need: nat, ghost d: Cursor)
    returns (n: nat, buf': array<Byte>, pos': nat, used': nat)
    requires View(conn, buf, pos, used, start)
    requires need > 0 ==> used - pos < need && Aims(conn.plan, |conn.input|, need, Here(conn, buf, pos, used), d)
    modifies conn`at, conn`turns, buf
    ensures buf' == buf || fresh(buf')
    ensures n == 0 ==> old(conn.at) == |conn.input| || used - pos == MAX_REQUEST
    ensures n > 0 ==> View(conn, buf', pos', used', start) && old(conn.at) < conn.at
    ensures n > 0 && need > 0 ==> Aims(conn.plan, |conn.input|, need, Here(conn, buf', pos', used'), d)
  {
    ghost var c := Here(conn, buf, pos, used);
    n, buf', pos', used' := RoomAndRead(conn, buf, pos, used, start, c);
    if n > 0 && need > 0 {
      StillAims(conn.plan, |conn.input|, need, c, d);
    }
  }

  method RoomAndRead(conn: Conn, buf: array<Byte>, pos: nat, used: nat, ghost start: nat, ghost c: Cursor)
    returns (n: nat, buf': array<Byte>, pos': nat, used': nat)
    requires View(conn, buf, pos, used, start) && c == Here(conn, buf, pos, used)
    modifies conn`at, conn`turns, buf
    ensures buf' == buf || fresh(buf')
    ensures n == 0 ==> c.at == |conn.input| || used - pos == MAX_REQUEST
    ensures n > 0 ==> View(conn, buf', pos', used', start) && c.at < conn.at
    ensures n > 0 ==> Here(conn, buf', pos', used') == Turn(conn.plan, |conn.input|, c)
  {
    var roomy;
    roomy, buf', pos', used' := HeadRoom(conn, buf, pos, used, start, c);
    if !roomy {
      return 0, buf, pos, used;
    }
    n := ReadAfterRoom(conn, buf', pos', used', start, c);
    used' := used' + n;
  }

  method ReadAfterRoom(conn: Conn, buf: array<Byte>, pos: nat, used: nat, ghost start: nat, ghost c: Cursor)
    returns (n: nat)
    requires View(conn, buf, pos, used, start) && used < buf.Length
    requires Sound(c, |conn.input|) && Here(conn, buf, pos, used) == Room(c)
    modifies conn`at, conn`turns, buf
    ensures View(conn, buf, pos, used + n, start) && conn.at == c.at + n
    ensures n == 0 <==> c.at == |conn.input|
    ensures Here(conn, buf, pos, used + n) == Turn(conn.plan, |conn.input|, c)
  {
    n := ReadMore(conn, buf, pos, used, start);
  }

  /** Room to read, whatever becomes of the bytes not held. */
  method HeadRoom(conn: Conn, buf: array<Byte>, pos: nat, used: nat, ghost start: nat, ghost c: Cursor)
    returns (ok: bool, buf': array<Byte>, pos': nat, used': nat)
    requires View(conn, buf, pos, used, start) && c == Here(conn, buf, pos, used)
    modifies buf
    ensures ok ==> View(conn, buf', pos', used', start) && used' < buf'.Length
    ensures ok ==> Here(conn, buf', pos', used') == Room(c)
    ensures !ok ==> used - pos == MAX_REQUEST
    ensures buf' == buf || fresh(buf')
  {
    ok, buf', pos', used' := MakeRoom(conn, buf, pos, used, start);
  }

  // ----- The body -----

  /** What bytes pos..headEnd of the buffer object that held the head show once the
      body is complete. r is the stream from the start of the request. Unless the
      buffer was compacted meanwhile they are the head; after a compaction the
      first slid bytes of the object show the request from its start. */
  ghost predicate Overlaid(old_: seq<Byte>, r: seq<Byte>, pos: nat, headEnd: nat, slid: nat) {
    && headEnd <= |old_| && pos <= headEnd && headEnd - pos <= |r|
    && slid <= |r|
    && old_[pos..headEnd] == Seen(r, pos, slid, headEnd - pos)
  }

  /** How far the cursors have come since the head was found at pos0..headEnd0 of
      buf0, with need bytes of request in all. */
  ghost predicate Underway(conn: Conn, buf0: array<Byte>, buf: array<Byte>, pos0: nat, headEnd0: nat, need: nat,
                           pos: nat, used: nat, start: nat, slid: nat)
    reads conn, buf0, buf
  {
    && View(conn, buf, pos, used, start)
    && 4096 <= buf0.Length && pos0 < headEnd0 <= buf0.Length && headEnd0 - pos0 <= used - pos
    && (if slid > 0 then pos == 0 && pos0 > 0 && pos0 + need > buf0.Length else pos == pos0)
    && (buf == buf0 && slid > 0 ==> slid == used)
    && (buf != buf0 ==> pos == 0 && buf.Length == 2 * buf0.Length && (slid > 0 ==> slid == buf0.Length))
    && Overlaid(buf0[..], conn.input[start..], pos0, headEnd0, slid)
  }

  /** Byte by byte. */
  lemma OverlaidBytes(old_: seq<Byte>, r: seq<Byte>, pos: nat, headEnd: nat, slid: nat)
    requires pos <= headEnd <= |old_| && headEnd - pos <= |r| && slid <= |r|
    ensures Overlaid(old_, r, pos, headEnd, slid) <==>
            forall k {:trigger old_[k]} :: pos <= k < headEnd ==> old_[k] == Shown(r, pos, slid, k - pos)
  {
    var a, b := old_[pos..headEnd], Seen(r, pos, slid, headEnd - pos);
    if a == b {
      forall k | pos <= k < headEnd
        ensures old_[k] == Shown(r, pos, slid, k - pos)
      {
        assert old_[k] == a[k - pos];
      }
    }
    if forall k {:trigger old_[k]} :: pos <= k < headEnd ==> old_[k] == Shown(r, pos, slid, k - pos) {
      forall i | 0 <= i < headEnd - pos
        ensures a[i] == b[i]
      {
        assert a[i] == old_[pos + i];
      }
    }
  }

  lemma CompactedOverlay(old_: seq<Byte>, new_: seq<Byte>, r: seq<Byte>, pos: nat, used: nat, headEnd: nat)
    requires 0 < pos <= headEnd <= used == |old_| && used - pos <= |r| && old_[pos..used] == r[..used - pos]
    requires new_ == old_[pos..used] + old_[used - pos..]
    ensures Overlaid(new_, r, pos, headEnd, used - pos)
  {
    forall k | pos <= k < headEnd
      ensures new_[k] == Shown(r, pos, used - pos, k - pos)
    {
      if k < used - pos {
        assert new_[k] == old_[pos..used][k];
      } else {
        assert new_[k] == old_[k] == old_[pos..used][k - pos];
      }
    }
    OverlaidBytes(new_, r, pos, headEnd, used - pos);
  }

  /** One turn of the body loop: make room, read. */
  method BodyTurn(conn: Conn, buf0: array<Byte>, buf: array<Byte>, ghost pos0: nat, ghost headEnd0: nat,
                  ghost need: nat, pos: nat, used: nat, ghost start: nat, ghost slid: nat, ghost d: Cursor)
    returns (n: nat, buf': array<Byte>, pos': nat, used': nat, ghost slid': nat)
    requires Underway(conn, buf0, buf, pos0, headEnd0, need, pos, used, start, slid)
    requires used - pos < need && Aims(conn.plan, |conn.input|, need, Here(conn, buf, pos, used), d)
    modifies conn`at, conn`turns, buf0, buf
    ensures buf' == buf || fresh(buf')
    ensures Underway(conn, buf0, buf', pos0, headEnd0, need, pos', used', start, slid')
    ensures n > 0 ==> Aims(conn.plan, |conn.input|, need, Here(conn, buf', pos', used'), d)
    ensures n == 0 <==> old(conn.at) == |conn.input|
    ensures conn.at == old(conn.at) + n
  {
    ghost var c := Here(conn, buf, pos, used);
    buf', pos', used', slid' := BodyRoom(conn, buf0, buf, pos0, headEnd0, need, pos, used, start, slid);
    n, used', slid' := ReadOver(conn, buf0, buf', pos0, headEnd0, need, pos', used', start, slid');
    if n > 0 {
      StillAims(conn.plan, |conn.input|, need, c, d);
    }
  }

  /** Room to read, and what the bytes of the head show then. */
  method BodyRoom(conn: Conn, buf0: array<Byte>, buf: array<Byte>, ghost pos0: nat, ghost headEnd0: nat,
                  ghost need: nat, pos: nat, used: nat, ghost start: nat, ghost slid: nat)
    returns (buf': array<Byte>, pos': nat, used': nat, ghost slid': nat)
    requires Underway(conn, buf0, buf, pos0, headEnd0, need, pos, used, start, slid)
    requires used - pos < need <= MAX_REQUEST
    modifies buf0, buf
    ensures buf' == buf || fresh(buf')
    ensures Underway(conn, buf0, buf', pos0, headEnd0, need, pos', used', start, slid') && used' < buf'.Length
    ensures Here(conn, buf', pos', used') == Room(old(Here(conn, buf, pos, used)))
  {
    ghost var r, was := conn.input[start..], buf[..];
    assert buf[pos..used] == r[..used - pos] by {
      assert conn.input[start..conn.at] == r[..used - pos];
    }
    var ok;
    ok, buf', pos', used' := MakeRoom(conn, buf, pos, used, start);
    slid' := slid;
    if used == buf.Length && pos > 0 {
      CompactedOverlay(was, buf[..], r, pos, used, headEnd0);
      slid' := used';
    }
  }

  /** Reads after room was made. */
  method ReadOver(conn: Conn, buf0: array<Byte>, buf: array<Byte>, ghost pos0: nat, ghost headEnd0: nat,
                  ghost need: nat, pos: nat, used: nat, ghost start: nat, ghost slid: nat)
    returns (n: nat, used': nat, ghost slid': nat)
    requires Underway(conn, buf0, buf, pos0, headEnd0, need, pos, used, start, slid) && used < buf.Length
    modifies conn`at, conn`turns, buf
    ensures Underway(conn, buf0, buf, pos0, headEnd0, need, pos, used', start, slid')
    ensures Here(conn, buf, pos, used') == Fetch(conn.plan, |conn.input|, old(Here(conn, buf, pos, used)))
    ensures n == 0 <==> old(conn.at) == |conn.input|
    ensures conn.at == old(conn.at) + n
  {
    ghost var mid := buf0[..];
    n := ReadMore(conn, buf, pos, used, start);
    used' := used + n;
    slid' := if slid > 0 && buf == buf0 then used' else slid;
    StillOverlaid(conn, buf0, buf, mid, pos0, headEnd0, pos, used, used', start, slid, slid');
  }

  lemma StillOverlaid(conn: Conn, buf0: array<Byte>, buf: array<Byte>, mid: seq<Byte>, pos0: nat, headEnd0: nat,
                      pos: nat, used: nat, used': nat, start: nat, slid: nat, slid': nat)
    requires View(conn, buf, pos, used', start) && used <= used' && pos <= used
    requires Overlaid(mid, conn.input[start..], pos0, headEnd0, slid) && |mid| == buf0.Length
    requires headEnd0 - pos0 <= used - pos && pos0 <= headEnd0
    requires if buf == buf0 then forall k :: 0 <= k < used || used' <= k < buf.Length ==> buf0[k] == mid[k]
             else buf0[..] == mid
    requires if slid > 0 then pos == 0 else pos == pos0
    requires if slid > 0 && buf == buf0 then slid == used && slid' == used' else slid' == slid
    ensures Overlaid(buf0[..], conn.input[start..], pos0, headEnd0, slid')
  {
    ghost var r := conn.input[start..];
    OverlaidBytes(mid, r, pos0, headEnd0, slid);
    forall k | pos0 <= k < headEnd0
      ensures buf0[k] == Shown(r, pos0, slid', k - pos0)
    {
      assert buf == buf0 && used <= k < used' ==>
               buf0[k] == buf[pos..used'][k - pos] == conn.input[start..conn.at][k - pos];
    }
    OverlaidBytes(buf0[..], r, pos0, headEnd0, slid');
  }

  /** Reads until the body is complete. The buffer is compacted exactly when the
      request does not start at its front and would not end inside it. */
  method ReadBody(conn: Conn, buf0: array<Byte>, pos0: nat, used0: nat, headEnd0: nat, bodyEnd0: nat, ghost start: nat,
                  ghost c: Cursor, ghost need: nat, ghost d: Cursor)
    returns (ok: bool, buf: array<Byte>, pos: nat, used: nat, headEnd: nat, bodyEnd: nat, ghost slid: nat)
    requires View(conn, buf0, pos0, used0, start) && c == Here(conn, buf0, pos0, used0)
    requires need == bodyEnd0 - pos0 && Aims(conn.plan, |conn.input|, need, c, d)
    requires pos0 < headEnd0 <= used0 && headEnd0 <= bodyEnd0 <= pos0 + MAX_REQUEST
    modifies conn`at, conn`turns, buf0
    ensures buf == buf0 || fresh(buf)
    ensures ok ==> View(conn, buf, pos, used, start) && pos <= headEnd <= bodyEnd <= used
    ensures ok ==> headEnd - pos == headEnd0 - pos0 && bodyEnd - pos == bodyEnd0 - pos0
    ensures ok ==> Here(conn, buf, pos, used) == d
    ensures ok ==> slid == Slid(c, d, need)
    ensures ok ==> Overlaid(buf0[..], conn.input[start..], pos0, headEnd0, slid)
    ensures !ok ==> conn.at == |conn.input| < start + (bodyEnd0 - pos0)
  {
    HeadOverlaid(conn, buf0, pos0, used0, headEnd0, start);
    ok, buf, pos, used, headEnd, bodyEnd, slid := BodyLoop(conn, buf0, pos0, used0, headEnd0, bodyEnd0, start, need, d);
    if ok {
      SlidSays(c, d, need, slid, buf == buf0);
    }
  }

  /** What the loop knows about the bytes that slid is how the model counts them. */
  lemma SlidSays(c: Cursor, d: Cursor, need: nat, slid: nat, same: bool)
    requires d.pos + need <= d.used <= d.size
    requires slid > 0 ==> Moves(c.pos, c.size, need)
    requires slid == 0 ==> c.pos == d.pos
    requires same ==> d.size == c.size && (slid > 0 ==> slid == d.used)
    requires !same ==> d.size == 2 * c.size > 0 && d.pos == 0 && (slid > 0 ==> slid == c.size)
    ensures slid == Slid(c, d, need)
  {
  }

  method BodyLoop(conn: Conn, buf0: array<Byte>, pos0: nat, used0: nat, headEnd0: nat, bodyEnd0: nat, ghost start: nat,
                  ghost need: nat, ghost d: Cursor)
    returns (ok: bool, buf: array<Byte>, pos: nat, used: nat, headEnd: nat, bodyEnd: nat, ghost slid: nat)
    requires Underway(conn, buf0, buf0, pos0, headEnd0, need, pos0, used0, start, 0) && bodyEnd0 - pos0 == need
    requires Aims(conn.plan, |conn.input|, need, Here(conn, buf0, pos0, used0), d)
    modifies conn`at, conn`turns, buf0
    ensures buf == buf0 || fresh(buf)
    ensures Underway(conn, buf0, buf, pos0, headEnd0, need, pos, used, start, slid)
    ensures headEnd - pos == headEnd0 - pos0 && bodyEnd - pos == need
    ensures ok ==> bodyEnd <= used && Here(conn, buf, pos, used) == d
    ensures !ok ==> conn.at == |conn.input| && used < bodyEnd
  {
    ok, buf, pos, used, headEnd, bodyEnd := false, buf0, pos0, used0, headEnd0, bodyEnd0;
    slid := 0;
    while used < bodyEnd
      invariant Underway(conn, buf0, buf, pos0, headEnd0, need, pos, used, start, slid)
      invariant buf == buf0 || fresh(buf)
      invariant headEnd - pos == headEnd0 - pos0 && bodyEnd - pos == need
      invariant Aims(conn.plan, |conn.input|, need, Here(conn, buf, pos, used), d)
      decreases |conn.input| - conn.at
    {
      var n;
      n, buf, pos, used, slid := BodyTurn(conn, buf0, buf, pos0, headEnd0, need, pos, used, start, slid, d);
      headEnd, bodyEnd := headEnd0 - pos0 + pos, bodyEnd0 - pos0 + pos;
      if n == 0 {
        return;
      }
    }
    ok := true;
  }

  lemma HeadOverlaid(conn: Conn, buf: array<Byte>, pos: nat, used: nat, headEnd: nat, start: nat)
    requires View(conn, buf, pos, used, start) && pos <= headEnd <= used
    ensures Overlaid(buf[..], conn.input[start..], pos, headEnd, 0)
  {
    ghost var r := conn.input[start..];
    forall k | pos <= k < headEnd
      ensures buf[..][k] == Shown(r, pos, 0, k - pos)
    {
      assert buf[..][k] == buf[pos..used][k - pos] == conn.input[start..conn.at][k - pos];
    }
    OverlaidBytes(buf[..], r, pos, headEnd, 0);
  }

  // ----- The request line, and what the routed path shows -----

  /** Offsets of the path within the head, and the content length. Without any space
      both offsets are one past the head. */
  method ParseRequestLine(head: seq<Byte>) returns (pathStart: nat, pathEnd: nat, contentLen: int)
    ensures pathStart == SpaceFrom(head, 0) + 1
    ensures pathEnd == if pathStart <= |head| then SpaceFrom(head, pathStart) else pathStart
    ensures contentLen == ContentLength(head)
  {
    var i: nat := 0;
    while i < |head| && head[i] != 32
      invariant i <= |head| && SpaceFrom(head, i) == SpaceFrom(head, 0)
    {
      i := i + 1;
    }
    i := i + 1;
    pathStart := i;
    while i < |head| && head[i] != 32
      invariant pathStart <= i
      invariant if pathStart <= |head| then i <= |head| && SpaceFrom(head, i) == SpaceFrom(head, pathStart)
                else i == pathStart
    {
      i := i + 1;
    }
    pathEnd := i;
    contentLen := FindContentLength(head);
  }

  /** The path slice of a head that was found at pos..headEnd of a buffer now showing
      old_: the view is into the buffer itself. */
  lemma PathShown(old_: seq<Byte>, r: seq<Byte>, head: seq<Byte>, pos: nat, headEnd: nat, pathStart: nat, pathEnd: nat,
                  slid: nat, path: seq<Byte>)
    requires headEnd == pos + |head| && head <= r && Overlaid(old_, r, pos, headEnd, slid)
    requires pathStart == SpaceFrom(head, 0) + 1
    requires pathEnd == if pathStart <= |head| then SpaceFrom(head, pathStart) else pathStart
    requires path == if pathStart <= |head| then old_[pos + pathStart..pos + pathEnd] else []
    ensures path == RoutedPath(head, r, pos, slid)
  {
    if pathStart <= |head| {
      SliceOfSlice(old_, pos, headEnd, pathStart, pathEnd);
    }
  }

  lemma ViewSlice(conn: Conn, buf: array<Byte>, pos: nat, used: nat, start: nat, a: nat, b: nat)
    requires View(conn, buf, pos, used, start) && pos <= a <= b <= used
    ensures start <= |conn.input| && b - pos <= |conn.input[start..]|
    ensures buf[a..b] == conn.input[start..][a - pos..b - pos]
  {
    SliceOfSlice(buf[..], pos, used, a - pos, b - pos);
    SliceOfSlice(conn.input, start, conn.at, a - pos, b - pos);
    SliceOfSlice(conn.input, start, |conn.input|, a - pos, b - pos);
    assert buf[..][pos..used] == buf[pos..used] && buf[..][a..b] == buf[a..b];
    assert conn.input[start..|conn.input|] == conn.input[start..];
  }

  lemma SliceOfSlice<T>(s: seq<T>, a: nat, b: nat, c: nat, d: nat)
    requires a <= b <= |s| && c <= d <= b - a
    ensures s[a..b][c..d] == s[a + c..a + d]
  {
    var x, y := s[a..b][c..d], s[a + c..a + d];
    assert |x| == |y|;
    forall i | 0 <= i < |x|
      ensures x[i] == y[i]
    {
      assert x[i] == s[a..b][c + i] == s[a + (c + i)];
    }
    assert x == y;
  }

  /** What the path slice shows of the buffer it was taken from. */
  method PathBytes(buf: array<Byte>, pos: nat, headEnd: nat, pathStart: nat, pathEnd: nat, ghost head: seq<Byte>,
                   ghost r: seq<Byte>, ghost slid: nat)
    returns (path: seq<Byte>)
    requires headEnd == pos + |head| <= buf.Length && head <= r && Overlaid(buf[..], r, pos, headEnd, slid)
    requires pathStart == SpaceFrom(head, 0) + 1
    requires pathEnd == if pathStart <= |head| then SpaceFrom(head, pathStart) else pathStart
    ensures slid <= |r| && path == RoutedPath(head, r, pos, slid)
  {
    path := if pathStart <= headEnd - pos then buf[pos + pathStart..pos + pathEnd] else [];
    PathShown(buf[..], r, head, pos, headEnd, pathStart, pathEnd, slid, path);
  }

  /** Where the cursors stand after a request ending at bodyEnd was answered. */
  method Advance(ghost conn: Conn, ghost buf: array<Byte>, ghost pos0: nat, used0: nat, bodyEnd: nat, ghost start: nat)
    returns (pos: nat, used: nat)
    requires View(conn, buf, pos0, used0, start) && pos0 + 4 <= bodyEnd <= used0
    ensures View(conn, buf, pos, used, start + (bodyEnd - pos0))
    ensures Here(conn, buf, pos, used) == Past(Here(conn, buf, pos0, used0), bodyEnd - pos0)
  {
    pos, used := bodyEnd, used0;
    assert buf[bodyEnd..used0] == conn.input[start + (bodyEnd - pos0)..conn.at] by {
      SliceOfSlice(buf[..], pos0, used0, bodyEnd - pos0, used0 - pos0);
      SliceOfSlice(conn.input, start, conn.at, bodyEnd - pos0, used0 - pos0);
      assert buf[..][pos0..used0] == buf[pos0..used0] && buf[..][bodyEnd..used0] == buf[bodyEnd..used0];
    }
    if pos == used {
      pos, used := 0, 0;
    }
  }

  /** The head at the front of the stream, as the buffer shows it. */
  lemma HeadShown(conn: Conn, buf: array<Byte>, pos: nat, used: nat, headEnd: nat, start: nat)
    requires View(conn, buf, pos, used, start) && pos < headEnd <= used && HeadLen(conn.input[start..]) == headEnd - pos
    ensures start <= |conn.input| && buf[pos..headEnd] == conn.input[start..][..HeadLen(conn.input[start..])]
  {
    ViewSlice(conn, buf, pos, used, start, pos, headEnd);
  }

  // ----- The loop -----

  /** What one turn of the loop did, if step is what it was to do: where it left the
      cursors and what it sent. */
  ghost predicate Took(step: Step, status: Status, here: Cursor, before: seq<seq<Byte>>, sent: seq<seq<Byte>>,
                       writesOk: nat, route: (seq<Byte>, seq<Byte>) -> seq<Byte>)
  {
    match step
    case Stop(why) => status == why && sent == before
    case Serve(v, next) =>
      if |before| < writesOk then status == Answered && here == next && sent == before + [route(v.path, v.frame.body)]
      else status == WriteFailed && sent == before
  }

  /** The slices the loop takes are in range exactly if it does not break. */
  lemma BreaksHere(head: seq<Byte>, c: Cursor)
    requires c.pos + |head| <= c.size
    ensures c.pos + (SpaceFrom(head, 0) + 1) > c.size || ContentLength(head) < 0 <==> Breaks(head, c)
  {
    NoSpace(head);
  }

  ghost predicate ServesNext(step: Step, next: Cursor, path: seq<Byte>, body: seq<Byte>) {
    step.Serve? && step.next == next && step.v.path == path && step.v.frame.body == body
  }

  /** With the head of a request of need bytes known, what the loop will do: r is the
      stream from the start of the request, which is complete at cursor c2 if at all. */
  ghost predicate Foretold(step: Step, r: seq<Byte>, head: seq<Byte>, need: nat, c1: Cursor, c2: Cursor) {
    && head <= r && |head| <= need
    && if need > |r| then step == Stop(Closed)
       else
         && need <= c2.used - c2.pos && Slid(c1, c2, need) <= |r|
         && ServesNext(step, Past(c2, need), RoutedPath(head, r, c1.pos, Slid(c1, c2, need)), r[|head|..need])
  }

  lemma WholeFront(s: seq<Byte>, head: seq<Byte>, n: nat)
    requires head == HeadOf(s) && head != [] && n == ContentLength(head) && |head| + n <= MAX_REQUEST
             && |head| + n <= |s|
    ensures Whole(s) && FrameLen(s) == |head| + n && FrontFrame(s) == Frame(head, s[|head|..|head| + n])
  {
  }

  lemma HeadForetells(input: seq<Byte>, plan: nat -> nat, c: Cursor, c1: Cursor, c2: Cursor, r: seq<Byte>,
                      head: seq<Byte>, need: nat)
    requires Sound(c, |input|) && r == input[Start(c)..] && c1 == AtHead(input, plan, c)
    requires head == HeadOf(r) && head != [] && !Breaks(head, c1)
    requires |head| <= need == |head| + ContentLength(head) <= MAX_REQUEST && c2 == FillTo(plan, |input|, need, c1)
    ensures Foretold(StepAt(input, plan, c), r, head, need, c1, c2)
  {
    if need <= |r| {
      WholeFront(r, head, need - |head|);
      StepServes(input, plan, c, c1, c2, need);
    }
  }

  lemma TooLong(input: seq<Byte>, plan: nat -> nat, c: Cursor, head: seq<Byte>)
    requires Sound(c, |input|) && head == HeadOf(input[Start(c)..]) && head != []
             && !Breaks(head, AtHead(input, plan, c))
    requires ContentLength(head) > MAX_REQUEST - |head|
    ensures StepAt(input, plan, c) == Stop(Closed)
  {
  }

  lemma NoHeadStops(input: seq<Byte>, plan: nat -> nat, c: Cursor)
    requires Sound(c, |input|) && HeadLen(input[Start(c)..]) == 0
    ensures StepAt(input, plan, c) == Stop(Closed)
  {
  }

  lemma BreaksStops(input: seq<Byte>, plan: nat -> nat, c: Cursor, head: seq<Byte>)
    requires Sound(c, |input|) && head == HeadOf(input[Start(c)..]) && head != []
             && Breaks(head, AtHead(input, plan, c))
    ensures StepAt(input, plan, c) == Stop(Panicked)
  {
  }

  lemma ForetoldServes(step: Step, r: seq<Byte>, head: seq<Byte>, need: nat, c1: Cursor, c2: Cursor, slid: nat,
                       path: seq<Byte>, body: seq<Byte>)
    requires Foretold(step, r, head, need, c1, c2) && need <= |r|
    requires slid == Slid(c1, c2, need) && slid <= |r| && path == RoutedPath(head, r, c1.pos, slid)
    requires body == r[|head|..need]
    ensures need <= c2.used - c2.pos && ServesNext(step, Past(c2, need), path, body)
  {
  }

  /** Serves the request at pos, from its head to its answer. */
  method ServeOne(conn: Conn, route: (seq<Byte>, seq<Byte>) -> seq<Byte>, buf0: array<Byte>, pos0: nat, used0: nat,
                  ghost start: nat)
    returns (status: Status, buf: array<Byte>, pos: nat, used: nat)
    requires View(conn, buf0, pos0, used0, start)
    modifies conn`at, conn`turns, conn`sent, buf0
    ensures buf == buf0 || fresh(buf)
    ensures Took(StepAt(conn.input, conn.plan, old(Here(conn, buf0, pos0, used0))), status, Here(conn, buf, pos, used),
                 old(conn.sent), conn.sent, conn.writesOk, route)
    ensures status.Answered? ==> Holding(conn, buf, pos, used)
  {
    ghost var c := Here(conn, buf0, pos0, used0);
    var found, headEnd;
    found, buf, pos, used, headEnd := FindHead(conn, buf0, pos0, used0, start);
    if !found {
      NoHeadStops(conn.input, conn.plan, c);
      return Closed, buf0, pos0, used0;
    }
    status, buf, pos, used := ServeHead(conn, route, buf, pos, used, headEnd, start, c,
        StepAt(conn.input, conn.plan, c));
  }

  method ServeHead(conn: Conn, route: (seq<Byte>, seq<Byte>) -> seq<Byte>, buf0: array<Byte>, pos0: nat, used0: nat,
                   headEnd: nat, ghost start: nat, ghost c: Cursor, ghost step: Step)
    returns (status: Status, buf: array<Byte>, pos: nat, used: nat)
    requires View(conn, buf0, pos0, used0, start) && pos0 < headEnd <= used0
    requires Sound(c, |conn.input|) && start == Start(c) && step == StepAt(conn.input, conn.plan, c)
    requires headEnd - pos0 == HeadLen(conn.input[start..])
             && Here(conn, buf0, pos0, used0) == AtHead(conn.input, conn.plan, c)
    modifies conn`at, conn`turns, conn`sent, buf0
    ensures buf == buf0 || fresh(buf)
    ensures Took(step, status, Here(conn, buf, pos, used), old(conn.sent), conn.sent, conn.writesOk, route)
    ensures status.Answered? ==> Holding(conn, buf, pos, used)
  {
    HeadShown(conn, buf0, pos0, used0, headEnd, start);
    var head := buf0[pos0..headEnd];
    var pathStart, pathEnd, contentLen := ParseRequestLine(head);
    ghost var c1 := Here(conn, buf0, pos0, used0);
    BreaksHere(head, c1);
    if pos0 + pathStart > buf0.Length || contentLen < 0 {
      BreaksStops(conn.input, conn.plan, c, head);
      return Panicked, buf0, pos0, used0;
    }
    if contentLen > MAX_REQUEST - (headEnd - pos0) {
      TooLong(conn.input, conn.plan, c, head);
      return Closed, buf0, pos0, used0;
    }
    ghost var need: nat := |head| + contentLen;
    ghost var c2 := FillTo(conn.plan, |conn.input|, need, c1);
    HeadForetells(conn.input, conn.plan, c, c1, c2, conn.input[start..], head, need);
    status, buf, pos, used := ServeBody(conn, route, buf0, pos0, used0, headEnd, pathStart, pathEnd,
        headEnd + contentLen, start, c1, c2, head, need, step);
  }

  method ServeBody(conn: Conn, route: (seq<Byte>, seq<Byte>) -> seq<Byte>, buf0: array<Byte>, pos0: nat, used0: nat,
                   headEnd0: nat, pathStart: nat, pathEnd: nat, bodyEnd0: nat, ghost start: nat, ghost c1: Cursor,
                   ghost c2: Cursor, ghost head: seq<Byte>, ghost need: nat, ghost step: Step)
    returns (status: Status, buf: array<Byte>, pos: nat, used: nat)
    requires View(conn, buf0, pos0, used0, start) && c1 == Here(conn, buf0, pos0, used0)
    requires headEnd0 == pos0 + |head| <= used0 && 4 <= |head| <= need && bodyEnd0 == pos0 + need
    requires pathStart == SpaceFrom(head, 0) + 1
    requires pathEnd == if pathStart <= |head| then SpaceFrom(head, pathStart) else pathStart
    requires Aims(conn.plan, |conn.input|, need, c1, c2) && Foretold(step, conn.input[start..], head, need, c1, c2)
    modifies conn`at, conn`turns, conn`sent, buf0
    ensures buf == buf0 || fresh(buf)
    ensures Took(step, status, Here(conn, buf, pos, used), old(conn.sent), conn.sent, conn.writesOk, route)
    ensures status.Answered? ==> Holding(conn, buf, pos, used)
  {
    var ok, headEnd, bodyEnd, path;
    ok, buf, pos, used, headEnd, bodyEnd, path := Complete(conn, buf0, pos0, used0, headEnd0, pathStart, pathEnd,
        bodyEnd0, start, c1, c2, head, need);
    status := Closed;
    if ok {
      status, pos, used := AnswerForetold(conn, route, buf, pos, used, headEnd, bodyEnd, path, start, c1, c2, head,
          need, step);
    }
  }

  /** Reads the body, and looks at the path when it is complete. */
  method Complete(conn: Conn, buf0: array<Byte>, pos0: nat, used0: nat, headEnd0: nat,
                  pathStart: nat, pathEnd: nat, bodyEnd0: nat, ghost start: nat, ghost c1: Cursor, ghost c2: Cursor,
                  ghost head: seq<Byte>, ghost need: nat)
    returns (ok: bool, buf: array<Byte>, pos: nat, used: nat, headEnd: nat, bodyEnd: nat, path: seq<Byte>)
    requires View(conn, buf0, pos0, used0, start) && c1 == Here(conn, buf0, pos0, used0)
    requires headEnd0 == pos0 + |head| <= used0 && 4 <= |head| <= need && bodyEnd0 == pos0 + need
    requires pathStart == SpaceFrom(head, 0) + 1
    requires pathEnd == if pathStart <= |head| then SpaceFrom(head, pathStart) else pathStart
    requires Aims(conn.plan, |conn.input|, need, c1, c2) && head <= conn.input[start..]
    modifies conn`at, conn`turns, buf0
    ensures buf == buf0 || fresh(buf)
    ensures !ok ==> need > |conn.input[start..]|
    ensures ok ==> View(conn, buf, pos, used, start) && Here(conn, buf, pos, used) == c2
    ensures ok ==> headEnd - pos == |head| && bodyEnd - pos == need && bodyEnd <= used
    ensures ok ==> Slid(c1, c2, need) <= |conn.input[start..]|
                   && path == RoutedPath(head, conn.input[start..], c1.pos, Slid(c1, c2, need))
  {
    ghost var r, slid := conn.input[start..], 0;
    ok, buf, pos, used, headEnd, bodyEnd, slid := ReadBody(conn, buf0, pos0, used0, headEnd0, bodyEnd0, start, c1, need,
        c2);
    path := [];
    if ok {
      path := PathBytes(buf0, pos0, headEnd0, pathStart, pathEnd, head, r, slid);
    }
  }

  method AnswerForetold(conn: Conn, route: (seq<Byte>, seq<Byte>) -> seq<Byte>, buf: array<Byte>, pos0: nat, used0: nat,
                        headEnd: nat, bodyEnd: nat, path: seq<Byte>, ghost start: nat, ghost c1: Cursor,
                        ghost c2: Cursor, ghost head: seq<Byte>, ghost need: nat, ghost step: Step)
    returns (status: Status, pos: nat, used: nat)
    requires View(conn, buf, pos0, used0, start) && Here(conn, buf, pos0, used0) == c2
    requires headEnd - pos0 == |head| >= 4 && bodyEnd - pos0 == need && headEnd <= bodyEnd <= used0
    requires Slid(c1, c2, need) <= |conn.input[start..]|
             && path == RoutedPath(head, conn.input[start..], c1.pos, Slid(c1, c2, need))
    requires Foretold(step, conn.input[start..], head, need, c1, c2)
    modifies conn`sent
    ensures Took(step, status, Here(conn, buf, pos, used), old(conn.sent), conn.sent, conn.writesOk, route)
    ensures status.Answered? ==> Holding(conn, buf, pos, used)
  {
    ViewSlice(conn, buf, pos0, used0, start, headEnd, bodyEnd);
    ForetoldServes(step, conn.input[start..], head, need, c1, c2, Slid(c1, c2, need), path, buf[headEnd..bodyEnd]);
    status, pos, used := AnswerNow(conn, route, buf, pos0, used0, headEnd, bodyEnd, path, start, step);
  }

  /** Answers the request whose body is complete, then moves past it. */
  method AnswerNow(conn: Conn, route: (seq<Byte>, seq<Byte>) -> seq<Byte>, buf: array<Byte>, pos0: nat, used0: nat,
                   headEnd: nat, bodyEnd: nat, path: seq<Byte>, ghost start: nat, ghost step: Step)
    returns (status: Status, pos: nat, used: nat)
    requires View(conn, buf, pos0, used0, start) && pos0 + 4 <= bodyEnd <= used0 && headEnd <= bodyEnd
    requires ServesNext(step, Past(Here(conn, buf, pos0, used0), bodyEnd - pos0), path, buf[headEnd..bodyEnd])
    modifies conn`sent
    ensures Took(step, status, Here(conn, buf, pos, used), old(conn.sent), conn.sent, conn.writesOk, route)
    ensures status.Answered? ==> Holding(conn, buf, pos, used)
  {
    pos, used := pos0, used0;
    var resp := route(path, buf[headEnd..bodyEnd]);
    var sent := conn.Write(resp);
    status := WriteFailed;
    if sent {
      status := Answered;
      pos, used := Advance(conn, buf, pos, used, bodyEnd, start);
    }
  }

  lemma RepliesMore(route: (seq<Byte>, seq<Byte>) -> seq<Byte>, log: seq<Served>, v: Served)
    ensures Replies(route, log + [v]) == Replies(route, log) + [route(v.path, v.frame.body)]
  {
  }

  /** Where the loop stands at cursor c: what it sent answers log, and the rest of the
      life l is still to come. */
  ghost predicate Midway(sent: seq<seq<Byte>>, writesOk: nat, route: (seq<Byte>, seq<Byte>) -> seq<Byte>,
                         step: Cursor -> Step, l: Life, log: seq<Served>, c: Cursor)
  {
    |log| <= writesOk && sent == Replies(route, log) && Continues(l, log, Repeat(step, writesOk - |log|, c))
  }

  lemma OneTurn(before: seq<seq<Byte>>, writesOk: nat, route: (seq<Byte>, seq<Byte>) -> seq<Byte>, step: Cursor -> Step,
                l: Life, log: seq<Served>, c: Cursor, status: Status, here: Cursor, sent: seq<seq<Byte>>)
    requires Midway(before, writesOk, route, step, l, log, c) && step(c) != Stop(Answered)
    requires Took(step(c), status, here, before, sent, writesOk, route)
    ensures status.Answered? ==> step(c).Serve? && Midway(sent, writesOk, route, step, l, log + [step(c).v], here)
    ensures !status.Answered? ==> status == l.status && sent == Replies(route, l.log)
  {
    OneStepMore(step, l, log, writesOk - |log|, c);
    if status.Answered? {
      RepliesMore(route, log, step(c).v);
    }
  }

  /** The whole life of a connection: what is sent, and why the loop ends, is what the
      model says for these bytes, this way of handing them out and this buffer. So the
      requests answered are those of the reference framing, in order, and the loop
      stops where it must. */
  method HandleRawConn(conn: Conn, route: (seq<Byte>, seq<Byte>) -> seq<Byte>, buf0: array<Byte>)
    returns (status: Status, ghost l: Life, ghost rest: seq<Byte>)
    requires conn.at == conn.turns == 0 && conn.sent == [] && (buf0.Length == 4096 || buf0.Length == 8192)
    modifies conn, buf0
    ensures l == LifeOf(conn.input, conn.plan, conn.writesOk, buf0.Length)
    ensures status == l.status && conn.sent == Replies(route, l.log)
    ensures Frames(conn.input) == FramesOf(l.log) + Frames(rest) && AllPlaced(l.log, conn.input)
    ensures StoppedBefore(l, conn.input, conn.plan, conn.writesOk, rest)
  {
    rest := LifeServes(conn.input, conn.plan, conn.writesOk, buf0.Length);
    status, l := ServeLife(conn, route, buf0);
  }

  method ServeLife(conn: Conn, route: (seq<Byte>, seq<Byte>) -> seq<Byte>, buf0: array<Byte>)
    returns (status: Status, ghost l: Life)
    requires conn.at == conn.turns == 0 && conn.sent == [] && (buf0.Length == 4096 || buf0.Length == 8192)
    modifies conn, buf0
    ensures l == LifeOf(conn.input, conn.plan, conn.writesOk, buf0.Length)
    ensures status == l.status && conn.sent == Replies(route, l.log)
  {
    l := LifeOf(conn.input, conn.plan, conn.writesOk, buf0.Length);
    status := Serve(conn, route, buf0, l);
  }

  method Serve(conn: Conn, route: (seq<Byte>, seq<Byte>) -> seq<Byte>, buf0: array<Byte>, ghost l: Life)
    returns (status: Status)
    requires conn.at == conn.turns == 0 && conn.sent == [] && (buf0.Length == 4096 || buf0.Length == 8192)
    requires l == LifeOf(conn.input, conn.plan, conn.writesOk, buf0.Length)
    modifies conn, buf0
    ensures status == l.status && conn.sent == Replies(route, l.log)
  {
    var buf, pos, used := buf0, 0, 0;
    ghost var log: seq<Served> := [];
    assert buf[0..0] == conn.input[0..0];
    assert [] + l.log == l.log;
    while true
      invariant Holding(conn, buf, pos, used)
      invariant buf == buf0 || fresh(buf)
      invariant Midway(conn.sent, conn.writesOk, route, Steps(conn.input, conn.plan), l, log,
                       Here(conn, buf, pos, used))
      decreases conn.writesOk - |log|
    {
      status, buf, pos, used, log := ServeNext(conn, route, buf, pos, used, l, log);
      if !status.Answered? {
        return;
      }
    }
  }

  /** Serves one request, on the way through the life l. */
  method ServeNext(conn: Conn, route: (seq<Byte>, seq<Byte>) -> seq<Byte>, buf0: array<Byte>, pos0: nat, used0: nat,
                   ghost l: Life, ghost log: seq<Served>)
    returns (status: Status, buf: array<Byte>, pos: nat, used: nat, ghost log': seq<Served>)
    requires Holding(conn, buf0, pos0, used0)
    requires Midway(conn.sent, conn.writesOk, route, Steps(conn.input, conn.plan), l, log,
                    Here(conn, buf0, pos0, used0))
    modifies conn`at, conn`turns, conn`sent, buf0
    ensures buf == buf0 || fresh(buf)
    ensures status.Answered? ==> Holding(conn, buf, pos, used) && |log'| == |log| + 1
    ensures status.Answered? ==>
              Midway(conn.sent, conn.writesOk, route, Steps(conn.input, conn.plan), l, log', Here(conn, buf, pos, used))
    ensures !status.Answered? ==> status == l.status && conn.sent == Replies(route, l.log)
  {
    ghost var c, before, step := Here(conn, buf0, pos0, used0), conn.sent, Steps(conn.input, conn.plan);
    status, buf, pos, used := ServeOne(conn, route, buf0, pos0, used0, Start(c));
    OneTurn(before, conn.writesOk, route, step, l, log, c, status, Here(conn, buf, pos, used), conn.sent);
    log' := if status.Answered? then log + [step(c).v] else log;
  }

  /** Serves the same bytes twice, however each connection hands them out. */
  method ServeTwice(a: Conn, b: Conn, route: (seq<Byte>, seq<Byte>) -> seq<Byte>, bufA: array<Byte>, bufB: array<Byte>)
    returns (statusA: Status, statusB: Status, ghost lA: Life, ghost lB: Life)
    requires a != b && bufA != bufB && a.input == b.input
    requires a.at == a.turns == b.at == b.turns == 0 && a.sent == b.sent == []
    requires (bufA.Length == 4096 || bufA.Length == 8192) && (bufB.Length == 4096 || bufB.Length == 8192)
    modifies a, b, bufA, bufB
    ensures lA == LifeOf(a.input, a.plan, a.writesOk, bufA.Length) && statusA == lA.status
            && a.sent == Replies(route, lA.log)
    ensures lB == LifeOf(b.input, b.plan, b.writesOk, bufB.Length) && statusB == lB.status
            && b.sent == Replies(route, lB.log)
    ensures Agree(a.input, route, lA, lB)
  {
    statusA, lA := ServeLife(a, route, bufA);
    statusB, lB := ServeLife(b, route, bufB);
    TwoLives(a.input, route, a.plan, a.writesOk, bufA.Length, b.plan, b.writesOk, bufB.Length);
  }
}
