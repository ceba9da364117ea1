/** A connection on paper: which requests are answered, where in the buffer each one
    lies, what path is routed for it and why the loop ends, all as functions of the
    bytes of the stream, of how reads hand them out and of the size of the buffer. */
module HttpRun {
  import opened Bytes
  import opened HttpParsing

  // ----- Cursors -----

  /** The size of the buffer, where in it the bytes not answered yet lie, how many
      bytes were taken from the stream and in how many reads. */
  datatype Cursor = Cursor(size: nat, pos: nat, used: nat, at: nat, turns: nat)

  ghost predicate Sound(c: Cursor, len: nat) {
    match c
    case Cursor(size, pos, used, at, _) =>
      && (size == 4096 || size == 8192)
      && pos <= used <= size && used - pos <= at <= len
      && (pos > 0 ==> 4 <= pos < used <= at)
  }

  /** The stream position of the byte at pos. */
  function Start(c: Cursor): nat
    requires c.pos <= c.used && c.used - c.pos <= c.at
  {
    c.at - (c.used - c.pos)
  }

  /** How many bytes a read hands out, with some left in the stream and room for some. */
  function Given(plan: nat -> nat, turns: nat, left: nat, room: nat): (n: nat)
    ensures n <= left && n <= room
    ensures n == 0 <==> left == 0 || room == 0
  {
    var most := if left < room then left else room;
    var wish := plan(turns);
    if wish == 0 && most > 0 then 1 else if wish < most then wish else most
  }

  /** Room after the bytes held: by moving them to the front, else by doubling. */
  function Room(c: Cursor): Cursor
    requires c.pos <= c.used
  {
    if c.used < c.size then c
    else if c.pos > 0 then c.(pos := 0, used := c.used - c.pos)
    else c.(size := 2 * c.size)
  }

  /** After one read. */
  function Fetch(plan: nat -> nat, len: nat, c: Cursor): Cursor
    requires c.used <= c.size && c.at <= len
  {
    var n := Given(plan, c.turns, len - c.at, c.size - c.used);
    Cursor(c.size, c.pos, c.used + n, c.at + n, c.turns + 1)
  }

  function Turn(plan: nat -> nat, len: nat, c: Cursor): Cursor
    requires c.pos <= c.used <= c.size && c.at <= len
  {
    Fetch(plan, len, Room(c))
  }

  /** The cursor once need bytes are held. The request stays where it is exactly if
      it is at the front already or ends inside the buffer. */
  ghost function FillTo(plan: nat -> nat, len: nat, need: nat, c: Cursor): (d: Cursor)
    requires Sound(c, len) && need <= MAX_REQUEST
    ensures Sound(d, len) && Start(d) == Start(c) && d.used - d.pos >= c.used - c.pos
    ensures Start(c) + need <= len ==> d.used - d.pos >= need
    ensures Start(c) + need <= len ==> d.pos == if c.pos > 0 && c.pos + need > c.size then 0 else c.pos
    ensures d.size == c.size || (c.size == 4096 && d.size == 8192 && d.pos == 0 && c.size < d.used)
    ensures c.pos == 0 && need <= c.size ==> d.size == c.size
    ensures d.pos == 0 || d.pos == c.pos
    decreases len - c.at
  {
    if c.used - c.pos >= need || c.at == len then c else FillTo(plan, len, need, Turn(plan, len, c))
  }

  /** After a request of n bytes was answered. */
  function Past(c: Cursor, n: nat): Cursor
    requires n <= c.used - c.pos
  {
    if c.pos + n == c.used then c.(pos := 0, used := 0) else c.(pos := c.pos + n)
  }

  lemma NoSpace(head: seq<Byte>)
    ensures SpaceFrom(head, 0) == |head| <==> 32 !in head
  {
    SpaceFromIsFirst(head, 0);
  }

  lemma PastIsSound(c: Cursor, n: nat, len: nat)
    requires Sound(c, len) && 4 <= n <= c.used - c.pos
    ensures Sound(Past(c, n), len) && Start(Past(c, n)) == Start(c) + n
  {
  }

  // ----- One request -----

  /** One answered request: it began at stream position start and at offset pos of a
      buffer of the given size, with early bytes of it there when the loop turned to
      it. The first slid bytes of that buffer came to show the request from its start;
      path is what was routed. */
  datatype Served = Served(frame: Frame, path: seq<Byte>, start: nat, pos: nat, size: nat, slid: nat, early: nat)

  function FrameSize(f: Frame): nat {
    |f.head| + |f.body|
  }

  /** A request at offset pos is moved to the front before its body is complete. */
  predicate Moves(pos: nat, size: nat, n: nat) {
    pos > 0 && pos + n > size
  }

  predicate Moved(v: Served) {
    Moves(v.pos, v.size, FrameSize(v.frame))
  }

  /** Byte k of the request as the routed path shows it; r is the stream from the
      start of the request. */
  function Shown(r: seq<Byte>, pos: nat, slid: nat, k: nat): Byte
    requires k < |r| && slid <= |r|
  {
    if pos + k < slid then r[pos + k] else r[k]
  }

  /** Where the path ends in a head with a space. */
  function PathEnd(head: seq<Byte>): nat
    requires SpaceFrom(head, 0) < |head|
  {
    SpaceFrom(head, SpaceFrom(head, 0) + 1)
  }

  /** The first n bytes of the request as the buffer that held its head shows them. */
  function Seen(r: seq<Byte>, pos: nat, slid: nat, n: nat): (bytes: seq<Byte>)
    requires n <= |r| && slid <= |r|
    ensures |bytes| == n && forall k {:trigger bytes[k]} :: 0 <= k < n ==> bytes[k] == Shown(r, pos, slid, k)
  {
    seq<Byte>(n, k requires 0 <= k < n => Shown(r, pos, slid, k))
  }

  /** The path the loop routes, a slice of the buffer looked at when the body is
      complete. */
  function RoutedPath(head: seq<Byte>, r: seq<Byte>, pos: nat, slid: nat): (path: seq<Byte>)
    requires |head| <= |r| && slid <= |r|
  {
    var i := SpaceFrom(head, 0);
    if i == |head| then [] else Seen(r, pos, slid, |head|)[i + 1..PathEnd(head)]
  }

  /** The path routed is the path requested exactly when the bytes that slid under it,
      if the request was moved, happen to be the same. */
  lemma PathIsRight(head: seq<Byte>, r: seq<Byte>, pos: nat, slid: nat)
    requires head <= r && slid <= |r|
    ensures RoutedPath(head, r, pos, slid) == PathOf(head) <==>
            SpaceFrom(head, 0) == |head| ||
            forall k :: SpaceFrom(head, 0) < k < PathEnd(head) && pos + k < slid ==> r[pos + k] == head[k]
  {
    var a := SpaceFrom(head, 0) + 1;
    if a <= |head| {
      SlidUnder(head, r, pos, slid, a, PathEnd(head));
    }
  }

  lemma SlidUnder(head: seq<Byte>, r: seq<Byte>, pos: nat, slid: nat, a: nat, e: nat)
    requires a <= e <= |head| && head <= r && slid <= |r|
    ensures Seen(r, pos, slid, |head|)[a..e] == head[a..e] <==>
              forall k :: a <= k < e && pos + k < slid ==> r[pos + k] == head[k]
  {
    var seen, path := Seen(r, pos, slid, |head|)[a..e], head[a..e];
    forall k | a <= k < e
      ensures seen[k - a] == Shown(r, pos, slid, k) && path[k - a] == head[k] == r[k]
    {
      assert seen[k - a] == Seen(r, pos, slid, |head|)[k];
    }
    if forall k :: a <= k < e && pos + k < slid ==> r[pos + k] == head[k] {
      forall i | 0 <= i < e - a
        ensures seen[i] == path[i]
      {
        assert i == a + i - a;
      }
    }
  }

  // ----- A whole connection -----

  /** Why the loop ended: nothing more to serve, a failed write, or a slice taken
      out of range. Answered means it goes on. */
  datatype Status = Answered | Closed | WriteFailed | Panicked

  /** Why it ended, what was answered, and the cursor it stopped at. */
  datatype Life = Life(status: Status, log: seq<Served>, last: Cursor)

  /** The loop takes a slice out of range: the declared length has wrapped to a
      negative number, or there is no space in a head that ends with the buffer. */
  ghost predicate Breaks(head: seq<Byte>, c: Cursor) {
    ContentLength(head) < 0 || (32 !in head && c.pos + |head| == c.size)
  }

  ghost function HeadOf(s: seq<Byte>): (head: seq<Byte>)
    ensures |head| == HeadLen(s) && head <= s
  {
    s[..HeadLen(s)]
  }

  /** The cursor when the head of the next request is complete, and when all of it is. */
  ghost function AtHead(input: seq<Byte>, plan: nat -> nat, c: Cursor): (d: Cursor)
    requires Sound(c, |input|)
    ensures Sound(d, |input|) && Start(d) == Start(c)
  {
    FillTo(plan, |input|, HeadLen(input[Start(c)..]), c)
  }

  ghost function AtBody(input: seq<Byte>, plan: nat -> nat, c: Cursor): (d: Cursor)
    requires Sound(c, |input|) && Whole(input[Start(c)..])
    ensures Sound(d, |input|) && Start(d) == Start(c) && FrameLen(input[Start(c)..]) <= d.used - d.pos
  {
    FillTo(plan, |input|, FrameLen(input[Start(c)..]), AtHead(input, plan, c))
  }

  /** How much of the buffer of cursor c1 shows a request of n bytes from its start
      when it is complete at c2: nothing unless it was moved. */
  ghost function Slid(c1: Cursor, c2: Cursor, n: nat): nat {
    if !Moves(c1.pos, c1.size, n) then 0 else if c2.size == c1.size then c2.used else c1.size
  }

  /** The next request and how it lies in the buffer. */
  ghost function NextServed(input: seq<Byte>, plan: nat -> nat, c: Cursor): (v: Served)
    requires Sound(c, |input|) && Whole(input[Start(c)..])
  {
    var s, c1, c2 := input[Start(c)..], AtHead(input, plan, c), AtBody(input, plan, c);
    var f, slid := FrontFrame(s), Slid(c1, c2, FrameLen(s));
    Served(f, RoutedPath(f.head, s, c1.pos, slid), Start(c), c1.pos, c1.size, slid, c.used - c.pos)
  }

  ghost function NextCursor(input: seq<Byte>, plan: nat -> nat, c: Cursor): (d: Cursor)
    requires Sound(c, |input|) && Whole(input[Start(c)..])
    ensures Sound(d, |input|) && Start(d) == Start(c) + FrameLen(input[Start(c)..])
  {
    var d, n := AtBody(input, plan, c), FrameLen(input[Start(c)..]);
    PastIsSound(d, n, |input|);
    Past(d, n)
  }

  /** What the loop does next: it stops by itself, or serves a request if the write
      succeeds. */
  datatype Step = Stop(status: Status) | Serve(v: Served, next: Cursor)

  ghost function StepAt(input: seq<Byte>, plan: nat -> nat, c: Cursor): Step
    requires Sound(c, |input|)
  {
    var s := input[Start(c)..];
    if HeadLen(s) > 0 && Breaks(HeadOf(s), AtHead(input, plan, c)) then Stop(Panicked)
    else if !Whole(s) then Stop(Closed)
    else Serve(NextServed(input, plan, c), NextCursor(input, plan, c))
  }

  /** A whole request is the next to be served, unless the loop breaks at its head. */
  lemma StepServes(input: seq<Byte>, plan: nat -> nat, c: Cursor, c1: Cursor, c2: Cursor, n: nat)
    requires Sound(c, |input|) && Whole(input[Start(c)..]) && n == FrameLen(input[Start(c)..])
    requires c1 == AtHead(input, plan, c) && !Breaks(HeadOf(input[Start(c)..]), c1)
             && c2 == FillTo(plan, |input|, n, c1)
    ensures n <= c2.used - c2.pos && Slid(c1, c2, n) <= |input[Start(c)..]|
    ensures StepAt(input, plan, c).Serve? && StepAt(input, plan, c).next == Past(c2, n)
    ensures var v, f := StepAt(input, plan, c).v, FrontFrame(input[Start(c)..]);
            v.frame == f && v.path == RoutedPath(f.head, input[Start(c)..], c1.pos, Slid(c1, c2, n))
  {
  }

  ghost function Steps(input: seq<Byte>, plan: nat -> nat): Cursor -> Step {
    c => if Sound(c, |input|) then StepAt(input, plan, c) else Stop(Closed)
  }

  /** Everything that happens from cursor c on, with so many writes that succeed. */
  ghost function Repeat(step: Cursor -> Step, writes: nat, c: Cursor): Life {
    match step(c)
    case Stop(status) => Life(status, [], c)
    case Serve(v, next) =>
      if writes == 0 then Life(WriteFailed, [], c) else
        var rest := Repeat(step, writes - 1, next);
        Life(rest.status, [v] + rest.log, rest.last)
  }

  function First(size: nat): Cursor {
    Cursor(size, 0, 0, 0, 0)
  }

  /** The life of a connection that starts with an empty buffer of the given size. */
  ghost function LifeOf(input: seq<Byte>, plan: nat -> nat, writes: nat, size: nat): Life {
    Repeat(Steps(input, plan), writes, First(size))
  }

  /** l is what log records and what is still to come. */
  ghost predicate Continues(l: Life, log: seq<Served>, rest: Life) {
    l == Life(rest.status, log + rest.log, rest.last)
  }

  lemma OneStepMore(step: Cursor -> Step, l: Life, log: seq<Served>, left: nat, c: Cursor)
    requires Continues(l, log, Repeat(step, left, c))
    ensures match step(c)
            case Stop(why) => l == Life(why, log, c)
            case Serve(v, next) =>
              if left == 0 then l == Life(WriteFailed, log, c)
              else Continues(l, log + [v], Repeat(step, left - 1, next))
  {
    assert log + [] == log;
    if step(c).Serve? && left > 0 {
      assert log + ([step(c).v] + Repeat(step, left - 1, step(c).next).log) ==
               log + [step(c).v] + Repeat(step, left - 1, step(c).next).log;
    }
  }

  // ----- What holds at every step holds all along -----

  ghost function FramesOf(log: seq<Served>): (fs: seq<Frame>)
    ensures |fs| == |log|
    ensures forall i :: 0 <= i < |log| ==> fs[i] == log[i].frame
  {
    seq(|log|, i requires 0 <= i < |log| => log[i].frame)
  }

  /** A step keeps inv, serves the first of the requests that frames lists, and serves
      it well. */
  ghost predicate Keeps(step: Cursor -> Step, inv: Cursor -> bool, frames: Cursor -> seq<Frame>, good: Served -> bool,
                        c: Cursor) {
    match step(c)
    case Stop(_) => true
    case Serve(v, next) => inv(next) && good(v) && frames(c) == [v.frame] + frames(next)
  }

  /** Why the loop stopped where it did. */
  predicate StopsFor(l: Life, step: Step, writes: nat) {
    match step
    case Stop(status) => l.status == status && |l.log| <= writes
    case Serve(_, _) => l.status == WriteFailed && |l.log| == writes
  }

  ghost predicate AllGood(log: seq<Served>, good: Served -> bool) {
    forall i :: 0 <= i < |log| ==> good(log[i])
  }

  lemma LogGrows(v: Served, log: seq<Served>, good: Served -> bool)
    requires good(v) && AllGood(log, good)
    ensures FramesOf([v] + log) == [v.frame] + FramesOf(log) && AllGood([v] + log, good)
  {
  }

  lemma {:induction false} RepeatKeeps(step: Cursor -> Step, inv: Cursor -> bool, frames: Cursor -> seq<Frame>,
                                       good: Served -> bool, writes: nat, c: Cursor)
    requires inv(c) && forall d :: inv(d) ==> Keeps(step, inv, frames, good, d)
    ensures var l := Repeat(step, writes, c);
            && inv(l.last) && StopsFor(l, step(l.last), writes)
            && frames(c) == FramesOf(l.log) + frames(l.last)
            && AllGood(l.log, good)
  {
    match step(c)
    case Stop(_) =>
    case Serve(v, next) =>
      assert Keeps(step, inv, frames, good, c);
      if writes > 0 {
        RepeatKeeps(step, inv, frames, good, writes - 1, next);
        var rest := Repeat(step, writes - 1, next);
        LogGrows(v, rest.log, good);
      }
  }

  // ----- What every life keeps -----

  ghost function Soundly(len: nat): Cursor -> bool {
    c => Sound(c, len)
  }

  ghost function FramesAhead(input: seq<Byte>): Cursor -> seq<Frame> {
    c => if Sound(c, |input|) then Frames(input[Start(c)..]) else []
  }

  /** How an answered request lies in the stream and in the buffer, and what that
      makes of its path. */
  ghost predicate Placed(v: Served, input: seq<Byte>) {
    && v.start <= |input| && Whole(input[v.start..]) && v.frame == FrontFrame(input[v.start..])
    && (v.size == 4096 || v.size == 8192) && v.pos + |v.frame.head| <= v.size
    && (v.pos > 0 ==> 4 <= v.pos <= v.start && v.early > 0)
    && v.slid <= |input| - v.start && (!Moved(v) ==> v.slid == 0)
    && v.path == RoutedPath(v.frame.head, input[v.start..], v.pos, v.slid)
  }

  ghost predicate AllPlaced(log: seq<Served>, input: seq<Byte>) {
    forall i :: 0 <= i < |log| ==> Placed(log[i], input)
  }

  ghost function WellPlaced(input: seq<Byte>): Served -> bool {
    v => Placed(v, input)
  }

  lemma FramesUnfold(s: seq<Byte>)
    requires Whole(s)
    ensures Frames(s) == [FrontFrame(s)] + Frames(s[FrameLen(s)..])
  {
  }

  lemma NextStart(input: seq<Byte>, plan: nat -> nat, c: Cursor)
    requires Sound(c, |input|) && Whole(input[Start(c)..])
    ensures input[Start(NextCursor(input, plan, c))..] == input[Start(c)..][FrameLen(input[Start(c)..])..]
  {
  }

  lemma NextIsPlaced(input: seq<Byte>, plan: nat -> nat, c: Cursor)
    requires Sound(c, |input|) && Whole(input[Start(c)..])
    ensures Placed(NextServed(input, plan, c), input)
  {
  }

  lemma StepKeepsFrames(input: seq<Byte>, plan: nat -> nat, c: Cursor)
    requires Sound(c, |input|)
    ensures Keeps(Steps(input, plan), Soundly(|input|), FramesAhead(input), WellPlaced(input), c)
  {
    if StepAt(input, plan, c).Serve? {
      FramesUnfold(input[Start(c)..]);
      NextStart(input, plan, c);
      NextIsPlaced(input, plan, c);
    }
  }

  /** The loop stops in front of rest: at a slice out of range exactly if the head
      makes it take one, else for lack of a whole request, else for a failed write. */
  ghost predicate StoppedBefore(l: Life, input: seq<Byte>, plan: nat -> nat, writes: nat, rest: seq<Byte>) {
    && Sound(l.last, |input|) && rest == input[Start(l.last)..]
    && var broken := HeadLen(rest) > 0 && Breaks(HeadOf(rest), AtHead(input, plan, l.last));
       match l.status
       case Answered => false
       case Panicked => broken && |l.log| <= writes
       case Closed => !broken && !Whole(rest) && |l.log| <= writes
       case WriteFailed => !broken && Whole(rest) && |l.log| == writes
  }

  /** For every way of handing out the bytes: the requests answered are the first of
      the reference framing, in order, and the loop stops where it must. */
  lemma LifeServes(input: seq<Byte>, plan: nat -> nat, writes: nat, size: nat) returns (rest: seq<Byte>)
    requires size == 4096 || size == 8192
    ensures var l := LifeOf(input, plan, writes, size);
            && Frames(input) == FramesOf(l.log) + Frames(rest)
            && StoppedBefore(l, input, plan, writes, rest)
            && AllPlaced(l.log, input)
  {
    var l := LifeOf(input, plan, writes, size);
    forall d | Soundly(|input|)(d)
      ensures Keeps(Steps(input, plan), Soundly(|input|), FramesAhead(input), WellPlaced(input), d)
    {
      StepKeepsFrames(input, plan, d);
    }
    RepeatKeeps(Steps(input, plan), Soundly(|input|), FramesAhead(input), WellPlaced(input), writes, First(size));
    rest := input[Start(l.last)..];
    assert input[0..] == input;
    forall i | 0 <= i < |l.log|
      ensures Placed(l.log[i], input)
    {
      assert WellPlaced(input)(l.log[i]);
    }
  }

  // ----- When the path is right -----

  /** What the program means to send for these requests. */
  ghost function Ideal(route: (seq<Byte>, seq<Byte>) -> seq<Byte>, fs: seq<Frame>): (sent: seq<seq<Byte>>)
    ensures |sent| == |fs|
    ensures forall i :: 0 <= i < |fs| ==> sent[i] == route(PathOf(fs[i].head), fs[i].body)
  {
    seq(|fs|, i requires 0 <= i < |fs| => route(PathOf(fs[i].head), fs[i].body))
  }

  /** What it does send. */
  ghost function Replies(route: (seq<Byte>, seq<Byte>) -> seq<Byte>, log: seq<Served>): (sent: seq<seq<Byte>>)
    ensures |sent| == |log|
    ensures forall i :: 0 <= i < |log| ==> sent[i] == route(log[i].path, log[i].frame.body)
  {
    seq(|log|, i requires 0 <= i < |log| => route(log[i].path, log[i].frame.body))
  }

  lemma UnmovedIsRight(v: Served, input: seq<Byte>)
    requires Placed(v, input) && !Moved(v)
    ensures v.path == PathOf(v.frame.head)
  {
    PathIsRight(v.frame.head, input[v.start..], v.pos, 0);
  }

  /** A request none of which was there before the answer to the one before it is
      never moved; nor is the first, nor any of a stream of at most 4096 bytes. */
  lemma NeverMoved(input: seq<Byte>, plan: nat -> nat, writes: nat, size: nat)
    requires size == 4096 || size == 8192
    ensures var log := LifeOf(input, plan, writes, size).log;
            forall i :: 0 <= i < |log| && (i == 0 || log[i].early == 0 || |input| <= 4096) ==> !Moved(log[i])
  {
    var rest := LifeServes(input, plan, writes, size);
    var log := LifeOf(input, plan, writes, size).log;
    forall i | 0 <= i < |log| && (i == 0 || log[i].early == 0 || |input| <= 4096)
      ensures !Moved(log[i])
    {
      assert Placed(log[i], input);
    }
  }

  ghost predicate NoneMoved(log: seq<Served>) {
    forall i :: 0 <= i < |log| ==> !Moved(log[i])
  }

  /** If no request is moved, everything sent is what the program means to send. */
  lemma UnmovedRepliesIdeal(input: seq<Byte>, plan: nat -> nat, writes: nat, size: nat,
                            route: (seq<Byte>, seq<Byte>) -> seq<Byte>)
    requires size == 4096 || size == 8192
    requires NoneMoved(LifeOf(input, plan, writes, size).log)
    ensures var log := LifeOf(input, plan, writes, size).log;
            |log| <= |Frames(input)| && Replies(route, log) == Ideal(route, Frames(input)[..|log|])
  {
    var rest := LifeServes(input, plan, writes, size);
    var log := LifeOf(input, plan, writes, size).log;
    forall i | 0 <= i < |log|
      ensures Replies(route, log)[i] == Ideal(route, Frames(input)[..|log|])[i]
    {
      assert Placed(log[i], input);
      UnmovedIsRight(log[i], input);
      assert log[i].frame == FramesOf(log)[i] == Frames(input)[i];
    }
  }

  /** Equal requests, none of them moved, get equal responses. */
  lemma SameAnswers(input: seq<Byte>, route: (seq<Byte>, seq<Byte>) -> seq<Byte>, log: seq<Served>, log': seq<Served>)
    requires AllPlaced(log, input) && AllPlaced(log', input) && FramesOf(log) == FramesOf(log')
    requires NoneMoved(log) && NoneMoved(log')
    ensures Replies(route, log) == Replies(route, log')
  {
    assert |log| == |FramesOf(log)| == |log'|;
    forall i | 0 <= i < |log|
      ensures Replies(route, log)[i] == Replies(route, log')[i]
    {
      assert Placed(log[i], input) && Placed(log'[i], input);
      UnmovedIsRight(log[i], input);
      UnmovedIsRight(log'[i], input);
      assert FramesOf(log)[i] == FramesOf(log')[i];
    }
  }

  /** Two lives of one stream answer the same requests as far as both go, and all of
      them if neither is cut short. */
  lemma SameRequests(input: seq<Byte>, fs: seq<Frame>, rest: seq<Byte>, gs: seq<Frame>, rest': seq<Byte>)
    requires Frames(input) == fs + Frames(rest) == gs + Frames(rest')
    ensures fs <= gs || gs <= fs
    ensures !Whole(rest) && !Whole(rest') ==> fs == gs
  {
    var all := Frames(input);
    assert fs == all[..|fs|] && gs == all[..|gs|];
  }

  // ----- A first read that fills the buffer -----

  /** A request at stream position s, with a head of h bytes and n bytes in all, is not
      the first, and its head but not all of it is among the first 4096 bytes. */
  predicate Straddles(s: nat, h: nat, n: nat) {
    0 < s && s + h <= 4096 < s + n
  }

  /** A full buffer, nothing of which was answered yet. */
  predicate Full(c: Cursor) {
    c.size == c.used == c.at == 4096 && c.pos == 0
  }

  /** Nothing was read yet, and whatever up to 4096 bytes is waited for, the buffer is
      full then. */
  ghost predicate AboutToFill(plan: nat -> nat, len: nat, c: Cursor) {
    && Sound(c, len) && c.pos == 0 && Start(c) == 0
    && forall need {:trigger FillTo(plan, len, need, c)} :: 0 < need <= 4096 ==> Full(FillTo(plan, len, need, c))
  }

  /** The cursor before the first read, or after it with the next request inside the
      full buffer, or past that. */
  ghost function FilledFirst(plan: nat -> nat, len: nat): Cursor -> bool {
    c => Sound(c, len)
         && (AboutToFill(plan, len, c) || (c.size == c.used == c.at == 4096 && c.pos > 0) || Start(c) >= 4096)
  }

  ghost function MovedIfStraddling(): Served -> bool {
    (v: Served) => v.start < 4096 ==> (Moved(v) <==> Straddles(v.start, |v.frame.head|, FrameSize(v.frame)))
  }

  lemma FillOnce(plan: nat -> nat, len: nat, c: Cursor, need: nat, d: Cursor)
    requires Sound(c, len) && c.used - c.pos < need <= MAX_REQUEST && c.at < len && d == Turn(plan, len, c)
    requires Sound(d, len) && d.used - d.pos >= need
    ensures FillTo(plan, len, need, c) == d
  {
  }

  /** Where a request begins in the buffer when its head is complete. */
  lemma FilledHead(input: seq<Byte>, plan: nat -> nat, c: Cursor, h: nat)
    requires FilledFirst(plan, |input|)(c) && Start(c) < 4096 && h == HeadLen(input[Start(c)..]) > 0
    ensures var d := AtHead(input, plan, c);
            if c.pos > 0 && c.pos + h <= 4096 then d.pos == c.pos && d.size == 4096 else d.pos == 0
  {
  }

  lemma NextAfterFirst(input: seq<Byte>, plan: nat -> nat, c: Cursor, h: nat, n: nat)
    requires AboutToFill(plan, |input|, c) && Whole(input[Start(c)..])
    requires h == HeadLen(input[Start(c)..]) && n == FrameLen(input[Start(c)..]) && 0 < h <= n < 4096
    ensures FilledFirst(plan, |input|)(NextCursor(input, plan, c))
  {
    var d := AtHead(input, plan, c);
    assert Full(FillTo(plan, |input|, h, c));
    assert FillTo(plan, |input|, n, d) == d;
  }

  lemma NextInside(input: seq<Byte>, plan: nat -> nat, c: Cursor, h: nat, n: nat)
    requires Sound(c, |input|) && c.size == c.used == c.at == 4096 && c.pos > 0 && Whole(input[Start(c)..])
    requires h == HeadLen(input[Start(c)..]) && n == FrameLen(input[Start(c)..]) && h <= n && Start(c) + n < 4096
    ensures FilledFirst(plan, |input|)(NextCursor(input, plan, c))
  {
    assert AtHead(input, plan, c) == c;
    assert FillTo(plan, |input|, n, c) == c;
  }

  lemma StepMoves(input: seq<Byte>, plan: nat -> nat, c: Cursor)
    requires FilledFirst(plan, |input|)(c)
    ensures Keeps(Steps(input, plan), FilledFirst(plan, |input|), FramesAhead(input), MovedIfStraddling(), c)
  {
    StepKeepsFrames(input, plan, c);
    if StepAt(input, plan, c).Serve? {
      ServedMoves(input, plan, c);
      NextIsFilled(input, plan, c);
    }
  }

  lemma ServedMoves(input: seq<Byte>, plan: nat -> nat, c: Cursor)
    requires FilledFirst(plan, |input|)(c) && Whole(input[Start(c)..])
    ensures MovedIfStraddling()(NextServed(input, plan, c))
  {
    if Start(c) < 4096 {
      FilledHead(input, plan, c, HeadLen(input[Start(c)..]));
    }
  }

  lemma NextIsFilled(input: seq<Byte>, plan: nat -> nat, c: Cursor)
    requires FilledFirst(plan, |input|)(c) && Whole(input[Start(c)..])
    ensures FilledFirst(plan, |input|)(NextCursor(input, plan, c))
  {
    var h, n := HeadLen(input[Start(c)..]), FrameLen(input[Start(c)..]);
    if Start(c) + n < 4096 {
      if AboutToFill(plan, |input|, c) {
        NextAfterFirst(input, plan, c, h, n);
      } else {
        NextInside(input, plan, c, h, n);
      }
    }
  }

  lemma FilledFrom(input: seq<Byte>, plan: nat -> nat, writes: nat, c: Cursor)
    requires FilledFirst(plan, |input|)(c)
    ensures AllGood(Repeat(Steps(input, plan), writes, c).log, MovedIfStraddling())
  {
    forall d | FilledFirst(plan, |input|)(d)
      ensures Keeps(Steps(input, plan), FilledFirst(plan, |input|), FramesAhead(input), MovedIfStraddling(), d)
    {
      StepMoves(input, plan, d);
    }
    RepeatKeeps(Steps(input, plan), FilledFirst(plan, |input|), FramesAhead(input), MovedIfStraddling(), writes, c);
  }

  lemma FirstTurn(plan: nat -> nat, len: nat)
    requires plan(0) >= 4096 && 4096 <= len
    ensures Turn(plan, len, First(4096)) == Cursor(4096, 0, 4096, 4096, 1)
  {
  }

  lemma FirstFill(plan: nat -> nat, len: nat, c: Cursor, d: Cursor)
    requires Sound(c, len) && c.pos == c.used == c.at == 0 && len > 0 && d == Turn(plan, len, c) && Sound(d, len)
             && Full(d)
    ensures AboutToFill(plan, len, c)
  {
    forall need | 0 < need <= 4096
      ensures Full(FillTo(plan, len, need, c))
    {
      FillOnce(plan, len, c, need, d);
    }
  }

  /** If the first read fills a buffer of 4096 bytes, then of the requests that begin
      among those bytes exactly those are moved that straddle their end. */
  lemma StraddlingMoves(input: seq<Byte>, plan: nat -> nat, writes: nat)
    requires plan(0) >= 4096 && |input| >= 4096
    ensures forall v :: v in LifeOf(input, plan, writes, 4096).log && v.start < 4096 ==>
                          (Moved(v) <==> Straddles(v.start, |v.frame.head|, FrameSize(v.frame)))
  {
    FirstTurn(plan, |input|);
    FirstFill(plan, |input|, First(4096), Cursor(4096, 0, 4096, 4096, 1));
    FilledFrom(input, plan, writes, First(4096));
    GoodMoves(LifeOf(input, plan, writes, 4096).log);
  }

  lemma GoodMoves(log: seq<Served>)
    requires AllGood(log, MovedIfStraddling())
    ensures forall v ::
              v in log && v.start < 4096 ==> (Moved(v) <==> Straddles(v.start, |v.frame.head|, FrameSize(v.frame)))
  {
    forall v | v in log && v.start < 4096
      ensures Moved(v) <==> Straddles(v.start, |v.frame.head|, FrameSize(v.frame))
    {
      var i :| 0 <= i < |log| && log[i] == v;
      assert MovedIfStraddling()(log[i]);
    }
  }

  // ----- Streams without malformed heads -----

  /** No space in the head at the front, or a length that has wrapped to a negative
      number. */
  ghost predicate Malformed(s: seq<Byte>) {
    HeadLen(s) > 0 && (32 !in HeadOf(s) || ContentLength(HeadOf(s)) < 0)
  }

  /** No head of the stream is malformed, up to where requests stop being whole. */
  ghost predicate Regular(s: seq<Byte>)
    decreases |s|
  {
    !Malformed(s) && (Whole(s) ==> Regular(s[FrameLen(s)..]))
  }

  ghost function Regularly(input: seq<Byte>): Cursor -> bool {
    c => Sound(c, |input|) && Regular(input[Start(c)..])
  }

  ghost function Anyhow(): Served -> bool {
    v => true
  }

  lemma StepKeepsRegular(input: seq<Byte>, plan: nat -> nat, c: Cursor)
    requires Regularly(input)(c)
    ensures Keeps(Steps(input, plan), Regularly(input), FramesAhead(input), Anyhow(), c)
    ensures Steps(input, plan)(c) != Stop(Panicked)
  {
    StepKeepsFrames(input, plan, c);
    if StepAt(input, plan, c).Serve? {
      NextStart(input, plan, c);
    }
  }

  /** Without a malformed head every request is answered until a write fails. */
  lemma RegularLife(input: seq<Byte>, plan: nat -> nat, writes: nat, size: nat)
    requires (size == 4096 || size == 8192) && Regular(input)
    ensures var l, n := LifeOf(input, plan, writes, size), |Frames(input)|;
            && |l.log| == (if writes < n then writes else n)
            && l.status == if writes < n then WriteFailed else Closed
  {
    var l := LifeOf(input, plan, writes, size);
    var rest := LifeServes(input, plan, writes, size);
    assert input[0..] == input;
    forall d | Regularly(input)(d)
      ensures Keeps(Steps(input, plan), Regularly(input), FramesAhead(input), Anyhow(), d)
    {
      StepKeepsRegular(input, plan, d);
    }
    RepeatKeeps(Steps(input, plan), Regularly(input), FramesAhead(input), Anyhow(), writes, First(size));
    StepKeepsRegular(input, plan, l.last);
  }

  /** A stream the buffer holds as a whole, without a malformed head. */
  ghost predicate Small(input: seq<Byte>) {
    |input| <= 4096 && Regular(input)
  }

  lemma AllUnmoved(input: seq<Byte>, plan: nat -> nat, writes: nat, size: nat,
                   route: (seq<Byte>, seq<Byte>) -> seq<Byte>)
    requires (size == 4096 || size == 8192) && NoneMoved(LifeOf(input, plan, writes, size).log)
    requires |LifeOf(input, plan, writes, size).log| == if writes < |Frames(input)| then writes else |Frames(input)|
    ensures Replies(route, LifeOf(input, plan, writes, size).log) ==
            Ideal(route, if writes < |Frames(input)| then Frames(input)[..writes] else Frames(input))
  {
    UnmovedRepliesIdeal(input, plan, writes, size, route);
    assert Frames(input)[..|Frames(input)|] == Frames(input);
  }

  /** A stream of at most 4096 bytes without malformed heads: the answers do not
      depend on how the bytes are handed out. */
  lemma SmallStream(input: seq<Byte>, plan: nat -> nat, writes: nat, size: nat,
                    route: (seq<Byte>, seq<Byte>) -> seq<Byte>)
    requires (size == 4096 || size == 8192) && Small(input)
    ensures Replies(route, LifeOf(input, plan, writes, size).log) ==
            Ideal(route, if writes < |Frames(input)| then Frames(input)[..writes] else Frames(input))
  {
    RegularLife(input, plan, writes, size);
    NeverMoved(input, plan, writes, size);
    AllUnmoved(input, plan, writes, size, route);
  }

  /** Two lives of the same bytes, however each has them handed out. */
  ghost predicate Agree(input: seq<Byte>, route: (seq<Byte>, seq<Byte>) -> seq<Byte>, l: Life, l': Life) {
    && FramesOf(l.log) <= Frames(input) && FramesOf(l'.log) <= Frames(input)
    && (FramesOf(l.log) <= FramesOf(l'.log) || FramesOf(l'.log) <= FramesOf(l.log))
    && (l.status.Closed? && l'.status.Closed? ==> FramesOf(l.log) == FramesOf(l'.log))
    && (FramesOf(l.log) == FramesOf(l'.log) && NoneMoved(l.log) && NoneMoved(l'.log) ==>
        Replies(route, l.log) == Replies(route, l'.log))
  }

  lemma TwoLives(input: seq<Byte>, route: (seq<Byte>, seq<Byte>) -> seq<Byte>, plan: nat -> nat, writes: nat, size: nat,
                 plan': nat -> nat, writes': nat, size': nat)
    requires (size == 4096 || size == 8192) && (size' == 4096 || size' == 8192)
    ensures Agree(input, route, LifeOf(input, plan, writes, size), LifeOf(input, plan', writes', size'))
  {
    var rest := LifeServes(input, plan, writes, size);
    var rest' := LifeServes(input, plan', writes', size');
    var l, l' := LifeOf(input, plan, writes, size), LifeOf(input, plan', writes', size');
    SameRequests(input, FramesOf(l.log), rest, FramesOf(l'.log), rest');
    if FramesOf(l.log) == FramesOf(l'.log) && NoneMoved(l.log) && NoneMoved(l'.log) {
      SameAnswers(input, route, l.log, l'.log);
    }
  }

  /** Then the answers do not depend on how the bytes are handed out. */
  lemma TwoSmallLives(input: seq<Byte>, route: (seq<Byte>, seq<Byte>) -> seq<Byte>, plan: nat -> nat, plan': nat -> nat,
                      writes: nat, size: nat, size': nat)
    requires (size == 4096 || size == 8192) && (size' == 4096 || size' == 8192)
    requires Small(input)
    ensures var l, l' := LifeOf(input, plan, writes, size), LifeOf(input, plan', writes, size');
            l.status == l'.status && Replies(route, l.log) == Replies(route, l'.log)
  {
    RegularLife(input, plan, writes, size);
    RegularLife(input, plan', writes, size');
    SmallStream(input, plan, writes, size, route);
    SmallStream(input, plan', writes, size', route);
  }

  // ----- One byte a read -----

  lemma {:induction false} FillOneByOne(plan: nat -> nat, len: nat, need: nat, c: Cursor)
    requires Sound(c, len) && need <= MAX_REQUEST && (forall t :: plan(t) == 1)
    requires c.pos == 0 && c.used <= need && Start(c) + need <= len
    ensures FillTo(plan, len, need, c).pos == 0 && FillTo(plan, len, need, c).used == need
    decreases len - c.at
  {
    if c.used < need {
      FillOneByOne(plan, len, need, Turn(plan, len, c));
    }
  }

  ghost function Drained(len: nat): Cursor -> bool {
    c => Sound(c, len) && c.pos == c.used == 0
  }

  ghost function AtFront(): Served -> bool {
    (v: Served) => v.pos == 0
  }

  lemma StepDrains(input: seq<Byte>, plan: nat -> nat, c: Cursor)
    requires Drained(|input|)(c) && forall t :: plan(t) == 1
    ensures Keeps(Steps(input, plan), Drained(|input|), FramesAhead(input), AtFront(), c)
  {
    StepKeepsFrames(input, plan, c);
    if StepAt(input, plan, c).Serve? {
      var s := input[Start(c)..];
      FillOneByOne(plan, |input|, HeadLen(s), c);
      FillOneByOne(plan, |input|, FrameLen(s), AtHead(input, plan, c));
    }
  }

  lemma DrainedFrom(input: seq<Byte>, plan: nat -> nat, writes: nat, c: Cursor)
    requires Drained(|input|)(c) && forall t :: plan(t) == 1
    ensures var log := Repeat(Steps(input, plan), writes, c).log;
            forall i :: 0 <= i < |log| ==> log[i].pos == 0
  {
    forall d | Drained(|input|)(d)
      ensures Keeps(Steps(input, plan), Drained(|input|), FramesAhead(input), AtFront(), d)
    {
      StepDrains(input, plan, d);
    }
    RepeatKeeps(Steps(input, plan), Drained(|input|), FramesAhead(input), AtFront(), writes, c);
    var log := Repeat(Steps(input, plan), writes, c).log;
    forall i | 0 <= i < |log|
      ensures log[i].pos == 0
    {
      assert AtFront()(log[i]);
    }
  }

  lemma DrainedNeverMoved(input: seq<Byte>, plan: nat -> nat, writes: nat, c: Cursor)
    requires Drained(|input|)(c) && forall t :: plan(t) == 1
    ensures NoneMoved(Repeat(Steps(input, plan), writes, c).log)
  {
    DrainedFrom(input, plan, writes, c);
  }

  lemma FirstIsDrained(len: nat, size: nat)
    requires size == 4096 || size == 8192
    ensures Drained(len)(First(size))
  {
  }

  /** Handed out byte by byte, no stream has a request moved. */
  lemma OneByOneNeverMoved(input: seq<Byte>, plan: nat -> nat, writes: nat, size: nat)
    requires (size == 4096 || size == 8192) && forall t :: plan(t) == 1
    ensures NoneMoved(LifeOf(input, plan, writes, size).log)
  {
    FirstIsDrained(|input|, size);
    DrainedNeverMoved(input, plan, writes, First(size));
  }

  /** So such a stream, without malformed heads, is answered as it is meant to be. */
  lemma OneByOneStream(input: seq<Byte>, plan: nat -> nat, writes: nat, size: nat,
                       route: (seq<Byte>, seq<Byte>) -> seq<Byte>)
    requires (size == 4096 || size == 8192) && Regular(input) && forall t :: plan(t) == 1
    ensures Replies(route, LifeOf(input, plan, writes, size).log) ==
            Ideal(route, if writes < |Frames(input)| then Frames(input)[..writes] else Frames(input))
  {
    RegularLife(input, plan, writes, size);
    OneByOneNeverMoved(input, plan, writes, size);
    AllUnmoved(input, plan, writes, size, route);
  }

  // ----- Slices out of range -----

  /** Whole requests with a space in their heads, then a head that declares a length
      which has wrapped to a negative number. */
  ghost predicate EndsNegative(s: seq<Byte>)
    decreases |s|
  {
    && HeadLen(s) > 0
    && (ContentLength(HeadOf(s)) < 0 || (32 in HeadOf(s) && Whole(s) && EndsNegative(s[FrameLen(s)..])))
  }

  ghost function Negatively(input: seq<Byte>): Cursor -> bool {
    c => Sound(c, |input|) && EndsNegative(input[Start(c)..])
  }

  lemma StepKeepsNegative(input: seq<Byte>, plan: nat -> nat, c: Cursor)
    requires Negatively(input)(c)
    ensures Keeps(Steps(input, plan), Negatively(input), FramesAhead(input), Anyhow(), c)
    ensures Steps(input, plan)(c) == Stop(Panicked) || Whole(input[Start(c)..])
  {
    StepKeepsFrames(input, plan, c);
    if StepAt(input, plan, c).Serve? {
      NextStart(input, plan, c);
    }
  }

  /** Such a head makes the loop slice out of range, however the bytes come, once
      everything in front of it was answered. */
  lemma NegativeLengthBreaks(input: seq<Byte>, plan: nat -> nat, writes: nat, size: nat)
    requires (size == 4096 || size == 8192) && EndsNegative(input) && |Frames(input)| <= writes
    ensures LifeOf(input, plan, writes, size).status == Panicked
    ensures FramesOf(LifeOf(input, plan, writes, size).log) == Frames(input)
  {
    var l := LifeOf(input, plan, writes, size);
    var rest := LifeServes(input, plan, writes, size);
    assert input[0..] == input;
    forall d | Negatively(input)(d)
      ensures Keeps(Steps(input, plan), Negatively(input), FramesAhead(input), Anyhow(), d)
    {
      StepKeepsNegative(input, plan, d);
    }
    RepeatKeeps(Steps(input, plan), Negatively(input), FramesAhead(input), Anyhow(), writes, First(size));
    StepKeepsNegative(input, plan, l.last);
    if Whole(rest) {
      FramesUnfold(rest);
    }
  }

  /** A head without any space, and not with a negative length. */
  ghost predicate Spaceless(s: seq<Byte>) {
    HeadLen(s) > 0 && 32 !in HeadOf(s) && ContentLength(HeadOf(s)) >= 0
  }

  ghost predicate BreaksAtOnce(l: Life) {
    l.status.Panicked? && l.log == []
  }

  /** A request at the front of the buffer, as the first one is, whose head has no
      space makes the loop slice out of range exactly if its head is as long as the
      buffer that holds it. */
  lemma SpacelessHeadBreaks(input: seq<Byte>, plan: nat -> nat, writes: nat, c: Cursor, s: seq<Byte>)
    requires Sound(c, |input|) && c.pos == 0 && s == input[Start(c)..] && Spaceless(s)
    ensures BreaksAtOnce(Repeat(Steps(input, plan), writes, c)) <==> HeadLen(s) == c.size || HeadLen(s) == 8192
  {
    var h := HeadLen(s);
    var d := AtHead(input, plan, c);
    assert d.pos == 0;
    assert h <= c.size ==> d.size == c.size;
    assert h > c.size ==> d.size == 8192;
  }
}
