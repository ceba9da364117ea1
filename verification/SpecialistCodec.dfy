/** The on-disk form of the specialist index: written out, then parsed back. */
module SpecialistCodec {
  import opened Bytes
  import opened Geometry
  import opened KdTree

  /** "SPCST001" */
  const MAGIC: seq<Byte> := [83, 80, 67, 83, 84, 48, 48, 49]

  const VERSION: U32 := 1

  /** An index with its reference count, as the file holds it. */
  datatype File = File(n: nat, idx: SpecialistIndex)

  datatype Parse = Parsed(file: File) | TooShort | BadMagic | BadVersion | BadScale | Truncated | OutOfRange

  datatype Saved = Done | WriteFailed | BufferTooSmall

  // ----- What fits the format -----

  predicate FitsPartition(p: Partition) {
    p.key < 0x1_0000_0000 && p.root < 0x1_0000_0000 && ValidBox(p.box)
  }

  predicate FitsNode(n: Node) {
    && -0x8000_0000 <= n.left < 0x8000_0000 && -0x8000_0000 <= n.right < 0x8000_0000
    && n.blockStart < 0x1_0000_0000 && n.len < 0x1_0000_0000 && ValidBox(n.box)
  }

  ghost predicate Fits(f: File) {
    && f.n < 0x1_0000_0000 && |f.idx.partitions| < 0x1_0000_0000 && |f.idx.nodes| < 0x1_0000_0000
        && f.idx.blockCount < 0x1_0000_0000
    && (forall i :: 0 <= i < |f.idx.partitions| ==> FitsPartition(f.idx.partitions[i]))
    && (forall i :: 0 <= i < |f.idx.nodes| ==> FitsNode(f.idx.nodes[i]))
    && |f.idx.blockData| == 112 * f.idx.blockCount && |f.idx.labels| == 8 * f.idx.blockCount
    && (forall i :: 0 <= i < |f.idx.labels| ==> f.idx.labels[i] < 256)
  }

  // ----- The format -----

  /** A box is two arrays of 16. */
  function EncBox(b: Box): (r: seq<Byte>)
    ensures |r| == 64
  {
    if ValidBox(b) then EncI16s(b.min) + EncI16s(b.max) else seq(64, _ => 0)
  }

  function EncPartition(p: Partition): (r: seq<Byte>)
    ensures |r| == 72
  {
    PutU32(FromI32(p.key)) + (PutU32(FromI32(p.root)) + EncBox(p.box))
  }

  function EncNode(n: Node): (r: seq<Byte>)
    ensures |r| == 80
  {
    PutU32(FromI32(n.left))
      + (PutU32(FromI32(n.right)) + (PutU32(FromI32(n.blockStart)) + (PutU32(FromI32(n.len)) + EncBox(n.box))))
  }

  /** The entries of a directory, one after the other. */
  function EncAll<T>(enc: T -> seq<Byte>, xs: seq<T>): seq<Byte> {
    if xs == [] then [] else EncAll(enc, xs[..|xs| - 1]) + enc(xs[|xs| - 1])
  }

  lemma {:induction false} EncAllLength<T>(enc: T -> seq<Byte>, w: nat, xs: seq<T>)
    requires forall x :: |enc(x)| == w
    ensures |EncAll(enc, xs)| == w * |xs|
    decreases |xs|
  {
    if xs == [] {
      assert w * 0 == 0;
    } else {
      var n := |xs| - 1;
      EncAllLength(enc, w, xs[..n]);
      assert |enc(xs[n])| == w;
      OneMore(w, n, |xs|);
    }
  }

  lemma OneMore(w: nat, n: nat, m: nat)
    requires m == n + 1
    ensures w * m == w * n + w
  {
  }

  function EncPartitions(ps: seq<Partition>): (r: seq<Byte>)
    ensures |r| == 72 * |ps|
  {
    EncAllLength(EncPartition, 72, ps);
    EncAll(EncPartition, ps)
  }

  function EncNodes(ns: seq<Node>): (r: seq<Byte>)
    ensures |r| == 80 * |ns|
  {
    EncAllLength(EncNode, 80, ns);
    EncAll(EncNode, ns)
  }

  const RESERVED: seq<Byte> := [0, 0, 0, 0, 0, 0, 0, 0, 0, 0, 0, 0, 0, 0, 0, 0]

  function EncHeader(n: U32, parts: U32, nodes: U32, blocks: U32): (r: seq<Byte>)
    ensures |r| == 48
  {
    MAGIC + (PutU32(VERSION)
             + (PutU32(10000) + (PutU32(n) + (PutU32(parts) + (PutU32(nodes) + (PutU32(blocks) + RESERVED))))))
  }

  function EncLabels(labels: seq<nat>): (r: seq<Byte>)
    ensures |r| == |labels| && forall i :: 0 <= i < |r| ==> r[i] == labels[i] % 256
  {
    seq(|labels|, i requires 0 <= i < |labels| => labels[i] % 256)
  }

  function EncBody(f: File): seq<Byte> {
    EncPartitions(f.idx.partitions) + (EncNodes(f.idx.nodes) + (EncI16s(f.idx.blockData) + EncLabels(f.idx.labels)))
  }

  function HeaderOf(f: File): (r: seq<Byte>)
    ensures |r| == 48
  {
    EncHeader(FromI32(f.n), FromI32(|f.idx.partitions|), FromI32(|f.idx.nodes|), FromI32(f.idx.blockCount))
  }

  function Encode(f: File): seq<Byte> {
    HeaderOf(f) + EncBody(f)
  }

  // ----- Writing -----

  /** The block buffer is sized in 32-bit arithmetic. */
  predicate BlocksFit(blockCount: nat) {
    blockCount * 224 < 0x1_0000_0000
  }

  method WriteBlocks(data: seq<Int16>, blockCount: nat) returns (ok: bool, buf: seq<Byte>)
    requires |data| == 112 * blockCount
    ensures ok <==> BlocksFit(blockCount)
    ensures ok ==> buf == EncI16s(data)
  {
    var blockBytes := blockCount * 224 % 0x1_0000_0000;
    buf := [];
    ok := true;
    for i := 0 to |data|
      invariant buf == EncI16s(data[..i]) && 2 * i <= blockBytes
    {
      if i * 2 + 2 > blockBytes {
        ok := false;
        return;
      }
      assert data[..i + 1][..i] == data[..i];
      buf := buf + PutU16(FromI16(data[i]));
    }
    assert data[..|data|] == data;
  }

  method WritePartitions(w: Writer, ps: seq<Partition>) returns (ok: bool)
    modifies w
    ensures ok <==> ps == [] || old(w.writes) + |ps| <= w.writesOk
    ensures ok ==> w.data == old(w.data) + EncPartitions(ps) && w.writes == old(w.writes) + |ps|
  {
    for i := 0 to |ps|
      invariant w.data == old(w.data) + EncPartitions(ps[..i])
      invariant w.writes == old(w.writes) + i && (i > 0 ==> w.writes <= w.writesOk)
    {
      assert ps[..i + 1][..i] == ps[..i];
      ok := w.Write(EncPartition(ps[i]));
      if !ok {
        return;
      }
    }
    assert ps[..|ps|] == ps;
    ok := true;
  }

  method WriteNodes(w: Writer, ns: seq<Node>) returns (ok: bool)
    modifies w
    ensures ok <==> ns == [] || old(w.writes) + |ns| <= w.writesOk
    ensures ok ==> w.data == old(w.data) + EncNodes(ns) && w.writes == old(w.writes) + |ns|
  {
    for i := 0 to |ns|
      invariant w.data == old(w.data) + EncNodes(ns[..i])
      invariant w.writes == old(w.writes) + i && (i > 0 ==> w.writes <= w.writesOk)
    {
      assert ns[..i + 1][..i] == ns[..i];
      ok := w.Write(EncNode(ns[i]));
      if !ok {
        return;
      }
    }
    assert ns[..|ns|] == ns;
    ok := true;
  }

  /** Blocks, then labels. */
  method WriteLanes(w: Writer, data: seq<Int16>, blockCount: nat, labels: seq<nat>) returns (r: Saved)
    requires |data| == 112 * blockCount
    modifies w
    ensures r.Done? ==> w.data == old(w.data) + EncI16s(data) + EncLabels(labels)
    ensures r.BufferTooSmall? <==> !BlocksFit(blockCount)
    ensures r.Done? <==> BlocksFit(blockCount) && old(w.writes) + 2 <= w.writesOk
  {
    var ok, buf := WriteBlocks(data, blockCount);
    if !ok {
      return BufferTooSmall;
    }
    ok := w.Write(buf);
    if !ok {
      return WriteFailed;
    }
    ok := w.Write(EncLabels(labels));
    r := if ok then Done else WriteFailed;
  }

  lemma Regroup(o: seq<Byte>, h: seq<Byte>, p: seq<Byte>, n: seq<Byte>, b: seq<Byte>, l: seq<Byte>)
    ensures o + h + p + n + b + l == o + (h + (p + (n + (b + l))))
  {
  }

  /** What writing a file comes to when left more writes would succeed: one for the
      header, one per entry, then the blocks, whose buffer comes out too small exactly
      when they do not fit 32-bit sizes, and the labels. */
  function SavedWith(f: File, left: int): Saved {
    var entries := 1 + |f.idx.partitions| + |f.idx.nodes|;
    if left < entries then WriteFailed
    else if !BlocksFit(f.idx.blockCount) then BufferTooSmall
    else if left < entries + 2 then WriteFailed
    else Done
  }

  /** Writes the whole file. */
  method Serialize(f: File, w: Writer) returns (r: Saved)
    requires |f.idx.blockData| == 112 * f.idx.blockCount
    modifies w
    ensures r == SavedWith(f, w.writesOk - old(w.writes))
    ensures r.Done? ==> w.data == old(w.data) + Encode(f)
  {
    var ok := w.Write(HeaderOf(f));
    if !ok {
      return WriteFailed;
    }
    ok := WritePartitions(w, f.idx.partitions);
    if !ok {
      return WriteFailed;
    }
    ok := WriteNodes(w, f.idx.nodes);
    if !ok {
      return WriteFailed;
    }
    r := WriteLanes(w, f.idx.blockData, f.idx.blockCount, f.idx.labels);
    Regroup(old(w.data), HeaderOf(f), EncPartitions(f.idx.partitions), EncNodes(f.idx.nodes), EncI16s(f.idx.blockData),
        EncLabels(f.idx.labels));
  }

  // ----- Parsing -----

  function DecBox(raw: seq<Byte>, off: nat): (b: Box)
    requires off + 64 <= |raw|
  {
    Box(DecI16s(raw, off, off + 32), DecI16s(raw, off + 32, off + 64))
  }

  function DecPartition(raw: seq<Byte>, off: nat): Partition
    requires off + 72 <= |raw|
  {
    Partition(U32At(raw, off), U32At(raw, off + 4), DecBox(raw, off + 8))
  }

  function DecNode(raw: seq<Byte>, off: nat): Node
    requires off + 80 <= |raw|
  {
    Node(ToI32(U32At(raw, off)), ToI32(U32At(raw, off + 4)), U32At(raw, off + 8), U32At(raw, off + 12),
         DecBox(raw, off + 16))
  }

  function DecPartitions(raw: seq<Byte>, off: nat, n: nat): (ps: seq<Partition>)
    requires off + 72 * n <= |raw|
    ensures |ps| == n
  {
    seq(n, i requires 0 <= i < n => DecPartition(raw, off + 72 * i))
  }

  lemma DecPartitionsNext(raw: seq<Byte>, off: nat, n: nat)
    requires off + 72 * (n + 1) <= |raw|
    ensures DecPartitions(raw, off, n + 1) == DecPartitions(raw, off, n) + [DecPartition(raw, off + 72 * n)]
  {
  }

  function DecNodes(raw: seq<Byte>, off: nat, n: nat): (ns: seq<Node>)
    requires off + 80 * n <= |raw|
    ensures |ns| == n
  {
    seq(n, i requires 0 <= i < n => DecNode(raw, off + 80 * i))
  }

  lemma DecNodesNext(raw: seq<Byte>, off: nat, n: nat)
    requires off + 80 * (n + 1) <= |raw|
    ensures DecNodes(raw, off, n + 1) == DecNodes(raw, off, n) + [DecNode(raw, off + 80 * n)]
  {
  }

  // ----- Round trips of the parts -----

  lemma BoxBack(raw: seq<Byte>, off: nat, b: Box)
    requires ValidBox(b) && Shows(raw, off, EncBox(b))
    ensures DecBox(raw, off) == b
  {
    ShowsBoth(raw, off, EncI16s(b.min), EncI16s(b.max));
    I16sRoundTrip(raw, off, b.min);
    I16sRoundTrip(raw, off + 32, b.max);
  }

  /** A number read from the front, and what stands behind it. */
  lemma U32First(raw: seq<Byte>, off: nat, x: U32, rest: seq<Byte>)
    requires Shows(raw, off, PutU32(x) + rest)
    ensures off + 4 <= |raw| && U32At(raw, off) == x && Shows(raw, off + 4, rest)
  {
    ShowsBoth(raw, off, PutU32(x), rest);
    U32Back(raw, off, x);
  }

  lemma PartitionBack(raw: seq<Byte>, off: nat, p: Partition)
    requires FitsPartition(p) && Shows(raw, off, EncPartition(p))
    ensures DecPartition(raw, off) == p
  {
    var k, r := FromI32(p.key), FromI32(p.root);
    U32First(raw, off, k, PutU32(r) + EncBox(p.box));
    U32First(raw, off + 4, r, EncBox(p.box));
    BoxBack(raw, off + 8, p.box);
  }

  lemma NodeBack(raw: seq<Byte>, off: nat, n: Node)
    requires FitsNode(n) && Shows(raw, off, EncNode(n))
    ensures DecNode(raw, off) == n
  {
    NodeFieldsBack(raw, off, FromI32(n.left), FromI32(n.right), FromI32(n.blockStart), FromI32(n.len), EncBox(n.box));
    SignedRoundTrip(n.left);
    SignedRoundTrip(n.right);
    BoxBack(raw, off + 16, n.box);
  }

  lemma NodeFieldsBack(raw: seq<Byte>, off: nat, l: U32, r: U32, start: U32, len: U32, box: seq<Byte>)
    requires Shows(raw, off, PutU32(l) + (PutU32(r) + (PutU32(start) + (PutU32(len) + box))))
    ensures Shows(raw, off + 16, box)
    ensures U32At(raw, off) == l && U32At(raw, off + 4) == r && U32At(raw, off + 8) == start
            && U32At(raw, off + 12) == len
  {
    var b := PutU32(len) + box;
    var a := PutU32(start) + b;
    U32First(raw, off, l, PutU32(r) + a);
    U32First(raw, off + 4, r, a);
    U32First(raw, off + 8, start, b);
    U32First(raw, off + 12, len, box);
  }

  /** Entry i of a directory stands i entries behind its start. */
  lemma {:induction false} EntryShown<T>(raw: seq<Byte>, off: nat, enc: T -> seq<Byte>, w: nat, xs: seq<T>, i: nat)
    requires i < |xs| && Shows(raw, off, EncAll(enc, xs)) && forall x :: |enc(x)| == w
    ensures Shows(raw, off + w * i, enc(xs[i]))
    decreases |xs|
  {
    var n := |xs| - 1;
    EncAllLength(enc, w, xs[..n]);
    ShowsBoth(raw, off, EncAll(enc, xs[..n]), enc(xs[n]));
    if i < n {
      EntryShown(raw, off, enc, w, xs[..n], i);
    }
  }

  // ----- The parser -----

  /** What parsing the bytes comes to, with spare bytes behind them in the same
      allocation. Partitions and nodes are read without a check of the length, so that
      a directory cut short is noticed at the end of the allocation, or only with the
      blocks. Bytes after the labels are ignored. */
  function ParseOf(raw: seq<Byte>, spare: nat): Parse {
    if |raw| < 48 then TooShort
    else if raw[..8] != MAGIC then BadMagic
    else if U32At(raw, 8) != VERSION then BadVersion
    else if U32At(raw, 12) != 10000 then BadScale
    else
      var n: nat, parts: nat, nodes: nat, blocks: nat := U32At(raw, 16), U32At(raw, 20), U32At(raw, 24), U32At(raw, 28);
      var off := 48 + 72 * parts;
      var off' := off + 80 * nodes;
      if off' > |raw| + spare then OutOfRange
      else if off' > |raw| then Truncated
      else LanesOf(raw, n, parts, nodes, blocks, off, off')
  }

  function LanesOf(raw: seq<Byte>, n: nat, parts: nat, nodes: nat, blocks: nat, off: nat, off': nat): Parse
    requires off == 48 + 72 * parts && off' == off + 80 * nodes <= |raw|
  {
    if off' + 232 * blocks > |raw| then Truncated
    else
      var at := off' + 224 * blocks;
      Parsed(File(n, SpecialistIndex(DecPartitions(raw, 48, parts), DecNodes(raw, off, nodes), blocks,
                                     DecI16s(raw, off', at), DecLabels(raw, at, 8 * blocks))))
  }

  function DecLabels(raw: seq<Byte>, off: nat, n: nat): (labels: seq<nat>)
    requires off + n <= |raw|
    ensures |labels| == n && forall i :: 0 <= i < n ==> labels[i] == raw[off + i]
  {
    seq(n, i requires 0 <= i < n => raw[off + i])
  }

  lemma LabelsBack(raw: seq<Byte>, off: nat, labels: seq<nat>)
    requires (forall i :: 0 <= i < |labels| ==> labels[i] < 256) && Shows(raw, off, EncLabels(labels))
    ensures DecLabels(raw, off, |labels|) == labels
  {
    forall i | 0 <= i < |labels|
      ensures raw[off + i] == labels[i]
    {
      assert ShowsByte(raw, off, EncLabels(labels), i);
    }
  }

  lemma HeaderBack(raw: seq<Byte>, n: U32, parts: U32, nodes: U32, blocks: U32)
    requires Shows(raw, 0, EncHeader(n, parts, nodes, blocks))
    ensures raw[..8] == MAGIC && U32At(raw, 8) == VERSION && U32At(raw, 12) == 10000
    ensures U32At(raw, 16) == n && U32At(raw, 20) == parts && U32At(raw, 24) == nodes && U32At(raw, 28) == blocks
  {
    var e := PutU32(blocks) + RESERVED;
    var d := PutU32(nodes) + e;
    var c := PutU32(parts) + d;
    var b := PutU32(n) + c;
    ShowsBoth(raw, 0, MAGIC, PutU32(VERSION) + (PutU32(10000) + b));
    ShowsSlice(raw, 0, MAGIC);
    U32First(raw, 8, VERSION, PutU32(10000) + b);
    U32First(raw, 12, 10000, b);
    CountsBack(raw, n, parts, nodes, blocks);
  }

  lemma CountsBack(raw: seq<Byte>, n: U32, parts: U32, nodes: U32, blocks: U32)
    requires Shows(raw, 16, PutU32(n) + (PutU32(parts) + (PutU32(nodes) + (PutU32(blocks) + RESERVED))))
    ensures U32At(raw, 16) == n && U32At(raw, 20) == parts && U32At(raw, 24) == nodes && U32At(raw, 28) == blocks
  {
    var e := PutU32(blocks) + RESERVED;
    var d := PutU32(nodes) + e;
    U32First(raw, 16, n, PutU32(parts) + d);
    U32First(raw, 20, parts, d);
    U32First(raw, 24, nodes, e);
    U32First(raw, 28, blocks, RESERVED);
  }

  /** The four sections after the header. */
  lemma SectionsShown(raw: seq<Byte>, f: File, off: nat, off': nat, at: nat)
    requires off == 48 + 72 * |f.idx.partitions| && off' == off + 80 * |f.idx.nodes|
             && at == off' + 2 * |f.idx.blockData|
    requires Shows(raw, 48, EncBody(f))
    ensures Shows(raw, 48, EncPartitions(f.idx.partitions)) && Shows(raw, off, EncNodes(f.idx.nodes))
    ensures Shows(raw, off', EncI16s(f.idx.blockData)) && Shows(raw, at, EncLabels(f.idx.labels))
  {
    FourShown(raw, EncPartitions(f.idx.partitions), EncNodes(f.idx.nodes), EncI16s(f.idx.blockData),
              EncLabels(f.idx.labels), off, off', at);
  }

  lemma FourShown(raw: seq<Byte>, p: seq<Byte>, n: seq<Byte>, b: seq<Byte>, l: seq<Byte>, off: nat, off': nat, at: nat)
    requires Shows(raw, 48, p + (n + (b + l))) && off == 48 + |p| && off' == off + |n| && at == off' + |b|
    ensures Shows(raw, 48, p) && Shows(raw, off, n) && Shows(raw, off', b) && Shows(raw, at, l)
  {
    ShowsBoth(raw, 48, p, n + (b + l));
    ShowsBoth(raw, off, n, b + l);
    ShowsBoth(raw, off', b, l);
  }

  ghost predicate HeaderReads(raw: seq<Byte>, f: File) {
    && |raw| >= 48 && raw[..8] == MAGIC && U32At(raw, 8) == VERSION && U32At(raw, 12) == 10000
    && U32At(raw, 16) == f.n && U32At(raw, 20) == |f.idx.partitions|
    && U32At(raw, 24) == |f.idx.nodes| && U32At(raw, 28) == f.idx.blockCount
  }

  ghost predicate SectionsRead(raw: seq<Byte>, f: File, off: nat, off': nat, at: nat) {
    && off == 48 + 72 * |f.idx.partitions| && off' == off + 80 * |f.idx.nodes| && at == off' + 2 * |f.idx.blockData|
    && at + |f.idx.labels| <= |raw|
    && DecPartitions(raw, 48, |f.idx.partitions|) == f.idx.partitions
        && DecNodes(raw, off, |f.idx.nodes|) == f.idx.nodes
    && DecI16s(raw, off', at) == f.idx.blockData && DecLabels(raw, at, |f.idx.labels|) == f.idx.labels
  }

  lemma SectionsBack(raw: seq<Byte>, f: File, off: nat, off': nat, at: nat)
    requires Fits(f) && Shows(raw, 48, EncBody(f))
    requires off == 48 + 72 * |f.idx.partitions| && off' == off + 80 * |f.idx.nodes|
             && at == off' + 2 * |f.idx.blockData|
    ensures SectionsRead(raw, f, off, off', at)
  {
    SectionsShown(raw, f, off, off', at);
    AllPartitionsBack(raw, 48, f.idx.partitions);
    AllNodesBack(raw, off, f.idx.nodes);
    LanesBack(raw, off', at, f.idx.blockData, f.idx.labels);
  }

  lemma LanesBack(raw: seq<Byte>, off: nat, at: nat, data: seq<Int16>, labels: seq<nat>)
    requires at == off + 2 * |data| && Shows(raw, off, EncI16s(data)) && Shows(raw, at, EncLabels(labels))
    requires forall i :: 0 <= i < |labels| ==> labels[i] < 256
    ensures at + |labels| <= |raw| && DecI16s(raw, off, at) == data && DecLabels(raw, at, |labels|) == labels
  {
    I16sRoundTrip(raw, off, data);
    LabelsBack(raw, at, labels);
  }

  lemma DecPartitionAt(raw: seq<Byte>, off: nat, ps: seq<Partition>, i: nat)
    requires i < |ps| && FitsPartition(ps[i]) && Shows(raw, off, EncPartitions(ps))
    ensures off + 72 * (i + 1) <= |raw| && DecPartition(raw, off + 72 * i) == ps[i]
  {
    EntryShown(raw, off, EncPartition, 72, ps, i);
    PartitionBack(raw, off + 72 * i, ps[i]);
  }

  lemma AllPartitionsBack(raw: seq<Byte>, off: nat, ps: seq<Partition>)
    requires (forall i :: 0 <= i < |ps| ==> FitsPartition(ps[i])) && Shows(raw, off, EncPartitions(ps))
    ensures off + 72 * |ps| <= |raw| && DecPartitions(raw, off, |ps|) == ps
  {
    forall i | 0 <= i < |ps|
      ensures DecPartition(raw, off + 72 * i) == ps[i]
    {
      DecPartitionAt(raw, off, ps, i);
    }
  }

  lemma DecNodeAt(raw: seq<Byte>, off: nat, ns: seq<Node>, i: nat)
    requires i < |ns| && FitsNode(ns[i]) && Shows(raw, off, EncNodes(ns))
    ensures off + 80 * (i + 1) <= |raw| && DecNode(raw, off + 80 * i) == ns[i]
  {
    EntryShown(raw, off, EncNode, 80, ns, i);
    NodeBack(raw, off + 80 * i, ns[i]);
  }

  lemma AllNodesBack(raw: seq<Byte>, off: nat, ns: seq<Node>)
    requires (forall i :: 0 <= i < |ns| ==> FitsNode(ns[i])) && Shows(raw, off, EncNodes(ns))
    ensures off + 80 * |ns| <= |raw| && DecNodes(raw, off, |ns|) == ns
  {
    forall i | 0 <= i < |ns|
      ensures DecNode(raw, off + 80 * i) == ns[i]
    {
      DecNodeAt(raw, off, ns, i);
    }
  }

  lemma HeaderShown(raw: seq<Byte>, f: File)
    requires Fits(f) && Shows(raw, 0, HeaderOf(f))
    ensures HeaderReads(raw, f)
  {
    HeaderBack(raw, FromI32(f.n), FromI32(|f.idx.partitions|), FromI32(|f.idx.nodes|), FromI32(f.idx.blockCount));
  }

  lemma ReadsParse(raw: seq<Byte>, spare: nat, f: File, off: nat, off': nat, at: nat)
    requires |f.idx.blockData| == 112 * f.idx.blockCount && |f.idx.labels| == 8 * f.idx.blockCount
    requires HeaderReads(raw, f) && SectionsRead(raw, f, off, off', at)
    ensures ParseOf(raw, spare) == Parsed(f)
  {
  }

  lemma ShownParts(raw: seq<Byte>, h: seq<Byte>, b: seq<Byte>, rest: seq<Byte>)
    requires raw == h + b + rest
    ensures Shows(raw, 0, h) && Shows(raw, |h|, b)
  {
  }

  lemma EncodedReads(raw: seq<Byte>, f: File, rest: seq<Byte>, off: nat, off': nat, at: nat)
    requires Fits(f) && raw == Encode(f) + rest
    requires off == 48 + 72 * |f.idx.partitions| && off' == off + 80 * |f.idx.nodes|
             && at == off' + 2 * |f.idx.blockData|
    ensures HeaderReads(raw, f) && SectionsRead(raw, f, off, off', at)
  {
    ShownParts(raw, HeaderOf(f), EncBody(f), rest);
    HeaderShown(raw, f);
    SectionsBack(raw, f, off, off', at);
  }

  /** Parsing gives back exactly the index that was written, whatever follows it. */
  lemma FileRoundTrip(raw: seq<Byte>, spare: nat, f: File, rest: seq<Byte>)
    requires Fits(f) && raw == Encode(f) + rest
    ensures ParseOf(raw, spare) == Parsed(f)
  {
    var off := 48 + 72 * |f.idx.partitions|;
    var off' := off + 80 * |f.idx.nodes|;
    var at := off' + 2 * |f.idx.blockData|;
    EncodedReads(raw, f, rest, off, off', at);
    ReadsParse(raw, spare, f, off, off', at);
  }

  // ----- The format, byte by byte -----

  /** The header: the magic word, version 1, the scale 10000, the four counts and
      sixteen zeros, numbers low byte first. */
  lemma HeaderIs(n: U32, parts: U32, nodes: U32, blocks: U32)
    ensures var h := EncHeader(n, parts, nodes, blocks);
            && |h| == 48 && (forall k :: 0 <= k < 8 ==> h[k] == "SPCST001"[k] as int)
            && h[8..12] == [1, 0, 0, 0] && h[12..16] == [16, 39, 0, 0]
            && h[16..20] == LittleEndian(n) && h[20..24] == LittleEndian(parts)
            && h[24..28] == LittleEndian(nodes) && h[28..32] == LittleEndian(blocks)
            && h[32..] == [0, 0, 0, 0, 0, 0, 0, 0, 0, 0, 0, 0, 0, 0, 0, 0]
  {
    MagicIs();
    FixedNumbers();
    PutU32IsLittleEndian(n);
    PutU32IsLittleEndian(parts);
    PutU32IsLittleEndian(nodes);
    PutU32IsLittleEndian(blocks);
    HeaderParts(MAGIC, PutU32(VERSION), PutU32(10000), PutU32(n), PutU32(parts), PutU32(nodes), PutU32(blocks),
                RESERVED, EncHeader(n, parts, nodes, blocks));
  }

  lemma FixedNumbers()
    ensures PutU32(VERSION) == [1, 0, 0, 0] && PutU32(10000) == [16, 39, 0, 0]
  {
    PutU32IsLittleEndian(1);
    PutU32IsLittleEndian(10000);
  }

  lemma MagicIs()
    ensures |MAGIC| == 8 && forall k :: 0 <= k < 8 ==> MAGIC[k] == "SPCST001"[k] as int
  {
  }

  lemma HeaderParts(m: seq<Byte>, v: seq<Byte>, s: seq<Byte>, n: seq<Byte>, p: seq<Byte>, d: seq<Byte>, b: seq<Byte>,
                    r: seq<Byte>, h: seq<Byte>)
    requires |m| == 8 && |v| == |s| == |n| == |p| == |d| == |b| == 4
    requires h == m + (v + (s + (n + (p + (d + (b + r))))))
    ensures forall i :: 0 <= i < 8 ==> h[i] == m[i]
    ensures h[8..12] == v && h[12..16] == s && h[16..20] == n && h[20..24] == p && h[24..28] == d && h[28..32] == b
    ensures h[32..] == r
  {
  }

  /** A file starts with the header of its counts. */
  lemma WrittenHeader(f: File)
    requires Fits(f)
    ensures EncHeader(f.n, |f.idx.partitions|, |f.idx.nodes|, f.idx.blockCount) <= Encode(f)
  {
  }

  /** A box at off: sixteen minima, sixteen maxima. */
  ghost predicate BoxHolds(raw: seq<Byte>, off: nat, b: Box) {
    ValidBox(b) && HoldsI16s(raw, off, b.min) && HoldsI16s(raw, off + 32, b.max)
  }

  ghost predicate PartitionHolds(raw: seq<Byte>, off: nat, p: Partition) {
    && off + 72 <= |raw| && U32At(raw, off) == p.key && U32At(raw, off + 4) == p.root && BoxHolds(raw, off + 8, p.box)
  }

  ghost predicate NodeHolds(raw: seq<Byte>, off: nat, n: Node) {
    && off + 80 <= |raw| && ToI32(U32At(raw, off)) == n.left && ToI32(U32At(raw, off + 4)) == n.right
    && U32At(raw, off + 8) == n.blockStart && U32At(raw, off + 12) == n.len && BoxHolds(raw, off + 16, n.box)
  }

  ghost predicate LabelsHold(raw: seq<Byte>, at: nat, labels: seq<nat>) {
    at + |labels| <= |raw| && forall i :: 0 <= i < |labels| ==> labels[i] == raw[at + i]
  }

  ghost predicate PartitionsHold(raw: seq<Byte>, off: nat, ps: seq<Partition>) {
    forall i :: 0 <= i < |ps| ==> PartitionHolds(raw, off + 72 * i, ps[i])
  }

  ghost predicate NodesHold(raw: seq<Byte>, off: nat, ns: seq<Node>) {
    forall i :: 0 <= i < |ns| ==> NodeHolds(raw, off + 80 * i, ns[i])
  }

  /** Where everything stands in a file. */
  ghost predicate FileHolds(raw: seq<Byte>, f: File) {
    var parts, nodes, blocks := |f.idx.partitions|, |f.idx.nodes|, f.idx.blockCount;
    && PartitionsHold(raw, 48, f.idx.partitions) && NodesHold(raw, 48 + 72 * parts, f.idx.nodes)
    && |f.idx.blockData| == 112 * blocks && HoldsI16s(raw, 48 + 72 * parts + 80 * nodes, f.idx.blockData)
    && |f.idx.labels| == 8 * blocks && LabelsHold(raw, 48 + 72 * parts + 80 * nodes + 224 * blocks, f.idx.labels)
  }

  lemma BoxDecoded(raw: seq<Byte>, off: nat)
    requires off + 64 <= |raw|
    ensures BoxHolds(raw, off, DecBox(raw, off))
  {
    SignedHolds(raw, off, off + 32, DecI16s(raw, off, off + 32));
    SignedHolds(raw, off + 32, off + 64, DecI16s(raw, off + 32, off + 64));
  }

  lemma PartitionDecoded(raw: seq<Byte>, off: nat)
    requires off + 72 <= |raw|
    ensures PartitionHolds(raw, off, DecPartition(raw, off))
  {
    BoxDecoded(raw, off + 8);
  }

  lemma NodeDecoded(raw: seq<Byte>, off: nat)
    requires off + 80 <= |raw|
    ensures NodeHolds(raw, off, DecNode(raw, off))
  {
    BoxDecoded(raw, off + 16);
  }

  lemma PartitionsDecoded(raw: seq<Byte>, off: nat, n: nat)
    requires off + 72 * n <= |raw|
    ensures PartitionsHold(raw, off, DecPartitions(raw, off, n))
  {
    forall i | 0 <= i < n
      ensures PartitionHolds(raw, off + 72 * i, DecPartitions(raw, off, n)[i])
    {
      PartitionDecoded(raw, off + 72 * i);
    }
  }

  lemma NodesDecoded(raw: seq<Byte>, off: nat, n: nat)
    requires off + 80 * n <= |raw|
    ensures NodesHold(raw, off, DecNodes(raw, off, n))
  {
    forall i | 0 <= i < n
      ensures NodeHolds(raw, off + 80 * i, DecNodes(raw, off, n)[i])
    {
      NodeDecoded(raw, off + 80 * i);
    }
  }

  /** What the parser accepts stands in the bytes where the format has it. */
  lemma ParsedHolds(raw: seq<Byte>, spare: nat)
    requires ParseOf(raw, spare).Parsed?
    ensures FileHolds(raw, ParseOf(raw, spare).file)
  {
    var off, off' := LanesParsed(raw, spare);
    LanesHold(raw, U32At(raw, 16), U32At(raw, 20), U32At(raw, 24), U32At(raw, 28), off, off', ParseOf(raw, spare));
  }

  lemma LanesParsed(raw: seq<Byte>, spare: nat) returns (off: nat, off': nat)
    requires ParseOf(raw, spare).Parsed?
    ensures |raw| >= 48 && off == 48 + 72 * U32At(raw, 20) && off' == off + 80 * U32At(raw, 24) <= |raw|
    ensures ParseOf(raw, spare) ==
            LanesOf(raw, U32At(raw, 16), U32At(raw, 20), U32At(raw, 24), U32At(raw, 28), off, off')
  {
    off := 48 + 72 * U32At(raw, 20);
    off' := off + 80 * U32At(raw, 24);
  }

  lemma LanesHold(raw: seq<Byte>, n: nat, parts: nat, nodes: nat, blocks: nat, off: nat, off': nat, r: Parse)
    requires off == 48 + 72 * parts && off' == off + 80 * nodes <= |raw|
    requires r == LanesOf(raw, n, parts, nodes, blocks, off, off') && r.Parsed?
    ensures FileHolds(raw, r.file)
  {
    var at := off' + 224 * blocks;
    PartitionsDecoded(raw, 48, parts);
    NodesDecoded(raw, off, nodes);
    SignedHolds(raw, off', at, DecI16s(raw, off', at));
    LabelsDecoded(raw, at, 8 * blocks);
    AllHold(raw, r.file, off, off', at);
  }

  lemma AllHold(raw: seq<Byte>, f: File, off: nat, off': nat, at: nat)
    requires off == 48 + 72 * |f.idx.partitions| && off' == off + 80 * |f.idx.nodes|
             && at == off' + 224 * f.idx.blockCount
    requires |f.idx.blockData| == 112 * f.idx.blockCount && |f.idx.labels| == 8 * f.idx.blockCount
    requires PartitionsHold(raw, 48, f.idx.partitions) && NodesHold(raw, off, f.idx.nodes)
    requires HoldsI16s(raw, off', f.idx.blockData) && LabelsHold(raw, at, f.idx.labels)
    ensures FileHolds(raw, f)
  {
  }

  lemma LabelsDecoded(raw: seq<Byte>, at: nat, n: nat)
    requires at + n <= |raw|
    ensures LabelsHold(raw, at, DecLabels(raw, at, n))
  {
  }

  ghost predicate StartsWithMagic(raw: seq<Byte>)
    requires |raw| >= 8
  {
    forall k :: 0 <= k < 8 ==> "SPCST001"[k] as int == raw[k]
  }

  lemma MagicMatches(raw: seq<Byte>)
    requires |raw| >= 8
    ensures raw[..8] == MAGIC <==> StartsWithMagic(raw)
  {
    MagicIs();
    SameStart(raw, MAGIC);
  }

  /** The first bytes decide whether a file is taken for one at all. */
  lemma HeaderChecked(raw: seq<Byte>, spare: nat)
    requires |raw| >= 48
    ensures var r := ParseOf(raw, spare);
            && (r.BadMagic? <==> !StartsWithMagic(raw))
            && (r.BadVersion? <==> !r.BadMagic? && raw[8..12] != [1, 0, 0, 0])
            && (r.BadScale? <==> !r.BadMagic? && !r.BadVersion? && raw[12..16] != [16, 39, 0, 0])
  {
    MagicMatches(raw);
    ReadsAs(raw, 8, 1);
    ReadsAs(raw, 12, 10000);
    assert LittleEndian(1) == [1, 0, 0, 0] && LittleEndian(10000) == [16, 39, 0, 0];
  }

  /** So what is written stands there too. */
  lemma WrittenHolds(f: File)
    requires Fits(f)
    ensures FileHolds(Encode(f), f)
  {
    FileRoundTrip(Encode(f), 0, f, []);
    ParsedHolds(Encode(f), 0);
  }

  method ReadPartitions(raw: seq<Byte>, off: nat, n: nat) returns (ok: bool, ps: seq<Partition>)
    requires off <= |raw|
    ensures ok <==> off + 72 * n <= |raw|
    ensures ok ==> ps == DecPartitions(raw, off, n)
  {
    ps, ok := [], true;
    for i := 0 to n
      invariant off + 72 * i <= |raw| && ps == DecPartitions(raw, off, i)
    {
      var at := off + 72 * i;
      if at + 72 > |raw| {
        ok := false;
        return;
      }
      DecPartitionsNext(raw, off, i);
      ps := ps + [DecPartition(raw, at)];
    }
  }

  method ReadNodes(raw: seq<Byte>, off: nat, n: nat) returns (ok: bool, ns: seq<Node>)
    requires off <= |raw|
    ensures ok <==> off + 80 * n <= |raw|
    ensures ok ==> ns == DecNodes(raw, off, n)
  {
    ns, ok := [], true;
    for i := 0 to n
      invariant off + 80 * i <= |raw| && ns == DecNodes(raw, off, i)
    {
      var at := off + 80 * i;
      if at + 80 > |raw| {
        ok := false;
        return;
      }
      DecNodesNext(raw, off, i);
      ns := ns + [DecNode(raw, at)];
    }
  }

  method ReadBlocks(raw: seq<Byte>, off: nat, n: nat) returns (data: seq<Int16>)
    requires off + 2 * n <= |raw|
    ensures data == DecI16s(raw, off, off + 2 * n)
  {
    data := [];
    for i := 0 to n
      invariant data == DecI16s(raw, off, off + 2 * i)
    {
      data := data + [ToI16(U16At(raw, off + 2 * i))];
    }
  }

  /** Numbers do not depend on what lies behind them. */
  lemma SameNumbers(raw: seq<Byte>, all: seq<Byte>, off: nat)
    requires raw <= all && off + 4 <= |raw|
    ensures U32At(all, off) == U32At(raw, off)
  {
  }

  lemma {:induction false} SameI16s(raw: seq<Byte>, all: seq<Byte>, lo: nat, hi: nat)
    requires raw <= all && lo <= hi <= |raw|
    ensures DecI16s(all, lo, hi) == DecI16s(raw, lo, hi)
    decreases hi
  {
    if lo + 2 <= hi {
      SameI16s(raw, all, lo, hi - 2);
    }
  }

  lemma SameBox(raw: seq<Byte>, all: seq<Byte>, off: nat)
    requires raw <= all && off + 64 <= |raw|
    ensures DecBox(all, off) == DecBox(raw, off)
  {
    SameI16s(raw, all, off, off + 32);
    SameI16s(raw, all, off + 32, off + 64);
  }

  lemma SamePartitions(raw: seq<Byte>, all: seq<Byte>, off: nat, n: nat)
    requires raw <= all && off + 72 * n <= |raw|
    ensures DecPartitions(all, off, n) == DecPartitions(raw, off, n)
  {
    forall i: nat | i < n
      ensures DecPartition(all, off + 72 * i) == DecPartition(raw, off + 72 * i)
    {
      SameNumbers(raw, all, off + 72 * i);
      SameNumbers(raw, all, off + 72 * i + 4);
      SameBox(raw, all, off + 72 * i + 8);
    }
  }

  lemma SameNodes(raw: seq<Byte>, all: seq<Byte>, off: nat, n: nat)
    requires raw <= all && off + 80 * n <= |raw|
    ensures DecNodes(all, off, n) == DecNodes(raw, off, n)
  {
    forall i: nat | i < n
      ensures DecNode(all, off + 80 * i) == DecNode(raw, off + 80 * i)
    {
      SameNumbers(raw, all, off + 80 * i);
      SameNumbers(raw, all, off + 80 * i + 4);
      SameNumbers(raw, all, off + 80 * i + 8);
      SameNumbers(raw, all, off + 80 * i + 12);
      SameBox(raw, all, off + 80 * i + 16);
    }
  }

  /** Parses the bytes raw, behind which the allocation goes on. */
  method ParseInto(raw: seq<Byte>, behind: seq<Byte>) returns (r: Parse)
    ensures r == ParseOf(raw, |behind|)
  {
    if |raw| < 48 {
      return TooShort;
    }
    if raw[..8] != MAGIC {
      return BadMagic;
    }
    if U32At(raw, 8) != VERSION {
      return BadVersion;
    }
    if U32At(raw, 12) != 10000 {
      return BadScale;
    }
    var parts: nat, nodes: nat, blocks: nat := U32At(raw, 20), U32At(raw, 24), U32At(raw, 28);
    r := ParseRest(raw, raw + behind, U32At(raw, 16), parts, nodes, blocks);
  }

  /** The part of the parser behind the header checks. Slices reach to the end of all. */
  method ParseRest(raw: seq<Byte>, all: seq<Byte>, n: U32, parts: nat, nodes: nat, blocks: nat) returns (r: Parse)
    requires |raw| >= 48 && raw <= all
    ensures r == if 48 + 72 * parts + 80 * nodes > |all| then OutOfRange
                 else if 48 + 72 * parts + 80 * nodes > |raw| then Truncated
                 else LanesOf(raw, n, parts, nodes, blocks, 48 + 72 * parts, 48 + 72 * parts + 80 * nodes)
  {
    var ok, ps := ReadPartitions(all, 48, parts);
    if !ok {
      return OutOfRange;
    }
    var ns;
    ok, ns := ReadNodes(all, 48 + 72 * parts, nodes);
    if !ok {
      return OutOfRange;
    }
    if 48 + 72 * parts + 80 * nodes <= |raw| {
      SamePartitions(raw, all, 48, parts);
      SameNodes(raw, all, 48 + 72 * parts, nodes);
    }
    r := ParseLanes(raw, n, ps, ns, parts, nodes, blocks);
  }

  method ParseLanes(raw: seq<Byte>, n: U32, ps: seq<Partition>, ns: seq<Node>, parts: nat, nodes: nat, blocks: nat)
    returns (r: Parse)
    requires 48 + 72 * parts + 80 * nodes <= |raw| ==>
               ps == DecPartitions(raw, 48, parts) && ns == DecNodes(raw, 48 + 72 * parts, nodes)
    ensures r == if 48 + 72 * parts + 80 * nodes > |raw| then Truncated
                 else LanesOf(raw, n, parts, nodes, blocks, 48 + 72 * parts, 48 + 72 * parts + 80 * nodes)
  {
    var off: nat := 48 + 72 * parts + 80 * nodes;
    if off + 224 * blocks > |raw| {
      return Truncated;
    }
    var data := ReadBlocks(raw, off, 112 * blocks);
    off := off + 224 * blocks;
    if off + 8 * blocks > |raw| {
      return Truncated;
    }
    r := Parsed(File(n, SpecialistIndex(ps, ns, blocks, data, DecLabels(raw, off, 8 * blocks))));
  }
}
