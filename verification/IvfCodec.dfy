/** The on-disk form of the inverted-file index and its two readers: the one that
    copies from a stream and the one that views a mapped file in place. */
module IvfCodec {
  import opened Bytes

  /** "IVF8" */
  const MAGIC: seq<Byte> := [73, 86, 70, 56]

  const VERSION: U32 := 5

  /** Centroids are kept as the bit patterns of their single-precision values. */
  datatype File = File(n: U32, k: U32, blocks: U32, centroids: seq<U32>, offsets: seq<U32>, boxMin: seq<I16>,
                       boxMax: seq<I16>,
                       labels: seq<Byte>, blockData: seq<I16>)

  datatype Parse = Parsed(file: File) | TooShort | BadMagic | BadVersion | SizeMismatch | OutOfRange

  predicate Fits(f: File) {
    && |f.centroids| == 14 * f.k && |f.offsets| == f.k + 1
    && |f.boxMin| == 16 * f.k && |f.boxMax| == 16 * f.k
    && |f.labels| == 8 * f.blocks && |f.blockData| == 112 * f.blocks
  }

  // ----- The format -----

  const RESERVED: seq<Byte> := [0, 0, 0, 0, 0, 0, 0, 0]

  function EncHeader(n: U32, k: U32, blocks: U32): (r: seq<Byte>)
    ensures |r| == 32
  {
    MAGIC + (PutU32(VERSION) + (PutU32(n) + (PutU32(k) + (PutU32(blocks) + (PutU32(10000) + RESERVED)))))
  }

  function EncBody(f: File): seq<Byte> {
    EncU32s(f.centroids)
      + (EncU32s(f.offsets) + (EncI16s(f.boxMin) + (EncI16s(f.boxMax) + (f.labels + EncI16s(f.blockData)))))
  }

  function Encode(f: File): seq<Byte> {
    EncHeader(f.n, f.k, f.blocks) + EncBody(f)
  }

  method Serialize(f: File, w: Writer) returns (ok: bool)
    modifies w
    ensures ok <==> old(w.writes) + 7 <= w.writesOk
    ensures ok ==> w.data == old(w.data) + Encode(f)
  {
    ok := w.Write(EncHeader(f.n, f.k, f.blocks));
    if !ok { return; }
    ok := w.Write(EncU32s(f.centroids));
    if !ok { return; }
    ok := w.Write(EncU32s(f.offsets));
    if !ok { return; }
    ok := w.Write(EncI16s(f.boxMin));
    if !ok { return; }
    ok := w.Write(EncI16s(f.boxMax));
    if !ok { return; }
    ok := w.Write(f.labels);
    if !ok { return; }
    ok := w.Write(EncI16s(f.blockData));
    Regroup(old(w.data), EncHeader(f.n, f.k, f.blocks), EncU32s(f.centroids), EncU32s(f.offsets), EncI16s(f.boxMin),
            EncI16s(f.boxMax),
            f.labels, EncI16s(f.blockData));
  }

  lemma Regroup(o: seq<Byte>, h: seq<Byte>, c: seq<Byte>, s: seq<Byte>, m: seq<Byte>, x: seq<Byte>, l: seq<Byte>,
                b: seq<Byte>)
    ensures o + h + c + s + m + x + l + b == o + (h + (c + (s + (m + (x + (l + b))))))
  {
  }

  // ----- Where the sections lie -----

  /** Offsets of the sections, and of the end, for k clusters and a number of blocks. */
  datatype Layout = Layout(centroids: nat, offsets: nat, boxMin: nat, boxMax: nat, labels: nat, blocks: nat, end: nat)

  function LayoutOf(k: nat, blocks: nat): Layout {
    Layout(32, 32 + 56 * k, 36 + 60 * k, 36 + 92 * k, 36 + 124 * k, 36 + 124 * k + 8 * blocks,
           36 + 124 * k + 232 * blocks)
  }

  /** The index whose sections lie as l says. */
  function FileAt(raw: seq<Byte>, n: U32, k: U32, blocks: U32, l: Layout): (f: File)
    requires l == LayoutOf(k, blocks) && l.end <= |raw|
  {
    File(n, k, blocks, DecU32s(raw, l.centroids, l.offsets), DecU32s(raw, l.offsets, l.boxMin),
         DecI16s(raw, l.boxMin, l.boxMax),
         DecI16s(raw, l.boxMax, l.labels), raw[l.labels..l.blocks], DecI16s(raw, l.blocks, l.end))
  }

  /** The stream reader: anything behind the last section is left unread. */
  function LoadOf(raw: seq<Byte>): Parse {
    if |raw| < 32 then TooShort
    else if raw[..4] != MAGIC then BadMagic
    else if U32At(raw, 4) != VERSION then BadVersion
    else
      var l := LayoutOf(U32At(raw, 12), U32At(raw, 16));
      if l.end > |raw| then TooShort else Parsed(FileAt(raw, U32At(raw, 8), U32At(raw, 12), U32At(raw, 16), l))
  }

  /** The mapped reader takes views without a check of the length, and the address of
      the first element of every numeric section; only then it compares the length. */
  function MmapOf(raw: seq<Byte>): Parse {
    if |raw| < 32 then TooShort
    else if raw[..4] != MAGIC then BadMagic
    else if U32At(raw, 4) != VERSION then BadVersion
    else
      var k, blocks := U32At(raw, 12), U32At(raw, 16);
      var l := LayoutOf(k, blocks);
      if l.end > |raw| || k == 0 || blocks == 0 then OutOfRange
      else if l.end != |raw| then SizeMismatch
      else Parsed(FileAt(raw, U32At(raw, 8), k, blocks, l))
  }

  /** The two readers accept the same file with the same contents, except that the
      mapped one wants it to end with the last section and no section to be empty. */
  lemma ReadersAgree(raw: seq<Byte>)
    ensures MmapOf(raw).Parsed? <==>
            LoadOf(raw).Parsed? && LayoutOf(U32At(raw, 12), U32At(raw, 16)).end == |raw| && U32At(raw, 12) > 0
                && U32At(raw, 16) > 0
    ensures MmapOf(raw).Parsed? ==> MmapOf(raw) == LoadOf(raw)
  {
  }

  // ----- Round trips -----

  lemma HeaderBack(raw: seq<Byte>, n: U32, k: U32, blocks: U32)
    requires Shows(raw, 0, EncHeader(n, k, blocks))
    ensures raw[..4] == MAGIC && U32At(raw, 4) == VERSION && U32At(raw, 8) == n && U32At(raw, 12) == k
            && U32At(raw, 16) == blocks
  {
    var d := PutU32(10000) + RESERVED;
    var c := PutU32(blocks) + d;
    var b := PutU32(k) + c;
    var a := PutU32(n) + b;
    ShowsBoth(raw, 0, MAGIC, PutU32(VERSION) + a);
    ShowsBoth(raw, 4, PutU32(VERSION), a);
    ShowsBoth(raw, 8, PutU32(n), b);
    ShowsBoth(raw, 12, PutU32(k), c);
    ShowsBoth(raw, 16, PutU32(blocks), d);
    ShowsSlice(raw, 0, MAGIC);
    U32Back(raw, 4, VERSION);
    U32Back(raw, 8, n);
    U32Back(raw, 12, k);
    U32Back(raw, 16, blocks);
  }

  lemma SectionsShown(raw: seq<Byte>, c: seq<Byte>, s: seq<Byte>, m: seq<Byte>, x: seq<Byte>, t: seq<Byte>,
                      b: seq<Byte>, l: Layout)
    requires Shows(raw, 32, c + (s + (m + (x + (t + b)))))
    requires l.centroids == 32 && l.offsets == 32 + |c| && l.boxMin == l.offsets + |s| && l.boxMax == l.boxMin + |m|
    requires l.labels == l.boxMax + |x| && l.blocks == l.labels + |t| && l.end == l.blocks + |b|
    ensures Shows(raw, l.centroids, c) && Shows(raw, l.offsets, s) && Shows(raw, l.boxMin, m)
    ensures Shows(raw, l.boxMax, x) && Shows(raw, l.labels, t) && Shows(raw, l.blocks, b)
  {
    ShowsBoth(raw, 32, c, s + (m + (x + (t + b))));
    ShowsBoth(raw, l.offsets, s, m + (x + (t + b)));
    ShowsBoth(raw, l.boxMin, m, x + (t + b));
    ShowsBoth(raw, l.boxMax, x, t + b);
    ShowsBoth(raw, l.labels, t, b);
  }

  ghost predicate SectionsRead(raw: seq<Byte>, f: File, l: Layout) {
    && l.centroids <= l.offsets <= l.boxMin <= l.boxMax <= l.labels <= l.blocks <= l.end <= |raw|
    && DecU32s(raw, l.centroids, l.offsets) == f.centroids && DecU32s(raw, l.offsets, l.boxMin) == f.offsets
    && DecI16s(raw, l.boxMin, l.boxMax) == f.boxMin && DecI16s(raw, l.boxMax, l.labels) == f.boxMax
    && raw[l.labels..l.blocks] == f.labels && DecI16s(raw, l.blocks, l.end) == f.blockData
  }

  lemma U32sBack(raw: seq<Byte>, lo: nat, hi: nat, s: seq<U32>)
    requires hi == lo + 4 * |s| && Shows(raw, lo, EncU32s(s))
    ensures hi <= |raw| && DecU32s(raw, lo, hi) == s
  {
    U32sRoundTrip(raw, lo, s);
  }

  lemma I16sBack(raw: seq<Byte>, lo: nat, hi: nat, s: seq<I16>)
    requires hi == lo + 2 * |s| && Shows(raw, lo, EncI16s(s))
    ensures hi <= |raw| && DecI16s(raw, lo, hi) == s
  {
    I16sRoundTrip(raw, lo, s);
  }

  lemma BytesBack(raw: seq<Byte>, lo: nat, hi: nat, s: seq<Byte>)
    requires hi == lo + |s| && Shows(raw, lo, s)
    ensures hi <= |raw| && raw[lo..hi] == s
  {
    ShowsSlice(raw, lo, s);
  }

  lemma SectionsBack(raw: seq<Byte>, f: File, l: Layout)
    requires l.offsets == l.centroids + 4 * |f.centroids| && l.boxMin == l.offsets + 4 * |f.offsets|
    requires l.boxMax == l.boxMin + 2 * |f.boxMin| && l.labels == l.boxMax + 2 * |f.boxMax|
    requires l.blocks == l.labels + |f.labels| && l.end == l.blocks + 2 * |f.blockData|
    requires Shows(raw, l.centroids, EncU32s(f.centroids)) && Shows(raw, l.offsets, EncU32s(f.offsets))
    requires Shows(raw, l.boxMin, EncI16s(f.boxMin)) && Shows(raw, l.boxMax, EncI16s(f.boxMax))
    requires Shows(raw, l.labels, f.labels) && Shows(raw, l.blocks, EncI16s(f.blockData))
    ensures SectionsRead(raw, f, l)
  {
    U32sBack(raw, l.centroids, l.offsets, f.centroids);
    U32sBack(raw, l.offsets, l.boxMin, f.offsets);
    I16sBack(raw, l.boxMin, l.boxMax, f.boxMin);
    I16sBack(raw, l.boxMax, l.labels, f.boxMax);
    I16sBack(raw, l.blocks, l.end, f.blockData);
    BytesBack(raw, l.labels, l.blocks, f.labels);
  }

  lemma BodyRead(raw: seq<Byte>, f: File, l: Layout)
    requires Fits(f) && Shows(raw, 32, EncBody(f)) && l == LayoutOf(f.k, f.blocks)
    ensures SectionsRead(raw, f, l)
  {
    SectionsShown(raw, EncU32s(f.centroids), EncU32s(f.offsets), EncI16s(f.boxMin), EncI16s(f.boxMax), f.labels,
        EncI16s(f.blockData), l);
    SectionsBack(raw, f, l);
  }

  lemma BodyBack(raw: seq<Byte>, f: File, l: Layout)
    requires SectionsRead(raw, f, l) && l == LayoutOf(f.k, f.blocks)
    ensures FileAt(raw, f.n, f.k, f.blocks, l) == f
  {
  }

  lemma FrontShows(raw: seq<Byte>, h: seq<Byte>, b: seq<Byte>, rest: seq<Byte>)
    requires raw == h + b + rest
    ensures Shows(raw, 0, h) && Shows(raw, |h|, b)
  {
  }

  lemma EncodedLength(f: File)
    requires Fits(f)
    ensures |Encode(f)| == LayoutOf(f.k, f.blocks).end
  {
  }

  /** What was written is read back by the stream reader, whatever follows it; by the
      mapped reader exactly when nothing follows and no section is empty. */
  lemma FileRoundTrip(f: File, rest: seq<Byte>)
    requires Fits(f)
    ensures LoadOf(Encode(f) + rest) == Parsed(f)
    ensures MmapOf(Encode(f) + rest) == Parsed(f) <==> rest == [] && f.k > 0 && f.blocks > 0
    ensures MmapOf(Encode(f) + rest).SizeMismatch? <==> rest != [] && f.k > 0 && f.blocks > 0
  {
    var raw := Encode(f) + rest;
    FrontShows(raw, EncHeader(f.n, f.k, f.blocks), EncBody(f), rest);
    HeaderBack(raw, f.n, f.k, f.blocks);
    BodyRead(raw, f, LayoutOf(f.k, f.blocks));
    BodyBack(raw, f, LayoutOf(f.k, f.blocks));
    EncodedLength(f);
  }

  /** Byte by byte, the header of a file: the magic word, version 5, the three counts,
      the scale 10000 and eight zeros, numbers low byte first. */
  lemma HeaderIs(f: File)
    ensures |EncHeader(f.n, f.k, f.blocks)| == 32 && EncHeader(f.n, f.k, f.blocks) <= Encode(f)
    ensures var h := EncHeader(f.n, f.k, f.blocks);
            && (forall k :: 0 <= k < 4 ==> h[k] == "IVF8"[k] as int)
            && h[4..8] == [5, 0, 0, 0]
            && h[8..12] == LittleEndian(f.n) && h[12..16] == LittleEndian(f.k) && h[16..20] == LittleEndian(f.blocks)
            && h[20..24] == [16, 39, 0, 0]
            && h[24..] == [0, 0, 0, 0, 0, 0, 0, 0]
  {
    MagicIs();
    FixedNumbers();
    PutU32IsLittleEndian(f.n);
    PutU32IsLittleEndian(f.k);
    PutU32IsLittleEndian(f.blocks);
    HeaderParts(MAGIC, PutU32(VERSION), PutU32(f.n), PutU32(f.k), PutU32(f.blocks), PutU32(10000), RESERVED,
                EncHeader(f.n, f.k, f.blocks));
  }

  lemma FixedNumbers()
    ensures PutU32(VERSION) == [5, 0, 0, 0] && PutU32(10000) == [16, 39, 0, 0]
  {
    PutU32IsLittleEndian(5);
    PutU32IsLittleEndian(10000);
  }

  lemma MagicIs()
    ensures |MAGIC| == 4 && forall k :: 0 <= k < 4 ==> MAGIC[k] == "IVF8"[k] as int
  {
  }

  lemma HeaderParts(m: seq<Byte>, v: seq<Byte>, n: seq<Byte>, k: seq<Byte>, b: seq<Byte>, s: seq<Byte>, r: seq<Byte>,
                    h: seq<Byte>)
    requires |m| == |v| == |n| == |k| == |b| == |s| == 4 && h == m + (v + (n + (k + (b + (s + r)))))
    ensures forall i :: 0 <= i < 4 ==> h[i] == m[i]
    ensures h[4..8] == v && h[8..12] == n && h[12..16] == k && h[16..20] == b && h[20..24] == s && h[24..] == r
  {
  }

  /** Where everything else stands in a file. */
  ghost predicate FileHolds(raw: seq<Byte>, f: File)
    requires Fits(f)
  {
    && 36 + 124 * f.k + 232 * f.blocks <= |raw|
    && HoldsU32s(raw, 32, f.centroids) && HoldsU32s(raw, 32 + 56 * f.k, f.offsets)
    && HoldsI16s(raw, 36 + 60 * f.k, f.boxMin) && HoldsI16s(raw, 36 + 92 * f.k, f.boxMax)
    && raw[36 + 124 * f.k..36 + 124 * f.k + 8 * f.blocks] == f.labels
    && HoldsI16s(raw, 36 + 124 * f.k + 8 * f.blocks, f.blockData)
  }

  /** What the stream reader accepts stands in the bytes where the format has it. */
  lemma LoadedHolds(raw: seq<Byte>)
    requires LoadOf(raw).Parsed?
    ensures Fits(LoadOf(raw).file) && FileHolds(raw, LoadOf(raw).file)
  {
    var f := LoadOf(raw).file;
    var l := LayoutOf(f.k, f.blocks);
    SectionSizes(f, l);
    SectionsHold(raw, f, l);
    SectionsLocated(raw, f, l);
  }

  ghost predicate StartsWithMagic(raw: seq<Byte>)
    requires |raw| >= 4
  {
    forall k :: 0 <= k < 4 ==> "IVF8"[k] as int == raw[k]
  }

  lemma MagicMatches(raw: seq<Byte>)
    requires |raw| >= 4
    ensures raw[..4] == MAGIC <==> StartsWithMagic(raw)
  {
    MagicIs();
    SameStart(raw, MAGIC);
  }

  /** The first bytes decide whether a file is taken for one at all. */
  lemma HeaderChecked(raw: seq<Byte>)
    requires |raw| >= 32
    ensures LoadOf(raw).BadMagic? <==> !StartsWithMagic(raw)
    ensures LoadOf(raw).BadVersion? <==> !LoadOf(raw).BadMagic? && raw[4..8] != [5, 0, 0, 0]
    ensures MmapOf(raw).BadMagic? == LoadOf(raw).BadMagic? && MmapOf(raw).BadVersion? == LoadOf(raw).BadVersion?
  {
    MagicMatches(raw);
    ReadsAs(raw, 4, 5);
    assert LittleEndian(5) == [5, 0, 0, 0];
  }

  /** So what is written stands there too. */
  lemma WrittenHolds(f: File)
    requires Fits(f)
    ensures |Encode(f)| == 36 + 124 * f.k + 232 * f.blocks && FileHolds(Encode(f), f)
  {
    EncodedLength(f);
    FileRoundTrip(f, []);
    assert Encode(f) + [] == Encode(f);
    LoadedHolds(Encode(f));
  }

  lemma SectionSizes(f: File, l: Layout)
    requires Fits(f) && l == LayoutOf(f.k, f.blocks)
    ensures SizesOf(f, l)
  {
  }

  ghost predicate SizesOf(f: File, l: Layout) {
    && l.offsets == l.centroids + 4 * |f.centroids| && l.boxMin == l.offsets + 4 * |f.offsets|
    && l.boxMax == l.boxMin + 2 * |f.boxMin| && l.labels == l.boxMax + 2 * |f.boxMax|
    && l.end == l.blocks + 2 * |f.blockData|
  }

  ghost predicate SectionsHeld(raw: seq<Byte>, f: File, l: Layout) {
    && HoldsU32s(raw, l.centroids, f.centroids) && HoldsU32s(raw, l.offsets, f.offsets)
    && HoldsI16s(raw, l.boxMin, f.boxMin) && HoldsI16s(raw, l.boxMax, f.boxMax)
    && HoldsI16s(raw, l.blocks, f.blockData) && l.labels <= l.blocks <= |raw| && raw[l.labels..l.blocks] == f.labels
  }

  lemma SectionsLocated(raw: seq<Byte>, f: File, l: Layout)
    requires Fits(f) && l == LayoutOf(f.k, f.blocks) && SectionsHeld(raw, f, l) && l.end <= |raw|
    ensures FileHolds(raw, f)
  {
  }

  lemma SectionsHold(raw: seq<Byte>, f: File, l: Layout)
    requires SectionsRead(raw, f, l) && SizesOf(f, l)
    ensures SectionsHeld(raw, f, l)
  {
    DecodedHolds(raw, l.centroids, l.offsets, f.centroids);
    DecodedHolds(raw, l.offsets, l.boxMin, f.offsets);
    SignedHolds(raw, l.boxMin, l.boxMax, f.boxMin);
    SignedHolds(raw, l.boxMax, l.labels, f.boxMax);
    SignedHolds(raw, l.blocks, l.end, f.blockData);
  }

  // ----- The readers -----

  method ReadU32s(r: Reader, n: nat, ghost lo: nat, ghost hi: nat) returns (ok: bool, s: seq<U32>)
    requires r.at == lo <= |r.data| && hi == lo + 4 * n
    modifies r`at
    ensures r.at <= |r.data| && (ok <==> hi <= |r.data|)
    ensures ok ==> r.at == hi && s == DecU32s(r.data, lo, hi)
  {
    s := [];
    var b;
    ok, b := r.ReadFull(4 * n);
    if ok {
      U32sInSlice(r.data, lo, hi, hi);
      s := DecU32s(b, 0, |b|);
    }
  }

  method ReadI16s(r: Reader, n: nat, ghost lo: nat, ghost hi: nat) returns (ok: bool, s: seq<I16>)
    requires r.at == lo <= |r.data| && hi == lo + 2 * n
    modifies r`at
    ensures r.at <= |r.data| && (ok <==> hi <= |r.data|)
    ensures ok ==> r.at == hi && s == DecI16s(r.data, lo, hi)
  {
    s := [];
    var b;
    ok, b := r.ReadFull(2 * n);
    if ok {
      I16sInSlice(r.data, lo, hi, hi);
      s := DecI16s(b, 0, |b|);
    }
  }

  /** The sizes of the sections of l. */
  ghost predicate Spaced(l: Layout, k: nat, blocks: nat) {
    && l.offsets == l.centroids + 4 * (14 * k) && l.boxMin == l.offsets + 4 * (k + 1)
    && l.boxMax == l.boxMin + 2 * (16 * k) && l.labels == l.boxMax + 2 * (16 * k)
    && l.blocks == l.labels + 8 * blocks && l.end == l.blocks + 2 * (112 * blocks)
  }

  lemma LayoutSpaced(k: nat, blocks: nat)
    ensures Spaced(LayoutOf(k, blocks), k, blocks) && LayoutOf(k, blocks).centroids == 32
  {
  }

  method ReadFront(r: Reader, k: nat, ghost blocks: nat, ghost l: Layout)
    returns (ok: bool, centroids: seq<U32>, offsets: seq<U32>, boxMin: seq<I16>, boxMax: seq<I16>)
    requires r.at == l.centroids <= |r.data| && Spaced(l, k, blocks)
    modifies r`at
    ensures r.at <= |r.data| && (ok <==> l.labels <= |r.data|)
    ensures ok ==> r.at == l.labels && centroids == DecU32s(r.data, l.centroids, l.offsets)
                   && offsets == DecU32s(r.data, l.offsets, l.boxMin)
                   && boxMin == DecI16s(r.data, l.boxMin, l.boxMax) && boxMax == DecI16s(r.data, l.boxMax, l.labels)
  {
    offsets, boxMin, boxMax := [], [], [];
    ok, centroids := ReadU32s(r, 14 * k, l.centroids, l.offsets);
    if !ok {
      return;
    }
    ok, offsets := ReadU32s(r, k + 1, l.offsets, l.boxMin);
    if !ok {
      return;
    }
    ok, boxMin := ReadI16s(r, 16 * k, l.boxMin, l.boxMax);
    if !ok {
      return;
    }
    ok, boxMax := ReadI16s(r, 16 * k, l.boxMax, l.labels);
  }

  method ReadLanes(r: Reader, ghost k: nat, blocks: nat, ghost l: Layout)
    returns (ok: bool, labels: seq<Byte>, blockData: seq<I16>)
    requires r.at == l.labels <= |r.data| && Spaced(l, k, blocks)
    modifies r`at
    ensures ok <==> l.end <= |r.data|
    ensures ok ==> labels == r.data[l.labels..l.blocks] && blockData == DecI16s(r.data, l.blocks, l.end)
  {
    blockData := [];
    ok, labels := r.ReadFull(8 * blocks);
    if !ok {
      return;
    }
    ok, blockData := ReadI16s(r, 112 * blocks, l.blocks, l.end);
  }

  method ReadSections(r: Reader, n: U32, k: U32, blocks: U32) returns (ok: bool, f: File)
    requires r.at == 32 <= |r.data|
    modifies r`at
    ensures ok <==> LayoutOf(k, blocks).end <= |r.data|
    ensures ok ==> f == FileAt(r.data, n, k, blocks, LayoutOf(k, blocks))
  {
    f := File(n, k, blocks, [], [], [], [], [], []);
    ghost var l := LayoutOf(k, blocks);
    LayoutSpaced(k, blocks);
    var centroids, offsets, boxMin, boxMax, labels, blockData;
    ok, centroids, offsets, boxMin, boxMax := ReadFront(r, k, blocks, l);
    if !ok {
      return;
    }
    ok, labels, blockData := ReadLanes(r, k, blocks, l);
    if !ok {
      return;
    }
    f := File(n, k, blocks, centroids, offsets, boxMin, boxMax, labels, blockData);
  }

  method Load(r: Reader) returns (p: Parse)
    requires r.at == 0
    modifies r`at
    ensures p == LoadOf(r.data)
  {
    var ok, header := r.ReadFull(32);
    if !ok {
      return TooShort;
    }
    assert header == r.data[..32];
    assert header[..4] == r.data[..4];
    if header[..4] != MAGIC {
      return BadMagic;
    }
    HeaderWord(r.data, 4);
    HeaderWord(r.data, 8);
    HeaderWord(r.data, 12);
    HeaderWord(r.data, 16);
    if U32At(header, 4) != VERSION {
      return BadVersion;
    }
    var f;
    ok, f := ReadSections(r, U32At(header, 8), U32At(header, 12), U32At(header, 16));
    p := if ok then Parsed(f) else TooShort;
  }

  lemma HeaderWord(raw: seq<Byte>, off: nat)
    requires off + 4 <= 32 <= |raw|
    ensures U32At(raw[..32], off) == U32At(raw, off)
  {
  }

  /** A view of raw[lo..hi] as numbers needs the bytes to exist, and a first one. */
  predicate Viewable(raw: seq<Byte>, lo: nat, hi: nat) {
    lo < hi <= |raw|
  }

  method ParseMmappedIndex(raw: seq<Byte>) returns (p: Parse)
    ensures p == MmapOf(raw)
  {
    if |raw| < 32 {
      return TooShort;
    }
    if raw[..4] != MAGIC {
      return BadMagic;
    }
    if U32At(raw, 4) != VERSION {
      return BadVersion;
    }
    p := ViewSections(raw, U32At(raw, 8), U32At(raw, 12), U32At(raw, 16));
  }

  /** Walks the offset over the sections. */
  method WalkLayout(k: nat, blocks: nat) returns (l: Layout)
    ensures l == LayoutOf(k, blocks)
  {
    var off: nat := 32;
    var offsets: nat := off + 14 * k * 4;
    var boxMin: nat := offsets + (k + 1) * 4;
    var boxMax: nat := boxMin + 16 * k * 2;
    var labels: nat := boxMax + 16 * k * 2;
    var lanes: nat := labels + 8 * blocks;
    var end: nat := lanes + 112 * blocks * 2;
    l := Layout(off, offsets, boxMin, boxMax, labels, lanes, end);
  }

  method ViewsExist(raw: seq<Byte>, l: Layout, ghost k: nat, ghost blocks: nat) returns (ok: bool)
    requires l == LayoutOf(k, blocks)
    ensures ok <==> l.end <= |raw| && k > 0 && blocks > 0
  {
    ok := Viewable(raw, l.centroids, l.offsets) && Viewable(raw, l.offsets, l.boxMin) && Viewable(raw, l.boxMin,
        l.boxMax)
    && Viewable(raw, l.boxMax, l.labels) && l.blocks <= |raw| && Viewable(raw, l.blocks, l.end);
  }

  method ViewSections(raw: seq<Byte>, n: U32, k: U32, blocks: U32) returns (p: Parse)
    requires |raw| >= 32
    ensures var l := LayoutOf(k, blocks);
            p == if l.end > |raw| || k == 0 || blocks == 0 then OutOfRange
                 else if l.end != |raw| then SizeMismatch else Parsed(FileAt(raw, n, k, blocks, l))
  {
    var l := WalkLayout(k, blocks);
    var ok := ViewsExist(raw, l, k, blocks);
    if !ok {
      return OutOfRange;
    }
    if l.end != |raw| {
      return SizeMismatch;
    }
    p := Parsed(FileAt(raw, n, k, blocks, l));
  }
}
