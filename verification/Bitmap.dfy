/** The one-bit-per-cluster record of what a query has scanned. */
module Bitmap {

  /** 1 << k in a 64-bit word. */
  function Bit(k: nat): bv64 {
    if k == 0 then 1 else Bit(k - 1) << 1
  }

  function Meet(w: bv64, b: bv64): bool {
    w & b != 0
  }

  function Join(w: bv64, b: bv64): bv64 {
    w | b
  }

  function Test(w: bv64, k: nat): bool {
    Meet(w, Bit(k))
  }

  function Set(w: bv64, k: nat): bv64 {
    Join(w, Bit(k))
  }

  predicate OneHot(b: bv64) {
    b & (b - 1) == 0 && b != 0
  }

  lemma OneHotShifts(b: bv64)
    requires b & (b - 1) == 0
    ensures (b << 1) & ((b << 1) - 1) == 0
  {
  }

  lemma {:induction false} BitIsOneHot(k: nat)
    ensures Bit(k) & (Bit(k) - 1) == 0
  {
    if 0 < k {
      BitIsOneHot(k - 1);
      OneHotShifts(Bit(k - 1));
    }
  }

  lemma {:induction false} SameBitsStaySame(j: nat, k: nat, n: nat)
    requires Bit(j) == Bit(k)
    ensures Bit(j + n) == Bit(k + n)
  {
    if 0 < n {
      SameBitsStaySame(j, k, n - 1);
    }
  }

  lemma {:induction false} ZeroStays(k: nat, n: nat)
    requires Bit(k) == 0
    ensures Bit(k + n) == 0
  {
    if 0 < n {
      ZeroStays(k, n - 1);
    }
  }

  lemma BitStep(k: nat)
    ensures Bit(k + 1) == Bit(k) << 1
  {
  }

  lemma SevenSteps(k: nat)
    ensures Bit(k + 7) == Bit(k) << 7
  {
    BitStep(k);
    BitStep(k + 1);
    BitStep(k + 2);
    BitStep(k + 3);
    BitStep(k + 4);
    BitStep(k + 5);
    BitStep(k + 6);
    ShiftsCompose(Bit(k));
  }

  lemma ShiftsCompose(b: bv64)
    ensures ((((((b << 1) << 1) << 1) << 1) << 1) << 1) << 1 == b << 7
  {
  }

  lemma TopBit()
    ensures Bit(63) == 0x8000_0000_0000_0000
  {
    SevenSteps(0);
    SevenSteps(7);
    SevenSteps(14);
    SevenSteps(21);
    SevenSteps(28);
    SevenSteps(35);
    SevenSteps(42);
    SevenSteps(49);
    SevenSteps(56);
  }

  lemma BitIsNotZero(k: nat)
    requires k < 64
    ensures Bit(k) != 0
  {
    TopBit();
    if Bit(k) == 0 {
      ZeroStays(k, 63 - k);
      assert false;
    }
  }

  lemma BitsAreOneHot(k: nat)
    requires k < 64
    ensures OneHot(Bit(k))
  {
    BitIsOneHot(k);
    BitIsNotZero(k);
  }

  lemma BitsDiffer(j: nat, k: nat)
    requires j < k < 64
    ensures Bit(j) != Bit(k)
  {
    if Bit(j) == Bit(k) {
      SameBitsStaySame(j, k, 64 - k);
      TopBit();
      assert Bit(64) == 0;
      BitIsNotZero(j + 64 - k);
      assert false;
    }
  }

  lemma OneHotsAreDisjoint(a: bv64, b: bv64)
    requires OneHot(a) && OneHot(b) && a != b
    ensures a & b == 0
  {
  }

  lemma OrKeeps(w: bv64, a: bv64, b: bv64)
    requires a & b == 0
    ensures (w | a) & b == w & b
  {
  }

  lemma OrSets(w: bv64, b: bv64)
    ensures (w | b) & b == b
  {
  }

  lemma OneHotSets(w: bv64, a: bv64, b: bv64)
    requires OneHot(a) && OneHot(b)
    ensures Meet(Join(w, a), b) <==> a == b || Meet(w, b)
  {
    if a != b {
      OneHotsAreDisjoint(a, b);
      OrKeeps(w, a, b);
    } else {
      OrSets(w, b);
    }
  }

  lemma SetTestsBits(w: bv64, k: nat, j: nat)
    requires k < 64 && j < 64
    ensures Test(Set(w, k), j) <==> Bit(k) == Bit(j) || Test(w, j)
  {
    BitsAreOneHot(j);
    BitsAreOneHot(k);
    OneHotSets(w, Bit(k), Bit(j));
  }

  /** Setting one bit leaves every other bit of the word as it was. */
  lemma SetTests(w: bv64, k: nat, j: nat)
    requires k < 64 && j < 64
    ensures Test(Set(w, k), j) <==> j == k || Test(w, j)
  {
    SetTestsBits(w, k, j);
    if j < k {
      BitsDiffer(j, k);
    } else if k < j {
      BitsDiffer(k, j);
    }
  }

  function Marked(words: seq<bv64>, c: nat): bool
    requires c < 64 * |words|
  {
    Test(words[c / 64], c % 64)
  }

  ghost function MarkedSet(words: seq<bv64>, n: nat): (s: set<nat>)
    requires n <= 64 * |words|
  {
    set c: nat | c < n && Marked(words, c)
  }

  ghost function UnmarkedSet(words: seq<bv64>, n: nat): (s: set<nat>)
    requires n <= 64 * |words|
  {
    set c: nat | c < n && !Marked(words, c)
  }

  lemma MarkOne(words: seq<bv64>, c: nat, words': seq<bv64>, j: nat)
    requires c < 64 * |words| && j < 64 * |words|
    requires words' == words[c / 64 := Set(words[c / 64], c % 64)]
    ensures Marked(words', j) <==> j == c || Marked(words, j)
  {
    if j / 64 == c / 64 {
      SetTests(words[c / 64], c % 64, j % 64);
      assert j == 64 * (c / 64) + j % 64 && c == 64 * (c / 64) + c % 64;
    }
  }

  /** scanned[c/64] |= 1 << (c%64) adds exactly cluster c to the record. */
  method Mark(words: array<bv64>, c: nat)
    requires c < 64 * words.Length
    modifies words
    ensures MarkedSet(words[..], 64 * words.Length) == old(MarkedSet(words[..], 64 * words.Length)) + {c}
  {
    ghost var before := words[..];
    words[c / 64] := Set(words[c / 64], c % 64);
    forall j: nat | j < 64 * words.Length
      ensures Marked(words[..], j) <==> j == c || Marked(before, j)
    {
      MarkOne(before, c, words[..], j);
    }
  }

  method Clear(words: array<bv64>)
    modifies words
    ensures MarkedSet(words[..], 64 * words.Length) == {}
  {
    for i := 0 to words.Length
      invariant forall k :: 0 <= k < i ==> words[k] == 0
    {
      words[i] := 0;
    }
    forall c: nat | c < 64 * words.Length
      ensures !Marked(words[..], c)
    {
      assert words[..][c / 64] == 0;
      NothingSet(c % 64);
    }
  }

  lemma NothingSet(k: nat)
    ensures !Test(0, k)
  {
  }
}
