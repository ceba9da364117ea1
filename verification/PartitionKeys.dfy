/** The categorical key that decides which partition a vector belongs to. */
module PartitionKeys {
  import opened Geometry

  function Bit(b: bool, weight: nat): nat {
    if b then weight else 0
  }

  function MccBucket(mcc: int): (b: nat)
    ensures b < 4
  {
    if mcc <= 2499 then 0 else if mcc <= 4999 then 1 else if mcc <= 7499 then 2 else 3
  }

  /** The categorical key. The source ors disjoint bits together, which adds them. */
  function PartitionKey(v: Vec): (key: nat)
    ensures key < 256
  {
    Bit(v[5] >= 0, 1) + Bit(v[9] > 0, 2) + Bit(v[10] > 0, 4) + Bit(v[11] > 0, 8)
    + MccBucket(v[12]) * 16 + Bit(v[2] > 5000, 64) + Bit(v[8] > 2500, 128)
  }

  /** Sets one bit after the other. */
  method ComputeKey(v: Vec) returns (key: nat)
    ensures key == PartitionKey(v)
  {
    key := 0;
    if v[5] >= 0 {
      key := key + 1;
    }
    if v[9] > 0 {
      key := key + 2;
    }
    if v[10] > 0 {
      key := key + 4;
    }
    if v[11] > 0 {
      key := key + 8;
    }
    var mccBucket := 3;
    if v[12] <= 2499 {
      mccBucket := 0;
    } else if v[12] <= 4999 {
      mccBucket := 1;
    } else if v[12] <= 7499 {
      mccBucket := 2;
    }
    key := key + mccBucket * 16;
    if v[2] > 5000 {
      key := key + 64;
    }
    if v[8] > 2500 {
      key := key + 128;
    }
  }

  /** The seven categorical facts a key encodes. */
  datatype Pattern = Pattern(hasLastTx: bool, online: bool, cardPresent: bool, unknownMerchant: bool, mcc: nat,
                             highAmount: bool, manyTx: bool)

  function PatternOf(v: Vec): Pattern {
    Pattern(v[5] >= 0, v[9] > 0, v[10] > 0, v[11] > 0, MccBucket(v[12]), v[2] > 5000, v[8] > 2500)
  }

  /** Two vectors share a key exactly when they share the whole pattern. */
  lemma KeyIsPattern(v: Vec, w: Vec)
    ensures PartitionKey(v) == PartitionKey(w) <==> PatternOf(v) == PatternOf(w)
  {
    if PartitionKey(v) == PartitionKey(w) {
      PatternsUnique(PatternOf(v), PatternOf(w));
    }
  }

  /** Bit by bit, what a key says about its vector. */
  lemma KeyTells(v: Vec)
    ensures PartitionKey(v) % 2 == 1 <==> v[5] >= 0
    ensures PartitionKey(v) / 2 % 2 == 1 <==> v[9] > 0
    ensures PartitionKey(v) / 4 % 2 == 1 <==> v[10] > 0
    ensures PartitionKey(v) / 8 % 2 == 1 <==> v[11] > 0
    ensures PartitionKey(v) / 16 % 4 == 0 <==> v[12] <= 2499
    ensures PartitionKey(v) / 16 % 4 == 1 <==> 2500 <= v[12] <= 4999
    ensures PartitionKey(v) / 16 % 4 == 2 <==> 5000 <= v[12] <= 7499
    ensures PartitionKey(v) / 16 % 4 == 3 <==> 7500 <= v[12]
    ensures PartitionKey(v) / 64 % 2 == 1 <==> v[2] > 5000
    ensures PartitionKey(v) / 128 == 1 <==> v[8] > 2500
  {
    var p := PatternOf(v);
    KeyDigits(p);
    DigitsOf(PartitionKey(v), Bit(p.hasLastTx, 1), Bit(p.online, 1), Bit(p.cardPresent, 1), Bit(p.unknownMerchant, 1),
             p.mcc, Bit(p.highAmount, 1), Bit(p.manyTx, 1));
  }

  lemma DigitsOf(sum: nat, a0: nat, a1: nat, a2: nat, a3: nat, a4: nat, a6: nat, a7: nat)
    requires a0 < 2 && a1 < 2 && a2 < 2 && a3 < 2 && a4 < 4 && a6 < 2 && a7 < 2
    requires sum == a0 + 2 * a1 + 4 * a2 + 8 * a3 + 16 * a4 + 64 * a6 + 128 * a7
    ensures sum % 2 == a0 && sum / 2 % 2 == a1 && sum / 4 % 2 == a2 && sum / 8 % 2 == a3
    ensures sum / 16 % 4 == a4 && sum / 64 % 2 == a6 && sum / 128 == a7
  {
    assert sum / 2 == a1 + 2 * a2 + 4 * a3 + 8 * a4 + 32 * a6 + 64 * a7;
    assert sum / 4 == a2 + 2 * a3 + 4 * a4 + 16 * a6 + 32 * a7;
    assert sum / 8 == a3 + 2 * a4 + 8 * a6 + 16 * a7;
    assert sum / 16 == a4 + 4 * a6 + 8 * a7;
    assert sum / 64 == a6 + 2 * a7;
  }

  function PatternKey(p: Pattern): nat {
    Bit(p.hasLastTx, 1) + Bit(p.online, 2) + Bit(p.cardPresent, 4) + Bit(p.unknownMerchant, 8)
    + p.mcc * 16 + Bit(p.highAmount, 64) + Bit(p.manyTx, 128)
  }

  lemma PatternsUnique(a: Pattern, b: Pattern)
    requires PatternKey(a) == PatternKey(b) && a.mcc < 4 && b.mcc < 4
    ensures a == b
  {
    KeyDigits(a);
    KeyDigits(b);
    DigitsUnique(PatternKey(a),
                 Bit(a.hasLastTx, 1), Bit(a.online, 1), Bit(a.cardPresent, 1), Bit(a.unknownMerchant, 1), a.mcc,
                 Bit(a.highAmount, 1), Bit(a.manyTx, 1),
                 Bit(b.hasLastTx, 1), Bit(b.online, 1), Bit(b.cardPresent, 1), Bit(b.unknownMerchant, 1), b.mcc,
                 Bit(b.highAmount, 1), Bit(b.manyTx, 1));
    SameDigits(a, b);
  }

  lemma SameDigits(a: Pattern, b: Pattern)
    requires Bit(a.hasLastTx, 1) == Bit(b.hasLastTx, 1) && Bit(a.online, 1) == Bit(b.online, 1)
    requires Bit(a.cardPresent, 1) == Bit(b.cardPresent, 1) && Bit(a.unknownMerchant, 1) == Bit(b.unknownMerchant, 1)
    requires a.mcc == b.mcc && Bit(a.highAmount, 1) == Bit(b.highAmount, 1) && Bit(a.manyTx, 1) == Bit(b.manyTx, 1)
    ensures a == b
  {
  }

  lemma KeyDigits(p: Pattern)
    ensures PatternKey(p) == Bit(p.hasLastTx, 1) + 2 * Bit(p.online, 1) + 4 * Bit(p.cardPresent, 1)
                             + 8 * Bit(p.unknownMerchant, 1) + 16 * p.mcc + 64 * Bit(p.highAmount, 1)
                             + 128 * Bit(p.manyTx, 1)
  {
    assert Bit(p.online, 2) == 2 * Bit(p.online, 1) && Bit(p.cardPresent, 4) == 4 * Bit(p.cardPresent, 1);
    assert Bit(p.unknownMerchant, 8) == 8 * Bit(p.unknownMerchant, 1);
    assert Bit(p.highAmount, 64) == 64 * Bit(p.highAmount, 1) && Bit(p.manyTx, 128) == 128 * Bit(p.manyTx, 1);
  }

  lemma DigitsUnique(sum: nat,
                     a0: nat, a1: nat, a2: nat, a3: nat, a4: nat, a6: nat, a7: nat,
                     b0: nat, b1: nat, b2: nat, b3: nat, b4: nat, b6: nat, b7: nat)
    requires a0 < 2 && a1 < 2 && a2 < 2 && a3 < 2 && a4 < 4 && a6 < 2 && a7 < 2
    requires b0 < 2 && b1 < 2 && b2 < 2 && b3 < 2 && b4 < 4 && b6 < 2 && b7 < 2
    requires sum == a0 + 2 * a1 + 4 * a2 + 8 * a3 + 16 * a4 + 64 * a6 + 128 * a7
    requires sum == b0 + 2 * b1 + 4 * b2 + 8 * b3 + 16 * b4 + 64 * b6 + 128 * b7
    ensures a0 == b0 && a1 == b1 && a2 == b2 && a3 == b3 && a4 == b4 && a6 == b6 && a7 == b7
  {
    assert a7 == b7;
    assert a6 == b6;
    assert a4 == b4;
    assert a3 == b3;
  }
}
