/** Choosing the escalation thresholds from recorded outcomes, and projecting what
    they would change. */
module Calibrate {

  /** fastCount and fullCount are fraud counts out of five. */
  datatype Record = Record(fastCount: nat, fastWorst: int, fullCount: nat, expectedApp: bool)

  predicate ApprovedFromCount(c: nat) {
    c as real / 5.0 < 0.6
  }

  predicate FastRight(r: Record) {
    ApprovedFromCount(r.fastCount) == r.expectedApp
  }

  predicate FullRight(r: Record) {
    ApprovedFromCount(r.fullCount) == r.expectedApp
  }

  /** Wrong by the fast tier, right by the full sweep. */
  predicate Fixable(r: Record) {
    !FastRight(r) && FullRight(r)
  }

  /** Two frauds of five are approved, three are not. */
  lemma ApprovedUpToTwo(c: nat)
    ensures ApprovedFromCount(c) <==> c <= 2
  {
    if c <= 2 {
      assert c as real <= 2.0;
    } else {
      assert c as real >= 3.0;
    }
  }

  /** A record the fast tier approves is fixable if it should have been denied and the
      full sweep finds three frauds or more; one it denies, if it should have been
      approved and the full sweep finds two or fewer. */
  lemma FixableIs(r: Record)
    ensures r.fastCount <= 2 ==> (Fixable(r) <==> !r.expectedApp && r.fullCount >= 3)
    ensures r.fastCount >= 3 ==> (Fixable(r) <==> r.expectedApp && r.fullCount <= 2)
  {
    ApprovedUpToTwo(r.fastCount);
    ApprovedUpToTwo(r.fullCount);
  }

  predicate AlwaysEscalates(c: nat) {
    c == 2 || c == 3 || c == 4
  }

  type Thresholds = t: seq<int> | |t| == 6 witness [0, 0, 0, 0, 0, 0]

  predicate Escalates(r: Record, t: Thresholds)
    requires r.fastCount <= 5
  {
    AlwaysEscalates(r.fastCount) || (t[r.fastCount] > 0 && r.fastWorst > t[r.fastCount])
  }

  ghost predicate Counts(records: seq<Record>) {
    forall i :: 0 <= i < |records| ==> records[i].fastCount <= 5
  }

  /** r is a fixable record of class c. */
  predicate InClass(r: Record, c: nat) {
    r.fastCount == c && Fixable(r)
  }

  // ----- Thresholds -----

  method SortAscending(a: array<int>)
    modifies a
    ensures forall i, j :: 0 <= i < j < a.Length ==> a[i] <= a[j]
    ensures multiset(a[..]) == old(multiset(a[..]))
  {
    for i := 0 to a.Length
      invariant forall k, l :: 0 <= k < l < i ==> a[k] <= a[l]
      invariant multiset(a[..]) == old(multiset(a[..]))
    {
      SiftDown(a, i);
    }
  }

  /** s is sorted up to i but for its entry j, which belongs at or before. */
  ghost predicate SinkingAt(s: seq<int>, j: int, i: int) {
    && 0 <= j <= i < |s|
    && (forall k, l :: 0 <= k < l <= i && k != j && l != j ==> s[k] <= s[l])
    && forall k :: j < k <= i ==> s[j] < s[k]
  }

  lemma SinkStep(s: seq<int>, s': seq<int>, j: int, i: int)
    requires SinkingAt(s, j, i) && j > 0 && s[j - 1] > s[j] && s' == s[j - 1 := s[j]][j := s[j - 1]]
    ensures SinkingAt(s', j - 1, i) && multiset(s') == multiset(s)
  {
  }

  lemma SinkDone(s: seq<int>, j: int, i: int)
    requires SinkingAt(s, j, i) && (j > 0 ==> s[j - 1] <= s[j])
    ensures forall k, l :: 0 <= k < l < i + 1 ==> s[k] <= s[l]
  {
  }

  method SiftDown(a: array<int>, i: nat)
    requires i < a.Length && forall k, l :: 0 <= k < l < i ==> a[k] <= a[l]
    modifies a
    ensures forall k, l :: 0 <= k < l < i + 1 ==> a[k] <= a[l]
    ensures multiset(a[..]) == old(multiset(a[..]))
  {
    var j := i;
    while j > 0 && a[j - 1] > a[j]
      invariant SinkingAt(a[..], j, i)
      invariant multiset(a[..]) == old(multiset(a[..]))
    {
      ghost var s := a[..];
      a[j - 1], a[j] := a[j], a[j - 1];
      SinkStep(s, a[..], j, i);
      j := j - 1;
    }
    SinkDone(a[..], j, i);
  }

  ghost predicate Collected(records: seq<Record>, c: nat, worsts: seq<int>, n: nat)
    requires n <= |records|
  {
    && (forall i :: 0 <= i < n && InClass(records[i], c) ==> records[i].fastWorst in worsts)
    && (forall w :: w in worsts ==> exists i :: 0 <= i < n && InClass(records[i], c) && records[i].fastWorst == w)
  }

  method CollectFixable(records: seq<Record>, c: nat) returns (worsts: seq<int>)
    ensures Collected(records, c, worsts, |records|)
  {
    worsts := [];
    for i := 0 to |records|
      invariant Collected(records, c, worsts, i)
    {
      var r := records[i];
      if r.fastCount == c && !FastRight(r) && FullRight(r) {
        assert InClass(records[i], c);
        worsts := worsts + [r.fastWorst];
      }
    }
  }

  ghost predicate NoneFixable(records: seq<Record>, c: nat) {
    forall i :: 0 <= i < |records| ==> !InClass(records[i], c)
  }

  /** t is one below the smallest distance among the fixable records of class c, or 0
      when there are none or the class escalates anyway. */
  ghost predicate IsThreshold(records: seq<Record>, c: nat, t: int) {
    if AlwaysEscalates(c) || NoneFixable(records, c) then t == 0
    else
      && (forall i :: 0 <= i < |records| && InClass(records[i], c) ==> t < records[i].fastWorst)
      && exists i :: 0 <= i < |records| && InClass(records[i], c) && records[i].fastWorst == t + 1
  }

  method SmallestWorst(worsts: seq<int>) returns (least: int)
    requires worsts != []
    ensures least in worsts && forall w :: w in worsts ==> least <= w
  {
    var a := new int[|worsts|](i requires 0 <= i < |worsts| => worsts[i]);
    assert a[..] == worsts;
    SortAscending(a);
    least := a[0];
    assert least in a[..];
    assert multiset(a[..])[least] > 0 && multiset(worsts)[least] > 0;
    forall w | w in worsts
      ensures least <= w
    {
      assert multiset(a[..])[w] > 0;
      var k :| 0 <= k < |a[..]| && a[..][k] == w;
    }
  }

  method ComputeThresholds(records: seq<Record>) returns (t: Thresholds)
    ensures forall c :: 0 <= c < 6 ==> IsThreshold(records, c, t[c])
  {
    t := [0, 0, 0, 0, 0, 0];
    for c := 0 to 6
      invariant forall k :: c <= k < 6 ==> t[k] == 0
      invariant forall k :: 0 <= k < c ==> IsThreshold(records, k, t[k])
    {
      if c == 2 || c == 3 || c == 4 {
        continue;
      }
      var worsts := CollectFixable(records, c);
      if |worsts| == 0 {
        continue;
      }
      var least := SmallestWorst(worsts);
      t := t[c := least - 1];
    }
  }

  /** The same in numbers, for the threshold of a class that approves. */
  lemma ApprovingThreshold(records: seq<Record>, c: nat, t: int)
    requires c <= 1
    ensures IsThreshold(records, c, t) <==>
              if exists i :: 0 <= i < |records| && Misses(records[i], c, false)
              then LeastLess(records, c, false, t)
              else t == 0
  {
    MissesAreFixable(records, c, false);
  }

  /** And for the class that denies without the count gate. */
  lemma DenyingThreshold(records: seq<Record>, t: int)
    ensures IsThreshold(records, 5, t) <==>
              if exists i :: 0 <= i < |records| && Misses(records[i], 5, true)
              then LeastLess(records, 5, true, t)
              else t == 0
  {
    MissesAreFixable(records, 5, true);
  }

  /** The fast tier shows c frauds, and the full sweep falls on the other side of the
      line between two frauds and three, where the record belongs. */
  predicate Misses(r: Record, c: nat, approve: bool) {
    r.fastCount == c && r.expectedApp == approve && if approve then r.fullCount <= 2 else r.fullCount >= 3
  }

  ghost predicate LeastLess(records: seq<Record>, c: nat, approve: bool, t: int) {
    && (exists i :: 0 <= i < |records| && Misses(records[i], c, approve) && records[i].fastWorst == t + 1)
    && (forall i :: 0 <= i < |records| && Misses(records[i], c, approve) ==> t + 1 <= records[i].fastWorst)
  }

  lemma MissesAreFixable(records: seq<Record>, c: nat, approve: bool)
    requires if approve then c >= 3 else c <= 2
    ensures forall i :: 0 <= i < |records| ==> (InClass(records[i], c) <==> Misses(records[i], c, approve))
  {
    forall i | 0 <= i < |records|
      ensures InClass(records[i], c) <==> Misses(records[i], c, approve)
    {
      FixableIs(records[i]);
    }
  }

  ghost predicate AreThresholds(records: seq<Record>, t: Thresholds) {
    Counts(records) && forall c :: 0 <= c < 6 ==> IsThreshold(records, c, t[c])
  }

  // ----- What the thresholds achieve -----

  /** Distances of 0 and 1 leave no positive threshold below them. */
  ghost predicate WorstsLeaveRoom(records: seq<Record>) {
    forall i ::
      0 <= i < |records| && Fixable(records[i]) && !AlwaysEscalates(records[i].fastCount) ==> records[i].fastWorst >= 2
  }

  ghost predicate AllFixed(records: seq<Record>, t: Thresholds)
    requires Counts(records)
  {
    forall i :: 0 <= i < |records| && Fixable(records[i]) ==> Escalates(records[i], t)
  }

  /** Every fixable record escalates exactly when none of those the count gate does not
      already catch has a distance below 2. */
  lemma AllFixedIff(records: seq<Record>, t: Thresholds)
    requires AreThresholds(records, t)
    ensures AllFixed(records, t) <==> WorstsLeaveRoom(records)
  {
  }

  /** A positive threshold is the largest that lets every fixable record of its class
      through. */
  lemma ThresholdIsLargest(records: seq<Record>, t: Thresholds, c: nat, u: int)
    requires AreThresholds(records, t) && c < 6 && t[c] > 0
    ensures u <= t[c] <==> forall i :: 0 <= i < |records| && InClass(records[i], c) ==> u < records[i].fastWorst
  {
  }

  // ----- The projection -----

  function FinalCount(r: Record, t: Thresholds): nat
    requires r.fastCount <= 5
  {
    if Escalates(r, t) then r.fullCount else r.fastCount
  }

  predicate FinalRight(r: Record, t: Thresholds)
    requires r.fastCount <= 5
  {
    ApprovedFromCount(FinalCount(r, t)) == r.expectedApp
  }

  ghost function WrongSet(records: seq<Record>, t: Thresholds, approved: bool, n: nat): (s: set<nat>)
    requires Counts(records) && n <= |records|
  {
    set i: nat | i < n && !FinalRight(records[i], t) && records[i].expectedApp != approved
  }

  /** Counts the records still wrong: approved ones as fn, denied ones as fp. */
  method Project(records: seq<Record>, t: Thresholds) returns (fp: nat, fn: nat)
    requires Counts(records)
    ensures fn == |WrongSet(records, t, true, |records|)| && fp == |WrongSet(records, t, false, |records|)|
  {
    fp, fn := 0, 0;
    assert WrongSet(records, t, true, 0) == {} && WrongSet(records, t, false, 0) == {};
    for i := 0 to |records|
      invariant fn == |WrongSet(records, t, true, i)| && fp == |WrongSet(records, t, false, i)|
    {
      var r := records[i];
      var finalCnt := r.fastCount;
      if AlwaysEscalates(r.fastCount) || (t[r.fastCount] > 0 && r.fastWorst > t[r.fastCount]) {
        finalCnt := r.fullCount;
      }
      var approved := ApprovedFromCount(finalCnt);
      WrongNext(records, t, true, i);
      WrongNext(records, t, false, i);
      if approved && !r.expectedApp {
        fn := fn + 1;
      } else if !approved && r.expectedApp {
        fp := fp + 1;
      }
    }
  }

  /** In numbers: wrongly approved with two frauds or fewer, wrongly denied with three
      or more. */
  lemma WrongIs(records: seq<Record>, t: Thresholds, i: nat, n: nat)
    requires Counts(records) && i < n <= |records|
    ensures i in WrongSet(records, t, true, n) <==> FinalCount(records[i], t) <= 2 && !records[i].expectedApp
    ensures i in WrongSet(records, t, false, n) <==> FinalCount(records[i], t) >= 3 && records[i].expectedApp
  {
    ApprovedUpToTwo(FinalCount(records[i], t));
  }

  lemma WrongNext(records: seq<Record>, t: Thresholds, approved: bool, i: nat)
    requires Counts(records) && i < |records|
    ensures |WrongSet(records, t, approved, i + 1)| ==
            |WrongSet(records, t, approved, i)| 
            + if !FinalRight(records[i], t) && records[i].expectedApp != approved then 1 else 0
  {
    var s := WrongSet(records, t, approved, i);
    if !FinalRight(records[i], t) && records[i].expectedApp != approved {
      assert WrongSet(records, t, approved, i + 1) == s + {i};
    } else {
      assert WrongSet(records, t, approved, i + 1) == s;
    }
  }

  /** With thresholds chosen this way, whatever is still wrong the full sweep gets
      wrong too; without room below some distance, one fixable record stays wrong. */
  lemma StillWrongIsHopeless(records: seq<Record>, t: Thresholds)
    requires AreThresholds(records, t)
    ensures WorstsLeaveRoom(records) <==>
              forall i :: 0 <= i < |records| && !FinalRight(records[i], t) ==> !FullRight(records[i])
  {
  }
}
