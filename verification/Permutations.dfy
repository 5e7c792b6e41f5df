/** Permutations of 0..n-1 as sequences, the orbits of their elements and the
    number of their cycles. */
module Permutations {

  ghost predicate InRange(p: seq<nat>) {
    forall i :: 0 <= i < |p| ==> p[i] < |p|
  }

  ghost predicate Distinct<T>(s: seq<T>) {
    forall i, j :: 0 <= i < j < |s| ==> s[i] != s[j]
  }

  ghost predicate IsPermutation(p: seq<nat>) {
    InRange(p) && Distinct(p)
  }

  function Swapped<T>(s: seq<T>, i: nat, j: nat): (r: seq<T>)
    requires i < |s| && j < |s|
    ensures |r| == |s| && r[i] == s[j] && r[j] == s[i]
    ensures forall k :: 0 <= k < |s| && k != i && k != j ==> r[k] == s[k]
  {
    s[i := s[j]][j := s[i]]
  }

  lemma SwapKeepsMultiset<T>(s: seq<T>, i: nat, j: nat)
    requires i < |s| && j < |s|
    ensures multiset(Swapped(s, i, j)) == multiset(s)
  {
  }

  lemma SwapKeepsPermutation(p: seq<nat>, i: nat, j: nat)
    requires IsPermutation(p) && i < |p| && j < |p|
    ensures IsPermutation(Swapped(p, i, j))
  {
  }

  // ---------- every target is hit (the pigeonhole argument) ----------

  /** The numbers 0..n-1. */
  ghost function Below(n: nat): (s: set<nat>)
    ensures forall i: nat :: i in s <==> i < n
    ensures |s| == n
  {
    if n == 0 then {} else Below(n - 1) + {n - 1}
  }

  ghost function Elements<T>(s: seq<T>): set<T> {
    set x | x in s
  }

  lemma {:induction false} DistinctCardinality<T>(s: seq<T>)
    requires Distinct(s)
    ensures |Elements(s)| == |s|
  {
    if s == [] {
    } else {
      var front := s[..|s| - 1];
      DistinctCardinality(front);
      assert s == front + [s[|s| - 1]];
      assert Elements(s) == Elements(front) + {s[|s| - 1]};
    }
  }

  lemma {:induction false} EqualCardinalitySubset<T>(a: set<T>, b: set<T>)
    requires a <= b && |a| == |b|
    ensures a == b
  {
    assert |b - a| == |b| - |a|;
  }

  lemma IsOnto(p: seq<nat>, m: nat)
    requires IsPermutation(p) && m < |p|
    ensures m in p
  {
    DistinctCardinality(p);
    EqualCardinalitySubset(Elements(p), Below(|p|));
    assert m in Below(|p|);
  }

  // ---------- orbits and cycles ----------

  ghost function Iterate(p: seq<nat>, i: nat, k: nat): (r: nat)
    requires InRange(p) && i < |p|
    ensures r < |p|
  {
    if k == 0 then i else p[Iterate(p, i, k - 1)]
  }

  /** The smallest element of its own cycle: exactly one per cycle. */
  ghost predicate IsLeader(p: seq<nat>, i: nat)
    requires InRange(p) && i < |p|
  {
    forall k: nat :: i <= Iterate(p, i, k)
  }

  ghost function Leaders(p: seq<nat>): set<nat>
    requires InRange(p)
  {
    set i: nat | i < |p| && IsLeader(p, i)
  }

  ghost function CycleCount(p: seq<nat>): nat
    requires InRange(p)
  {
    |Leaders(p)|
  }

  lemma CycleCountBounds(p: seq<nat>)
    requires InRange(p)
    ensures CycleCount(p) <= |p|
    ensures |p| > 0 ==> CycleCount(p) >= 1
  {
    SubsetCardinality(Leaders(p), Below(|p|));
    if |p| > 0 {
      assert IsLeader(p, 0);
      SubsetCardinality({0}, Leaders(p));
    }
  }

  lemma {:induction false} SubsetCardinality<T>(a: set<T>, b: set<T>)
    requires a <= b
    ensures |a| <= |b|
  {
    assert |b - a| == |b| - |a|;
  }

  lemma {:induction false} FixedPointOrbit(p: seq<nat>, i: nat, k: nat)
    requires InRange(p) && i < |p| && p[i] == i
    ensures Iterate(p, i, k) == i
  {
    if k > 0 {
      FixedPointOrbit(p, i, k - 1);
    }
  }

  lemma IdentityCycles(p: seq<nat>)
    requires forall i :: 0 <= i < |p| ==> p[i] == i
    ensures CycleCount(p) == |p|
  {
    forall i: nat | i < |p| ensures IsLeader(p, i) {
      forall k: nat ensures i <= Iterate(p, i, k) { FixedPointOrbit(p, i, k); }
    }
    assert Leaders(p) == Below(|p|);
  }

  lemma OnlyFixedBelow(p: seq<nat>, i: nat, j: nat)
    requires IsPermutation(p) && i <= |p| && j < |p|
    requires forall m :: 0 <= m < i ==> p[m] == m
    requires p[j] < i
    ensures j < i
  {
    assert p[p[j]] == p[j];
  }

  /** When everything below i is already in place, i leads its own cycle. */
  lemma {:induction false} FirstMisplacedLeads(p: seq<nat>, i: nat, k: nat)
    requires IsPermutation(p) && i < |p|
    requires forall j :: 0 <= j < i ==> p[j] == j
    ensures i <= Iterate(p, i, k)
  {
    if k > 0 {
      FirstMisplacedLeads(p, i, k - 1);
      if p[Iterate(p, i, k - 1)] < i {
        OnlyFixedBelow(p, i, Iterate(p, i, k - 1));
      }
    }
  }

  // ---------- what one swap of the reordering loop does to the cycles ----------

  ghost predicate SwapContext(p: seq<nat>, i: nat) {
    && IsPermutation(p) && i < |p| && p[i] != i
    && forall j :: 0 <= j < i ==> p[j] == j
  }

  /** An orbit of the swapped permutation avoids the detached element. */
  lemma {:induction false} OrbitAvoids(p: seq<nat>, i: nat, j: nat, k: nat)
    requires SwapContext(p, i) && j < |p| && j != p[i]
    ensures IsPermutation(Swapped(p, i, p[i]))
    ensures Iterate(Swapped(p, i, p[i]), j, k) != p[i]
  {
    SwapKeepsPermutation(p, i, p[i]);
    if k > 0 {
      OrbitAvoids(p, i, j, k - 1);
      assert Swapped(p, i, p[i])[p[i]] == p[i];
    }
  }

  /** Every orbit of the swapped permutation stays inside the old orbit. */
  lemma {:induction false} OrbitShrinks(p: seq<nat>, i: nat, j: nat, k: nat) returns (k': nat)
    requires SwapContext(p, i) && j < |p| && j != p[i]
    ensures IsPermutation(Swapped(p, i, p[i]))
    ensures Iterate(Swapped(p, i, p[i]), j, k) == Iterate(p, j, k')
  {
    SwapKeepsPermutation(p, i, p[i]);
    if k == 0 {
      k' := 0;
    } else {
      var before := OrbitShrinks(p, i, j, k - 1);
      OrbitAvoids(p, i, j, k - 1);
      if Iterate(p, j, before) == i {
        assert Iterate(p, j, before + 1) == p[i];
        k' := before + 2;
      } else {
        k' := before + 1;
      }
    }
  }

  /** Every old orbit is the new orbit, plus possibly the detached element,
      which is only reached through i. */
  lemma {:induction false} OrbitCovers(p: seq<nat>, i: nat, j: nat, k: nat) returns (k': nat)
    requires SwapContext(p, i) && j < |p| && j != p[i]
    ensures IsPermutation(Swapped(p, i, p[i]))
    ensures if Iterate(p, j, k) == p[i] then Iterate(Swapped(p, i, p[i]), j, k') == i
            else Iterate(Swapped(p, i, p[i]), j, k') == Iterate(p, j, k)
  {
    SwapKeepsPermutation(p, i, p[i]);
    if k == 0 {
      k' := 0;
    } else {
      var before := OrbitCovers(p, i, j, k - 1);
      var q := Swapped(p, i, p[i]);
      if Iterate(p, j, k - 1) == p[i] {
        assert Iterate(q, j, before + 1) == q[i] == p[p[i]];
        k' := before + 1;
      } else if Iterate(p, j, k - 1) == i {
        k' := before;
      } else {
        assert Iterate(q, j, before + 1) == p[Iterate(p, j, k - 1)];
        k' := before + 1;
      }
    }
  }

  lemma LeaderUnchanged(p: seq<nat>, i: nat, j: nat)
    requires SwapContext(p, i) && j < |p| && j != p[i]
    ensures IsPermutation(Swapped(p, i, p[i]))
    ensures IsLeader(Swapped(p, i, p[i]), j) <==> IsLeader(p, j)
  {
    var q := Swapped(p, i, p[i]);
    SwapKeepsPermutation(p, i, p[i]);
    if IsLeader(p, j) {
      forall k: nat ensures j <= Iterate(q, j, k) {
        var k' := OrbitShrinks(p, i, j, k);
      }
    }
    if IsLeader(q, j) {
      FirstMisplacedLeads(p, i, 1);
      assert Iterate(p, i, 1) == p[Iterate(p, i, 0)];
      forall k: nat ensures j <= Iterate(p, j, k) {
        var k' := OrbitCovers(p, i, j, k);
        assert j <= Iterate(q, j, k');
      }
    }
  }

  /** One swap detaches exactly one element into a cycle of its own. */
  lemma SwapSplitsCycle(p: seq<nat>, i: nat)
    requires SwapContext(p, i)
    ensures IsPermutation(Swapped(p, i, p[i]))
    ensures CycleCount(Swapped(p, i, p[i])) == CycleCount(p) + 1
  {
    var alt := p[i];
    var q := Swapped(p, i, alt);
    SwapKeepsPermutation(p, i, alt);
    forall j: nat | j < |p| && j != alt ensures j in Leaders(q) <==> j in Leaders(p) {
      LeaderUnchanged(p, i, j);
    }
    DetachedLeads(q, alt);
    NotALeader(p, i);
    assert Leaders(q) == Leaders(p) + {alt};
  }

  lemma DetachedLeads(q: seq<nat>, alt: nat)
    requires InRange(q) && alt < |q| && q[alt] == alt
    ensures IsLeader(q, alt)
  {
    forall k: nat ensures alt <= Iterate(q, alt, k) { FixedPointOrbit(q, alt, k); }
  }

  lemma {:induction false} IterateFromNext(p: seq<nat>, i: nat, k: nat)
    requires InRange(p) && i < |p|
    ensures Iterate(p, p[i], k) == Iterate(p, i, k + 1)
  {
    if k == 0 {
      assert Iterate(p, i, 1) == p[Iterate(p, i, 0)];
    } else {
      IterateFromNext(p, i, k - 1);
    }
  }

  lemma {:induction false} IteratesCancel(p: seq<nat>, i: nat, a: nat, b: nat)
    requires IsPermutation(p) && i < |p| && a <= b
    requires Iterate(p, i, a) == Iterate(p, i, b)
    ensures Iterate(p, i, b - a) == i
  {
    if a > 0 {
      IteratesCancel(p, i, a - 1, b - 1);
    }
  }

  /** Following a cycle long enough comes back to where it began. */
  lemma OrbitReturns(p: seq<nat>, i: nat) returns (k: nat)
    requires IsPermutation(p) && i < |p|
    ensures k > 0 && Iterate(p, i, k) == i
  {
    var visits: seq<nat> := seq(|p| + 1, k requires 0 <= k => Iterate(p, i, k));
    assert forall x :: x in visits ==> x < |p|;
    if Distinct(visits) {
      DistinctCardinality(visits);
      SubsetCardinality(Elements(visits), Below(|p|));
      assert false;
    }
    var a, b :| 0 <= a < b < |visits| && visits[a] == visits[b];
    IteratesCancel(p, i, a, b);
    k := b - a;
  }

  /** p[i] is not the smallest of its cycle: following the cycle from p[i]
      comes back to i, which is smaller. */
  lemma NotALeader(p: seq<nat>, i: nat)
    requires SwapContext(p, i)
    ensures !IsLeader(p, p[i])
  {
    FirstMisplacedLeads(p, i, 1);
    assert Iterate(p, i, 1) == p[Iterate(p, i, 0)];
    var k := OrbitReturns(p, i);
    IterateFromNext(p, i, k - 1);
  }
}
