/** The reordering loop of an optimised trip: it applies a permutation to an
    array by following cycles, sorting the permutation itself as it goes. */
module Reordering {
  import opened Permutations

  // ---------- the simple form: write every item to its target ----------

  /** The first k items of src written, in turn, to the slots order names. */
  function ScatterUpTo<T>(src: seq<T>, order: seq<nat>, k: nat): (r: seq<T>)
    requires k <= |order| <= |src|
    requires forall i :: 0 <= i < |order| ==> order[i] < |order|
    ensures |r| == |src|
  {
    if k == 0 then src else ScatterUpTo(src, order, k - 1)[order[k - 1] := src[k - 1]]
  }

  function Scatter<T>(src: seq<T>, order: seq<nat>): (r: seq<T>)
    requires |order| <= |src|
    requires forall i :: 0 <= i < |order| ==> order[i] < |order|
    ensures |r| == |src|
  {
    ScatterUpTo(src, order, |order|)
  }

  lemma {:induction false} ScatterUpToMeaning<T>(src: seq<T>, order: seq<nat>, k: nat)
    requires IsPermutation(order) && k <= |order| <= |src|
    ensures forall j :: 0 <= j < k ==> ScatterUpTo(src, order, k)[order[j]] == src[j]
    ensures forall m :: |order| <= m < |src| ==> ScatterUpTo(src, order, k)[m] == src[m]
  {
    if k > 0 {
      ScatterUpToMeaning(src, order, k - 1);
    }
  }

  /** Scattering by a permutation is fully described by where each item goes. */
  lemma ScatterIsTheOnlyOne<T>(src: seq<T>, order: seq<nat>, r: seq<T>)
    requires IsPermutation(order) && |order| <= |src|
    ensures r == Scatter(src, order) <==>
            && |r| == |src|
            && (forall k :: 0 <= k < |order| ==> r[order[k]] == src[k])
            && (forall m :: |order| <= m < |src| ==> r[m] == src[m])
  {
    ScatterUpToMeaning(src, order, |order|);
    if && |r| == |src|
       && (forall k :: 0 <= k < |order| ==> r[order[k]] == src[k])
       && (forall m :: |order| <= m < |src| ==> r[m] == src[m])
    {
      forall m | 0 <= m < |src| ensures r[m] == Scatter(src, order)[m] {
        if m < |order| {
          IsOnto(order, m);
          var k :| 0 <= k < |order| && order[k] == m;
          assert r[order[k]] == src[k] == Scatter(src, order)[order[k]];
        }
      }
    }
  }

  // ---------- the loop as a machine: one test of the inner guard per step ----------

  datatype Loop<T> = Loop(items: seq<T>, order: seq<nat>, i: nat)

  ghost predicate Running<T>(s: Loop<T>) {
    InRange(s.order) && |s.order| <= |s.items| && s.i <= |s.order|
  }

  ghost function Step<T>(s: Loop<T>): (r: Loop<T>)
    requires Running(s)
    ensures Running(r) && |r.order| == |s.order| && |r.items| == |s.items|
  {
    if s.i == |s.order| then s
    else if s.order[s.i] == s.i then s.(i := s.i + 1)
    else Loop(Swapped(s.items, s.i, s.order[s.i]), Swapped(s.order, s.i, s.order[s.i]), s.i)
  }

  ghost function Run<T>(s: Loop<T>, steps: nat): (r: Loop<T>)
    requires Running(s)
    ensures Running(r) && |r.order| == |s.order| && |r.items| == |s.items|
    decreases steps
  {
    if steps == 0 then s else Run(Step(s), steps - 1)
  }

  /** What every state of a run keeps. `at[k]` is where the entry first at k
      has been moved to. */
  ghost predicate Reached<T>(first: Loop<T>, s: Loop<T>, at: seq<nat>) {
    && Running(first) && first.i == 0 && Running(s)
    && |s.order| == |first.order| && |s.items| == |first.items|
    && |at| == |first.order| && IsPermutation(at)
    && (forall k :: 0 <= k < |at| ==> s.order[at[k]] == first.order[k])
    && (forall k :: 0 <= k < |at| ==> s.items[at[k]] == first.items[k])
    && (forall m :: |at| <= m < |s.items| ==> s.items[m] == first.items[m])
    && (forall j :: 0 <= j < s.i ==> s.order[j] == j)
  }

  /** Follow a swap of two slots. */
  ghost function Moved(at: seq<nat>, i: nat, j: nat): (r: seq<nat>)
    ensures |r| == |at|
  {
    seq(|at|, k requires 0 <= k < |at| => if at[k] == i then j else if at[k] == j then i else at[k])
  }

  lemma StepReaches<T>(first: Loop<T>, s: Loop<T>, next: Loop<T>, at: seq<nat>) returns (after: seq<nat>)
    requires Reached(first, s, at) && next == Step(s)
    ensures Reached(first, next, after)
  {
    if s.i == |s.order| || s.order[s.i] == s.i {
      after := at;
    } else {
      after := Moved(at, s.i, s.order[s.i]);
    }
  }

  lemma {:induction false} RunNext<T>(s: Loop<T>, steps: nat)
    requires Running(s)
    ensures Run(s, steps + 1) == Step(Run(s, steps))
    decreases steps
  {
    if steps > 0 { RunNext(Step(s), steps - 1); }
  }

  lemma StartReached<T>(first: Loop<T>) returns (at: seq<nat>)
    requires Running(first) && first.i == 0
    ensures Reached(first, first, at)
  {
    at := seq(|first.order|, k requires 0 <= k => k);
  }

  lemma {:induction false} RunReaches<T>(first: Loop<T>, steps: nat) returns (at: seq<nat>)
    requires Running(first) && first.i == 0
    ensures Reached(first, Run(first, steps), at)
  {
    if steps == 0 {
      at := StartReached(first);
    } else {
      var before := RunReaches(first, steps - 1);
      RunNext(first, steps - 1);
      at := StepReaches(first, Run(first, steps - 1), Run(first, steps), before);
    }
  }

  /** Once the loop has passed every index, the order is sorted and the items
      are scattered. */
  lemma FinishedIsScattered<T>(first: Loop<T>, s: Loop<T>, at: seq<nat>)
    requires Reached(first, s, at) && s.i == |s.order|
    ensures IsPermutation(first.order)
    ensures s.items == Scatter(first.items, first.order)
    ensures forall j :: 0 <= j < |s.order| ==> s.order[j] == j
  {
    forall k | 0 <= k < |at| ensures at[k] == first.order[k] {
      assert s.order[at[k]] == at[k];
    }
    assert at == first.order;
    ScatterIsTheOnlyOne(first.items, first.order, s.items);
  }

  // ---------- when and how fast the loop finishes ----------

  ghost function Misplaced(p: seq<nat>): set<nat>
  {
    set i: nat | i < |p| && p[i] != i
  }

  /** A swap puts one entry in place for good. */
  lemma SwapPlacesOne(p: seq<nat>, i: nat)
    requires SwapContext(p, i)
    ensures IsPermutation(Swapped(p, i, p[i]))
    ensures forall j :: 0 <= j < i ==> Swapped(p, i, p[i])[j] == j
    ensures Misplaced(Swapped(p, i, p[i])) < Misplaced(p)
  {
    var q := Swapped(p, i, p[i]);
    SwapKeepsPermutation(p, i, p[i]);
    assert p[p[i]] != p[i];
    assert p[i] in Misplaced(p) && p[i] !in Misplaced(q);
    assert forall j: nat :: j in Misplaced(q) ==> j in Misplaced(p);
  }

  /** From a permutation the loop ends after one step per index plus one swap
      per missing cycle, and not earlier. */
  lemma {:induction false} FinishesIn<T>(s: Loop<T>, steps: nat)
    requires Running(s) && IsPermutation(s.order)
    requires forall j :: 0 <= j < s.i ==> s.order[j] == j
    ensures Run(s, steps).i == |s.order| <==> steps >= |s.order| - s.i + |s.order| - CycleCount(s.order)
    decreases |Misplaced(s.order)| + |s.order| - s.i, steps
  {
    CycleCountBounds(s.order);
    if s.i == |s.order| {
      IdentityCycles(s.order);
      StaysFinished(s, steps);
    } else if steps == 0 {
    } else {
      var next := Step(s);
      assert Run(s, steps) == Run(next, steps - 1);
      if s.order[s.i] != s.i {
        SwapIsProgress(s, next);
      }
      FinishesIn(next, steps - 1);
    }
  }

  lemma SwapIsProgress<T>(s: Loop<T>, next: Loop<T>)
    requires Running(s) && SwapContextAt(s) && next == Step(s)
    ensures next.i == s.i && |next.order| == |s.order| && IsPermutation(next.order)
    ensures forall j :: 0 <= j < s.i ==> next.order[j] == j
    ensures CycleCount(next.order) == CycleCount(s.order) + 1
    ensures |Misplaced(next.order)| < |Misplaced(s.order)|
  {
    SwapPlacesOne(s.order, s.i);
    SwapSplitsCycle(s.order, s.i);
    ProperSubset(Misplaced(next.order), Misplaced(s.order));
  }

  ghost predicate SwapContextAt<T>(s: Loop<T>) {
    SwapContext(s.order, s.i)
  }

  lemma ProperSubset<T>(a: set<T>, b: set<T>)
    requires a < b
    ensures |a| < |b|
  {
    SubsetCardinality(a, b);
    if |a| == |b| { EqualCardinalitySubset(a, b); }
  }

  lemma {:induction false} StaysFinished<T>(s: Loop<T>, steps: nat)
    requires Running(s) && s.i == |s.order|
    ensures Run(s, steps) == s
  {
    if steps > 0 { StaysFinished(s, steps - 1); }
  }

  /** The loop finishes exactly on permutations: on any other order whose
      entries are in range it swaps for ever. */
  lemma FinishesIffPermutation<T>(items: seq<T>, order: seq<nat>)
    requires InRange(order) && |order| <= |items|
    ensures IsPermutation(order) <==> exists steps: nat :: Run(Loop(items, order, 0), steps).i == |order|
  {
    var first := Loop(items, order, 0);
    if IsPermutation(order) {
      CycleCountBounds(order);
      FinishesIn(first, 2 * |order| - CycleCount(order));
    }
    if steps: nat :| Run(first, steps).i == |order| {
      var at := RunReaches(first, steps);
      FinishedIsScattered(first, Run(first, steps), at);
    }
  }

  /** Slots the order leaves in place are never disturbed, in any state of the loop. */
  lemma FixedSlotsNeverMove<T>(items: seq<T>, order: seq<nat>, steps: nat, m: nat)
    requires InRange(order) && |order| <= |items| && m < |items|
    requires IsPermutation(order)
    requires m < |order| ==> order[m] == m
    ensures Run(Loop(items, order, 0), steps).items[m] == items[m]
  {
    FixedSlotStep(Loop(items, order, 0), steps, m);
  }

  lemma {:induction false} FixedSlotStep<T>(s: Loop<T>, steps: nat, m: nat)
    requires Running(s) && m < |s.items| && IsPermutation(s.order)
    requires m < |s.order| ==> s.order[m] == m
    ensures var r := Run(s, steps);
            r.items[m] == s.items[m] && IsPermutation(r.order) && (m < |s.order| ==> r.order[m] == m)
    decreases steps
  {
    if steps > 0 {
      if s.i < |s.order| && s.order[s.i] != s.i {
        SwapKeepsPermutation(s.order, s.i, s.order[s.i]);
        assert m < |s.order| ==> s.order[s.i] != m;
      }
      FixedSlotStep(Step(s), steps - 1, m);
    }
  }

  // ---------- the loop itself ----------

  lemma {:induction false} RunKeepsOrder<T>(s: Loop<T>, steps: nat)
    requires Running(s) && IsPermutation(s.order)
    requires forall j :: 0 <= j < s.i ==> s.order[j] == j
    ensures IsPermutation(Run(s, steps).order)
    ensures forall j :: 0 <= j < Run(s, steps).i ==> Run(s, steps).order[j] == j
    decreases steps
  {
    if steps > 0 {
      if s.i < |s.order| && s.order[s.i] != s.i {
        SwapPlacesOne(s.order, s.i);
      }
      RunKeepsOrder(Step(s), steps - 1);
    }
  }

  lemma StepKeepsItems<T>(s: Loop<T>)
    requires Running(s)
    ensures multiset(Step(s).items) == multiset(s.items)
  {
    if s.i < |s.order| && s.order[s.i] != s.i {
      SwapKeepsMultiset(s.items, s.i, s.order[s.i]);
    }
  }

  lemma {:induction false} RunKeepsItems<T>(s: Loop<T>, steps: nat)
    requires Running(s)
    ensures multiset(Run(s, steps).items) == multiset(s.items)
    decreases steps
  {
    if steps > 0 {
      StepKeepsItems(s);
      RunKeepsItems(Step(s), steps - 1);
    }
  }

  /** What one swap of the inner loop improves. */
  lemma SwapStep<T>(first: Loop<T>, steps: nat)
    requires Running(first) && first.i == 0 && IsPermutation(first.order)
    requires var s := Run(first, steps); s.i < |s.order| && s.order[s.i] != s.i
    ensures var s := Run(first, steps);
            Run(first, steps + 1) == Loop(Swapped(s.items, s.i, s.order[s.i]), Swapped(s.order, s.i, s.order[s.i]), s.i)
    ensures CycleCount(Run(first, steps + 1).order) == CycleCount(Run(first, steps).order) + 1
    ensures Misplaced(Run(first, steps + 1).order) < Misplaced(Run(first, steps).order)
  {
    var s := Run(first, steps);
    RunNext(first, steps);
    RunKeepsOrder(first, steps);
    SwapPlacesOne(s.order, s.i);
    SwapSplitsCycle(s.order, s.i);
  }

  lemma IndexStep<T>(first: Loop<T>, steps: nat)
    requires Running(first)
    requires var s := Run(first, steps); s.i < |s.order| && s.order[s.i] == s.i
    ensures var s := Run(first, steps); Run(first, steps + 1) == s.(i := s.i + 1)
  {
    RunNext(first, steps);
  }

  lemma FinishedRun<T>(first: Loop<T>, steps: nat)
    requires Running(first) && first.i == 0
    requires Run(first, steps).i == |first.order|
    ensures IsPermutation(first.order)
    ensures Run(first, steps).items == Scatter(first.items, first.order)
    ensures multiset(Run(first, steps).items) == multiset(first.items)
    ensures forall j :: 0 <= j < |first.order| ==> Run(first, steps).order[j] == j
    ensures CycleCount(Run(first, steps).order) == |first.order|
  {
    var at := RunReaches(first, steps);
    FinishedIsScattered(first, Run(first, steps), at);
    RunKeepsItems(first, steps);
    IdentityCycles(Run(first, steps).order);
  }

  lemma ScatterKeepsItems<T>(src: seq<T>, order: seq<nat>)
    requires IsPermutation(order) && |order| <= |src|
    ensures multiset(Scatter(src, order)) == multiset(src)
  {
    FinishesIffPermutation(src, order);
    var steps: nat :| Run(Loop(src, order, 0), steps).i == |order|;
    FinishedRun(Loop(src, order, 0), steps);
  }

  /** Applies `order` to `items` in place. The swaps needed are one less than
      the length for every cycle. */
  method Reorder<T>(items: array<T>, order: array<nat>) returns (ghost swaps: nat)
    requires items as object != order
    requires order.Length <= items.Length && IsPermutation(order[..])
    modifies items, order
    ensures items[..] == Scatter(old(items[..]), old(order[..]))
    ensures multiset(items[..]) == multiset(old(items[..]))
    ensures forall j :: 0 <= j < order.Length ==> order[j] == j
    ensures swaps == order.Length - CycleCount(old(order[..]))
    ensures order.Length > 0 ==> swaps <= order.Length - 1
  {
    ghost var first := Loop(items[..], order[..], 0);
    ghost var steps := 0;
    CycleCountBounds(order[..]);
    swaps := 0;
    var i := 0;
    while i < order.Length
      invariant i <= order.Length
      invariant Run(first, steps) == Loop(items[..], order[..], i)
      invariant swaps + CycleCount(first.order) == CycleCount(Run(first, steps).order)
    {
      while i != order[i]
        invariant Run(first, steps) == Loop(items[..], order[..], i)
        invariant swaps + CycleCount(first.order) == CycleCount(Run(first, steps).order)
        decreases Misplaced(Run(first, steps).order)
      {
        SwapStep(first, steps);
        SwapInPlace(items, i, order[i], order);
        steps := steps + 1;
        swaps := swaps + 1;
      }
      IndexStep(first, steps);
      steps := steps + 1;
      i := i + 1;
    }
    FinishedRun(first, steps);
  }

  /** The two std::swap calls of the inner loop. */
  method SwapInPlace<T>(items: array<T>, i: nat, alt: nat, order: array<nat>)
    requires items as object != order
    requires i < order.Length <= items.Length && alt < order.Length
    modifies items, order
    ensures items[..] == Swapped(old(items[..]), i, alt)
    ensures order[..] == Swapped(old(order[..]), i, alt)
  {
    items[i], items[alt] := items[alt], items[i];
    order[i], order[alt] := order[alt], order[i];
  }
}
