/**
 * The bounded Top-K priority lattice: an object with a fixed bound K that
 * keeps at most K (priority, value) pairs, always ones of highest priority
 * among everything assigned or merged into it.
 *
 * Priorities are integers (only their order matters); which of several pairs
 * of equal priority is kept is left open, so the result of a merge is
 * specified by the relation `IsTopK` rather than by a function.
 */
module TopKLattice {

  datatype PriorityValuePair = PriorityValuePair(priority: int, value: string)

  function Min(a: int, b: int): int
  {
    if a <= b then a else b
  }

  /**
   * `r` is a top-`k` selection of `s`: a subset of `s` with `min(|s|, k)`
   * elements, none of lower priority than any element of `s` left out.
   */
  ghost predicate IsTopK(r: set<PriorityValuePair>, s: set<PriorityValuePair>, k: nat)
  {
    && r <= s
    && |r| == Min(|s|, k)
    && forall x, y :: x in r && y in s && y !in r ==> y.priority <= x.priority
  }

  /** No two pairs of `s` share a priority. */
  ghost predicate DistinctPriorities(s: set<PriorityValuePair>)
  {
    forall x, y :: x in s && y in s && x.priority == y.priority ==> x == y
  }

  // ---------------------------------------------------------------------------
  // Computing a top-K selection
  // ---------------------------------------------------------------------------

  /** A pair of lowest priority in a non-empty set. */
  method MinPriorityElement(s: set<PriorityValuePair>) returns (m: PriorityValuePair)
    requires s != {}
    ensures m in s
    ensures forall y :: y in s ==> m.priority <= y.priority
  {
    m :| m in s;
    var rest := s - {m};
    while rest != {}
      invariant rest <= s && m in s
      invariant forall y :: y in s && y !in rest ==> m.priority <= y.priority
      decreases |rest|
    {
      var y :| y in rest;
      if y.priority < m.priority {
        m := y;
      }
      rest := rest - {y};
    }
  }

  /** Drops lowest-priority pairs until at most `k` remain. */
  method TopK(s: set<PriorityValuePair>, k: nat) returns (r: set<PriorityValuePair>)
    ensures IsTopK(r, s, k)
  {
    r := s;
    while |r| > k
      invariant r <= s
      invariant r == s || |r| >= k
      invariant forall x, y :: x in r && y in s && y !in r ==> y.priority <= x.priority
      decreases |r|
    {
      var m := MinPriorityElement(r);
      r := r - {m};
    }
    SubsetSize(r, s);
  }

  // ---------------------------------------------------------------------------
  // The lattice object
  // ---------------------------------------------------------------------------

  class TopKPriorityLattice {
    /** The bound K, fixed at construction. */
    const k: nat
    /** The retained pairs. */
    var elements: set<PriorityValuePair>

    ghost predicate Valid()
      reads this
    {
      |elements| <= k
    }

    /** A lattice with bound `k` and no pairs. */
    constructor (k: nat)
      ensures Valid() && this.k == k && elements == {}
    {
      this.k := k;
      elements := {};
    }

    /** A lattice with bound `k` holding a top-`k` selection of `s`. */
    constructor WithElements(k: nat, s: set<PriorityValuePair>)
      ensures Valid() && this.k == k && IsTopK(elements, s, k)
    {
      var r := TopK(s, k);
      this.k := k;
      elements := r;
    }

    /** The number of retained pairs; never more than K. */
    function Size(): (n: nat)
      reads this
      requires Valid()
      ensures n <= k
      ensures n == |elements|
    {
      |elements|
    }

    /** The retained pairs, read-only. */
    function Reveal(): (r: set<PriorityValuePair>)
      reads this
      requires Valid()
      ensures |r| <= k
    {
      elements
    }

    /** Replaces the content, whatever it was, by a top-K selection of `s`. */
    method Assign(s: set<PriorityValuePair>)
      requires Valid()
      modifies this
      ensures Valid() && IsTopK(elements, s, k)
    {
      elements := TopK(s, k);
    }

    /** Keeps a top-K selection of the current pairs together with `s`. */
    method Merge(s: set<PriorityValuePair>)
      requires Valid()
      modifies this
      ensures Valid() && IsTopK(elements, old(elements) + s, k)
    {
      elements := TopK(elements + s, k);
    }

    /** Merging another lattice merges its pairs, under this lattice's bound. */
    method MergeLattice(other: TopKPriorityLattice)
      requires Valid()
      modifies this
      ensures Valid() && IsTopK(elements, old(elements) + old(other.elements), k)
    {
      Merge(other.elements);
    }
  }

  // ---------------------------------------------------------------------------
  // Properties of top-K selection
  // ---------------------------------------------------------------------------

  lemma SubsetSize(a: set<PriorityValuePair>, b: set<PriorityValuePair>)
    requires a <= b
    ensures |a| <= |b|
    ensures |a| == |b| ==> a == b
  {
    assert b == a + (b - a);
    assert |b| == |a| + |b - a|;
    if |a| == |b| {
      assert b - a == {};
    }
  }

  /** A set no larger than K is its own only top-K selection. */
  lemma TopKOfSmallSet(r: set<PriorityValuePair>, s: set<PriorityValuePair>, k: nat)
    requires |s| <= k
    ensures IsTopK(r, s, k) <==> r == s
  {
    if IsTopK(r, s, k) {
      SubsetSize(r, s);
    }
  }

  /** With distinct priorities, the top-K selection is unique. */
  lemma TopKUnique(r1: set<PriorityValuePair>, r2: set<PriorityValuePair>, s: set<PriorityValuePair>, k: nat)
    requires DistinctPriorities(s)
    requires IsTopK(r1, s, k) && IsTopK(r2, s, k)
    ensures r1 == r2
  {
    if r1 != r2 {
      var x: PriorityValuePair;
      if r1 - r2 != {} {
        x :| x in r1 - r2;
      } else {
        assert r1 <= r2 by {
          forall z | z in r1 ensures z in r2 { assert z !in r1 - r2; }
        }
        SubsetSize(r1, r2);
        assert false;
      }
      var y := ElementOutside(r2, r1);
      assert false;
    }
  }

  /** Two sets of equal size: if one has an element outside the other, so does the other. */
  lemma ElementOutside(a: set<PriorityValuePair>, b: set<PriorityValuePair>) returns (y: PriorityValuePair)
    requires |a| == |b| && b - a != {}
    ensures y in a && y !in b
  {
    if a - b == {} {
      assert a <= b by {
        forall z | z in a ensures z in b { assert z !in a - b; }
      }
      SubsetSize(a, b);
      assert false;
    }
    y :| y in a - b;
  }

  /**
   * Successive merges accumulate: a top-K selection of (a top-K selection of
   * `a`) together with `b` is a top-K selection of `a` together with `b`.
   */
  lemma {:induction false} MergeAccumulates(
    r1: set<PriorityValuePair>, a: set<PriorityValuePair>,
    r2: set<PriorityValuePair>, b: set<PriorityValuePair>, k: nat)
    requires IsTopK(r1, a, k)
    requires IsTopK(r2, r1 + b, k)
    ensures IsTopK(r2, a + b, k)
  {
    if |a| <= k {
      TopKOfSmallSet(r1, a, k);
    } else {
      SubsetSize(r1, r1 + b);
      SubsetSize(a, a + b);
    }
    forall x, y | x in r2 && y in a + b && y !in r2
      ensures y.priority <= x.priority
    {
      if y !in r1 + b && x !in r1 {
        // y was dropped from a, so a was truncated and r1, r2 both hold k pairs.
        assert |a| > k by {
          if |a| <= k { TopKOfSmallSet(r1, a, k); }
        }
        SubsetSize(r1, r1 + b);
        assert |r1| == k == |r2|;
        assert x in r2 - r1;
        var z := ElementOutside(r1, r2);
        assert y.priority <= z.priority <= x.priority;
      }
    }
  }

  /** Merging a set that was already merged changes nothing (distinct priorities). */
  lemma MergeReplayIsNoOp(
    r1: set<PriorityValuePair>, a: set<PriorityValuePair>,
    r2: set<PriorityValuePair>, b: set<PriorityValuePair>, k: nat)
    requires DistinctPriorities(a + b)
    requires IsTopK(r1, a + b, k)
    requires IsTopK(r2, r1 + b, k)
    ensures r2 == r1
  {
    MergeAccumulates(r1, a + b, r2, b, k);
    assert a + b + b == a + b;
    TopKUnique(r1, r2, a + b, k);
  }

  /** The order in which two sets are merged does not matter (distinct priorities). */
  lemma MergeCommutes(
    a: set<PriorityValuePair>, b: set<PriorityValuePair>, c: set<PriorityValuePair>, k: nat,
    ra: set<PriorityValuePair>, rab: set<PriorityValuePair>,
    rb: set<PriorityValuePair>, rba: set<PriorityValuePair>)
    requires DistinctPriorities(c + a + b)
    requires IsTopK(ra, c + a, k) && IsTopK(rab, ra + b, k)
    requires IsTopK(rb, c + b, k) && IsTopK(rba, rb + a, k)
    ensures rab == rba
  {
    MergeAccumulates(ra, c + a, rab, b, k);
    MergeAccumulates(rb, c + b, rba, a, k);
    assert c + a + b == c + b + a;
    TopKUnique(rab, rba, c + a + b, k);
  }

  /** Grouping of repeated merges does not matter (distinct priorities): merge is associative. */
  lemma MergeAssociates(
    a: set<PriorityValuePair>, b: set<PriorityValuePair>, c: set<PriorityValuePair>, k: nat,
    rab: set<PriorityValuePair>, rabc: set<PriorityValuePair>,
    rbc: set<PriorityValuePair>, rabc': set<PriorityValuePair>)
    requires DistinctPriorities(a + b + c)
    requires IsTopK(rab, a + b, k) && IsTopK(rabc, rab + c, k)
    requires IsTopK(rbc, b + c, k) && IsTopK(rabc', rbc + a, k)
    ensures rabc == rabc'
  {
    MergeAccumulates(rab, a + b, rabc, c, k);
    MergeAccumulates(rbc, b + c, rabc', a, k);
    assert b + c + a == a + b + c;
    TopKUnique(rabc, rabc', a + b + c, k);
  }
}
