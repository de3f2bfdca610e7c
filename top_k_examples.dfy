/**
 * The fixture of the Top-K lattice tests, with K = 2: six pairs whose
 * priorities are the tenths 1.1, 2.2, 1.2, 2.3, 1.3, 2.4 scaled to integers,
 * and the outcomes the tests expect of assign, merge by value and merge by
 * lattice.
 */
module TopKExamples {
  import opened TopKLattice

  const P1 := PriorityValuePair(11, "1.1")
  const P2 := PriorityValuePair(22, "2.2")
  const P3 := PriorityValuePair(12, "1.2")
  const P4 := PriorityValuePair(23, "2.3")
  const P5 := PriorityValuePair(13, "1.3")
  const P6 := PriorityValuePair(24, "2.4")

  const Set1: set<PriorityValuePair> := {P1, P2}
  const Set2: set<PriorityValuePair> := {P3, P4}
  const Set3: set<PriorityValuePair> := {P5, P6}
  const Set12: set<PriorityValuePair> := {P2, P4}
  const Set123: set<PriorityValuePair> := {P4, P6}

  /** Merging `Set1` into an empty lattice keeps `Set1`. */
  lemma FirstMerge(r: set<PriorityValuePair>)
    requires IsTopK(r, {} + Set1, 2)
    ensures r == Set1
  {
    assert {} + Set1 == Set1;
    assert |Set1| == 2;
    TopKOfSmallSet(r, Set1, 2);
  }

  /** {1.1, 2.2} merged with {1.2, 2.3} keeps {2.2, 2.3}. */
  lemma SecondMerge(r: set<PriorityValuePair>)
    requires IsTopK(r, Set1 + Set2, 2)
    ensures r == Set12
  {
    var all := Set1 + Set2;
    assert all == {P1, P2, P3, P4};
    assert |all| == 4 && |Set12| == 2;
    assert IsTopK(Set12, all, 2);
    TopKUnique(r, Set12, all, 2);
  }

  /** {2.2, 2.3} merged with {1.3, 2.4} keeps {2.3, 2.4}. */
  lemma ThirdMerge(r: set<PriorityValuePair>)
    requires IsTopK(r, Set12 + Set3, 2)
    ensures r == Set123
  {
    var all := Set12 + Set3;
    assert all == {P2, P4, P5, P6};
    assert |all| == 4 && |Set123| == 2;
    assert IsTopK(Set123, all, 2);
    TopKUnique(r, Set123, all, 2);
  }

  /** The Assign test: size 0 at first, then `Set1` with size 2. */
  method AssignScenario() returns (sizes: seq<nat>, revealed: set<PriorityValuePair>)
    ensures sizes == [0, 2] && revealed == Set1
  {
    var lattice := new TopKPriorityLattice(2);
    var before := lattice.Size();
    lattice.Assign(Set1);
    assert |Set1| == 2;
    TopKOfSmallSet(lattice.elements, Set1, 2);
    sizes := [before, lattice.Size()];
    revealed := lattice.Reveal();
  }

  /** The MergeByValue test: sizes 0, 2, 2, 2 and contents `Set1`, `Set12`, `Set123`. */
  method MergeByValueScenario() returns (sizes: seq<nat>, revealed: seq<set<PriorityValuePair>>)
    ensures sizes == [0, 2, 2, 2]
    ensures revealed == [Set1, Set12, Set123]
  {
    var lattice := new TopKPriorityLattice(2);
    sizes := [lattice.Size()];
    lattice.Merge(Set1);
    FirstMerge(lattice.elements);
    sizes, revealed := sizes + [lattice.Size()], [lattice.Reveal()];
    lattice.Merge(Set2);
    SecondMerge(lattice.elements);
    sizes, revealed := sizes + [lattice.Size()], revealed + [lattice.Reveal()];
    lattice.Merge(Set3);
    ThirdMerge(lattice.elements);
    sizes, revealed := sizes + [lattice.Size()], revealed + [lattice.Reveal()];
  }

  /** The MergeByLattice test: the same outcomes, merging lattices built from the sets. */
  method MergeByLatticeScenario() returns (sizes: seq<nat>, revealed: seq<set<PriorityValuePair>>)
    ensures sizes == [0, 2, 2, 2]
    ensures revealed == [Set1, Set12, Set123]
  {
    assert |Set1| == 2 && |Set2| == 2 && |Set3| == 2;
    var lattice := new TopKPriorityLattice(2);
    sizes := [lattice.Size()];

    var other := new TopKPriorityLattice.WithElements(2, Set1);
    TopKOfSmallSet(other.elements, Set1, 2);
    lattice.MergeLattice(other);
    FirstMerge(lattice.elements);
    sizes, revealed := sizes + [lattice.Size()], [lattice.Reveal()];

    other := new TopKPriorityLattice.WithElements(2, Set2);
    TopKOfSmallSet(other.elements, Set2, 2);
    lattice.MergeLattice(other);
    SecondMerge(lattice.elements);
    sizes, revealed := sizes + [lattice.Size()], revealed + [lattice.Reveal()];

    other := new TopKPriorityLattice.WithElements(2, Set3);
    TopKOfSmallSet(other.elements, Set3, 2);
    lattice.MergeLattice(other);
    ThirdMerge(lattice.elements);
    sizes, revealed := sizes + [lattice.Size()], revealed + [lattice.Reveal()];
  }
}
