/**
 * The selection rule of the loading pass, as a specification: the unassigned medications
 * are offered one by one in creation order; a candidate is skipped when its weight plus
 * the running load reaches the drone's max weight (`>=`), otherwise it is taken and its
 * weight added to the running load. A skip does not end the scan.
 */
module Allocator {
  import opened Wrappers
  import opened Entities

  /** The state of a pass: items taken so far, items skipped so far, the running load. */
  datatype Allocation = Allocation(taken: seq<Medication>, left: seq<Medication>, load: int)

  /** Whether a candidate is taken at the current running load: strictly below the limit. */
  predicate Fits(weight: int, load: int, maxWeight: int)
  {
    !(weight + load >= maxWeight)
  }

  /** One iteration of the scan. */
  function Step(a: Allocation, c: Medication, maxWeight: int): (r: Allocation)
    ensures |r.taken| + |r.left| == |a.taken| + |a.left| + 1
    ensures Fits(c.weight, a.load, maxWeight) ==> r.taken == a.taken + [c] && r.left == a.left
    ensures !Fits(c.weight, a.load, maxWeight) ==> r.taken == a.taken && r.left == a.left + [c]
    ensures r.load == a.load || r.load < maxWeight
  {
    if Fits(c.weight, a.load, maxWeight) then Allocation(a.taken + [c], a.left, a.load + c.weight)
    else Allocation(a.taken, a.left + [c], a.load)
  }

  /** The whole scan of `pool`, starting from the weight already on the drone. */
  function FirstFit(pool: seq<Medication>, load: int, maxWeight: int): (a: Allocation)
    ensures |a.taken| + |a.left| == |pool|
    ensures a.load == load + SumWeights(a.taken)
    decreases |pool|
  {
    if pool == [] then Allocation([], [], load)
    else
      var prev := FirstFit(pool[..|pool| - 1], load, maxWeight);
      var a := Step(prev, pool[|pool| - 1], maxWeight);
      assert a.taken == prev.taken || a.taken[..|a.taken| - 1] == prev.taken;
      a
  }

  /** The scan of one more candidate is one more step. */
  lemma FirstFitPrefix(pool: seq<Medication>, k: nat, load: int, maxWeight: int)
    requires k < |pool|
    ensures FirstFit(pool[..k + 1], load, maxWeight) == Step(FirstFit(pool[..k], load, maxWeight), pool[k], maxWeight)
  {
    assert pool[..k + 1][..k] == pool[..k];
  }

  /**
   * The scan decides each candidate at the load reached when it is offered: the k-th
   * candidate is skipped exactly when its weight plus the starting load plus the weights
   * taken from the candidates ahead of it reaches the max weight, and taken otherwise.
   */
  lemma SkippedExactly(pool: seq<Medication>, load: int, maxWeight: int)
    ensures forall k :: 0 <= k < |pool| ==>
              var before := FirstFit(pool[..k], load, maxWeight);
              var after := FirstFit(pool[..k + 1], load, maxWeight);
              && (pool[k].weight + load + SumWeights(before.taken) >= maxWeight ==>
                    after.taken == before.taken && after.left == before.left + [pool[k]])
              && (pool[k].weight + load + SumWeights(before.taken) < maxWeight ==>
                    after.taken == before.taken + [pool[k]] && after.left == before.left)
  {
    forall k | 0 <= k < |pool|
      ensures var before := FirstFit(pool[..k], load, maxWeight);
              var after := FirstFit(pool[..k + 1], load, maxWeight);
              && (pool[k].weight + load + SumWeights(before.taken) >= maxWeight ==>
                    after.taken == before.taken && after.left == before.left + [pool[k]])
              && (pool[k].weight + load + SumWeights(before.taken) < maxWeight ==>
                    after.taken == before.taken + [pool[k]] && after.left == before.left)
    {
      FirstFitPrefix(pool, k, load, maxWeight);
    }
  }

  /**
   * `p` is `x` and `y` merged: every element of `p` is in exactly one of them, and each
   * keeps the order of `p`.
   */
  predicate Interleaving(p: seq<Medication>, x: seq<Medication>, y: seq<Medication>)
    decreases |p|
  {
    if p == [] then x == [] && y == []
    else
      || (x != [] && x[|x| - 1] == p[|p| - 1] && Interleaving(p[..|p| - 1], x[..|x| - 1], y))
      || (y != [] && y[|y| - 1] == p[|p| - 1] && Interleaving(p[..|p| - 1], x, y[..|y| - 1]))
  }

  lemma {:induction false} InterleavingMembers(p: seq<Medication>, x: seq<Medication>, y: seq<Medication>)
    requires Interleaving(p, x, y)
    ensures forall i :: 0 <= i < |x| ==> x[i] in p
    ensures forall i :: 0 <= i < |y| ==> y[i] in p
    decreases |p|
  {
    if p != [] {
      var p' := p[..|p| - 1];
      if x != [] && x[|x| - 1] == p[|p| - 1] && Interleaving(p', x[..|x| - 1], y) {
        InterleavingMembers(p', x[..|x| - 1], y);
        assert forall i :: 0 <= i < |x| - 1 ==> x[i] == x[..|x| - 1][i];
      } else {
        InterleavingMembers(p', x, y[..|y| - 1]);
        assert forall i :: 0 <= i < |y| - 1 ==> y[i] == y[..|y| - 1][i];
      }
    }
  }

  /** The pool splits into the taken and the skipped candidates, each in pool order. */
  lemma {:induction false} FirstFitSplitsPool(pool: seq<Medication>, load: int, maxWeight: int)
    ensures var a := FirstFit(pool, load, maxWeight); Interleaving(pool, a.taken, a.left)
    decreases |pool|
  {
    if pool != [] {
      var prev := FirstFit(pool[..|pool| - 1], load, maxWeight);
      FirstFitSplitsPool(pool[..|pool| - 1], load, maxWeight);
      var c := pool[|pool| - 1];
      var a := FirstFit(pool, load, maxWeight);
      assert a == Step(prev, c, maxWeight);
      if Fits(c.weight, prev.load, maxWeight) {
        assert a.taken[..|a.taken| - 1] == prev.taken && a.left == prev.left;
      } else {
        assert a.left[..|a.left| - 1] == prev.left && a.taken == prev.taken;
      }
    }
  }

  /** Every taken item is one of the candidates offered. */
  lemma TakenFromPool(pool: seq<Medication>, load: int, maxWeight: int)
    ensures forall m :: m in FirstFit(pool, load, maxWeight).taken ==> m in pool
  {
    var a := FirstFit(pool, load, maxWeight);
    FirstFitSplitsPool(pool, load, maxWeight);
    InterleavingMembers(pool, a.taken, a.left);
  }

  /**
   * Each item of `taken` fitted when it was taken: its weight plus the load before it
   * (the initial load and the items ahead of it) stayed strictly below the max weight.
   */
  predicate EachFitted(taken: seq<Medication>, load: int, maxWeight: int)
  {
    forall i :: 0 <= i < |taken| ==> Fits(taken[i].weight, load + SumWeights(taken[..i]), maxWeight)
  }

  /** No item of `items` fits at the running load `load`. */
  predicate NoneFits(items: seq<Medication>, load: int, maxWeight: int)
  {
    forall j :: 0 <= j < |items| ==> !Fits(items[j].weight, load, maxWeight)
  }

  lemma {:induction false} TakenFitted(pool: seq<Medication>, load: int, maxWeight: int)
    ensures EachFitted(FirstFit(pool, load, maxWeight).taken, load, maxWeight)
    decreases |pool|
  {
    if pool != [] {
      var prev := FirstFit(pool[..|pool| - 1], load, maxWeight);
      TakenFitted(pool[..|pool| - 1], load, maxWeight);
      var c := pool[|pool| - 1];
      if Fits(c.weight, prev.load, maxWeight) {
        EachFittedExtend(prev.taken, c, load, maxWeight);
      }
    }
  }

  lemma EachFittedExtend(t: seq<Medication>, c: Medication, load: int, maxWeight: int)
    requires EachFitted(t, load, maxWeight)
    requires Fits(c.weight, load + SumWeights(t), maxWeight)
    ensures EachFitted(t + [c], load, maxWeight)
  {
    var t' := t + [c];
    forall i | 0 <= i < |t'| ensures Fits(t'[i].weight, load + SumWeights(t'[..i]), maxWeight) {
      if i < |t| {
        assert t'[i] == t[i] && t'[..i] == t[..i];
      } else {
        assert t'[..i] == t;
      }
    }
  }

  /** With non-negative weights the scan never lowers the load it started from. */
  lemma {:induction false} LoadNeverDrops(pool: seq<Medication>, load: int, maxWeight: int)
    requires forall i :: 0 <= i < |pool| ==> pool[i].weight >= 0
    ensures FirstFit(pool, load, maxWeight).load >= load
    decreases |pool|
  {
    if pool != [] {
      LoadNeverDrops(pool[..|pool| - 1], load, maxWeight);
    }
  }

  /** Once anything is taken, the final load is strictly below the max weight. */
  lemma {:induction false} LoadBelowMax(pool: seq<Medication>, load: int, maxWeight: int)
    ensures FirstFit(pool, load, maxWeight).taken != [] ==> FirstFit(pool, load, maxWeight).load < maxWeight
    decreases |pool|
  {
    if pool != [] {
      LoadBelowMax(pool[..|pool| - 1], load, maxWeight);
    }
  }

  /**
   * With non-negative weights the running load never drops, so every skipped candidate
   * still does not fit at the final load.
   */
  lemma {:induction false} SkippedDoNotFit(pool: seq<Medication>, load: int, maxWeight: int)
    requires forall i :: 0 <= i < |pool| ==> pool[i].weight >= 0
    ensures NoneFits(FirstFit(pool, load, maxWeight).left, FirstFit(pool, load, maxWeight).load, maxWeight)
    decreases |pool|
  {
    if pool != [] {
      var prev := FirstFit(pool[..|pool| - 1], load, maxWeight);
      SkippedDoNotFit(pool[..|pool| - 1], load, maxWeight);
      var c := pool[|pool| - 1];
      var a := FirstFit(pool, load, maxWeight);
      assert a == Step(prev, c, maxWeight);
      assert a.load >= prev.load;
      forall j | 0 <= j < |a.left| ensures !Fits(a.left[j].weight, a.load, maxWeight) {
        if j < |prev.left| {
          assert a.left[j] == prev.left[j];
          assert !Fits(prev.left[j].weight, prev.load, maxWeight);
        } else {
          assert a.left[j] == c && a.load == prev.load;
        }
      }
    }
  }

  /** A pool none of whose candidates fits at `load` is skipped entirely. */
  lemma {:induction false} NothingFits(pool: seq<Medication>, load: int, maxWeight: int)
    requires NoneFits(pool, load, maxWeight)
    ensures FirstFit(pool, load, maxWeight) == Allocation([], pool, load)
    decreases |pool|
  {
    if pool != [] {
      NothingFits(pool[..|pool| - 1], load, maxWeight);
      assert pool[..|pool| - 1] + [pool[|pool| - 1]] == pool;
    }
  }

  /**
   * A second pass over what the first pass skipped, from the load the first pass reached,
   * takes nothing and leaves the load unchanged (non-negative weights).
   */
  lemma SecondPassTakesNothing(pool: seq<Medication>, load: int, maxWeight: int)
    requires forall i :: 0 <= i < |pool| ==> pool[i].weight >= 0
    ensures var a := FirstFit(pool, load, maxWeight);
            FirstFit(a.left, a.load, maxWeight) == Allocation([], a.left, a.load)
  {
    var a := FirstFit(pool, load, maxWeight);
    SkippedDoNotFit(pool, load, maxWeight);
    NothingFits(a.left, a.load, maxWeight);
  }

  /** A candidate that would bring the load to exactly the max weight is refused. */
  lemma ExactFillRefused(m: Medication, load: int)
    ensures FirstFit([m], load, load + m.weight) == Allocation([], [m], load)
  {
    assert [m][..0] == [];
  }

  function Med(id: int, weight: int): Medication
  {
    Medication(id, "item", weight, "CODE", false, None)
  }

  /** Max weight 100, empty drone, pool [60, 50, 20]: 60 taken, 50 skipped, 20 taken, load 80. */
  lemma ScenarioSixtyFiftyTwenty()
    ensures var a := FirstFit([Med(1, 60), Med(2, 50), Med(3, 20)], 0, 100);
            a == Allocation([Med(1, 60), Med(3, 20)], [Med(2, 50)], 80)
  {
    var pool := [Med(1, 60), Med(2, 50), Med(3, 20)];
    assert pool[..2] == [Med(1, 60), Med(2, 50)] && pool[..2][..1] == [Med(1, 60)];
    assert [Med(1, 60)][..0] == [];
  }

  /** Remaining capacity 25, candidates [30, 10]: 30 is skipped and the scan goes on to take 10. */
  lemma SkippedThenFits()
    ensures var a := FirstFit([Med(1, 30), Med(2, 10)], 75, 100);
            a == Allocation([Med(2, 10)], [Med(1, 30)], 85)
  {
    var pool := [Med(1, 30), Med(2, 10)];
    assert pool[..1] == [Med(1, 30)] && pool[..1][..0] == [];
  }
}
