/**
 * Greedy grouping of indices 0, 1, 2, ... taken in order: each index either
 * joins an existing group, at its end, or opens a new one. Both the map's
 * marker stacking and the timeline's date groups are built this way; what
 * they share is that the groups then partition the indices into ascending
 * lists.
 */
module Grouping {
  /** Groups are non-empty lists of indices below `n`. */
  predicate WellFormed(groups: seq<seq<nat>>, n: nat)
  {
    forall g :: 0 <= g < |groups| ==>
      |groups[g]| > 0 && forall p :: 0 <= p < |groups[g]| ==> groups[g][p] < n
  }

  /** Index `i` joins group `g`. */
  function Join(groups: seq<seq<nat>>, g: nat, i: nat): (r: seq<seq<nat>>)
    requires g < |groups|
    ensures |r| == |groups| && r[g] == groups[g] + [i]
    ensures forall h :: 0 <= h < |r| && h != g ==> r[h] == groups[h]
  {
    groups[g := groups[g] + [i]]
  }

  /** Index `i` opens a new, last group. */
  function Found(groups: seq<seq<nat>>, i: nat): (r: seq<seq<nat>>)
    ensures |r| == |groups| + 1 && r[|groups|] == [i] && r[..|groups|] == groups
  {
    groups + [[i]]
  }

  /**
   * `pos` places every index: `pos[j] == (g, p)` exactly when index `j` is
   * element `p` of group `g`, and the groups hold no other index.
   */
  ghost predicate Placed(groups: seq<seq<nat>>, pos: seq<(nat, nat)>)
  {
    (forall j :: 0 <= j < |pos| ==>
       pos[j].0 < |groups| && pos[j].1 < |groups[pos[j].0]| && groups[pos[j].0][pos[j].1] == j) &&
    (forall g, p :: 0 <= g < |groups| && 0 <= p < |groups[g]| ==>
       groups[g][p] < |pos| && pos[groups[g][p]] == (g, p))
  }

  /** Every group lists its indices in increasing order. */
  ghost predicate Ascending(groups: seq<seq<nat>>)
  {
    forall g, p, q :: 0 <= g < |groups| && 0 <= p < q < |groups[g]| ==> groups[g][p] < groups[g][q]
  }

  /** The groups split the indices below `k` into ascending lists, `pos` saying where each one is. */
  ghost predicate PartitionAt(groups: seq<seq<nat>>, pos: seq<(nat, nat)>, k: nat)
  {
    |pos| == k && WellFormed(groups, k) && Placed(groups, pos) && Ascending(groups)
  }

  /** The groups split the indices below `k` into ascending lists. */
  ghost predicate Partition(groups: seq<seq<nat>>, k: nat)
  {
    exists pos :: PartitionAt(groups, pos, k)
  }

  /** `r`, the groups after index `k - 1` joins group `g`, still partition the indices. */
  lemma JoinKeepsPartition(groups: seq<seq<nat>>, g: nat, k: nat, r: seq<seq<nat>>)
    requires 0 < k && Partition(groups, k - 1) && g < |groups| && r == Join(groups, g, k - 1)
    ensures Partition(r, k)
  {
    var pos: seq<(nat, nat)> :| PartitionAt(groups, pos, k - 1);
    var pos' := pos + [(g, |groups[g]|)];
    forall j | 0 <= j < |pos'|
      ensures pos'[j].0 < |r| && pos'[j].1 < |r[pos'[j].0]| && r[pos'[j].0][pos'[j].1] == j
    {
      if j < k - 1 {
        assert pos'[j] == pos[j];
      }
    }
    forall h, p | 0 <= h < |r| && 0 <= p < |r[h]|
      ensures r[h][p] < |pos'| && pos'[r[h][p]] == (h, p)
    {
      if h != g || p < |groups[g]| {
        assert r[h][p] == groups[h][p];
      }
    }
    forall h, p, q | 0 <= h < |r| && 0 <= p < q < |r[h]|
      ensures r[h][p] < r[h][q]
    {
      if h == g && q == |groups[g]| {
        assert r[h][p] == groups[h][p];
      } else {
        assert r[h][p] == groups[h][p] && r[h][q] == groups[h][q];
      }
    }
    assert PartitionAt(r, pos', k);
  }

  /** `r`, the groups after index `k - 1` opens a new group, still partition the indices. */
  lemma FoundKeepsPartition(groups: seq<seq<nat>>, k: nat, r: seq<seq<nat>>)
    requires 0 < k && Partition(groups, k - 1) && r == Found(groups, k - 1)
    ensures Partition(r, k)
  {
    var pos: seq<(nat, nat)> :| PartitionAt(groups, pos, k - 1);
    var pos' := pos + [(|groups|, 0)];
    forall j | 0 <= j < |pos'|
      ensures pos'[j].0 < |r| && pos'[j].1 < |r[pos'[j].0]| && r[pos'[j].0][pos'[j].1] == j
    {
      if j < k - 1 {
        assert pos'[j] == pos[j];
        assert r[pos[j].0] == groups[pos[j].0];
      }
    }
    forall h, p | 0 <= h < |r| && 0 <= p < |r[h]|
      ensures r[h][p] < |pos'| && pos'[r[h][p]] == (h, p)
    {
      if h < |groups| {
        assert r[h] == groups[h];
      }
    }
    forall h, p, q | 0 <= h < |r| && 0 <= p < q < |r[h]|
      ensures r[h][p] < r[h][q]
    {
      assert r[h] == groups[h];
    }
    assert PartitionAt(r, pos', k);
  }

  /** Each index below `k` lies in exactly one group, at exactly one position. */
  lemma PartitionUnique(groups: seq<seq<nat>>, k: nat, j: nat)
    requires Partition(groups, k) && j < k
    ensures exists g, p :: 0 <= g < |groups| && 0 <= p < |groups[g]| && groups[g][p] == j
    ensures forall g1, p1, g2, p2 ::
      (0 <= g1 < |groups| && 0 <= p1 < |groups[g1]| && groups[g1][p1] == j &&
       0 <= g2 < |groups| && 0 <= p2 < |groups[g2]| && groups[g2][p2] == j) ==> g1 == g2 && p1 == p2
  {
    var pos: seq<(nat, nat)> :| PartitionAt(groups, pos, k);
    var g, p := pos[j].0, pos[j].1;
    assert groups[g][p] == j;
  }
}
