/**
 * Stacking of photo markers that share a spot on the map
 * (src/components/ThumbnailMarkers.jsx). Locations are taken in order; each
 * joins the first group, in creation order, whose FIRST member lies within
 * 0.0005 degrees in both latitude and longitude, and its stack index is the
 * group's size before it joins. A location that joins no group founds one
 * with stack index 0.
 */
module ThumbnailMarkers {
  import opened Wrappers
  import opened Numbers
  import opened Exif
  import opened AppRoute
  import opened Grouping

  const Threshold: real := 0.0005

  predicate Near(a: Coords, b: Coords)
  {
    Abs(a.lat - b.lat) < Threshold && Abs(a.lon - b.lon) < Threshold
  }

  /** The first group, from `from` on, whose first member is near `c`. */
  function FirstNear(locs: seq<Location>, groups: seq<seq<nat>>, c: Coords, from: nat): (r: Option<nat>)
    requires WellFormed(groups, |locs|) && from <= |groups|
    ensures r.Some? ==>
      from <= r.value < |groups| && Near(c, locs[groups[r.value][0]].coords) &&
      (forall g :: from <= g < r.value ==> !Near(c, locs[groups[g][0]].coords))
    ensures r.None? ==> forall g :: from <= g < |groups| ==> !Near(c, locs[groups[g][0]].coords)
    decreases |groups| - from
  {
    if from == |groups| then None
    else if Near(c, locs[groups[from][0]].coords) then Some(from)
    else FirstNear(locs, groups, c, from + 1)
  }

  /** The groups and the stack indices after the first `k` locations. */
  function Stacking(locs: seq<Location>, k: nat): (r: (seq<seq<nat>>, map<nat, nat>))
    requires k <= |locs|
    ensures WellFormed(r.0, k)
    decreases k
  {
    if k == 0 then ([], map[]) else Place(locs, Stacking(locs, k - 1), k - 1)
  }

  /**
   * Location `i` joins the first group whose first member is near it, with
   * the group's size as its stack index, or founds a new group at index 0.
   */
  function Place(locs: seq<Location>, prev: (seq<seq<nat>>, map<nat, nat>), i: nat): (r: (seq<seq<nat>>, map<nat, nat>))
    requires i < |locs| && WellFormed(prev.0, i)
    ensures WellFormed(r.0, i + 1)
  {
    var groups, stack := prev.0, prev.1;
    match FirstNear(locs, groups, locs[i].coords, 0)
    case Some(g) => (Join(groups, g, i), stack[i := |groups[g]|])
    case None => (Found(groups, i), stack[i := 0])
  }

  /** Each index's stack index is its position within its group. */
  ghost predicate StackIsPosition(groups: seq<seq<nat>>, stack: map<nat, nat>, k: nat)
  {
    (forall j: nat :: j in stack <==> j < k) &&
    (forall g, p :: 0 <= g < |groups| && 0 <= p < |groups[g]| ==>
       groups[g][p] in stack && stack[groups[g][p]] == p)
  }

  /** The groups partition the indices below `k`, and each index's stack index is its position in its group. */
  ghost predicate Stacked(groups: seq<seq<nat>>, stack: map<nat, nat>, k: nat)
  {
    exists pos :: PartitionAt(groups, pos, k) && StackIsPosition(groups, stack, k)
  }

  lemma {:induction false} StackingSpec(locs: seq<Location>, k: nat)
    requires k <= |locs|
    ensures Stacked(Stacking(locs, k).0, Stacking(locs, k).1, k)
    decreases k
  {
    if k == 0 {
      assert Stacking(locs, 0) == ([], map[]);
      NothingStacked();
    } else {
      StackingSpec(locs, k - 1);
      StackingStep(locs, k);
    }
  }

  lemma NothingStacked()
    ensures Stacked([], map[], 0)
  {
    assert PartitionAt([], [], 0) && StackIsPosition([], map[], 0);
  }

  lemma StackingStep(locs: seq<Location>, k: nat)
    requires 0 < k <= |locs| && Stacked(Stacking(locs, k - 1).0, Stacking(locs, k - 1).1, k - 1)
    ensures Stacked(Stacking(locs, k).0, Stacking(locs, k).1, k)
  {
    var prev, r := Stacking(locs, k - 1), Stacking(locs, k);
    PlaceSpec(locs, prev.0, prev.1, k, r.0, r.1);
  }

  /** Placing location `k - 1` keeps the partition and the stack indices as positions. */
  lemma PlaceSpec(locs: seq<Location>, groups: seq<seq<nat>>, stack: map<nat, nat>, k: nat,
                  r0: seq<seq<nat>>, r1: map<nat, nat>)
    requires 0 < k <= |locs| && WellFormed(groups, k - 1) && Stacked(groups, stack, k - 1)
    requires (r0, r1) == Place(locs, (groups, stack), k - 1)
    ensures Stacked(r0, r1, k)
  {
    match FirstNear(locs, groups, locs[k - 1].coords, 0)
    case Some(g) =>
      JoinStack(groups, stack, g, k, r0, r1);
      JoinKeepsPartition(groups, g, k, r0);
    case None =>
      FoundStack(groups, stack, k, r0, r1);
      FoundKeepsPartition(groups, k, r0);
  }

  /** Appending index `k - 1` to group `g` records its position there. */
  lemma JoinStack(groups: seq<seq<nat>>, stack: map<nat, nat>, g: nat, k: nat,
                  r0: seq<seq<nat>>, r1: map<nat, nat>)
    requires 0 < k && Stacked(groups, stack, k - 1) && g < |groups|
    requires r0 == Join(groups, g, k - 1) && r1 == stack[k - 1 := |groups[g]|]
    ensures StackIsPosition(r0, r1, k)
  {
    var pos: seq<(nat, nat)> :| PartitionAt(groups, pos, k - 1) && StackIsPosition(groups, stack, k - 1);
    forall g', p | 0 <= g' < |r0| && 0 <= p < |r0[g']|
      ensures r0[g'][p] in r1 && r1[r0[g'][p]] == p
    {
      if g' == g && p == |groups[g]| {
        assert r0[g'][p] == k - 1;
      } else {
        assert r0[g'][p] == groups[g'][p] < k - 1;
      }
    }
  }

  /** A new group for index `k - 1` puts it at position 0. */
  lemma FoundStack(groups: seq<seq<nat>>, stack: map<nat, nat>, k: nat, r0: seq<seq<nat>>, r1: map<nat, nat>)
    requires 0 < k && Stacked(groups, stack, k - 1)
    requires r0 == Found(groups, k - 1) && r1 == stack[k - 1 := 0]
    ensures StackIsPosition(r0, r1, k)
  {
    var pos: seq<(nat, nat)> :| PartitionAt(groups, pos, k - 1) && StackIsPosition(groups, stack, k - 1);
    forall g', p | 0 <= g' < |r0| && 0 <= p < |r0[g']|
      ensures r0[g'][p] in r1 && r1[r0[g'][p]] == p
    {
      if g' == |groups| {
        assert r0[g'][p] == k - 1;
      } else {
        assert r0[g'] == groups[g'];
        assert r0[g'][p] == groups[g'][p] < k - 1;
      }
    }
    forall j: nat
      ensures j in r1 <==> j < k
    {
    }
  }

  /**
   * Every location gets a stack index, and the locations with stack index 0
   * are exactly the founders of the groups.
   */
  lemma Founders(locs: seq<Location>)
    ensures var r := Stacking(locs, |locs|);
      (forall j: nat :: j in r.1 <==> j < |locs|) &&
      (forall j :: j in r.1 ==> (r.1[j] == 0 <==> exists g :: 0 <= g < |r.0| && r.0[g][0] == j))
  {
    var r := Stacking(locs, |locs|);
    StackingSpec(locs, |locs|);
    var pos: seq<(nat, nat)> :| PartitionAt(r.0, pos, |locs|) && StackIsPosition(r.0, r.1, |locs|);
    forall j | j in r.1
      ensures r.1[j] == 0 <==> exists g :: 0 <= g < |r.0| && r.0[g][0] == j
    {
      PartitionUnique(r.0, |locs|, j);
      var g, p :| 0 <= g < |r.0| && 0 <= p < |r.0[g]| && r.0[g][p] == j;
      if r.1[j] == 0 {
        assert p == 0;
      }
      if exists g' :: 0 <= g' < |r.0| && r.0[g'][0] == j {
        var g' :| 0 <= g' < |r.0| && r.0[g'][0] == j;
        assert r.1[r.0[g'][0]] == 0;
      }
    }
  }

  /**
   * Nearness is only tested against a group's first member: a location near
   * the second member of a group but not near the first founds a new group.
   */
  lemma OnlyFirstMemberCounts(p: Photo)
    ensures var locs := [Location(p, Coords(0.0, 0.0)), Location(p, Coords(0.0004, 0.0)),
                         Location(p, Coords(0.0008, 0.0))];
      Stacking(locs, 3).1 == map[0 := 0, 1 := 1, 2 := 0]
  {
    var locs := [Location(p, Coords(0.0, 0.0)), Location(p, Coords(0.0004, 0.0)),
                 Location(p, Coords(0.0008, 0.0))];
    assert Stacking(locs, 0) == ([], map[]);
    assert FirstNear(locs, [], locs[0].coords, 0) == None;
    assert Stacking(locs, 1).0 == [[0]];
    assert Stacking(locs, 1).1 == map[0 := 0];
    assert Near(locs[1].coords, locs[0].coords);
    assert FirstNear(locs, [[0]], locs[1].coords, 0) == Some(0);
    assert [0] + [1] == [0, 1];
    assert Stacking(locs, 2).0 == [[0, 1]];
    assert Stacking(locs, 2).1 == map[0 := 0, 1 := 1];
    assert !Near(locs[2].coords, locs[0].coords);
    assert FirstNear(locs, [[0, 1]], locs[2].coords, 0) == None;
  }

  /** `calculateStackIndices`. */
  method CalculateStackIndices(locs: seq<Location>) returns (stackIndices: map<nat, nat>)
    ensures stackIndices == Stacking(locs, |locs|).1
  {
    stackIndices := map[];
    var groups: seq<seq<nat>> := [];
    var index := 0;
    while index < |locs|
      invariant 0 <= index <= |locs|
      invariant (groups, stackIndices) == Stacking(locs, index)
    {
      ghost var next := Place(locs, (groups, stackIndices), index);
      assert Stacking(locs, index + 1) == next;
      var found := FindGroup(locs, groups, locs[index].coords);
      if found.Some? {
        var g := found.value;
        stackIndices := stackIndices[index := |groups[g]|];
        groups := Join(groups, g, index);
      } else {
        stackIndices := stackIndices[index := 0];
        groups := Found(groups, index);
      }
      assert (groups, stackIndices) == next;
      index := index + 1;
    }
  }

  /** The inner loop: the first group whose first member is near `c`. */
  method FindGroup(locs: seq<Location>, groups: seq<seq<nat>>, c: Coords) returns (found: Option<nat>)
    requires WellFormed(groups, |locs|)
    ensures found == FirstNear(locs, groups, c, 0)
  {
    found := None;
    var g := 0;
    while g < |groups|
      invariant 0 <= g <= |groups|
      invariant FirstNear(locs, groups, c, 0) == FirstNear(locs, groups, c, g)
    {
      var firstLoc := locs[groups[g][0]];
      var latDiff := Abs(c.lat - firstLoc.coords.lat);
      var lonDiff := Abs(c.lon - firstLoc.coords.lon);
      if latDiff < Threshold && lonDiff < Threshold {
        found := Some(g);
        break;
      }
      g := g + 1;
    }
  }

  /** The marker's z-offset: the looked-up stack index times 100, 0 when missing. */
  function ZOffset(stackIndices: map<nat, nat>, index: nat): (z: nat)
    ensures index !in stackIndices ==> z == 0
    ensures index in stackIndices ==> z == 100 * stackIndices[index]
  {
    (if index in stackIndices then stackIndices[index] else 0) * 100
  }

  /** Group founders sit at z-offset 0 and later members above them. */
  lemma ZOffsetOrder(locs: seq<Location>, g: nat, p: nat)
    requires var r := Stacking(locs, |locs|); g < |r.0| && 0 < p < |r.0[g]|
    ensures var r := Stacking(locs, |locs|);
      ZOffset(r.1, r.0[g][0]) == 0 && ZOffset(r.1, r.0[g][p]) == 100 * p
  {
    var r := Stacking(locs, |locs|);
    StackingSpec(locs, |locs|);
    var pos: seq<(nat, nat)> :| PartitionAt(r.0, pos, |locs|) && StackIsPosition(r.0, r.1, |locs|);
  }
}
