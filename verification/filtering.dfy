/**
 * The loop shape `getAllGPSLocations` and `getSortedRouteLocations` share: a
 * `forEach` over the photos that pushes a record for each photo a test
 * accepts, in order. The facts about it are proved here once, for any test
 * and any record.
 */
module Filtering {
  import opened StableSort

  /** The indices of the elements of `s` that `keep` accepts, in increasing order. */
  function Indices<T>(s: seq<T>, keep: T -> bool): (idx: seq<nat>)
    ensures forall k :: 0 <= k < |idx| ==> idx[k] < |s| && keep(s[idx[k]])
    ensures forall k, l :: 0 <= k < l < |idx| ==> idx[k] < idx[l]
    ensures forall i :: 0 <= i < |s| && keep(s[i]) ==> i in idx
  {
    if s == [] then []
    else
      var before := Indices(s[..|s| - 1], keep);
      if keep(s[|s| - 1]) then before + [|s| - 1] else before
  }

  /** `s.forEach(x => { if (keep(x)) out.push(f(x)) })`, starting from an empty `out`. */
  function Pushed<T(!new), U>(s: seq<T>, keep: T -> bool, f: T --> U): (r: seq<U>)
    requires forall x :: keep(x) ==> f.requires(x)
    ensures |r| <= |s|
    ensures (forall i :: 0 <= i < |s| ==> !keep(s[i])) ==> r == []
  {
    if s == [] then []
    else
      var before := Pushed(s[..|s| - 1], keep, f);
      if keep(s[|s| - 1]) then before + [f(s[|s| - 1])] else before
  }

  /**
   * Every accepted element is pushed, and nothing else, in order: the k-th
   * record is that of the k-th accepted element.
   */
  lemma {:induction false} PushedSpec<T(!new), U>(s: seq<T>, keep: T -> bool, f: T --> U)
    requires forall x :: keep(x) ==> f.requires(x)
    ensures var r, idx := Pushed(s, keep, f), Indices(s, keep);
      |r| == |idx| && forall k :: 0 <= k < |r| ==> r[k] == f(s[idx[k]])
    decreases |s|
  {
    if s != [] {
      PushedSpec(s[..|s| - 1], keep, f);
      if keep(s[|s| - 1]) {
        PushedKept(s, keep, f);
      } else {
        PushedSkipped(s, keep, f);
      }
    }
  }

  lemma PushedKept<T(!new), U>(s: seq<T>, keep: T -> bool, f: T --> U)
    requires forall x :: keep(x) ==> f.requires(x)
    requires s != [] && keep(s[|s| - 1])
    requires var init := s[..|s| - 1]; var before, idxBefore := Pushed(init, keep, f), Indices(init, keep);
      |before| == |idxBefore| && forall k :: 0 <= k < |before| ==> before[k] == f(init[idxBefore[k]])
    ensures var r, idx := Pushed(s, keep, f), Indices(s, keep);
      |r| == |idx| && forall k :: 0 <= k < |r| ==> r[k] == f(s[idx[k]])
  {
    var init, last := s[..|s| - 1], s[|s| - 1];
    var r, before := Pushed(s, keep, f), Pushed(init, keep, f);
    var idx, idxBefore := Indices(s, keep), Indices(init, keep);
    assert r == before + [f(last)];
    assert idx == idxBefore + [|s| - 1];
    forall k | 0 <= k < |r|
      ensures r[k] == f(s[idx[k]])
    {
      if k < |before| {
        assert r[k] == before[k] && idx[k] == idxBefore[k];
        assert s[idxBefore[k]] == init[idxBefore[k]];
      }
    }
  }

  lemma PushedSkipped<T(!new), U>(s: seq<T>, keep: T -> bool, f: T --> U)
    requires forall x :: keep(x) ==> f.requires(x)
    requires s != [] && !keep(s[|s| - 1])
    requires var init := s[..|s| - 1]; var before, idxBefore := Pushed(init, keep, f), Indices(init, keep);
      |before| == |idxBefore| && forall k :: 0 <= k < |before| ==> before[k] == f(init[idxBefore[k]])
    ensures var r, idx := Pushed(s, keep, f), Indices(s, keep);
      |r| == |idx| && forall k :: 0 <= k < |r| ==> r[k] == f(s[idx[k]])
  {
    var init := s[..|s| - 1];
    var idxBefore := Indices(init, keep);
    assert Pushed(s, keep, f) == Pushed(init, keep, f) && Indices(s, keep) == idxBefore;
    assert forall k :: 0 <= k < |idxBefore| ==> s[idxBefore[k]] == init[idxBefore[k]];
  }

  /**
   * When each record names the element it was made from, a record occurs as
   * often as that element does if the element is accepted and gives it, and
   * never otherwise.
   */
  lemma {:induction false} PushedCount<T(!new), U>(s: seq<T>, keep: T -> bool, f: T --> U, owner: U -> T, u: U)
    requires forall x :: keep(x) ==> f.requires(x) && owner(f(x)) == x
    ensures multiset(Pushed(s, keep, f))[u] ==
      if keep(owner(u)) && f(owner(u)) == u then multiset(s)[owner(u)] else 0
    decreases |s|
  {
    if s != [] {
      var init, last := s[..|s| - 1], s[|s| - 1];
      PushedCount(init, keep, f, owner, u);
      assert s == init + [last];
    }
  }

  /** An upper bound on the elements' keys bounds the keys of their records. */
  lemma {:induction false} PushedBelow<T(!new), U>(s: seq<T>, keep: T -> bool, f: T --> U,
                                                   keyT: T -> int, keyU: U -> int, bound: int)
    requires forall x :: keep(x) ==> f.requires(x) && keyU(f(x)) == keyT(x)
    requires forall i :: 0 <= i < |s| ==> keyT(s[i]) <= bound
    ensures forall j :: 0 <= j < |Pushed(s, keep, f)| ==> keyU(Pushed(s, keep, f)[j]) <= bound
    decreases |s|
  {
    if s != [] {
      PushedBelow(s[..|s| - 1], keep, f, keyT, keyU, bound);
    }
  }

  /** Elements ordered by their key give records ordered by theirs, when each record keeps its element's key. */
  lemma {:induction false} PushedSorted<T(!new), U>(s: seq<T>, keep: T -> bool, f: T --> U,
                                                    keyT: T -> int, keyU: U -> int)
    requires forall x :: keep(x) ==> f.requires(x) && keyU(f(x)) == keyT(x)
    requires SortedBy(s, keyT)
    ensures SortedBy(Pushed(s, keep, f), keyU)
    decreases |s|
  {
    if s != [] {
      var init, last := s[..|s| - 1], s[|s| - 1];
      assert SortedBy(init, keyT);
      PushedSorted(init, keep, f, keyT, keyU);
      if keep(last) {
        var before := Pushed(init, keep, f);
        PushedBelow(init, keep, f, keyT, keyU, keyT(last));
        SortedSnoc(before, f(last), keyU);
        assert Pushed(s, keep, f) == before + [f(last)];
      }
    }
  }
}
