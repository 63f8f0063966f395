/**
 * The route timeline of src/components/MapTimeline.jsx: route points grouped
 * by calendar day, their active/past status during playback, and the loop
 * that fetches an address for each distinct position at most once. The
 * local-time day of a timestamp, the position's cache key and the address
 * lookup are parameters.
 */
module MapTimeline {
  import opened Wrappers
  import opened AppRoute
  import opened Grouping

  const Unknown: string := "unknown"
  /** The placeholder stored when a lookup fails or finds nothing ("no address information"). */
  const NoAddress: string := "주소 정보 없음"

  /** `getDateKey`: a falsy timestamp (0) is "unknown", anything else its local day. */
  function DateKey(timestamp: int, localDay: int -> string): (k: string)
    ensures timestamp == 0 ==> k == Unknown
    ensures timestamp != 0 ==> k == localDay(timestamp)
  {
    if timestamp == 0 then Unknown else localDay(timestamp)
  }

  function Keys(route: seq<Waypoint>, localDay: int -> string): (keys: seq<string>)
    ensures |keys| == |route| && forall i :: 0 <= i < |route| ==> keys[i] == DateKey(route[i].timestamp, localDay)
  {
    seq(|route|, i requires 0 <= i < |route| => DateKey(route[i].timestamp, localDay))
  }

  /** The first group, from `from` on, whose first member has date key `key`. */
  function FirstWithKey(keys: seq<string>, groups: seq<seq<nat>>, key: string, from: nat): (r: Option<nat>)
    requires WellFormed(groups, |keys|) && from <= |groups|
    ensures r.Some? ==>
      from <= r.value < |groups| && keys[groups[r.value][0]] == key &&
      (forall g :: from <= g < r.value ==> keys[groups[g][0]] != key)
    ensures r.None? ==> forall g :: from <= g < |groups| ==> keys[groups[g][0]] != key
    decreases |groups| - from
  {
    if from == |groups| then None
    else if keys[groups[from][0]] == key then Some(from)
    else FirstWithKey(keys, groups, key, from + 1)
  }

  /** The day groups of the first `k` route points, as lists of route indices. */
  function DateGroups(keys: seq<string>, k: nat): (r: seq<seq<nat>>)
    requires k <= |keys|
    ensures WellFormed(r, k) && WellFormed(r, |keys|)
    decreases k
  {
    if k == 0 then [] else AddToGroups(keys, DateGroups(keys, k - 1), k - 1)
  }

  /** Route point `i` joins the first group of its day, or opens a new last group. */
  function AddToGroups(keys: seq<string>, groups: seq<seq<nat>>, i: nat): (r: seq<seq<nat>>)
    requires i < |keys| && WellFormed(groups, i)
    ensures WellFormed(r, i + 1)
  {
    match FirstWithKey(keys, groups, keys[i], 0)
    case Some(g) => Join(groups, g, i)
    case None => Found(groups, i)
  }

  /** All members of a group share its day, and different groups have different days. */
  ghost predicate ByDay(keys: seq<string>, groups: seq<seq<nat>>)
  {
    WellFormed(groups, |keys|) &&
    (forall g, p :: 0 <= g < |groups| && 0 <= p < |groups[g]| ==> keys[groups[g][p]] == keys[groups[g][0]]) &&
    (forall g1, g2 :: 0 <= g1 < g2 < |groups| ==> keys[groups[g1][0]] != keys[groups[g2][0]])
  }

  /** Groups are listed by the first occurrence of their day. */
  ghost predicate FirstOccurrenceOrder(keys: seq<string>, groups: seq<seq<nat>>)
  {
    WellFormed(groups, |keys|) &&
    (forall g1, g2 :: 0 <= g1 < g2 < |groups| ==> groups[g1][0] < groups[g2][0]) &&
    (forall g, j :: 0 <= g < |groups| && 0 <= j < groups[g][0] ==> keys[j] != keys[groups[g][0]])
  }

  /**
   * The groups split the route points below `k` into ascending lists, all
   * members of a group share its day, different groups have different days,
   * and groups appear in the order their day first occurs.
   */
  ghost predicate DayGroups(keys: seq<string>, groups: seq<seq<nat>>, k: nat)
  {
    k <= |keys| &&
    exists pos :: PartitionAt(groups, pos, k) && ByDay(keys, groups) && FirstOccurrenceOrder(keys, groups)
  }

  /** The date groups of the first `k` route points are grouped by day in first-occurrence order. */
  lemma {:induction false} DateGroupsSpec(keys: seq<string>, k: nat)
    requires k <= |keys|
    ensures DayGroups(keys, DateGroups(keys, k), k)
    decreases k
  {
    if k == 0 {
      assert DateGroups(keys, 0) == [];
      DateGroupsEmpty(keys);
    } else {
      DateGroupsSpec(keys, k - 1);
      DateGroupsStep(keys, k);
    }
  }

  lemma DateGroupsEmpty(keys: seq<string>)
    ensures DayGroups(keys, [], 0)
  {
    assert PartitionAt([], [], 0);
  }

  lemma DateGroupsStep(keys: seq<string>, k: nat)
    requires 0 < k <= |keys| && DayGroups(keys, DateGroups(keys, k - 1), k - 1)
    ensures DayGroups(keys, DateGroups(keys, k), k)
  {
    var groups, r := DateGroups(keys, k - 1), DateGroups(keys, k);
    AddToGroupsSpec(keys, groups, k, r);
  }

  /** Adding route point `k - 1` keeps the grouping by day. */
  lemma AddToGroupsSpec(keys: seq<string>, groups: seq<seq<nat>>, k: nat, r: seq<seq<nat>>)
    requires 0 < k <= |keys| && WellFormed(groups, k - 1) && DayGroups(keys, groups, k - 1)
    requires r == AddToGroups(keys, groups, k - 1)
    ensures DayGroups(keys, r, k)
  {
    match FirstWithKey(keys, groups, keys[k - 1], 0)
    case Some(g) =>
      JoinByDay(keys, groups, g, k, r);
      JoinFirstOccurrence(keys, groups, g, k, r);
      JoinKeepsPartition(groups, g, k, r);
    case None =>
      FoundByDay(keys, groups, k, r);
      FoundFirstOccurrence(keys, groups, k, r);
      FoundKeepsPartition(groups, k, r);
  }

  lemma JoinByDay(keys: seq<string>, groups: seq<seq<nat>>, g: nat, k: nat, r: seq<seq<nat>>)
    requires 0 < k <= |keys| && WellFormed(groups, k - 1) && DayGroups(keys, groups, k - 1)
    requires g < |groups| && keys[groups[g][0]] == keys[k - 1]
    requires r == Join(groups, g, k - 1)
    ensures ByDay(keys, r)
  {
    var pos: seq<(nat, nat)> :| PartitionAt(groups, pos, k - 1) && ByDay(keys, groups) && FirstOccurrenceOrder(keys, groups);
    forall h | 0 <= h < |r|
      ensures r[h][0] == groups[h][0]
    {
    }
    forall h, p | 0 <= h < |r| && 0 <= p < |r[h]|
      ensures keys[r[h][p]] == keys[r[h][0]]
    {
      if h == g && p == |groups[g]| {
        assert r[h][p] == k - 1;
      } else {
        assert r[h][p] == groups[h][p];
      }
    }
    forall g1, g2 | 0 <= g1 < g2 < |r|
      ensures keys[r[g1][0]] != keys[r[g2][0]]
    {
    }
  }

  lemma JoinFirstOccurrence(keys: seq<string>, groups: seq<seq<nat>>, g: nat, k: nat, r: seq<seq<nat>>)
    requires 0 < k <= |keys| && WellFormed(groups, k - 1) && DayGroups(keys, groups, k - 1)
    requires g < |groups| && r == Join(groups, g, k - 1)
    ensures FirstOccurrenceOrder(keys, r)
  {
    var pos: seq<(nat, nat)> :| PartitionAt(groups, pos, k - 1) && ByDay(keys, groups) && FirstOccurrenceOrder(keys, groups);
    forall h | 0 <= h < |r|
      ensures r[h][0] == groups[h][0]
    {
    }
    forall g1, g2 | 0 <= g1 < g2 < |r|
      ensures r[g1][0] < r[g2][0]
    {
    }
    forall h, j | 0 <= h < |r| && 0 <= j < r[h][0]
      ensures keys[j] != keys[r[h][0]]
    {
    }
  }

  lemma FoundByDay(keys: seq<string>, groups: seq<seq<nat>>, k: nat, r: seq<seq<nat>>)
    requires 0 < k <= |keys| && WellFormed(groups, k - 1) && DayGroups(keys, groups, k - 1)
    requires forall g :: 0 <= g < |groups| ==> keys[groups[g][0]] != keys[k - 1]
    requires r == Found(groups, k - 1)
    ensures ByDay(keys, r)
  {
    var pos: seq<(nat, nat)> :| PartitionAt(groups, pos, k - 1) && ByDay(keys, groups) && FirstOccurrenceOrder(keys, groups);
    forall h, p | 0 <= h < |r| && 0 <= p < |r[h]|
      ensures keys[r[h][p]] == keys[r[h][0]]
    {
      if h < |groups| {
        assert r[h] == groups[h];
      }
    }
    forall g1, g2 | 0 <= g1 < g2 < |r|
      ensures keys[r[g1][0]] != keys[r[g2][0]]
    {
      assert r[g1] == groups[g1];
      if g2 < |groups| {
        assert r[g2] == groups[g2];
      }
    }
  }

  lemma FoundFirstOccurrence(keys: seq<string>, groups: seq<seq<nat>>, k: nat, r: seq<seq<nat>>)
    requires 0 < k <= |keys| && WellFormed(groups, k - 1) && DayGroups(keys, groups, k - 1)
    requires forall g :: 0 <= g < |groups| ==> keys[groups[g][0]] != keys[k - 1]
    requires r == Found(groups, k - 1)
    ensures FirstOccurrenceOrder(keys, r)
  {
    var pos: seq<(nat, nat)> :| PartitionAt(groups, pos, k - 1) && ByDay(keys, groups) && FirstOccurrenceOrder(keys, groups);
    forall g1, g2 | 0 <= g1 < g2 < |r|
      ensures r[g1][0] < r[g2][0]
    {
      assert r[g1] == groups[g1];
      if g2 < |groups| {
        assert r[g2] == groups[g2];
      }
    }
    forall h, j | 0 <= h < |r| && 0 <= j < r[h][0]
      ensures keys[j] != keys[r[h][0]]
    {
      if h == |groups| {
        var g, p := pos[j].0, pos[j].1;
        assert groups[g][p] == j;
        assert keys[j] == keys[groups[g][0]];
      } else {
        assert r[h] == groups[h];
      }
    }
  }

  /** A route point with the index it had in the route (`originalIndex`). */
  datatype TimelineItem = TimelineItem(point: Waypoint, originalIndex: nat)

  /** One entry of the grouped object: a day key and the points of that day. */
  type DateEntry = (string, seq<TimelineItem>)

  /** The grouped object's entries, in insertion order: a day and its points. */
  function Entries(route: seq<Waypoint>, keys: seq<string>, groups: seq<seq<nat>>): (r: seq<DateEntry>)
    requires |keys| == |route| && WellFormed(groups, |route|)
    ensures |r| == |groups|
  {
    seq(|groups|, g requires 0 <= g < |groups| =>
      (keys[groups[g][0]],
       seq(|groups[g]|, p requires 0 <= p < |groups[g]| => TimelineItem(route[groups[g][p]], groups[g][p]))))
  }

  /** The entry whose day is `key`, from `from` on. */
  function FindEntry(entries: seq<DateEntry>, key: string, from: nat): (r: Option<nat>)
    requires from <= |entries|
    ensures r.Some? ==> from <= r.value < |entries| && entries[r.value].0 == key
    decreases |entries| - from
  {
    if from == |entries| then None
    else if entries[from].0 == key then Some(from)
    else FindEntry(entries, key, from + 1)
  }

  lemma {:induction false} FindEntryAgrees(route: seq<Waypoint>, keys: seq<string>, groups: seq<seq<nat>>,
                                           key: string, from: nat)
    requires |keys| == |route| && WellFormed(groups, |route|) && from <= |groups|
    ensures FindEntry(Entries(route, keys, groups), key, from) == FirstWithKey(keys, groups, key, from)
    decreases |groups| - from
  {
    if from < |groups| {
      FindEntryAgrees(route, keys, groups, key, from + 1);
    }
  }

  /** Adding one route point to the entries: to the entry of its day, or as a new last entry. */
  function AddItem(entries: seq<DateEntry>, dateKey: string, item: TimelineItem)
    : (r: seq<DateEntry>)
    ensures FindEntry(entries, dateKey, 0).Some? ==> |r| == |entries|
    ensures FindEntry(entries, dateKey, 0).None? ==> r == entries + [(dateKey, [item])]
  {
    match FindEntry(entries, dateKey, 0)
    case Some(g) => entries[g := (dateKey, entries[g].1 + [item])]
    case None => entries + [(dateKey, [item])]
  }

  /** The entries of one more route point are the previous entries with that point added. */
  lemma GroupStep(route: seq<Waypoint>, keys: seq<string>, k: nat)
    requires 0 < k <= |route| == |keys|
    ensures Entries(route, keys, DateGroups(keys, k)) ==
      AddItem(Entries(route, keys, DateGroups(keys, k - 1)), keys[k - 1], TimelineItem(route[k - 1], k - 1))
  {
    var i := k - 1;
    var groups := DateGroups(keys, i);
    FindEntryAgrees(route, keys, groups, keys[i], 0);
    match FirstWithKey(keys, groups, keys[i], 0)
    case Some(g) => JoinEntries(route, keys, groups, g, i);
    case None => FoundEntries(route, keys, groups, i);
  }

  /** The entries after the reduce has visited the first `k` route points. */
  function Reduced(route: seq<Waypoint>, localDay: int -> string, k: nat): (r: seq<DateEntry>)
    requires k <= |route|
    decreases k
  {
    if k == 0 then []
    else AddItem(Reduced(route, localDay, k - 1), DateKey(route[k - 1].timestamp, localDay), TimelineItem(route[k - 1], k - 1))
  }

  /** After the first `k` route points, the reduce holds one entry per date group, in group order. */
  ghost predicate ReducesToGroups(route: seq<Waypoint>, localDay: int -> string, keys: seq<string>, k: nat)
    requires k <= |route| == |keys|
  {
    Reduced(route, localDay, k) == Entries(route, keys, DateGroups(keys, k))
  }

  lemma {:induction false} ReducedIsGrouped(route: seq<Waypoint>, localDay: int -> string, keys: seq<string>, k: nat)
    requires k <= |route| == |keys|
    requires forall i :: 0 <= i < |route| ==> keys[i] == DateKey(route[i].timestamp, localDay)
    ensures ReducesToGroups(route, localDay, keys, k)
    decreases k
  {
    if k == 0 {
      ReducedEmpty(route, localDay, keys);
    } else {
      ReducedIsGrouped(route, localDay, keys, k - 1);
      ReducedStep(route, localDay, keys, k);
    }
  }

  lemma ReducedEmpty(route: seq<Waypoint>, localDay: int -> string, keys: seq<string>)
    requires |keys| == |route|
    ensures ReducesToGroups(route, localDay, keys, 0)
  {
    assert DateGroups(keys, 0) == [];
    assert Entries(route, keys, []) == [];
  }

  lemma ReducedStep(route: seq<Waypoint>, localDay: int -> string, keys: seq<string>, k: nat)
    requires 0 < k <= |route| == |keys| && keys[k - 1] == DateKey(route[k - 1].timestamp, localDay)
    ensures ReducesToGroups(route, localDay, keys, k - 1) ==> ReducesToGroups(route, localDay, keys, k)
  {
    GroupStep(route, keys, k);
  }

  /** `groupedByDate`: the reduce over the route. */
  method GroupByDate(route: seq<Waypoint>, localDay: int -> string)
    returns (entries: seq<DateEntry>)
    ensures entries == Reduced(route, localDay, |route|)
    ensures entries == Entries(route, Keys(route, localDay), DateGroups(Keys(route, localDay), |route|))
  {
    entries := [];
    var index := 0;
    while index < |route|
      invariant 0 <= index <= |route|
      invariant entries == Reduced(route, localDay, index)
    {
      var item := route[index];
      var dateKey := DateKey(item.timestamp, localDay);
      var found := FindEntry(entries, dateKey, 0);
      if found.Some? {
        var g := found.value;
        entries := entries[g := (dateKey, entries[g].1 + [TimelineItem(item, index)])];
      } else {
        entries := entries + [(dateKey, [TimelineItem(item, index)])];
      }
      index := index + 1;
    }
    ReducedIsGrouped(route, localDay, Keys(route, localDay), |route|);
    assert ReducesToGroups(route, localDay, Keys(route, localDay), |route|);
  }

  lemma JoinEntries(route: seq<Waypoint>, keys: seq<string>, groups: seq<seq<nat>>, g: nat, i: nat)
    requires |keys| == |route| && i < |route| && WellFormed(groups, |route|) && g < |groups|
    requires keys[groups[g][0]] == keys[i]
    ensures var e := Entries(route, keys, groups);
      Entries(route, keys, Join(groups, g, i)) == e[g := (keys[i], e[g].1 + [TimelineItem(route[i], i)])]
  {
    var e := Entries(route, keys, groups);
    var r := Join(groups, g, i);
    assert WellFormed(r, |route|);
    var lhs := Entries(route, keys, r);
    var rhs := e[g := (keys[i], e[g].1 + [TimelineItem(route[i], i)])];
    forall h | 0 <= h < |lhs| ensures lhs[h] == rhs[h] {
      if h == g {
        assert lhs[h].1 == rhs[h].1;
      }
    }
  }

  lemma FoundEntries(route: seq<Waypoint>, keys: seq<string>, groups: seq<seq<nat>>, i: nat)
    requires |keys| == |route| && i < |route| && WellFormed(groups, |route|)
    ensures Entries(route, keys, Found(groups, i)) ==
      Entries(route, keys, groups) + [(keys[i], [TimelineItem(route[i], i)])]
  {
    var r := Found(groups, i);
    assert WellFormed(r, |route|);
    var lhs := Entries(route, keys, r);
    var rhs := Entries(route, keys, groups) + [(keys[i], [TimelineItem(route[i], i)])];
    forall h | 0 <= h < |lhs| ensures lhs[h] == rhs[h] {
      if h == |groups| {
        assert lhs[h].1 == rhs[h].1;
      }
    }
  }

  /** A timeline item's status: the current point, one already passed, or one ahead. */
  datatype Status = Active | Past | Ahead

  function StatusOf(item: TimelineItem, currentRouteIndex: nat): (s: Status)
    ensures s == Active <==> item.originalIndex == currentRouteIndex
    ensures s == Past <==> item.originalIndex < currentRouteIndex
  {
    if item.originalIndex == currentRouteIndex then Active
    else if item.originalIndex < currentRouteIndex then Past
    else Ahead
  }

  /** The timeline's entries for a route. */
  function Timeline(route: seq<Waypoint>, localDay: int -> string): (r: seq<DateEntry>)
    ensures forall g, p :: 0 <= g < |r| && 0 <= p < |r[g].1| ==>
      r[g].1[p].originalIndex < |route| && r[g].1[p].point == route[r[g].1[p].originalIndex] &&
      DateKey(r[g].1[p].point.timestamp, localDay) == r[g].0
    ensures forall g1, g2 :: 0 <= g1 < g2 < |r| ==> r[g1].0 != r[g2].0
  {
    var keys := Keys(route, localDay);
    DateGroupsSpec(keys, |route|);
    Entries(route, keys, DateGroups(keys, |route|))
  }

  /** While the current index is on the route, exactly one item of the timeline is active. */
  lemma ExactlyOneActive(route: seq<Waypoint>, localDay: int -> string, current: nat)
    requires current < |route|
    ensures var e := Timeline(route, localDay);
      exists g, p :: 0 <= g < |e| && 0 <= p < |e[g].1| && StatusOf(e[g].1[p], current) == Active
    ensures var e := Timeline(route, localDay);
      forall g1, p1, g2, p2 ::
         (0 <= g1 < |e| && 0 <= p1 < |e[g1].1| && StatusOf(e[g1].1[p1], current) == Active &&
          0 <= g2 < |e| && 0 <= p2 < |e[g2].1| && StatusOf(e[g2].1[p2], current) == Active) ==>
         g1 == g2 && p1 == p2
  {
    var keys := Keys(route, localDay);
    var groups := DateGroups(keys, |route|);
    var e := Timeline(route, localDay);
    assert e == Entries(route, keys, groups);
    DateGroupsUnique(keys, groups, |route|, current);
    var g, p :| 0 <= g < |groups| && 0 <= p < |groups[g]| && groups[g][p] == current;
    EntryItem(route, keys, groups, g, p);
    assert StatusOf(e[g].1[p], current) == Active;
    forall g1, p1, g2, p2 |
      0 <= g1 < |e| && 0 <= p1 < |e[g1].1| && StatusOf(e[g1].1[p1], current) == Active &&
      0 <= g2 < |e| && 0 <= p2 < |e[g2].1| && StatusOf(e[g2].1[p2], current) == Active
      ensures g1 == g2 && p1 == p2
    {
      EntryItem(route, keys, groups, g1, p1);
      EntryItem(route, keys, groups, g2, p2);
    }
  }

  /** Route point `j` lies in exactly one date group, at exactly one position. */
  lemma DateGroupsUnique(keys: seq<string>, groups: seq<seq<nat>>, k: nat, j: nat)
    requires j < k <= |keys| && groups == DateGroups(keys, k)
    ensures exists g, p :: 0 <= g < |groups| && 0 <= p < |groups[g]| && groups[g][p] == j
    ensures forall g1, p1, g2, p2 ::
      (0 <= g1 < |groups| && 0 <= p1 < |groups[g1]| && groups[g1][p1] == j &&
       0 <= g2 < |groups| && 0 <= p2 < |groups[g2]| && groups[g2][p2] == j) ==> g1 == g2 && p1 == p2
  {
    DateGroupsPartition(keys, k);
    PartitionUnique(groups, k, j);
  }

  lemma DateGroupsPartition(keys: seq<string>, k: nat)
    requires k <= |keys|
    ensures Partition(DateGroups(keys, k), k)
  {
    DateGroupsSpec(keys, k);
  }

  /** Entry `g` holds one item per member of group `g`, carrying that member's route index. */
  lemma EntryItem(route: seq<Waypoint>, keys: seq<string>, groups: seq<seq<nat>>, g: nat, p: nat)
    requires |keys| == |route| && WellFormed(groups, |route|) && g < |groups|
    ensures var e := Entries(route, keys, groups);
      |e[g].1| == |groups[g]| &&
      (p < |groups[g]| ==> e[g].1[p] == TimelineItem(route[groups[g][p]], groups[g][p]))
  {
  }

  // ---------------------------------------------------------------------------
  // Address loading
  // ---------------------------------------------------------------------------

  /**
   * The per-timeline address state: keys already requested (`loadedKeysRef`),
   * the loading flags and the addresses found, and, for the model, the log of
   * lookups made.
   */
  class AddressLoader {
    var loadedKeys: set<string>
    var loading: map<string, bool>
    var addresses: map<string, string>
    var requested: seq<string>

    /** Each key requested at most once, and every requested key marked loaded. */
    ghost predicate Valid()
      reads this
    {
      Logged(requested, loadedKeys)
    }

    constructor ()
      ensures Valid() && loadedKeys == {} && loading == map[] && addresses == map[] && requested == []
    {
      loadedKeys, loading, addresses, requested := {}, map[], map[], [];
    }

    /**
     * One run of `loadAddresses` over the route's position keys. A key is
     * skipped when already loaded, cached, or flagged as loading when the run
     * began; otherwise it is marked loaded, then looked up, and the result
     * (or the placeholder when there is none) is stored. The keys requested
     * are exactly `NewKeys`, in order, and nothing else changes.
     */
    method LoadAddresses(keys: seq<string>, cached: set<string>, loadingAtStart: map<string, bool>,
                         lookup: string -> Option<string>)
      requires Valid()
      modifies this
      ensures Valid()
      ensures var added := NewKeys(keys, old(loadedKeys), cached, loadingAtStart);
        requested == old(requested) + added &&
        loadedKeys == old(loadedKeys) + (set k | k in added) &&
        addresses == old(addresses) + Fetched(added, lookup) &&
        loading == old(loading) + Settled(added)
      ensures forall k :: k in keys ==> Skipped(k, loadedKeys, cached, loadingAtStart)
    {
      ghost var requested0, loaded0, addresses0, loading0 := requested, loadedKeys, addresses, loading;
      ghost var added: seq<string> := [];
      var i := 0;
      assert addresses0 + Fetched([], lookup) == addresses0 && loading0 + Settled([]) == loading0;
      while i < |keys|
        invariant 0 <= i <= |keys|
        invariant added == NewKeysUpTo(keys, i, loaded0, cached, loadingAtStart)
        invariant requested == requested0 + added && loadedKeys == loaded0 + (set k | k in added)
        invariant addresses == addresses0 + Fetched(added, lookup) && loading == loading0 + Settled(added)
      {
        var cacheKey := keys[i];
        Advance(keys, i, loaded0, cached, loadingAtStart, lookup, requested0, addresses0, loading0);
        Visit(cacheKey, cached, loadingAtStart, lookup);
        added := NewKeysUpTo(keys, i + 1, loaded0, cached, loadingAtStart);
        i := i + 1;
      }
      RunComplete(keys, loaded0, cached, loadingAtStart, added);
      LoggedAppend(requested0, loaded0, added);
    }

    /** The work of the loop for one key: skip it, or request it. */
    method Visit(cacheKey: string, cached: set<string>, loadingAtStart: map<string, bool>,
                 lookup: string -> Option<string>)
      modifies this
      ensures Skipped(cacheKey, old(loadedKeys), cached, loadingAtStart) ==>
        requested == old(requested) && loadedKeys == old(loadedKeys) &&
        addresses == old(addresses) && loading == old(loading)
      ensures !Skipped(cacheKey, old(loadedKeys), cached, loadingAtStart) ==>
        requested == old(requested) + [cacheKey] && loadedKeys == old(loadedKeys) + {cacheKey} &&
        addresses == old(addresses)[cacheKey := Stored(lookup(cacheKey))] &&
        loading == old(loading)[cacheKey := false]
    {
      if cacheKey in loadedKeys || cacheKey in cached {
        return;
      }
      if cacheKey in loadingAtStart && loadingAtStart[cacheKey] {
        return;
      }
      Request(cacheKey, lookup);
    }

    /** The request for one key not yet loaded: mark it loaded and loading, look it up, store the result. */
    method Request(cacheKey: string, lookup: string -> Option<string>)
      requires cacheKey !in loadedKeys
      modifies this
      ensures requested == old(requested) + [cacheKey] && loadedKeys == old(loadedKeys) + {cacheKey}
      ensures addresses == old(addresses)[cacheKey := Stored(lookup(cacheKey))]
      ensures loading == old(loading)[cacheKey := false]
    {
      loadedKeys := loadedKeys + {cacheKey};
      loading := loading[cacheKey := true];
      requested := requested + [cacheKey];
      var address := lookup(cacheKey);
      if address.Some? && address.value != "" {
        addresses := addresses[cacheKey := address.value];
      } else {
        addresses := addresses[cacheKey := NoAddress];
      }
      loading := loading[cacheKey := false];
    }
  }

  /** Each key requested at most once, and every requested key marked loaded. */
  ghost predicate Logged(requested: seq<string>, loaded: set<string>)
  {
    (forall i, j :: 0 <= i < j < |requested| ==> requested[i] != requested[j]) &&
    (forall i :: 0 <= i < |requested| ==> requested[i] in loaded)
  }

  /** Appending distinct keys that were not loaded, and marking them loaded, keeps the log consistent. */
  lemma LoggedAppend(requested: seq<string>, loaded: set<string>, added: seq<string>)
    requires Logged(requested, loaded)
    requires forall i, j :: 0 <= i < j < |added| ==> added[i] != added[j]
    requires forall k :: k in added ==> k !in loaded
    ensures Logged(requested + added, loaded + (set k | k in added))
  {
    var s := requested + added;
    forall i, j | 0 <= i < j < |s| ensures s[i] != s[j] {
      if j >= |requested| && i < |requested| {
        assert s[j] == added[j - |requested|];
      }
    }
  }

  /** Whether a run skips `key`: it was loaded, is cached, or was loading when the run began. */
  predicate Skipped(key: string, loaded: set<string>, cached: set<string>, loadingAtStart: map<string, bool>)
  {
    key in loaded || key in cached || (key in loadingAtStart && loadingAtStart[key])
  }

  /**
   * The keys a run requests, in route order: the first occurrence of each key
   * that is not skipped.
   */
  function NewKeys(keys: seq<string>, loaded: set<string>, cached: set<string>,
                   loadingAtStart: map<string, bool>): (r: seq<string>)
    ensures forall k :: k in r <==> k in keys && !Skipped(k, loaded, cached, loadingAtStart)
    ensures forall i, j :: 0 <= i < j < |r| ==> r[i] != r[j]
    ensures |r| <= |keys|
  {
    assert keys[..|keys|] == keys;
    NewKeysUpToSpec(keys, |keys|, loaded, cached, loadingAtStart);
    NewKeysUpTo(keys, |keys|, loaded, cached, loadingAtStart)
  }

  /** The keys requested among the first `n` keys of the route. */
  function NewKeysUpTo(keys: seq<string>, n: nat, loaded: set<string>, cached: set<string>,
                       loadingAtStart: map<string, bool>): seq<string>
    requires n <= |keys|
  {
    if n == 0 then []
    else
      var k := keys[n - 1];
      var before := NewKeysUpTo(keys, n - 1, loaded, cached, loadingAtStart);
      if Skipped(k, loaded, cached, loadingAtStart) || k in before then before else before + [k]
  }

  lemma {:induction false} NewKeysUpToSpec(keys: seq<string>, n: nat, loaded: set<string>, cached: set<string>,
                                           loadingAtStart: map<string, bool>)
    requires n <= |keys|
    ensures var r := NewKeysUpTo(keys, n, loaded, cached, loadingAtStart);
      (forall k :: k in r <==> k in keys[..n] && !Skipped(k, loaded, cached, loadingAtStart)) &&
      (forall i, j :: 0 <= i < j < |r| ==> r[i] != r[j]) &&
      |r| <= n
  {
    if n > 0 {
      assert keys[..n] == keys[..n - 1] + [keys[n - 1]];
      NewKeysUpToSpec(keys, n - 1, loaded, cached, loadingAtStart);
    }
  }

  /** At the end of the route, the loop's keys are `NewKeys`, and every key of the route is skipped by a later run. */
  lemma RunComplete(keys: seq<string>, loaded: set<string>, cached: set<string>,
                    loadingAtStart: map<string, bool>, added: seq<string>)
    requires added == NewKeysUpTo(keys, |keys|, loaded, cached, loadingAtStart)
    ensures added == NewKeys(keys, loaded, cached, loadingAtStart)
    ensures forall i, j :: 0 <= i < j < |added| ==> added[i] != added[j]
    ensures forall k :: k in added ==> k !in loaded
    ensures forall k :: k in keys ==> Skipped(k, loaded + (set k | k in added), cached, loadingAtStart)
  {
  }

  /** The addresses a run stores for the keys `ks`. */
  function Fetched(ks: seq<string>, lookup: string -> Option<string>): map<string, string>
  {
    map k | k in ks :: Stored(lookup(k))
  }

  /** The loading flags a run leaves for the keys `ks`: all cleared. */
  function Settled(ks: seq<string>): map<string, bool>
  {
    map k | k in ks :: false
  }

  /**
   * One key of the route: skipped against the keys loaded so far, it leaves the
   * run's state as it was; otherwise each part of the state grows by that key.
   */
  lemma Advance(keys: seq<string>, i: nat, loaded: set<string>, cached: set<string>,
                loadingAtStart: map<string, bool>, lookup: string -> Option<string>,
                requested: seq<string>, addresses: map<string, string>, loading: map<string, bool>)
    requires i < |keys|
    ensures var added, next, c := NewKeysUpTo(keys, i, loaded, cached, loadingAtStart),
                                  NewKeysUpTo(keys, i + 1, loaded, cached, loadingAtStart), keys[i];
      if Skipped(c, loaded + (set k | k in added), cached, loadingAtStart) then next == added
      else
        requested + added + [c] == requested + next &&
        loaded + (set k | k in added) + {c} == loaded + (set k | k in next) &&
        (addresses + Fetched(added, lookup))[c := Stored(lookup(c))] == addresses + Fetched(next, lookup) &&
        (loading + Settled(added))[c := false] == loading + Settled(next)
  {
    var added := NewKeysUpTo(keys, i, loaded, cached, loadingAtStart);
    var c := keys[i];
    if !Skipped(c, loaded + (set k | k in added), cached, loadingAtStart) {
      assert requested + added + [c] == requested + (added + [c]);
      AddedKeysStep(loaded, added, c);
      FetchedStep(addresses, added, c, lookup);
      SettledStep(loading, added, c);
    }
  }

  /** Requesting key `c` extends each part of the state by that key. */
  lemma AddedKeysStep(loaded: set<string>, added: seq<string>, c: string)
    ensures loaded + (set k | k in added) + {c} == loaded + (set k | k in added + [c])
  {
    assert forall k :: k in added + [c] <==> k in added || k == c;
  }

  lemma FetchedStep(addresses: map<string, string>, added: seq<string>, c: string,
                    lookup: string -> Option<string>)
    ensures (addresses + Fetched(added, lookup))[c := Stored(lookup(c))] == addresses + Fetched(added + [c], lookup)
  {
    assert forall k :: k in added + [c] <==> k in added || k == c;
  }

  lemma SettledStep(loading: map<string, bool>, added: seq<string>, c: string)
    ensures (loading + Settled(added))[c := false] == loading + Settled(added + [c])
  {
    assert forall k :: k in added + [c] <==> k in added || k == c;
  }

  /** The address stored for a lookup: its line, or the placeholder when it failed or is empty. */
  function Stored(address: Option<string>): (r: string)
    ensures r != ""
    ensures address.Some? && address.value != "" ==> r == address.value
    ensures address.None? || address.value == "" ==> r == NoAddress
  {
    if address.Some? && address.value != "" then address.value else NoAddress
  }

  /** Running the loader twice over the same route requests nothing the second time. */
  method SecondRunRequestsNothing(keys: seq<string>, cached: set<string>, lookup: string -> Option<string>)
    returns (l: AddressLoader, first: seq<string>)
    ensures l.Valid() && l.requested == first && |first| <= |keys|
    ensures forall k :: k in first ==> k in keys && k !in cached
  {
    l := new AddressLoader();
    l.LoadAddresses(keys, cached, map[], lookup);
    first := l.requested;
    ghost var loaded := l.loadedKeys;
    l.LoadAddresses(keys, cached, map[], lookup);
    NothingNew(keys, |keys|, loaded, cached, map[]);
  }

  /** When every key of the route is skipped, a run over any prefix of it adds none. */
  lemma {:induction false} NothingNew(keys: seq<string>, n: nat, loaded: set<string>, cached: set<string>,
                                      loadingAtStart: map<string, bool>)
    requires n <= |keys|
    requires forall k :: k in keys ==> Skipped(k, loaded, cached, loadingAtStart)
    ensures NewKeysUpTo(keys, n, loaded, cached, loadingAtStart) == []
    decreases n
  {
    if n > 0 {
      NothingNew(keys, n - 1, loaded, cached, loadingAtStart);
      assert keys[n - 1] in keys;
    }
  }
}
