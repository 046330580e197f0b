/** Where blocks go on a day's grid
    (apps/apple/Sunrise/Calendar/BlockLayout.swift:45-137). Times are instants in
    milliseconds, resolved already. */
module BlockLayout {
  import opened Wrappers
  import O = SortOrder

  datatype Block = Block(id: string, start: int, end: int)

  datatype Placed = Placed(block: Block, lane: nat, laneCount: nat)

  /** Strictly before in the order blocks are laid out: by start, then by id. */
  predicate Precedes(a: Block, b: Block) {
    a.start < b.start || (a.start == b.start && O.Less(a.id, b.id))
  }

  /** On the half-open window, and cut to it. */
  function Clamped(b: Block, from: int, to: int): Option<Block> {
    if b.end > from && b.start < to then Some(Block(b.id, Max(b.start, from), Min(b.end, to))) else None
  }

  function OnTheGrid(rows: seq<Block>, from: int, to: int): multiset<Block> {
    if rows == [] then multiset{}
    else (match Clamped(rows[0], from, to)
          case Some(b) => multiset{b}
          case None => multiset{}) + OnTheGrid(rows[1..], from, to)
  }

  ghost predicate InStartOrder(items: seq<Block>) {
    forall i, j | 0 <= i < j < |items| :: items[i].start <= items[j].start
  }

  /** `sorted`, one insertion at a time: nothing later precedes anything earlier. */
  ghost predicate Ordered(items: seq<Block>) {
    forall i, j | 0 <= i < j < |items| :: !Precedes(items[j], items[i])
  }

  lemma OrderedByStart(items: seq<Block>)
    requires Ordered(items)
    ensures InStartOrder(items)
  {}

  lemma {:induction false} NotLessIsTransitive(a: string, b: string, c: string)
    requires !O.Less(a, b) && !O.Less(b, c)
    ensures !O.Less(a, c)
  {
    if c != [] && a != [] && b != [] && a[0] == b[0] == c[0] {
      NotLessIsTransitive(a[1..], b[1..], c[1..]);
    }
  }

  lemma PrecedesIsTransitive(a: Block, b: Block, c: Block)
    requires !Precedes(a, b) && !Precedes(b, c)
    ensures !Precedes(a, c)
  {
    if !O.Less(a.id, b.id) && !O.Less(b.id, c.id) {
      NotLessIsTransitive(a.id, b.id, c.id);
    }
  }

  method Insert(items: seq<Block>, b: Block) returns (out: seq<Block>)
    requires Ordered(items)
    ensures Ordered(out) && multiset(out) == multiset(items) + multiset{b}
  {
    var at := 0;
    while at < |items| && !Precedes(b, items[at])
      invariant at <= |items| && forall i | 0 <= i < at :: !Precedes(b, items[i])
    {
      at := at + 1;
    }
    StaysOrdered(items, b, at);
    assert items == items[..at] + items[at..];
    out := items[..at] + [b] + items[at..];
  }

  lemma StaysOrdered(items: seq<Block>, b: Block, at: nat)
    requires Ordered(items) && at <= |items| && (forall i | 0 <= i < at :: !Precedes(b, items[i]))
    requires at < |items| ==> Precedes(b, items[at])
    ensures Ordered(items[..at] + [b] + items[at..])
  {
    forall i | at <= i < |items|
      ensures !Precedes(items[i], b)
    {
      NotBoth(b, items[at]);
      if i > at {
        PrecedesIsTransitive(items[i], items[at], b);
      }
    }
    var out := items[..at] + [b] + items[at..];
    forall i | 0 <= i < |out|
      ensures out[i] == if i < at then items[i] else if i == at then b else items[i - 1]
    {}
  }

  lemma NotBoth(a: Block, b: Block)
    ensures !(Precedes(a, b) && Precedes(b, a))
  {
    if O.Less(a.id, b.id) {
      O.SmallerSortsFirstOnly(a.id, b.id);
    }
  }

  method Resolve(rows: seq<Block>, from: int, to: int) returns (items: seq<Block>)
    ensures Ordered(items) && multiset(items) == OnTheGrid(rows, from, to)
  {
    items := [];
    for i := 0 to |rows|
      invariant Ordered(items)
      invariant multiset(items) + OnTheGrid(rows[i..], from, to) == OnTheGrid(rows, from, to)
    {
      assert rows[i..][0] == rows[i] && rows[i..][1..] == rows[i + 1..];
      match Clamped(rows[i], from, to)
      case Some(b) => items := Insert(items, b);
      case None =>
    }
  }

  // ---- Clusters ----

  predicate Overlap(a: Block, b: Block) {
    a.start < b.end && b.start < a.end
  }

  /** Everything before `m` has ended when `m` starts. */
  ghost predicate Gap(items: seq<Block>, m: nat)
    requires m < |items|
  {
    forall k | 0 <= k < m :: items[k].end <= items[m].start
  }

  /** `i` and `j` with no gap between them. */
  ghost predicate Together(items: seq<Block>, i: nat, j: nat) {
    i <= j < |items| && forall m | i < m <= j :: !Gap(items, m)
  }

  /** The items from `start` to `end`: one cluster, cut off from everything before it. */
  ghost predicate Run(items: seq<Block>, start: nat, end: nat) {
    start < end <= |items| && Gap(items, start) && Together(items, start, end - 1)
  }

  /** The clusters are the runs of the items up to `end`, in order, with nothing left out. */
  ghost predicate RunsOf(clusters: seq<seq<Block>>, items: seq<Block>, end: nat)
    requires end <= |items|
    decreases |clusters|
  {
    if clusters == [] then end == 0
    else
      var last := clusters[|clusters| - 1];
      && |last| <= end && last == items[end - |last|..end] && Run(items, end - |last|, end)
      && RunsOf(clusters[..|clusters| - 1], items, end - |last|)
  }

  /** `peak` is where the latest of the items from `start` to `end` ends. */
  ghost predicate Peak(items: seq<Block>, start: nat, end: nat, peak: int)
    requires end <= |items|
  {
    && (forall k | start <= k < end :: items[k].end <= peak)
    && (exists k :: start <= k < end && items[k].end == peak)
  }

  lemma RunGrows(items: seq<Block>, start: nat, end: nat, peak: int)
    requires end < |items| && Run(items, start, end) && Peak(items, start, end, peak) && items[end].start < peak
    ensures Run(items, start, end + 1) && Peak(items, start, end + 1, Max(peak, items[end].end))
  {
    var k :| start <= k < end && items[k].end == peak;
    assert !Gap(items, end);
    assert items[if items[end].end > peak then end else k].end == Max(peak, items[end].end);
  }

  lemma RunStarts(items: seq<Block>, start: nat, end: nat, peak: int)
    requires end < |items| && InStartOrder(items)
    requires end > 0 ==> Run(items, start, end) && Peak(items, start, end, peak) && items[end].start >= peak
    ensures Run(items, end, end + 1) && Peak(items, end, end + 1, items[end].end)
  {
    forall k | 0 <= k < end
      ensures items[k].end <= items[end].start
    {
      if k < start {
        assert Gap(items, start) && items[start].start <= items[end].start;
      }
    }
  }

  lemma OneMoreRun(clusters: seq<seq<Block>>, items: seq<Block>, start: nat, end: nat)
    requires start <= end <= |items| && RunsOf(clusters, items, start) && Run(items, start, end)
    ensures RunsOf(clusters + [items[start..end]], items, end)
  {
    var all := clusters + [items[start..end]];
    assert all[..|all| - 1] == clusters;
  }

  method Clusters(items: seq<Block>) returns (out: seq<seq<Block>>)
    requires InStartOrder(items)
    ensures RunsOf(out, items, |items|)
  {
    out := [];
    var current: seq<Block> := [];
    var clusterEnd := 0;
    ghost var start := 0;
    for i := 0 to |items|
      invariant start <= i && current == items[start..i] && (start == i ==> i == 0)
      invariant i > 0 ==> Run(items, start, i) && Peak(items, start, i, clusterEnd)
      invariant RunsOf(out, items, start)
    {
      var item := items[i];
      if current == [] {
        RunStarts(items, start, i, clusterEnd);
        current, clusterEnd := [item], item.end;
      } else if item.start < clusterEnd {
        RunGrows(items, start, i, clusterEnd);
        current, clusterEnd := current + [item], Max(clusterEnd, item.end);
      } else {
        OneMoreRun(out, items, start, i);
        RunStarts(items, start, i, clusterEnd);
        out := out + [current];
        current, clusterEnd, start := [item], item.end, i;
      }
    }
    if current != [] {
      OneMoreRun(out, items, start, |items|);
      out := out + [current];
    }
  }

  // ---- Lanes ----

  /** Lane `l` is still occupied when item `i` starts. */
  ghost predicate Occupied(items: seq<Block>, lanes: seq<nat>, i: nat, l: nat)
    requires i <= |lanes| <= |items| && i < |items|
  {
    exists k :: 0 <= k < i && lanes[k] == l && items[k].end > items[i].start
  }

  /** Lanes for the first items: below the count, disjoint, and each the first that was free. */
  ghost predicate Packed(items: seq<Block>, lanes: seq<nat>, columns: nat) {
    && |lanes| <= |items|
    && (forall i | 0 <= i < |lanes| :: lanes[i] < columns)
    && (forall i, j | 0 <= i < j < |lanes| && lanes[i] == lanes[j] :: items[i].end <= items[j].start)
    && (forall i, l: nat | 0 <= i < |lanes| && l < lanes[i] :: Occupied(items, lanes, i, l))
  }

  /** `columns` of the items are all under way at one instant. */
  ghost predicate Crowded(items: seq<Block>, columns: nat) {
    exists t: int, s: set<nat> :: |s| == columns && AliveAt(items, t, s)
  }

  ghost predicate AliveAt(items: seq<Block>, t: int, s: set<nat>) {
    forall k | k in s :: k < |items| && items[k].start <= t < items[k].end
  }

  ghost predicate EveryBlockLasts(items: seq<Block>) {
    forall k | 0 <= k < |items| :: items[k].start < items[k].end
  }

  method FirstFree(columnEnds: seq<int>, start: int) returns (free: nat)
    ensures free <= |columnEnds| && (forall l | 0 <= l < free :: columnEnds[l] > start)
    ensures free < |columnEnds| ==> columnEnds[free] <= start
  {
    free := 0;
    while free < |columnEnds| && columnEnds[free] > start
      invariant free <= |columnEnds| && forall l | 0 <= l < free :: columnEnds[l] > start
    {
      free := free + 1;
    }
  }

  /** `last[l]` is the last occupant of column `l` so far. */
  ghost predicate Occupants(items: seq<Block>, lanes: seq<nat>, columnEnds: seq<int>, last: seq<nat>) {
    && |last| == |columnEnds| && |lanes| <= |items|
    && (forall l | 0 <= l < |last| :: last[l] < |lanes| && lanes[last[l]] == l && items[last[l]].end == columnEnds[l])
    && (forall i | 0 <= i < |lanes| :: lanes[i] < |last|)
    && (forall i | 0 <= i < |lanes| && i != last[lanes[i]] :: items[i].end <= items[last[lanes[i]]].start)
  }

  method Pack(items: seq<Block>) returns (lanes: seq<nat>, columns: nat)
    requires InStartOrder(items)
    ensures |lanes| == |items| && Packed(items, lanes, columns)
    ensures EveryBlockLasts(items) ==> Crowded(items, columns)
  {
    var columnEnds: seq<int> := [];
    lanes := [];
    ghost var last: seq<nat> := [];
    assert AliveAt(items, 0, {});
    for i := 0 to |items|
      invariant |lanes| == i && Occupants(items, lanes, columnEnds, last)
      invariant Packed(items, lanes, |columnEnds|)
      invariant EveryBlockLasts(items) ==> Crowded(items, |columnEnds|)
    {
      var free := FirstFree(columnEnds, items[i].start);
      LaneFits(items, lanes, columnEnds, last, free);
      NextOccupant(items, lanes, columnEnds, last, free);
      if free < |columnEnds| {
        columnEnds, last := columnEnds[free := items[i].end], last[free := i];
      } else {
        if EveryBlockLasts(items) {
          Crowds(items, lanes, columnEnds, last);
        }
        columnEnds, last := columnEnds + [items[i].end], last + [i];
      }
      lanes := lanes + [free];
    }
    columns := |columnEnds|;
  }

  lemma LaneFits(items: seq<Block>, lanes: seq<nat>, columnEnds: seq<int>, last: seq<nat>, free: nat)
    requires InStartOrder(items) && |lanes| < |items| && Occupants(items, lanes, columnEnds, last)
    requires Packed(items, lanes, |columnEnds|)
    requires free <= |columnEnds| && (forall l | 0 <= l < free :: columnEnds[l] > items[|lanes|].start)
    requires free < |columnEnds| ==> columnEnds[free] <= items[|lanes|].start
    ensures Packed(items, lanes + [free], Max(|columnEnds|, free + 1))
  {
    var i, lanes' := |lanes|, lanes + [free];
    forall k | 0 <= k < i && lanes[k] == free
      ensures items[k].end <= items[i].start
    {
      assert items[last[free]].start <= items[i].start;
    }
    forall j, l: nat | 0 <= j < |lanes'| && l < lanes'[j]
      ensures Occupied(items, lanes', j, l)
    {
      if j == i {
        assert lanes'[last[l]] == l && items[last[l]].end > items[i].start;
      } else {
        StaysOccupied(items, lanes, free, j, l);
      }
    }
  }

  lemma StaysOccupied(items: seq<Block>, lanes: seq<nat>, free: nat, i: nat, l: nat)
    requires i < |lanes| < |items| && Occupied(items, lanes, i, l)
    ensures Occupied(items, lanes + [free], i, l)
  {
    var k :| 0 <= k < i && lanes[k] == l && items[k].end > items[i].start;
    assert (lanes + [free])[k] == l;
  }

  lemma NextOccupant(items: seq<Block>, lanes: seq<nat>, columnEnds: seq<int>, last: seq<nat>, free: nat)
    requires InStartOrder(items) && |lanes| < |items| && Occupants(items, lanes, columnEnds, last)
    requires free <= |columnEnds| && (free < |columnEnds| ==> columnEnds[free] <= items[|lanes|].start)
    ensures var i := |lanes|;
            if free < |columnEnds| then Occupants(items, lanes + [free], columnEnds[free := items[i].end], last[free := i])
            else Occupants(items, lanes + [free], columnEnds + [items[i].end], last + [i])
  {
    var i := |lanes|;
    if free < |columnEnds| {
      assert items[last[free]].start <= items[i].start;
      var last', lanes' := last[free := i], lanes + [free];
      forall k | 0 <= k < |lanes'| && k != last'[lanes'[k]]
        ensures items[k].end <= items[last'[lanes'[k]]].start
      {
        if lanes'[k] == free {
          assert k == last[free] || items[k].end <= items[last[free]].start;
        }
      }
    }
  }

  function Entries(s: seq<nat>): (e: set<nat>)
    ensures forall k :: k in e <==> k in s
  {
    if s == [] then {} else Entries(s[..|s| - 1]) + {s[|s| - 1]}
  }

  lemma {:induction false} DistinctEntries(s: seq<nat>)
    requires forall i, j | 0 <= i < j < |s| :: s[i] != s[j]
    ensures |Entries(s)| == |s|
  {
    if s != [] {
      DistinctEntries(s[..|s| - 1]);
    }
  }

  /** When every column is taken, its last occupants and the new block are all under way. */
  lemma Crowds(items: seq<Block>, lanes: seq<nat>, columnEnds: seq<int>, last: seq<nat>)
    requires InStartOrder(items) && |lanes| < |items| && Occupants(items, lanes, columnEnds, last)
    requires forall l | 0 <= l < |columnEnds| :: columnEnds[l] > items[|lanes|].start
    requires EveryBlockLasts(items)
    ensures Crowded(items, |columnEnds| + 1)
  {
    var i, s := |lanes|, Entries(last);
    DistinctEntries(last);
    assert i !in s;
    assert AliveAt(items, items[i].start, s + {i});
    assert |s + {i}| == |columnEnds| + 1;
  }

  // ---- The grid ----

  function Total(clusters: seq<seq<Block>>): nat {
    if clusters == [] then 0 else Total(clusters[..|clusters| - 1]) + |clusters[|clusters| - 1]|
  }

  lemma {:induction false} RunsTotal(clusters: seq<seq<Block>>, items: seq<Block>, end: nat)
    requires end <= |items| && RunsOf(clusters, items, end)
    ensures Total(clusters) == end
    decreases |clusters|
  {
    if clusters != [] {
      RunsTotal(clusters[..|clusters| - 1], items, end - |clusters[|clusters| - 1]|);
    }
  }

  /** The clusters before the `c`th cover the items before it, and it is the run that follows. */
  lemma {:induction false} RunsSoFar(clusters: seq<seq<Block>>, items: seq<Block>, end: nat, c: nat)
    requires end <= |items| && RunsOf(clusters, items, end) && c < |clusters|
    ensures var start := Total(clusters[..c]);
            && Total(clusters[..c + 1]) == start + |clusters[c]| <= end
            && clusters[c] == items[start..start + |clusters[c]|] && Run(items, start, start + |clusters[c]|)
    decreases |clusters|
  {
    var shorter, last := clusters[..|clusters| - 1], clusters[|clusters| - 1];
    if c < |shorter| {
      RunsSoFar(shorter, items, end - |last|, c);
      assert shorter[..c] == clusters[..c] && shorter[c] == clusters[c];
      assert shorter[..c + 1] == clusters[..c + 1];
    } else {
      assert clusters[c] == last;
      RunsTotal(shorter, items, end - |last|);
      assert clusters[..c] == shorter;
      assert clusters[..c + 1] == clusters;
    }
  }

  /** In the same run, whichever comes first. */
  ghost predicate SameRun(items: seq<Block>, i: nat, j: nat) {
    Together(items, i, j) || Together(items, j, i)
  }

  /** `n` blocks of the run `i` is in are under way at one instant. */
  ghost predicate CrowdedAround(items: seq<Block>, i: nat, n: nat) {
    exists t: int, s: set<nat> :: |s| == n && AliveAt(items, t, s) && forall m | m in s :: SameRun(items, i, m)
  }

  /** What `place` promises of the blocks it has placed so far. */
  ghost predicate LaidOut(items: seq<Block>, placed: seq<Placed>) {
    && |placed| <= |items|
    && (forall i | 0 <= i < |placed| :: placed[i].block == items[i] && placed[i].lane < placed[i].laneCount)
    && (forall i, j | 0 <= i < j < |placed| && placed[i].lane == placed[j].lane :: items[i].end <= items[j].start)
    && (forall i, j | 0 <= i <= j < |placed| && Together(items, i, j) :: placed[i].laneCount == placed[j].laneCount)
    && (EveryBlockLasts(items) ==> forall i | 0 <= i < |placed| :: CrowdedAround(items, i, placed[i].laneCount))
  }

  function PlacedRun(cluster: seq<Block>, lanes: seq<nat>, columns: nat, n: nat): seq<Placed>
    requires n <= |cluster| == |lanes|
  {
    seq(n, i requires 0 <= i < n => Placed(cluster[i], lanes[i], columns))
  }

  lemma {:induction false} RunIsLaidOut(items: seq<Block>, placed: seq<Placed>, run: seq<Placed>, lanes: seq<nat>, columns: nat)
    requires InStartOrder(items) && LaidOut(items, placed) && Run(items, |placed|, |placed| + |run|)
    requires var cluster := items[|placed|..|placed| + |run|];
             && |lanes| == |run| && run == PlacedRun(cluster, lanes, columns, |lanes|)
             && Packed(cluster, lanes, columns) && (EveryBlockLasts(cluster) ==> Crowded(cluster, columns))
    ensures LaidOut(items, placed + run)
  {
    var start := |placed|;
    var end, cluster := start + |run|, items[start..start + |run|];
    var all := placed + run;
    forall i | start <= i < end
      ensures all[i] == Placed(items[i], lanes[i - start], columns) && cluster[i - start] == items[i]
    {}
    assert forall i | 0 <= i < start :: all[i] == placed[i];
    RunIsDisjoint(items, placed, run, lanes, columns);
    assert Gap(items, start);
    forall i, j | 0 <= i <= j < end && Together(items, i, j)
      ensures all[i].laneCount == all[j].laneCount
    {
      assert !(i < start <= j);
    }
    if EveryBlockLasts(items) {
      forall i | start <= i < end
        ensures CrowdedAround(items, i, columns)
      {
        ClusterIsCrowded(items, start, end, columns, i);
      }
    }
  }

  lemma {:induction false} RunIsDisjoint(items: seq<Block>, placed: seq<Placed>, run: seq<Placed>, lanes: seq<nat>, columns: nat)
    requires InStartOrder(items) && LaidOut(items, placed) && Run(items, |placed|, |placed| + |run|)
    requires var cluster := items[|placed|..|placed| + |run|];
             |lanes| == |run| && run == PlacedRun(cluster, lanes, columns, |lanes|) && Packed(cluster, lanes, columns)
    ensures var all := placed + run;
            forall i, j | 0 <= i < j < |all| && all[i].lane == all[j].lane :: items[i].end <= items[j].start
  {
    var start, all := |placed|, placed + run;
    var cluster := items[start..start + |run|];
    forall i, j | 0 <= i < j < |all| && all[i].lane == all[j].lane
      ensures items[i].end <= items[j].start
    {
      if i < start <= j {
        assert Gap(items, start) && items[start].start <= items[j].start;
      } else if start <= i {
        assert cluster[i - start] == items[i] && cluster[j - start] == items[j];
        assert lanes[i - start] == lanes[j - start];
      }
    }
  }

  lemma {:induction false} ClusterIsCrowded(items: seq<Block>, start: nat, end: nat, columns: nat, i: nat)
    requires Run(items, start, end) && Crowded(items[start..end], columns) && start <= i < end
    ensures CrowdedAround(items, i, columns)
  {
    var t: int, s: set<nat> :| |s| == columns && AliveAt(items[start..end], t, s);
    var moved := Shifted(s, start);
    ShiftedSize(s, start);
    forall m | m in moved
      ensures m < |items| && items[m].start <= t < items[m].end && SameRun(items, i, m)
    {
      assert items[start..end][m - start] == items[m];
    }
    assert AliveAt(items, t, moved);
  }

  function Shifted(s: set<nat>, offset: nat): (r: set<nat>)
    ensures forall m :: m in r <==> m >= offset && m - offset in s
  {
    set k | k in s :: k + offset
  }

  lemma {:induction false} ShiftedSize(s: set<nat>, offset: nat)
    ensures |Shifted(s, offset)| == |s|
  {
    if s != {} {
      var k :| k in s;
      ShiftedSize(s - {k}, offset);
      assert Shifted(s, offset) == Shifted(s - {k}, offset) + {k + offset};
    }
  }

  method PlaceCluster(cluster: seq<Block>) returns (placed: seq<Placed>, ghost lanes: seq<nat>, ghost columns: nat)
    requires InStartOrder(cluster)
    ensures |lanes| == |cluster| && Packed(cluster, lanes, columns) && (EveryBlockLasts(cluster) ==> Crowded(cluster, columns))
    ensures placed == PlacedRun(cluster, lanes, columns, |lanes|)
  {
    var packed, count := Pack(cluster);
    lanes, columns := packed, count;
    placed := [];
    for i := 0 to |cluster|
      invariant placed == PlacedRun(cluster, packed, count, i)
    {
      placed := placed + [Placed(cluster[i], packed[i], count)];
    }
  }

  /** Place blocks on the grid: what is on it, cut to it, in start order, laid out. */
  method Place(rows: seq<Block>, from: int, to: int) returns (placed: seq<Placed>, items: seq<Block>)
    ensures Ordered(items) && multiset(items) == OnTheGrid(rows, from, to)
    ensures |placed| == |items| && LaidOut(items, placed)
  {
    items := Resolve(rows, from, to);
    OrderedByStart(items);
    var clusters := Clusters(items);
    placed := [];
    AllRuns(clusters, items);
    for c := 0 to |clusters|
      invariant |placed| == Total(clusters[..c]) && LaidOut(items, placed)
    {
      ClusterInOrder(clusters, items, c);
      var run, lanes, columns := PlaceCluster(clusters[c]);
      OneMoreCluster(clusters, items, c, placed, run, lanes, columns);
      placed := placed + run;
    }
  }

  lemma ClusterInOrder(clusters: seq<seq<Block>>, items: seq<Block>, c: nat)
    requires RunsOf(clusters, items, |items|) && InStartOrder(items) && c < |clusters|
    ensures InStartOrder(clusters[c])
  {
    RunsSoFar(clusters, items, |items|, c);
  }

  lemma OneMoreCluster(clusters: seq<seq<Block>>, items: seq<Block>, c: nat, placed: seq<Placed>, run: seq<Placed>,
                       lanes: seq<nat>, columns: nat)
    requires RunsOf(clusters, items, |items|) && InStartOrder(items) && c < |clusters|
    requires |placed| == Total(clusters[..c]) && LaidOut(items, placed)
    requires |lanes| == |clusters[c]| && run == PlacedRun(clusters[c], lanes, columns, |lanes|)
    requires Packed(clusters[c], lanes, columns) && (EveryBlockLasts(clusters[c]) ==> Crowded(clusters[c], columns))
    ensures LaidOut(items, placed + run) && |placed + run| == Total(clusters[..c + 1])
  {
    RunsSoFar(clusters, items, |items|, c);
    RunIsLaidOut(items, placed, run, lanes, columns);
  }

  lemma AllRuns(clusters: seq<seq<Block>>, items: seq<Block>)
    requires RunsOf(clusters, items, |items|)
    ensures Total(clusters[..|clusters|]) == |items|
  {
    assert clusters[..|clusters|] == clusters;
    RunsTotal(clusters, items, |items|);
  }

  // ---- What the grid shows ----

  /** Blocks that overlap are never drawn over one another. */
  lemma OverlappingBlocksDoNotShareALane(items: seq<Block>, placed: seq<Placed>, i: nat, j: nat)
    requires LaidOut(items, placed) && i < j < |placed| && Overlap(items[i], items[j])
    ensures placed[i].lane != placed[j].lane
  {}

  /** A chain of blocks, each overlapping the next. */
  ghost predicate Chain(items: seq<Block>, path: seq<nat>) {
    && path != [] && (forall k | 0 <= k < |path| :: path[k] < |items|)
    && (forall k | 0 < k < |path| :: Overlap(items[path[k - 1]], items[path[k]]))
  }

  ghost predicate Connected(items: seq<Block>, i: nat, j: nat) {
    exists path: seq<nat> :: Chain(items, path) && path[0] == i && path[|path| - 1] == j
  }

  lemma OverlapIsTogether(items: seq<Block>, i: nat, j: nat)
    requires InStartOrder(items) && i < j < |items| && Overlap(items[i], items[j])
    ensures Together(items, i, j)
  {
    forall m | i < m <= j
      ensures !Gap(items, m)
    {
      assert items[i].end > items[m].start;
    }
  }

  lemma SameRunIsTransitive(items: seq<Block>, i: nat, j: nat, k: nat)
    requires SameRun(items, i, j) && SameRun(items, j, k)
    ensures SameRun(items, i, k)
  {
    if i <= k {
      assert forall m | i < m <= k :: !Gap(items, m);
    } else {
      assert forall m | k < m <= i :: !Gap(items, m);
    }
  }

  lemma {:induction false} ChainsStayTogether(items: seq<Block>, path: seq<nat>)
    requires InStartOrder(items) && Chain(items, path)
    ensures SameRun(items, path[0], path[|path| - 1])
    decreases |path|
  {
    var n := |path| - 1;
    if n > 0 {
      var shorter := path[..n];
      ChainsStayTogether(items, shorter);
      var a, b := path[n - 1], path[n];
      if a < b {
        OverlapIsTogether(items, a, b);
      } else if b < a {
        OverlapIsTogether(items, b, a);
      }
      SameRunIsTransitive(items, path[0], a, b);
    }
  }

  /** Back from a block to the one that began its run, overlap by overlap. */
  lemma {:induction false} ChainToTheStart(items: seq<Block>, start: nat, i: nat) returns (path: seq<nat>)
    requires InStartOrder(items) && EveryBlockLasts(items) && Together(items, start, i) && Gap(items, start)
    ensures Chain(items, path) && path[0] == i && path[|path| - 1] == start
    decreases i
  {
    if i == start {
      path := [i];
    } else {
      assert !Gap(items, i);
      var k :| 0 <= k < i && items[k].end > items[i].start;
      assert k >= start;
      var rest := ChainToTheStart(items, start, k);
      path := [i] + rest;
      assert items[i].start < items[i].end;
    }
  }

  lemma {:induction false} ChainBack(items: seq<Block>, path: seq<nat>) returns (back: seq<nat>)
    requires Chain(items, path)
    ensures Chain(items, back) && back[0] == path[|path| - 1] && back[|back| - 1] == path[0]
    decreases |path|
  {
    if |path| == 1 {
      back := path;
    } else {
      var rest := ChainBack(items, path[1..]);
      back := rest + [path[0]];
    }
  }

  /** The run a block is in has a first block, with a gap before it. */
  lemma {:induction false} StartOfRun(items: seq<Block>, i: nat) returns (start: nat)
    requires i < |items|
    ensures Together(items, start, i) && Gap(items, start)
  {
    start := i;
    while !Gap(items, start)
      invariant start <= i && Together(items, start, i)
      decreases start
    {
      assert start > 0;
      start := start - 1;
    }
  }

  /** One width is shared by exactly the blocks that a chain of overlaps connects. */
  lemma {:induction false} ConnectedIffTogether(items: seq<Block>, i: nat, j: nat)
    requires InStartOrder(items) && EveryBlockLasts(items) && i <= j < |items|
    ensures Connected(items, i, j) <==> Together(items, i, j)
  {
    if Connected(items, i, j) {
      var path: seq<nat> :| Chain(items, path) && path[0] == i && path[|path| - 1] == j;
      ChainsStayTogether(items, path);
    }
    if Together(items, i, j) {
      var start := StartOfRun(items, i);
      assert Together(items, start, j);
      var down := ChainToTheStart(items, start, i);
      var up := ChainToTheStart(items, start, j);
      var back := ChainBack(items, up);
      ChainsJoin(items, down, back);
    }
  }

  lemma ChainsJoin(items: seq<Block>, a: seq<nat>, b: seq<nat>)
    requires Chain(items, a) && Chain(items, b) && a[|a| - 1] == b[0]
    ensures Connected(items, a[0], b[|b| - 1])
  {
    var path := a + b[1..];
    forall k | 0 < k < |path|
      ensures Overlap(items[path[k - 1]], items[path[k]])
    {
      if k >= |a| {
        assert path[k] == b[k - |a| + 1] && path[k - 1] == b[k - |a|];
      }
    }
    assert path[|path| - 1] == b[|b| - 1];
  }

  /** The lanes of blocks under way at once are all different, so there are as many of them. */
  lemma {:induction false} LanesOf(items: seq<Block>, placed: seq<Placed>, t: int, s: set<nat>) returns (lanes: set<nat>)
    requires LaidOut(items, placed) && |placed| == |items| && AliveAt(items, t, s)
    ensures |lanes| == |s| && forall l :: l in lanes <==> exists k :: k in s && placed[k].lane == l
  {
    lanes := {};
    if s != {} {
      var k :| k in s;
      var rest := LanesOf(items, placed, t, s - {k});
      lanes := rest + {placed[k].lane};
      forall m | m in s - {k}
        ensures placed[m].lane != placed[k].lane
      {
        AliveTogether(items, placed, t, Min(k, m), Max(k, m));
      }
    }
  }

  lemma AliveTogether(items: seq<Block>, placed: seq<Placed>, t: int, i: nat, j: nat)
    requires LaidOut(items, placed) && i < j < |placed|
    requires items[i].start <= t < items[i].end && items[j].start <= t < items[j].end
    ensures placed[i].lane != placed[j].lane
    ensures InStartOrder(items) ==> placed[i].laneCount == placed[j].laneCount
  {
    OverlappingBlocksDoNotShareALane(items, placed, i, j);
    if InStartOrder(items) {
      OverlapIsTogether(items, i, j);
    }
  }

  lemma {:induction false} BelowCount(s: set<nat>, n: nat)
    requires forall l | l in s :: l < n
    ensures |s| <= n
  {
    if n > 0 {
      BelowCount(s - {n - 1}, n - 1);
    }
  }

  /** The width is as narrow as it can be: some instant of the run needs every
      lane of it, and no instant has more blocks under way than there are lanes. */
  lemma {:induction false} WidthIsTheBusiestInstant(items: seq<Block>, placed: seq<Placed>, i: nat, t: int, s: set<nat>)
    requires InStartOrder(items) && EveryBlockLasts(items) && LaidOut(items, placed) && |placed| == |items|
    requires i < |items|
    ensures CrowdedAround(items, i, placed[i].laneCount)
    ensures AliveAt(items, t, s) && i in s ==> |s| <= placed[i].laneCount
  {
    if AliveAt(items, t, s) && i in s {
      var lanes := LanesOf(items, placed, t, s);
      forall k | k in s
        ensures placed[k].lane < placed[i].laneCount
      {
        if k != i {
          AliveTogether(items, placed, t, Min(k, i), Max(k, i));
        }
      }
      BelowCount(lanes, placed[i].laneCount);
    }
  }

  /** Blocks that last still last once cut to the window they are on. */
  lemma ClampedLasts(b: Block, from: int, to: int)
    requires b.start < b.end && from < to && Clamped(b, from, to).Some?
    ensures var c := Clamped(b, from, to).value; from <= c.start < c.end <= to
  {}
}
