/** The sectors of a cluster chain: runs of contiguous clusters are read and written at once. */
module FatFile {
  import opened Options
  import opened Bytes
  import opened FatTable
  import opened FatChain
  import opened FatDevice

  /** Where the data clusters are. */
  datatype Layout = Layout(firstDataSector: nat, sectorsPerCluster: nat)

  function FirstSectorOfCluster(g: Layout, n: nat): nat
    requires n >= 2
  {
    g.firstDataSector + Span(g, n - 2)
  }

  /** Sectors of `n` clusters. */
  function Span(g: Layout, n: nat): nat { n * g.sectorsPerCluster }

  lemma SpanNext(g: Layout, n: nat)
    ensures Span(g, n + 1) == Span(g, n) + g.sectorsPerCluster
  {
  }

  lemma {:induction false} SpanOrder(g: Layout, m: nat, n: nat)
    requires m <= n
    ensures Span(g, m) <= Span(g, n)
  {
    if m < n {
      SpanOrder(g, m, n - 1);
      SpanNext(g, n - 1);
      hide Span;
    }
  }

  predicate Clusters(cs: seq<nat>) { forall i | 0 <= i < |cs| :: cs[i] >= 2 }

  /** The sectors of the chain, in order, as sectors of the device. */
  function SectorList(g: Layout, cs: seq<nat>): (list: seq<nat>)
    requires Clusters(cs)
    ensures |list| == Span(g, |cs|)
  {
    if cs == [] then []
    else
      var n := |cs| - 1;
      SpanNext(g, n);
      SectorList(g, cs[..n]) + ClusterSectors(g, cs[n])
  }

  function ClusterSectors(g: Layout, c: nat): (list: seq<nat>)
    requires c >= 2
    ensures |list| == g.sectorsPerCluster && forall q | 0 <= q < |list| :: list[q] == FirstSectorOfCluster(g, c) + q
  {
    Numbers(FirstSectorOfCluster(g, c), g.sectorsPerCluster)
  }

  function Numbers(first: nat, n: nat): (list: seq<nat>)
    ensures |list| == n && forall q | 0 <= q < n :: list[q] == first + q
  {
    if n == 0 then [] else Numbers(first, n - 1) + [first + n - 1]
  }

  lemma {:induction false} ClusterInList(g: Layout, cs: seq<nat>, i: nat)
    requires Clusters(cs) && i < |cs|
    ensures Span(g, i) + g.sectorsPerCluster == Span(g, i + 1) <= |SectorList(g, cs)|
    ensures forall k | Span(g, i) <= k < Span(g, i + 1) ::
      SectorList(g, cs)[k] == FirstSectorOfCluster(g, cs[i]) + (k - Span(g, i))
  {
    var n := |cs| - 1;
    SpanNext(g, i);
    SpanNext(g, n);
    hide Span, FirstSectorOfCluster;
    if i < n {
      ClusterInList(g, cs[..n], i);
    }
  }

  /** Cluster 2 is at the first data sector, and each cluster where the one before it ends. */
  lemma ClusterPlaces(g: Layout, n: nat)
    requires n >= 2
    ensures FirstSectorOfCluster(g, 2) == g.firstDataSector
    ensures FirstSectorOfCluster(g, n + 1) == FirstSectorOfCluster(g, n) + g.sectorsPerCluster
    ensures FirstSectorOfCluster(g, n) == g.firstDataSector + (n - 2) * g.sectorsPerCluster
  {
    SpanNext(g, n - 2);
  }

  /** Sector `k` of a chain, in numbers. */
  lemma SectorPlace(g: Layout, cs: seq<nat>, k: nat)
    requires Clusters(cs) && g.sectorsPerCluster > 0 && k < |SectorList(g, cs)|
    ensures k / g.sectorsPerCluster < |cs|
    ensures SectorList(g, cs)[k]
      == g.firstDataSector + (cs[k / g.sectorsPerCluster] - 2) * g.sectorsPerCluster + k % g.sectorsPerCluster
  {
    var i := WhichCluster(g, cs, k);
    ClusterInList(g, cs, i);
    ClusterPlaces(g, cs[i]);
    assert k - Span(g, i) < g.sectorsPerCluster && k == i * g.sectorsPerCluster + (k - Span(g, i));
    Remainder(k, g.sectorsPerCluster, i, k - Span(g, i));
  }

  /**
   * `sector` is sector `k` of a chain: the one that is `k % sectorsPerCluster` sectors into the cluster that is
   * `k / sectorsPerCluster` clusters down the chain, cluster 2 being at the first data sector.
   */
  ghost predicate Stands(g: Layout, cs: seq<nat>, sectors: seq<Sector>, k: nat, sector: Sector) {
    var spc := g.sectorsPerCluster;
    spc > 0 && k / spc < |cs| && var s := g.firstDataSector + (cs[k / spc] - 2) * spc + k % spc;
    0 <= s < |sectors| && sectors[s] == sector
  }

  /** `data` is there from sector `i` of the chain on. */
  ghost predicate AllStand(g: Layout, cs: seq<nat>, sectors: seq<Sector>, i: nat, data: seq<Sector>) {
    forall k: nat | k < |data| :: Stands(g, cs, sectors, i + k, data[k])
  }

  /** A longer chain begins with the sectors of the shorter one. */
  lemma {:induction false} ListGrows(g: Layout, cs: seq<nat>, n: nat)
    requires Clusters(cs) && n <= |cs|
    ensures Span(g, n) <= |SectorList(g, cs)| && SectorList(g, cs)[..Span(g, n)] == SectorList(g, cs[..n])
  {
    if n < |cs| {
      var m := |cs| - 1;
      SpanNext(g, m);
      ListGrows(g, cs[..m], n);
      assert cs[..m][..n] == cs[..n];
    } else {
      assert cs[..n] == cs;
    }
  }

  ghost predicate AllDistinct(list: seq<nat>) { forall j, k | 0 <= j < k < |list| :: list[j] != list[k] }

  /** Distinct clusters have distinct sectors. */
  lemma {:induction false} ListDistinct(g: Layout, cs: seq<nat>)
    requires Clusters(cs) && AllDistinct(cs)
    ensures AllDistinct(SectorList(g, cs))
  {
    if cs != [] {
      var n := |cs| - 1;
      ListDistinct(g, cs[..n]);
      var front, back := SectorList(g, cs[..n]), ClusterSectors(g, cs[n]);
      forall j, k | 0 <= j < |front| && 0 <= k < |back| ensures front[j] != back[k] {
        var i := WhichCluster(g, cs[..n], j);
        ClusterInList(g, cs[..n], i);
        ClustersApart(g, cs[i], cs[n]);
      }
    }
  }

  lemma {:induction false} WhichCluster(g: Layout, cs: seq<nat>, k: nat) returns (i: nat)
    requires Clusters(cs) && k < Span(g, |cs|)
    ensures i < |cs| && Span(g, i) <= k < Span(g, i + 1)
  {
    var n := |cs| - 1;
    SpanNext(g, n);
    if k >= Span(g, n) {
      i := n;
    } else {
      i := WhichCluster(g, cs[..n], k);
    }
  }

  lemma ClustersApart(g: Layout, a: nat, b: nat)
    requires a >= 2 && b >= 2 && a != b
    ensures FirstSectorOfCluster(g, a) + g.sectorsPerCluster <= FirstSectorOfCluster(g, b)
      || FirstSectorOfCluster(g, b) + g.sectorsPerCluster <= FirstSectorOfCluster(g, a)
  {
    SpanNext(g, a - 2);
    SpanNext(g, b - 2);
    if a < b {
      SpanOrder(g, a - 1, b - 2);
    } else {
      SpanOrder(g, b - 1, a - 2);
    }
    hide Span;
  }

  // ----- groups ---------------------------------------------------------------------------------------------

  datatype Group = Group(firstSector: nat, numSectors: nat)

  /** The group is the run of the list from `from` on. */
  ghost predicate IsRun(list: seq<nat>, group: Group, from: nat) {
    && group.numSectors > 0 && from + group.numSectors <= |list|
    && forall k | from <= k < from + group.numSectors :: list[k] == group.firstSector + (k - from)
  }

  /** The groups, one after the other, are the list from `from` to `to`. */
  ghost predicate Covers(list: seq<nat>, groups: seq<Group>, from: nat, to: nat)
    decreases |groups|
  {
    if groups == [] then from == to
    else IsRun(list, groups[0], from) && Covers(list, groups[1..], from + groups[0].numSectors, to)
  }

  lemma {:induction false} CoversMore(list: seq<nat>, groups: seq<Group>, from: nat, to: nat, more: Group)
    requires Covers(list, groups, from, to) && IsRun(list, more, to)
    ensures Covers(list, groups + [more], from, to + more.numSectors)
    decreases |groups|
  {
    if groups == [] {
      assert [more][1..] == [];
    } else {
      CoversMore(list, groups[1..], from + groups[0].numSectors, to, more);
      assert (groups + [more])[1..] == groups[1..] + [more];
    }
  }

  /** A cluster from `offset` on is a run. */
  lemma ClusterIsRun(g: Layout, cs: seq<nat>, i: nat, offset: nat)
    requires Clusters(cs) && i < |cs| && offset < g.sectorsPerCluster
    ensures IsRun(SectorList(g, cs), Group(FirstSectorOfCluster(g, cs[i]) + offset, g.sectorsPerCluster - offset),
                  Span(g, i) + offset)
  {
    ClusterInList(g, cs, i);
    SpanOrder(g, i + 1, |cs|);
    hide Span, FirstSectorOfCluster;
  }

  /** The cluster after a group's last one, if it is the next on the device, makes the group longer. */
  lemma RunGrows(g: Layout, cs: seq<nat>, group: Group, from: nat, i: nat)
    requires Clusters(cs) && 0 < i < |cs| && g.sectorsPerCluster > 0 && cs[i] == cs[i - 1] + 1
    requires IsRun(SectorList(g, cs), group, from) && from + group.numSectors == Span(g, i)
    requires group.firstSector + group.numSectors == FirstSectorOfCluster(g, cs[i - 1]) + g.sectorsPerCluster
    ensures IsRun(SectorList(g, cs), Group(group.firstSector, group.numSectors + g.sectorsPerCluster), from)
    ensures group.firstSector + group.numSectors == FirstSectorOfCluster(g, cs[i])
  {
    hide Span, SectorList;
    SpanNext(g, cs[i - 1] - 2);
    ClusterIsRun(g, cs, i, 0);
    hide FirstSectorOfCluster;
  }

  /** The groups of the clusters from `from` on, of which the last one is still open. */
  ghost predicate GroupsTo(g: Layout, cs: seq<nat>, groups: seq<Group>, open: Group, from: nat, i: nat)
    requires Clusters(cs)
  {
    var list := SectorList(g, cs);
    && 0 < i <= |cs| && open.numSectors <= Span(g, i)
    && Covers(list, groups, from, Span(g, i) - open.numSectors) && IsRun(list, open, Span(g, i) - open.numSectors)
    && open.firstSector + open.numSectors == FirstSectorOfCluster(g, cs[i - 1]) + g.sectorsPerCluster
  }

  lemma FirstGroup(g: Layout, cs: seq<nat>, i: nat, offset: nat)
    requires Clusters(cs) && i < |cs| && offset < g.sectorsPerCluster
    ensures GroupsTo(g, cs, [], Group(FirstSectorOfCluster(g, cs[i]) + offset, g.sectorsPerCluster - offset),
                     Span(g, i) + offset, i + 1)
  {
    SpanNext(g, i);
    hide Span, FirstSectorOfCluster;
    ClusterIsRun(g, cs, i, offset);
  }

  lemma GroupGrows(g: Layout, cs: seq<nat>, groups: seq<Group>, open: Group, from: nat, i: nat)
    requires Clusters(cs) && g.sectorsPerCluster > 0 && i < |cs| && GroupsTo(g, cs, groups, open, from, i)
    requires cs[i] == cs[i - 1] + 1
    ensures GroupsTo(g, cs, groups, Group(open.firstSector, open.numSectors + g.sectorsPerCluster), from, i + 1)
  {
    SpanNext(g, i);
    hide Span, FirstSectorOfCluster;
    RunGrows(g, cs, open, Span(g, i) - open.numSectors, i);
  }

  lemma GroupCloses(g: Layout, cs: seq<nat>, groups: seq<Group>, open: Group, from: nat, i: nat)
    requires Clusters(cs) && g.sectorsPerCluster > 0 && i < |cs| && GroupsTo(g, cs, groups, open, from, i)
    ensures GroupsTo(g, cs, groups + [open], Group(FirstSectorOfCluster(g, cs[i]), g.sectorsPerCluster), from, i + 1)
  {
    SpanNext(g, i);
    hide Span, FirstSectorOfCluster, SectorList;
    CoversMore(SectorList(g, cs), groups, from, Span(g, i) - open.numSectors, open);
    ClusterIsRun(g, cs, i, 0);
  }

  lemma LastGroup(g: Layout, cs: seq<nat>, groups: seq<Group>, open: Group, from: nat, i: nat)
    requires Clusters(cs) && GroupsTo(g, cs, groups, open, from, i)
    ensures Covers(SectorList(g, cs), groups + [open], from, Span(g, i))
  {
    CoversMore(SectorList(g, cs), groups, from, Span(g, i) - open.numSectors, open);
  }

  // ----- reading and writing sectors ----------------------------------------------------------------------------

  /** Every cluster that the volume may give a chain has its sectors on the device. */
  ghost predicate OnDevice(g: Layout, cs: seq<nat>, numSectors: nat) {
    Clusters(cs) && forall i | 0 <= i < |cs| :: FirstSectorOfCluster(g, cs[i]) + g.sectorsPerCluster <= numSectors
  }

  ghost predicate ListOnDevice(list: seq<nat>, numSectors: nat) { forall k | 0 <= k < |list| :: list[k] < numSectors }

  lemma ListFits(g: Layout, cs: seq<nat>, numSectors: nat)
    requires OnDevice(g, cs, numSectors)
    ensures Clusters(cs) && ListOnDevice(SectorList(g, cs), numSectors)
  {
    var list := SectorList(g, cs);
    forall k | 0 <= k < |list| ensures list[k] < numSectors {
      var i := WhichCluster(g, cs, k);
      ClusterInList(g, cs, i);
    }
  }

  /** A chain that grew is still on the device. */
  lemma GrownOnDevice(g: Layout, t: FatType, start: Buffer, fat: Buffer, old': seq<nat>, cs: seq<nat>, count: nat,
                      numSectors: nat)
    requires OnDevice(g, old', numSectors) && GrownFrom(t, start, fat, old', cs, count) && Clusters(cs)
    requires forall c: nat | 2 <= c < count :: OnDevice(g, [c], numSectors)
    ensures OnDevice(g, cs, numSectors)
  {
    forall i | 0 <= i < |cs| ensures FirstSectorOfCluster(g, cs[i]) + g.sectorsPerCluster <= numSectors {
      if i < |old'| {
        assert cs[i] == cs[..|old'|][i] == old'[i];
      } else {
        assert OnDevice(g, [cs[i]], numSectors);
        assert [cs[i]][0] == cs[i];
      }
    }
  }

  /** What the chain holds, sector by sector. */
  function View(sectors: seq<Sector>, list: seq<nat>): (v: seq<Sector>)
    requires ListOnDevice(list, |sectors|)
    ensures |v| == |list| && forall k | 0 <= k < |list| :: v[k] == sectors[list[k]]
  {
    seq(|list|, k requires 0 <= k < |list| => sectors[list[k]])
  }

  lemma RunOnDevice(list: seq<nat>, group: Group, from: nat, numSectors: nat)
    requires IsRun(list, group, from) && ListOnDevice(list, numSectors)
    ensures group.firstSector + group.numSectors <= numSectors
  {
    assert list[from + group.numSectors - 1] == group.firstSector + group.numSectors - 1;
  }

  /** Reading part of a run from the device reads that part of the chain. */
  lemma RunReads(sectors: seq<Sector>, list: seq<nat>, group: Group, from: nat, n: nat)
    requires IsRun(list, group, from) && ListOnDevice(list, |sectors|) && n <= group.numSectors
    ensures group.firstSector + n <= |sectors|
    ensures View(sectors, list)[from..from + n] == sectors[group.firstSector..group.firstSector + n]
  {
    RunOnDevice(list, group, from, |sectors|);
  }

  /** Writing part of a run writes that part of the chain and nothing else of the device. */
  lemma RunWrites(before: seq<Sector>, after: seq<Sector>, list: seq<nat>, group: Group, from: nat, data: seq<Sector>)
    requires IsRun(list, group, from) && ListOnDevice(list, |before|) && |data| <= group.numSectors && AllDistinct(list)
    requires Placed(before, after, group.firstSector, data)
    ensures ListOnDevice(list, |after|) && Placed(View(before, list), View(after, list), from, data)
    ensures OutsideKept(before, after, list)
  {
    forall k | 0 <= k < |list|
      ensures View(after, list)[k] == if from <= k < from + |data| then data[k - from] else View(before, list)[k]
    {
      if group.firstSector <= list[k] < group.firstSector + group.numSectors {
        OnceInRun(list, group, from, k);
      }
    }
    forall s | group.firstSector <= s < group.firstSector + |data| ensures s in list {
      RunHas(list, group, from, s);
    }
  }

  /** A sector of the run is in the chain at its place in the run only. */
  lemma OnceInRun(list: seq<nat>, group: Group, from: nat, k: nat)
    requires IsRun(list, group, from) && AllDistinct(list) && k < |list|
    requires group.firstSector <= list[k] < group.firstSector + group.numSectors
    ensures k == from + (list[k] - group.firstSector)
  {
    var place := from + (list[k] - group.firstSector);
    assert list[place] == list[k];
  }

  lemma RunHas(list: seq<nat>, group: Group, from: nat, s: nat)
    requires IsRun(list, group, from) && group.firstSector <= s < group.firstSector + group.numSectors
    ensures s in list
  {
    assert list[from + (s - group.firstSector)] == s;
  }

  /** Sectors that are not the chain's are as they were. */
  ghost predicate OutsideKept(before: seq<Sector>, after: seq<Sector>, list: seq<nat>) {
    |after| == |before| && forall s | 0 <= s < |before| && s !in list :: after[s] == before[s]
  }

  /**
   * The cluster and the offset of a sector of the chain, and the length the chain needs for `numSectors`
   * from there.
   */
  method Locate(g: Layout, sectorIdx: nat, numSectors: nat)
    returns (clusterIdx: nat, sectorOffset: nat, chainLength: nat)
    requires g.sectorsPerCluster > 0 && numSectors > 0
    ensures sectorOffset < g.sectorsPerCluster && sectorIdx == Span(g, clusterIdx) + sectorOffset
    ensures clusterIdx < chainLength
    ensures Span(g, chainLength - 1) < sectorIdx + numSectors <= Span(g, chainLength)
  {
    var spc := g.sectorsPerCluster;
    sectorOffset := sectorIdx % spc;
    ghost var q := sectorIdx / spc;
    assert sectorIdx - sectorOffset == spc * q;
    MultipleOver(q, spc);
    clusterIdx := (sectorIdx - sectorOffset) / spc;
    var numClusters := CeilDiv(numSectors + sectorOffset, spc);
    assert numClusters > 0 by {
      assert numClusters <= 0 ==> spc * numClusters <= 0;
    }
    chainLength := clusterIdx + numClusters;
    assert (q + numClusters) * spc == spc * q + spc * numClusters;
    assert (q + numClusters - 1) * spc == spc * q + spc * (numClusters - 1);
  }

  lemma MultipleOver(q: nat, d: nat)
    requires d > 0
    ensures d * q / d == q
  {
    var k, r := d * q / d, d * q % d;
    assert d * q == d * k + r;
    assert r == d * (q - k);
    assert q - k >= 1 ==> d * (q - k) >= d;
    assert k - q >= 1 ==> d * (k - q) >= d;
  }

  /** Whether `chainLength`, the least number of clusters that reach `end`, is available. */
  lemma Shorter(g: Layout, m: nat, chainLength: nat, end: nat)
    requires chainLength > 0 && Span(g, chainLength - 1) < end <= Span(g, chainLength)
    ensures chainLength <= m <==> end <= Span(g, m)
  {
    if chainLength <= m {
      SpanOrder(g, chainLength, m);
    } else {
      SpanOrder(g, m, chainLength - 1);
    }
  }

  lemma SpanGain(g: Layout, m: nat, n: nat)
    requires g.sectorsPerCluster > 0 && m <= n
    ensures Span(g, n) - Span(g, m) >= n - m
    decreases n
  {
    if m < n {
      SpanGain(g, m, n - 1);
      SpanNext(g, n - 1);
      hide Span;
    }
  }

  /** A chain of `m` clusters that is too short for `end` sectors lacks no more clusters than sectors. */
  lemma StepsToGrow(g: Layout, m: nat, chainLength: nat, end: nat)
    requires g.sectorsPerCluster > 0 && 0 < chainLength && Span(g, chainLength - 1) < end
    ensures m < chainLength ==> chainLength - m <= end - Span(g, m)
  {
    if m < chainLength {
      SpanGain(g, m, chainLength - 1);
    }
  }

  /** The groups are what is needed for `n` sectors from `from` on: every one of them begins before their end. */
  ghost predicate Needed(list: seq<nat>, groups: seq<Group>, from: nat, n: nat, spc: nat) {
    && (exists to: nat :: Covers(list, groups, from, to) && from + n <= to < from + n + spc)
    && (forall k | 1 <= k < |groups| :: groups[k].numSectors >= spc)
  }

  lemma AreNeeded(g: Layout, list: seq<nat>, groups: seq<Group>, from: nat, n: nat, chainLength: nat)
    requires Covers(list, groups, from, Span(g, chainLength)) && chainLength > 0
    requires Span(g, chainLength - 1) < from + n <= Span(g, chainLength)
    requires forall k | 1 <= k < |groups| :: groups[k].numSectors >= g.sectorsPerCluster
    ensures Needed(list, groups, from, n, g.sectorsPerCluster)
  {
    SpanNext(g, chainLength - 1);
  }

  lemma CoveredTo(list: seq<nat>, groups: seq<Group>, from: nat, n: nat, spc: nat) returns (to: nat)
    requires Needed(list, groups, from, n, spc)
    ensures Covers(list, groups[0..], from, to) && from + n <= to < from + n + spc
  {
    to :| Covers(list, groups, from, to) && from + n <= to < from + n + spc;
    assert groups[0..] == groups;
  }

  lemma {:induction false} CoversForward(list: seq<nat>, groups: seq<Group>, from: nat, to: nat)
    requires Covers(list, groups, from, to)
    ensures from <= to
    decreases |groups|
  {
    if groups != [] {
      CoversForward(list, groups[1..], from + groups[0].numSectors, to);
    }
  }

  /** Group `k` is the run at its position, and it begins before the end. */
  lemma GroupAt(list: seq<nat>, groups: seq<Group>, k: nat, pos: nat, to: nat, from: nat, n: nat, spc: nat)
    requires k < |groups| && Covers(list, groups[k..], pos, to) && to < from + n + spc
    requires Needed(list, groups, from, n, spc)
    ensures IsRun(list, groups[k], pos) && Covers(list, groups[k + 1..], pos + groups[k].numSectors, to)
    ensures k > 0 ==> pos < from + n
    ensures groups[k].numSectors > 0
  {
    assert groups[k..][0] == groups[k] && groups[k..][1..] == groups[k + 1..];
    CoversForward(list, groups[k + 1..], pos + groups[k].numSectors, to);
  }

  /** Reads `n` sectors of the chain, group by group. */
  method ReadGroups(io: SectorCache, groups: seq<Group>, n: nat, ghost list: seq<nat>, ghost from: nat, ghost spc: nat)
    returns (data: seq<Sector>)
    requires io.Valid() && ListOnDevice(list, |io.device.sectors|) && Needed(list, groups, from, n, spc) && n > 0
    requires from + n <= |list|
    modifies io`cache
    ensures io.Valid() && data == View(io.device.sectors, list)[from..from + n]
  {
    hide *;
    ghost var contents := View(io.device.sectors, list);
    ghost var to := CoveredTo(list, groups, from, n, spc);
    ghost var pos: nat := from;
    data := [];
    for k := 0 to |groups|
      invariant io.Valid() && Covers(list, groups[k..], pos, to) && from <= pos
      invariant k > 0 ==> from < pos
      invariant k == 0 ==> from == pos
      invariant |data| == Min(pos - from, n) && data == contents[from..from + |data|]
    {
      GroupAt(list, groups, k, pos, to, from, n, spc);
      var take := Min(groups[k].numSectors, n - |data|);
      RunReads(io.device.sectors, list, groups[k], pos, take);
      var more := io.ReadSectors(groups[k].firstSector, take);
      data := data + more;
      pos := pos + groups[k].numSectors;
    }
    CoversEnd(list, groups, pos, to);
  }

  lemma CoversEnd(list: seq<nat>, groups: seq<Group>, pos: nat, to: nat)
    requires Covers(list, groups[|groups|..], pos, to)
    ensures pos == to
  {
  }

  // ----- writing in any order ------------------------------------------------------------------------------------

  /** What one group is to take of the data: `pos` is where in the chain. */
  datatype Part = Part(pos: nat, firstSector: nat, data: seq<Sector>)

  /** Every sector is as it was, or the one to be written there. */
  ghost predicate Mixed(before: seq<Sector>, after: seq<Sector>, at: nat, data: seq<Sector>) {
    && |after| == |before|
    && forall k | 0 <= k < |before| :: after[k] == before[k] || (at <= k < at + |data| && after[k] == data[k - at])
  }

  predicate Inside(part: Part, k: nat) { part.pos <= k < part.pos + |part.data| }

  ghost predicate Taken(parts: seq<Part>, q: nat) { exists k :: 0 <= k < |parts| && Inside(parts[k], q) }

  ghost predicate PartOf(part: Part, list: seq<nat>, from: nat, data: seq<Sector>) {
    && part.data != [] && from <= part.pos && part.pos + |part.data| <= from + |data|
    && part.data == data[part.pos - from..part.pos - from + |part.data|]
    && IsRun(list, Group(part.firstSector, |part.data|), part.pos)
  }

  /** The parts, one after the other, are the data up to `to`. */
  ghost predicate Parts(parts: seq<Part>, list: seq<nat>, from: nat, to: nat, data: seq<Sector>) {
    && from <= to <= from + |data| && |parts| <= to - from
    && (forall k | 0 <= k < |parts| :: PartOf(parts[k], list, from, data) && parts[k].pos + |parts[k].data| <= to)
    && (forall j, k | 0 <= j < k < |parts| :: parts[j].pos + |parts[j].data| <= parts[k].pos)
    && (forall q: nat | from <= q < to :: Taken(parts, q))
  }

  lemma NoParts(list: seq<nat>, from: nat, data: seq<Sector>)
    ensures Parts([], list, from, from, data)
  {
  }

  lemma NextPart(parts: seq<Part>, list: seq<nat>, from: nat, to: nat, data: seq<Sector>, group: Group, take: nat)
    requires Parts(parts, list, from, to, data) && IsRun(list, group, to) && 0 < take <= group.numSectors
    requires to + take <= from + |data|
    ensures Parts(parts + [Part(to, group.firstSector, data[to - from..to - from + take])], list, from, to + take, data)
  {
    var more := parts + [Part(to, group.firstSector, data[to - from..to - from + take])];
    assert PartOf(more[|parts|], list, from, data);
    forall q: nat | from <= q < to + take ensures Taken(more, q) {
      if q < to {
        assert Taken(parts, q);
        var k :| 0 <= k < |parts| && Inside(parts[k], q);
        assert Inside(more[k], q);
      } else {
        assert Inside(more[|parts|], q);
      }
    }
  }

  /** The parts of the groups in `done` are in place; the rest is as it was. */
  ghost predicate InPlace(before: seq<Sector>, after: seq<Sector>, from: nat, data: seq<Sector>, parts: seq<Part>,
                          rest: set<nat>) {
    && Mixed(before, after, from, data)
    && forall k: nat, q: nat |
        k < |parts| && k !in rest && q < |after| && Inside(parts[k], q) && from <= q < from + |data| ::
         after[q] == data[q - from]
  }

  lemma OnePlaced(start: seq<Sector>, before: seq<Sector>, after: seq<Sector>, list: seq<nat>, from: nat,
                  data: seq<Sector>,
                  parts: seq<Part>, rest: set<nat>, k: nat)
    requires Parts(parts, list, from, from + |data|, data) && k in rest && k < |parts|
    requires InPlace(start, before, from, data, parts, rest) && Placed(before, after, parts[k].pos, parts[k].data)
    ensures InPlace(start, after, from, data, parts, rest - {k})
  {
    var part := parts[k];
    assert PartOf(part, list, from, data);
    forall q: nat | q < |after|
      ensures after[q] == if Inside(part, q) then data[q - from] else before[q]
    {
      if Inside(part, q) {
        assert after[part.pos + (q - part.pos)] == part.data[q - part.pos];
      }
    }
  }

  lemma AllPlaced(before: seq<Sector>, after: seq<Sector>, list: seq<nat>, from: nat, data: seq<Sector>,
                  parts: seq<Part>)
    requires Parts(parts, list, from, from + |data|, data) && InPlace(before, after, from, data, parts, {})
    requires from + |data| <= |before|
    ensures Placed(before, after, from, data)
  {
    forall q | 0 <= q < |data| ensures after[from + q] == data[q] {
      assert Taken(parts, from + q);
      var k :| 0 <= k < |parts| && Inside(parts[k], from + q);
      assert k !in {};
    }
  }

  lemma NothingInPlace(before: seq<Sector>, from: nat, data: seq<Sector>, parts: seq<Part>, rest: set<nat>)
    requires forall k: nat | k < |parts| :: k in rest
    ensures InPlace(before, before, from, data, parts, rest)
  {
  }

  /** The part of the data that each group takes. */
  method Slice(groups: seq<Group>, data: seq<Sector>, ghost list: seq<nat>, ghost from: nat, ghost spc: nat, first: nat)
    returns (parts: seq<Part>)
    requires Needed(list, groups, from, |data|, spc) && data != [] && first == from
    ensures Parts(parts, list, from, from + |data|, data)
  {
    hide *;
    ghost var to := CoveredTo(list, groups, from, |data|, spc);
    ghost var pos: nat := from;
    var done := 0;
    parts := [];
    NoParts(list, from, data);
    for k := 0 to |groups|
      invariant Covers(list, groups[k..], pos, to) && from <= pos
      invariant k > 0 ==> from < pos
      invariant k == 0 ==> from == pos
      invariant done == Min(pos - from, |data|) && Parts(parts, list, from, from + done, data)
    {
      GroupAt(list, groups, k, pos, to, from, |data|, spc);
      var take := Min(groups[k].numSectors, |data| - done);
      NextPart(parts, list, from, pos, data, groups[k], take);
      parts := parts + [Part(first + done, groups[k].firstSector, data[done..done + take])];
      done := done + take;
      pos := pos + groups[k].numSectors;
    }
    CoversEnd(list, groups, pos, to);
  }

  /**
   * Writes sectors of the chain, each group on its own and in any order, and nothing else. If the device
   * stops, any of the groups have been written.
   */
  method WriteGroups(io: SectorCache, groups: seq<Group>, data: seq<Sector>, ghost list: seq<nat>, from: nat,
                     ghost spc: nat)
    returns (ok: bool)
    requires io.Valid() && ListOnDevice(list, |io.device.sectors|) && AllDistinct(list)
    requires Needed(list, groups, from, |data|, spc) && data != [] && AllSized(data, io.device.sectorSize)
    requires from + |data| <= |list|
    modifies io`cache, io.device
    ensures io.Valid() && |io.device.sectors| == |old(io.device.sectors)| && ListOnDevice(list, |io.device.sectors|)
    ensures ok ==> Placed(View(old(io.device.sectors), list), View(io.device.sectors, list), from, data)
    ensures Mixed(View(old(io.device.sectors), list), View(io.device.sectors, list), from, data)
    ensures OutsideKept(old(io.device.sectors), io.device.sectors, list)
    ensures old(io.device.steps) >= |data| ==> ok
    ensures io.device.steps + |data| >= old(io.device.steps)
  {
    hide *;
    var parts := Slice(groups, data, list, from, spc, from);
    PartFacts(parts, list, from, data);
    ghost var start, view := io.device.sectors, View(io.device.sectors, list);
    var rest: set<nat> := Below(|parts|);
    NothingInPlace(view, from, data, parts, rest);
    NothingOutside(start, list);
    ok := true;
    while rest != {}
      invariant io.Valid() && |io.device.sectors| == |start| && ListOnDevice(list, |io.device.sectors|)
      invariant forall k | k in rest :: k < |parts|
      invariant InPlace(view, View(io.device.sectors, list), from, data, parts, rest)
      invariant OutsideKept(start, io.device.sectors, list)
      invariant io.device.steps - |rest| == old(io.device.steps) - |parts|
      decreases |rest|
    {
      var k :| k in rest;
      ghost var before := io.device.sectors;
      PartReady(parts[k], list, from, data, |io.device.sectors|, io.device.sectorSize);
      ok := io.WriteSectors(parts[k].firstSector, parts[k].data);
      if !ok {
        PartlyInPlace(view, View(before, list), from, data, parts, rest);
        return;
      }
      PlacedSize(before, io.device.sectors, parts[k].firstSector, parts[k].data);
      RunWrites(before, io.device.sectors, list, Group(parts[k].firstSector, |parts[k].data|), parts[k].pos,
                parts[k].data);
      OnePlaced(view, View(before, list), View(io.device.sectors, list), list, from, data, parts, rest, k);
      OutsideTwice(start, before, io.device.sectors, list);
      rest := rest - {k};
    }
    PartlyInPlace(view, View(io.device.sectors, list), from, data, parts, {});
    AllPlaced(view, View(io.device.sectors, list), list, from, data, parts);
  }

  lemma PartFacts(parts: seq<Part>, list: seq<nat>, from: nat, data: seq<Sector>)
    requires Parts(parts, list, from, from + |data|, data)
    ensures |parts| <= |data| && forall k | 0 <= k < |parts| :: PartOf(parts[k], list, from, data)
  {
  }

  lemma PartReady(part: Part, list: seq<nat>, from: nat, data: seq<Sector>, numSectors: nat, size: nat)
    requires PartOf(part, list, from, data) && ListOnDevice(list, numSectors) && AllSized(data, size)
    ensures part.data != [] && part.firstSector + |part.data| <= numSectors && AllSized(part.data, size)
    ensures IsRun(list, Group(part.firstSector, |part.data|), part.pos)
  {
    RunOnDevice(list, Group(part.firstSector, |part.data|), part.pos, numSectors);
  }

  lemma PartlyInPlace(before: seq<Sector>, after: seq<Sector>, from: nat, data: seq<Sector>, parts: seq<Part>,
                      rest: set<nat>)
    requires InPlace(before, after, from, data, parts, rest)
    ensures Mixed(before, after, from, data)
  {
  }

  function Below(n: nat): (s: set<nat>)
    ensures |s| == n && forall k: nat :: k in s <==> k < n
  {
    if n == 0 then {} else Below(n - 1) + {n - 1}
  }

  lemma PlacedSize(before: seq<Sector>, after: seq<Sector>, at: nat, data: seq<Sector>)
    requires Placed(before, after, at, data)
    ensures |after| == |before|
  {
  }

  lemma OutsideTwice(a: seq<Sector>, b: seq<Sector>, c: seq<Sector>, list: seq<nat>)
    requires OutsideKept(a, b, list) && OutsideKept(b, c, list)
    ensures OutsideKept(a, c, list)
  {
  }

  lemma GrownIsLonger(t: FatType, start: Buffer, fat: Buffer, old': seq<nat>, cs: seq<nat>, count: nat)
    requires GrownFrom(t, start, fat, old', cs, count)
    ensures old' <= cs
  {
  }

  lemma ViewGrows(g: Layout, sectors: seq<Sector>, known: seq<nat>, cs: seq<nat>)
    requires known <= cs && Clusters(cs) && ListOnDevice(SectorList(g, cs), |sectors|)
    ensures Clusters(known) && ListOnDevice(SectorList(g, known), |sectors|)
    ensures View(sectors, SectorList(g, known)) <= View(sectors, SectorList(g, cs))
  {
    ListGrows(g, cs, |known|);
    assert cs[..|known|] == known;
    var a, b := SectorList(g, known), SectorList(g, cs);
    assert b[..|a|] == a;
    hide SectorList;
    assert forall k | 0 <= k < |a| :: a[k] == b[k];
  }

  /** `data` is at `at`, perhaps past the end, and the rest of what was there is as before. */
  ghost predicate Rewritten(before: seq<Sector>, after: seq<Sector>, at: nat, data: seq<Sector>) {
    && |before| <= |after| && at + |data| <= |after|
    && (forall k | at <= k < at + |data| :: after[k] == data[k - at])
    && (forall k | 0 <= k < |before| && !(at <= k < at + |data|) :: after[k] == before[k])
  }

  /** What was there is as before, or in part the `data` to be written at `at`; what is new is anything. */
  ghost predicate PartlyRewritten(before: seq<Sector>, after: seq<Sector>, at: nat, data: seq<Sector>) {
    && |before| <= |after|
    && forall k | 0 <= k < |before| :: after[k] == before[k] || (at <= k < at + |data| && after[k] == data[k - at])
  }

  lemma RewrittenPart(before: seq<Sector>, after: seq<Sector>, at: nat, data: seq<Sector>)
    requires Rewritten(before, after, at, data)
    ensures at + |data| <= |after| && after[at..at + |data|] == data
  {
  }

  lemma MixedIsPartly(before: seq<Sector>, grown: seq<Sector>, after: seq<Sector>, at: nat, data: seq<Sector>)
    requires before <= grown && Mixed(grown, after, at, data)
    ensures PartlyRewritten(before, after, at, data)
  {
  }

  lemma NothingRewritten(before: seq<Sector>, after: seq<Sector>, at: nat, data: seq<Sector>)
    requires before <= after
    ensures PartlyRewritten(before, after, at, data)
  {
  }

  lemma IsRewritten(before: seq<Sector>, grown: seq<Sector>, after: seq<Sector>, at: nat, data: seq<Sector>)
    requires before <= grown && Placed(grown, after, at, data)
    ensures Rewritten(before, after, at, data)
  {
    forall k | at <= k < at + |data| ensures after[k] == data[k - at] {
      assert after[at + (k - at)] == data[k - at];
    }
  }

  lemma NothingOutside(sectors: seq<Sector>, list: seq<nat>)
    ensures OutsideKept(sectors, sectors, list)
  {
  }

  // ----- a file ------------------------------------------------------------------------------------------------

  /** The sectors of a file: a cluster chain, its device and the cache in front of it. */
  class FileChain {
    const g: Layout
    const chain: ClusterChain
    const io: SectorCache

    /** The device has room for every cluster the table can give out. */
    ghost predicate Sound()
      reads this, chain, chain.vol, io, io.device
    {
      && g.sectorsPerCluster > 0 && chain.Sound() && io.Valid()
      && OnDevice(g, chain.clusters, |io.device.sectors|)
      && (forall c: nat | 2 <= c < chain.vol.countofClusters :: OnDevice(g, [c], |io.device.sectors|))
    }

    ghost predicate Valid()
      reads this, chain, chain.vol, io, io.device
    {
      Sound() && chain.Valid()
    }

    /** How many sectors the file could have. */
    ghost function Room(): nat
      requires Sound()
      reads this, chain, chain.vol, io, io.device
    {
      Span(g, chain.Capacity())
    }

    /** Writes that are left for the table, and four for each sector the file has, which its growth may have taken. */
    ghost function Budget(): nat
      requires Sound()
      reads this, chain, chain.vol, io, io.device
    {
      chain.vol.steps + 4 * Span(g, |chain.clusters|)
    }

    ghost function List(): seq<nat>
      requires Clusters(chain.clusters)
      reads this, chain
    {
      SectorList(g, chain.clusters)
    }

    ghost function Contents(): (v: seq<Sector>)
      requires Sound()
      reads this, chain, chain.vol, io, io.device
      ensures |v| == Span(g, |chain.clusters|)
    {
      ListFits(g, chain.clusters, |io.device.sectors|);
      View(io.device.sectors, List())
    }

    /** The file's sectors are where its clusters are. */
    lemma ContentsStand(i: nat, n: nat)
      requires Sound() && i + n <= |Contents()|
      ensures AllStand(g, chain.clusters, io.device.sectors, i, Contents()[i..i + n])
    {
      hide Sound, Contents, SectorList, Stands;
      var contents, part := Contents(), Contents()[i..i + n];
      forall k: nat | k < n ensures Stands(g, chain.clusters, io.device.sectors, i + k, part[k]) {
        ContentsAt(i + k);
        assert part[k] == contents[i + k];
      }
    }

    lemma ContentsAt(k: nat)
      requires Sound() && k < |Contents()|
      ensures Stands(g, chain.clusters, io.device.sectors, k, Contents()[k])
    {
      ListFits(g, chain.clusters, |io.device.sectors|);
      SectorPlace(g, chain.clusters, k);
    }

    constructor (g: Layout, chain: ClusterChain, io: SectorCache)
      requires g.sectorsPerCluster > 0 && chain.Valid() && io.Valid()
      requires OnDevice(g, chain.clusters, |io.device.sectors|)
      requires forall c: nat | 2 <= c < chain.vol.countofClusters :: OnDevice(g, [c], |io.device.sectors|)
      ensures Valid() && this.g == g && this.chain == chain && this.io == io
    {
      this.g, this.chain, this.io := g, chain, io;
    }

    /** Since the table was `fat` and the chain `cs`, the chain has at most grown, and nothing else changed. */
    ghost predicate GrewFrom(fat: Buffer, cs: seq<nat>)
      reads chain, chain.vol
    {
      GrownFrom(chain.vol.t, fat, chain.vol.fat, cs, chain.clusters, chain.vol.countofClusters)
    }

    lemma NothingGrew()
      requires Valid()
      ensures GrewFrom(chain.vol.fat, chain.clusters)
    {
      assert chain.clusters[..|chain.clusters|] == chain.clusters;
      NoChange(chain.vol.t, chain.vol.fat, chain.clusters[|chain.clusters| - 1]);
    }

    method Expand(clusterCount: nat) returns (r: Result<()>)
      requires Valid() && chain.CacheIsComplete() && clusterCount >= |chain.clusters|
      modifies chain, chain.vol
      ensures Sound() && GrewFrom(old(chain.vol.fat), old(chain.clusters))
      ensures Valid() || (r == Err(Interrupted) && chain.Torn())
      ensures r.Ok? ==> |chain.clusters| == clusterCount && chain.CacheIsComplete()
      ensures r.Err? ==> r.error == NoSpace || r.error == Interrupted
      ensures r != Err(Interrupted) ==> Room() == old(Room()) && Budget() >= old(Budget())
      ensures r != Err(Interrupted) ==> (r.Ok? <==> clusterCount <= old(chain.Capacity()))
      ensures old(chain.vol.steps) >= 4 * (clusterCount - |old(chain.clusters)|) ==> r != Err(Interrupted)
    {
      ghost var known, fat := chain.clusters, chain.vol.fat;
      ghost var stop;
      r, stop := chain.ExpandChainToLength(clusterCount);
      GrownOnDevice(g, chain.vol.t, fat, chain.vol.fat, known, chain.clusters, chain.vol.countofClusters,
                    |io.device.sectors|);
      hide *;
      SpanGain(g, |known|, |chain.clusters|);
    }

    /** Where the sectors from `sectorIdx` on are; the chain grows if `alloc` and it is too short. */
    method DetermineSectorGroups(sectorIdx: nat, numSectors: nat, alloc: bool) returns (r: Result<(seq<Group>, bool)>)
      requires Valid() && numSectors > 0
      modifies chain, chain.vol
      ensures Sound() && GrewFrom(old(chain.vol.fat), old(chain.clusters))
      ensures Valid() || (alloc && r == Err(Interrupted) && chain.Torn())
      ensures !alloc ==> r.Ok? && chain.clusters == old(chain.clusters) && chain.vol.fat == old(chain.vol.fat)
      ensures !alloc ==> chain.vol.steps == old(chain.vol.steps)
      ensures r.Ok? ==> (r.value.1 <==> sectorIdx + numSectors <= Span(g, |chain.clusters|)) && (alloc ==> r.value.1)
      ensures r.Ok? && r.value.1 ==> Needed(List(), r.value.0, sectorIdx, numSectors, g.sectorsPerCluster)
      ensures r.Err? ==> r.error == NoSpace || r.error == Interrupted
      ensures r != Err(Interrupted) ==> Room() == old(Room()) && Budget() >= old(Budget())
      ensures alloc && r != Err(Interrupted) ==> (r.Ok? <==> sectorIdx + numSectors <= old(Room()))
      ensures old(Budget()) >= 4 * (sectorIdx + numSectors) ==> r != Err(Interrupted)
    {
      hide IsChain, GrownFrom, Covers, IsRun, SectorList, Complete, Beginning, LinksReadBack, InTables, Agrees,
        AllSized, Span, FirstSectorOfCluster, KnownLinks, Needed, OnDevice, TornLink, FreeFrom;
      var clusterIdx, sectorOffset, chainLength := Locate(g, sectorIdx, numSectors);
      NothingGrew();
      ghost var known, room := |chain.clusters|, chain.Capacity();
      Shorter(g, known, chainLength, sectorIdx + numSectors);
      Shorter(g, room, chainLength, sectorIdx + numSectors);
      StepsToGrow(g, known, chainLength, sectorIdx + numSectors);
      var link := chain.ExtendCacheToInclude(chainLength - 1);
      if link.value == EndOfFile && alloc {
        var expanded := Expand(chainLength);
        if expanded.Err? {
          return Err(expanded.error);
        }
      }
      CacheKnown();
      var groups, complete := Groups(g, chain.cache, chain.clusters, clusterIdx, sectorOffset, chainLength);
      Shorter(g, |chain.clusters|, chainLength, sectorIdx + numSectors);
      if complete {
        AreNeeded(g, List(), groups, sectorIdx, numSectors, chainLength);
      }
      return Ok((groups, complete));
    }

    /** `n` sectors of the chain; None past its end. */
    method ReadSectors(i: nat, n: nat) returns (dest: Option<seq<Sector>>)
      requires Valid() && n > 0
      modifies chain, chain.vol, io`cache
      ensures Valid() && chain.clusters == old(chain.clusters) && chain.vol.fat == old(chain.vol.fat)
      ensures Contents() == old(Contents()) && Room() == old(Room()) && Budget() == old(Budget())
      ensures dest == if i + n <= |Contents()| then Some(Contents()[i..i + n]) else None
      ensures dest.Some? ==> AllStand(g, chain.clusters, io.device.sectors, i, dest.value)
    {
      var located := DetermineSectorGroups(i, n, false);
      if located.Err? {
        return None;
      }
      var (groups, complete) := located.value;
      if !complete {
        return None;
      }
      ListFits(g, chain.clusters, |io.device.sectors|);
      var data := ReadGroups(io, groups, n, List(), i, g.sectorsPerCluster);
      dest := Some(data);
      ContentsStand(i, n);
    }

    /**
     * Writes sectors of the chain, which grows if need be. It succeeds if and only if the file can have
     * them, unless the volume stops; then any of the groups have been written, and nothing else.
     */
    method WriteSectors(i: nat, data: seq<Sector>) returns (r: Result<()>)
      requires Valid() && data != [] && AllSized(data, io.device.sectorSize)
      modifies chain, chain.vol, io`cache, io.device
      ensures Sound() && GrewFrom(old(chain.vol.fat), old(chain.clusters))
      ensures Valid() || (r == Err(Interrupted) && chain.Torn())
      ensures r.Ok? ==> Rewritten(old(Contents()), Contents(), i, data)
      ensures r.Ok? ==> AllStand(g, chain.clusters, io.device.sectors, i, data)
      ensures r == Err(NoSpace) ==> old(Contents()) <= Contents()
      ensures r == Err(Interrupted) ==> PartlyRewritten(old(Contents()), Contents(), i, data)
      ensures r.Err? ==> r.error == NoSpace || r.error == Interrupted
      ensures OutsideKept(old(io.device.sectors), io.device.sectors, List())
      ensures r != Err(Interrupted) ==> Room() == old(Room()) && Budget() >= old(Budget())
      ensures r != Err(Interrupted) ==> (r.Ok? <==> i + |data| <= old(Room()))
      ensures io.device.steps + |data| >= old(io.device.steps)
      ensures old(Budget()) >= 4 * (i + |data|) && old(io.device.steps) >= |data| ==> r != Err(Interrupted)
    {
      hide IsChain, GrownFrom, LinksReadBack, InTables, Complete, Beginning, Agrees, AllSized, SectorList, View, Span,
        FirstSectorOfCluster, Needed, OutsideKept, Rewritten, PartlyRewritten, Mixed, OnDevice, TornLink, FreeFrom;
      ghost var known, before, sectors := chain.clusters, Contents(), io.device.sectors;
      ListFits(g, known, |sectors|);
      var located := DetermineSectorGroups(i, |data|, true);
      GrownIsLonger(chain.vol.t, old(chain.vol.fat), chain.vol.fat, known, chain.clusters, chain.vol.countofClusters);
      GrownView(known, before);
      NothingOutside(sectors, List());
      if located.Err? {
        NothingRewritten(before, Contents(), i, data);
        return Err(located.error);
      }
      var groups := located.value.0;
      ListFits(g, chain.clusters, |io.device.sectors|);
      DistinctSectors();
      ghost var grown := Contents();
      var ok := WriteGroups(io, groups, data, List(), i, g.sectorsPerCluster);
      if !ok {
        MixedIsPartly(before, grown, Contents(), i, data);
        return Err(Interrupted);
      }
      IsRewritten(before, grown, Contents(), i, data);
      RewrittenPart(before, Contents(), i, data);
      ContentsStand(i, |data|);
      return Ok(());
    }

    lemma DistinctSectors()
      requires Valid()
      ensures AllDistinct(List())
    {
      ListDistinct(g, chain.clusters);
    }

    /** A chain that has grown begins with what it held before. */
    lemma GrownView(known: seq<nat>, before: seq<Sector>)
      requires Sound() && Clusters(known) && known <= chain.clusters
      requires ListOnDevice(SectorList(g, known), |io.device.sectors|)
      requires before == View(io.device.sectors, SectorList(g, known))
      ensures before <= Contents()
    {
      ListFits(g, chain.clusters, |io.device.sectors|);
      ViewGrows(g, io.device.sectors, known, chain.clusters);
    }

    /** The cache is a beginning of the chain. */
    lemma CacheKnown()
      requires Valid()
      ensures KnownLinks(chain.cache, chain.clusters)
      ensures chain.CacheIsComplete() ==> |chain.cache| == |chain.clusters| + 1
    {
    }
  }

  /** Each link is that of the chain, and the end stands after the last cluster. */
  ghost predicate KnownLinks(cache: seq<Link>, cs: seq<nat>) {
    forall i: nat | i < |cache| :: if cache[i] == EndOfFile then i == |cs| else i < |cs| && cache[i] == Cluster(cs[i])
  }

  /** No group could have been continued by the next one. */
  ghost predicate Maximal(groups: seq<Group>) {
    forall k | 1 <= k < |groups| :: groups[k - 1].firstSector + groups[k - 1].numSectors != groups[k].firstSector
  }

  lemma MaximalAlone(open: Group)
    ensures Maximal([]) && Maximal([] + [open])
  {
  }

  lemma MaximalGrows(groups: seq<Group>, open: Group, n: nat)
    requires Maximal(groups + [open])
    ensures Maximal(groups + [open.(numSectors := open.numSectors + n)])
  {
    var before, after := groups + [open], groups + [open.(numSectors := open.numSectors + n)];
    forall k | 1 <= k < |after| ensures after[k - 1].firstSector + after[k - 1].numSectors != after[k].firstSector {
      assert before[k - 1] == after[k - 1] && before[k].firstSector == after[k].firstSector;
    }
  }

  lemma MaximalCloses(groups: seq<Group>, next: Group)
    requires Maximal(groups) && groups != []
    requires var last := groups[|groups| - 1]; last.firstSector + last.numSectors != next.firstSector
    ensures Maximal(groups + [next])
  {
    var after := groups + [next];
    forall k | 1 <= k < |after| ensures after[k - 1].firstSector + after[k - 1].numSectors != after[k].firstSector {
      assert after[k - 1] == groups[k - 1];
    }
  }

  /** The groups of the clusters from `clusterIdx` to `chainLength`, as far as the chain goes. */
  method Groups(g: Layout, cache: seq<Link>, ghost cs: seq<nat>, clusterIdx: nat, sectorOffset: nat, chainLength: nat)
    returns (groups: seq<Group>, complete: bool)
    requires Clusters(cs) && KnownLinks(cache, cs) && (chainLength <= |cache| || |cache| == |cs| + 1)
    requires sectorOffset < g.sectorsPerCluster && clusterIdx < chainLength
    ensures complete <==> chainLength <= |cs|
    ensures complete ==> Covers(SectorList(g, cs), groups, Span(g, clusterIdx) + sectorOffset, Span(g, chainLength))
    ensures forall k | 1 <= k < |groups| :: groups[k].numSectors >= g.sectorsPerCluster
    ensures Maximal(groups)
  {
    hide Maximal, GroupsTo, Covers, SectorList, Span, FirstSectorOfCluster;
    groups, complete := [], false;
    ghost var from := Span(g, clusterIdx) + sectorOffset;
    if clusterIdx >= |cache| || cache[clusterIdx] == EndOfFile {
      MaximalAlone(Group(0, 0));
      return;
    }
    FirstGroup(g, cs, clusterIdx, sectorOffset);
    var open := Group(FirstSectorOfCluster(g, cache[clusterIdx].n) + sectorOffset, g.sectorsPerCluster - sectorOffset);
    var nextCluster, i := cache[clusterIdx].n + 1, clusterIdx + 1;
    ClusterPlaces(g, cache[clusterIdx].n);
    MaximalAlone(open);
    while i < chainLength && i < |cache| && cache[i] != EndOfFile
      invariant clusterIdx < i <= chainLength && i <= |cs| && nextCluster == cs[i - 1] + 1
      invariant GroupsTo(g, cs, groups, open, from, i)
      invariant forall k | 1 <= k < |groups| :: groups[k].numSectors >= g.sectorsPerCluster
      invariant groups != [] ==> open.numSectors >= g.sectorsPerCluster
      invariant open.firstSector + open.numSectors == FirstSectorOfCluster(g, nextCluster)
      invariant Maximal(groups + [open])
      decreases chainLength - i
    {
      var c := cache[i].n;
      ClusterPlaces(g, c);
      if c == nextCluster {
        GroupGrows(g, cs, groups, open, from, i);
        MaximalGrows(groups, open, g.sectorsPerCluster);
        open := open.(numSectors := open.numSectors + g.sectorsPerCluster);
      } else {
        GroupCloses(g, cs, groups, open, from, i);
        ClustersApart(g, c, nextCluster);
        MaximalCloses(groups + [open], Group(FirstSectorOfCluster(g, c), g.sectorsPerCluster));
        groups := groups + [open];
        open := Group(FirstSectorOfCluster(g, c), g.sectorsPerCluster);
      }
      nextCluster, i := c + 1, i + 1;
    }
    complete := i == chainLength;
    LastGroup(g, cs, groups, open, from, i);
    groups := groups + [open];
  }
}
