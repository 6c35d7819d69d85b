/**
 * The anti-affinity plan of the load balancer: for each watched tag, machines are moved from hosts
 * with many of them to hosts with few, as long as the variance of the counts gets lower.
 */
module AntiAffinity {
  import opened Options
  import opened Variance
  import opened Placement
  import opened Sorting

  // ----- memory ---------------------------------------------------------------------------------------

  /** Memory given to the machines that moved to `h`. */
  function Given(vms: seq<Vm>, migrations: seq<Migration>, h: nat): int {
    if migrations == [] then 0
    else
      var last := migrations[|migrations| - 1];
      Given(vms, migrations[..|migrations| - 1], h)
      + if last.destination == h && last.vm < |vms| then vms[last.vm].memory else 0
  }

  ghost predicate MemoryMatches(vms: seq<Vm>, free: seq<int>, memoryFree: seq<int>, migrations: seq<Migration>,
                                n: nat) {
    && |free| == |memoryFree| == n
    && forall h: nat | h < n :: memoryFree[h] == free[h] - Given(vms, migrations, h)
         && (memoryFree[h] == free[h] || memoryFree[h] >= 0)
  }

  // ----- moves ----------------------------------------------------------------------------------------------

  datatype Move = Move(vm: nat, source: nat, destination: nat)

  /** What decides which moves may be made. */
  datatype Situation = Situation(vms: seq<Vm>, m: nat, pools: seq<nat>, tags: Tags, left: seq<seq<nat>>,
                                 memoryFree: seq<int>) {
    predicate Sized(tag: nat) { Table(tags, |tags|, m) && |left| == |memoryFree| == |pools| == |tags| && tag < m }
  }

  /** A move that the plan may make for `tag`. */
  ghost predicate Acceptable(w: Situation, tag: nat, move: Move)
    requires w.Sized(tag)
  {
    var Move(v, s, d) := move;
    && s < |w.tags| && d < |w.tags| && s != d && v < |w.vms| && v in w.left[s] && tag in w.vms[v].tags
    && w.tags[s][tag] > 1 && w.tags[d][tag] + 1 < w.tags[s][tag]
    && w.memoryFree[d] >= w.vms[v].memory && w.vms[v].xenTools
    && After(w.vms, w.m, w.tags, v, s, d) < TotalSpread(w.tags, w.m, w.m)
  }

  /** No move from `s` to `d` is acceptable. */
  ghost predicate NoneTo(w: Situation, tag: nat, s: nat, d: nat)
    requires w.Sized(tag)
  {
    forall v: nat :: !Acceptable(w, tag, Move(v, s, d))
  }

  ghost predicate NoneFrom(w: Situation, tag: nat, s: nat)
    requires w.Sized(tag)
  {
    forall d: nat | d < |w.tags| :: NoneTo(w, tag, s, d)
  }

  /** Whether `a` is tried before `b` as a destination: fewer machines, then the same pool, then more memory free. */
  predicate DestinationBefore(w: Situation, tag: nat, s: nat, a: nat, b: nat)
    requires w.Sized(tag) && s < |w.tags| && a < |w.tags| && b < |w.tags|
  {
    var x, y := w.tags[a][tag], w.tags[b][tag];
    var near, near' := w.pools[a] == w.pools[s], w.pools[b] == w.pools[s];
    x < y || (x == y && (
      (near && !near')
      || (near == near' && (
        w.memoryFree[a] > w.memoryFree[b] || (w.memoryFree[a] == w.memoryFree[b] && a < b)))))
  }

  ghost predicate NoneBefore(w: Situation, tag: nat, s: nat, d: nat)
    requires w.Sized(tag) && s < |w.tags| && d < |w.tags|
  {
    forall e: nat | e < |w.tags| && DestinationBefore(w, tag, s, e, d) :: NoneTo(w, tag, s, e)
  }

  /** The hosts with room for one more, in the order in which they are tried. */
  ghost predicate DestinationsOf(w: Situation, tag: nat, s: nat, ds: seq<nat>)
    requires w.Sized(tag) && s < |w.tags|
  {
    && (forall i | 0 <= i < |ds| :: ds[i] < |w.tags|)
    && (forall d: nat | d < |w.tags| :: d in ds <==> d != s && w.tags[d][tag] + 1 < w.tags[s][tag])
    && (forall i, j | 0 <= i < j < |ds| :: DestinationBefore(w, tag, s, ds[i], ds[j]))
  }

  /** Once the first `i` destinations have been tried in vain, so has every host before the next one. */
  lemma Tried(w: Situation, tag: nat, s: nat, ds: seq<nat>, i: nat)
    requires w.Sized(tag) && s < |w.tags| && DestinationsOf(w, tag, s, ds) && i <= |ds|
    requires forall j | 0 <= j < i :: NoneTo(w, tag, s, ds[j])
    ensures if i < |ds| then NoneBefore(w, tag, s, ds[i]) else NoneFrom(w, tag, s)
  {
    forall d: nat | d < |w.tags| && (i < |ds| ==> DestinationBefore(w, tag, s, d, ds[i])) ensures NoneTo(w, tag, s, d) {
      if d in ds {
        var j :| 0 <= j < |ds| && ds[j] == d;
        assert j > i ==> DestinationBefore(w, tag, s, ds[i], ds[j]);
      }
    }
  }

  /** Whether `a` comes before `b` among the sources, which are tried from the last one: fewer machines, then more
      memory free. */
  predicate SourceBefore(w: Situation, tag: nat, a: nat, b: nat)
    requires w.Sized(tag) && a < |w.tags| && b < |w.tags|
  {
    var x, y := w.tags[a][tag], w.tags[b][tag];
    x < y || (x == y && (w.memoryFree[a] > w.memoryFree[b] || (w.memoryFree[a] == w.memoryFree[b] && a < b)))
  }

  /** The hosts with more than one machine, in order. */
  ghost predicate SourcesOf(w: Situation, tag: nat, ss: seq<nat>)
    requires w.Sized(tag)
  {
    && (forall i | 0 <= i < |ss| :: ss[i] < |w.tags|)
    && (forall s: nat | s < |w.tags| :: s in ss <==> w.tags[s][tag] > 1)
    && (forall i, j | 0 <= i < j < |ss| :: SourceBefore(w, tag, ss[i], ss[j]))
  }

  function SourceKey(w: Situation, tag: nat, h: nat): Key
    requires w.Sized(tag)
  {
    if h < |w.tags| then Key(w.tags[h][tag] as real, -w.memoryFree[h] as real, 0.0) else Key(0.0, 0.0, 0.0)
  }

  function Sources(w: Situation, tag: nat): (sources: seq<nat>)
    requires w.Sized(tag)
    ensures SourcesOf(w, tag, sources)
  {
    var keep := (h: nat) => h < |w.tags| && w.tags[h][tag] > 1;
    var key := (h: nat) => SourceKey(w, tag, h);
    var sources := Select(|w.tags|, keep, key);
    SourcesInOrder(w, tag, sources, key);
    sources
  }

  lemma SourcesInOrder(w: Situation, tag: nat, ss: seq<nat>, key: nat -> Key)
    requires w.Sized(tag) && Sorted(ss, key) && TiesAscend(ss, key) && forall i | 0 <= i < |ss| :: ss[i] < |w.tags|
    requires forall h: nat | h < |w.tags| :: key(h) == SourceKey(w, tag, h)
    ensures forall i, j | 0 <= i < j < |ss| :: SourceBefore(w, tag, ss[i], ss[j])
  {
    forall i, j | 0 <= i < j < |ss| ensures SourceBefore(w, tag, ss[i], ss[j]) {
      assert NoLater(key(ss[i]), key(ss[j])) && (key(ss[i]) == key(ss[j]) ==> ss[i] < ss[j]);
      SourceOrder(w, tag, ss[i], ss[j]);
    }
  }

  lemma SourceOrder(w: Situation, tag: nat, a: nat, b: nat)
    requires w.Sized(tag) && a < |w.tags| && b < |w.tags|
    requires NoLater(SourceKey(w, tag, a), SourceKey(w, tag, b))
    requires SourceKey(w, tag, a) == SourceKey(w, tag, b) ==> a < b
    ensures SourceBefore(w, tag, a, b)
  {
  }

  function DestinationKey(w: Situation, tag: nat, s: nat, h: nat): Key
    requires w.Sized(tag) && s < |w.tags|
  {
    if h >= |w.tags| then Key(0.0, 0.0, 0.0)
    else Key(w.tags[h][tag] as real, if w.pools[h] != w.pools[s] then 1.0 else 0.0, -w.memoryFree[h] as real)
  }

  function Destinations(w: Situation, tag: nat, s: nat): (destinations: seq<nat>)
    requires w.Sized(tag) && s < |w.tags|
    ensures DestinationsOf(w, tag, s, destinations)
  {
    var keep := (h: nat) => h < |w.tags| && h != s && w.tags[h][tag] + 1 < w.tags[s][tag];
    var key := (h: nat) => DestinationKey(w, tag, s, h);
    var destinations := Select(|w.tags|, keep, key);
    DestinationsInOrder(w, tag, s, destinations, key);
    destinations
  }

  lemma DestinationsInOrder(w: Situation, tag: nat, s: nat, ds: seq<nat>, key: nat -> Key)
    requires w.Sized(tag) && s < |w.tags| && forall i | 0 <= i < |ds| :: ds[i] < |w.tags|
    requires Sorted(ds, key) && TiesAscend(ds, key)
    requires forall h: nat | h < |w.tags| :: key(h) == DestinationKey(w, tag, s, h)
    ensures forall i, j | 0 <= i < j < |ds| :: DestinationBefore(w, tag, s, ds[i], ds[j])
  {
    forall i, j | 0 <= i < j < |ds| ensures DestinationBefore(w, tag, s, ds[i], ds[j]) {
      assert NoLater(key(ds[i]), key(ds[j])) && (key(ds[i]) == key(ds[j]) ==> ds[i] < ds[j]);
      DestinationOrder(w, tag, s, ds[i], ds[j]);
    }
  }

  lemma DestinationOrder(w: Situation, tag: nat, s: nat, a: nat, b: nat)
    requires w.Sized(tag) && s < |w.tags| && a < |w.tags| && b < |w.tags|
    requires NoLater(DestinationKey(w, tag, s, a), DestinationKey(w, tag, s, b))
    requires DestinationKey(w, tag, s, a) == DestinationKey(w, tag, s, b) ==> a < b
    ensures DestinationBefore(w, tag, s, a, b)
  {
  }

  /** Every source after `s` has been tried in vain. */
  ghost predicate NoneAfter(w: Situation, tag: nat, s: nat)
    requires w.Sized(tag) && s < |w.tags|
  {
    forall r: nat | r < |w.tags| && SourceBefore(w, tag, s, r) :: NoneFrom(w, tag, r)
  }

  ghost predicate NoMove(w: Situation, tag: nat)
    requires w.Sized(tag)
  {
    forall s: nat | s < |w.tags| :: NoneFrom(w, tag, s)
  }

  ghost predicate TriedFrom(w: Situation, tag: nat, ss: seq<nat>, i: nat)
    requires w.Sized(tag)
  {
    forall j | i <= j < |ss| :: NoneFrom(w, tag, ss[j])
  }

  /** Once the sources from `i` on have been tried in vain, so has every fuller host. */
  lemma TriedSources(w: Situation, tag: nat, ss: seq<nat>, i: nat)
    requires w.Sized(tag) && SourcesOf(w, tag, ss) && i <= |ss| && TriedFrom(w, tag, ss, i)
    ensures i > 0 ==> ss[i - 1] < |w.tags| && w.tags[ss[i - 1]][tag] > 1 && NoneAfter(w, tag, ss[i - 1])
    ensures i == 0 ==> NoMove(w, tag)
    ensures i > 0 && NoneFrom(w, tag, ss[i - 1]) ==> TriedFrom(w, tag, ss, i - 1)
  {
    assert i > 0 ==> ss[i - 1] in ss;
    forall s: nat | s < |w.tags| && (i > 0 ==> SourceBefore(w, tag, ss[i - 1], s)) ensures NoneFrom(w, tag, s) {
      if s in ss {
        var j :| 0 <= j < |ss| && ss[j] == s;
      }
    }
  }

  /** When the fullest host left has no destination, neither has any other. */
  lemma NoDestination(w: Situation, tag: nat, s: nat)
    requires w.Sized(tag) && s < |w.tags| && DestinationsOf(w, tag, s, []) && NoneAfter(w, tag, s)
    ensures NoMove(w, tag)
  {
    forall r: nat | r < |w.tags| ensures NoneFrom(w, tag, r) {
      if w.tags[r][tag] <= w.tags[s][tag] {
        forall d: nat | d < |w.tags| ensures NoneTo(w, tag, r, d) {
          assert d !in [];
        }
      }
    }
  }

  /** The machine is the first, among those left at the source, whose move lowers the spread most. */
  ghost predicate FirstLeast(w: Situation, tag: nat, move: Move)
    requires w.Sized(tag) && Acceptable(w, tag, move)
  {
    var Move(v, s, d) := move;
    && (forall u: nat | Acceptable(w, tag, Move(u, s, d)) ::
          After(w.vms, w.m, w.tags, v, s, d) <= After(w.vms, w.m, w.tags, u, s, d))
    && exists k :: 0 <= k < |w.left[s]| && w.left[s][k] == v && LeastBefore(w, tag, move, k)
  }

  ghost predicate LeastBefore(w: Situation, tag: nat, move: Move, k: nat)
    requires w.Sized(tag) && Acceptable(w, tag, move) && k <= |w.left[move.source]|
  {
    var Move(v, s, d) := move;
    forall j | 0 <= j < k && Acceptable(w, tag, Move(w.left[s][j], s, d)) ::
      After(w.vms, w.m, w.tags, v, s, d) < After(w.vms, w.m, w.tags, w.left[s][j], s, d)
  }

  /** The move chosen among the acceptable ones: from the last source with one, to the first destination with one. */
  ghost predicate Best(w: Situation, tag: nat, move: Move)
    requires w.Sized(tag)
  {
    && Acceptable(w, tag, move)
    && NoneAfter(w, tag, move.source)
    && NoneBefore(w, tag, move.source, move.destination)
    && FirstLeast(w, tag, move)
  }

  /** So the plan has no choice. */
  lemma BestIsOne(w: Situation, tag: nat, a: Move, b: Move)
    requires w.Sized(tag) && Best(w, tag, a) && Best(w, tag, b)
    ensures a == b
  {
    hide After;
    assert !NoneTo(w, tag, a.source, a.destination) && !NoneTo(w, tag, b.source, b.destination);
    assert !NoneFrom(w, tag, a.source) && !NoneFrom(w, tag, b.source);
    assert a.source == b.source && a.destination == b.destination;
    hide Acceptable;
    var k :| 0 <= k < |w.left[a.source]| && w.left[a.source][k] == a.vm && LeastBefore(w, tag, a, k);
    var l :| 0 <= l < |w.left[a.source]| && w.left[a.source][l] == b.vm && LeastBefore(w, tag, b, l);
  }

  // ----- counts of one tag ------------------------------------------------------------------------------------

  ghost predicate Balanced(tags: Tags, m: nat, tag: nat)
    requires Table(tags, |tags|, m) && tag < m
  {
    forall h, k | 0 <= h < |tags| && 0 <= k < |tags| :: tags[h][tag] <= tags[k][tag] + 1
  }

  ghost predicate Within(tags: Tags, m: nat, tag: nat, low: int, high: int)
    requires Table(tags, |tags|, m) && tag < m
  {
    forall h | 0 <= h < |tags| :: low <= tags[h][tag] <= high
  }

  /** The spread after moving machine `v`. */
  function After(vms: seq<Vm>, m: nat, tags: Tags, v: nat, s: nat, d: nat): int
    requires Table(tags, |tags|, m) && v < |vms|
  {
    TotalSpread(Moved(tags, m, Watched(vms[v], m), s, d), m, m)
  }

  /** The spread after moving candidate `best`, or the present one if there is none. */
  ghost function Reached(vms: seq<Vm>, m: nat, tags: Tags, candidates: seq<nat>, s: nat, d: nat, best: nat): int
    requires Table(tags, |tags|, m) && forall i | 0 <= i < |candidates| :: candidates[i] < |vms|
  {
    if best < |candidates| then After(vms, m, tags, candidates[best], s, d) else TotalSpread(tags, m, m)
  }

  /** Among the first `k` candidates that support migration, `best` is the first that reaches the least spread. */
  ghost predicate Steepest(vms: seq<Vm>, m: nat, tags: Tags, candidates: seq<nat>, s: nat, d: nat, best: nat, k: nat)
    requires Table(tags, |tags|, m) && forall i | 0 <= i < |candidates| :: candidates[i] < |vms|
    requires k <= |candidates|
  {
    var least := Reached(vms, m, tags, candidates, s, d, best);
    && (best < |candidates| ==> vms[candidates[best]].xenTools && least < TotalSpread(tags, m, m))
    && (forall i | 0 <= i < k && vms[candidates[i]].xenTools :: After(vms, m, tags, candidates[i], s, d) >= least)
    && (best < |candidates| ==>
          forall i | 0 <= i < best && vms[candidates[i]].xenTools :: After(vms, m, tags, candidates[i], s, d) > least)
  }

  lemma FirstCandidate(vms: seq<Vm>, m: nat, tags: Tags, candidates: seq<nat>, s: nat, d: nat)
    requires Table(tags, |tags|, m) && forall i | 0 <= i < |candidates| :: candidates[i] < |vms|
    ensures Steepest(vms, m, tags, candidates, s, d, |candidates|, 0)
    ensures Reached(vms, m, tags, candidates, s, d, |candidates|) == TotalSpread(tags, m, m)
  {
  }

  lemma NextCandidate(vms: seq<Vm>, m: nat, tags: Tags, candidates: seq<nat>, s: nat, d: nat, best: nat, i: nat)
    requires Table(tags, |tags|, m) && forall i | 0 <= i < |candidates| :: candidates[i] < |vms|
    requires i < |candidates| && Steepest(vms, m, tags, candidates, s, d, best, i)
    ensures var v := candidates[i];
      Steepest(vms, m, tags, candidates, s, d,
        if After(vms, m, tags, v, s, d) < Reached(vms, m, tags, candidates, s, d, best) && vms[v].xenTools then i
        else best, i + 1)
    ensures Reached(vms, m, tags, candidates, s, d, i) == After(vms, m, tags, candidates[i], s, d)
  {
    hide After, TotalSpread;
  }

  /** The candidates to move from `s` to `d` for `tag`. */
  function CandidatesFor(w: Situation, tag: nat, s: nat, d: nat): (candidates: seq<nat>)
    requires w.Sized(tag) && s < |w.tags| && d < |w.tags|
    ensures forall v: nat | v < |w.vms| ::
      v in candidates <==> v in w.left[s] && tag in w.vms[v].tags && w.memoryFree[d] >= w.vms[v].memory
    ensures forall i | 0 <= i < |candidates| :: candidates[i] < |w.vms|
  {
    var sourceVms := Filter(w.left[s], (v: nat) => v < |w.vms| && tag in w.vms[v].tags);
    var candidates := Filter(sourceVms, (v: nat) => v < |w.vms| && w.memoryFree[d] >= w.vms[v].memory);
    assert forall i | 0 <= i < |candidates| :: candidates[i] in sourceVms;
    candidates
  }

  /** The candidates before the `i`th one are the eligible machines before it. */
  lemma CandidatePlace(w: Situation, tag: nat, s: nat, d: nat, i: nat) returns (k: nat)
    requires w.Sized(tag) && s < |w.tags| && d < |w.tags| && i < |CandidatesFor(w, tag, s, d)|
    ensures k < |w.left[s]| && w.left[s][k] == CandidatesFor(w, tag, s, d)[i]
    ensures forall j | 0 <= j < k && w.left[s][j] in CandidatesFor(w, tag, s, d) ::
      w.left[s][j] in CandidatesFor(w, tag, s, d)[..i]
  {
    var tagged := (v: nat) => v < |w.vms| && tag in w.vms[v].tags;
    var fits := (v: nat) => v < |w.vms| && w.memoryFree[d] >= w.vms[v].memory;
    var sourceVms := Filter(w.left[s], tagged);
    assert CandidatesFor(w, tag, s, d) == Filter(sourceVms, fits);
    var l := FilterPlace(sourceVms, fits, i);
    k := FilterPlace(w.left[s], tagged, l);
    forall j | 0 <= j < k && w.left[s][j] in CandidatesFor(w, tag, s, d)
      ensures w.left[s][j] in CandidatesFor(w, tag, s, d)[..i]
    {
      assert w.left[s][j] in w.left[s][..k];
    }
  }

  /** What the search among the candidates gives is the first best machine to move, if there is one. */
  lemma SteepestIsLeast(w: Situation, tag: nat, s: nat, d: nat, candidates: seq<nat>, best: nat)
    requires w.Sized(tag) && s < |w.tags| && d < |w.tags| && s != d && best <= |candidates|
    requires candidates == CandidatesFor(w, tag, s, d)
    requires w.tags[s][tag] > 1 && w.tags[d][tag] + 1 < w.tags[s][tag]
    requires Steepest(w.vms, w.m, w.tags, candidates, s, d, best, |candidates|)
    ensures if best < |candidates|
      then Acceptable(w, tag, Move(candidates[best], s, d)) && FirstLeast(w, tag, Move(candidates[best], s, d))
      else NoneTo(w, tag, s, d)
  {
    hide After, TotalSpread, CandidatesFor, LeastBefore;
    forall v: nat | Acceptable(w, tag, Move(v, s, d)) ensures v in candidates {
    }
    if best < |candidates| {
      var move := Move(candidates[best], s, d);
      assert candidates[best] in candidates && Acceptable(w, tag, move);
      var k := CandidatePlace(w, tag, s, d, best);
      BestComesFirst(w, tag, move, candidates, best, k);
    }
  }

  lemma BestComesFirst(w: Situation, tag: nat, move: Move, candidates: seq<nat>, best: nat, k: nat)
    requires w.Sized(tag) && Acceptable(w, tag, move) && best < |candidates| && k <= |w.left[move.source]|
    requires candidates == CandidatesFor(w, tag, move.source, move.destination)
    requires Steepest(w.vms, w.m, w.tags, candidates, move.source, move.destination, best, |candidates|)
    requires move.vm == candidates[best]
    requires forall j | 0 <= j < k && w.left[move.source][j] in candidates ::
      w.left[move.source][j] in candidates[..best]
    ensures LeastBefore(w, tag, move, k)
  {
    hide After, TotalSpread;
    var Move(v, s, d) := move;
    forall j | 0 <= j < k && Acceptable(w, tag, Move(w.left[s][j], s, d))
      ensures After(w.vms, w.m, w.tags, v, s, d) < After(w.vms, w.m, w.tags, w.left[s][j], s, d)
    {
      var i :| 0 <= i < best && candidates[i] == w.left[s][j];
    }
  }

  class TaggedHosts {
    const vms: seq<Vm>
    const pools: seq<nat>
    const watched: nat
    /** The host of each machine at first, and the free memory of each host. */
    const containers: seq<nat>
    const free: seq<int>
    var tags: Tags
    var left: seq<seq<nat>>
    var memoryFree: seq<int>
    var migrations: seq<Migration>
    ghost var placement: seq<nat>
    ghost var moved: set<nat>

    ghost predicate Valid()
      reads this
    {
      && CountsMatch(vms, placement, tags, |pools|, watched)
      && Candidates(left, placement, moved, |pools|)
      && History(containers, migrations, placement, moved)
      && MemoryMatches(vms, free, memoryFree, migrations, |pools|)
      && |containers| == |vms|
    }

    /** Counts the machines with each watched tag on the hosts they run on; machines elsewhere are skipped. */
    constructor (vms: seq<Vm>, containers: seq<nat>, pools: seq<nat>, watched: nat, memoryFree: seq<int>)
      requires |containers| == |vms| && |memoryFree| == |pools|
      ensures Valid() && migrations == [] && moved == {} && placement == containers
      ensures this.vms == vms && this.pools == pools && this.watched == watched && this.containers == containers
      ensures free == this.memoryFree == memoryFree
      ensures Present(vms, watched, left, containers, |pools|)
    {
      var counts, machines := CountTags(vms, containers, |pools|, watched);
      this.vms, this.containers, this.pools, this.watched, free := vms, containers, pools, watched, memoryFree;
      tags, left, this.memoryFree, migrations := counts, machines, memoryFree, [];
      placement, moved := containers, {};
    }

    /** The variance of the counts, by the shifted algorithm. */
    method ComputeVariance() returns (variance: real)
      requires Table(tags, |pools|, watched) && |pools| > 0
      ensures Unscaled(|pools|, variance) == TotalSpread(tags, watched, watched) as real
    {
      var n := |pools|;
      variance := 0.0;
      for tag := 0 to watched
        invariant Unscaled(n, variance) == TotalSpread(tags, watched, tag) as real
      {
        var ex, ex2 := ShiftedSums(tag);
        hide Unscaled, Term, Scaled;
        VarianceTerm(n, ex2, ex);
        UnscaledSum(n, variance, Term(n, ex2, ex));
        variance := variance + Term(n, ex2, ex);
      }
    }

    /** The sums of the differences to the first host's count, and of their squares. */
    method ShiftedSums(tag: nat) returns (ex: int, ex2: int)
      requires Table(tags, |pools|, watched) && |pools| > 0 && tag < watched
      ensures Scaled(|pools|, ex2, ex) == Spread(Column(tags, watched, tag))
    {
      var n := |pools|;
      ghost var column := Column(tags, watched, tag);
      var k := tags[0][tag];
      ex, ex2 := 0, 0;
      for h := 0 to n
        invariant ex == Sum(column[..h]) - h * k
        invariant ex2 == ShiftedSquares(h, k, Squares(column[..h]), Sum(column[..h]))
      {
        assert column[..h + 1][..h] == column[..h];
        hide ShiftedSquares;
        var diff := tags[h][tag] - k;
        ShiftedStep(h, k, Squares(column[..h]), Sum(column[..h]), tags[h][tag]);
        ex := ex + diff;
        ex2 := ex2 + diff * diff;
      }
      assert column[..n] == column;
      ShiftedSpread(n, Squares(column), Sum(column), k);
    }

    /** Counts the tags of machine `v` as moved from `s` to `d`. */
    method MoveTags(vmTags: set<nat>, s: nat, d: nat)
      requires Table(tags, |pools|, watched) && s < |pools| && d < |pools| && s != d
      requires forall t | t in vmTags :: t < watched
      modifies this`tags
      ensures tags == Moved(old(tags), watched, vmTags, s, d)
    {
      var rest := vmTags;
      ghost var done: set<nat> := {};
      SameTags(tags, Moved(tags, watched, done, s, d), |pools|, watched);
      while rest != {}
        invariant done + rest == vmTags && done !! rest && tags == Moved(old(tags), watched, done, s, d)
      {
        var tag :| tag in rest;
        MovedMore(old(tags), watched, done, tag, s, d);
        tags := tags[s := tags[s][tag := tags[s][tag] - 1]];
        tags := tags[d := tags[d][tag := tags[d][tag] + 1]];
        rest, done := rest - {tag}, done + {tag};
      }
      assert done == vmTags;
    }

    /**
     * The first machine whose move lowers the variance most, among those that support migration:
     * `best` is its index, or the number of candidates if no move lowers the variance.
     */
    method VmToMigrate(candidates: seq<nat>, s: nat, d: nat) returns (best: nat)
      requires Table(tags, |pools|, watched) && s < |pools| && d < |pools| && s != d
      requires forall i | 0 <= i < |candidates| :: candidates[i] < |vms|
      modifies this`tags
      ensures tags == old(tags) && best <= |candidates|
      ensures Steepest(vms, watched, tags, candidates, s, d, best, |candidates|)
    {
      hide TotalSpread, After, Reached, Steepest, Unscaled;
      var bestVariance := ComputeVariance();
      best := |candidates|;
      FirstCandidate(vms, watched, tags, candidates, s, d);
      for i := 0 to |candidates|
        invariant tags == old(tags) && (best < i || best == |candidates|)
        invariant Steepest(vms, watched, tags, candidates, s, d, best, i)
        invariant Unscaled(|pools|, bestVariance) == Reached(vms, watched, tags, candidates, s, d, best) as real
      {
        var variance := VarianceAfter(candidates[i], s, d);
        UnscaledOrder(|pools|, variance, bestVariance);
        NextCandidate(vms, watched, tags, candidates, s, d, best, i);
        if variance < bestVariance {
          if vms[candidates[i]].xenTools {
            bestVariance, best := variance, i;
          }
        }
      }
    }

    method VarianceAfter(v: nat, s: nat, d: nat) returns (variance: real)
      requires Table(tags, |pools|, watched) && s < |pools| && d < |pools| && s != d && v < |vms|
      modifies this`tags
      ensures tags == old(tags) && Unscaled(|pools|, variance) == After(vms, watched, tags, v, s, d) as real
    {
      var vmTags := Watched(vms[v], watched);
      MoveTags(vmTags, s, d);
      variance := ComputeVariance();
      MovedBack(old(tags), watched, vmTags, s, d);
      MoveTags(vmTags, d, s);
    }

    function Now(): Situation
      reads this
    {
      Situation(vms, watched, pools, tags, left, memoryFree)
    }

    ghost predicate Sized()
      reads this
    {
      && Table(tags, |pools|, watched) && |memoryFree| == |left| == |pools| && |placement| == |vms|
      && Candidates(left, placement, moved, |pools|)
    }

    /** A machine tagged `tag` to move from `s` to `d`. */
    method FindVm(tag: nat, s: nat, d: nat) returns (vm: Option<nat>)
      requires Sized() && tag < watched && s < |pools| && d < |pools| && s != d
      requires tags[s][tag] > 1 && tags[d][tag] + 1 < tags[s][tag]
      modifies this`tags
      ensures tags == old(tags)
      ensures match vm
              case None => NoneTo(Now(), tag, s, d)
              case Some(v) => Acceptable(Now(), tag, Move(v, s, d)) && FirstLeast(Now(), tag, Move(v, s, d))
    {
      hide Candidates, After, TotalSpread, CandidatesFor, Steepest, FirstLeast, Acceptable, NoneTo;
      var candidates := CandidatesFor(Now(), tag, s, d);
      var best := VmToMigrate(candidates, s, d);
      SteepestIsLeast(Now(), tag, s, d, candidates, best);
      return if best < |candidates| then Some(candidates[best]) else None;
    }

    /** The best move from `s`. */
    method FindDestination(tag: nat, s: nat, destinations: seq<nat>) returns (move: Option<Move>)
      requires Sized() && tag < watched && s < |pools| && tags[s][tag] > 1
      requires DestinationsOf(Now(), tag, s, destinations)
      modifies this`tags
      ensures tags == old(tags)
      ensures match move
              case None => NoneFrom(Now(), tag, s)
              case Some(mv) => (
                && mv.source == s && mv.destination < |pools| && Acceptable(Now(), tag, mv)
                && NoneBefore(Now(), tag, s, mv.destination) && FirstLeast(Now(), tag, mv))
    {
      assert forall i | 0 <= i < |destinations| ::
        destinations[i] in destinations && destinations[i] < |pools| && destinations[i] != s
        && tags[destinations[i]][tag] + 1 < tags[s][tag];
      ghost var w := Now();
      hide Acceptable, NoneTo, NoneFrom, NoneBefore, FirstLeast, DestinationsOf, Candidates;
      for i := 0 to |destinations|
        invariant tags == old(tags) && Now() == w
        invariant forall j | 0 <= j < i :: NoneTo(w, tag, s, destinations[j])
      {
        var vm := FindVm(tag, s, destinations[i]);
        if vm.Some? {
          Tried(w, tag, s, destinations, i);
          return Some(Move(vm.value, s, destinations[i]));
        }
      }
      Tried(w, tag, s, destinations, |destinations|);
      return None;
    }

    /** The best move from `s`; `stop` if no host as full has a destination at all. */
    method TrySource(tag: nat, s: nat) returns (stop: bool, move: Option<Move>)
      requires Sized() && tag < watched && s < |pools| && tags[s][tag] > 1 && NoneAfter(Now(), tag, s)
      modifies this`tags
      ensures tags == old(tags)
      ensures stop ==> move == None && NoMove(Now(), tag)
      ensures !stop && move.None? ==> NoneFrom(Now(), tag, s)
      ensures move.Some? ==> Best(Now(), tag, move.value)
    {
      hide Acceptable, NoneTo, NoneFrom, NoneBefore, NoneAfter, FirstLeast, NoMove, DestinationsOf, Candidates;
      var destinations := Destinations(Now(), tag, s);
      if |destinations| == 0 {
        assert destinations == [];
        NoDestination(Now(), tag, s);
        return true, None;
      }
      move := FindDestination(tag, s, destinations);
      return false, move;
    }

    /** The best move for `tag`, if there is an acceptable one. */
    method FindMove(tag: nat) returns (move: Option<Move>)
      requires Sized() && tag < watched
      modifies this`tags
      ensures tags == old(tags)
      ensures match move case None => NoMove(Now(), tag) case Some(mv) => Best(Now(), tag, mv)
    {
      ghost var w := Now();
      var sources := Sources(Now(), tag);
      hide Acceptable, NoneFrom, NoneBefore, NoneAfter, FirstLeast, NoMove, SourcesOf, Candidates, Best, TriedFrom;
      assert TriedFrom(w, tag, sources, |sources|) by { StartSources(w, tag, sources); }
      var sourceIndex: nat := |sources|;
      while sourceIndex > 0
        invariant sourceIndex <= |sources| && tags == w.tags && Sized() && TriedFrom(w, tag, sources, sourceIndex)
      {
        TriedSources(w, tag, sources, sourceIndex);
        var stop;
        stop, move := TrySource(tag, sources[sourceIndex - 1]);
        if stop || move.Some? {
          return;
        }
        sourceIndex := sourceIndex - 1;
      }
      TriedSources(w, tag, sources, 0);
      return None;
    }

    /** Migrates a machine: tags, free memory and candidates change at once, the migration is recorded. */
    method Migrate(tag: nat, move: Move)
      requires Valid() && tag < watched && Acceptable(Now(), tag, move)
      modifies this
      ensures Valid() && Migrated(old(Now()), Now(), move)
      ensures migrations == old(migrations) + [Recorded(move)]
      ensures placement == old(placement)[move.vm := move.destination] && moved == old(moved) + {move.vm}
    {
      var Move(v, s, d) := move;
      hide CountsMatch, Candidates, History, MemoryMatches, Acceptable, Migrated, Moved, Watched, Without;
      ghost var w := Now();
      ValidSized();
      PlacementKept(w, placement, moved, tag, move);
      RecordKept(w, containers, free, migrations, placement, moved, tag, move);
      MoveTags(Watched(vms[v], watched), s, d);
      memoryFree := memoryFree[d := memoryFree[d] - vms[v].memory];
      left := left[s := Without(left[s], v)];
      migrations := migrations + [Recorded(move)];
      placement := placement[v := d];
      moved := moved + {v};
      assert Now() == AfterMove(w, move);
    }

    lemma ValidSized()
      requires Valid()
      ensures Sized() && forall tag | 0 <= tag < watched :: Now().Sized(tag)
    {
    }

    /**
     * Makes acceptable moves for `tag` until there is none. If each machine has one watched tag and
     * supports migration, and memory never refuses, the counts then differ by at most one.
     */
    method ProcessTag(tag: nat)
      requires Valid() && tag < watched
      modifies this
      ensures Valid() && NoMove(Now(), tag)
      ensures Moves(old(Now()), Now(), tag) && old(migrations) <= migrations
      ensures |migrations| - |old(migrations)|
        <= TotalSpread(old(tags), watched, watched) - TotalSpread(tags, watched, watched)
      ensures old(Easy(Now(), placement, moved, {}, tag)) ==> Balanced(tags, watched, tag)
      ensures forall u | 0 <= u < watched && u != tag && old(Easy(Now(), placement, moved, {}, u)) ::
        Easy(Now(), placement, moved, {}, u)
      ensures Simple(vms, watched)
        ==> forall u | 0 <= u < watched && u != tag :: SameColumn(old(tags), tags, watched, u)
    {
      ghost var w, placed, gone, received: set<nat> := Now(), placement, moved, {};
      hide Acceptable, Best, NoMove, Easy, Simple, Moves, CountsMatch, Candidates, History, MemoryMatches, SameColumn,
        Balanced, Migrated, TotalSpread;
      ValidSized();
      MovesNothing(w, tag);
      while true
        invariant Valid() && Sized() && Moves(w, Now(), tag) && old(migrations) <= migrations
        invariant |migrations| - |old(migrations)|
          <= TotalSpread(w.tags, watched, watched) - TotalSpread(tags, watched, watched)
        invariant Easy(w, placed, gone, {}, tag) ==> Easy(Now(), placement, moved, received, tag)
        invariant forall u | 0 <= u < watched && u != tag && Easy(w, placed, gone, {}, u) ::
          Easy(Now(), placement, moved, {}, u)
        invariant Simple(vms, watched)
          ==> forall u | 0 <= u < watched && u != tag :: SameColumn(w.tags, tags, watched, u)
        decreases TotalSpread(tags, watched, watched)
      {
        var move := FindMove(tag);
        if move.None? {
          EasyBalanced(Now(), placement, moved, received, tag);
          return;
        }
        ghost var before, place, past := Now(), placement, moved;
        BestLowers(before, tag, move.value);
        Migrate(tag, move.value);
        ValidSized();
        MovesOnce(w, before, Now(), tag, move.value);
        EasyStep(before, Now(), place, past, received, tag, move.value);
        forall u | 0 <= u < watched && u != tag && Easy(w, placed, gone, {}, u)
          ensures Easy(Now(), placement, moved, {}, u)
        {
          OtherStep(before, Now(), place, past, tag, u, move.value);
        }
        forall u | 0 <= u < watched && u != tag && Simple(vms, watched) ensures SameColumn(w.tags, tags, watched, u) {
          OtherColumn(w, before, Now(), tag, u, move.value);
        }
        received := received + {move.value.destination};
      }
    }

    /** By how much the counts of a tag differ. */
    method Difference(tag: nat) returns (diff: int)
      requires Sized() && tag < watched && |pools| > 0
      ensures diff > 1 <==> !Balanced(tags, watched, tag)
    {
      var high, low := 0, 0;
      for h := 1 to |pools|
        invariant high < |pools| && low < |pools|
        invariant forall k | 0 <= k < h :: tags[low][tag] <= tags[k][tag] <= tags[high][tag]
      {
        if tags[h][tag] > tags[high][tag] {
          high := h;
        }
        if tags[h][tag] < tags[low][tag] {
          low := h;
        }
      }
      diff := tags[high][tag] - tags[low][tag];
    }

    method TagsToBalance() returns (tagsDiff: seq<nat>)
      requires Sized() && |pools| > 0
      ensures forall i | 0 <= i < |tagsDiff| :: tagsDiff[i] < watched
      ensures forall i, j | 0 <= i < j < |tagsDiff| :: tagsDiff[i] != tagsDiff[j]
      ensures forall t | 0 <= t < watched :: t in tagsDiff <==> !Balanced(tags, watched, t)
    {
      tagsDiff := [];
      for tag := 0 to watched
        invariant forall i | 0 <= i < |tagsDiff| :: tagsDiff[i] < tag
        invariant forall i, j | 0 <= i < j < |tagsDiff| :: tagsDiff[i] != tagsDiff[j]
        invariant forall t | 0 <= t < tag :: t in tagsDiff <==> !Balanced(tags, watched, t)
      {
        var diff := Difference(tag);
        if diff > 1 {
          tagsDiff := tagsDiff + [tag];
        }
      }
    }

    /**
     * The whole plan. If each machine has one watched tag and supports migration, and every host has
     * memory for all machines, then the counts of every tag end up differing by at most one.
     */
    method ProcessAntiAffinity()
      requires Valid() && migrations == [] && moved == {} && placement == containers
      requires Present(vms, watched, left, placement, |pools|)
      modifies this
      ensures Valid() && |migrations| <= TotalSpread(old(tags), watched, watched) - TotalSpread(tags, watched, watched)
      ensures forall t | 0 <= t < watched :: Sum(Column(tags, watched, t)) == Sum(Column(old(tags), watched, t))
      ensures Simple(vms, watched) && (forall h | 0 <= h < |pools| :: free[h] >= MemoryLeft(vms, {}))
        ==> forall t | 0 <= t < watched :: Balanced(tags, watched, t)
    {
      ValidSized();
      ghost var simple := Simple(vms, watched) && forall h | 0 <= h < |pools| :: free[h] >= MemoryLeft(vms, {});
      InitiallyEasy();
      hide Acceptable, NoMove, Easy, Simple, CountsMatch, Candidates, History, MemoryMatches, SameColumn, TotalSpread,
        Present;
      if |pools| <= 1 {
        return;
      }
      var tagsDiff := TagsToBalance();
      for i := 0 to |tagsDiff|
        invariant Valid() && Sized()
        invariant |migrations| <= TotalSpread(old(tags), watched, watched) - TotalSpread(tags, watched, watched)
        invariant forall t | 0 <= t < watched :: Sum(Column(tags, watched, t)) == Sum(Column(old(tags), watched, t))
        invariant simple ==> forall j | i <= j < |tagsDiff| :: Easy(Now(), placement, moved, {}, tagsDiff[j])
        invariant simple ==> forall t | 0 <= t < watched :: t in tagsDiff[i..] || Balanced(tags, watched, t)
      {
        ghost var before := tags;
        ProcessTag(tagsDiff[i]);
        ValidSized();
        if simple {
          BalancedKept(before, tags, watched, tagsDiff, i);
        }
      }
    }

    lemma InitiallyEasy()
      requires Valid() && migrations == [] && moved == {} && Present(vms, watched, left, placement, |pools|)
      requires Sized() && forall tag | 0 <= tag < watched :: Now().Sized(tag)
      ensures |pools| <= 1 ==> forall t | 0 <= t < watched :: Balanced(tags, watched, t)
      ensures Simple(vms, watched) && (forall h | 0 <= h < |pools| :: free[h] >= MemoryLeft(vms, {}))
        ==> forall t | 0 <= t < watched :: Easy(Now(), placement, moved, {}, t)
    {
      forall t, v: nat | 0 <= t < watched && v < |vms| && t in vms[v].tags ensures Watched(vms[v], watched) != {} {
        assert t in Watched(vms[v], watched);
      }
    }
  }

  /** Balancing one tag leaves the others as they were. */
  lemma BalancedKept(before: Tags, after: Tags, m: nat, tagsDiff: seq<nat>, i: nat)
    requires Table(before, |before|, m) && Table(after, |after|, m) && i < |tagsDiff|
    requires forall j | 0 <= j < |tagsDiff| :: tagsDiff[j] < m
    requires forall t | 0 <= t < m :: t in tagsDiff[i..] || Balanced(before, m, t)
    requires Balanced(after, m, tagsDiff[i])
    requires forall u | 0 <= u < m && u != tagsDiff[i] :: SameColumn(before, after, m, u)
    ensures forall t | 0 <= t < m :: t in tagsDiff[i + 1..] || Balanced(after, m, t)
  {
    forall t | 0 <= t < m ensures t in tagsDiff[i + 1..] || Balanced(after, m, t) {
      if t != tagsDiff[i] {
        assert tagsDiff[i..] == [tagsDiff[i]] + tagsDiff[i + 1..];
        if Balanced(before, m, t) {
          SameBalance(before, after, m, t);
        }
      }
    }
  }

  lemma SameBalance(before: Tags, after: Tags, m: nat, t: nat)
    requires Table(before, |before|, m) && Table(after, |after|, m) && t < m
    requires SameColumn(before, after, m, t) && Balanced(before, m, t)
    ensures Balanced(after, m, t)
  {
    var a, b := Column(before, m, t), Column(after, m, t);
    assert forall h | 0 <= h < |b| :: after[h][t] == b[h] == a[h] == before[h][t];
  }

  lemma MemoryTaken(vms: seq<Vm>, free: seq<int>, memoryFree: seq<int>, migrations: seq<Migration>, n: nat, move: Move)
    requires MemoryMatches(vms, free, memoryFree, migrations, n) && move.vm < |vms| && move.destination < n
    requires memoryFree[move.destination] >= vms[move.vm].memory
    ensures var d := move.destination;
      MemoryMatches(vms, free, memoryFree[d := memoryFree[d] - vms[move.vm].memory], migrations + [Recorded(move)], n)
  {
    var more := migrations + [Recorded(move)];
    assert more[..|more| - 1] == migrations;
  }

  /** What a migration changes. */
  ghost function AfterMove(w: Situation, move: Move): Situation
    requires move.vm < |w.vms| && move.source < |w.left| && move.destination < |w.memoryFree|
    requires Table(w.tags, |w.tags|, w.m)
  {
    var Move(v, s, d) := move;
    w.(tags := Moved(w.tags, w.m, Watched(w.vms[v], w.m), s, d),
       left := w.left[s := Without(w.left[s], v)],
       memoryFree := w.memoryFree[d := w.memoryFree[d] - w.vms[v].memory])
  }

  ghost predicate Migrated(w: Situation, w': Situation, move: Move) {
    && move.vm < |w.vms| && move.source < |w.left| && move.destination < |w.memoryFree| && Table(w.tags, |w.tags|, w.m)
    && w' == AfterMove(w, move)
  }

  function Recorded(move: Move): Migration { Migration(move.vm, move.source, move.destination) }

  /** The machine to move is where it was, and the destination has room for it. */
  lemma MoverFacts(w: Situation, placement: seq<nat>, moved: set<nat>, tag: nat, move: Move)
    requires w.Sized(tag) && Acceptable(w, tag, move) && |placement| == |w.vms|
    requires Candidates(w.left, placement, moved, |w.tags|)
    ensures var Move(v, s, d) := move;
      && v < |w.vms| && s < |w.tags| && d < |w.tags| && s != d && placement[v] == s && v !in moved
      && w.memoryFree[d] >= w.vms[v].memory && tag in Watched(w.vms[v], w.m)
  {
    assert StillAt(w.left[move.source], placement, moved, move.source);
  }

  /** A migration keeps what ties the counts and the candidates to the placement. */
  lemma PlacementKept(w: Situation, placement: seq<nat>, moved: set<nat>, tag: nat, move: Move)
    requires w.Sized(tag) && Acceptable(w, tag, move)
    requires CountsMatch(w.vms, placement, w.tags, |w.tags|, w.m) && Candidates(w.left, placement, moved, |w.tags|)
    ensures move.vm < |w.vms| && move.source < |w.tags| && move.destination < |w.tags|
    ensures move.source != move.destination
    ensures Migrated(w, AfterMove(w, move), move)
    ensures CountsMatch(w.vms, placement[move.vm := move.destination], AfterMove(w, move).tags, |w.tags|, w.m)
    ensures Candidates(AfterMove(w, move).left, placement[move.vm := move.destination], moved + {move.vm}, |w.tags|)
  {
    assert |placement| == |w.vms|;
    hide CountsMatch, Candidates, Acceptable, Moved, Watched, Without;
    MoverFacts(w, placement, moved, tag, move);
    CountsStillMatch(w.vms, placement, w.tags, |w.tags|, w.m, move.vm, move.destination);
    CandidatesKept(w.left, placement, moved, |w.tags|, move.vm, move.source, move.destination);
  }

  /** And the history and the free memory. */
  lemma RecordKept(w: Situation, containers: seq<nat>, free: seq<int>, migrations: seq<Migration>, placement: seq<nat>,
                   moved: set<nat>, tag: nat, move: Move)
    requires w.Sized(tag) && Acceptable(w, tag, move) && |placement| == |w.vms| == |containers|
    requires Candidates(w.left, placement, moved, |w.tags|) && History(containers, migrations, placement, moved)
    requires MemoryMatches(w.vms, free, w.memoryFree, migrations, |w.tags|)
    ensures History(containers, migrations + [Recorded(move)], placement[move.vm := move.destination],
                    moved + {move.vm})
    ensures MemoryMatches(w.vms, free, AfterMove(w, move).memoryFree, migrations + [Recorded(move)], |w.tags|)
  {
    hide History, Candidates, MemoryMatches, Acceptable, Moved, Watched, Without;
    MoverFacts(w, placement, moved, tag, move);
    HistoryGrows(containers, migrations, placement, moved, move.vm, move.destination);
    MemoryTaken(w.vms, free, w.memoryFree, migrations, |w.tags|, move);
  }

  ghost predicate SameColumn(tags: Tags, tags': Tags, m: nat, t: nat)
    requires Table(tags, |tags|, m) && Table(tags', |tags'|, m) && t < m
  {
    Column(tags, m, t) == Column(tags', m, t)
  }

  /** What any number of moves for `tag` keeps: the total of every tag, and the range of the counts of `tag`. */
  ghost predicate Moves(w: Situation, w': Situation, tag: nat)
    requires w.Sized(tag)
  {
    && w'.m == w.m && w'.vms == w.vms && |w'.tags| == |w.tags| && Table(w'.tags, |w'.tags|, w'.m)
    && (forall t | 0 <= t < w.m :: Sum(Column(w'.tags, w.m, t)) == Sum(Column(w.tags, w.m, t)))
    && (forall low, high | Within(w.tags, w.m, tag, low, high) :: Within(w'.tags, w.m, tag, low, high))
  }

  lemma MovesNothing(w: Situation, tag: nat)
    requires w.Sized(tag)
    ensures Moves(w, w, tag) && forall u | 0 <= u < w.m :: SameColumn(w.tags, w.tags, w.m, u)
  {
  }

  lemma BestLowers(w: Situation, tag: nat, move: Move)
    requires w.Sized(tag) && Best(w, tag, move)
    ensures Acceptable(w, tag, move) && move.vm < |w.vms|
    ensures forall w' | Migrated(w, w', move) ::
      0 <= TotalSpread(w'.tags, w.m, w.m) < TotalSpread(w.tags, w.m, w.m)
  {
    var after := Moved(w.tags, w.m, Watched(w.vms[move.vm], w.m), move.source, move.destination);
    TotalSpreadNonNegative(after, w.m, w.m);
  }

  lemma MovesOnce(w: Situation, before: Situation, after: Situation, tag: nat, move: Move)
    requires w.Sized(tag) && before.Sized(tag) && Moves(w, before, tag) && Acceptable(before, tag, move)
    requires Migrated(before, after, move)
    ensures Moves(w, after, tag)
  {
    var Move(v, s, d) := move;
    var moved := Watched(before.vms[v], before.m);
    forall t | 0 <= t < w.m ensures Sum(Column(after.tags, w.m, t)) == Sum(Column(w.tags, w.m, t)) {
      MovedTotal(before.tags, w.m, moved, s, d, t);
    }
    forall low, high | Within(w.tags, w.m, tag, low, high) ensures Within(after.tags, w.m, tag, low, high) {
      assert Within(before.tags, w.m, tag, low, high);
    }
  }

  // ----- one watched tag a machine ----------------------------------------------------------------------

  /** Every machine supports migration and has at most one watched tag. */
  ghost predicate Simple(vms: seq<Vm>, m: nat) {
    forall v | 0 <= v < |vms| ::
      && vms[v].memory >= 0 && vms[v].xenTools
      && forall t, u | t in Watched(vms[v], m) && u in Watched(vms[v], m) :: t == u
  }

  /**
   * Besides, every host has memory for all the machines that have not moved; the machines with this
   * tag have not moved except to `received`, whose hosts have the fewest of them, up to one more.
   */
  ghost predicate Easy(w: Situation, placement: seq<nat>, moved: set<nat>, received: set<nat>, tag: nat)
    requires w.Sized(tag)
  {
    && Simple(w.vms, w.m) && CountsMatch(w.vms, placement, w.tags, |w.tags|, w.m)
    && Candidates(w.left, placement, moved, |w.tags|)
    && (forall h | 0 <= h < |w.tags| :: w.memoryFree[h] >= MemoryLeft(w.vms, moved))
    && (forall v: nat | v < |w.vms| && tag in w.vms[v].tags && placement[v] < |w.tags| && placement[v] !in received ::
          v in w.left[placement[v]])
    && (forall r: nat, h: nat | r in received && r < |w.tags| && h < |w.tags| :: w.tags[r][tag] <= w.tags[h][tag] + 1)
  }

  lemma SingleTag(vms: seq<Vm>, m: nat, v: nat, tag: nat)
    requires Simple(vms, m) && v < |vms| && tag in vms[v].tags && tag < m
    ensures Watched(vms[v], m) == {tag}
  {
    assert tag in Watched(vms[v], m);
  }

  /** Then any host can give a machine to any host with room for it. */
  lemma EasyMove(w: Situation, placement: seq<nat>, moved: set<nat>, received: set<nat>, tag: nat, s: nat, d: nat)
    requires w.Sized(tag) && Easy(w, placement, moved, received, tag)
    requires s < |w.tags| && d < |w.tags| && w.tags[d][tag] + 1 < w.tags[s][tag]
    ensures s !in received && !NoneTo(w, tag, s, d)
  {
    assert w.tags[s][tag] == Count(w.vms, placement, s, tag) && w.tags[d][tag] == Count(w.vms, placement, d, tag);
    var v := Counted(w.vms, placement, s, tag);
    assert v in w.left[s] && StillAt(w.left[s], placement, moved, s);
    MemoryMoved(w.vms, moved, v);
    SingleTag(w.vms, w.m, v, tag);
    MovedSingle(w.tags, w.m, tag, s, d, w.m);
    GainNegative(|w.tags|, w.tags[s][tag], w.tags[d][tag]);
    assert Acceptable(w, tag, Move(v, s, d));
  }

  lemma EasyBalanced(w: Situation, placement: seq<nat>, moved: set<nat>, received: set<nat>, tag: nat)
    requires w.Sized(tag) && NoMove(w, tag)
    ensures Easy(w, placement, moved, received, tag) ==> Balanced(w.tags, w.m, tag)
  {
    if Easy(w, placement, moved, received, tag) {
      forall s: nat, d: nat | s < |w.tags| && d < |w.tags| ensures w.tags[s][tag] <= w.tags[d][tag] + 1 {
        assert NoneFrom(w, tag, s) && NoneTo(w, tag, s, d);
        if w.tags[d][tag] + 1 < w.tags[s][tag] {
          EasyMove(w, placement, moved, received, tag, s, d);
        }
      }
    }
  }

  /** A machine that moves in an easy situation has no other watched tag, and its move keeps the situation. */
  lemma EasyKept(w: Situation, w': Situation, placement: seq<nat>, moved: set<nat>, received: set<nat>, tag: nat,
                 u: nat, move: Move)
    requires w.Sized(tag) && u < w.m && Acceptable(w, tag, move) && Migrated(w, w', move)
    requires Easy(w, placement, moved, received, u)
    ensures Watched(w.vms[move.vm], w.m) == {tag} && w'.Sized(tag)
    ensures var placement' := placement[move.vm := move.destination];
      && CountsMatch(w'.vms, placement', w'.tags, |w'.tags|, w'.m)
      && Candidates(w'.left, placement', moved + {move.vm}, |w'.tags|)
    ensures forall h | 0 <= h < |w.tags| :: w'.memoryFree[h] >= MemoryLeft(w.vms, moved + {move.vm})
  {
    var Move(v, s, d) := move;
    MoverFacts(w, placement, moved, tag, move);
    CountsStillMatch(w.vms, placement, w.tags, |w.tags|, w.m, v, d);
    CandidatesKept(w.left, placement, moved, |w.tags|, v, s, d);
    MemoryMoved(w.vms, moved, v);
    SingleTag(w.vms, w.m, v, tag);
  }

  lemma EasyStep(w: Situation, w': Situation, placement: seq<nat>, moved: set<nat>, received: set<nat>, tag: nat,
                 move: Move)
    requires w.Sized(tag) && Best(w, tag, move) && Migrated(w, w', move) && w'.Sized(tag)
    ensures Easy(w, placement, moved, received, tag)
      ==> Easy(w', placement[move.vm := move.destination], moved + {move.vm}, received + {move.destination}, tag)
  {
    hide FirstLeast, NoneAfter, After, TotalSpread;
    if Easy(w, placement, moved, received, tag) {
      var Move(v, s, d) := move;
      EasyKept(w, w', placement, moved, received, tag, tag, move);
      EasyMove(w, placement, moved, received, tag, s, d);
      forall h: nat | h < |w.tags| ensures w.tags[d][tag] <= w.tags[h][tag] {
        if w.tags[h][tag] < w.tags[d][tag] {
          EasyMove(w, placement, moved, received, tag, s, h);
        }
      }
      FewestStay(w, w', received, tag, move);
      PresentStay(w, w', placement, received, tag, move);
    }
  }

  lemma FewestStay(w: Situation, w': Situation, received: set<nat>, tag: nat, move: Move)
    requires w.Sized(tag) && Acceptable(w, tag, move) && Migrated(w, w', move) && w'.Sized(tag)
    requires Watched(w.vms[move.vm], w.m) == {tag} && move.source !in received
    requires forall h: nat | h < |w.tags| :: w.tags[move.destination][tag] <= w.tags[h][tag]
    requires forall r: nat, h: nat | r in received && r < |w.tags| && h < |w.tags| ::
      w.tags[r][tag] <= w.tags[h][tag] + 1
    ensures forall r: nat, h: nat | r in received + {move.destination} && r < |w.tags| && h < |w.tags| ::
      w'.tags[r][tag] <= w'.tags[h][tag] + 1
  {
    var Move(v, s, d) := move;
    forall h: nat | h < |w.tags|
      ensures w'.tags[h][tag] == w.tags[h][tag] + Delta(h, s, d)
    {
    }
    hide Acceptable, Migrated, Moved, Watched;
    forall r: nat, h: nat | r in received + {d} && r < |w.tags| && h < |w.tags|
      ensures w'.tags[r][tag] <= w'.tags[h][tag] + 1
    {
      assert r == d || w.tags[r][tag] <= w.tags[h][tag] + 1;
      assert r == d || w.tags[r][tag] <= w.tags[d][tag] + 1;
    }
  }

  lemma PresentStay(w: Situation, w': Situation, placement: seq<nat>, received: set<nat>, u: nat, move: Move)
    requires w.Sized(u) && move.source < |w.tags| && Migrated(w, w', move) && |placement| == |w.vms|
    requires forall v: nat |
        v < |w.vms| && u in w.vms[v].tags && placement[v] < |w.tags| && placement[v] !in received ::
      v in w.left[placement[v]]
    ensures var placement' := placement[move.vm := move.destination];
      forall v: nat | v < |w.vms| && u in w.vms[v].tags && placement'[v] < |w.tags| && placement'[v] !in received
        && (v == move.vm ==> move.destination in received) :: v in w'.left[placement'[v]]
  {
  }

  /** Moves for another tag change nothing for `u`. */
  lemma OtherStep(w: Situation, w': Situation, placement: seq<nat>, moved: set<nat>, tag: nat, u: nat, move: Move)
    requires w.Sized(tag) && u < w.m && u != tag && Acceptable(w, tag, move) && Migrated(w, w', move) && w'.Sized(tag)
    requires Easy(w, placement, moved, {}, u)
    ensures Easy(w', placement[move.vm := move.destination], moved + {move.vm}, {}, u)
  {
    EasyKept(w, w', placement, moved, {}, tag, u, move);
    assert u !in w.vms[move.vm].tags by {
      assert u !in Watched(w.vms[move.vm], w.m);
    }
    PresentStay(w, w', placement, {}, u, move);
  }

  lemma OtherColumn(w: Situation, before: Situation, after: Situation, tag: nat, u: nat, move: Move)
    requires w.Sized(tag) && before.Sized(tag) && after.Sized(tag) && w.m == before.m && u < w.m && u != tag
    requires Simple(before.vms, before.m) && Acceptable(before, tag, move) && Migrated(before, after, move)
    requires SameColumn(w.tags, before.tags, w.m, u)
    ensures SameColumn(w.tags, after.tags, w.m, u)
  {
    SingleTag(before.vms, before.m, move.vm, tag);
    MovedColumn(before.tags, before.m, {tag}, move.source, move.destination, u);
  }

  /** Every machine with a watched tag is a candidate on its host. */
  ghost predicate Present(vms: seq<Vm>, m: nat, left: seq<seq<nat>>, placement: seq<nat>, n: nat)
    requires |left| == n && |placement| <= |vms|
  {
    forall v: nat | v < |placement| && Watched(vms[v], m) != {} && placement[v] < n :: v in left[placement[v]]
  }

  function Bit(k: nat, h: nat, found: set<nat>, t: nat): int { if k == h && t in found then 1 else 0 }

  /** The counts with one more of each of `found` at `h`. */
  ghost predicate Raised(tags: Tags, r: Tags, m: nat, found: set<nat>, h: nat)
    requires Table(tags, |tags|, m)
  {
    && Table(r, |tags|, m)
    && forall k, t | 0 <= k < |tags| && 0 <= t < m :: r[k][t] == tags[k][t] + Bit(k, h, found, t)
  }

  method CountMachine(tags: Tags, m: nat, vm: Vm, h: nat) returns (r: Tags)
    requires Table(tags, |tags|, m) && h < |tags|
    ensures Raised(tags, r, m, Watched(vm, m), h)
  {
    var rest := Watched(vm, m);
    ghost var done: set<nat> := {};
    r := tags;
    while rest != {}
      invariant done + rest == Watched(vm, m) && done !! rest && Raised(tags, r, m, done, h)
    {
      var tag :| tag in rest;
      RaiseOne(tags, r, m, done, h, tag);
      r := r[h := r[h][tag := r[h][tag] + 1]];
      rest, done := rest - {tag}, done + {tag};
    }
    assert done == Watched(vm, m);
  }

  lemma RaiseOne(tags: Tags, r: Tags, m: nat, done: set<nat>, h: nat, tag: nat)
    requires Table(tags, |tags|, m) && h < |tags| && tag < m && tag !in done && Raised(tags, r, m, done, h)
    ensures Raised(tags, r[h := r[h][tag := r[h][tag] + 1]], m, done + {tag}, h)
  {
    var r' := r[h := r[h][tag := r[h][tag] + 1]];
    forall k, t | 0 <= k < |tags| && 0 <= t < m
      ensures r'[k][t] == tags[k][t] + Bit(k, h, done + {tag}, t)
    {
      assert r'[k][t] == r[k][t] + Bit(k, h, {tag}, t);
    }
  }

  ghost predicate CountedTo(vms: seq<Vm>, containers: seq<nat>, tags: Tags, n: nat, m: nat, v: nat)
    requires v <= |containers| <= |vms|
  {
    && Table(tags, n, m)
    && forall h, t | 0 <= h < n && 0 <= t < m :: tags[h][t] == Count(vms, containers[..v], h, t)
  }

  lemma CountedNext(vms: seq<Vm>, containers: seq<nat>, tags: Tags, r: Tags, n: nat, m: nat, v: nat)
    requires v < |containers| <= |vms| && CountedTo(vms, containers, tags, n, m, v)
    requires if containers[v] < n then Raised(tags, r, m, Watched(vms[v], m), containers[v]) else r == tags
    ensures CountedTo(vms, containers, r, n, m, v + 1)
  {
    var prefix := containers[..v + 1];
    assert prefix[..v] == containers[..v] && prefix[v] == containers[v];
    forall h, t | 0 <= h < n && 0 <= t < m ensures r[h][t] == Count(vms, prefix, h, t) {
      assert tags[h][t] == Count(vms, prefix[..v], h, t);
      assert r[h][t] == tags[h][t] + One(vms[v], prefix[v], h, t) by {
        assert t in Watched(vms[v], m) <==> t in vms[v].tags;
      }
    }
  }

  method CountTags(vms: seq<Vm>, containers: seq<nat>, n: nat, m: nat) returns (tags: Tags, left: seq<seq<nat>>)
    requires |containers| == |vms|
    ensures CountsMatch(vms, containers, tags, n, m) && Candidates(left, containers, {}, n)
    ensures Present(vms, m, left, containers, n)
  {
    tags := seq(n, h => seq(m, t => 0));
    left := seq(n, h => []);
    for v := 0 to |vms|
      invariant CountedTo(vms, containers, tags, n, m, v)
      invariant Candidates(left, containers, {}, n) && Present(vms, m, left, containers[..v], n)
    {
      var h := containers[v];
      ghost var before := tags;
      PresentNext(vms, m, left, containers, n, v);
      if h < n {
        tags := CountMachine(tags, m, vms[v], h);
        if Watched(vms[v], m) != {} {
          left := left[h := left[h] + [v]];
        }
      }
      CountedNext(vms, containers, before, tags, n, m, v);
    }
    assert containers[..|vms|] == containers;
  }

  lemma PresentNext(vms: seq<Vm>, m: nat, left: seq<seq<nat>>, containers: seq<nat>, n: nat, v: nat)
    requires v < |containers| == |vms| && Candidates(left, containers, {}, n)
    requires Present(vms, m, left, containers[..v], n)
    ensures var h := containers[v];
      var left' := if h < n && Watched(vms[v], m) != {} then left[h := left[h] + [v]] else left;
      Candidates(left', containers, {}, n) && Present(vms, m, left', containers[..v + 1], n)
  {
    var h := containers[v];
    var left' := if h < n && Watched(vms[v], m) != {} then left[h := left[h] + [v]] else left;
    forall k: nat | k < n ensures StillAt(left'[k], containers, {}, k) {
      assert StillAt(left[k], containers, {}, k);
    }
    forall u: nat | u < v + 1 && Watched(vms[u], m) != {} && containers[..v + 1][u] < n
      ensures u in left'[containers[..v + 1][u]]
    {
      if u < v {
        assert containers[..v][u] == containers[..v + 1][u];
      }
    }
  }

  lemma StartSources(w: Situation, tag: nat, ss: seq<nat>)
    requires w.Sized(tag)
    ensures TriedFrom(w, tag, ss, |ss|)
  {
  }

  function ShiftedSquares(h: nat, k: int, squares: int, sum: int): int { squares - 2 * k * sum + h * k * k }

  lemma ShiftedStep(h: nat, k: int, squares: int, sum: int, x: int)
    ensures ShiftedSquares(h, k, squares, sum) + (x - k) * (x - k)
      == ShiftedSquares(h + 1, k, squares + Square(x), sum + x)
    ensures sum - h * k + (x - k) == sum + x - (h + 1) * k
  {
  }
}
