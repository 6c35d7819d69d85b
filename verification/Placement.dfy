/**
 * Counts of tagged virtual machines per host, what moving one does to them, migrations, and sorting of
 * hosts: the pure part of the plans of the load balancer.
 */
module Placement {
  import opened Variance
  import opened Sorting

  datatype Vm = Vm(tags: set<nat>, memory: int, cpu: int, xenTools: bool)

  datatype Migration = Migration(vm: nat, source: nat, destination: nat)

  /** How many machines with each watched tag each host has: `[host][tag]`. */
  type Tags = seq<seq<int>>

  predicate Table(tags: Tags, n: nat, m: nat) {
    |tags| == n && forall h | 0 <= h < n :: |tags[h]| == m
  }

  function Column(tags: Tags, m: nat, t: nat): (c: seq<int>)
    requires Table(tags, |tags|, m) && t < m
    ensures |c| == |tags| && forall h | 0 <= h < |c| :: c[h] == tags[h][t]
  {
    seq(|tags|, h requires 0 <= h < |tags| => tags[h][t])
  }

  /** n² times the variance over the hosts, summed over the first `k` watched tags. */
  function TotalSpread(tags: Tags, m: nat, k: nat): int
    requires Table(tags, |tags|, m) && k <= m
  {
    if k == 0 then 0 else TotalSpread(tags, m, k - 1) + Spread(Column(tags, m, k - 1))
  }

  lemma {:induction false} TotalSpreadNonNegative(tags: Tags, m: nat, k: nat)
    requires Table(tags, |tags|, m) && k <= m
    ensures TotalSpread(tags, m, k) >= 0
  {
    if k > 0 {
      TotalSpreadNonNegative(tags, m, k - 1);
      SpreadNonNegative(Column(tags, m, k - 1));
    }
  }

  // ----- moving tags ----------------------------------------------------------------------------------

  function Delta(h: nat, s: nat, d: nat): int {
    if h == s then -1 else if h == d then 1 else 0
  }

  /** The counts with one less of each tag of `moved` at `s`, and one more at `d`. */
  function Moved(tags: Tags, m: nat, moved: set<nat>, s: nat, d: nat): (r: Tags)
    requires Table(tags, |tags|, m)
    ensures Table(r, |tags|, m)
    ensures forall h, t | 0 <= h < |tags| && 0 <= t < m ::
      r[h][t] == tags[h][t] + if t in moved then Delta(h, s, d) else 0
  {
    seq(|tags|, h requires 0 <= h < |tags| =>
      seq(m, t requires 0 <= t < m => tags[h][t] + if t in moved then Delta(h, s, d) else 0))
  }

  lemma SameTags(a: Tags, b: Tags, n: nat, m: nat)
    requires Table(a, n, m) && Table(b, n, m)
    requires forall h, t | 0 <= h < n && 0 <= t < m :: a[h][t] == b[h][t]
    ensures a == b
  {
    forall h | 0 <= h < n ensures a[h] == b[h] {
    }
  }

  lemma MovedMore(tags: Tags, m: nat, done: set<nat>, tag: nat, s: nat, d: nat)
    requires Table(tags, |tags|, m) && s < |tags| && d < |tags| && s != d && tag !in done && tag < m
    ensures var a := Moved(tags, m, done, s, d);
      var b := a[s := a[s][tag := a[s][tag] - 1]];
      b[d := b[d][tag := b[d][tag] + 1]] == Moved(tags, m, done + {tag}, s, d)
  {
    var a := Moved(tags, m, done, s, d);
    var b := a[s := a[s][tag := a[s][tag] - 1]];
    SameTags(b[d := b[d][tag := b[d][tag] + 1]], Moved(tags, m, done + {tag}, s, d), |tags|, m);
  }

  lemma MovedBack(tags: Tags, m: nat, moved: set<nat>, s: nat, d: nat)
    requires Table(tags, |tags|, m) && s != d
    ensures Moved(Moved(tags, m, moved, s, d), m, moved, d, s) == tags
  {
    SameTags(Moved(Moved(tags, m, moved, s, d), m, moved, d, s), tags, |tags|, m);
  }

  lemma MovedColumn(tags: Tags, m: nat, moved: set<nat>, s: nat, d: nat, t: nat)
    requires Table(tags, |tags|, m) && s < |tags| && d < |tags| && s != d && t < m
    ensures Column(Moved(tags, m, moved, s, d), m, t)
      == if t in moved then Shifted(Column(tags, m, t), s, d) else Column(tags, m, t)
  {
  }

  /** Moving keeps the total of every tag. */
  lemma MovedTotal(tags: Tags, m: nat, moved: set<nat>, s: nat, d: nat, t: nat)
    requires Table(tags, |tags|, m) && s < |tags| && d < |tags| && s != d && t < m
    ensures Sum(Column(Moved(tags, m, moved, s, d), m, t)) == Sum(Column(tags, m, t))
  {
    MovedColumn(tags, m, moved, s, d, t);
    ShiftSums(Column(tags, m, t), s, d);
  }

  lemma MovedColumnSpread(tags: Tags, m: nat, moved: set<nat>, s: nat, d: nat, t: nat)
    requires Table(tags, |tags|, m) && s < |tags| && d < |tags| && s != d && t < m
    ensures Spread(Column(Moved(tags, m, moved, s, d), m, t))
      == Spread(Column(tags, m, t)) + if t in moved then Gain(|tags|, tags[s][t], tags[d][t]) else 0
  {
    MovedColumn(tags, m, moved, s, d, t);
    var column := Column(tags, m, t);
    assert |column| == |tags| && column[s] == tags[s][t] && column[d] == tags[d][t];
    hide *;
    if t in moved {
      ShiftSpread(column, s, d);
    }
  }

  /** Moving a single tag changes the spread of its column only. */
  lemma {:induction false} MovedSingle(tags: Tags, m: nat, tag: nat, s: nat, d: nat, k: nat)
    requires Table(tags, |tags|, m) && s < |tags| && d < |tags| && s != d && k <= m && tag < m
    ensures TotalSpread(Moved(tags, m, {tag}, s, d), m, k)
      == TotalSpread(tags, m, k) + if tag < k then Gain(|tags|, tags[s][tag], tags[d][tag]) else 0
  {
    hide Spread, Gain, Moved, Column;
    if k > 0 {
      MovedSingle(tags, m, tag, s, d, k - 1);
      MovedColumnSpread(tags, m, {tag}, s, d, k - 1);
    }
  }

  lemma GainNegative(n: nat, a: int, b: int)
    requires n > 0 && b + 1 < a
    ensures Gain(n, a, b) < 0
  {
    var g := a - b - 1;
    assert n * g > 0;
    assert n * (b - a + 1) == -(n * g);
  }

  // ----- counting -----------------------------------------------------------------------------------------

  function One(vm: Vm, at: nat, h: nat, t: nat): int { if at == h && t in vm.tags then 1 else 0 }

  /** How many of the placed machines are on host `h` with tag `t`. */
  function Count(vms: seq<Vm>, placement: seq<nat>, h: nat, t: nat): (c: int)
    requires |placement| <= |vms|
    ensures c >= 0
  {
    if placement == [] then 0
    else
      var k := |placement| - 1;
      Count(vms, placement[..k], h, t) + One(vms[k], placement[k], h, t)
  }

  lemma {:induction false} CountMoved(vms: seq<Vm>, placement: seq<nat>, v: nat, d: nat, h: nat, t: nat)
    requires |placement| <= |vms| && v < |placement|
    ensures Count(vms, placement[v := d], h, t)
      == Count(vms, placement, h, t) - One(vms[v], placement[v], h, t) + One(vms[v], d, h, t)
  {
    var k := |placement| - 1;
    if v < k {
      CountMoved(vms, placement[..k], v, d, h, t);
      assert placement[v := d][..k] == placement[..k][v := d];
    } else {
      assert placement[v := d][..k] == placement[..k];
    }
  }

  lemma {:induction false} Counted(vms: seq<Vm>, placement: seq<nat>, h: nat, t: nat) returns (v: nat)
    requires |placement| <= |vms| && Count(vms, placement, h, t) > 0
    ensures v < |placement| && placement[v] == h && t in vms[v].tags
  {
    v := |placement| - 1;
    if One(vms[v], placement[v], h, t) == 0 {
      v := Counted(vms, placement[..v], h, t);
    }
  }

  function Watched(vm: Vm, m: nat): (w: set<nat>)
    ensures forall t | t in w :: t < m
  {
    set t | t in vm.tags && t < m
  }

  ghost predicate CountsMatch(vms: seq<Vm>, placement: seq<nat>, tags: Tags, n: nat, m: nat) {
    && Table(tags, n, m) && |placement| == |vms|
    && forall h, t | 0 <= h < n && 0 <= t < m :: tags[h][t] == Count(vms, placement, h, t)
  }

  lemma CountsStillMatch(vms: seq<Vm>, placement: seq<nat>, tags: Tags, n: nat, m: nat, v: nat, d: nat)
    requires CountsMatch(vms, placement, tags, n, m) && v < |vms| && placement[v] != d
    ensures CountsMatch(vms, placement[v := d], Moved(tags, m, Watched(vms[v], m), placement[v], d), n, m)
  {
    var after := Moved(tags, m, Watched(vms[v], m), placement[v], d);
    forall h, t | 0 <= h < n && 0 <= t < m ensures after[h][t] == Count(vms, placement[v := d], h, t) {
      CountMoved(vms, placement, v, d, h, t);
    }
  }

  // ----- weights of machines ---------------------------------------------------------------------------

  /** The weights of the machines that have not moved. */
  function Remaining(weights: seq<int>, moved: set<nat>): int {
    if weights == [] then 0
    else
      var k := |weights| - 1;
      Remaining(weights[..k], moved) + if k in moved then 0 else weights[k]
  }

  lemma {:induction false} RemainingMoved(weights: seq<int>, moved: set<nat>, v: nat)
    requires v !in moved && forall u | 0 <= u < |weights| :: weights[u] >= 0
    ensures Remaining(weights, moved) >= 0
    ensures Remaining(weights, moved + {v}) == Remaining(weights, moved) - if v < |weights| then weights[v] else 0
    ensures v < |weights| ==> Remaining(weights, moved) >= weights[v]
  {
    if weights != [] {
      RemainingMoved(weights[..|weights| - 1], moved, v);
    }
  }

  /** The memory of the machines that have not moved. */
  function MemoryLeft(vms: seq<Vm>, moved: set<nat>): int {
    Remaining(seq(|vms|, v requires 0 <= v < |vms| => vms[v].memory), moved)
  }

  lemma MemoryMoved(vms: seq<Vm>, moved: set<nat>, v: nat)
    requires v !in moved && v < |vms| && forall u | 0 <= u < |vms| :: vms[u].memory >= 0
    ensures MemoryLeft(vms, moved) >= vms[v].memory
    ensures MemoryLeft(vms, moved + {v}) == MemoryLeft(vms, moved) - vms[v].memory
  {
    RemainingMoved(seq(|vms|, u requires 0 <= u < |vms| => vms[u].memory), moved, v);
  }

  // ----- histories ------------------------------------------------------------------------------------

  function Apply(containers: seq<nat>, migrations: seq<Migration>): (placement: seq<nat>)
    ensures |placement| == |containers|
  {
    if migrations == [] then containers
    else
      var last := migrations[|migrations| - 1];
      var before := Apply(containers, migrations[..|migrations| - 1]);
      if last.vm < |before| then before[last.vm := last.destination] else before
  }

  /** No machine migrates twice, and each leaves the host it was running on. */
  ghost predicate OnceEach(containers: seq<nat>, migrations: seq<Migration>) {
    && (forall i | 0 <= i < |migrations| :: migrations[i].vm < |containers|)
    && (forall i | 0 <= i < |migrations| ::
          migrations[i].source == containers[migrations[i].vm] != migrations[i].destination)
    && (forall i, j | 0 <= i < j < |migrations| :: migrations[i].vm != migrations[j].vm)
  }

  ghost predicate History(containers: seq<nat>, migrations: seq<Migration>, placement: seq<nat>, moved: set<nat>) {
    && OnceEach(containers, migrations) && placement == Apply(containers, migrations)
    && (forall v :: v in moved <==> exists i :: 0 <= i < |migrations| && migrations[i].vm == v)
    && (forall v: nat | v < |containers| && v !in moved :: placement[v] == containers[v])
  }

  lemma HistoryGrows(containers: seq<nat>, migrations: seq<Migration>, placement: seq<nat>, moved: set<nat>, v: nat,
                     d: nat)
    requires History(containers, migrations, placement, moved) && v < |placement| && v !in moved && d != placement[v]
    ensures History(containers, migrations + [Migration(v, placement[v], d)], placement[v := d], moved + {v})
  {
    var more := migrations + [Migration(v, placement[v], d)];
    assert more[..|more| - 1] == migrations;
    forall u ensures u in moved + {v} <==> exists i :: 0 <= i < |more| && more[i].vm == u {
      if u in moved {
        var i :| 0 <= i < |migrations| && migrations[i].vm == u;
        assert more[i].vm == u;
      }
      if u == v {
        assert more[|more| - 1].vm == u;
      }
    }
    forall i, j | 0 <= i < j < |more| ensures more[i].vm != more[j].vm {
      assert migrations[i].vm in moved;
    }
  }

  /** `host.vms`: machines that are still where they were. */
  ghost predicate Candidates(left: seq<seq<nat>>, placement: seq<nat>, moved: set<nat>, n: nat) {
    |left| == n && forall h: nat | h < n :: StillAt(left[h], placement, moved, h)
  }

  ghost predicate StillAt(machines: seq<nat>, placement: seq<nat>, moved: set<nat>, h: nat) {
    forall v: nat | v in machines :: v < |placement| && placement[v] == h && v !in moved
  }

  function Without(machines: seq<nat>, v: nat): (r: seq<nat>)
    ensures forall x :: x in r <==> x in machines && x != v
  {
    Filter(machines, x => x != v)
  }

  lemma CandidatesKept(left: seq<seq<nat>>, placement: seq<nat>, moved: set<nat>, n: nat, v: nat, s: nat, d: nat)
    requires Candidates(left, placement, moved, n) && s < n && v < |placement| && placement[v] == s && s != d
    ensures Candidates(left[s := Without(left[s], v)], placement[v := d], moved + {v}, n)
  {
    var left' := left[s := Without(left[s], v)];
    forall h: nat | h < n ensures StillAt(left'[h], placement[v := d], moved + {v}, h) {
      assert StillAt(left[h], placement, moved, h);
    }
  }

  // ----- choosing hosts -------------------------------------------------------------------------------------------

  function Filter(items: seq<nat>, keep: nat -> bool): (r: seq<nat>)
    ensures forall x :: x in r <==> x in items && keep(x)
    ensures |r| <= |items|
    ensures Ascending(items) ==> Ascending(r)
  {
    if items == [] then []
    else
      var rest := Filter(items[..|items| - 1], keep);
      assert items == items[..|items| - 1] + [items[|items| - 1]];
      assert Ascending(items) ==> forall i | 0 <= i < |rest| :: rest[i] in rest && rest[i] < items[|items| - 1];
      if keep(items[|items| - 1]) then rest + [items[|items| - 1]] else rest
  }

  /** The items kept before the `i`th one are those kept from the items before it. */
  lemma {:induction false} FilterPlace(items: seq<nat>, keep: nat -> bool, i: nat) returns (k: nat)
    requires i < |Filter(items, keep)|
    ensures k < |items| && items[k] == Filter(items, keep)[i]
    ensures Filter(items[..k], keep) == Filter(items, keep)[..i]
  {
    var n := |items| - 1;
    var rest := Filter(items[..n], keep);
    FilterLast(items, keep);
    if i < |rest| {
      k := FilterPlace(items[..n], keep, i);
      assert items[..n][..k] == items[..k];
    } else {
      k := n;
    }
  }

  lemma FilterLast(items: seq<nat>, keep: nat -> bool)
    requires Filter(items, keep) != []
    ensures items != []
    ensures var n, rest := |items| - 1, Filter(items[..|items| - 1], keep);
      && |rest| <= |Filter(items, keep)| <= |rest| + 1 && rest == Filter(items, keep)[..|rest|]
      && (|Filter(items, keep)| == |rest| + 1 ==> Filter(items, keep)[|rest|] == items[n])
  {
  }

  function Hosts(n: nat): (hosts: seq<nat>)
    ensures |hosts| == n && forall i | 0 <= i < n :: hosts[i] == i
    ensures Ascending(hosts) && forall h: nat :: h in hosts <==> h < n
  {
    if n == 0 then [] else Hosts(n - 1) + [n - 1]
  }

  /** The hosts that satisfy `keep`, in the order of `key`. */
  function Select(n: nat, keep: nat -> bool, key: nat -> Key): (r: seq<nat>)
    ensures Sorted(r, key) && (forall h: nat :: h in r <==> h < n && keep(h))
    ensures forall i | 0 <= i < |r| :: r[i] < n && keep(r[i])
    ensures TiesAscend(r, key)
  {
    var r := SortBy(Filter(Hosts(n), keep), key);
    SortTies(Filter(Hosts(n), keep), key);
    SortedMembers(Filter(Hosts(n), keep), key);
    assert forall i | 0 <= i < |r| :: r[i] in r;
    r
  }
}
