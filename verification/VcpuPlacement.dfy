/**
 * The vCPU pre-positioning plan of the load balancer: machines move from hosts with too many virtual
 * CPUs for their CPUs to hosts with too few, a whole machine at a time.
 */
module VcpuPlacement {
  import opened Sorting
  import opened Placement

  /** VCPU_NUMBER_TOLERANCE. */
  const TOLERANCE: real := 1.0

  /** THRESHOLD_VCPU_RATIO. */
  const RATIO_THRESHOLD: real := 0.9

  /** THRESHOLD_POOL_CPU. */
  const POOL_CPU_THRESHOLD: int := 40

  /** `movable`: the machine supports migration and has no anti-affinity tag. */
  datatype Machine = Machine(vcpus: nat, cpu: int, memory: int, movable: bool)

  /** What the plan starts from: machines and their hosts, then for each host its pool, CPUs and averages. */
  datatype Park = Park(
    vms: seq<Machine>,
    containers: seq<nat>,
    pools: seq<nat>,
    cpus: seq<nat>,
    cpu: seq<int>,
    memoryFree: seq<int>,
    lowCpu: int,
    lowMemory: int,
    ideal: real
  ) {
    function N(): nat { |cpus| }

    ghost predicate Sized() {
      && |containers| == |vms| && |pools| == |cpu| == |memoryFree| == N() > 0 && ideal >= 0.0
      && forall h | 0 <= h < N() :: cpus[h] > 0
    }
  }

  // ----- rounding -------------------------------------------------------------------------------------------

  function Ceil(x: real): int { -((-x).Floor) }

  function Min(a: real, b: real): real { if a <= b then a else b }

  function Square(x: real): real { x * x }

  /** How many virtual CPUs a host has above its ideal share, or below it. */
  function Excess(vcpus: nat, cpus: nat, ideal: real): real { vcpus as real - cpus as real * ideal }

  /** A move of no more than the rounded-up difference leaves neither host a whole virtual CPU on the other side. */
  lemma RoundedMove(x: real, y: real, k: nat)
    requires x >= TOLERANCE && y < 0.0 && k <= Ceil(Min(x, -y))
    ensures x - k as real > -1.0 && y + k as real < 1.0
  {
  }

  lemma NearerSquares(x: real, y: real, k: real)
    requires x >= TOLERANCE && y < 0.0 && x - k > -1.0 && y + k < 1.0 && k >= 0.0
    ensures Square(x - k) + Square(y + k) <= Square(x) + Square(y)
    ensures k > 0.0 ==> Square(x - k) + Square(y + k) < Square(x) + Square(y)
  {
    var gain := x - y - k;
    assert gain > 0.0;
    assert k * gain >= 0.0 && (k > 0.0 ==> k * gain > 0.0);
    assert Square(x) + Square(y) - Square(x - k) - Square(y + k) == 2.0 * (k * gain);
  }

  // ----- loads ------------------------------------------------------------------------------------------------

  function Share(vm: Machine, at: nat, h: nat): nat { if at == h then vm.vcpus else 0 }

  /** The virtual CPUs of the machines placed on `h`. */
  function Load(vms: seq<Machine>, placement: seq<nat>, h: nat): nat
    requires |placement| <= |vms|
  {
    if placement == [] then 0
    else
      var k := |placement| - 1;
      Load(vms, placement[..k], h) + Share(vms[k], placement[k], h)
  }

  lemma {:induction false} LoadMoved(vms: seq<Machine>, placement: seq<nat>, v: nat, d: nat, h: nat)
    requires |placement| <= |vms| && v < |placement|
    ensures Load(vms, placement[v := d], h)
      == Load(vms, placement, h) - Share(vms[v], placement[v], h) + Share(vms[v], d, h)
    ensures placement[v] == h ==> Load(vms, placement, h) >= vms[v].vcpus
  {
    var k := |placement| - 1;
    if v < k {
      LoadMoved(vms, placement[..k], v, d, h);
      assert placement[v := d][..k] == placement[..k][v := d];
    } else {
      assert placement[v := d][..k] == placement[..k];
    }
  }

  lemma {:induction false} NoLoad(vms: seq<Machine>, placement: seq<nat>, h: nat)
    requires |placement| <= |vms| && forall v | 0 <= v < |placement| :: placement[v] != h
    ensures Load(vms, placement, h) == 0
  {
    if placement != [] {
      NoLoad(vms, placement[..|placement| - 1], h);
    }
  }

  /** The virtual CPUs on the first `k` hosts. */
  function TotalLoad(vms: seq<Machine>, placement: seq<nat>, k: nat): nat
    requires |placement| <= |vms|
  {
    if k == 0 then 0 else TotalLoad(vms, placement, k - 1) + Load(vms, placement, k - 1)
  }

  function TotalCpus(cpus: seq<nat>, k: nat): (t: nat)
    requires k <= |cpus|
  {
    if k == 0 then 0 else TotalCpus(cpus, k - 1) + cpus[k - 1]
  }

  /** The sum over the first `k` hosts of the squared excess. */
  function Imbalance(p: Park, placement: seq<nat>, k: nat): real
    requires |placement| <= |p.vms| && k <= p.N()
  {
    if k == 0 then 0.0
    else Imbalance(p, placement, k - 1) + Square(Excess(Load(p.vms, placement, k - 1), p.cpus[k - 1], p.ideal))
  }

  // ----- runs ----------------------------------------------------------------------------------------------------

  function CpuOf(p: Park, migrations: seq<Migration>, h: nat): int
    requires h < |p.cpu|
  {
    if migrations == [] then p.cpu[h]
    else
      var last := migrations[|migrations| - 1];
      CpuOf(p, migrations[..|migrations| - 1], h)
      + if last.destination == h && last.vm < |p.vms| then p.vms[last.vm].cpu else 0
  }

  function MemoryOf(p: Park, migrations: seq<Migration>, h: nat): int
    requires h < |p.memoryFree|
  {
    if migrations == [] then p.memoryFree[h]
    else
      var last := migrations[|migrations| - 1];
      MemoryOf(p, migrations[..|migrations| - 1], h)
      - if last.destination == h && last.vm < |p.vms| then p.vms[last.vm].memory else 0
  }

  ghost predicate Exists(p: Park, m: Migration) {
    m.vm < |p.vms| && m.source < p.N() && m.destination < p.N() && m.source != m.destination
  }

  /**
   * A migration the plan may make: from a host a virtual CPU or more above its share, which it leaves
   * less than one below, to a host below its share, which it leaves less than one above and with enough
   * CPU and memory.
   */
  ghost predicate Step(p: Park, done: seq<Migration>, m: Migration)
    requires p.Sized()
  {
    var before := Apply(p.containers, done);
    && Exists(p, m) && p.vms[m.vm].movable && before[m.vm] == m.source
    && Excess(Load(p.vms, before, m.source), p.cpus[m.source], p.ideal) >= 1.0
    && Excess(Load(p.vms, before, m.destination), p.cpus[m.destination], p.ideal) < 0.0
    && var after := before[m.vm := m.destination];
    && Excess(Load(p.vms, after, m.source), p.cpus[m.source], p.ideal) > -1.0
    && Excess(Load(p.vms, after, m.destination), p.cpus[m.destination], p.ideal) < 1.0
    && CpuOf(p, done, m.destination) + p.vms[m.vm].cpu < p.lowCpu
    && MemoryOf(p, done, m.destination) - p.vms[m.vm].memory > p.lowMemory
  }

  ghost predicate Run(p: Park, migrations: seq<Migration>)
    requires p.Sized()
  {
    forall i | 0 <= i < |migrations| :: Step(p, migrations[..i], migrations[i])
  }

  lemma RunPrefix(p: Park, migrations: seq<Migration>, n: nat)
    requires p.Sized() && Run(p, migrations) && n < |migrations|
    ensures Run(p, migrations[..n]) && Step(p, migrations[..n], migrations[n])
    ensures Apply(p.containers, migrations[..n + 1])
      == Apply(p.containers, migrations[..n])[migrations[n].vm := migrations[n].destination]
  {
    forall i | 0 <= i < n ensures Step(p, migrations[..n][..i], migrations[..n][i]) {
      assert migrations[..n][..i] == migrations[..i];
    }
    assert migrations[..n + 1][..n] == migrations[..n];
  }

  lemma RunExtended(p: Park, migrations: seq<Migration>, m: Migration)
    requires p.Sized() && Run(p, migrations) && Step(p, migrations, m)
    ensures Run(p, migrations + [m])
  {
    var more := migrations + [m];
    forall i | 0 <= i < |more| ensures Step(p, more[..i], more[i]) {
      assert more[..i] == migrations[..i];
      assert migrations[..|migrations|] == migrations;
    }
  }

  lemma {:induction false} MoveTotals(p: Park, placement: seq<nat>, m: Migration, k: nat)
    requires p.Sized() && Exists(p, m) && |placement| == |p.vms| && placement[m.vm] == m.source && k <= p.N()
    ensures TotalLoad(p.vms, placement[m.vm := m.destination], k)
      == TotalLoad(p.vms, placement, k) - Share(p.vms[m.vm], 0, if m.source < k then 0 else 1)
         + Share(p.vms[m.vm], 0, if m.destination < k then 0 else 1)
  {
    if k > 0 {
      MoveTotals(p, placement, m, k - 1);
      LoadMoved(p.vms, placement, m.vm, m.destination, k - 1);
    }
  }

  /** No run changes the number of virtual CPUs. */
  lemma {:induction false} RunConserves(p: Park, migrations: seq<Migration>)
    requires p.Sized() && Run(p, migrations)
    ensures TotalLoad(p.vms, Apply(p.containers, migrations), p.N()) == TotalLoad(p.vms, p.containers, p.N())
  {
    if migrations != [] {
      var n := |migrations| - 1;
      RunPrefix(p, migrations, n);
      assert migrations[..n + 1] == migrations;
      RunConserves(p, migrations[..n]);
      MoveTotals(p, Apply(p.containers, migrations[..n]), migrations[n], p.N());
    }
  }

  /** Not farther from the ideal than before, but for less than one virtual CPU. */
  ghost predicate Nearer(before: real, after: real) {
    (after >= before || after > -1.0) && (after <= before || after < 1.0)
  }

  lemma StepNearer(p: Park, done: seq<Migration>, m: Migration, h: nat)
    requires p.Sized() && Step(p, done, m) && h < p.N()
    ensures var before := Apply(p.containers, done);
      var x, x' := Excess(Load(p.vms, before, h), p.cpus[h], p.ideal),
                   Excess(Load(p.vms, before[m.vm := m.destination], h), p.cpus[h], p.ideal);
      (x' == x || (h == m.source && -1.0 < x' <= x) || (h == m.destination && x <= x' < 1.0))
  {
    LoadMoved(p.vms, Apply(p.containers, done), m.vm, m.destination, h);
  }

  /** A run takes no host farther from its ideal share, but for less than one virtual CPU. */
  lemma {:induction false} RunNearer(p: Park, migrations: seq<Migration>, h: nat)
    requires p.Sized() && Run(p, migrations) && h < p.N()
    ensures Nearer(Excess(Load(p.vms, p.containers, h), p.cpus[h], p.ideal),
                   Excess(Load(p.vms, Apply(p.containers, migrations), h), p.cpus[h], p.ideal))
  {
    if migrations != [] {
      var n := |migrations| - 1;
      RunPrefix(p, migrations, n);
      assert migrations[..n + 1] == migrations;
      RunNearer(p, migrations[..n], h);
      StepNearer(p, migrations[..n], migrations[n], h);
    }
  }

  /** What a move changes in the imbalance of the first `k` hosts. */
  lemma {:induction false} MoveImbalance(p: Park, placement: seq<nat>, m: Migration, k: nat)
    requires p.Sized() && Exists(p, m) && |placement| == |p.vms| && placement[m.vm] == m.source && k <= p.N()
    ensures var after := placement[m.vm := m.destination];
      Imbalance(p, after, k) == Imbalance(p, placement, k)
        + (if m.source < k then Change(p, placement, after, m.source) else 0.0)
        + (if m.destination < k then Change(p, placement, after, m.destination) else 0.0)
  {
    if k > 0 {
      hide Square, Excess;
      MoveImbalance(p, placement, m, k - 1);
      LoadMoved(p.vms, placement, m.vm, m.destination, k - 1);
    }
  }

  function Change(p: Park, placement: seq<nat>, after: seq<nat>, h: nat): real
    requires h < p.N() && |placement| <= |p.vms| && |after| <= |p.vms|
  {
    Square(Excess(Load(p.vms, after, h), p.cpus[h], p.ideal))
      - Square(Excess(Load(p.vms, placement, h), p.cpus[h], p.ideal))
  }

  lemma StepImproves(p: Park, done: seq<Migration>, m: Migration)
    requires p.Sized() && Step(p, done, m)
    ensures var before := Apply(p.containers, done);
      var after := before[m.vm := m.destination];
      && Imbalance(p, after, p.N()) <= Imbalance(p, before, p.N())
      && (p.vms[m.vm].vcpus > 0 ==> Imbalance(p, after, p.N()) < Imbalance(p, before, p.N()))
  {
    hide Imbalance;
    var before, k := Apply(p.containers, done), p.vms[m.vm].vcpus;
    LoadMoved(p.vms, before, m.vm, m.destination, m.source);
    LoadMoved(p.vms, before, m.vm, m.destination, m.destination);
    MoveImbalance(p, before, m, p.N());
    NearerSquares(Excess(Load(p.vms, before, m.source), p.cpus[m.source], p.ideal),
                  Excess(Load(p.vms, before, m.destination), p.cpus[m.destination], p.ideal), k as real);
  }

  /** Every machine has a virtual CPU. */
  ghost predicate AllWeigh(vms: seq<Machine>) { forall v | 0 <= v < |vms| :: vms[v].vcpus > 0 }

  /** Each migration lowers the sum of the squared distances to the ideal shares. */
  lemma {:induction false} RunImproves(p: Park, migrations: seq<Migration>)
    requires p.Sized() && Run(p, migrations)
    ensures Imbalance(p, Apply(p.containers, migrations), p.N()) <= Imbalance(p, p.containers, p.N())
    ensures migrations != [] && AllWeigh(p.vms)
      ==> Imbalance(p, Apply(p.containers, migrations), p.N()) < Imbalance(p, p.containers, p.N())
  {
    if migrations != [] {
      hide Imbalance, Run;
      var n := |migrations| - 1;
      RunPrefix(p, migrations, n);
      assert migrations[..n + 1] == migrations;
      RunImproves(p, migrations[..n]);
      StepImproves(p, migrations[..n], migrations[n]);
    }
  }

  // ----- the plan's state -------------------------------------------------------------------------------------

  datatype State = State(
    vcpuCount: seq<nat>,
    left: seq<seq<nat>>,
    cpuAverage: seq<int>,
    memoryFree: seq<int>,
    migrations: seq<Migration>
  )

  ghost predicate Shaped(p: Park, w: State) {
    p.Sized() && |w.vcpuCount| == |w.left| == |w.cpuAverage| == |w.memoryFree| == p.N()
  }

  function X(p: Park, w: State, h: nat): real
    requires h < |w.vcpuCount| && h < |p.cpus|
  {
    Excess(w.vcpuCount[h], p.cpus[h], p.ideal)
  }

  ghost predicate Tracks(p: Park, w: State, placement: seq<nat>, h: nat)
    requires Shaped(p, w) && |placement| == |p.vms| && h < p.N()
  {
    && w.vcpuCount[h] == Load(p.vms, placement, h)
    && w.cpuAverage[h] == CpuOf(p, w.migrations, h) && w.memoryFree[h] == MemoryOf(p, w.migrations, h)
  }

  /** `host.vms`: movable machines, each once. */
  ghost predicate Own(p: Park, machines: seq<nat>) {
    && (forall v | v in machines :: v < |p.vms| && p.vms[v].movable)
    && (forall i, j | 0 <= i < j < |machines| :: machines[i] != machines[j])
  }

  ghost predicate ValidState(p: Park, w: State, placement: seq<nat>, moved: set<nat>) {
    && Shaped(p, w) && |placement| == |p.vms|
    && History(p.containers, w.migrations, placement, moved) && Run(p, w.migrations)
    && Candidates(w.left, placement, moved, p.N())
    && (forall h | 0 <= h < p.N() :: Own(p, w.left[h]) && Ascending(w.left[h]) && Tracks(p, w, placement, h))
  }

  ghost predicate Acceptable(p: Park, w: State, v: nat, s: nat, d: nat)
    requires Shaped(p, w)
  {
    && v < |p.vms| && s < p.N() && d < p.N() && s != d && v in w.left[s]
    && X(p, w, s) >= TOLERANCE && X(p, w, d) < 0.0
    && p.vms[v].vcpus <= Ceil(Min(X(p, w, s), -X(p, w, d)))
    && w.cpuAverage[d] + p.vms[v].cpu < p.lowCpu && w.memoryFree[d] - p.vms[v].memory > p.lowMemory
  }

  ghost function AfterMove(p: Park, w: State, v: nat, s: nat, d: nat): (w': State)
    requires Shaped(p, w) && v < |p.vms| && s < p.N() && d < p.N() && s != d && p.vms[v].vcpus <= w.vcpuCount[s]
    ensures Shaped(p, w')
  {
    var vm := p.vms[v];
    State(w.vcpuCount[s := w.vcpuCount[s] - vm.vcpus][d := w.vcpuCount[d] + vm.vcpus],
          w.left[s := Without(w.left[s], v)],
          w.cpuAverage[d := w.cpuAverage[d] + vm.cpu], w.memoryFree[d := w.memoryFree[d] - vm.memory],
          w.migrations + [Migration(v, s, d)])
  }

  lemma MoverFacts(p: Park, w: State, placement: seq<nat>, moved: set<nat>, v: nat, s: nat, d: nat)
    requires ValidState(p, w, placement, moved) && Acceptable(p, w, v, s, d)
    ensures placement[v] == s && v !in moved && p.vms[v].movable && placement == Apply(p.containers, w.migrations)
    ensures p.vms[v].vcpus <= w.vcpuCount[s] && Tracks(p, w, placement, s) && Tracks(p, w, placement, d)
    ensures Own(p, w.left[s])
  {
    assert StillAt(w.left[s], placement, moved, s);
    LoadMoved(p.vms, placement, v, d, s);
  }

  lemma IsStep(p: Park, w: State, placement: seq<nat>, moved: set<nat>, v: nat, s: nat, d: nat)
    requires ValidState(p, w, placement, moved) && Acceptable(p, w, v, s, d)
    ensures Step(p, w.migrations, Migration(v, s, d))
  {
    hide Load, CpuOf, MemoryOf, History, Candidates, Run, Own, Ceil, Min, Apply;
    MoverFacts(p, w, placement, moved, v, s, d);
    LoadMoved(p.vms, placement, v, d, s);
    LoadMoved(p.vms, placement, v, d, d);
    RoundedMove(X(p, w, s), X(p, w, d), p.vms[v].vcpus);
  }

  lemma StillTracks(p: Park, w: State, placement: seq<nat>, v: nat, s: nat, d: nat, h: nat)
    requires Shaped(p, w) && |placement| == |p.vms| && h < p.N() && Tracks(p, w, placement, h)
    requires v < |p.vms| && s < p.N() && d < p.N() && s != d && p.vms[v].vcpus <= w.vcpuCount[s] && placement[v] == s
    ensures Tracks(p, AfterMove(p, w, v, s, d), placement[v := d], h)
  {
    var more := w.migrations + [Migration(v, s, d)];
    assert more[..|more| - 1] == w.migrations;
    LoadMoved(p.vms, placement, v, d, h);
  }

  lemma {:induction false} FilterOwn(items: seq<nat>, keep: nat -> bool)
    requires forall i, j | 0 <= i < j < |items| :: items[i] != items[j]
    ensures forall i, j | 0 <= i < j < |Filter(items, keep)| :: Filter(items, keep)[i] != Filter(items, keep)[j]
  {
    if items != [] {
      FilterOwn(items[..|items| - 1], keep);
    }
  }

  lemma MoveKept(p: Park, w: State, placement: seq<nat>, moved: set<nat>, v: nat, s: nat, d: nat)
    requires ValidState(p, w, placement, moved) && Acceptable(p, w, v, s, d)
    ensures p.vms[v].vcpus <= w.vcpuCount[s]
    ensures ValidState(p, AfterMove(p, w, v, s, d), placement[v := d], moved + {v})
  {
    hide Run, History, Candidates, Tracks, Step, Without, Own;
    MoverFacts(p, w, placement, moved, v, s, d);
    IsStep(p, w, placement, moved, v, s, d);
    RunExtended(p, w.migrations, Migration(v, s, d));
    HistoryGrows(p.containers, w.migrations, placement, moved, v, d);
    CandidatesKept(w.left, placement, moved, p.N(), v, s, d);
    OwnWithout(p, w.left[s], v);
    var w', placement' := AfterMove(p, w, v, s, d), placement[v := d];
    forall h | 0 <= h < p.N() ensures Tracks(p, w', placement', h) {
      StillTracks(p, w, placement, v, s, d, h);
    }
  }

  lemma OwnWithout(p: Park, machines: seq<nat>, v: nat)
    requires Own(p, machines) && Ascending(machines)
    ensures Own(p, Without(machines, v)) && Ascending(Without(machines, v))
  {
    FilterOwn(machines, x => x != v);
  }

  // ----- when nothing refuses -----------------------------------------------------------------------------------

  /** Every machine has one virtual CPU and may move. */
  ghost predicate Single(p: Park) {
    forall v | 0 <= v < |p.vms| :: p.vms[v].vcpus == 1 && p.vms[v].movable && p.vms[v].cpu >= 0 && p.vms[v].memory >= 0
  }

  function CpuLeft(p: Park, moved: set<nat>): int {
    Remaining(seq(|p.vms|, v requires 0 <= v < |p.vms| => p.vms[v].cpu), moved)
  }

  function MemoryToGo(p: Park, moved: set<nat>): int {
    Remaining(seq(|p.vms|, v requires 0 <= v < |p.vms| => p.vms[v].memory), moved)
  }

  /** The host has CPU and memory for all the machines that have not moved. */
  ghost predicate Roomy(p: Park, moved: set<nat>, cpuAverage: int, memoryFree: int) {
    cpuAverage + CpuLeft(p, moved) < p.lowCpu && memoryFree - MemoryToGo(p, moved) > p.lowMemory >= 0
  }

  ghost predicate AllHere(placement: seq<nat>, machines: seq<nat>, h: nat) {
    forall v: nat | v < |placement| && placement[v] == h :: v in machines
  }

  /** Every host has room for what may come, and one that is above its share still has its first machines only. */
  ghost predicate Easy(p: Park, w: State, placement: seq<nat>, moved: set<nat>)
    requires Shaped(p, w)
  {
    && Single(p)
    && (forall h | 0 <= h < p.N() :: Roomy(p, moved, w.cpuAverage[h], w.memoryFree[h]))
    && (forall h: nat | h < p.N() && X(p, w, h) >= TOLERANCE :: AllHere(placement, w.left[h], h))
  }

  lemma LessLeft(p: Park, moved: set<nat>, v: nat)
    requires Single(p) && v !in moved && v < |p.vms|
    ensures CpuLeft(p, moved + {v}) == CpuLeft(p, moved) - p.vms[v].cpu && CpuLeft(p, moved) >= p.vms[v].cpu
    ensures MemoryToGo(p, moved + {v}) == MemoryToGo(p, moved) - p.vms[v].memory
    ensures MemoryToGo(p, moved) >= p.vms[v].memory
  {
    RemainingMoved(seq(|p.vms|, u requires 0 <= u < |p.vms| => p.vms[u].cpu), moved, v);
    RemainingMoved(seq(|p.vms|, u requires 0 <= u < |p.vms| => p.vms[u].memory), moved, v);
  }

  lemma EasyKept(p: Park, w: State, placement: seq<nat>, moved: set<nat>, v: nat, s: nat, d: nat)
    requires ValidState(p, w, placement, moved) && Acceptable(p, w, v, s, d) && p.vms[v].vcpus <= w.vcpuCount[s]
    requires Easy(p, w, placement, moved)
    ensures Easy(p, AfterMove(p, w, v, s, d), placement[v := d], moved + {v})
  {
    hide History, Run, Candidates, Tracks, Remaining;
    MoverFacts(p, w, placement, moved, v, s, d);
    LessLeft(p, moved, v);
    RoundedMove(X(p, w, s), X(p, w, d), 1);
    forall h: nat | h < p.N() && X(p, AfterMove(p, w, v, s, d), h) >= TOLERANCE
      ensures AllHere(placement[v := d], AfterMove(p, w, v, s, d).left[h], h)
    {
      assert AllHere(placement, w.left[h], h);
    }
  }

  /** In such a state any machine may go from a host above its share to one below. */
  lemma EasyAcceptable(p: Park, w: State, placement: seq<nat>, moved: set<nat>, v: nat, s: nat, d: nat)
    requires ValidState(p, w, placement, moved) && Easy(p, w, placement, moved)
    requires s < p.N() && d < p.N() && s != d && v in w.left[s] && X(p, w, s) >= TOLERANCE && X(p, w, d) < 0.0
    ensures Acceptable(p, w, v, s, d) && w.cpuAverage[d] <= p.lowCpu && w.memoryFree[d] >= p.lowMemory
    ensures w.memoryFree[d] >= p.vms[v].memory
  {
    assert StillAt(w.left[s], placement, moved, s);
    hide History, Run, Candidates, Tracks, Remaining;
    LessLeft(p, moved, v);
  }

  // ----- the shares ------------------------------------------------------------------------------------------------

  /** The ideal ratio is that of all the virtual CPUs to all the CPUs. */
  ghost predicate IsIdeal(p: Park) {
    |p.containers| <= |p.vms| && TotalLoad(p.vms, p.containers, p.N()) as real
      == p.ideal * TotalCpus(p.cpus, p.N()) as real
  }

  function TotalExcess(p: Park, w: State, k: nat): real
    requires Shaped(p, w) && k <= p.N()
  {
    if k == 0 then 0.0 else TotalExcess(p, w, k - 1) + X(p, w, k - 1)
  }

  lemma {:induction false} ExcessSum(p: Park, w: State, placement: seq<nat>, k: nat)
    requires Shaped(p, w) && k <= p.N() && |placement| == |p.vms|
    requires forall h | 0 <= h < p.N() :: Tracks(p, w, placement, h)
    ensures TotalExcess(p, w, k) == TotalLoad(p.vms, placement, k) as real - p.ideal * TotalCpus(p.cpus, k) as real
  {
    if k > 0 {
      ExcessSum(p, w, placement, k - 1);
      assert Tracks(p, w, placement, k - 1);
      var a, b := TotalCpus(p.cpus, k - 1) as real, p.cpus[k - 1] as real;
      assert TotalCpus(p.cpus, k) as real == a + b;
      assert p.ideal * (a + b) == p.ideal * a + b * p.ideal;
    }
  }

  lemma {:induction false} NoneNegative(p: Park, w: State, s: nat, k: nat)
    requires Shaped(p, w) && k <= p.N() && s < p.N() && X(p, w, s) >= TOLERANCE
    requires forall h: nat | h < p.N() && h != s :: X(p, w, h) >= 0.0
    ensures TotalExcess(p, w, k) >= if s < k then TOLERANCE else 0.0
  {
    if k > 0 {
      NoneNegative(p, w, s, k - 1);
    }
  }

  lemma ExcessIsZero(p: Park, w: State, placement: seq<nat>, moved: set<nat>)
    requires ValidState(p, w, placement, moved) && IsIdeal(p)
    ensures Shaped(p, w) && TotalExcess(p, w, p.N()) == 0.0
  {
    hide Run, TotalLoad, TotalCpus, TotalExcess, Tracks, Candidates, Apply, Own;
    RunConserves(p, w.migrations);
    ExcessSum(p, w, placement, p.N());
  }

  /** While a host is above its share, another one is below. */
  lemma SomeBelow(p: Park, w: State, placement: seq<nat>, moved: set<nat>, s: nat)
    requires ValidState(p, w, placement, moved) && IsIdeal(p) && s < p.N() && X(p, w, s) >= TOLERANCE
    ensures exists h: nat :: h < p.N() && h != s && X(p, w, h) < 0.0
  {
    hide ValidState, TotalLoad, TotalCpus, IsIdeal, TotalExcess, X;
    ExcessIsZero(p, w, placement, moved);
    if forall h: nat | h < p.N() && h != s :: X(p, w, h) >= 0.0 {
      NoneNegative(p, w, s, p.N());
    }
  }

  /** Each host gets nearer to its share, but for less than one virtual CPU. */
  ghost predicate Calmer(p: Park, w: State, w': State)
    requires Shaped(p, w) && Shaped(p, w')
  {
    forall h: nat | h < p.N() :: Nearer(X(p, w, h), X(p, w', h))
  }

  /** Only `s` gives. */
  ghost predicate OthersRise(p: Park, w: State, w': State, s: nat)
    requires Shaped(p, w) && Shaped(p, w')
  {
    forall h: nat | h < p.N() && h != s :: X(p, w', h) >= X(p, w, h)
  }

  lemma MoveCalms(p: Park, w: State, placement: seq<nat>, moved: set<nat>, v: nat, s: nat, d: nat)
    requires ValidState(p, w, placement, moved) && Acceptable(p, w, v, s, d) && p.vms[v].vcpus <= w.vcpuCount[s]
    ensures Calmer(p, w, AfterMove(p, w, v, s, d)) && OthersRise(p, w, AfterMove(p, w, v, s, d), s)
  {
    RoundedMove(X(p, w, s), X(p, w, d), p.vms[v].vcpus);
  }

  lemma CalmerStill(p: Park, a: State, b: State, c: State, s: nat)
    requires Shaped(p, a) && Shaped(p, b) && Shaped(p, c)
    ensures Calmer(p, a, a) && OthersRise(p, a, a, s)
    ensures Calmer(p, a, b) && Calmer(p, b, c) ==> Calmer(p, a, c)
    ensures OthersRise(p, a, b, s) && OthersRise(p, b, c, s) ==> OthersRise(p, a, c, s)
  {
  }

  /** A host that has given all its machines has nothing left. */
  lemma NothingToGive(p: Park, w: State, placement: seq<nat>, moved: set<nat>, s: nat)
    requires ValidState(p, w, placement, moved) && Easy(p, w, placement, moved) && s < p.N() && X(p, w, s) >= TOLERANCE
    ensures w.left[s] != []
  {
    assert AllHere(placement, w.left[s], s) && Tracks(p, w, placement, s);
    if w.left[s] == [] {
      NoLoad(p.vms, placement, s);
    }
  }

  // ----- when nothing more can move -----------------------------------------------------------------------------

  /** No usage is negative, nor is the memory to keep free. */
  ghost predicate Ordinary(p: Park) {
    p.lowMemory >= 0 && forall v | 0 <= v < |p.vms| :: p.vms[v].cpu >= 0 && p.vms[v].memory >= 0
  }

  /** Hosts have no machine, no memory and no CPU time that they had not before, in the ordinary case. */
  ghost predicate Shrinks(p: Park, w: State, w': State)
    requires Shaped(p, w) && Shaped(p, w')
  {
    Ordinary(p) ==> forall h: nat | h < p.N() ::
      && (forall v | v in w'.left[h] :: v in w.left[h])
      && w'.cpuAverage[h] >= w.cpuAverage[h] && w'.memoryFree[h] <= w.memoryFree[h]
  }

  lemma MoveShrinks(p: Park, w: State, v: nat, s: nat, d: nat)
    requires Shaped(p, w) && v < |p.vms| && s < p.N() && d < p.N() && s != d && p.vms[v].vcpus <= w.vcpuCount[s]
    ensures Shrinks(p, w, AfterMove(p, w, v, s, d))
  {
  }

  lemma ShrinksStill(p: Park, a: State, b: State, c: State)
    requires Shaped(p, a) && Shaped(p, b) && Shaped(p, c)
    ensures Shrinks(p, a, a) && (Shrinks(p, a, b) && Shrinks(p, b, c) ==> Shrinks(p, a, c))
  {
  }

  /** Unless its destination has given machines away, a migration that is acceptable now was so before. */
  lemma WasAcceptable(p: Park, w: State, w': State, v: nat, s: nat, d: nat)
    requires Shaped(p, w) && Shaped(p, w') && Calmer(p, w, w') && Ordinary(p) && Shrinks(p, w, w')
    requires Acceptable(p, w', v, s, d) && X(p, w', d) >= X(p, w, d)
    ensures Acceptable(p, w, v, s, d)
  {
    assert Nearer(X(p, w, s), X(p, w', s));
  }

  /** No machine of `s` is acceptable for `d`, in the ordinary case. */
  ghost predicate Refused(p: Park, w: State, s: nat, d: nat)
    requires Shaped(p, w)
  {
    Ordinary(p) ==> forall v: nat :: !Acceptable(p, w, v, s, d)
  }

  ghost predicate NoneFrom(p: Park, w: State, s: nat)
    requires Shaped(p, w)
  {
    forall d: nat :: Refused(p, w, s, d)
  }

  /** Of the machines of `s` only those from `i` on may still be acceptable for `d`. */
  ghost predicate RefusedBut(p: Park, w: State, s: nat, d: nat, fitting: seq<nat>, i: nat)
    requires Shaped(p, w)
  {
    Ordinary(p) ==> forall v: nat | Acceptable(p, w, v, s, d) :: exists j :: i <= j < |fitting| && fitting[j] == v
  }

  lemma FittingAcceptable(p: Park, w: State, s: nat, d: nat, fitting: seq<nat>, delta: int)
    requires Shaped(p, w) && s < p.N() && d < p.N() && delta == Ceil(Min(X(p, w, s), -X(p, w, d)))
    requires Own(p, w.left[s]) && forall v ::
      v in fitting <==> v in w.left[s] && w.memoryFree[d] >= p.vms[v].memory && p.vms[v].vcpus <= delta
    ensures RefusedBut(p, w, s, d, fitting, 0)
  {
    hide Ceil, Min, X, Excess;
    if Ordinary(p) {
      forall v: nat | Acceptable(p, w, v, s, d) ensures exists j :: 0 <= j < |fitting| && fitting[j] == v {
        assert v in fitting;
      }
    }
  }

  lemma NextRefused(p: Park, w: State, w': State, s: nat, d: nat, fitting: seq<nat>, i: nat, migrated: bool)
    requires Shaped(p, w) && Shaped(p, w') && s < p.N() && d < p.N() && s != d && i < |fitting|
    requires Calmer(p, w, w') && Shrinks(p, w, w') && OthersRise(p, w, w', s) && RefusedBut(p, w, s, d, fitting, i)
    requires if migrated then w'.left[s] == Without(w.left[s], fitting[i])
      else w' == w && !Acceptable(p, w, fitting[i], s, d)
    ensures RefusedBut(p, w', s, d, fitting, i + 1)
  {
    hide Calmer, Shrinks, Acceptable;
    if Ordinary(p) {
      forall v: nat | Acceptable(p, w', v, s, d) ensures exists j :: i + 1 <= j < |fitting| && fitting[j] == v {
        AcceptableIsLeft(p, w', v, s, d);
        WasAcceptable(p, w, w', v, s, d);
        var j :| i <= j < |fitting| && fitting[j] == v;
      }
    }
  }

  lemma NoneRefusedBut(p: Park, w: State, s: nat, d: nat, fitting: seq<nat>)
    requires Shaped(p, w) && RefusedBut(p, w, s, d, fitting, |fitting|)
    ensures Refused(p, w, s, d)
  {
  }

  lemma AcceptableIsLeft(p: Park, w: State, v: nat, s: nat, d: nat)
    requires Shaped(p, w) && Acceptable(p, w, v, s, d)
    ensures s < p.N() && d < p.N() && s != d && v in w.left[s] && X(p, w, s) >= TOLERANCE && X(p, w, d) < 0.0
  {
  }

  lemma FullRefuses(p: Park, w: State, s: nat, d: nat)
    requires Shaped(p, w) && d < p.N() && s < p.N()
    requires X(p, w, d) >= 0.0 || w.cpuAverage[d] > p.lowCpu || w.memoryFree[d] < p.lowMemory
    ensures Refused(p, w, s, d)
  {
  }

  lemma CalmRefuses(p: Park, w: State, s: nat)
    requires Shaped(p, w) && s < p.N() && X(p, w, s) < TOLERANCE
    ensures NoneFrom(p, w, s)
  {
  }

  ghost predicate AllRefuse(p: Park, w: State, s: nat, ds: seq<nat>, i: nat)
    requires Shaped(p, w) && i <= |ds|
  {
    forall j | 0 <= j < i :: Refused(p, w, s, ds[j])
  }

  lemma NoneRefuses(p: Park, w: State, s: nat, ds: seq<nat>)
    requires Shaped(p, w)
    ensures AllRefuse(p, w, s, ds, 0)
  {
  }

  lemma StillRefused(p: Park, w: State, w': State, s: nat, giver: nat, d: nat)
    requires Shaped(p, w) && Shaped(p, w') && d < p.N() && d != giver
    requires Calmer(p, w, w') && Shrinks(p, w, w') && OthersRise(p, w, w', giver) && Refused(p, w, s, d)
    ensures Refused(p, w', s, d)
  {
    hide Calmer, Shrinks, Acceptable;
    if Ordinary(p) {
      forall v: nat ensures !Acceptable(p, w', v, s, d) {
        if Acceptable(p, w', v, s, d) {
          WasAcceptable(p, w, w', v, s, d);
        }
      }
    }
  }

  lemma NextRefuses(p: Park, w: State, w': State, s: nat, ds: seq<nat>, i: nat)
    requires Shaped(p, w) && Shaped(p, w') && i < |ds| && forall j | 0 <= j < |ds| :: ds[j] < p.N() && ds[j] != s
    requires Calmer(p, w, w') && Shrinks(p, w, w') && OthersRise(p, w, w', s) && AllRefuse(p, w, s, ds, i)
    ensures Refused(p, w', s, ds[i]) ==> AllRefuse(p, w', s, ds, i + 1)
  {
    hide Calmer, Shrinks, OthersRise, Refused;
    forall j | 0 <= j < i ensures Refused(p, w', s, ds[j]) {
      StillRefused(p, w, w', s, s, ds[j]);
    }
  }

  lemma AllRefused(p: Park, w: State, w': State, s: nat, ds: seq<nat>)
    requires Shaped(p, w) && Shaped(p, w') && s < p.N() && OthersRise(p, w, w', s)
    requires forall d: nat :: d in ds <==> d < p.N() && d != s && X(p, w, d) < 0.0
    requires AllRefuse(p, w', s, ds, |ds|)
    ensures NoneFrom(p, w', s)
  {
    hide Acceptable;
    forall d: nat ensures Refused(p, w', s, d) {
      if d in ds {
        var j :| 0 <= j < |ds| && ds[j] == d;
      } else {
        forall v: nat ensures !Acceptable(p, w', v, s, d) {
          if Acceptable(p, w', v, s, d) {
            AcceptableIsLeft(p, w', v, s, d);
          }
        }
      }
    }
  }

  /** No move of the first `i` sources is acceptable but to hosts that were themselves above their share in `start`. */
  ghost predicate NoneBut(p: Park, start: State, w: State, sources: seq<nat>, i: nat)
    requires Shaped(p, start) && Shaped(p, w) && i <= |sources|
  {
    forall j, d: nat | 0 <= j < i && d < p.N() && X(p, start, d) < TOLERANCE :: Refused(p, w, sources[j], d)
  }

  lemma StillNone(p: Park, start: State, w: State, w': State, sources: seq<nat>, i: nat)
    requires Shaped(p, start) && Shaped(p, w) && Shaped(p, w') && i < |sources| && sources[i] < p.N()
    requires X(p, start, sources[i]) >= TOLERANCE && NoneFrom(p, w', sources[i])
    requires Calmer(p, w, w') && Shrinks(p, w, w') && OthersRise(p, w, w', sources[i])
    requires NoneBut(p, start, w, sources, i)
    ensures NoneBut(p, start, w', sources, i + 1)
  {
    hide Calmer, Shrinks, OthersRise, X, Refused;
    forall j, d: nat | 0 <= j < i + 1 && d < p.N() && X(p, start, d) < TOLERANCE
      ensures Refused(p, w', sources[j], d)
    {
      if j < i {
        StillRefused(p, w, w', sources[j], sources[i], d);
      }
    }
  }

  /** Hosts that are not sources do not give. */
  ghost predicate OnlyGive(p: Park, start: State, w: State, sources: seq<nat>)
    requires Shaped(p, start) && Shaped(p, w)
  {
    forall h: nat | h < p.N() && h !in sources :: X(p, w, h) >= X(p, start, h)
  }

  lemma NextGive(p: Park, start: State, w: State, w': State, sources: seq<nat>, i: nat)
    requires Shaped(p, start) && Shaped(p, w) && Shaped(p, w')
    ensures OnlyGive(p, start, start, sources) && NoneBut(p, start, start, sources, 0)
    ensures i < |sources| && OnlyGive(p, start, w, sources) && OthersRise(p, w, w', sources[i])
      ==> OnlyGive(p, start, w', sources)
  {
  }

  /**
   * What is still acceptable takes a machine from a host with no more virtual CPUs than CPUs, or one of at most one
   * virtual CPU to a host that was above its share at first.
   */
  ghost predicate NothingMore(p: Park, start: State, w: State)
    requires Shaped(p, start) && Shaped(p, w)
  {
    forall v: nat, s: nat, d: nat | Acceptable(p, w, v, s, d) ::
      w.vcpuCount[s] <= p.cpus[s] || (X(p, start, d) >= TOLERANCE && p.vms[v].vcpus <= 1)
  }

  lemma EndsSo(p: Park, start: State, w: State, sources: seq<nat>)
    requires Shaped(p, start) && Shaped(p, w) && Calmer(p, start, w) && OnlyGive(p, start, w, sources)
    requires forall s: nat ::
      s in sources <==> s < p.N() && X(p, start, s) >= TOLERANCE && start.vcpuCount[s] > p.cpus[s]
    requires Ordinary(p) && NoneBut(p, start, w, sources, |sources|)
    ensures NothingMore(p, start, w)
  {
    forall v: nat, s: nat, d: nat | Acceptable(p, w, v, s, d)
      ensures w.vcpuCount[s] <= p.cpus[s] || (X(p, start, d) >= TOLERANCE && p.vms[v].vcpus <= 1)
    {
      assert Nearer(X(p, start, s), X(p, w, s)) && Nearer(X(p, start, d), X(p, w, d));
      if s in sources {
        var j :| 0 <= j < |sources| && sources[j] == s;
        assert !Refused(p, w, sources[j], d);
      }
    }
  }

  // ----- choosing hosts and machines --------------------------------------------------------------------------------

  function Ratio(vcpus: nat, cpus: nat): real
    requires cpus > 0
  {
    vcpus as real / cpus as real
  }

  /** A host is a virtual CPU or more above its share if and only if without it the ratio is no lower than the ideal. */
  lemma RatioIsExcess(vcpus: nat, cpus: nat, ideal: real)
    requires cpus > 0
    ensures (vcpus as real - TOLERANCE) / cpus as real >= ideal <==> Excess(vcpus, cpus, ideal) >= TOLERANCE
    ensures Ratio(vcpus, cpus) < ideal <==> Excess(vcpus, cpus, ideal) < 0.0
  {
    var c, a, b := cpus as real, vcpus as real - TOLERANCE, vcpus as real;
    var q, r := a / c, b / c;
    assert q * c == a && r * c == b;
    assert q >= ideal ==> (q - ideal) * c >= 0.0;
    assert q < ideal ==> (ideal - q) * c > 0.0;
    assert r >= ideal ==> (r - ideal) * c >= 0.0;
    assert r < ideal ==> (ideal - r) * c > 0.0;
  }

  /** Whether `a` comes before `b` as a source: more virtual CPUs to a CPU, then less memory free. */
  predicate SourceBefore(p: Park, w: State, a: nat, b: nat)
    requires Shaped(p, w) && a < p.N() && b < p.N()
  {
    var x, y := w.vcpuCount[a] as real / p.cpus[a] as real, w.vcpuCount[b] as real / p.cpus[b] as real;
    x > y || (x == y && (w.memoryFree[a] < w.memoryFree[b] || (w.memoryFree[a] == w.memoryFree[b] && a < b)))
  }

  function SourceKey(p: Park, w: State, h: nat): Key
    requires Shaped(p, w)
  {
    if h < p.N() then Key(-Ratio(w.vcpuCount[h], p.cpus[h]), w.memoryFree[h] as real, 0.0) else Key(0.0, 0.0, 0.0)
  }

  lemma SourceOrder(p: Park, w: State, a: nat, b: nat)
    requires Shaped(p, w) && a < p.N() && b < p.N() && NoLater(SourceKey(p, w, a), SourceKey(p, w, b))
    requires SourceKey(p, w, a) == SourceKey(p, w, b) ==> a < b
    ensures SourceBefore(p, w, a, b)
  {
    assert Ratio(w.vcpuCount[a], p.cpus[a]) == w.vcpuCount[a] as real / p.cpus[a] as real;
  }

  lemma SourcesInOrder(p: Park, w: State, ss: seq<nat>, key: nat -> Key)
    requires Shaped(p, w) && Sorted(ss, key) && TiesAscend(ss, key) && forall i | 0 <= i < |ss| :: ss[i] < p.N()
    requires forall h: nat | h < p.N() :: key(h) == SourceKey(p, w, h)
    ensures forall i, j | 0 <= i < j < |ss| :: SourceBefore(p, w, ss[i], ss[j])
  {
    hide SourceBefore, SourceKey;
    forall i, j | 0 <= i < j < |ss| ensures SourceBefore(p, w, ss[i], ss[j]) {
      assert NoLater(key(ss[i]), key(ss[j])) && (key(ss[i]) == key(ss[j]) ==> ss[i] < ss[j]);
      SourceOrder(p, w, ss[i], ss[j]);
    }
  }

  /** The hosts with a virtual CPU to give, in the order in which they give. */
  function Sources(p: Park, w: State): (sources: seq<nat>)
    requires Shaped(p, w)
    ensures forall s: nat :: s in sources <==> s < p.N() && X(p, w, s) >= TOLERANCE && w.vcpuCount[s] > p.cpus[s]
    ensures forall i, j | 0 <= i < j < |sources| ::
      sources[i] < p.N() && sources[j] < p.N() && SourceBefore(p, w, sources[i], sources[j])
  {
    var keep := (h: nat) =>
      h < p.N() && (w.vcpuCount[h] as real - TOLERANCE) / p.cpus[h] as real >= p.ideal && w.vcpuCount[h] > p.cpus[h];
    var key := (h: nat) => SourceKey(p, w, h);
    assert forall h: nat | h < p.N() :: keep(h) <==> X(p, w, h) >= TOLERANCE && w.vcpuCount[h] > p.cpus[h] by {
      forall h: nat | h < p.N() ensures keep(h) <==> X(p, w, h) >= TOLERANCE && w.vcpuCount[h] > p.cpus[h] {
        RatioIsExcess(w.vcpuCount[h], p.cpus[h], p.ideal);
      }
    }
    var sources := Select(p.N(), keep, key);
    SourcesInOrder(p, w, sources, key);
    sources
  }

  /**
   * Whether `a` comes before `b` as a destination for `s`: another pool than that of `s`, then fewer virtual CPUs to a
   * CPU, then more memory free.
   */
  predicate DestinationBefore(p: Park, w: State, s: nat, a: nat, b: nat)
    requires Shaped(p, w) && s < p.N() && a < p.N() && b < p.N()
  {
    var far, far' := p.pools[a] != p.pools[s], p.pools[b] != p.pools[s];
    var x, y := w.vcpuCount[a] as real / p.cpus[a] as real, w.vcpuCount[b] as real / p.cpus[b] as real;
    (far && !far') || (far == far' && (
      x < y
      || (x == y && (
        w.memoryFree[a] > w.memoryFree[b] || (w.memoryFree[a] == w.memoryFree[b] && a < b)))))
  }

  function DestinationKey(p: Park, w: State, s: nat, h: nat): Key
    requires Shaped(p, w) && s < p.N()
  {
    if h >= p.N() then Key(0.0, 0.0, 0.0)
    else
      var samePool := if p.pools[h] == p.pools[s] then 1.0 else 0.0;
      Key(samePool, Ratio(w.vcpuCount[h], p.cpus[h]), -w.memoryFree[h] as real)
  }

  lemma DestinationOrder(p: Park, w: State, s: nat, a: nat, b: nat)
    requires Shaped(p, w) && s < p.N() && a < p.N() && b < p.N()
    requires NoLater(DestinationKey(p, w, s, a), DestinationKey(p, w, s, b))
    requires DestinationKey(p, w, s, a) == DestinationKey(p, w, s, b) ==> a < b
    ensures DestinationBefore(p, w, s, a, b)
  {
    assert Ratio(w.vcpuCount[a], p.cpus[a]) == w.vcpuCount[a] as real / p.cpus[a] as real;
  }

  lemma DestinationsInOrder(p: Park, w: State, s: nat, ds: seq<nat>, key: nat -> Key)
    requires Shaped(p, w) && s < p.N() && forall i | 0 <= i < |ds| :: ds[i] < p.N()
    requires Sorted(ds, key) && TiesAscend(ds, key)
    requires forall h: nat | h < p.N() :: key(h) == DestinationKey(p, w, s, h)
    ensures forall i, j | 0 <= i < j < |ds| :: DestinationBefore(p, w, s, ds[i], ds[j])
  {
    hide DestinationBefore, DestinationKey;
    forall i, j | 0 <= i < j < |ds| ensures DestinationBefore(p, w, s, ds[i], ds[j]) {
      assert NoLater(key(ds[i]), key(ds[j])) && (key(ds[i]) == key(ds[j]) ==> ds[i] < ds[j]);
      DestinationOrder(p, w, s, ds[i], ds[j]);
    }
  }

  /** The hosts below their share, in the order in which they are offered machines. */
  function Destinations(p: Park, w: State, s: nat): (destinations: seq<nat>)
    requires Shaped(p, w) && s < p.N()
    ensures forall d: nat :: d in destinations <==> d < p.N() && d != s && X(p, w, d) < 0.0
    ensures forall i | 0 <= i < |destinations| :: destinations[i] < p.N() && destinations[i] != s
    ensures forall i, j | 0 <= i < j < |destinations| :: DestinationBefore(p, w, s, destinations[i], destinations[j])
  {
    var keep := (h: nat) => h < p.N() && h != s && Ratio(w.vcpuCount[h], p.cpus[h]) < p.ideal;
    var key := (h: nat) => DestinationKey(p, w, s, h);
    assert forall h: nat | h < p.N() && h != s :: keep(h) <==> X(p, w, h) < 0.0 by {
      forall h: nat | h < p.N() && h != s ensures keep(h) <==> X(p, w, h) < 0.0 {
        RatioIsExcess(w.vcpuCount[h], p.cpus[h], p.ideal);
      }
    }
    var destinations := Select(p.N(), keep, key);
    DestinationsInOrder(p, w, s, destinations, key);
    destinations
  }

  /** Biggest first; machines of one size in their own order. */
  ghost predicate BiggestFirst(p: Park, vms: seq<nat>)
    requires forall i | 0 <= i < |vms| :: vms[i] < |p.vms|
  {
    forall i, j | 0 <= i < j < |vms| ::
      p.vms[vms[i]].vcpus > p.vms[vms[j]].vcpus || (p.vms[vms[i]].vcpus == p.vms[vms[j]].vcpus && vms[i] < vms[j])
  }

  function SizeKey(p: Park, v: nat): Key {
    if v < |p.vms| then Key(-(p.vms[v].vcpus as real), 0.0, 0.0) else Key(0.0, 0.0, 0.0)
  }

  lemma MachinesInOrder(p: Park, vms: seq<nat>, key: nat -> Key)
    requires Sorted(vms, key) && TiesAscend(vms, key) && forall i | 0 <= i < |vms| :: vms[i] < |p.vms|
    requires forall v: nat | v < |p.vms| :: key(v) == SizeKey(p, v)
    ensures BiggestFirst(p, vms)
  {
    forall i, j | 0 <= i < j < |vms|
      ensures p.vms[vms[i]].vcpus > p.vms[vms[j]].vcpus
        || (p.vms[vms[i]].vcpus == p.vms[vms[j]].vcpus && vms[i] < vms[j])
    {
      assert NoLater(key(vms[i]), key(vms[j])) && (key(vms[i]) == key(vms[j]) ==> vms[i] < vms[j]);
    }
  }

  /** The machines of `s` that fit, biggest first. */
  function Fitting(p: Park, machines: seq<nat>, delta: int, memoryFree: int): (vms: seq<nat>)
    requires Own(p, machines) && Ascending(machines)
    ensures forall v :: v in vms <==> v in machines && memoryFree >= p.vms[v].memory && p.vms[v].vcpus <= delta
    ensures Own(p, vms) && (forall i | 0 <= i < |vms| :: vms[i] < |p.vms|) && BiggestFirst(p, vms)
  {
    var keep := (v: nat) => v < |p.vms| && memoryFree >= p.vms[v].memory && p.vms[v].vcpus <= delta;
    var key := (v: nat) => SizeKey(p, v);
    FittingMembers(p, machines, keep, key);
    SortTies(Filter(machines, keep), key);
    var vms := SortBy(Filter(machines, keep), key);
    OwnFacts(p, vms);
    MachinesInOrder(p, vms, key);
    vms
  }

  lemma FittingMembers(p: Park, machines: seq<nat>, keep: nat -> bool, key: nat -> Key)
    requires Own(p, machines)
    ensures var vms := SortBy(Filter(machines, keep), key);
      Own(p, vms) && forall v :: v in vms <==> v in machines && keep(v)
  {
    var fitting := Filter(machines, keep);
    FilterOwn(machines, keep);
    SortedMembers(fitting, key);
    SortedOwn(fitting, key);
  }

  lemma SortedOwn(items: seq<nat>, key: nat -> Key)
    requires forall i, j | 0 <= i < j < |items| :: items[i] != items[j]
    ensures var r := SortBy(items, key); forall i, j | 0 <= i < j < |r| :: r[i] != r[j]
  {
    var r := SortBy(items, key);
    forall i, j | 0 <= i < j < |r| ensures r[i] != r[j] {
      if r[i] == r[j] {
        TwiceIn(r, i, j);
        OnceIn(items, r[i]);
      }
    }
  }

  lemma TwiceIn(items: seq<nat>, i: nat, j: nat)
    requires i < j < |items| && items[i] == items[j]
    ensures multiset(items)[items[i]] >= 2
  {
    assert items == items[..j] + items[j..];
    assert items[..j][i] == items[i] && items[j..][0] == items[i];
    assert multiset(items) == multiset(items[..j]) + multiset(items[j..]);
  }

  lemma {:induction false} OnceIn(items: seq<nat>, x: nat)
    requires forall i, j | 0 <= i < j < |items| :: items[i] != items[j]
    ensures multiset(items)[x] <= 1
  {
    if items != [] {
      var n := |items| - 1;
      assert items == items[..n] + [items[n]];
      OnceIn(items[..n], x);
      if items[n] == x {
        assert x !in items[..n];
      }
    }
  }

  // ----- the plan --------------------------------------------------------------------------------------------------

  /** What counting the first `v` machines gives. */
  ghost predicate CountedTo(vms: seq<Machine>, containers: seq<nat>, counts: seq<nat>, left: seq<seq<nat>>, n: nat,
                            v: nat)
    requires v <= |containers| <= |vms|
  {
    && |counts| == |left| == n
    && (forall h | 0 <= h < n :: counts[h] == Load(vms, containers[..v], h))
    && (forall h | 0 <= h < n :: MachinesOf(vms, containers, left[h], h, v))
  }

  /** The movable machines of `h` among the first `v`, in their order. */
  ghost predicate MachinesOf(vms: seq<Machine>, containers: seq<nat>, machines: seq<nat>, h: nat, v: nat)
    requires v <= |containers| <= |vms|
  {
    && (forall u: nat :: u in machines <==> u < v && containers[u] == h && vms[u].movable)
    && (forall i | 0 <= i < |machines| :: machines[i] < v) && Ascending(machines)
  }

  lemma CountedNext(vms: seq<Machine>, containers: seq<nat>, counts: seq<nat>, left: seq<seq<nat>>, n: nat, v: nat)
    requires v < |containers| <= |vms| && CountedTo(vms, containers, counts, left, n, v)
    ensures var h, vm := containers[v], vms[v];
      CountedTo(vms, containers, if h < n then counts[h := counts[h] + vm.vcpus] else counts,
                if h < n && vm.movable then left[h := left[h] + [v]] else left, n, v + 1)
  {
    assert containers[..v + 1][..v] == containers[..v];
    var h, vm := containers[v], vms[v];
    var left' := if h < n && vm.movable then left[h := left[h] + [v]] else left;
    forall k | 0 <= k < n ensures MachinesOf(vms, containers, left'[k], k, v + 1) {
      assert MachinesOf(vms, containers, left[k], k, v);
    }
  }

  method CountVcpus(vms: seq<Machine>, containers: seq<nat>, n: nat) returns (counts: seq<nat>, left: seq<seq<nat>>)
    requires |containers| == |vms|
    ensures CountedTo(vms, containers, counts, left, n, |vms|) && containers[..|vms|] == containers
  {
    counts, left := seq(n, h => 0), seq(n, h => []);
    for v := 0 to |vms|
      invariant CountedTo(vms, containers, counts, left, n, v)
    {
      CountedNext(vms, containers, counts, left, n, v);
      var h := containers[v];
      if h < n {
        counts := counts[h := counts[h] + vms[v].vcpus];
        if vms[v].movable {
          left := left[h := left[h] + [v]];
        }
      }
    }
  }

  method Totals(vms: seq<Machine>, containers: seq<nat>, counts: seq<nat>, cpus: seq<nat>)
    returns (vcpuSum: nat, cpuSum: nat)
    requires |containers| <= |vms| && |counts| == |cpus| > 0
    requires forall h | 0 <= h < |cpus| :: cpus[h] > 0 && counts[h] == Load(vms, containers, h)
    ensures vcpuSum == TotalLoad(vms, containers, |cpus|) && cpuSum == TotalCpus(cpus, |cpus|) && cpuSum > 0
  {
    vcpuSum, cpuSum := 0, 0;
    for h := 0 to |cpus|
      invariant vcpuSum == TotalLoad(vms, containers, h) && cpuSum == TotalCpus(cpus, h) && (h > 0 ==> cpuSum > 0)
    {
      vcpuSum, cpuSum := vcpuSum + counts[h], cpuSum + cpus[h];
    }
  }

  method IdealRatio(vms: seq<Machine>, containers: seq<nat>, counts: seq<nat>, cpus: seq<nat>) returns (ideal: real)
    requires |containers| <= |vms| && |counts| == |cpus| > 0
    requires forall h | 0 <= h < |cpus| :: cpus[h] > 0 && counts[h] == Load(vms, containers, h)
    ensures ideal >= 0.0 && TotalLoad(vms, containers, |cpus|) as real == ideal * TotalCpus(cpus, |cpus|) as real
  {
    hide TotalLoad, TotalCpus, Load;
    var vcpuSum, cpuSum := Totals(vms, containers, counts, cpus);
    ideal := vcpuSum as real / cpuSum as real;
    QuotientTimes(vcpuSum as real, cpuSum as real);
  }

  lemma QuotientTimes(a: real, b: real)
    requires a >= 0.0 && b > 0.0
    ensures a / b >= 0.0 && a == a / b * b
  {
    var q := a / b;
    assert q * b == a;
    assert q < 0.0 ==> q * b < 0.0;
  }

  lemma StartState(p: Park, w: State)
    requires p.Sized() && CountedTo(p.vms, p.containers, w.vcpuCount, w.left, p.N(), |p.vms|)
    requires p.containers[..|p.vms|] == p.containers
    requires w.cpuAverage == p.cpu && w.memoryFree == p.memoryFree && w.migrations == []
    ensures ValidState(p, w, p.containers, {})
    ensures Single(p) && (forall h | 0 <= h < p.N() :: Roomy(p, {}, p.cpu[h], p.memoryFree[h]))
      ==> Easy(p, w, p.containers, {})
  {
    forall h: nat | h < p.N() ensures StillAt(w.left[h], p.containers, {}, h) && Own(p, w.left[h]) {
      assert MachinesOf(p.vms, p.containers, w.left[h], h, |p.vms|);
    }
    if Single(p) {
      forall h: nat | h < p.N() ensures AllHere(p.containers, w.left[h], h) {
        assert MachinesOf(p.vms, p.containers, w.left[h], h, |p.vms|);
      }
    }
  }

  // ----- whether it runs -------------------------------------------------------------------------------------------

  /** Every host has more than nine tenths of the ratio of every other. */
  ghost predicate Alike(counts: seq<nat>, cpus: seq<nat>)
    requires |counts| == |cpus| && forall h | 0 <= h < |cpus| :: cpus[h] > 0
  {
    forall h, k | 0 <= h < |cpus| && 0 <= k < |cpus| ::
      Ratio(counts[h], cpus[h]) > 0.9 * Ratio(counts[k], cpus[k])
  }

  /** The least ratio over the greatest, against the threshold. Without virtual CPUs there is no such quotient. */
  method RatiosAlike(counts: seq<nat>, cpus: seq<nat>) returns (alike: bool)
    requires |counts| == |cpus| > 0 && forall h | 0 <= h < |cpus| :: cpus[h] > 0
    ensures alike <==> Alike(counts, cpus)
  {
    hide Ratio;
    var low, high := 0, 0;
    for h := 1 to |cpus|
      invariant 0 <= low < |cpus| && 0 <= high < |cpus|
      invariant forall k | 0 <= k < h :: Ratio(counts[low], cpus[low]) <= Ratio(counts[k], cpus[k])
      invariant forall k | 0 <= k < h :: Ratio(counts[k], cpus[k]) <= Ratio(counts[high], cpus[high])
    {
      if Ratio(counts[h], cpus[h]) < Ratio(counts[low], cpus[low]) {
        low := h;
      }
      if Ratio(counts[h], cpus[h]) > Ratio(counts[high], cpus[high]) {
        high := h;
      }
    }
    var least, most := Ratio(counts[low], cpus[low]), Ratio(counts[high], cpus[high]);
    RatioNonNegative(counts[low], cpus[low]);
    alike := most > 0.0 && least / most > RATIO_THRESHOLD;
    if most > 0.0 {
      QuotientOver(least, most, RATIO_THRESHOLD);
    }
  }

  lemma RatioNonNegative(vcpus: nat, cpus: nat)
    requires cpus > 0
    ensures Ratio(vcpus, cpus) >= 0.0
  {
    var a, b := vcpus as real, cpus as real;
    QuotientTimes(a, b);
  }

  lemma QuotientOver(a: real, b: real, c: real)
    requires b > 0.0
    ensures a / b > c <==> a > c * b
  {
    var q := a / b;
    assert q * b == a;
    assert q > c ==> (q - c) * b > 0.0;
    assert q <= c ==> (c - q) * b >= 0.0;
  }

  function Weighted(cpu: seq<int>, nCpus: seq<nat>, n: nat): int
    requires n <= |cpu| && n <= |nCpus|
  {
    if n == 0 then 0 else Weighted(cpu, nCpus, n - 1) + cpu[n - 1] * nCpus[n - 1]
  }

  /** The average of the hosts' CPU use, each CPU counting once, is above 40 %. */
  predicate Loaded(cpu: seq<int>, nCpus: seq<nat>)
    requires |cpu| == |nCpus|
  {
    Weighted(cpu, nCpus, |cpu|) > 40 * TotalCpus(nCpus, |cpu|)
  }

  /** computeAverageCpu against the threshold. Without CPUs there is no average. */
  method TooLoaded(cpu: seq<int>, nCpus: seq<nat>) returns (loaded: bool)
    requires |cpu| == |nCpus|
    ensures loaded <==> Loaded(cpu, nCpus)
  {
    var totalNbCpus, weightedSum := 0, 0;
    for h := 0 to |cpu|
      invariant totalNbCpus == TotalCpus(nCpus, h) && weightedSum == Weighted(cpu, nCpus, h)
      invariant totalNbCpus == 0 ==> weightedSum == 0
    {
      totalNbCpus, weightedSum := totalNbCpus + nCpus[h], weightedSum + cpu[h] * nCpus[h];
    }
    loaded := totalNbCpus > 0 && weightedSum as real / totalNbCpus as real > POOL_CPU_THRESHOLD as real;
    if totalNbCpus > 0 {
      QuotientOver(weightedSum as real, totalNbCpus as real, POOL_CPU_THRESHOLD as real);
    }
  }

  class VcpuHosts {
    const p: Park
    var vcpuCount: seq<nat>
    var left: seq<seq<nat>>
    var cpuAverage: seq<int>
    var memoryFree: seq<int>
    var migrations: seq<Migration>
    ghost var placement: seq<nat>
    ghost var moved: set<nat>

    function Now(): State
      reads this
    {
      State(vcpuCount, left, cpuAverage, memoryFree, migrations)
    }

    ghost predicate Valid()
      reads this
    {
      ValidState(p, Now(), placement, moved) && IsIdeal(p)
    }

    /** Counts the virtual CPUs of the machines on each host; machines elsewhere are skipped. */
    constructor (vms: seq<Machine>, containers: seq<nat>, pools: seq<nat>, cpus: seq<nat>, cpu: seq<int>,
                 free: seq<int>,
                 lowCpu: int, lowMemory: int)
      requires |containers| == |vms| && |pools| == |cpu| == |free| == |cpus| > 0
      requires forall h | 0 <= h < |cpus| :: cpus[h] > 0
      ensures Valid() && migrations == [] && moved == {} && placement == containers
      ensures p == Park(vms, containers, pools, cpus, cpu, free, lowCpu, lowMemory, p.ideal)
      ensures Single(p) && (forall h | 0 <= h < |cpus| :: Roomy(p, {}, cpu[h], free[h]))
        ==> Easy(p, Now(), placement, moved)
    {
      hide ValidState, Easy, Roomy, Single, CountedTo;
      var counts, machines := CountVcpus(vms, containers, |cpus|);
      var ideal := IdealRatio(vms, containers, counts, cpus);
      p := Park(vms, containers, pools, cpus, cpu, free, lowCpu, lowMemory, ideal);
      vcpuCount, left, cpuAverage, memoryFree, migrations := counts, machines, cpu, free, [];
      placement, moved := containers, {};
      new;
      StartState(p, Now());
    }

    /** Migrates a machine: the counts, the averages and the machines of the hosts change at once. */
    method Migrate(v: nat, s: nat, d: nat)
      requires Valid() && Acceptable(p, Now(), v, s, d)
      modifies this
      ensures Valid() && v < |p.vms| && p.vms[v].vcpus <= old(vcpuCount)[s]
      ensures Now() == AfterMove(p, old(Now()), v, s, d)
      ensures Calmer(p, old(Now()), Now()) && OthersRise(p, old(Now()), Now(), s)
      ensures Shrinks(p, old(Now()), Now())
      ensures old(Easy(p, Now(), placement, moved)) ==> Easy(p, Now(), placement, moved)
      ensures left[s] == Without(old(left)[s], v)
    {
      hide ValidState, Acceptable, Calmer, OthersRise, Easy, IsIdeal, Shrinks;
      ghost var w := Now();
      MoveFacts(p, w, placement, moved, v, s, d);
      MoveKept(p, w, placement, moved, v, s, d);
      MoveCalms(p, w, placement, moved, v, s, d);
      MoveShrinks(p, w, v, s, d);
      if Easy(p, w, placement, moved) {
        EasyKept(p, w, placement, moved, v, s, d);
      }
      var vm := p.vms[v];
      vcpuCount := vcpuCount[s := vcpuCount[s] - vm.vcpus];
      vcpuCount := vcpuCount[d := vcpuCount[d] + vm.vcpus];
      cpuAverage := cpuAverage[d := cpuAverage[d] + vm.cpu];
      memoryFree := memoryFree[d := memoryFree[d] - vm.memory];
      left := left[s := Without(left[s], v)];
      migrations := migrations + [Migration(v, s, d)];
      placement := placement[v := d];
      moved := moved + {v};
    }

    /** Gives machines of `s` to `d`; `stop` once `s` is close enough to its share. */
    method Fill(s: nat, d: nat) returns (stop: bool)
      requires Valid() && s < p.N() && d < p.N() && s != d && X(p, Now(), s) >= TOLERANCE
      modifies this
      ensures Valid() && Calmer(p, old(Now()), Now()) && OthersRise(p, old(Now()), Now(), s)
      ensures stop <==> X(p, Now(), s) < TOLERANCE
      ensures Shrinks(p, old(Now()), Now()) && (!stop ==> Refused(p, Now(), s, d))
      ensures old(Easy(p, Now(), placement, moved))
        ==> Easy(p, Now(), placement, moved) && (!stop ==> X(p, Now(), d) >= 0.0)
    {
      hide ValidState, IsIdeal, Calmer, OthersRise, Easy, X, Ceil, Min, Own, AllFit, Shrinks, Refused;
      hide Fitting, BiggestFirst, Ascending, Ordinary;
      ghost var w := Now();
      OwnMachines(p, w, placement, moved, s);
      CalmerStill(p, w, w, w, s);
      EasyFill(p, w, placement, moved, s, d);
      var deltaSource, deltaDestination := X(p, Now(), s), X(p, Now(), d);
      ShrinksStill(p, w, w, w);
      if deltaDestination >= 0.0 || cpuAverage[d] > p.lowCpu || memoryFree[d] < p.lowMemory {
        FullRefuses(p, w, s, d);
        return false;
      }
      var delta := Ceil(Min(deltaSource, -deltaDestination));
      var fitting := Fitting(p, left[s], delta, memoryFree[d]);
      stop := Pour(s, d, fitting, delta);
    }

    /** Moves what fits to `d`, until `s` or `d` is close enough to its share. */
    method Pour(s: nat, d: nat, fitting: seq<nat>, firstDelta: int) returns (stop: bool)
      requires Valid() && s < p.N() && d < p.N() && s != d && X(p, Now(), s) >= TOLERANCE && X(p, Now(), d) < 0.0
      requires firstDelta == Ceil(Min(X(p, Now(), s), -X(p, Now(), d))) && Own(p, fitting)
      requires forall v ::
        v in fitting <==> v in left[s] && memoryFree[d] >= p.vms[v].memory && p.vms[v].vcpus <= firstDelta
      modifies this
      ensures Valid() && Calmer(p, old(Now()), Now()) && OthersRise(p, old(Now()), Now(), s)
      ensures stop <==> X(p, Now(), s) < TOLERANCE
      ensures Shrinks(p, old(Now()), Now()) && (!stop ==> Refused(p, Now(), s, d))
      ensures old(Easy(p, Now(), placement, moved))
        ==> Easy(p, Now(), placement, moved) && (!stop ==> X(p, Now(), d) >= 0.0)
    {
      hide ValidState, IsIdeal, Calmer, OthersRise, Easy, Acceptable, X, Ceil, Min, Own, Shrinks, RefusedBut, Refused;
      ghost var w := Now();
      OwnMachines(p, w, placement, moved, s);
      ShrinksStill(p, w, w, w);
      FittingAcceptable(p, w, s, d, fitting, firstDelta);
      ghost var easy := Easy(p, w, placement, moved);
      CalmerStill(p, w, w, w, s);
      EasyFill(p, w, placement, moved, s, d);
      OwnFacts(p, fitting);
      var delta := firstDelta;
      for i := 0 to |fitting|
        invariant Valid() && Shaped(p, Now()) && Calmer(p, w, Now()) && OthersRise(p, w, Now(), s)
        invariant X(p, Now(), s) >= TOLERANCE && X(p, Now(), d) < 0.0
        invariant delta == Ceil(Min(X(p, Now(), s), -X(p, Now(), d)))
        invariant Rest(left[s], fitting, i)
        invariant Shrinks(p, w, Now()) && RefusedBut(p, Now(), s, d, fitting, i)
        invariant easy ==> Easy(p, Now(), placement, moved) && Gone(left[s], fitting, i)
      {
        ghost var before := Now();
        var migrated := TryMachine(fitting[i], s, d, delta);
        OwnMachines(p, Now(), placement, moved, s);
        CalmerStill(p, w, before, Now(), s);
        NextRest(before.left[s], left[s], fitting, i, migrated);
        ShrinksStill(p, w, before, Now());
        NextRefused(p, before, Now(), s, d, fitting, i, migrated);
        if migrated {
          var deltaSource := X(p, Now(), s);
          if deltaSource < TOLERANCE {
            return true;
          }
          var deltaDestination := X(p, Now(), d);
          if deltaDestination >= 0.0 {
            FullRefuses(p, Now(), s, d);
            return false;
          }
          delta := if deltaSource > -deltaDestination then Ceil(-deltaDestination) else Ceil(deltaSource);
          MinIs(deltaSource, -deltaDestination);
        }
      }
      NoneRefusedBut(p, Now(), s, d, fitting);
      if easy {
        NothingToGive(p, Now(), placement, moved, s);
        SomeLeft(left[s], fitting);
      }
      return false;
    }

    /** Migrates a machine if the destination has enough CPU and memory, and it is not too big. */
    method TryMachine(v: nat, s: nat, d: nat, delta: int) returns (migrated: bool)
      requires Valid() && v < |p.vms| && s < p.N() && d < p.N() && s != d && v in left[s]
      requires X(p, Now(), s) >= TOLERANCE && X(p, Now(), d) < 0.0
      requires delta == Ceil(Min(X(p, Now(), s), -X(p, Now(), d)))
      modifies this
      ensures Valid() && migrated == old(Acceptable(p, Now(), v, s, d)) && (!migrated ==> Now() == old(Now()))
      ensures Calmer(p, old(Now()), Now()) && OthersRise(p, old(Now()), Now(), s)
      ensures Shrinks(p, old(Now()), Now())
      ensures migrated ==> left[s] == Without(old(left)[s], v)
      ensures old(Easy(p, Now(), placement, moved)) ==> Easy(p, Now(), placement, moved) && migrated
    {
      hide ValidState, IsIdeal, Calmer, OthersRise, Easy, Acceptable, X, Ceil, Min, Shrinks;
      ValidShape(p, Now(), placement, moved);
      ShrinksStill(p, Now(), Now(), Now());
      CalmerStill(p, Now(), Now(), Now(), s);
      IsAcceptable(p, Now(), v, s, d, delta);
      EasyFits(p, Now(), placement, moved, v, s, d);
      migrated :=
        p.vms[v].vcpus <= delta
        && cpuAverage[d] + p.vms[v].cpu < p.lowCpu && memoryFree[d] - p.vms[v].memory > p.lowMemory;
      if migrated {
        Migrate(v, s, d);
      }
    }

    /** Gives machines of `s` to the hosts below their share. */
    method GiveAway(s: nat)
      requires Valid() && s < p.N()
      modifies this
      ensures Valid() && Calmer(p, old(Now()), Now()) && OthersRise(p, old(Now()), Now(), s)
      ensures Shrinks(p, old(Now()), Now()) && NoneFrom(p, Now(), s)
      ensures old(Easy(p, Now(), placement, moved)) ==> Easy(p, Now(), placement, moved) && X(p, Now(), s) < TOLERANCE
    {
      hide ValidState, IsIdeal, Calmer, Easy, OthersRise, X, Shrinks, Refused, NoneFrom, AllRefuse;
      hide Destinations, DestinationBefore, Ordinary;
      ghost var w := Now();
      ValidShape(p, w, placement, moved);
      ghost var easy := Easy(p, w, placement, moved);
      CalmerStill(p, w, w, w, s);
      ShrinksStill(p, w, w, w);
      if X(p, Now(), s) < TOLERANCE {
        CalmRefuses(p, w, s);
        return;
      }
      var destinations := Destinations(p, Now(), s);
      NoneRefuses(p, w, s, destinations);
      for i := 0 to |destinations|
        invariant Valid() && Shaped(p, Now()) && Calmer(p, w, Now()) && OthersRise(p, w, Now(), s)
        invariant X(p, Now(), s) >= TOLERANCE
        invariant Shrinks(p, w, Now()) && AllRefuse(p, Now(), s, destinations, i)
        invariant easy
          ==> Easy(p, Now(), placement, moved) && forall j | 0 <= j < i :: X(p, Now(), destinations[j]) >= 0.0
      {
        ghost var before := Now();
        var stop := Fill(s, destinations[i]);
        ValidShape(p, Now(), placement, moved);
        CalmerStill(p, w, before, Now(), s);
        StillFull(p, before, Now(), s, destinations, i);
        ShrinksStill(p, w, before, Now());
        NextRefuses(p, before, Now(), s, destinations, i);
        if stop {
          CalmRefuses(p, Now(), s);
          return;
        }
      }
      AllRefused(p, w, Now(), s, destinations);
      AllFull(p, w, Now(), placement, moved, s, destinations);
    }

    /** The ratios of the hosts are too alike, or the pool is too loaded: nothing moves. */
    ghost predicate StaysPut(nCpus: seq<nat>)
      requires Shaped(p, Now()) && |nCpus| == p.N()
      reads this
    {
      Alike(vcpuCount, p.cpus) || Loaded(cpuAverage, nCpus)
    }

    /** Lets every source give machines away. */
    method Spread()
      requires Valid()
      modifies this
      ensures Valid() && Shaped(p, old(Now())) && Shaped(p, Now())
      ensures old(Easy(p, Now(), placement, moved))
        ==> forall h: nat | h < p.N() :: X(p, Now(), h) < TOLERANCE || vcpuCount[h] <= p.cpus[h]
      ensures Ordinary(p) ==> NothingMore(p, old(Now()), Now())
    {
      hide ValidState, Calmer, Easy, X, IsIdeal, Shrinks, OthersRise, NoneFrom, NoneBut, OnlyGive, NothingMore;
      hide Sources, SourceBefore, AllCalmed, Ordinary;
      ghost var w := Now();
      ValidShape(p, w, placement, moved);
      ghost var easy := Easy(p, w, placement, moved);
      CalmerStill(p, w, w, w, 0);
      var sources := Sources(p, Now());
      assert forall i | 0 <= i < |sources| ::
        sources[i] in sources && sources[i] < p.N() && X(p, w, sources[i]) >= TOLERANCE;
      NextGive(p, w, w, w, sources, 0);
      NoneCalmed(p, w, sources);
      for i := 0 to |sources|
        invariant Valid() && Shaped(p, Now()) && Calmer(p, w, Now()) && OnlyGive(p, w, Now(), sources)
        invariant NoneBut(p, w, Now(), sources, i)
        invariant easy ==> Easy(p, Now(), placement, moved) && AllCalmed(p, Now(), sources, i)
      {
        ghost var before := Now();
        GiveAway(sources[i]);
        ValidShape(p, Now(), placement, moved);
        CalmerStill(p, w, before, Now(), 0);
        StillCalm(p, before, Now(), sources, i);
        NextGive(p, w, before, Now(), sources, i);
        StillNone(p, w, before, Now(), sources, i);
      }
      ValidShape(p, Now(), placement, moved);
      if Ordinary(p) {
        EndsSo(p, w, Now(), sources);
      }
      if easy {
        AllCalm(p, w, Now(), sources);
      }
    }

    /**
     * The whole plan: a run of migrations, or nothing. If it runs, every machine has one virtual CPU and may
     * move, and every host has room for all of them, then no host with more virtual CPUs than CPUs stays one or
     * more above its share. In any case nothing more can be moved, but what `NothingMore` tells.
     * `nCpus` are the CPUs that the hosts' statistics count.
     */
    method ProcessVcpuPrepositioning(nCpus: seq<nat>)
      requires Valid() && |nCpus| == p.N()
      modifies this
      ensures Valid() && Run(p, migrations) && OnceEach(p.containers, migrations)
      ensures old(StaysPut(nCpus)) ==> Now() == old(Now())
      ensures old(!StaysPut(nCpus) && Easy(p, Now(), placement, moved))
        ==> forall h: nat | h < p.N() :: X(p, Now(), h) < TOLERANCE || vcpuCount[h] <= p.cpus[h]
      ensures old(!StaysPut(nCpus)) && Ordinary(p) ==> NothingMore(p, old(Now()), Now())
    {
      hide ValidState, Easy, X, IsIdeal, Alike, Loaded, Ordinary, NothingMore;
      ValidShape(p, Now(), placement, moved);
      var alike := RatiosAlike(vcpuCount, p.cpus);
      if alike {
        return;
      }
      var loaded := TooLoaded(cpuAverage, nCpus);
      if loaded {
        return;
      }
      Spread();
      ValidShape(p, Now(), placement, moved);
    }
  }

  /** The machines from `i` on are still there. */
  ghost predicate Rest(machines: seq<nat>, fitting: seq<nat>, i: nat) {
    forall j | i <= j < |fitting| :: fitting[j] in machines
  }

  /** Only machines from `i` on are still there. */
  ghost predicate Gone(machines: seq<nat>, fitting: seq<nat>, i: nat) {
    forall v | v in machines :: exists j :: i <= j < |fitting| && fitting[j] == v
  }

  lemma NextRest(before: seq<nat>, after: seq<nat>, fitting: seq<nat>, i: nat, migrated: bool)
    requires i < |fitting| && Rest(before, fitting, i)
    requires forall j, k | 0 <= j < k < |fitting| :: fitting[j] != fitting[k]
    requires if migrated then after == Without(before, fitting[i]) else after == before
    ensures Rest(after, fitting, i + 1)
    ensures migrated && Gone(before, fitting, i) ==> Gone(after, fitting, i + 1)
  {
  }

  lemma SomeLeft(machines: seq<nat>, fitting: seq<nat>)
    requires machines != []
    ensures !Gone(machines, fitting, |fitting|)
  {
    assert machines[0] in machines;
  }

  lemma ValidShape(p: Park, w: State, placement: seq<nat>, moved: set<nat>)
    requires ValidState(p, w, placement, moved)
    ensures Shaped(p, w) && Run(p, w.migrations) && OnceEach(p.containers, w.migrations)
  {
  }

  lemma OwnMachines(p: Park, w: State, placement: seq<nat>, moved: set<nat>, s: nat)
    requires ValidState(p, w, placement, moved) && s < p.N()
    ensures Shaped(p, w) && Own(p, w.left[s]) && Ascending(w.left[s])
  {
  }

  lemma OwnFacts(p: Park, machines: seq<nat>)
    requires Own(p, machines)
    ensures forall i | 0 <= i < |machines| :: machines[i] < |p.vms|
    ensures forall i, j | 0 <= i < j < |machines| :: machines[i] != machines[j]
  {
    assert forall i | 0 <= i < |machines| :: machines[i] in machines;
  }

  lemma MinIs(a: real, b: real)
    ensures Ceil(Min(a, b)) == if a > b then Ceil(b) else Ceil(a)
  {
  }

  lemma IsAcceptable(p: Park, w: State, v: nat, s: nat, d: nat, delta: int)
    requires Shaped(p, w) && v < |p.vms| && s < p.N() && d < p.N() && s != d && v in w.left[s]
    requires X(p, w, s) >= TOLERANCE && X(p, w, d) < 0.0 && delta == Ceil(Min(X(p, w, s), -X(p, w, d)))
    ensures p.vms[v].vcpus <= delta && w.cpuAverage[d] + p.vms[v].cpu < p.lowCpu
        && w.memoryFree[d] - p.vms[v].memory > p.lowMemory
      <==> Acceptable(p, w, v, s, d)
  {
  }

  lemma EasyFits(p: Park, w: State, placement: seq<nat>, moved: set<nat>, v: nat, s: nat, d: nat)
    requires ValidState(p, w, placement, moved)
    requires s < p.N() && d < p.N() && s != d && v in w.left[s] && X(p, w, s) >= TOLERANCE && X(p, w, d) < 0.0
    ensures Easy(p, w, placement, moved) ==> Acceptable(p, w, v, s, d)
  {
    if Easy(p, w, placement, moved) {
      EasyAcceptable(p, w, placement, moved, v, s, d);
    }
  }

  ghost predicate AllFit(p: Park, machines: seq<nat>, delta: int, memoryFree: int) {
    forall v | v in machines :: v < |p.vms| && memoryFree >= p.vms[v].memory && p.vms[v].vcpus <= delta
  }

  /** Then the destination has room, and every machine fits. */
  lemma EasyFill(p: Park, w: State, placement: seq<nat>, moved: set<nat>, s: nat, d: nat)
    requires ValidState(p, w, placement, moved) && s < p.N() && d < p.N() && s != d
    requires X(p, w, s) >= TOLERANCE
    ensures Easy(p, w, placement, moved) && X(p, w, d) < 0.0
      ==> w.cpuAverage[d] <= p.lowCpu && w.memoryFree[d] >= p.lowMemory
          && AllFit(p, w.left[s], Ceil(Min(X(p, w, s), -X(p, w, d))), w.memoryFree[d])
  {
    if Easy(p, w, placement, moved) && X(p, w, d) < 0.0 {
      NothingToGive(p, w, placement, moved, s);
      assert w.left[s][0] in w.left[s];
      hide ValidState, Easy;
      forall v | v in w.left[s] {
        EasyAcceptable(p, w, placement, moved, v, s, d);
      }
    }
  }

  lemma StillFull(p: Park, before: State, after: State, s: nat, ds: seq<nat>, i: nat)
    requires Shaped(p, before) && Shaped(p, after) && OthersRise(p, before, after, s) && i < |ds|
    requires forall j | 0 <= j < |ds| :: ds[j] < p.N() && ds[j] != s
    ensures (forall j | 0 <= j < i :: X(p, before, ds[j]) >= 0.0) && X(p, after, ds[i]) >= 0.0
      ==> forall j | 0 <= j < i + 1 :: X(p, after, ds[j]) >= 0.0
  {
  }

  /** If all that was below its share is not any more, nothing is above it. */
  lemma AllFull(p: Park, w: State, after: State, placement: seq<nat>, moved: set<nat>, s: nat, ds: seq<nat>)
    requires Shaped(p, w) && ValidState(p, after, placement, moved) && IsIdeal(p) && s < p.N()
    requires X(p, after, s) >= TOLERANCE
    requires OthersRise(p, w, after, s) && forall d: nat :: d in ds <==> d < p.N() && d != s && X(p, w, d) < 0.0
    requires forall j | 0 <= j < |ds| :: ds[j] < p.N()
    ensures !forall j | 0 <= j < |ds| :: X(p, after, ds[j]) >= 0.0
  {
    hide ValidState, IsIdeal;
    ValidShape(p, after, placement, moved);
    SomeBelow(p, after, placement, moved, s);
    var h: nat :| h < p.N() && h != s && X(p, after, h) < 0.0;
    assert h in ds;
    var j :| 0 <= j < |ds| && ds[j] == h;
  }

  /** The first `i` sources are close enough to their share. */
  ghost predicate AllCalmed(p: Park, w: State, sources: seq<nat>, i: nat)
    requires Shaped(p, w) && i <= |sources| && forall j | 0 <= j < |sources| :: sources[j] < p.N()
  {
    forall j | 0 <= j < i :: X(p, w, sources[j]) < TOLERANCE
  }

  lemma NoneCalmed(p: Park, w: State, sources: seq<nat>)
    requires Shaped(p, w) && forall j | 0 <= j < |sources| :: sources[j] < p.N()
    ensures AllCalmed(p, w, sources, 0)
  {
  }

  lemma StillCalm(p: Park, before: State, after: State, sources: seq<nat>, i: nat)
    requires Shaped(p, before) && Shaped(p, after) && Calmer(p, before, after) && i < |sources|
    requires forall j | 0 <= j < |sources| :: sources[j] < p.N()
    ensures AllCalmed(p, before, sources, i) && X(p, after, sources[i]) < TOLERANCE
      ==> AllCalmed(p, after, sources, i + 1)
  {
  }

  lemma AllCalm(p: Park, w: State, after: State, sources: seq<nat>)
    requires Shaped(p, w) && Shaped(p, after) && Calmer(p, w, after)
    requires forall s: nat :: s in sources <==> s < p.N() && X(p, w, s) >= TOLERANCE && w.vcpuCount[s] > p.cpus[s]
    requires (forall j | 0 <= j < |sources| :: sources[j] < p.N()) && AllCalmed(p, after, sources, |sources|)
    ensures forall h: nat | h < p.N() :: X(p, after, h) < TOLERANCE || after.vcpuCount[h] <= p.cpus[h]
  {
    forall h: nat | h < p.N() ensures X(p, after, h) < TOLERANCE || after.vcpuCount[h] <= p.cpus[h] {
      if h in sources {
        var j :| 0 <= j < |sources| && sources[j] == h;
      }
    }
  }

  lemma MoveFacts(p: Park, w: State, placement: seq<nat>, moved: set<nat>, v: nat, s: nat, d: nat)
    requires ValidState(p, w, placement, moved) && Acceptable(p, w, v, s, d)
    ensures v < |p.vms| && v < |placement| && s < p.N() && d < p.N() && s != d && p.vms[v].vcpus <= w.vcpuCount[s]
    ensures Shaped(p, w)
  {
    MoverFacts(p, w, placement, moved, v, s, d);
  }
}
