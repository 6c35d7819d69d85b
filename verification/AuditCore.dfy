/** The audit log: adding records, checking them, and deleting a range of them. */
module AuditCore {
  import opened Options
  import opened AuditChain

  function Reverse(s: seq<Payload>): (r: seq<Payload>)
    ensures |r| == |s| && forall k | 0 <= k < |s| :: r[k] == s[|s| - 1 - k]
  {
    if s == [] then [] else Reverse(s[1..]) + [s[0]]
  }

  /** What is left of a chain without records `a` to `b`: those after them come in the reverse order. */
  function Survivors(ps: seq<Payload>, a: nat, b: nat): (r: seq<Payload>)
    requires a <= b < |ps|
    ensures |r| == a + (|ps| - b - 1)
  {
    ps[..a] + Reverse(ps[b + 1..])
  }

  /**
   * The rewritten chain begins with the deleted records again, and with the first one after them: then
   * that record, written anew, has its old id.
   */
  predicate Mirrored(ps: seq<Payload>, a: nat, b: nat)
    requires a <= b < |ps|
  {
    b + 2 <= |Survivors(ps, a, b)| && Survivors(ps, a, b)[..b + 2] == ps[..b + 2]
  }

  /** The ids of records `from` to `to` of a chain, counted from one. */
  ghost function Ids(ps: seq<Payload>, from: nat, to: nat): set<Id>
    requires to <= |ps|
  {
    set k | from < k <= to :: Chain(NullId, ps[..k])
  }

  ghost predicate AllGenuine(store: Store) { forall id | id in store :: id.Hashed? && store[id] == Genuine(id) }

  lemma ChainStoreIds(ps: seq<Payload>)
    ensures ChainStore(ps).Keys == Ids(ps, 0, |ps|) && AllGenuine(ChainStore(ps))
  {
    forall id ensures id in ChainStore(ps) <==> id in Ids(ps, 0, |ps|) {
      InChainStore(ps, id);
    }
    forall id | id in ChainStore(ps) ensures id.Hashed? && ChainStore(ps)[id] == Genuine(id) {
      InChainStore(ps, id);
    }
  }

  lemma SameStore(store: Store, ps: seq<Payload>)
    requires AllGenuine(store) && store.Keys == Ids(ps, 0, |ps|)
    ensures store == ChainStore(ps)
  {
    ChainStoreIds(ps);
    assert forall id | id in store :: store[id] == ChainStore(ps)[id];
  }

  /** An id belongs to one place of one chain only. */
  lemma IdPlace(ps: seq<Payload>, k: nat, qs: seq<Payload>, from: nat, to: nat)
    requires k <= |ps| && to <= |qs| && Chain(NullId, ps[..k]) in Ids(qs, from, to)
    ensures from < k <= to && ps[..k] == qs[..k]
  {
    var l :| from < l <= to && Chain(NullId, ps[..k]) == Chain(NullId, qs[..l]);
    ChainInjective(NullId, ps[..k], qs[..l]);
  }

  lemma IdsSplit(ps: seq<Payload>, from: nat, k: nat, to: nat)
    requires from <= k <= to <= |ps|
    ensures Ids(ps, from, to) == Ids(ps, from, k) + Ids(ps, k, to)
  {
  }

  lemma IdsNext(ps: seq<Payload>, from: nat, to: nat)
    requires from < to <= |ps|
    ensures Ids(ps, from, to) == Ids(ps, from, to - 1) + {Chain(NullId, ps[..to])}
    ensures Chain(NullId, ps[..to]) !in Ids(ps, from, to - 1)
  {
    if Chain(NullId, ps[..to]) in Ids(ps, from, to - 1) {
      IdPlace(ps, to, ps, from, to - 1);
    }
    assert Ids(ps, to - 1, to) == {Chain(NullId, ps[..to])};
    IdsSplit(ps, from, to - 1, to);
  }

  lemma ChainStep(ps: seq<Payload>, k: nat)
    requires 1 <= k <= |ps|
    ensures Chain(NullId, ps[..k]) == CreateHash(ps[k - 1], Chain(NullId, ps[..k - 1]))
  {
    assert ps[..k][..k - 1] == ps[..k - 1];
  }

  /** One record of the range goes. */
  lemma RangeStep(store: Store, ps: seq<Payload>, k: nat, b: nat)
    requires 1 <= k <= b + 1 <= |ps| && AllGenuine(store) && store.Keys == Ids(ps, 0, k) + Ids(ps, b + 1, |ps|)
    ensures var id := Chain(NullId, ps[..k]);
      && id in store && store[id] == Genuine(id) && id.previous == Chain(NullId, ps[..k - 1])
      && AllGenuine(store - {id}) && (store - {id}).Keys == Ids(ps, 0, k - 1) + Ids(ps, b + 1, |ps|)
      && (k > 1 ==> id.previous in store - {id})
  {
    var id := Chain(NullId, ps[..k]);
    IdsNext(ps, 0, k);
    if k > 1 {
      IdsNext(ps, 0, k - 1);
    }
    ChainStep(ps, k);
    if id in Ids(ps, b + 1, |ps|) {
      IdPlace(ps, k, ps, b + 1, |ps|);
    }
    hide Ids, Chain;
    assert (store - {id}).Keys == store.Keys - {id};
  }

  lemma SameIds(ps: seq<Payload>, qs: seq<Payload>, n: nat)
    requires n <= |ps| && n <= |qs| && ps[..n] == qs[..n]
    ensures Ids(ps, 0, n) == Ids(qs, 0, n)
  {
    forall k | 0 < k <= n ensures ps[..k] == qs[..k] {
      assert ps[..k] == ps[..n][..k];
    }
  }

  lemma SurvivorsBegin(ps: seq<Payload>, a: nat, b: nat)
    requires a <= b < |ps|
    ensures Survivors(ps, a, b)[..a] == ps[..a]
  {
  }

  lemma SurvivorAt(ps: seq<Payload>, a: nat, b: nat, j: nat)
    requires a <= b < |ps| && j < |ps| - b - 1
    ensures Survivors(ps, a, b)[a + j] == ps[|ps| - 1 - j]
  {
    assert Reverse(ps[b + 1..])[j] == ps[b + 1..][|ps| - b - 1 - 1 - j];
  }

  lemma Replaced(before: Store, after: Store, record: Record, deleted: Id)
    requires AllGenuine(before)
    requires record == Record(CreateHash(record.payload, record.previousId), record.payload, record.previousId)
    requires after == before[record.id := record] - {deleted}
    ensures AllGenuine(after) && after.Keys == (before.Keys + {record.id}) - {deleted}
  {
  }

  /** Writing record `j` of the recent ones anew and deleting the old one. */
  lemma RewriteStep(store: Store, ps: seq<Payload>, fin: seq<Payload>, a: nat, b: nat, j: nat)
    requires a <= b < |ps| && fin == Survivors(ps, a, b) && j < |ps| - b - 1 && !Mirrored(ps, a, b)
    requires store.Keys == Ids(fin, 0, a + j) + Ids(ps, b + 1, |ps| - j)
    ensures var new', old' := Chain(NullId, fin[..a + j + 1]), Chain(NullId, ps[..|ps| - j]);
      (store.Keys + {new'}) - {old'} == Ids(fin, 0, a + j + 1) + Ids(ps, b + 1, |ps| - j - 1)
  {
    hide Ids, Chain;
    IdsNext(fin, 0, a + j + 1);
    IdsNext(ps, b + 1, |ps| - j);
    if Chain(NullId, ps[..|ps| - j]) in Ids(fin, 0, a + j + 1) {
      OldAmongNew(ps, fin, a, b, j);
    }
  }

  /** An old id among the new ones makes the chain mirrored. */
  lemma OldAmongNew(ps: seq<Payload>, fin: seq<Payload>, a: nat, b: nat, j: nat)
    requires a <= b < |ps| && fin == Survivors(ps, a, b) && j < |ps| - b - 1
    requires Chain(NullId, ps[..|ps| - j]) in Ids(fin, 0, a + j + 1)
    ensures Mirrored(ps, a, b)
  {
    var k := |ps| - j;
    IdPlace(ps, k, fin, 0, a + j + 1);
    assert fin[..b + 2] == fin[..k][..b + 2];
    assert ps[..b + 2] == ps[..k][..b + 2];
  }

  /** What the log holds in the end. */
  lemma Rewritten(store: Store, ps: seq<Payload>, a: nat, b: nat)
    requires a <= b < |ps| && AllGenuine(store)
    requires var fin := Survivors(ps, a, b);
      && (!Mirrored(ps, a, b) ==> store.Keys == Ids(fin, 0, |fin|) + Ids(ps, b + 1, b + 1))
      && (|fin| > a ==> Chain(NullId, ps[..b + 2]) !in store)
    ensures store == ChainStore(Survivors(ps, a, b)) <==> !Mirrored(ps, a, b)
    ensures Mirrored(ps, a, b) ==> Chain(NullId, Survivors(ps, a, b)[..b + 2]) !in store
  {
    var fin := Survivors(ps, a, b);
    if Mirrored(ps, a, b) {
      MemberAt(fin, b + 2);
    } else {
      assert Ids(ps, b + 1, b + 1) == {};
      SameStore(store, fin);
    }
  }

  class AuditLog {
    var store: Store
    var lastId: Option<Id>

    constructor ()
      ensures Holds([])
    {
      store, lastId := map[], None;
    }

    /** The log holds one intact chain, and nothing else. */
    ghost predicate Holds(ps: seq<Payload>)
      reads this
    {
      store == ChainStore(ps) && (lastId == Some(Chain(NullId, ps)) || (ps == [] && lastId == None))
    }

    lemma LastIs(ps: seq<Payload>)
      requires Holds(ps) && ps != []
      ensures lastId == Some(Chain(NullId, ps))
    {
    }

    /** _addUnsafe: a new record after the last one. */
    method AddUnsafe(payload: Payload) returns (record: Record)
      modifies this
      ensures var previousId := if old(lastId).Some? then old(lastId).value else NullId;
        record == Record(CreateHash(payload, previousId), payload, previousId)
      ensures store == old(store)[record.id := record] && lastId == Some(record.id)
    {
      var previousId := if lastId.Some? then lastId.value else NullId;
      record := Record(CreateHash(payload, previousId), payload, previousId);
      store := store[record.id := record];
      lastId := Some(record.id);
    }

    method Add(payload: Payload, ghost ps: seq<Payload>) returns (record: Record)
      requires Holds(ps)
      modifies this
      ensures Holds(ps + [payload]) && record.payload == payload
    {
      assert (ps + [payload])[..|ps|] == ps;
      record := AddUnsafe(payload);
    }

    /** checkIntegrity for the chain that ends with the last record. */
    method CheckIntegrity(oldest: Id, newest: Id) returns (r: Integrity)
      ensures r == Walk(store, oldest, newest, 0)
    {
      var nValid, id := 0, newest;
      while id != oldest
        invariant Walk(store, oldest, newest, 0) == Walk(store, oldest, id, nValid)
        decreases id
      {
        if id !in store {
          return Missing(id, nValid);
        }
        var record := store[id];
        if id != CreateHash(record.payload, record.previousId) {
          return Altered(id, nValid);
        }
        id := record.previousId;
        nValid := nValid + 1;
      }
      return Valid(nValid);
    }

    /** The records after `newest`, last first: what getFrom yields before it. */
    method RecentRecords(newest: Id, ghost ps: seq<Payload>, ghost b: nat) returns (recent: seq<Record>)
      requires Holds(ps) && b < |ps| && newest == Chain(NullId, ps[..b + 1])
      ensures |recent| == |ps| - b - 1
      ensures forall j | 0 <= j < |recent| :: recent[j] == Genuine(Chain(NullId, ps[..|ps| - j]))
      ensures forall j | 0 <= j < |recent| :: recent[j].payload == ps[|ps| - 1 - j]
    {
      recent := [];
      var id := lastId.value;
      ghost var k := |ps|;
      assert ps[..k] == ps;
      while id in store && store[id].id != newest
        invariant b + 1 <= k <= |ps| && id == Chain(NullId, ps[..k]) && |recent| == |ps| - k
        invariant forall j | 0 <= j < |recent| :: recent[j] == Genuine(Chain(NullId, ps[..|ps| - j]))
        invariant forall j | 0 <= j < |recent| :: recent[j].payload == ps[|ps| - 1 - j]
        decreases k
      {
        MemberAt(ps, k);
        recent := recent + [store[id]];
        id := store[id].previousId;
        k := k - 1;
      }
      MemberAt(ps, k);
      ChainInjective(NullId, ps[..k], ps[..b + 1]);
    }

    /** Deletes the records from `newest` back to `oldest`. */
    method DeleteRange(newest: Id, oldest: Id, ghost ps: seq<Payload>, ghost a: nat, ghost b: nat)
      requires Holds(ps) && a <= b < |ps| && newest == Chain(NullId, ps[..b + 1])
      requires oldest == Chain(NullId, ps[..a + 1])
      modifies this`store
      ensures AllGenuine(store) && store.Keys == Ids(ps, 0, a) + Ids(ps, b + 1, |ps|)
    {
      hide Ids, Chain, ChainStore, AllGenuine;
      var id, reached := newest, false;
      ghost var k := b + 1;
      ChainStoreIds(ps);
      IdsSplit(ps, 0, b + 1, |ps|);
      IdsNext(ps, 0, b + 1);
      while !reached && id in store
        invariant a <= k <= b + 1 && AllGenuine(store) && store.Keys == Ids(ps, 0, k) + Ids(ps, b + 1, |ps|)
        invariant reached ==> k == a
        invariant !reached ==> k > a && id == Chain(NullId, ps[..k]) && id in store
        decreases k
      {
        RangeStep(store, ps, k, b);
        var record := store[id];
        store := store - {record.id};
        reached := record.id == oldest;
        SamePlace(ps, k, a + 1);
        id := record.previousId;
        k := k - 1;
      }
    }

    lemma SamePlace(ps: seq<Payload>, k: nat, l: nat)
      requires k <= |ps| && l <= |ps|
      ensures Chain(NullId, ps[..k]) == Chain(NullId, ps[..l]) <==> k == l
    {
      if Chain(NullId, ps[..k]) == Chain(NullId, ps[..l]) {
        ChainInjective(NullId, ps[..k], ps[..l]);
      }
    }

    /**
     * deleteRangeAndRewrite, for an intact chain with `oldest` not after `newest`. The survivors are
     * written again, those after the range in the reverse order; the log then holds exactly their chain,
     * unless the chain is mirrored.
     */
    method DeleteRangeAndRewrite(newest: Id, oldest: Id, ghost ps: seq<Payload>, ghost a: nat, ghost b: nat)
      requires Holds(ps) && a <= b < |ps| && newest == Chain(NullId, ps[..b + 1])
      requires oldest == Chain(NullId, ps[..a + 1])
      modifies this
      ensures lastId == Some(Chain(NullId, Survivors(ps, a, b)))
      ensures Holds(Survivors(ps, a, b)) <==> !Mirrored(ps, a, b)
      ensures Mirrored(ps, a, b) ==> Chain(NullId, Survivors(ps, a, b)[..b + 2]) !in store
    {
      hide Ids, Chain, ChainStore, AllGenuine, Mirrored, Survivors;
      MemberAt(ps, a + 1);
      var oldestRecord := store[oldest];
      var recent := RecentRecords(newest, ps, b);
      DeleteRange(newest, oldest, ps, a, b);
      lastId := Some(oldestRecord.previousId);
      ghost var fin, n := Survivors(ps, a, b), |ps|;
      SurvivorsBegin(ps, a, b);
      SameIds(ps, fin, a);
      for j := 0 to |recent|
        invariant lastId == Some(Chain(NullId, fin[..a + j])) && AllGenuine(store)
        invariant !Mirrored(ps, a, b) ==> store.Keys == Ids(fin, 0, a + j) + Ids(ps, b + 1, n - j)
        invariant j > 0 ==> Chain(NullId, ps[..n - j + 1]) !in store
      {
        ChainStep(fin, a + j + 1);
        SurvivorAt(ps, a, b, j);
        if !Mirrored(ps, a, b) {
          RewriteStep(store, ps, fin, a, b, j);
        }
        ghost var before := store;
        var record := AddUnsafe(recent[j].payload);
        store := store - {recent[j].id};
        Replaced(before, store, record, recent[j].id);
      }
      assert fin[..|fin|] == fin;
      Rewritten(store, ps, a, b);
    }
  }

  /** Three records, the first and the last alike. */
  lemma FirstAsLast(x: Payload, y: Payload)
    ensures Mirrored([x, y, x], 0, 0)
  {
    var ps := [x, y, x];
    assert Survivors(ps, 0, 0)[0] == ps[2] && Survivors(ps, 0, 0)[1] == ps[1];
    assert Survivors(ps, 0, 0)[..2] == ps[..2];
  }

  /** Records with different times are never mirrored. */
  lemma TimesApart(ps: seq<Payload>, a: nat, b: nat)
    requires a <= b < |ps| && forall i, j | 0 <= i < j < |ps| :: ps[i].time != ps[j].time
    ensures !Mirrored(ps, a, b)
  {
    if b + 2 <= |Survivors(ps, a, b)| {
      SurvivorAt(ps, a, b, 0);
      assert Survivors(ps, a, b)[..b + 2][a] == ps[|ps| - 1] && ps[..b + 2][a] == ps[a];
    }
  }

  /** The log after a range has been deleted is accepted as a whole, whenever the chain was not mirrored. */
  method DeleteAndCheck(log: AuditLog, newest: Id, oldest: Id, ghost ps: seq<Payload>, ghost a: nat, ghost b: nat)
    returns (last: Id, r: Integrity)
    requires log.Holds(ps) && a <= b < |ps| && newest == Chain(NullId, ps[..b + 1])
    requires oldest == Chain(NullId, ps[..a + 1])
    modifies log
    ensures last == Chain(NullId, Survivors(ps, a, b))
    ensures if Mirrored(ps, a, b) then !r.Valid? else r == Valid(|Survivors(ps, a, b)|)
  {
    log.DeleteRangeAndRewrite(newest, oldest, ps, a, b);
    last := log.lastId.value;
    r := log.CheckIntegrity(NullId, last);
    ChainStoreIntact(Survivors(ps, a, b));
    if r.Valid? {
      WholeChain(log.store, Survivors(ps, a, b));
    }
  }

  /** Three records are logged, the first and the last alike. Once the first is deleted, the log is not accepted. */
  method MirroredExample(x: Payload, y: Payload) returns (r: Integrity)
    ensures !r.Valid?
  {
    hide *;
    var log := new AuditLog();
    var first := log.Add(x, []);
    ghost var ps := [x, y, x];
    assert [] + [x] == ps[..1] && ps[..1] + [y] == ps[..2] && ps[..2] + [x] == ps;
    log.LastIs(ps[..1]);
    var id := log.lastId.value;
    var second := log.Add(y, ps[..1]);
    var third := log.Add(x, ps[..2]);
    FirstAsLast(x, y);
    var last;
    last, r := DeleteAndCheck(log, id, id, ps, 0, 0);
  }

  /** An accepted chain is in the store from end to end. */
  lemma WholeChain(store: Store, ps: seq<Payload>)
    requires Walk(store, NullId, Chain(NullId, ps), 0).Valid?
    ensures forall k | 1 <= k <= |ps| :: Chain(NullId, ps[..k]) in store
  {
    var qs := AcceptedIsIntact(store, NullId, Chain(NullId, ps), 0);
    ChainInjective(NullId, ps, qs);
    forall k | 1 <= k <= |ps| ensures Chain(NullId, ps[..k]) in store {
      assert Entry(store, Chain(NullId, qs[..k]));
    }
  }
}
