/**
 * Chains of audit records: each record's id is the hash of its contents and of the id before it. The
 * hash is taken to be free of collisions, so ids are terms that hold what was hashed.
 */
module AuditChain {
  datatype Payload = Payload(subject: string, event: string, data: string, time: nat)

  datatype Id = NullId | Unknown(name: string) | Hashed(payload: Payload, previous: Id)

  datatype Record = Record(id: Id, payload: Payload, previousId: Id)

  type Store = map<Id, Record>

  function CreateHash(payload: Payload, previousId: Id): Id { Hashed(payload, previousId) }

  // ----- ids ----------------------------------------------------------------------------------------------

  /** The id of the last of the records added to `base`. */
  function Chain(base: Id, ps: seq<Payload>): Id {
    if ps == [] then base else CreateHash(ps[|ps| - 1], Chain(base, ps[..|ps| - 1]))
  }

  function Length(id: Id): nat { if id.Hashed? then 1 + Length(id.previous) else 0 }

  lemma {:induction false} ChainLength(base: Id, ps: seq<Payload>)
    ensures Length(Chain(base, ps)) == Length(base) + |ps|
  {
    if ps != [] {
      ChainLength(base, ps[..|ps| - 1]);
    }
  }

  /** Different records give different ids, however many there are. */
  lemma {:induction false} ChainInjective(base: Id, a: seq<Payload>, b: seq<Payload>)
    requires Chain(base, a) == Chain(base, b)
    ensures a == b
  {
    ChainLength(base, a);
    ChainLength(base, b);
    if a != [] {
      var n := |a| - 1;
      assert |b| == n + 1;
      var front, back := a[..n], b[..n];
      assert Chain(base, a)
        == CreateHash(a[n], Chain(base, front)) && Chain(base, b) == CreateHash(b[n], Chain(base, back));
      ChainInjective(base, front, back);
      hide Chain, Length;
      assert a == front + [a[n]] && b == back + [b[n]];
    }
  }

  // ----- stores ----------------------------------------------------------------------------------------------

  function Genuine(id: Id): Record
    requires id.Hashed?
  {
    Record(id, id.payload, id.previous)
  }

  /** The store of one intact chain. */
  function ChainStore(ps: seq<Payload>): Store {
    if ps == [] then map[]
    else
      var id := Chain(NullId, ps);
      ChainStore(ps[..|ps| - 1])[id := Genuine(id)]
  }

  lemma {:induction false} InChainStore(ps: seq<Payload>, id: Id)
    ensures id in ChainStore(ps) <==> exists k :: 1 <= k <= |ps| && id == Chain(NullId, ps[..k])
    ensures id in ChainStore(ps) ==> id.Hashed? && ChainStore(ps)[id] == Genuine(id)
  {
    if ps != [] {
      var front := ps[..|ps| - 1];
      InChainStore(front, id);
      assert ps[..|ps|] == ps;
      if k :| 1 <= k <= |ps| && id == Chain(NullId, ps[..k]) {
        assert k < |ps| ==> front[..k] == ps[..k];
      }
      if id in ChainStore(front) {
        var k :| 1 <= k <= |front| && id == Chain(NullId, front[..k]);
        assert front[..k] == ps[..k];
      }
    }
  }

  lemma MemberAt(ps: seq<Payload>, k: nat)
    requires 1 <= k <= |ps|
    ensures var id := Chain(NullId, ps[..k]);
      id in ChainStore(ps) && id.Hashed? && ChainStore(ps)[id] == Genuine(id)
        && id.previous == Chain(NullId, ps[..k - 1])
      && id.payload == ps[k - 1]
  {
    hide ChainStore;
    InChainStore(ps, Chain(NullId, ps[..k]));
    assert ps[..k][..k - 1] == ps[..k - 1];
  }

  // ----- integrity -----------------------------------------------------------------------------------------------

  datatype Integrity = Valid(count: nat) | Missing(id: Id, nValid: nat) | Altered(id: Id, nValid: nat)

  /** Follows the chain from `newest` to `oldest` and checks each record against its id. */
  function Walk(store: Store, oldest: Id, newest: Id, nValid: nat): Integrity
    decreases newest
  {
    if newest == oldest then Valid(nValid)
    else if newest !in store then Missing(newest, nValid)
    else if newest != CreateHash(store[newest].payload, store[newest].previousId) then Altered(newest, nValid)
    else Walk(store, oldest, newest.previous, nValid + 1)
  }

  /** An accepted chain is the records that its newest id stands for, each one in the store. */
  ghost predicate Intact(store: Store, oldest: Id, ps: seq<Payload>) {
    forall k | 1 <= k <= |ps| :: Entry(store, Chain(oldest, ps[..k]))
  }

  ghost predicate Entry(store: Store, id: Id) {
    id.Hashed? && id in store && store[id].payload == id.payload && store[id].previousId == id.previous
  }

  lemma {:induction false} AcceptedIsIntact(store: Store, oldest: Id, newest: Id, nValid: nat)
    returns (ps: seq<Payload>)
    requires Walk(store, oldest, newest, nValid).Valid?
    ensures newest == Chain(oldest, ps) && Intact(store, oldest, ps)
    ensures Walk(store, oldest, newest, nValid) == Valid(nValid + |ps|)
    decreases newest
  {
    if newest == oldest {
      ps := [];
    } else {
      var front := AcceptedIsIntact(store, oldest, newest.previous, nValid + 1);
      ps := front + [newest.payload];
      assert ps[..|ps| - 1] == front;
      forall k | 1 <= k <= |ps| ensures Entry(store, Chain(oldest, ps[..k])) {
        if k < |ps| {
          assert ps[..k] == front[..k];
        } else {
          assert ps[..k] == ps;
        }
      }
    }
  }

  lemma {:induction false} IntactIsAccepted(store: Store, oldest: Id, ps: seq<Payload>, nValid: nat)
    requires Intact(store, oldest, ps)
    ensures Walk(store, oldest, Chain(oldest, ps), nValid) == Valid(nValid + |ps|)
  {
    if ps != [] {
      var front := ps[..|ps| - 1];
      assert Entry(store, Chain(oldest, ps[..|ps|])) && ps[..|ps|] == ps;
      forall k | 1 <= k <= |front| ensures Entry(store, Chain(oldest, front[..k])) {
        assert front[..k] == ps[..k];
      }
      IntactIsAccepted(store, oldest, front, nValid + 1);
      ChainLength(oldest, ps);
    }
  }

  /** None of the records that stand for these payloads after `id` is `oldest`. */
  ghost predicate Without(oldest: Id, id: Id, ps: seq<Payload>) {
    forall k | 0 <= k <= |ps| :: Chain(id, ps[..k]) != oldest
  }

  /**
   * What is not accepted is stopped at one id: the records after it are intact and counted, and it is not in the
   * store, or not the hash of what is there.
   */
  lemma {:induction false} RefusedAt(store: Store, oldest: Id, newest: Id, nValid: nat)
    returns (id: Id, ps: seq<Payload>)
    requires !Walk(store, oldest, newest, nValid).Valid?
    ensures newest == Chain(id, ps) && Intact(store, id, ps) && Without(oldest, id, ps)
    ensures match Walk(store, oldest, newest, nValid)
      case Missing(at, n) => at == id && n == nValid + |ps| && id !in store
      case Altered(at, n) =>
        at == id && n == nValid + |ps| && id in store && id != Hashed(store[id].payload, store[id].previousId)
    decreases newest
  {
    if newest !in store || newest != CreateHash(store[newest].payload, store[newest].previousId) {
      id, ps := newest, [];
      assert ps[..0] == [];
    } else {
      var front;
      id, front := RefusedAt(store, oldest, newest.previous, nValid + 1);
      ps := front + [newest.payload];
      assert ps[..|ps| - 1] == front;
      forall k | 0 <= k <= |ps| ensures Chain(id, ps[..k]) != oldest && (k > 0 ==> Entry(store, Chain(id, ps[..k]))) {
        if k < |ps| {
          assert ps[..k] == front[..k];
        } else {
          assert ps[..k] == ps;
        }
      }
    }
  }

  /** And wherever there is such an id, it is refused there. */
  lemma {:induction false} RefusedThere(store: Store, oldest: Id, id: Id, ps: seq<Payload>, nValid: nat)
    requires Intact(store, id, ps) && Without(oldest, id, ps)
    ensures id !in store ==> Walk(store, oldest, Chain(id, ps), nValid) == Missing(id, nValid + |ps|)
    ensures id in store && id != Hashed(store[id].payload, store[id].previousId)
      ==> Walk(store, oldest, Chain(id, ps), nValid) == Altered(id, nValid + |ps|)
  {
    if ps != [] {
      var front := ps[..|ps| - 1];
      assert ps[..|ps|] == ps && Entry(store, Chain(id, ps[..|ps|]));
      forall k | 0 <= k <= |front|
        ensures Chain(id, front[..k]) != oldest && (k > 0 ==> Entry(store, Chain(id, front[..k])))
      {
        assert front[..k] == ps[..k];
      }
      assert Chain(id, ps[..|ps|]) != oldest;
      RefusedThere(store, oldest, id, front, nValid + 1);
    } else {
      assert ps[..0] == [] && Chain(id, ps[..0]) != oldest;
    }
  }

  /** Two stores that are accepted between the same ids hold the same records there. */
  lemma AcceptedAgree(a: Store, b: Store, oldest: Id, newest: Id) returns (ps: seq<Payload>)
    requires Walk(a, oldest, newest, 0).Valid? && Walk(b, oldest, newest, 0).Valid?
    ensures newest == Chain(oldest, ps)
    ensures Walk(a, oldest, newest, 0) == Walk(b, oldest, newest, 0) == Valid(|ps|)
    ensures forall k | 1 <= k <= |ps| :: var id := Chain(oldest, ps[..k]);
      && id in a && id in b && a[id].payload == b[id].payload == ps[k - 1]
      && a[id].previousId == b[id].previousId == Chain(oldest, ps[..k - 1])
  {
    ps := AcceptedIsIntact(a, oldest, newest, 0);
    var qs := AcceptedIsIntact(b, oldest, newest, 0);
    ChainInjective(oldest, ps, qs);
    forall k | 1 <= k <= |ps|
      ensures var id := Chain(oldest, ps[..k]);
        && id in a && id in b && a[id].payload == b[id].payload == ps[k - 1]
        && a[id].previousId == b[id].previousId == Chain(oldest, ps[..k - 1])
    {
      assert Entry(a, Chain(oldest, ps[..k])) && Entry(b, Chain(oldest, ps[..k]));
      assert ps[..k][..k - 1] == ps[..k - 1];
    }
  }

  lemma ChainStoreIntact(ps: seq<Payload>)
    ensures Walk(ChainStore(ps), NullId, Chain(NullId, ps), 0) == Valid(|ps|)
  {
    forall k | 1 <= k <= |ps| ensures Entry(ChainStore(ps), Chain(NullId, ps[..k])) {
      MemberAt(ps, k);
    }
    IntactIsAccepted(ChainStore(ps), NullId, ps, 0);
  }
}
