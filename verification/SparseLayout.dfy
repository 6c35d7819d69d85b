/**
 * Where the sparse stream builder puts blocks: each block is sent when its last fragment arrives, so
 * its place is given by how many other blocks are complete by then.
 */
module SparseLayout {
  import opened Options
  import opened Bytes
  import opened VhdFormat
  import opened VhdLayout
  import opened Geometry

  const BLOCK_SECTORS: int := 4096
  const BITMAP_SIZE: int := 512
  const FULL_BLOCK: int := BITMAP_SIZE + BLOCK_SIZE
  const FULL_SECTORS: int := 4097

  function BlockOf(address: nat): nat { address / BLOCK_SIZE }

  /** No later fragment is in the same block. */
  predicate IsLast(addresses: seq<nat>, i: nat)
    requires i < |addresses|
  {
    forall k | i < k < |addresses| :: BlockOf(addresses[k]) != BlockOf(addresses[i])
  }

  /** How many blocks are complete before fragment `i`. */
  function Done(addresses: seq<nat>, i: nat): nat
    requires i <= |addresses|
  {
    if i == 0 then 0 else Done(addresses, i - 1) + if IsLast(addresses, i - 1) then 1 else 0
  }

  /** The blocks of the fragments from `i` on, the first to be complete last. */
  function Lasts(addresses: seq<nat>, i: nat): seq<nat>
    requires i <= |addresses|
    decreases |addresses| - i
  {
    if i == |addresses| then []
    else if IsLast(addresses, i) then Lasts(addresses, i + 1) + [BlockOf(addresses[i])]
    else Lasts(addresses, i + 1)
  }

  /** Block `b` has a fragment from `i` on. */
  ghost predicate Occurs(addresses: seq<nat>, i: nat, b: nat) {
    exists k :: i <= k < |addresses| && BlockOf(addresses[k]) == b
  }

  ghost predicate Distinct(s: seq<nat>) { forall m, l | 0 <= m < l < |s| :: s[m] != s[l] }

  lemma OccursNext(addresses: seq<nat>, i: nat, b: nat)
    requires i < |addresses|
    ensures Occurs(addresses, i, b) <==> BlockOf(addresses[i]) == b || Occurs(addresses, i + 1, b)
    ensures IsLast(addresses, i) <==> !Occurs(addresses, i + 1, BlockOf(addresses[i]))
  {
    if Occurs(addresses, i + 1, b) {
      var k :| i + 1 <= k < |addresses| && BlockOf(addresses[k]) == b;
    }
  }

  lemma {:induction false} LastsMembers(addresses: seq<nat>, i: nat)
    requires i <= |addresses|
    ensures forall b: nat :: b in Lasts(addresses, i) <==> Occurs(addresses, i, b)
    ensures Distinct(Lasts(addresses, i))
    ensures Done(addresses, i) + |Lasts(addresses, i)| == Done(addresses, |addresses|)
    decreases |addresses| - i
  {
    hide Occurs, BlockOf;
    if i < |addresses| {
      LastsMembers(addresses, i + 1);
      forall b: nat ensures b in Lasts(addresses, i) <==> Occurs(addresses, i, b) {
        OccursNext(addresses, i, b);
      }
      OccursNext(addresses, i, BlockOf(addresses[i]));
      var rest := Lasts(addresses, i + 1);
      assert forall m | 0 <= m < |rest| :: rest[m] in rest;
    } else {
      forall b: nat ensures !Occurs(addresses, i, b) {
        NotAtEnd(addresses, b);
      }
    }
  }

  lemma NotAtEnd(addresses: seq<nat>, b: nat)
    ensures !Occurs(addresses, |addresses|, b)
  {
  }

  /** The block that is complete with fragment `i` stands in the list at its place from the end. */
  lemma {:induction false} LastsAt(addresses: seq<nat>, i: nat, j: nat)
    requires i <= j < |addresses| && IsLast(addresses, j)
    ensures var m := |Lasts(addresses, j + 1)|;
      m < |Lasts(addresses, i)| && Lasts(addresses, i)[m] == BlockOf(addresses[j])
    decreases j - i
  {
    if i < j {
      LastsAt(addresses, i + 1, j);
    }
  }

  /** Every block that has a fragment has a last one. */
  lemma {:induction false} HasLast(addresses: seq<nat>, i: nat) returns (j: nat)
    requires i < |addresses|
    ensures i <= j < |addresses| && BlockOf(addresses[j]) == BlockOf(addresses[i]) && IsLast(addresses, j)
    decreases |addresses| - i
  {
    if IsLast(addresses, i) {
      j := i;
    } else {
      var k :| i < k < |addresses| && BlockOf(addresses[k]) == BlockOf(addresses[i]);
      j := HasLast(addresses, k);
    }
  }

  lemma {:induction false} DoneBound(addresses: seq<nat>, i: nat, j: nat)
    requires i <= j <= |addresses|
    ensures Done(addresses, i) <= Done(addresses, j)
    ensures i < j && IsLast(addresses, i) ==> Done(addresses, i) < Done(addresses, j)
  {
    if i < j {
      DoneBound(addresses, i, j - 1);
    }
  }

  // ----- the table -----------------------------------------------------------------------------------------

  /** Where the block of fragment `j`, its last, is put. */
  function PlaceOf(addresses: seq<nat>, first: nat, j: nat): nat
    requires j <= |addresses|
  {
    first + Done(addresses, j) * FULL_SECTORS
  }

  /** The table of the stream: each block that has fragments at the place of its last fragment. */
  ghost predicate Places(bat: Table, addresses: seq<nat>, first: nat) {
    && (forall j | 0 <= j < |addresses| && IsLast(addresses, j) ::
          BlockOf(addresses[j]) < |bat| && bat[BlockOf(addresses[j])] == PlaceOf(addresses, first, j) < U32_LIMIT)
    && (forall b | 0 <= b < |bat| && (forall j | 0 <= j < |addresses| :: BlockOf(addresses[j]) != b) ::
          bat[b] == BLOCK_UNUSED)
  }

  ghost predicate LastAddresses(last: map<nat, nat>, addresses: seq<nat>, i: nat)
    requires i <= |addresses|
  {
    && (forall b: nat :: b in last <==> Occurs(addresses, i, b))
    && (forall j | i <= j < |addresses| && IsLast(addresses, j) :: last[BlockOf(addresses[j])] == addresses[j])
  }

  datatype Allocation = Allocation(bat: Table, end: nat, last: map<nat, nat>)

  /** The backwards pass: blocks by their last fragment, last first. */
  method CollectLasts(addresses: seq<nat>) returns (last: map<nat, nat>, order: seq<nat>)
    ensures order == Lasts(addresses, 0) && LastAddresses(last, addresses, 0)
  {
    last, order := map[], [];
    forall b: nat ensures !Occurs(addresses, |addresses|, b) {
      NotAtEnd(addresses, b);
    }
    for i := |addresses| downto 0
      invariant order == Lasts(addresses, i) && LastAddresses(last, addresses, i)
    {
      var block := BlockOf(addresses[i]);
      LastNext(last, addresses, i);
      if block !in last {
        last := last[block := addresses[i]];
        order := order + [block];
      }
    }
  }

  lemma LastNext(last: map<nat, nat>, addresses: seq<nat>, i: nat)
    requires i < |addresses| && LastAddresses(last, addresses, i + 1)
    ensures BlockOf(addresses[i]) !in last <==> IsLast(addresses, i)
    ensures var block := BlockOf(addresses[i]);
      LastAddresses(if block in last then last else last[block := addresses[i]], addresses, i)
  {
    hide BlockOf, Occurs;
    forall b: nat ensures Occurs(addresses, i, b) <==> b == BlockOf(addresses[i]) || b in last {
      OccursNext(addresses, i, b);
    }
    OccursNext(addresses, i, BlockOf(addresses[i]));
    forall j | i < j < |addresses| && IsLast(addresses, j) && IsLast(addresses, i)
      ensures BlockOf(addresses[j]) != BlockOf(addresses[i])
    {
    }
  }

  /** The entries of the last blocks in `order`, from `k` on, are filled in one after the other. */
  ghost predicate Filled(bat: Table, order: seq<nat>, first: nat, k: nat) {
    && (forall m | k <= m < |order| ::
          order[m] < |bat| && bat[order[m]] == first + (|order| - 1 - m) * FULL_SECTORS < U32_LIMIT)
    && (forall b | 0 <= b < |bat| && b !in order[Min(k, |order|)..] :: bat[b] == BLOCK_UNUSED)
  }

  /** The forwards pass over distinct blocks. */
  method Allocate(order: seq<nat>, first: nat, entries: nat) returns (r: Option<(Table, nat)>)
    requires forall m | 0 <= m < |order| :: order[m] < entries
    requires Distinct(order)
    ensures r.Some? ==> |r.value.0| == entries && Filled(r.value.0, order, first, 0)
    ensures r.Some? ==> r.value.1 == first + |order| * FULL_SECTORS
    ensures r.None? <==> |order| > 0 && first + (|order| - 1) * FULL_SECTORS >= U32_LIMIT
  {
    var bat: Table := seq(entries, i => BLOCK_UNUSED);
    var sector := first;
    for k := |order| downto 0
      invariant |bat| == entries && sector == first + (|order| - k) * FULL_SECTORS
      invariant Filled(bat, order, first, k) && (k < |order| ==> sector - FULL_SECTORS < U32_LIMIT)
    {
      FilledNext(bat, order, first, k);
      if bat[order[k]] == BLOCK_UNUSED {
        if sector >= U32_LIMIT {
          return None;
        }
        bat := bat[order[k] := sector];
        sector := sector + FULL_SECTORS;
      }
    }
    return Some((bat, sector));
  }

  lemma FilledNext(bat: Table, order: seq<nat>, first: nat, k: nat)
    requires k < |order| && Filled(bat, order, first, k + 1) && order[k] < |bat|
    requires Distinct(order)
    ensures bat[order[k]] == BLOCK_UNUSED
    ensures var sector := first + (|order| - 1 - k) * FULL_SECTORS;
      sector < U32_LIMIT ==> Filled(bat[order[k] := sector], order, first, k)
  {
    assert order[k..] == [order[k]] + order[k + 1..];
  }

  /** The last block starts past the sectors that an entry can name. */
  predicate TooLong(addresses: seq<nat>, first: nat) {
    Done(addresses, |addresses|) > 0 && PlaceOf(addresses, first, |addresses|) - FULL_SECTORS >= U32_LIMIT
  }

  /** createBAT: None when an address does not fit its entry. */
  method CreateBat(addresses: seq<nat>, first: nat, entries: nat) returns (r: Option<Allocation>)
    requires forall i | 0 <= i < |addresses| :: BlockOf(addresses[i]) < entries
    ensures r.Some? ==> |r.value.bat| == entries && Places(r.value.bat, addresses, first)
    ensures r.Some?
      ==> r.value.end == PlaceOf(addresses, first, |addresses|) && LastAddresses(r.value.last, addresses, 0)
    ensures r.None? <==> TooLong(addresses, first)
  {
    var last, order := CollectLasts(addresses);
    LastsMembers(addresses, 0);
    forall m | 0 <= m < |order| ensures order[m] < entries {
      assert order[m] in order && Occurs(addresses, 0, order[m]);
    }
    var placed := Allocate(order, first, entries);
    if placed.None? {
      return None;
    }
    FilledPlaces(placed.value.0, addresses, first);
    return Some(Allocation(placed.value.0, placed.value.1, last));
  }

  lemma FilledPlaces(bat: Table, addresses: seq<nat>, first: nat)
    requires Filled(bat, Lasts(addresses, 0), first, 0)
    ensures Places(bat, addresses, first)
  {
    var order := Lasts(addresses, 0);
    LastsMembers(addresses, 0);
    assert order[0..] == order;
    forall b: nat | b < |bat| && (forall j | 0 <= j < |addresses| :: BlockOf(addresses[j]) != b) ensures b !in order {
      assert !Occurs(addresses, 0, b);
    }
    forall j | 0 <= j < |addresses| && IsLast(addresses, j)
      ensures BlockOf(addresses[j]) < |bat| && bat[BlockOf(addresses[j])] == PlaceOf(addresses, first, j) < U32_LIMIT
    {
      LastsAt(addresses, 0, j);
      LastsMembers(addresses, j + 1);
      DoneBound(addresses, j, j + 1);
    }
  }
}
