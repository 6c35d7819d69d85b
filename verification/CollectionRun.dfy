/** Runs of a collection with an index that follows it. */
module CollectionRun {
  import opened Options
  import opened XoCollection
  import opened CollectionIndex

  datatype Op =
    | OpAdd(key: Key, value: Value)
    | OpSet(key: Key, value: Value)
    | OpUpdate(key: Key, value: Value)
    | OpTouch(key: Key, content: string)
    | OpRemove(key: Key)
    | OpUnset(key: Key)
    | OpClear
    | OpBuffer
    | OpFlush(flush: nat)

  /** The items that an operation leaves. */
  function ItemsAfter(items: Items, op: Op): Items {
    match op
    case OpAdd(key, value) => if key in items then items else items[key := value]
    case OpSet(key, value) => items[key := value]
    case OpUpdate(key, value) => if key in items then items[key := value] else items
    case OpTouch(key, content) =>
      if key in items && items[key].Object? then items[key := items[key].(content := content)] else items
    case OpRemove(key) => items - {key}
    case OpUnset(key) => items - {key}
    case OpClear => map[]
    case _ => items
  }

  function Replay(items: Items, ops: seq<Op>): Items {
    if ops == [] then items else ItemsAfter(Replay(items, ops[..|ops| - 1]), ops[|ops| - 1])
  }

  /** The operation is not about this key. */
  predicate Spares(op: Op, k: Key) {
    match op
    case OpAdd(key, _) => key != k
    case OpSet(key, _) => key != k
    case OpUpdate(key, _) => key != k
    case OpTouch(key, _) => key != k
    case OpRemove(key) => key != k
    case OpUnset(key) => key != k
    case _ => true
  }

  lemma SparesWhen(op: Op, k: Key)
    ensures Spares(op, k) <==> op.OpClear? || op.OpBuffer? || op.OpFlush? || op.key != k
  {
  }

  /** The collection neither has the item nor is to report on it, but the index lists it. */
  ghost predicate Stale(c: Collection, index: Index, h: Hash, k: Key)
    reads c, index
  {
    k !in c.items && k !in c.buffer && Listed(index.State(), h, k)
  }

  /** An addition or an update of a key stays explained. */
  lemma SetFollows(known: Items, items: Items, buffer: map<Key, Action>, key: Key, value: Value)
    requires Pending(known, items, buffer)
    ensures Pending(known, items[key := value], Touched(buffer, if key in items then ActionUpdate else ActionAdd, key))
  {
    if key in items {
      Updated(items, key, value);
      StillPending(known, items, items[key := value], buffer, ActionUpdate, key);
    } else {
      Added(items, key, value);
      StillPending(known, items, items[key := value], buffer, ActionAdd, key);
    }
  }

  lemma RemoveFollows(known: Items, items: Items, buffer: map<Key, Action>, key: Key)
    requires Pending(known, items, buffer)
    ensures key in items ==> Pending(known, items - {key}, Touched(buffer, ActionRemove, key))
    ensures key !in items ==> items - {key} == items
  {
    if key in items {
      Removed(items, key);
      StillPending(known, items, items - {key}, buffer, ActionRemove, key);
    }
  }

  method Apply(c: Collection, index: Index, op: Op, ghost known: Items, ghost h: Hash, ghost k: Key)
    returns (ghost known': Items)
    requires c.Valid() && c.WillFlush() && index.Consistent()
    modifies c, index
    ensures c.Valid() && c.WillFlush() && index.Consistent() && c.items == ItemsAfter(old(c.items), op)
    ensures old(Explains(c, index, known)) ==> Explains(c, index, known')
    ensures old(Stale(c, index, h, k)) && Spares(op, k) ==> Stale(c, index, h, k)
  {
    hide Pending, Indexes, Exact;
    known' := known;
    match op {
      case OpClear => Cleared(c, index, known);
      case OpBuffer => var flush := c.BufferEvents();
      case OpFlush(flush) =>
        if flush < c.made {
          var r;
          r, known' := FlushAndNotify(c, index, flush, known);
        }
      case _ => ApplyToItem(c, op, known);
    }
  }

  /** The operations on one key. */
  method ApplyToItem(c: Collection, op: Op, ghost known: Items)
    requires c.Valid() && c.WillFlush()
    requires !op.OpClear? && !op.OpBuffer? && !op.OpFlush?
    modifies c
    ensures c.Valid() && c.WillFlush() && c.items == ItemsAfter(old(c.items), op)
    ensures old(Pending(known, c.items, c.buffer)) ==> Pending(known, c.items, c.buffer)
    ensures forall k | Spares(op, k) && k !in old(c.items) && k !in old(c.buffer) :: k !in c.items && k !in c.buffer
  {
    hide Pending, Exact;
    Following(Pending(known, c.items, c.buffer), known, c.items, c.buffer, op);
    match op {
      case OpAdd(key, value) => var r := c.Add(key, value);
      case OpSet(key, value) => c.Set(key, value);
      case OpUpdate(key, value) => var r := c.Update(key, value);
      case OpTouch(key, content) => var r := c.Touch(key, content);
      case OpRemove(key) => var r := c.Remove(key);
      case OpUnset(key) => c.Unset(key);
    }
  }

  /** What the operations on one key leave explained. */
  lemma Following(explained: bool, known: Items, items: Items, buffer: map<Key, Action>, op: Op)
    requires explained ==> Pending(known, items, buffer)
    ensures explained ==> match op
      case OpAdd(key, value) => Sets(known, items, buffer, key, value)
      case OpSet(key, value) => Sets(known, items, buffer, key, value)
      case OpUpdate(key, value) => Sets(known, items, buffer, key, value)
      case OpTouch(key, content) =>
        key in items && items[key].Object? ==> Sets(known, items, buffer, key, items[key].(content := content))
      case OpRemove(key) => Removes(known, items, buffer, key)
      case OpUnset(key) => Removes(known, items, buffer, key)
      case _ => true
  {
    if explained {
      match op {
        case OpAdd(key, value) => SetFollows(known, items, buffer, key, value);
        case OpSet(key, value) => SetFollows(known, items, buffer, key, value);
        case OpUpdate(key, value) => SetFollows(known, items, buffer, key, value);
        case OpTouch(key, content) =>
          if key in items && items[key].Object? {
            SetFollows(known, items, buffer, key, items[key].(content := content));
          }
        case OpRemove(key) => RemoveFollows(known, items, buffer, key);
        case OpUnset(key) => RemoveFollows(known, items, buffer, key);
        case _ =>
      }
    }
  }

  ghost predicate Sets(known: Items, items: Items, buffer: map<Key, Action>, key: Key, value: Value) {
    Pending(known, items[key := value], Touched(buffer, if key in items then ActionUpdate else ActionAdd, key))
  }

  ghost predicate Removes(known: Items, items: Items, buffer: map<Key, Action>, key: Key) {
    if key in items then Pending(known, items - {key}, Touched(buffer, ActionRemove, key)) else items - {key} == items
  }

  method Cleared(c: Collection, index: Index, ghost known: Items)
    requires c.Valid() && c.WillFlush()
    modifies c
    ensures c.Valid() && c.WillFlush() && c.items == map[]
    ensures old(Explains(c, index, known)) ==> Explains(c, index, known)
    ensures forall k | k !in old(c.items) && k !in old(c.buffer) :: k !in c.buffer
  {
    ghost var knows := if Explains(c, index, known) then known else c.base;
    c.Clear(knows);
  }

  /** Flushes whatever is pending, as the callers and the next tick will. */
  method FlushAll(c: Collection, index: Index, ghost known: Items, ghost h: Hash, ghost k: Key)
    requires c.Valid() && c.WillFlush() && index.Consistent()
    modifies c, index
    ensures c.Valid() && c.items == old(c.items) && c.buffer == map[] && index.Consistent()
    ensures old(Explains(c, index, known)) ==> index.Knows(c.items)
    ensures old(Stale(c, index, h, k)) ==> Stale(c, index, h, k)
  {
    hide Pending, Indexes, Exact, Kept;
    ghost var now, explained := known, Explains(c, index, known);
    while c.unflushed != {}
      invariant c.Valid() && c.WillFlush() && index.Consistent() && c.items == old(c.items)
      invariant explained ==> Explains(c, index, now)
      invariant old(Stale(c, index, h, k)) ==> Stale(c, index, h, k)
      decreases |c.unflushed|
    {
      var flush :| flush in c.unflushed;
      ghost var g, pending := index.State(), c.buffer.Keys;
      var r;
      r, now := FlushAndNotify(c, index, flush, now);
      StillListed(g, index.State(), pending, h, k);
    }
    if explained {
      NothingLeft(now, c.items, c.buffer);
    }
  }

  lemma StillListed(g: Groups, g': Groups, keys: set<Key>, h: Hash, k: Key)
    requires Kept(g, g', keys)
    ensures k !in keys && Listed(g, h, k) ==> Listed(g', h, k)
  {
  }

  lemma NothingLeft(known: Items, items: Items, buffer: map<Key, Action>)
    requires Pending(known, items, buffer)
    ensures buffer == map[] ==> known == items
  {
    if buffer == map[] {
      NothingPendingAtAll(known, items);
    }
  }

  /**
   * An index attached while no addition is pending, then any run, then all flushes: swept, it is the
   * index that would be built from the items from scratch.
   */
  method RunAndCompare(c: Collection, f: Hasher, ops: seq<Op>) returns (index: Index, rebuilt: Index)
    requires c.Valid() && c.WillFlush() && !AddPending(c.buffer)
    modifies c
    ensures c.items == Replay(old(c.items), ops)
    ensures index.Knows(c.items) && index.State() == rebuilt.State()
  {
    hide Pending, Indexes, Exact, AddPending, Swept, Kept, Stale, ItemsAfter;
    CanFollow(c.base, c.items, c.buffer);
    index := new Index(f);
    Attach(index, c);
    ghost var known, items := c.items, c.items;
    for i := 0 to |ops|
      invariant c.Valid() && c.WillFlush() && index.Consistent() && Explains(c, index, known)
      invariant fresh(index) && index.computeHash == f && c.items == Replay(items, ops[..i])
    {
      assert ops[..i + 1][..i] == ops[..i];
      known := Apply(c, index, ops[i], known, "", "");
    }
    assert ops[..|ops|] == ops;
    FlushAll(c, index, known, "", "");
    index.Sweep(c.items);
    rebuilt := new Index(f);
    Attach(rebuilt, c);
    rebuilt.Sweep(c.items);
    SameGroups(index.State(), rebuilt.State(), f, c.items);
  }

  /**
   * If an addition is pending when the index is attached, removing that item leaves it in the index for
   * good: the removal cancels the addition in the buffer, and whatever is done to other items later, after
   * all flushes and the sweep the index still lists it.
   */
  method StaleForEver(c: Collection, f: Hasher, key: Key, ops: seq<Op>) returns (index: Index, h: Hash)
    requires c.Valid() && c.WillFlush() && key in c.buffer && c.buffer[key] == ActionAdd
    requires key in c.items && f(c.items[key], key).Some?
    requires forall i | 0 <= i < |ops| :: Spares(ops[i], key)
    modifies c
    ensures c.Valid() && c.items == Replay(old(c.items) - {key}, ops) && c.buffer == map[]
    ensures key !in c.items && Listed(index.State(), h, key)
  {
    hide Pending, Indexes, Exact, Kept, Swept, ItemsAfter;
    index := new Index(f);
    Attach(index, c);
    h := f(c.items[key], key).value;
    IsListed(index.State(), f, c.items, h, key);
    var r := c.Remove(key);
    ghost var known, items := c.items, c.items;
    for i := 0 to |ops|
      invariant c.Valid() && c.WillFlush() && index.Consistent() && Stale(c, index, h, key) && fresh(index)
      invariant c.items == Replay(items, ops[..i])
    {
      assert ops[..i + 1][..i] == ops[..i];
      known := Apply(c, index, ops[i], known, h, key);
    }
    assert ops[..|ops|] == ops;
    FlushAll(c, index, known, h, key);
    ghost var g := index.State();
    index.Sweep(c.items);
    StillListed(g, index.State(), {}, h, key);
  }

  lemma IsListed(g: Groups, f: Hasher, known: Items, h: Hash, k: Key)
    requires Indexes(g, f, known) && k in known && f(known[k], k) == Some(h)
    ensures Listed(g, h, k)
  {
    assert HashesTo(known, f, h, k);
  }
}
