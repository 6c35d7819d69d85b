/** An index of a collection: its items grouped by a hash, kept up to date by the collection's events. */
module CollectionIndex {
  import opened Options
  import opened XoCollection

  type Hash = string

  /** What an index holds. */
  datatype Groups = Groups(itemsByHash: map<Hash, Items>, keysToHash: map<Key, Hash>)

  type Hasher = (Value, Key) -> Option<Hash>

  predicate Listed(g: Groups, h: Hash, k: Key) { h in g.itemsByHash && k in g.itemsByHash[h] }

  predicate HashesTo(known: Items, f: Hasher, h: Hash, k: Key) { k in known && f(known[k], k) == Some(h) }

  /** The groups are those of `known`, but for empty ones. */
  ghost predicate Indexes(g: Groups, f: Hasher, known: Items) {
    && (forall h, k :: Listed(g, h, k) <==> HashesTo(known, f, h, k))
    && (forall h, k | Listed(g, h, k) :: g.itemsByHash[h][k] == known[k])
    && (forall k :: k in g.keysToHash <==> k in known && f(known[k], k).Some?)
    && (forall k | k in g.keysToHash :: f(known[k], k) == Some(g.keysToHash[k]))
  }

  /** The item joins its list, which is made if need be. */
  function Inserted(g: Groups, h: Hash, k: Key, v: Value): Groups {
    var list := if h in g.itemsByHash then g.itemsByHash[h] else map[];
    Groups(g.itemsByHash[h := list[k := v]], g.keysToHash[k := h])
  }

  /** The item leaves its list. */
  function Deleted(g: Groups, k: Key): Groups {
    if k in g.keysToHash && g.keysToHash[k] in g.itemsByHash then
      var h := g.keysToHash[k];
      Groups(g.itemsByHash[h := g.itemsByHash[h] - {k}], g.keysToHash - {k})
    else g
  }

  lemma InsertedIndexes(g: Groups, f: Hasher, known: Items, k: Key, v: Value)
    requires Indexes(g, f, known) && k !in known
    ensures Indexes(if f(v, k).Some? then Inserted(g, f(v, k).value, k, v) else g, f, known[k := v])
  {
    var after := if f(v, k).Some? then Inserted(g, f(v, k).value, k, v) else g;
    forall h, l
      ensures Listed(after, h, l) <==> HashesTo(known[k := v], f, h, l)
      ensures Listed(after, h, l) ==> after.itemsByHash[h][l] == known[k := v][l]
    {
      assert Listed(g, h, l) <==> HashesTo(known, f, h, l);
    }
  }

  lemma DeletedIndexes(g: Groups, f: Hasher, known: Items, k: Key)
    requires Indexes(g, f, known)
    ensures Indexes(Deleted(g, k), f, known - {k})
  {
    var after := Deleted(g, k);
    if k in g.keysToHash {
      assert HashesTo(known, f, g.keysToHash[k], k);
      assert Listed(g, g.keysToHash[k], k);
    }
    forall h, l
      ensures Listed(after, h, l) <==> HashesTo(known - {k}, f, h, l)
      ensures Listed(after, h, l) ==> after.itemsByHash[h][l] == (known - {k})[l]
    {
      assert Listed(g, h, l) <==> HashesTo(known, f, h, l);
    }
  }

  /** An index without empty lists is determined by what it indexes. */
  lemma SameGroups(a: Groups, b: Groups, f: Hasher, known: Items)
    requires Indexes(a, f, known) && Indexes(b, f, known) && Swept(a) && Swept(b)
    ensures a == b
  {
    forall h ensures h in a.itemsByHash <==> h in b.itemsByHash {
      if h in a.itemsByHash {
        var k :| k in a.itemsByHash[h];
        assert Listed(a, h, k) && Listed(b, h, k);
      }
      if h in b.itemsByHash {
        var k :| k in b.itemsByHash[h];
        assert Listed(b, h, k) && Listed(a, h, k);
      }
    }
    forall h | h in a.itemsByHash ensures a.itemsByHash[h] == b.itemsByHash[h] {
      forall k ensures k in a.itemsByHash[h] <==> k in b.itemsByHash[h] {
        assert Listed(a, h, k) <==> Listed(b, h, k);
      }
      forall k | k in a.itemsByHash[h] ensures a.itemsByHash[h][k] == b.itemsByHash[h][k] {
        assert Listed(a, h, k) && Listed(b, h, k);
      }
    }
    assert a.itemsByHash == b.itemsByHash;
    assert a.keysToHash == b.keysToHash;
  }

  ghost predicate Swept(g: Groups) { forall h | h in g.itemsByHash :: g.itemsByHash[h] != map[] }

  class Index {
    const computeHash: Hasher
    var itemsByHash: map<Hash, Items>
    var keysToHash: map<Key, Hash>

    ghost function State(): Groups
      reads this
    {
      Groups(itemsByHash, keysToHash)
    }

    ghost predicate Knows(known: Items)
      reads this
    {
      Indexes(State(), computeHash, known)
    }

    /** Every key with a hash is in the list of that hash. */
    ghost predicate Consistent()
      reads this
    {
      forall k | k in keysToHash :: Listed(State(), keysToHash[k], k)
    }

    constructor (computeHash: Hasher)
      ensures this.computeHash == computeHash && Knows(map[]) && Swept(State()) && Consistent()
    {
      this.computeHash, itemsByHash, keysToHash := computeHash, map[], map[];
    }

    method Insert(key: Key, value: Value, ghost known: Items)
      requires Consistent()
      modifies this
      ensures Consistent() && Kept(old(State()), State(), {key})
      ensures old(Knows(known)) && key !in known ==> Knows(known[key := value])
    {
      if Knows(known) && key !in known {
        InsertedIndexes(State(), computeHash, known, key, value);
      }
      var hash := computeHash(value, key);
      if hash.Some? {
        var list := if hash.value in itemsByHash then itemsByHash[hash.value] else map[];
        itemsByHash := itemsByHash[hash.value := list[key := value]];
        keysToHash := keysToHash[key := hash.value];
      }
    }

    method Delete(key: Key, ghost known: Items)
      requires Consistent()
      modifies this
      ensures Consistent() && Kept(old(State()), State(), {key})
      ensures old(Knows(known)) ==> Knows(known - {key})
    {
      if Knows(known) {
        DeletedIndexes(State(), computeHash, known, key);
      }
      if key in keysToHash {
        assert Listed(State(), keysToHash[key], key);
        var prev := keysToHash[key];
        itemsByHash := itemsByHash[prev := itemsByHash[prev] - {key}];
        keysToHash := keysToHash - {key};
      }
    }

    /** _onAdd; what the index knew stays known if the items were not among it. */
    method OnAdd(items: Items, ghost known: Items)
      requires Consistent()
      modifies this
      ensures Consistent() && Kept(old(State()), State(), items.Keys)
      ensures old(Knows(known)) && (forall k | k in items :: k !in known) ==> Knows(known + items)
    {
      hide Indexes, Kept;
      var rest := items.Keys;
      NothingChanged(State(), items.Keys);
      assert known + (map k | k in items && k !in rest :: items[k]) == known;
      while rest != {}
        invariant rest <= items.Keys && Consistent() && Kept(old(State()), State(), items.Keys)
        invariant old(Knows(known)) && (forall k | k in items :: k !in known)
          ==> Knows(known + (map k | k in items && k !in rest :: items[k]))
      {
        var key :| key in rest;
        ghost var before, g := known + (map k | k in items && k !in rest :: items[k]), State();
        Insert(key, items[key], before);
        KeptTwice(old(State()), g, State(), items.Keys, key);
        rest := rest - {key};
        assert before[key := items[key]] == known + (map k | k in items && k !in rest :: items[k]);
      }
      assert known + (map k | k in items && k !in rest :: items[k]) == known + items;
    }

    /** _onUpdate */
    method OnUpdate(items: Items, ghost known: Items)
      requires Consistent()
      modifies this
      ensures Consistent() && Kept(old(State()), State(), items.Keys)
      ensures old(Knows(known)) ==> Knows(known + items)
    {
      hide Indexes, Kept;
      var rest := items.Keys;
      NothingChanged(State(), items.Keys);
      assert known + (map k | k in items && k !in rest :: items[k]) == known;
      while rest != {}
        invariant rest <= items.Keys && Consistent() && Kept(old(State()), State(), items.Keys)
        invariant old(Knows(known)) ==> Knows(known + (map k | k in items && k !in rest :: items[k]))
      {
        var key :| key in rest;
        ghost var before := known + (map k | k in items && k !in rest :: items[k]);
        UpdateOne(key, items[key], before, old(State()), items.Keys);
        rest := rest - {key};
        assert (before - {key})[key := items[key]] == known + (map k | k in items && k !in rest :: items[k]);
      }
      assert known + (map k | k in items && k !in rest :: items[k]) == known + items;
    }

    /** The item leaves the list it was in, and joins that of its hash. */
    method UpdateOne(key: Key, value: Value, ghost known: Items, ghost start: Groups, ghost keys: set<Key>)
      requires Consistent() && Kept(start, State(), keys) && key in keys
      modifies this
      ensures Consistent() && Kept(start, State(), keys)
      ensures old(Knows(known)) ==> Knows((known - {key})[key := value])
    {
      hide Indexes, Kept;
      ghost var g := State();
      Delete(key, known);
      KeptTwice(start, g, State(), keys, key);
      ghost var g' := State();
      Insert(key, value, known - {key});
      KeptTwice(start, g', State(), keys, key);
    }

    /** _onRemove */
    method OnRemove(keys: set<Key>, ghost known: Items)
      requires Consistent()
      modifies this
      ensures Consistent() && Kept(old(State()), State(), keys)
      ensures old(Knows(known)) ==> Knows(known - keys)
    {
      hide Indexes, Kept;
      var rest := keys;
      NothingChanged(State(), keys);
      assert known - (keys - rest) == known;
      while rest != {}
        invariant rest <= keys && Consistent() && Kept(old(State()), State(), keys)
        invariant old(Knows(known)) ==> Knows(known - (keys - rest))
      {
        var key :| key in rest;
        ghost var before, g := known - (keys - rest), State();
        Delete(key, before);
        KeptTwice(old(State()), g, State(), keys, key);
        rest := rest - {key};
        assert before - {key} == known - (keys - rest);
      }
      assert keys - rest == keys;
    }

    /** Removes the empty lists. */
    method Sweep(ghost known: Items)
      requires Consistent()
      modifies this
      ensures Consistent() && Swept(State()) && Kept(old(State()), State(), {})
      ensures old(Knows(known)) ==> Knows(known)
    {
      var rest := itemsByHash.Keys;
      while rest != {}
        invariant Consistent() && rest <= itemsByHash.Keys && Kept(old(State()), State(), {})
        invariant old(Knows(known)) ==> Knows(known)
        invariant forall h | h in itemsByHash && h !in rest :: itemsByHash[h] != map[]
      {
        var h :| h in rest;
        if itemsByHash[h] == map[] {
          if Knows(known) {
            SweptOne(State(), computeHash, known, h);
          }
          itemsByHash := itemsByHash - {h};
        }
        rest := rest - {h};
      }
    }
  }

  /** Items with other keys are still listed where they were. */
  ghost predicate Kept(g: Groups, g': Groups, keys: set<Key>) {
    forall h, k | k !in keys && Listed(g, h, k) :: Listed(g', h, k)
  }

  lemma NothingChanged(g: Groups, keys: set<Key>)
    ensures Kept(g, g, keys)
  {
  }

  lemma KeptTwice(a: Groups, b: Groups, c: Groups, keys: set<Key>, key: Key)
    requires Kept(a, b, keys) && Kept(b, c, {key}) && key in keys
    ensures Kept(a, c, keys)
  {
  }

  lemma KeptAll(a: Groups, b: Groups, c: Groups, d: Groups, x: set<Key>, y: set<Key>, z: set<Key>, all: set<Key>)
    requires Kept(a, b, x) && Kept(b, c, y) && Kept(c, d, z) && x + y + z <= all
    ensures Kept(a, d, all)
  {
  }

  lemma SweptOne(g: Groups, f: Hasher, known: Items, h: Hash)
    requires Indexes(g, f, known) && h in g.itemsByHash && g.itemsByHash[h] == map[]
    ensures Indexes(g.(itemsByHash := g.itemsByHash - {h}), f, known)
  {
    var after := g.(itemsByHash := g.itemsByHash - {h});
    forall i, k ensures Listed(after, i, k) <==> Listed(g, i, k) {
    }
  }

  // ----- following a collection -----------------------------------------------------------------------------------

  /** An addition is pending. */
  ghost predicate AddPending(buffer: map<Key, Action>) { exists k :: k in buffer && buffer[k] == ActionAdd }

  /** An index that takes all items knows enough to follow, if and only if no addition is pending. */
  lemma CanFollow(base: Items, items: Items, buffer: map<Key, Action>)
    requires Exact(base, items, buffer)
    ensures Pending(items, items, buffer) <==> !AddPending(buffer)
  {
    if AddPending(buffer) {
      var k :| k in buffer && buffer[k] == ActionAdd;
      assert Explained(base, items, buffer, k);
      assert !Explained(items, items, buffer, k);
    } else {
      forall k ensures Explained(items, items, buffer, k) {
        assert Explained(base, items, buffer, k);
      }
    }
  }

  /** What was known and what is reported make what there is. */
  lemma CaughtUp(c: Changes, known: Items, items: Items, buffer: map<Key, Action>)
    requires Pending(known, items, buffer) && Reported(c, buffer, items)
    ensures (forall k | k in c.add :: k !in known) && (known + c.add) - c.remove + c.update == items
  {
    var after := (known + c.add) - c.remove + c.update;
    forall k
      ensures k in c.add ==> k !in known
      ensures k in after <==> k in items
      ensures k in items ==> after[k] == items[k]
    {
      assert Explained(known, items, buffer, k);
    }
  }

  /** Attaching takes all items there are. */
  method Attach(index: Index, c: Collection)
    requires index.Knows(map[]) && index.Consistent()
    modifies index
    ensures index.Knows(c.items) && index.Consistent()
  {
    index.OnAdd(c.items, map[]);
    assert map[] + c.items == c.items;
  }

  /** The index knows `known`, and what is pending tells it the rest. */
  ghost predicate Explains(c: Collection, index: Index, known: Items)
    reads c, index
  {
    Pending(known, c.items, c.buffer) && index.Knows(known)
  }

  /** A flush, with its events: add, then remove, then update. They concern what was pending only. */
  method FlushAndNotify(c: Collection, index: Index, flush: nat, ghost known: Items)
    returns (r: Result<Option<Changes>>, ghost known': Items)
    requires c.Valid() && c.WillFlush() && flush < c.made && index.Consistent()
    modifies c, index
    ensures c.Valid() && c.WillFlush() && c.items == old(c.items) && c.unflushed == old(c.unflushed) - {flush}
    ensures index.Consistent() && Kept(old(index.State()), index.State(), old(c.buffer).Keys)
    ensures c.buffer == old(c.buffer) || c.buffer == map[]
    ensures r.Ok? && c.unflushed == {} ==> c.buffer == map[]
    ensures old(Explains(c, index, known))
      ==> Explains(c, index, known') && (r.Ok? && c.unflushed == {} ==> known' == c.items)
  {
    hide Indexes, Kept, Reported, Pending, Exact;
    ghost var buffer, g, explained := c.buffer, index.State(), Explains(c, index, known);
    r := c.Flush(flush);
    known' := known;
    NothingChanged(g, buffer.Keys);
    if r.Ok? && r.value.Some? {
      var changes := r.value.value;
      if explained {
        CaughtUp(changes, known, c.items, buffer);
      }
      ReportedKeys(changes, buffer, c.items);
      index.OnAdd(changes.add, known);
      ghost var g1 := index.State();
      index.OnRemove(changes.remove, known + changes.add);
      ghost var g2 := index.State();
      index.OnUpdate(changes.update, (known + changes.add) - changes.remove);
      KeptAll(g, g1, g2, index.State(), changes.add.Keys, changes.remove, changes.update.Keys, buffer.Keys);
      known' := if explained then c.items else known;
      NothingPends(c.items);
    } else if r.Ok? && c.unflushed == {} && explained {
      NothingPendingAtAll(known, c.items);
      known' := c.items;
    }
  }

  /** A report speaks only of what was pending. */
  lemma ReportedKeys(c: Changes, buffer: map<Key, Action>, items: Items)
    requires Reported(c, buffer, items)
    ensures c.add.Keys + c.remove + c.update.Keys <= buffer.Keys
  {
  }

  lemma NothingPends(items: Items)
    ensures Pending(items, items, map[])
  {
    NothingPending(items);
  }

  lemma NothingPendingAtAll(known: Items, items: Items)
    requires Pending(known, items, map[])
    ensures known == items
  {
    forall k ensures (k in known <==> k in items) && (k in items ==> known[k] == items[k]) {
      assert Explained(known, items, map[], k);
    }
  }
}
