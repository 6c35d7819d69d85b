/** The event-buffered collection of xo-collection: what it holds, and what a flush reports. */
module XoCollection {
  import opened Options

  type Key = string

  datatype Value = Primitive(n: int) | Object(id: int, content: string)

  type Items = map<Key, Value>

  datatype Action = ActionAdd | ActionUpdate | ActionRemove

  datatype Error = DuplicateItem(key: Key) | NoSuchItem(key: Key) | IllegalTouch(value: Value) | BufferAlreadyFlushed

  datatype Result<+T> = Ok(value: T) | Err(error: Error)

  // ----- what is pending ------------------------------------------------------------------------------------

  /** For each key, what the buffer says of it, given that `known` is what listeners know. */
  ghost predicate Pending(known: Items, items: Items, buffer: map<Key, Action>) {
    forall k :: Explained(known, items, buffer, k)
  }

  ghost predicate Explained(known: Items, items: Items, buffer: map<Key, Action>, k: Key) {
    if k !in buffer then (k in known <==> k in items) && (k in items ==> known[k] == items[k])
    else match buffer[k]
      case ActionAdd => k !in known && k in items
      case ActionUpdate => k in items
      case ActionRemove => k !in items
  }

  /** And for the collection's own snapshot, an update or a removal is of something that was there. */
  ghost predicate Exact(base: Items, items: Items, buffer: map<Key, Action>) {
    Pending(base, items, buffer) && forall k | k in buffer && buffer[k] != ActionAdd :: k in base
  }

  /** The buffer after one more action on a key, as _touch does it. */
  function Touched(buffer: map<Key, Action>, action: Action, key: Key): map<Key, Action> {
    match action
    case ActionAdd => buffer[key := if key in buffer then ActionUpdate else ActionAdd]
    case ActionRemove =>
      if key in buffer && buffer[key] == ActionAdd then buffer - {key} else buffer[key := ActionRemove]
    case ActionUpdate => if key in buffer then buffer else buffer[key := ActionUpdate]
  }

  /** The items after the same action. */
  ghost predicate Acted(before: Items, after: Items, action: Action, key: Key) {
    match action
    case ActionAdd => key !in before && key in after && after - {key} == before
    case ActionRemove => key in before && after == before - {key}
    case ActionUpdate => key in before && key in after && after - {key} == before - {key}
  }

  lemma OtherKeys(before: Items, after: Items, action: Action, key: Key, k: Key)
    requires Acted(before, after, action, key) && k != key
    ensures k in before <==> k in after
    ensures k in before ==> before[k] == after[k]
  {
    assert k in after <==> k in after - {key};
    assert k in before <==> k in before - {key};
    if k in before {
      assert (before - {key})[k] == before[k];
    }
    if k in after {
      assert (after - {key})[k] == after[k];
    }
  }

  /** What listeners know stays explained, whatever is done to the collection. */
  lemma StillPending(known: Items, before: Items, after: Items, buffer: map<Key, Action>, action: Action, key: Key)
    requires Pending(known, before, buffer) && Acted(before, after, action, key)
    ensures Pending(known, after, Touched(buffer, action, key))
  {
    forall k ensures Explained(known, after, Touched(buffer, action, key), k) {
      assert Explained(known, before, buffer, k);
      if k != key {
        OtherKeys(before, after, action, key, k);
      }
    }
  }

  lemma StillExact(base: Items, before: Items, after: Items, buffer: map<Key, Action>, action: Action, key: Key)
    requires Exact(base, before, buffer) && Acted(before, after, action, key)
    ensures Exact(base, after, Touched(buffer, action, key))
  {
    StillPending(base, before, after, buffer, action, key);
    assert Explained(base, before, buffer, key);
  }

  // ----- what a flush reports --------------------------------------------------------------------------------

  datatype Changes = Changes(add: Items, remove: set<Key>, update: Items)

  /** The net change from `base` to `items`; an item that was set to the value it had may be among the updates. */
  ghost predicate NetChange(c: Changes, base: Items, items: Items) {
    && (forall k :: k in c.add <==> k in items && k !in base)
    && (forall k | k in c.add :: c.add[k] == items[k])
    && (forall k :: k in c.remove <==> k in base && k !in items)
    && (forall k | k in c.update :: k in base && k in items && c.update[k] == items[k])
    && (forall k | k in base && k in items && base[k] != items[k] :: k in c.update)
  }

  class Collection {
    var items: Items
    var size: nat
    var buffer: map<Key, Action>
    var buffering: nat
    /** Flush functions that have been made and not called yet, and those the next tick will call. */
    var unflushed: set<nat>
    var scheduled: set<nat>
    var made: nat
    /** The items at the last flush. */
    ghost var base: Items

    ghost predicate Valid()
      reads this
    {
      && size == |items| && Exact(base, items, buffer)
      && buffering == |unflushed| && scheduled <= unflushed && forall f | f in unflushed :: f < made
    }

    constructor ()
      ensures Valid() && items == map[] && base == map[] && buffer == map[] && buffering == 0
    {
      items, size, buffer, buffering, unflushed, scheduled, made, base := map[], 0, map[], 0, {}, {}, 0, map[];
    }

    /** A pending change is never forgotten: someone is still to flush it. */
    ghost predicate WillFlush()
      reads this
    {
      buffer != map[] ==> unflushed != {}
    }

    method BufferEvents() returns (flush: nat)
      requires Valid()
      modifies this`buffering, this`unflushed, this`made
      ensures Valid() && flush !in old(unflushed) && unflushed == old(unflushed) + {flush}
    {
      buffering := buffering + 1;
      flush := made;
      made := made + 1;
      unflushed := unflushed + {flush};
    }

    /** Calls a flush function: reports the net change once the last one has been called. */
    method Flush(flush: nat) returns (r: Result<Option<Changes>>)
      requires Valid() && flush < made
      modifies this`buffering, this`unflushed, this`scheduled, this`buffer, this`base
      ensures Valid() && items == old(items)
      ensures r.Err? <==> flush !in old(unflushed)
      ensures r.Err?
        ==> r.error == BufferAlreadyFlushed && unflushed == old(unflushed) && buffer == old(buffer) && base == old(base)
      ensures r.Ok? ==> unflushed == old(unflushed) - {flush}
      ensures r.Ok? && unflushed != {} ==> r.value == None && buffer == old(buffer) && base == old(base)
      ensures r.Ok? && unflushed == {} ==> buffer == map[] && base == items
      ensures r.Ok? && unflushed == {} ==> (r.value == None <==> old(buffer) == map[])
      ensures r.Ok? && r.value.Some?
        ==> NetChange(r.value.value, old(base), items) && Reported(r.value.value, old(buffer), items)
    {
      hide Exact, NetChange, ReportedBut, Reported;
      if flush !in unflushed {
        return Err(BufferAlreadyFlushed);
      }
      unflushed, scheduled := unflushed - {flush}, scheduled - {flush};
      buffering := buffering - 1;
      if buffering != 0 {
        return Ok(None);
      }
      if buffer == map[] {
        SameItems(base, items);
        base := items;
        return Ok(None);
      }
      HasItems(base, items, buffer);
      var changes := Collect(items, buffer);
      IsNetChange(changes, base, items, buffer);
      NothingPending(items);
      buffer, base := map[], items;
      return Ok(Some(changes));
    }

    /** _touch: one more action on a key; the next tick will flush it if nobody else does. */
    method TouchKey(action: Action, key: Key, ghost before: Items)
      requires Exact(base, before, buffer) && Acted(before, items, action, key) && size == |items|
      requires buffering == |unflushed| && scheduled <= unflushed && forall f | f in unflushed :: f < made
      modifies this`buffering, this`unflushed, this`scheduled, this`made, this`buffer
      ensures Valid() && unflushed != {} && buffer == Touched(old(buffer), action, key) && old(unflushed) <= unflushed
      ensures old(unflushed) == {} ==> scheduled == unflushed
    {
      if buffering == 0 {
        buffering := 1;
        unflushed, scheduled := {made}, {made};
        made := made + 1;
      }
      StillExact(base, before, items, buffer, action, key);
      buffer := Touched(buffer, action, key);
    }

    // ----- manipulation -------------------------------------------------------------------------------

    /** What every manipulation keeps: listeners and the last flush know what they knew, and a flush will come. */
    ghost predicate Tracks(base: Items)
      reads this
    {
      Valid() && this.base == base && WillFlush()
    }

    method Add(key: Key, value: Value) returns (r: Result<()>)
      requires Valid() && WillFlush()
      modifies this
      ensures Tracks(old(base)) && old(unflushed) <= unflushed
      ensures r == if key in old(items) then Err(DuplicateItem(key)) else Ok(())
      ensures items == if r.Ok? then old(items)[key := value] else old(items)
      ensures buffer == if r.Ok? then Touched(old(buffer), ActionAdd, key) else old(buffer)
    {
      if key in items {
        return Err(DuplicateItem(key));
      }
      ghost var before := items;
      items := items[key := value];
      size := size + 1;
      Added(before, key, value);
      TouchKey(ActionAdd, key, before);
      return Ok(());
    }

    method Update(key: Key, value: Value) returns (r: Result<()>)
      requires Valid() && WillFlush()
      modifies this
      ensures Tracks(old(base)) && old(unflushed) <= unflushed
      ensures r == if key in old(items) then Ok(()) else Err(NoSuchItem(key))
      ensures items == if r.Ok? then old(items)[key := value] else old(items)
      ensures buffer == if r.Ok? then Touched(old(buffer), ActionUpdate, key) else old(buffer)
    {
      if key !in items {
        return Err(NoSuchItem(key));
      }
      ghost var before := items;
      items := items[key := value];
      Updated(before, key, value);
      TouchKey(ActionUpdate, key, before);
      return Ok(());
    }

    method Set(key: Key, value: Value)
      requires Valid() && WillFlush()
      modifies this
      ensures Tracks(old(base)) && old(unflushed) <= unflushed && items == old(items)[key := value]
      ensures buffer == Touched(old(buffer), if key in old(items) then ActionUpdate else ActionAdd, key)
    {
      ghost var before := items;
      var action := if key in items then ActionUpdate else ActionAdd;
      items := items[key := value];
      if action == ActionAdd {
        size := size + 1;
        Added(before, key, value);
      } else {
        Updated(before, key, value);
      }
      TouchKey(action, key, before);
    }

    /** touch: only an object can have changed without being replaced; `content` is what it contains by now. */
    method Touch(key: Key, content: string) returns (r: Result<Value>)
      requires Valid() && WillFlush()
      modifies this
      ensures Tracks(old(base)) && old(unflushed) <= unflushed
      ensures items == if r.Ok? then old(items)[key := r.value] else old(items)
      ensures r == if key !in old(items) then Err(NoSuchItem(key))
                   else if old(items)[key].Object? then Ok(old(items)[key].(content := content))
                   else Err(IllegalTouch(old(items)[key]))
      ensures buffer == if r.Ok? then Touched(old(buffer), ActionUpdate, key) else old(buffer)
    {
      if key !in items {
        return Err(NoSuchItem(key));
      }
      if !items[key].Object? {
        return Err(IllegalTouch(items[key]));
      }
      ghost var before := items;
      items := items[key := items[key].(content := content)];
      Updated(before, key, items[key]);
      TouchKey(ActionUpdate, key, before);
      return Ok(items[key]);
    }

    method Remove(key: Key) returns (r: Result<()>)
      requires Valid() && WillFlush()
      modifies this
      ensures Tracks(old(base)) && old(unflushed) <= unflushed
      ensures r == if key in old(items) then Ok(()) else Err(NoSuchItem(key))
      ensures items == old(items) - {key}
      ensures buffer == if r.Ok? then Touched(old(buffer), ActionRemove, key) else old(buffer)
    {
      if key !in items {
        assert items - {key} == items;
        return Err(NoSuchItem(key));
      }
      RemoveKey(key);
      return Ok(());
    }

    method Unset(key: Key)
      requires Valid() && WillFlush()
      modifies this
      ensures Tracks(old(base)) && old(unflushed) <= unflushed && items == old(items) - {key}
      ensures buffer == if key in old(items) then Touched(old(buffer), ActionRemove, key) else old(buffer)
    {
      if key in items {
        RemoveKey(key);
      } else {
        assert items - {key} == items;
      }
    }

    /** _remove */
    method RemoveKey(key: Key)
      requires Valid() && WillFlush() && key in items
      modifies this
      ensures Tracks(old(base)) && old(unflushed) <= unflushed && items == old(items) - {key}
      ensures buffer == Touched(old(buffer), ActionRemove, key)
    {
      ghost var before := items;
      items := items - {key};
      size := size - 1;
      Removed(before, key);
      TouchKey(ActionRemove, key, before);
    }

    /** Nothing is left; for a listener, whatever it knew, that is explained too. */
    method Clear(ghost known: Items)
      requires Valid() && WillFlush() && Pending(known, items, buffer)
      modifies this
      ensures Tracks(old(base)) && old(unflushed) <= unflushed && items == map[] && Pending(known, items, buffer)
      ensures forall k | k !in old(items) && k !in old(buffer) :: k !in buffer
    {
      var rest := items.Keys;
      while rest != {}
        invariant Tracks(old(base)) && old(unflushed) <= unflushed && items.Keys == rest
        invariant Pending(known, items, buffer)
        invariant rest <= old(items).Keys && forall k | k !in old(items) && k !in old(buffer) :: k !in buffer
      {
        var key :| key in rest;
        Removed(items, key);
        StillPending(known, items, items - {key}, buffer, ActionRemove, key);
        RemoveKey(key);
        rest := rest - {key};
      }
    }
  }

  lemma Added(before: Items, key: Key, value: Value)
    requires key !in before
    ensures Acted(before, before[key := value], ActionAdd, key) && |before[key := value]| == |before| + 1
  {
    assert before[key := value] - {key} == before;
    assert before[key := value].Keys == before.Keys + {key};
    assert |before[key := value]| == |before[key := value].Keys| && |before| == |before.Keys|;
  }

  lemma Updated(before: Items, key: Key, value: Value)
    requires key in before
    ensures Acted(before, before[key := value], ActionUpdate, key) && |before[key := value]| == |before|
  {
    assert before[key := value] - {key} == before - {key};
    assert before[key := value].Keys == before.Keys;
    assert |before[key := value]| == |before[key := value].Keys| && |before| == |before.Keys|;
  }

  lemma Removed(before: Items, key: Key)
    requires key in before
    ensures Acted(before, before - {key}, ActionRemove, key) && |before - {key}| == |before| - 1
  {
    assert (before - {key}).Keys == before.Keys - {key};
    assert |before - {key}| == |(before - {key}).Keys| && |before| == |before.Keys|;
  }

  /** What the buffer says to report, but for the keys in `rest`. */
  ghost predicate ReportedBut(c: Changes, buffer: map<Key, Action>, rest: set<Key>, items: Items) {
    && (forall k :: k in c.add <==> k in buffer && k !in rest && buffer[k] == ActionAdd)
    && (forall k :: k in c.remove <==> k in buffer && k !in rest && buffer[k] == ActionRemove)
    && (forall k :: k in c.update <==> k in buffer && k !in rest && buffer[k] == ActionUpdate)
    && (forall k | k in c.add :: k in items && c.add[k] == items[k])
    && (forall k | k in c.update :: k in items && c.update[k] == items[k])
  }

  ghost predicate Reported(c: Changes, buffer: map<Key, Action>, items: Items) { ReportedBut(c, buffer, {}, items) }

  /** One more key. */
  function Report(c: Changes, action: Action, k: Key, items: Items): Changes
    requires action != ActionRemove ==> k in items
  {
    match action
    case ActionAdd => c.(add := c.add[k := items[k]])
    case ActionRemove => c.(remove := c.remove + {k})
    case ActionUpdate => c.(update := c.update[k := items[k]])
  }

  lemma ReportMore(c: Changes, buffer: map<Key, Action>, rest: set<Key>, k: Key, items: Items)
    requires ReportedBut(c, buffer, rest, items) && k in rest && k in buffer
    requires buffer[k] != ActionRemove ==> k in items
    ensures ReportedBut(Report(c, buffer[k], k, items), buffer, rest - {k}, items)
  {
  }

  method Collect(items: Items, buffer: map<Key, Action>) returns (c: Changes)
    requires forall k | k in buffer && buffer[k] != ActionRemove :: k in items
    ensures Reported(c, buffer, items)
  {
    hide ReportedBut, Report;
    c := Changes(map[], {}, map[]);
    var rest := buffer.Keys;
    NothingReported(buffer, items);
    while rest != {}
      invariant rest <= buffer.Keys && ReportedBut(c, buffer, rest, items)
    {
      var k :| k in rest;
      ReportMore(c, buffer, rest, k, items);
      c := Report(c, buffer[k], k, items);
      rest := rest - {k};
    }
  }

  lemma NothingReported(buffer: map<Key, Action>, items: Items)
    ensures ReportedBut(Changes(map[], {}, map[]), buffer, buffer.Keys, items)
  {
  }

  /** What is pending for one key is its net change. */
  lemma KeyChange(c: Changes, base: Items, items: Items, buffer: map<Key, Action>, k: Key)
    requires Reported(c, buffer, items) && Exact(base, items, buffer)
    ensures k in c.add <==> k in items && k !in base
    ensures k in c.remove <==> k in base && k !in items
    ensures k in c.update ==> k in base && k in items
    ensures k in base && k in items && base[k] != items[k] ==> k in c.update
  {
    assert Explained(base, items, buffer, k);
  }

  lemma IsNetChange(c: Changes, base: Items, items: Items, buffer: map<Key, Action>)
    requires Reported(c, buffer, items) && Exact(base, items, buffer)
    ensures NetChange(c, base, items)
  {
    forall k
      ensures k in c.add <==> k in items && k !in base
      ensures k in c.remove <==> k in base && k !in items
      ensures k in c.update ==> k in base && k in items
      ensures k in base && k in items && base[k] != items[k] ==> k in c.update
    {
      KeyChange(c, base, items, buffer, k);
    }
  }

  /** Every key that is to be reported with a value has one. */
  lemma HasItems(base: Items, items: Items, buffer: map<Key, Action>)
    requires Exact(base, items, buffer)
    ensures forall k | k in buffer && buffer[k] != ActionRemove :: k in items
  {
    forall k | k in buffer && buffer[k] != ActionRemove ensures k in items {
      assert Explained(base, items, buffer, k);
    }
  }

  lemma NothingPending(items: Items)
    ensures Exact(items, items, map[])
  {
  }

  lemma SameItems(base: Items, items: Items)
    requires Exact(base, items, map[])
    ensures base == items
  {
    forall k ensures (k in base <==> k in items) && (k in items ==> base[k] == items[k]) {
      assert Explained(base, items, map[], k);
    }
  }
}
