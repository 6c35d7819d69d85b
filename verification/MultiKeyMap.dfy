/** A map whose keys are sequences: a tree of maps that holds no more nodes than it needs. */
module MultiKeyMap {
  import opened Options

  type Key = nat
  type Value = nat
  type Keys = seq<Key>

  datatype Child = Child(key: Key, tree: Tree)

  /**
   * `Absent` is JavaScript's `undefined`, and a value without longer keys stands by itself. The children
   * of a node are in the order of their insertion.
   */
  datatype Tree = Absent | Leaf(value: Value) | Node(own: Option<Value>, children: seq<Child>)

  // ----- children -------------------------------------------------------------------------------------------

  function Find(cs: seq<Child>, key: Key): (t: Tree) {
    if cs == [] then Absent else if cs[0].key == key then cs[0].tree else Find(cs[1..], key)
  }

  predicate Has(cs: seq<Child>, key: Key) { exists i :: 0 <= i < |cs| && cs[i].key == key }

  /** A key that is there keeps its place. */
  function Put(cs: seq<Child>, key: Key, t: Tree): seq<Child> {
    if cs == [] then [Child(key, t)]
    else if cs[0].key == key then [Child(key, t)] + cs[1..]
    else [cs[0]] + Put(cs[1..], key, t)
  }

  function Remove(cs: seq<Child>, key: Key): seq<Child> {
    if cs == [] then [] else if cs[0].key == key then cs[1..] else [cs[0]] + Remove(cs[1..], key)
  }

  ghost predicate Distinct(cs: seq<Child>) { forall i, j | 0 <= i < j < |cs| :: cs[i].key != cs[j].key }

  lemma {:induction false} FindIs(cs: seq<Child>, i: nat)
    requires Distinct(cs) && i < |cs|
    ensures Find(cs, cs[i].key) == cs[i].tree
  {
    if i > 0 {
      FindIs(cs[1..], i - 1);
    }
  }

  lemma {:induction false} FindNone(cs: seq<Child>, key: Key)
    requires !Has(cs, key)
    ensures Find(cs, key) == Absent
  {
    if cs != [] {
      assert cs[0].key != key;
      assert !Has(cs[1..], key) by {
        forall i | 0 <= i < |cs[1..]| ensures cs[1..][i].key != key {
          assert cs[1..][i] == cs[i + 1];
        }
      }
      FindNone(cs[1..], key);
    }
  }

  lemma {:induction false} Putting(cs: seq<Child>, key: Key, t: Tree, other: Key)
    ensures Find(Put(cs, key, t), other) == if other == key then t else Find(cs, other)
  {
    if cs != [] && cs[0].key != key {
      Putting(cs[1..], key, t, other);
    }
  }

  /** The children after putting one: the same keys and the new one, the same trees but the new one. */
  lemma {:induction false} PutChildren(cs: seq<Child>, key: Key, t: Tree)
    requires Distinct(cs)
    ensures Distinct(Put(cs, key, t)) && |Put(cs, key, t)| >= 1
    ensures forall c :: c in Put(cs, key, t) <==> c == Child(key, t) || (c in cs && c.key != key)
  {
    if cs != [] {
      assert cs == [cs[0]] + cs[1..];
      if cs[0].key != key {
        PutChildren(cs[1..], key, t);
        var r := Put(cs[1..], key, t);
        forall i | 0 <= i < |r| ensures r[i].key != cs[0].key {
          assert r[i] in r;
        }
      }
    }
  }

  lemma {:induction false} RemoveChildren(cs: seq<Child>, key: Key)
    requires Distinct(cs)
    ensures Distinct(Remove(cs, key)) && |Remove(cs, key)| == |cs| - (if Has(cs, key) then 1 else 0)
    ensures forall c :: c in Remove(cs, key) <==> c in cs && c.key != key
    ensures forall other :: Find(Remove(cs, key), other) == if other == key then Absent else Find(cs, other)
  {
    if cs != [] {
      assert cs == [cs[0]] + cs[1..];
      assert Has(cs, key) <==> cs[0].key == key || Has(cs[1..], key);
      if cs[0].key == key {
        FindNone(cs[1..], key);
      } else {
        RemoveChildren(cs[1..], key);
        var r := Remove(cs[1..], key);
        forall i | 0 <= i < |r| ensures r[i].key != cs[0].key {
          assert r[i] in r;
        }
      }
    }
  }

  // ----- operations ------------------------------------------------------------------------------------------

  function OfValue(value: Option<Value>): Tree { if value.Some? then Leaf(value.value) else Absent }

  function Own(t: Tree): Option<Value> {
    match t
    case Absent => None
    case Leaf(value) => Some(value)
    case Node(own, _) => own
  }

  function Found(t: Tree, keys: Keys): Option<Value>
    decreases |keys|
  {
    if keys == [] then Own(t) else if t.Node? then Found(Find(t.children, keys[0]), keys[1..]) else None
  }

  /** `value` is None when the caller gives `undefined`. */
  function Stored(t: Tree, keys: Keys, value: Option<Value>): Tree
    decreases |keys|
  {
    if keys == [] then
      if t.Node? then Node(value, t.children) else OfValue(value)
    else if !t.Node? then
      Node(Own(t), [Child(keys[0], Stored(Absent, keys[1..], value))])
    else
      var child := Find(t.children, keys[0]);
      var newChild := Stored(child, keys[1..], value);
      if newChild != child then Node(t.own, Put(t.children, keys[0], newChild)) else t
  }

  function Deleted(t: Tree, keys: Keys): Tree
    decreases |keys|
  {
    if keys == [] then
      if t.Node? then Node(None, t.children) else Absent
    else if !t.Node? then t
    else
      var child := Find(t.children, keys[0]);
      if child == Absent then t
      else
        var newChild := Deleted(child, keys[1..]);
        if newChild != Absent then Node(t.own, Put(t.children, keys[0], newChild))
        else if |t.children| == 1 then OfValue(t.own)
        else Node(t.own, Remove(t.children, keys[0]))
  }

  /** Setting changes one key. */
  lemma {:induction false} GetSet(t: Tree, keys: Keys, value: Option<Value>, other: Keys)
    ensures Found(Stored(t, keys, value), other) == if other == keys then value else Found(t, other)
    decreases |keys|
  {
    if keys != [] && other != [] {
      assert keys == [keys[0]] + keys[1..] && other == [other[0]] + other[1..];
      var child := if t.Node? then Find(t.children, keys[0]) else Absent;
      GetSet(child, keys[1..], value, other[1..]);
      if t.Node? {
        Putting(t.children, keys[0], Stored(child, keys[1..], value), other[0]);
      } else {
        Putting([], keys[0], Stored(child, keys[1..], value), other[0]);
        NothingBelow(other[1..]);
      }
    }
  }

  /** Every node has its keys once, everywhere below. */
  ghost predicate Proper(t: Tree) {
    t.Node? ==> Distinct(t.children) && forall c | c in t.children :: Proper(c.tree)
  }

  lemma {:induction false} FoundIsChild(cs: seq<Child>, key: Key)
    ensures Find(cs, key) != Absent ==> Child(key, Find(cs, key)) in cs && Has(cs, key)
  {
    if cs != [] && cs[0].key != key {
      FoundIsChild(cs[1..], key);
      if Find(cs, key) != Absent {
        var i :| 0 <= i < |cs[1..]| && cs[1..][i] == Child(key, Find(cs, key));
        assert cs[i + 1] == cs[1..][i];
      }
    }
  }

  lemma {:induction false} SetProper(t: Tree, keys: Keys, value: Option<Value>)
    requires Proper(t)
    ensures Proper(Stored(t, keys, value))
    decreases |keys|
  {
    if keys != [] {
      var child := if t.Node? then Find(t.children, keys[0]) else Absent;
      if t.Node? {
        FoundIsChild(t.children, keys[0]);
        PutChildren(t.children, keys[0], Stored(child, keys[1..], value));
      }
      SetProper(child, keys[1..], value);
    }
  }

  lemma {:induction false} DeleteProper(t: Tree, keys: Keys)
    requires Proper(t)
    ensures Proper(Deleted(t, keys))
    decreases |keys|
  {
    if keys != [] && t.Node? {
      var child := Find(t.children, keys[0]);
      FoundIsChild(t.children, keys[0]);
      PutChildren(t.children, keys[0], Deleted(child, keys[1..]));
      RemoveChildren(t.children, keys[0]);
      DeleteProper(child, keys[1..]);
    }
  }

  lemma NoChildKeys(keys: Keys)
    ensures keys != [] ==> keys == [keys[0]] + keys[1..]
  {
  }

  lemma {:induction false} NothingBelow(other: Keys)
    ensures Found(Absent, other) == None
  {
  }

  /** Deleting removes one key. */
  lemma {:induction false} GetDelete(t: Tree, keys: Keys, other: Keys)
    requires Proper(t)
    ensures Found(Deleted(t, keys), other) == if other == keys then None else Found(t, other)
    decreases |keys|
  {
    NothingBelow(other);
    if keys != [] && t.Node? {
      NoChildKeys(keys);
      NoChildKeys(other);
      var child := Find(t.children, keys[0]);
      FoundIsChild(t.children, keys[0]);
      NothingBelow(keys[1..]);
      if child != Absent && other != [] {
        GetDelete(child, keys[1..], other[1..]);
        NothingBelow(other[1..]);
        Putting(t.children, keys[0], Deleted(child, keys[1..]), other[0]);
        RemoveChildren(t.children, keys[0]);
        OnlyChild(t.children, keys[0], other[0]);
      }
    }
  }

  lemma OnlyChild(cs: seq<Child>, key: Key, other: Key)
    ensures |cs| == 1 && Has(cs, key) && other != key ==> Find(cs, other) == Absent
  {
  }

  // ----- no more nodes than needed ---------------------------------------------------------------------------

  /** Every node has a child, and every child something below. */
  ghost predicate Tight(t: Tree) {
    t.Node? ==> t.children != [] && forall c | c in t.children :: c.tree != Absent && Tight(c.tree)
  }

  lemma {:induction false} SetTight(t: Tree, keys: Keys, value: Option<Value>)
    requires Proper(t) && Tight(t) && value.Some?
    ensures Tight(Stored(t, keys, value)) && Stored(t, keys, value) != Absent
    decreases |keys|
  {
    if keys != [] {
      var child := if t.Node? then Find(t.children, keys[0]) else Absent;
      if t.Node? {
        FoundIsChild(t.children, keys[0]);
        PutChildren(t.children, keys[0], Stored(child, keys[1..], value));
      }
      SetTight(child, keys[1..], value);
    }
  }

  lemma {:induction false} DeleteTight(t: Tree, keys: Keys)
    requires Proper(t) && Tight(t)
    ensures Tight(Deleted(t, keys))
    decreases |keys|
  {
    if keys != [] && t.Node? {
      var child := Find(t.children, keys[0]);
      FoundIsChild(t.children, keys[0]);
      PutChildren(t.children, keys[0], Deleted(child, keys[1..]));
      RemoveChildren(t.children, keys[0]);
      DeleteTight(child, keys[1..]);
    }
  }

  /** What is not empty has a binding. */
  lemma {:induction false} SomeKeys(t: Tree) returns (keys: Keys)
    requires Proper(t) && Tight(t) && t != Absent
    ensures Found(t, keys).Some?
  {
    if t.Leaf? {
      return [];
    }
    var below := SomeKeys(t.children[0].tree);
    FindIs(t.children, 0);
    keys := [t.children[0].key] + below;
    assert keys[1..] == below;
  }

  /** All the keys but the last lead to nodes, and no value stands by itself at the end. */
  predicate Harmless(t: Tree, keys: Keys)
    decreases |keys|
  {
    if keys == [] then !t.Leaf? else t.Node? && Harmless(Find(t.children, keys[0]), keys[1..])
  }

  lemma {:induction false} Hollow(keys: Keys)
    ensures Stored(Absent, keys, None) == Absent || !Tight(Stored(Absent, keys, None))
    decreases |keys|
  {
    if keys != [] {
      Hollow(keys[1..]);
      var r := Stored(Absent, keys, None);
      assert r.children[0] in r.children;
    }
  }

  lemma {:induction false} UndefinedBelow(t: Tree, keys: Keys)
    requires Proper(t) && Tight(t)
    ensures Tight(Stored(t, keys, None)) && (Stored(t, keys, None) == Absent ==> t == Absent) <==> Harmless(t, keys)
    decreases |keys|
  {
    if keys != [] {
      if t.Node? {
        var child := Find(t.children, keys[0]);
        var newChild := Stored(child, keys[1..], None);
        FoundIsChild(t.children, keys[0]);
        PutChildren(t.children, keys[0], newChild);
        UndefinedBelow(child, keys[1..]);
        if newChild != child {
          var r := Put(t.children, keys[0], newChild);
          assert Child(keys[0], newChild) in r;
        }
      } else {
        Hollow(keys[1..]);
        var r := Stored(t, keys, None);
        assert r.children[0] in r.children;
      }
    }
  }

  /** Setting `undefined` leaves a tree without needless nodes if and only if it is at the root or harmless. */
  lemma SetUndefined(t: Tree, keys: Keys)
    requires Proper(t) && Tight(t)
    ensures Tight(Stored(t, keys, None)) <==> keys == [] || Harmless(t, keys)
  {
    UndefinedBelow(t, keys);
    if keys != [] {
      assert Stored(t, keys, None) != Absent;
    }
  }

  // ----- bindings ------------------------------------------------------------------------------------------------

  datatype Binding = Binding(keys: Keys, value: Value)

  function EntriesAt(t: Tree, prefix: Keys): seq<Binding>
    decreases t
  {
    match t
    case Absent => []
    case Leaf(value) => [Binding(prefix, value)]
    case Node(own, children) =>
      (if own.Some? then [Binding(prefix, own.value)] else []) + EntriesOf(children, prefix)
  }

  function EntriesOf(cs: seq<Child>, prefix: Keys): seq<Binding>
    decreases cs
  {
    if cs == [] then [] else EntriesIn(cs[0], prefix) + EntriesOf(cs[1..], prefix)
  }

  function EntriesIn(c: Child, prefix: Keys): seq<Binding>
    decreases c
  {
    EntriesAt(c.tree, prefix + [c.key])
  }

  /** The binding is that of its keys in `t`, after `prefix`. */
  ghost predicate Bound(t: Tree, prefix: Keys, b: Binding) {
    prefix <= b.keys && Found(t, b.keys[|prefix|..]) == Some(b.value)
  }

  ghost predicate BoundBelow(cs: seq<Child>, prefix: Keys, b: Binding) {
    prefix <= b.keys && prefix != b.keys && Found(Find(cs, b.keys[|prefix|]), b.keys[|prefix| + 1..]) == Some(b.value)
  }

  /** The entries are the bindings. */
  lemma {:induction false} EntriesAre(t: Tree, prefix: Keys, b: Binding)
    requires Proper(t)
    ensures b in EntriesAt(t, prefix) <==> Bound(t, prefix, b)
    decreases t
  {
    if prefix <= b.keys {
      assert b.keys == prefix + b.keys[|prefix|..];
      assert b.keys[|prefix|..] == [] <==> b.keys == prefix;
    }
    if t.Node? {
      EntriesBelow(t.children, prefix, b);
      var first := if t.own.Some? then [Binding(prefix, t.own.value)] else [];
      assert b in EntriesAt(t, prefix) <==> b in first || b in EntriesOf(t.children, prefix);
      if prefix == b.keys {
        assert b in first <==> t.own == Some(b.value);
      } else if prefix <= b.keys {
        assert b.keys[|prefix|..][0] == b.keys[|prefix|] && b.keys[|prefix|..][1..] == b.keys[|prefix| + 1..];
        assert Bound(t, prefix, b) <==> BoundBelow(t.children, prefix, b);
      }
    }
  }

  lemma {:induction false} EntriesBelow(cs: seq<Child>, prefix: Keys, b: Binding)
    requires Distinct(cs) && forall c | c in cs :: Proper(c.tree)
    ensures b in EntriesOf(cs, prefix) <==> BoundBelow(cs, prefix, b)
    decreases cs
  {
    if cs == [] {
      if prefix <= b.keys && prefix != b.keys {
        NothingBelow(b.keys[|prefix| + 1..]);
      }
    } else {
      EntriesInAre(cs[0], prefix, b);
      EntriesBelow(cs[1..], prefix, b);
      if BoundIn(cs[0], prefix, b) || BoundBelow(cs[1..], prefix, b) {
        FindNone(cs[1..], cs[0].key);
        NothingBelow(b.keys[|prefix| + 1..]);
      }
    }
  }

  ghost predicate BoundIn(c: Child, prefix: Keys, b: Binding) {
    && prefix <= b.keys && prefix != b.keys && b.keys[|prefix|] == c.key
    && Found(c.tree, b.keys[|prefix| + 1..]) == Some(b.value)
  }

  lemma {:induction false} EntriesInAre(c: Child, prefix: Keys, b: Binding)
    requires Proper(c.tree)
    ensures b in EntriesIn(c, prefix) <==> BoundIn(c, prefix, b)
    decreases c
  {
    EntriesAre(c.tree, prefix + [c.key], b);
  }

  ghost predicate EachOnce(bs: seq<Binding>) { forall i, j | 0 <= i < j < |bs| :: bs[i].keys != bs[j].keys }

  lemma {:induction false} EntriesOnce(t: Tree, prefix: Keys)
    requires Proper(t)
    ensures EachOnce(EntriesAt(t, prefix))
    decreases t
  {
    if t.Node? {
      EntriesBelowOnce(t.children, prefix);
      forall b | b in EntriesOf(t.children, prefix) ensures b.keys != prefix {
        EntriesBelow(t.children, prefix, b);
      }
    }
  }

  lemma {:induction false} EntriesBelowOnce(cs: seq<Child>, prefix: Keys)
    requires Distinct(cs) && forall c | c in cs :: Proper(c.tree)
    ensures EachOnce(EntriesOf(cs, prefix))
    decreases cs
  {
    if cs != [] {
      EntriesInOnce(cs[0], prefix);
      EntriesBelowOnce(cs[1..], prefix);
      forall a, b | a in EntriesIn(cs[0], prefix) && b in EntriesOf(cs[1..], prefix) ensures a.keys != b.keys {
        EntriesInAre(cs[0], prefix, a);
        EntriesBelow(cs[1..], prefix, b);
        FindNone(cs[1..], cs[0].key);
        NothingBelow(b.keys[|prefix| + 1..]);
      }
    }
  }

  lemma {:induction false} EntriesInOnce(c: Child, prefix: Keys)
    requires Proper(c.tree)
    ensures EachOnce(EntriesIn(c, prefix))
    decreases c
  {
    EntriesOnce(c.tree, prefix + [c.key]);
  }

  /** The map that a tree stands for. */
  ghost function Contents(t: Tree): (m: map<Keys, Value>)
    requires Proper(t)
    ensures forall keys :: keys in m <==> Found(t, keys).Some?
    ensures forall keys | keys in m :: m[keys] == Found(t, keys).value
  {
    var found := set b | b in EntriesAt(t, []) :: b.keys;
    assert forall keys :: keys in found <==> Found(t, keys).Some? by {
      forall keys ensures keys in found <==> Found(t, keys).Some? {
        KeysFound(t, keys);
      }
    }
    map keys | keys in found :: Found(t, keys).value
  }

  lemma KeysFound(t: Tree, keys: Keys)
    requires Proper(t)
    ensures (exists b :: b in EntriesAt(t, []) && b.keys == keys) <==> Found(t, keys).Some?
  {
    assert keys[0..] == keys;
    if Found(t, keys).Some? {
      EntriesAre(t, [], Binding(keys, Found(t, keys).value));
    }
    forall b | b in EntriesAt(t, []) && b.keys == keys ensures Found(t, keys).Some? {
      EntriesAre(t, [], b);
    }
  }

  class MultiKeyMap {
    var root: Tree

    ghost predicate Valid()
      reads this
    {
      && Proper(root) && Tight(root)
      && (root == Absent <==> Bindings() == map[])
    }

    ghost function Bindings(): map<Keys, Value>
      reads this
      requires Proper(root)
    {
      Contents(root)
    }

    constructor ()
      ensures Valid() && Bindings() == map[]
    {
      root := Absent;
      new;
      RootIs(root);
    }

    method Set(keys: Keys, value: Value)
      requires Valid()
      modifies this
      ensures Valid() && Bindings() == old(Bindings())[keys := value]
    {
      SetProper(root, keys, Some(value));
      SetTight(root, keys, Some(value));
      SetBindings(root, keys, value);
      root := Stored(root, keys, Some(value));
      RootIs(root);
    }

    method Delete(keys: Keys)
      requires Valid()
      modifies this
      ensures Valid() && Bindings() == old(Bindings()) - {keys}
    {
      DeleteProper(root, keys);
      DeleteTight(root, keys);
      DeleteBindings(root, keys);
      root := Deleted(root, keys);
      RootIs(root);
    }

    method Get(keys: Keys) returns (value: Option<Value>)
      requires Valid()
      ensures value == if keys in Bindings() then Some(Bindings()[keys]) else None
    {
      value := Found(root, keys);
    }

    /** Each binding once. */
    method Entries() returns (bindings: seq<Binding>)
      requires Valid()
      ensures EachOnce(bindings) && forall b :: b in bindings <==> b.keys in Bindings() && Bindings()[b.keys] == b.value
    {
      bindings := EntriesAt(root, []);
      EntriesOnce(root, []);
      forall b ensures b in bindings <==> Found(root, b.keys) == Some(b.value) {
        EntriesAre(root, [], b);
        assert b.keys[0..] == b.keys;
      }
    }
  }

  lemma SetBindings(t: Tree, keys: Keys, value: Value)
    requires Proper(t) && Proper(Stored(t, keys, Some(value)))
    ensures Contents(Stored(t, keys, Some(value))) == Contents(t)[keys := value]
  {
    hide Stored, Found, Proper;
    forall other
      ensures Found(Stored(t, keys, Some(value)), other) == if other == keys then Some(value) else Found(t, other)
    {
      GetSet(t, keys, Some(value), other);
    }
  }

  lemma DeleteBindings(t: Tree, keys: Keys)
    requires Proper(t) && Proper(Deleted(t, keys))
    ensures Contents(Deleted(t, keys)) == Contents(t) - {keys}
  {
    hide Deleted, Found, Proper;
    forall other ensures Found(Deleted(t, keys), other) == if other == keys then None else Found(t, other) {
      GetDelete(t, keys, other);
    }
  }

  /** A tree without needless nodes is absent if and only if it has no binding. */
  lemma RootIs(t: Tree)
    requires Proper(t) && Tight(t)
    ensures t == Absent <==> Contents(t) == map[]
  {
    if t == Absent {
      forall keys: Keys ensures keys !in Contents(t) {
        NothingBelow(keys);
      }
    } else {
      var keys := SomeKeys(t);
      assert keys in Contents(t);
    }
  }
}
