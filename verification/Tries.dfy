/**
 The item tree as a value. Every node caches all items strictly below it, so that a
 query by mask never has to walk a whole subtree.
 */
module Tries {
  import opened Common
  import opened Oids
  import opened Items

  datatype Tree = Tree(
    childs: map<string, Tree>,
    members: map<OID, ItemData>,
    wildcard: map<OID, ItemData>)
  {
    predicate IsEmpty() {
      childs == map[] && members == map[]
    }

    /** All items at or below the node. */
    function Holdings(): map<OID, ItemData> {
      members + wildcard
    }
  }

  const EMPTY := Tree(map[], map[], map[])

  /** The OID lies strictly below the node at `at` in the tree of `kind`. */
  predicate Below(kind: ItemKind, at: seq<string>, o: OID) {
    o.kind == kind && at < o.path
  }

  /** The name of the child of the node at `at` that leads to `o`. */
  function Toward(at: seq<string>, o: OID): string
    requires at < o.path
  {
    o.path[|at|]
  }

  /**
   What every node keeps: it holds only the item that lives there, its cache is
   exactly what its children hold, the same objects, and no child is empty.
   */
  ghost predicate Wf(kind: ItemKind, at: seq<string>, t: Tree)
    decreases t, 2
  {
    NodeWf(kind, at, t)
  }

  ghost predicate NodeWf(kind: ItemKind, at: seq<string>, t: Tree)
    decreases t, 1
  {
    NodeOk(kind, at, t) && ChildsWf(kind, at, t)
  }

  ghost predicate ChildsWf(kind: ItemKind, at: seq<string>, t: Tree)
    decreases t, 0
  {
    forall k :: k in t.childs ==> Wf(kind, at + [k], t.childs[k])
  }

  ghost predicate NodeOk(kind: ItemKind, at: seq<string>, t: Tree) {
    && MembersHere(kind, at, t)
    && CacheExact(kind, at, t)
    && (forall k :: k in t.childs ==> !t.childs[k].IsEmpty())
  }

  ghost predicate MembersHere(kind: ItemKind, at: seq<string>, t: Tree) {
    forall o :: o in t.members ==> o.kind == kind && o.path == at && t.members[o].oid == o
  }

  ghost predicate CacheExact(kind: ItemKind, at: seq<string>, t: Tree) {
    && (forall o :: o in t.wildcard <==> CachedBelow(kind, at, t, o))
    && (forall o :: o in t.wildcard ==> t.wildcard[o] == t.childs[Toward(at, o)].Holdings()[o])
  }

  ghost predicate CachedBelow(kind: ItemKind, at: seq<string>, t: Tree, o: OID) {
    Below(kind, at, o) && Toward(at, o) in t.childs && o in t.childs[Toward(at, o)].Holdings()
  }

  lemma EmptyIsWf(kind: ItemKind, at: seq<string>)
    ensures Wf(kind, at, EMPTY)
  {
    assert NodeWf(kind, at, EMPTY);
  }

  lemma NodeIsOk(kind: ItemKind, at: seq<string>, t: Tree)
    requires Wf(kind, at, t)
    ensures NodeOk(kind, at, t) && ChildsWf(kind, at, t)
  {
    assert NodeWf(kind, at, t);
  }

  lemma ChildWf(kind: ItemKind, at: seq<string>, t: Tree, k: string)
    requires Wf(kind, at, t) && k in t.childs
    ensures Wf(kind, at + [k], t.childs[k]) && !t.childs[k].IsEmpty()
  {
    NodeIsOk(kind, at, t);
    assert ChildsWf(kind, at, t);
  }

  lemma RebuildWf(kind: ItemKind, at: seq<string>, t: Tree, t': Tree, k: string)
    requires Wf(kind, at, t) && NodeOk(kind, at, t')
    requires forall j :: j in t'.childs && j != k ==> j in t.childs && t'.childs[j] == t.childs[j]
    requires k in t'.childs ==> Wf(kind, at + [k], t'.childs[k])
    ensures Wf(kind, at, t')
  {
    NodeIsOk(kind, at, t);
    assert ChildsWf(kind, at, t);
    assert ChildsWf(kind, at, t');
    assert NodeWf(kind, at, t');
  }

  /** A node holds nothing but items at or below it, and each under its own OID. */
  ghost predicate Belongs(kind: ItemKind, at: seq<string>, t: Tree) {
    && (forall o :: o in t.Holdings() ==> o.kind == kind && at <= o.path && t.Holdings()[o].oid == o)
    && (forall o :: o in t.members <==> o in t.Holdings() && o.path == at)
    && (forall o :: o in t.wildcard <==> o in t.Holdings() && o.path != at)
  }

  lemma {:induction false} HoldingsBelong(kind: ItemKind, at: seq<string>, t: Tree)
    requires Wf(kind, at, t)
    ensures Belongs(kind, at, t)
    decreases t
  {
    forall o | o in t.wildcard
      ensures t.wildcard[o].oid == o && Below(kind, at, o)
    {
      assert CachedBelow(kind, at, t, o);
      var k := Toward(at, o);
      ChildWf(kind, at, t, k);
      HoldingsBelong(kind, at + [k], t.childs[k]);
    }
  }

  /** The node a path leads to. */
  function NodeAt(t: Tree, path: seq<string>): Option<Tree>
    decreases |path|
  {
    if path == [] then Some(t)
    else if path[0] in t.childs then NodeAt(t.childs[path[0]], path[1..])
    else None
  }

  /** A node on the way to an item has it in its cache; the node at the end holds it and nothing else. */
  ghost predicate Leads(t: Tree, o: OID, item: ItemData, atEnd: bool) {
    if atEnd then t.members == map[o := item] else Lookup(t.wildcard, o) == Some(item)
  }

  /** Every node on the way to an item has the very same object. */
  lemma {:induction false} SameObjectAlongPath(kind: ItemKind, at: seq<string>, t: Tree, o: OID, steps: seq<string>)
    requires Wf(kind, at, t) && o in t.Holdings() && at + steps <= o.path
    ensures NodeAt(t, steps).Some? && Leads(NodeAt(t, steps).value, o, t.Holdings()[o], at + steps == o.path)
    decreases |steps|
  {
    if steps == [] {
      assert at + steps == at;
      LeadsHere(kind, at, t, o);
    } else {
      assert at + steps == at + [steps[0]] + steps[1..];
      LeadsDown(kind, at, t, o, steps[0]);
      SameObjectAlongPath(kind, at + [steps[0]], t.childs[steps[0]], o, steps[1..]);
    }
  }

  lemma LeadsHere(kind: ItemKind, at: seq<string>, t: Tree, o: OID)
    requires Wf(kind, at, t) && o in t.Holdings()
    ensures Leads(t, o, t.Holdings()[o], at == o.path)
  {
    NodeIsOk(kind, at, t);
    HoldingsBelong(kind, at, t);
  }

  lemma LeadsDown(kind: ItemKind, at: seq<string>, t: Tree, o: OID, k: string)
    requires Wf(kind, at, t) && o in t.Holdings() && at + [k] <= o.path
    ensures k in t.childs && Wf(kind, at + [k], t.childs[k]) &&
      Lookup(t.childs[k].Holdings(), o) == Some(t.Holdings()[o])
  {
    NodeIsOk(kind, at, t);
    HoldingsBelong(kind, at, t);
    assert o.path[|at|] == k;
    assert CachedBelow(kind, at, t, o);
    ChildWf(kind, at, t, k);
  }

  // ----- changing one key of a union of maps -----

  lemma DropFromUnion<K, V>(a: map<K, V>, b: map<K, V>, k: K)
    ensures k !in b ==> Drop(a, k) + b == Drop(a + b, k)
    ensures k !in a ==> a + Drop(b, k) == Drop(a + b, k)
    ensures k !in a ==> Drop(a, k) == a
  {
  }

  lemma DropOverwritten<K, V>(m: map<K, V>, k: K, v: V)
    ensures Drop(m[k := v], k) == Drop(m, k)
  {
  }

  // ----- append -----

  /** The tree afterwards and whether the item was accepted; a refusal below keeps what was already written above it. */
  function Append(t: Tree, rest: seq<string>, item: ItemData, replace: bool): (Tree, bool)
    decreases |rest|
  {
    if rest != [] then
      if item.oid in t.wildcard && !replace then (t, false) else
      var w := t.wildcard[item.oid := item];
      var known := rest[0] in t.childs;
      var (c, ok) := Append(if known then t.childs[rest[0]] else EMPTY, rest[1..], item, replace);
      (Tree(if known || ok then t.childs[rest[0] := c] else t.childs, t.members, w), ok)
    else if item.oid in t.members && !replace then
      (t, false)
    else
      (t.(members := t.members[item.oid := item]), true)
  }

  /** Appending is accepted unless it would replace unasked; then the tree is as before, else one key has changed. */
  ghost predicate Appended(kind: ItemKind, at: seq<string>, t: Tree, item: ItemData, replace: bool, t': Tree,
                           ok: bool) {
    && ok == (replace || item.oid !in t.Holdings())
    && (!ok ==> t' == t)
    && (ok ==> Wf(kind, at, t') && !t'.IsEmpty() && t'.Holdings() == t.Holdings()[item.oid := item])
  }

  lemma {:induction false} AppendRefines(kind: ItemKind, at: seq<string>, t: Tree, rest: seq<string>, item: ItemData,
      replace: bool)
    requires Wf(kind, at, t)
    requires item.oid.kind == kind && item.oid.path == at + rest
    ensures Appended(kind, at, t, item, replace, Append(t, rest, item, replace).0, Append(t, rest, item, replace).1)
    decreases |rest|
  {
    HoldingsBelong(kind, at, t);
    if rest == [] {
      assert item.oid.path == at;
      AppendHere(kind, at, t, item);
    } else {
      var k := rest[0];
      var c := if k in t.childs then t.childs[k] else EMPTY;
      assert at + rest == at + [k] + rest[1..];
      assert Wf(kind, at + [k], c) && (item.oid in t.wildcard <==> item.oid in c.Holdings()) by {
        EmptyIsWf(kind, at + [k]);
        NodeIsOk(kind, at, t);
        assert ChildsWf(kind, at, t);
        assert item.oid in t.wildcard <==> CachedBelow(kind, at, t, item.oid);
      }
      AppendRefines(kind, at + [k], c, rest[1..], item, replace);
      var (c', ok) := Append(c, rest[1..], item, replace);
      if ok {
        AppendBelow(kind, at, t, item, k, c');
      }
    }
  }

  lemma AppendHere(kind: ItemKind, at: seq<string>, t: Tree, item: ItemData)
    requires Wf(kind, at, t)
    requires item.oid.kind == kind && item.oid.path == at
    ensures var t' := t.(members := t.members[item.oid := item]);
      Wf(kind, at, t') && !t'.IsEmpty() && t'.Holdings() == t.Holdings()[item.oid := item]
  {
    var t' := t.(members := t.members[item.oid := item]);
    assert item.oid !in t.wildcard;
    PutInUnion(t.members, t.wildcard, item.oid, item);
    SameChilds(kind, at, t, t');
    assert item.oid in t'.members;
  }

  lemma SameChilds(kind: ItemKind, at: seq<string>, t: Tree, t': Tree)
    requires Wf(kind, at, t) && MembersHere(kind, at, t')
    requires t'.childs == t.childs && t'.wildcard == t.wildcard
    ensures Wf(kind, at, t')
  {
    NodeIsOk(kind, at, t);
    assert CacheExact(kind, at, t');
    RebuildWf(kind, at, t, t', "");
  }

  lemma AppendBelow(kind: ItemKind, at: seq<string>, t: Tree, item: ItemData, k: string, c': Tree)
    requires Wf(kind, at, t)
    requires Below(kind, at, item.oid) && Toward(at, item.oid) == k
    requires Wf(kind, at + [k], c') && !c'.IsEmpty()
    requires c'.Holdings() == (if k in t.childs then t.childs[k] else EMPTY).Holdings()[item.oid := item]
    ensures var t' := Tree(t.childs[k := c'], t.members, t.wildcard[item.oid := item]);
      Wf(kind, at, t') && !t'.IsEmpty() && t'.Holdings() == t.Holdings()[item.oid := item]
  {
    var t' := Tree(t.childs[k := c'], t.members, t.wildcard[item.oid := item]);
    PutInUnion(t.members, t.wildcard, item.oid, item);
    AppendCache(kind, at, t, item, k, c');
    ReplacedChild(kind, at, t, t', k);
    assert k in t'.childs;
  }

  /** Exchanging one child, or dropping it, needs only the new cache to be exact. */
  lemma ReplacedChild(kind: ItemKind, at: seq<string>, t: Tree, t': Tree, k: string)
    requires Wf(kind, at, t) && t'.members == t.members && CacheExact(kind, at, t')
    requires forall j :: j in t'.childs && j != k ==> j in t.childs && t'.childs[j] == t.childs[j]
    requires k in t'.childs ==> Wf(kind, at + [k], t'.childs[k]) && !t'.childs[k].IsEmpty()
    ensures Wf(kind, at, t')
  {
    NodeIsOk(kind, at, t);
    assert MembersHere(kind, at, t');
    RebuildWf(kind, at, t, t', k);
  }

  lemma AppendCache(kind: ItemKind, at: seq<string>, t: Tree, item: ItemData, k: string, c': Tree)
    requires CacheExact(kind, at, t)
    requires Below(kind, at, item.oid) && Toward(at, item.oid) == k
    requires c'.Holdings() == (if k in t.childs then t.childs[k] else EMPTY).Holdings()[item.oid := item]
    ensures CacheExact(kind, at, Tree(t.childs[k := c'], t.members, t.wildcard[item.oid := item]))
  {
    var t' := Tree(t.childs[k := c'], t.members, t.wildcard[item.oid := item]);
    forall o
      ensures o in t'.wildcard <==> CachedBelow(kind, at, t', o)
    {
      assert o in t.wildcard <==> CachedBelow(kind, at, t, o);
    }
  }

  // ----- remove -----

  /** The tree afterwards and the item taken out; nodes left empty are pruned on the way up. */
  function Remove(t: Tree, rest: seq<string>, oid: OID): (Tree, Option<ItemData>)
    decreases |rest|
  {
    if rest != [] then
      if oid !in t.wildcard then (t, None) else
      var w := Drop(t.wildcard, oid);
      if rest[0] !in t.childs then (t.(wildcard := w), None) else
      var (c, r) := Remove(t.childs[rest[0]], rest[1..], oid);
      (Tree(if r.Some? && c.IsEmpty() then Drop(t.childs, rest[0]) else t.childs[rest[0] := c], t.members, w), r)
    else
      (t.(members := Drop(t.members, oid)), Lookup(t.members, oid))
  }

  /** Removing hands out what was held, if anything, and forgets it; otherwise nothing changes. */
  ghost predicate Removed(kind: ItemKind, at: seq<string>, t: Tree, oid: OID, t': Tree, r: Option<ItemData>) {
    && r == Lookup(t.Holdings(), oid)
    && (r.None? ==> t' == t)
    && Wf(kind, at, t') && t'.Holdings() == Drop(t.Holdings(), oid)
  }

  lemma {:induction false} RemoveRefines(kind: ItemKind, at: seq<string>, t: Tree, rest: seq<string>, oid: OID)
    requires Wf(kind, at, t)
    requires oid.kind == kind && oid.path == at + rest
    ensures Removed(kind, at, t, oid, Remove(t, rest, oid).0, Remove(t, rest, oid).1)
    decreases |rest|
  {
    HoldingsBelong(kind, at, t);
    if rest == [] {
      assert oid.path == at;
      RemoveHere(kind, at, t, oid);
    } else {
      var k := rest[0];
      assert at + rest == at + [k] + rest[1..];
      if oid in t.wildcard {
        assert CachedBelow(kind, at, t, oid);
        ChildWf(kind, at, t, k);
        RemoveRefines(kind, at + [k], t.childs[k], rest[1..], oid);
        RemoveBelow(kind, at, t, oid, k, Remove(t.childs[k], rest[1..], oid).0);
      } else {
        assert Drop(t.Holdings(), oid) == t.Holdings();
      }
    }
  }

  lemma RemoveHere(kind: ItemKind, at: seq<string>, t: Tree, oid: OID)
    requires Wf(kind, at, t)
    requires oid.kind == kind && oid.path == at
    ensures var t' := t.(members := Drop(t.members, oid));
      Wf(kind, at, t') && t'.Holdings() == Drop(t.Holdings(), oid)
    ensures oid !in t.members ==> Drop(t.members, oid) == t.members
  {
    var t' := t.(members := Drop(t.members, oid));
    assert oid !in t.wildcard;
    DropFromUnion(t.members, t.wildcard, oid);
    SameChilds(kind, at, t, t');
  }

  lemma RemoveBelow(kind: ItemKind, at: seq<string>, t: Tree, oid: OID, k: string, c': Tree)
    requires Wf(kind, at, t) && oid !in t.members
    requires Below(kind, at, oid) && Toward(at, oid) == k && k in t.childs
    requires Wf(kind, at + [k], c') && c'.Holdings() == Drop(t.childs[k].Holdings(), oid)
    ensures var t' :=
        Tree(if c'.IsEmpty() then Drop(t.childs, k) else t.childs[k := c'], t.members, Drop(t.wildcard, oid));
      Wf(kind, at, t') && t'.Holdings() == Drop(t.Holdings(), oid)
  {
    var t' := Tree(if c'.IsEmpty() then Drop(t.childs, k) else t.childs[k := c'], t.members, Drop(t.wildcard, oid));
    EmptyHoldsNothing(kind, at + [k], c');
    RemoveCache(kind, at, t, oid, k, c');
    DropFromUnion(t.members, t.wildcard, oid);
    ReplacedChild(kind, at, t, t', k);
  }

  lemma EmptyHoldsNothing(kind: ItemKind, at: seq<string>, t: Tree)
    requires Wf(kind, at, t)
    ensures t.IsEmpty() ==> t.Holdings() == map[]
  {
    if t.IsEmpty() {
      assert forall o :: !CachedBelow(kind, at, t, o);
    }
  }

  lemma RemoveCache(kind: ItemKind, at: seq<string>, t: Tree, oid: OID, k: string, c': Tree)
    requires CacheExact(kind, at, t)
    requires Below(kind, at, oid) && Toward(at, oid) == k && k in t.childs
    requires c'.Holdings() == Drop(t.childs[k].Holdings(), oid)
    requires c'.IsEmpty() ==> c'.Holdings() == map[]
    ensures CacheExact(kind, at,
      Tree(if c'.IsEmpty() then Drop(t.childs, k) else t.childs[k := c'], t.members, Drop(t.wildcard, oid)))
  {
    var t' := Tree(if c'.IsEmpty() then Drop(t.childs, k) else t.childs[k := c'], t.members, Drop(t.wildcard, oid));
    forall o
      ensures o in t'.wildcard <==> CachedBelow(kind, at, t', o)
    {
      assert o in t.wildcard <==> CachedBelow(kind, at, t, o);
      RemoveCached(kind, at, t, t', oid, k, c', o);
    }
  }

  lemma RemoveCached(kind: ItemKind, at: seq<string>, t: Tree, t': Tree, oid: OID, k: string, c': Tree, o: OID)
    requires Below(kind, at, oid) && Toward(at, oid) == k && k in t.childs
    requires c'.Holdings() == Drop(t.childs[k].Holdings(), oid) && (c'.IsEmpty() ==> c'.Holdings() == map[])
    requires t'.childs == if c'.IsEmpty() then Drop(t.childs, k) else t.childs[k := c']
    ensures CachedBelow(kind, at, t', o) <==> CachedBelow(kind, at, t, o) && o != oid
  {
    if Below(kind, at, o) && Toward(at, o) == k {
      assert o in c'.Holdings() <==> o in t.childs[k].Holdings() && o != oid;
    }
  }

  // ----- the tree is a canonical form of the map it holds -----

  /** A node that is not empty holds at least one item. */
  lemma {:induction false} NonEmptyHolds(kind: ItemKind, at: seq<string>, t: Tree) returns (o: OID)
    requires Wf(kind, at, t) && !t.IsEmpty()
    ensures o in t.Holdings()
    decreases t
  {
    if t.members != map[] {
      o :| o in t.members;
    } else {
      var k :| k in t.childs;
      ChildWf(kind, at, t, k);
      o := NonEmptyHolds(kind, at + [k], t.childs[k]);
      CachedFromChild(kind, at, t, k, o);
    }
  }

  lemma CachedFromChild(kind: ItemKind, at: seq<string>, t: Tree, k: string, o: OID)
    requires Wf(kind, at, t) && k in t.childs && o in t.childs[k].Holdings()
    ensures Below(kind, at, o) && Toward(at, o) == k
    ensures o in t.wildcard && t.wildcard[o] == t.childs[k].Holdings()[o]
  {
    ChildWf(kind, at, t, k);
    HoldingsBelong(kind, at + [k], t.childs[k]);
    assert (at + [k])[|at|] == k;
    assert at < o.path;
    assert CachedBelow(kind, at, t, o);
  }

  /** What the children of one name hold is read off the caches. */
  lemma ChildOfEqual(kind: ItemKind, at: seq<string>, t: Tree, u: Tree, k: string)
    requires Wf(kind, at, t) && Wf(kind, at, u)
    requires t.wildcard == u.wildcard
    requires k in t.childs
    ensures k in u.childs && t.childs[k].Holdings().Keys <= u.childs[k].Holdings().Keys
    ensures forall o :: o in t.childs[k].Holdings() ==> t.childs[k].Holdings()[o] == u.childs[k].Holdings()[o]
  {
    ChildWf(kind, at, t, k);
    var some := NonEmptyHolds(kind, at + [k], t.childs[k]);
    forall o | o in t.childs[k].Holdings()
      ensures k in u.childs && o in u.childs[k].Holdings() && t.childs[k].Holdings()[o] == u.childs[k].Holdings()[o]
    {
      CachedFromChild(kind, at, t, k, o);
      assert CachedBelow(kind, at, u, o);
    }
    assert some in t.childs[k].Holdings();
  }

  /** Two well-formed trees that hold the same map are the same tree. */
  lemma {:induction false} Canonical(kind: ItemKind, at: seq<string>, t: Tree, u: Tree)
    requires Wf(kind, at, t) && Wf(kind, at, u)
    requires t.Holdings() == u.Holdings()
    ensures t == u
    decreases t
  {
    HoldingsBelong(kind, at, t);
    HoldingsBelong(kind, at, u);
    SameCaches(kind, at, t, u);
    forall k | k in t.childs
      ensures k in u.childs && t.childs[k] == u.childs[k]
    {
      ChildOfEqual(kind, at, t, u, k);
      ChildOfEqual(kind, at, u, t, k);
      assert t.childs[k].Holdings() == u.childs[k].Holdings();
      ChildWf(kind, at, t, k);
      ChildWf(kind, at, u, k);
      Canonical(kind, at + [k], t.childs[k], u.childs[k]);
    }
    forall k | k in u.childs
      ensures k in t.childs
    {
      ChildOfEqual(kind, at, u, t, k);
    }
    assert t.childs == u.childs;
  }

  lemma SameCaches(kind: ItemKind, at: seq<string>, t: Tree, u: Tree)
    requires Belongs(kind, at, t) && Belongs(kind, at, u)
    requires t.Holdings() == u.Holdings()
    ensures t.members == u.members && t.wildcard == u.wildcard
  {
    assert forall o :: o in t.wildcard ==> t.wildcard[o] == t.Holdings()[o];
    assert forall o :: o in u.wildcard ==> u.wildcard[o] == u.Holdings()[o];
    assert forall o :: o in t.members ==> o !in t.wildcard && t.members[o] == t.Holdings()[o];
    assert forall o :: o in u.members ==> o !in u.wildcard && u.members[o] == u.Holdings()[o];
  }

  /** Taking a fresh item out again restores the very tree it was put into. */
  lemma RemoveUndoesAppend(kind: ItemKind, t: Tree, item: ItemData, replace: bool)
    requires Wf(kind, [], t) && item.oid.kind == kind
    requires item.oid !in t.Holdings()
    ensures Remove(Append(t, item.oid.path, item, replace).0, item.oid.path, item.oid) == (t, Some(item))
  {
    var path: seq<string> := item.oid.path;
    assert [] + path == path;
    AppendRefines(kind, [], t, path, item, replace);
    var (t1, ok) := Append(t, path, item, replace);
    RemoveRefines(kind, [], t1, path, item.oid);
    var (t2, r) := Remove(t1, path, item.oid);
    Restored(kind, t, item, t1, t2, r);
  }

  lemma Restored(kind: ItemKind, t: Tree, item: ItemData, t1: Tree, t2: Tree, r: Option<ItemData>)
    requires Wf(kind, [], t) && item.oid !in t.Holdings()
    requires t1.Holdings() == t.Holdings()[item.oid := item]
    requires Removed(kind, [], t1, item.oid, t2, r)
    ensures t2 == t && r == Some(item)
  {
    PutThenDrop(t.Holdings(), item.oid, item);
    Canonical(kind, [], t2, t);
  }

  lemma PutThenDrop<K, V>(m: map<K, V>, k: K, v: V)
    requires k !in m
    ensures Drop(m[k := v], k) == m
  {
  }

  /** The order of two replacing appends of different items leaves no trace. */
  lemma AppendsCommute(kind: ItemKind, t: Tree, a: ItemData, b: ItemData)
    requires Wf(kind, [], t) && a.oid.kind == kind && b.oid.kind == kind && a.oid != b.oid
    ensures Append(Append(t, a.oid.path, a, true).0, b.oid.path, b, true).0
         == Append(Append(t, b.oid.path, b, true).0, a.oid.path, a, true).0
  {
    var ab := AppendTwo(kind, t, a, b);
    var ba := AppendTwo(kind, t, b, a);
    PutsCommute(t.Holdings(), a.oid, a, b.oid, b);
    Canonical(kind, [], ab, ba);
  }

  lemma AppendTwo(kind: ItemKind, t: Tree, a: ItemData, b: ItemData) returns (t2: Tree)
    requires Wf(kind, [], t) && a.oid.kind == kind && b.oid.kind == kind
    ensures t2 == Append(Append(t, a.oid.path, a, true).0, b.oid.path, b, true).0
    ensures Wf(kind, [], t2) && t2.Holdings() == t.Holdings()[a.oid := a][b.oid := b]
  {
    var pa: seq<string>, pb: seq<string> := a.oid.path, b.oid.path;
    assert [] + pa == pa && [] + pb == pb;
    AppendRefines(kind, [], t, pa, a, true);
    var t1 := Append(t, pa, a, true).0;
    AppendRefines(kind, [], t1, pb, b, true);
    t2 := Append(t1, pb, b, true).0;
  }

  lemma PutsCommute<K, V>(m: map<K, V>, k: K, v: V, j: K, w: V)
    requires k != j
    ensures m[k := v][j := w] == m[j := w][k := v]
  {
  }
}
