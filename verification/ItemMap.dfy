/** Queries on the item tree, and the four trees that hold the items of a node. */
module ItemSearch {
  import opened Common
  import opened Oids
  import opened Masks
  import opened Items
  import opened Tries
  import opened ItemTrees

  /** The item stored under one OID: any member of the node its path leads to. */
  method GetItemRec(tree: ItemTree, rest: seq<string>, ghost at: seq<string>,
                    ghost oid: OID) returns (r: Option<ItemData>)
    requires tree.Valid() && Wf(oid.kind, at, tree.View())
    requires oid.path == at + rest
    ensures r == Lookup(tree.View().Holdings(), oid)
    decreases |rest|
  {
    HoldingsBelong(oid.kind, at, tree.View());
    if rest != [] {
      assert tree.View().wildcard == tree.membersWildcard;
      if rest[0] in tree.childs {
        assert oid.path == at + [rest[0]] + rest[1..];
        ChildWf(oid.kind, at, tree.View(), rest[0]);
        r := GetItemRec(tree.childs[rest[0]], rest[1..], at + [rest[0]], oid);
      } else {
        r := None;
      }
      assert oid in tree.membersWildcard <==> CachedBelow(oid.kind, at, tree.View(), oid);
    } else if tree.members == map[] {
      r := None;
    } else {
      var o :| o in tree.members;
      r := Some(tree.members[o]);
      assert o == oid;
    }
  }

  /** The items under the given keys that pass the filter. */
  ghost function Passing(m: map<OID, ItemData>, keys: set<OID>, filter: Filter): set<ItemData> {
    set o | o in keys && o in m && filter.Matches(m[o]) :: m[o]
  }

  /** The items at or below the node at `at` whose remaining path the mask covers. */
  ghost function Hits(p: Patterns, filter: Filter, t: Tree, at: seq<string>, mask: seq<string>): set<ItemData> {
    set o | o in t.Holdings() && at <= o.path && Covers(p, mask, o.path[|at|..]) && filter.Matches(t.Holdings()[o])
      :: t.Holdings()[o]
  }

  /** Those of them that lie below the children named. */
  ghost function HitsUnder(p: Patterns, filter: Filter, t: Tree, at: seq<string>, rest: seq<string>,
                           names: set<string>): set<ItemData> {
    set o | o in t.wildcard && at < o.path && Toward(at, o) in names
            && Covers(p, rest, o.path[|at| + 1..]) && filter.Matches(t.wildcard[o])
      :: t.wildcard[o]
  }

  method Filtered(m: map<OID, ItemData>, filter: Filter) returns (r: seq<ItemData>)
    requires forall o :: o in m ==> m[o].oid == o
    ensures Lists(r, Passing(m, m.Keys, filter))
  {
    r := [];
    var todo := m.Keys;
    ghost var done := {};
    while todo != {}
      invariant todo + done == m.Keys && todo !! done
      invariant Lists(r, Passing(m, done, filter))
    {
      var o :| o in todo;
      todo := todo - {o};
      PassingOneMore(m, done, o, filter);
      if filter.Matches(m[o]) {
        ListsOneMore(r, Passing(m, done, filter), m[o]);
        r := r + [m[o]];
      }
      done := done + {o};
    }
    assert done == m.Keys;
  }

  lemma PassingOneMore(m: map<OID, ItemData>, done: set<OID>, o: OID, filter: Filter)
    requires forall x :: x in m ==> m[x].oid == x
    requires o in m && o !in done
    ensures Passing(m, done + {o}, filter) == Passing(m, done, filter) + if filter.Matches(m[o]) then {m[o]} else {}
    ensures m[o] !in Passing(m, done, filter)
  {
  }

  // ----- what one level of the walk contributes -----

  lemma HitsHere(p: Patterns, filter: Filter, kind: ItemKind, at: seq<string>, t: Tree)
    requires Belongs(kind, at, t)
    ensures Hits(p, filter, t, at, []) == Passing(t.members, t.members.Keys, filter)
  {
    forall o | o in t.Holdings()
      ensures Covers(p, [], o.path[|at|..]) <==> o in t.members
      ensures o in t.members ==> t.members[o] == t.Holdings()[o]
    {
      CoversStep(p, [], o.path[|at|..]);
      assert o.path == at + o.path[|at|..];
    }
  }

  lemma HitsBelow(p: Patterns, filter: Filter, kind: ItemKind, at: seq<string>, t: Tree, mask: seq<string>)
    requires Belongs(kind, at, t) && mask != [] && mask[0] == REST
    ensures Hits(p, filter, t, at, mask) == Passing(t.wildcard, t.wildcard.Keys, filter)
  {
    forall o | o in t.Holdings()
      ensures Covers(p, mask, o.path[|at|..]) <==> o in t.wildcard
      ensures o in t.wildcard ==> t.wildcard[o] == t.Holdings()[o]
    {
      CoversStep(p, mask, o.path[|at|..]);
      assert o.path == at + o.path[|at|..];
    }
  }

  lemma HitsStep(p: Patterns, filter: Filter, kind: ItemKind, at: seq<string>, t: Tree, mask: seq<string>,
                 names: set<string>)
    requires Belongs(kind, at, t) && CacheExact(kind, at, t)
    requires mask != [] && mask[0] != REST
    requires names == set k | k in t.childs && ChunkMatches(p, mask[0], k)
    ensures Hits(p, filter, t, at, mask) == HitsUnder(p, filter, t, at, mask[1..], names)
  {
    forall o | o in t.Holdings()
      ensures o in t.members ==> !Covers(p, mask, o.path[|at|..])
      ensures o in t.wildcard ==>
        && t.wildcard[o] == t.Holdings()[o] && at < o.path
        && (Covers(p, mask, o.path[|at|..]) <==>
              Toward(at, o) in names && Covers(p, mask[1..], o.path[|at| + 1..]))
    {
      assert o in t.wildcard <==> CachedBelow(kind, at, t, o);
      CoversAt(p, at, o, mask);
    }
  }

  lemma CoversAt(p: Patterns, at: seq<string>, o: OID, mask: seq<string>)
    requires at <= o.path && mask != [] && mask[0] != REST
    ensures o.path == at ==> !Covers(p, mask, o.path[|at|..])
    ensures at < o.path ==>
      (Covers(p, mask, o.path[|at|..]) <==>
        ChunkMatches(p, mask[0], Toward(at, o)) && Covers(p, mask[1..], o.path[|at| + 1..]))
  {
    CoversStep(p, mask, o.path[|at|..]);
    if at < o.path {
      assert o.path[|at|..][1..] == o.path[|at| + 1..];
    }
  }

  lemma HitsOfChild(p: Patterns, filter: Filter, kind: ItemKind, at: seq<string>, t: Tree, k: string, rest: seq<string>)
    requires Wf(kind, at, t) && k in t.childs
    ensures Hits(p, filter, t.childs[k], at + [k], rest) == HitsUnder(p, filter, t, at, rest, {k})
  {
    var c := t.childs[k];
    forall o | o in c.Holdings()
      ensures o in t.wildcard && at < o.path && Toward(at, o) == k && t.wildcard[o] == c.Holdings()[o]
    {
      CachedFromChild(kind, at, t, k, o);
    }
    forall o | o in t.wildcard && at < o.path && Toward(at, o) == k
      ensures o in c.Holdings() && at + [k] <= o.path
    {
      assert CachedBelow(kind, at, t, o);
      assert o.path[..|at| + 1] == at + [k];
    }
  }

  lemma HitsUnderOneMore(p: Patterns, filter: Filter, t: Tree, at: seq<string>, rest: seq<string>, done: set<string>,
                         k: string)
    requires forall o :: o in t.wildcard ==> t.wildcard[o].oid == o
    requires k !in done
    ensures HitsUnder(p, filter, t, at, rest, done + {k})
         == HitsUnder(p, filter, t, at, rest, done) + HitsUnder(p, filter, t, at, rest, {k})
    ensures HitsUnder(p, filter, t, at, rest, done) !! HitsUnder(p, filter, t, at, rest, {k})
  {
  }

  // ----- the walk -----

  /** The children one chunk of the mask leads to. */
  method SelectChilds(p: Patterns, childs: set<string>, chunk: string) returns (names: set<string>)
    requires chunk != REST
    ensures names == set k | k in childs && ChunkMatches(p, chunk, k)
  {
    if chunk == ANY {
      names := childs;
    } else if p.formulaPrefix <= chunk {
      var f := chunk[|p.formulaPrefix|..];
      names := set k | k in childs && p.formula(f, k);
    } else if p.regexPrefix <= chunk {
      var re := chunk[|p.regexPrefix|..];
      names := if p.regexValid(re) then set k | k in childs && p.regex(re, k) else {};
    } else {
      names := if chunk in childs then {chunk} else {};
    }
  }

  method GetItemByMaskRec(p: Patterns, tree: ItemTree, mask: seq<string>, filter: Filter, ghost kind: ItemKind,
                          ghost at: seq<string>)
    returns (r: seq<ItemData>)
    requires tree.Valid() && Wf(kind, at, tree.View())
    ensures Lists(r, Hits(p, filter, tree.View(), at, mask))
    decreases |mask|, 0
  {
    ghost var t := tree.View();
    HoldingsBelong(kind, at, t);
    if mask == [] {
      HitsHere(p, filter, kind, at, t);
      r := Filtered(tree.members, filter);
    } else if mask[0] == REST {
      HitsBelow(p, filter, kind, at, t, mask);
      r := Filtered(tree.membersWildcard, filter);
    } else {
      var names := SelectChilds(p, tree.childs.Keys, mask[0]);
      HitsStep(p, filter, kind, at, t, mask, names);
      r := VisitChilds(p, tree, names, mask[1..], filter, kind, at);
    }
  }

  method VisitChilds(p: Patterns, tree: ItemTree, names: set<string>, rest: seq<string>, filter: Filter,
                     ghost kind: ItemKind, ghost at: seq<string>)
    returns (r: seq<ItemData>)
    requires tree.Valid() && Wf(kind, at, tree.View())
    requires names <= tree.childs.Keys
    ensures Lists(r, HitsUnder(p, filter, tree.View(), at, rest, names))
    decreases |rest|, 1
  {
    r := [];
    var todo := names;
    ghost var t, done := tree.View(), {};
    while todo != {}
      invariant todo + done == names && todo !! done
      invariant Lists(r, HitsUnder(p, filter, t, at, rest, done))
    {
      var k :| k in todo;
      todo := todo - {k};
      ChildWf(kind, at, t, k);
      var found := GetItemByMaskRec(p, tree.childs[k], rest, filter, kind, at + [k]);
      VisitedOneMore(p, filter, kind, at, t, rest, done, r, k, found);
      r := r + found;
      done := done + {k};
    }
    assert done == names;
  }

  lemma VisitedOneMore(p: Patterns, filter: Filter, kind: ItemKind, at: seq<string>, t: Tree, rest: seq<string>,
                       done: set<string>, r: seq<ItemData>, k: string, found: seq<ItemData>)
    requires Wf(kind, at, t) && k in t.childs && k !in done
    requires Lists(r, HitsUnder(p, filter, t, at, rest, done))
    requires Lists(found, Hits(p, filter, t.childs[k], at + [k], rest))
    ensures Lists(r + found, HitsUnder(p, filter, t, at, rest, done + {k}))
  {
    HitsOfChild(p, filter, kind, at, t, k, rest);
    HoldingsBelong(kind, at, t);
    assert forall o :: o in t.wildcard ==> t.wildcard[o] == t.Holdings()[o];
    HitsUnderOneMore(p, filter, t, at, rest, done, k);
    ListsBoth(r, HitsUnder(p, filter, t, at, rest, done), found, HitsUnder(p, filter, t, at, rest, {k}));
  }
}

/** One tree per item kind, together a map from OIDs to items. */
module ItemMaps {
  import opened Common
  import opened Oids
  import opened Masks
  import opened Items
  import opened Tries
  import opened ItemTrees
  import opened ItemSearch

  /** What a query has to return: the items that match the mask and pass the filter, macros on request only. */
  ghost function Selection(p: Patterns, contents: map<OID, ItemData>, mask: OIDMask, filter: Filter,
                           includeStateless: bool): set<ItemData> {
    set o | o in contents && MaskMatches(p, mask, o) && (o.kind == Lmacro ==> includeStateless)
            && filter.Matches(contents[o])
      :: contents[o]
  }

  ghost function SelectionOf(p: Patterns, contents: map<OID, ItemData>, kinds: set<ItemKind>,
                             chunks: Option<seq<string>>, filter: Filter): set<ItemData> {
    set o | o in contents && o.kind in kinds && (chunks.Some? ==> Covers(p, chunks.value, o.path))
            && filter.Matches(contents[o])
      :: contents[o]
  }

  ghost predicate OwnKeys(contents: map<OID, ItemData>) {
    forall o :: o in contents ==> contents[o].oid == o
  }

  /** Which items a query returns, condition by condition. */
  lemma SelectionMeans(p: Patterns, contents: map<OID, ItemData>, mask: OIDMask, filter: Filter,
                       includeStateless: bool, o: OID)
    requires OwnKeys(contents) && o in contents
    ensures var x := contents[o];
      x in Selection(p, contents, mask, filter, includeStateless) <==>
      && (mask.kind.Some? ==> o.kind == mask.kind.value)
      && (mask.chunks.Some? ==> Covers(p, mask.chunks.value, o.path))
      && (o.kind == Lmacro ==> includeStateless)
      && (filter.node == Some(LocalNode) ==> x.source.None?)
      && (filter.node == Some(RemoteAny) ==> x.source.Some?)
      && (forall id :: filter.node == Some(RemoteNode(id)) ==>
            x.source.Some? && (x.source.value.node == id || id == "#" || id == "*"))
      && (filter.pattern.Some? ==> filter.pattern.value(x.oid))
      && (filter.included.Some? ==> filter.included.value(x.oid))
      && (filter.excluded.Some? ==> !filter.excluded.value(x.oid))
  {
    FilterMeans(filter, contents[o]);
  }

  lemma SelectionOneMore(p: Patterns, contents: map<OID, ItemData>, kinds: set<ItemKind>, kind: ItemKind,
                         chunks: Option<seq<string>>, filter: Filter,
                         r: seq<ItemData>, found: seq<ItemData>)
    requires OwnKeys(contents) && kind !in kinds
    requires Lists(r, SelectionOf(p, contents, kinds, chunks, filter))
    requires Lists(found, SelectionOf(p, contents, {kind}, chunks, filter))
    ensures Lists(r + found, SelectionOf(p, contents, kinds + {kind}, chunks, filter))
  {
    var a, b := SelectionOf(p, contents, kinds, chunks, filter), SelectionOf(p, contents, {kind}, chunks, filter);
    assert a !! b;
    assert a + b == SelectionOf(p, contents, kinds + {kind}, chunks, filter);
    ListsBoth(r, a, found, b);
  }

  /** The contents of one kind are the contents of its tree. */
  lemma SelectionOfTree(p: Patterns, contents: map<OID, ItemData>, t: Tree, kind: ItemKind,
                        chunks: Option<seq<string>>, filter: Filter)
    requires Belongs(kind, [], t)
    requires forall o: OID :: o.kind == kind ==> Lookup(contents, o) == Lookup(t.Holdings(), o)
    ensures chunks.Some? ==> SelectionOf(p, contents, {kind}, chunks, filter) == Hits(p, filter, t, [], chunks.value)
    ensures chunks.None? ==>
      SelectionOf(p, contents, {kind}, chunks, filter) == Passing(t.wildcard, t.wildcard.Keys, filter)
    ensures OwnKeys(t.wildcard)
  {
    forall o: OID
      ensures o in contents && o.kind == kind <==> o in t.wildcard
      ensures o in t.wildcard <==> o in t.Holdings()
      ensures o in t.wildcard ==> contents[o] == t.wildcard[o] == t.Holdings()[o]
    {
      assert o.kind == kind ==> Lookup(contents, o) == Lookup(t.Holdings(), o);
    }
    assert forall o: OID :: o.path[0..] == o.path;
  }

  class ItemMap {
    const unit: ItemTree
    const sensor: ItemTree
    const lvar: ItemTree
    const lmacro: ItemTree
    ghost var Contents: map<OID, ItemData>  // the finite map the trees stand for
    ghost var Repr: set<ItemTree>

    function GetTree(kind: ItemKind): ItemTree {
      match kind
      case Unit => unit
      case Sensor => sensor
      case Lvar => lvar
      case Lmacro => lmacro
    }

    ghost predicate Valid()
      reads this, Repr, unit, sensor, lvar, lmacro
    {
      ValidTrees() && Tied()
    }

    ghost predicate Tied()
      reads this`Contents, unit, sensor, lvar, lmacro
    {
      forall o: OID :: Lookup(Contents, o) == Lookup(GetTree(o.kind).View().Holdings(), o)
    }

    ghost predicate ValidTrees()
      reads this`Repr, Repr, unit, sensor, lvar, lmacro
    {
      && (forall kind: ItemKind :: ValidTree(kind))
      && (forall j: ItemKind, k: ItemKind :: j != k ==> GetTree(j).Repr !! GetTree(k).Repr)
    }

    ghost predicate ValidTree(kind: ItemKind)
      reads this`Repr, Repr
    {
      var tree := GetTree(kind);
      tree in Repr && tree.Repr <= Repr && tree.Valid() && Wf(kind, [], tree.View())
    }

    constructor ()
      ensures Valid() && fresh(Repr) && Contents == map[]
    {
      unit := new ItemTree();
      sensor := new ItemTree();
      lvar := new ItemTree();
      lmacro := new ItemTree();
      Contents := map[];
      new;
      Repr := {unit, sensor, lvar, lmacro};
      forall kind: ItemKind
        ensures ValidTree(kind) && GetTree(kind).View() == EMPTY && GetTree(kind).Repr == {GetTree(kind)}
      {
        var tree := GetTree(kind);
        assert tree.Valid() && tree.Repr == {tree} && tree.View() == EMPTY;
        EmptyIsWf(kind, []);
      }
    }

    method Append(item: ItemData, replace: bool) returns (ok: bool)
      requires Valid()
      modifies this, Repr
      ensures Valid() && fresh(Repr - old(Repr))
      ensures ok == (replace || item.oid !in old(Contents))
      ensures Contents == if ok then old(Contents)[item.oid := item] else old(Contents)
      ensures !ok ==> forall kind: ItemKind :: GetTree(kind).View() == old(GetTree(kind).View())
    {
      assert Lookup(Contents, item.oid) == Lookup(GetTree(item.oid.kind).View().Holdings(), item.oid);
      ok := AppendToTree(item, replace);
      if ok {
        Contents := Contents[item.oid := item];
      }
      forall o: OID
        ensures Lookup(Contents, o) == Lookup(GetTree(o.kind).View().Holdings(), o)
      {
        assert old(Lookup(Contents, o)) == old(Lookup(GetTree(o.kind).View().Holdings(), o));
      }
    }

    method AppendToTree(item: ItemData, replace: bool) returns (ok: bool)
      requires ValidTrees()
      modifies this`Repr, Repr
      ensures ValidTrees() && fresh(Repr - old(Repr))
      ensures Appended(item.oid.kind, [], old(GetTree(item.oid.kind).View()), item, replace,
        GetTree(item.oid.kind).View(), ok)
      ensures forall kind: ItemKind :: kind != item.oid.kind ==> GetTree(kind).View() == old(GetTree(kind).View())
    {
      var tree := GetTree(item.oid.kind);
      var path: seq<string> := item.oid.path;
      assert [] + path == path;
      assert ValidTree(item.oid.kind);
      AppendRefines(item.oid.kind, [], tree.View(), path, item, replace);
      ok := AppendItemRec(tree, path, item, replace);
      forall k: ItemKind | k != item.oid.kind
        ensures ValidTree(k) && GetTree(k).View() == old(GetTree(k).View()) && GetTree(k).Repr == old(GetTree(k).Repr)
      {
        assert old(ValidTree(k));
      }
      Note(item.oid.kind);
    }

    /** Takes note of a tree that has just changed. */
    ghost method Note(kind: ItemKind)
      requires GetTree(kind).Valid() && Wf(kind, [], GetTree(kind).View())
      requires forall k: ItemKind :: k != kind ==> ValidTree(k)
      requires forall j: ItemKind, k: ItemKind :: j != k ==> GetTree(j).Repr !! GetTree(k).Repr
      modifies this`Repr
      ensures ValidTrees() && Repr == old(Repr) + GetTree(kind).Repr
    {
      Repr := Repr + GetTree(kind).Repr;
      forall k: ItemKind
        ensures ValidTree(k)
      {
        assert k != kind ==> old(ValidTree(k));
      }
    }

    method Get(oid: OID) returns (r: Option<ItemData>)
      requires Valid()
      ensures r == Lookup(Contents, oid)
    {
      assert oid.path == [] + oid.path;
      assert ValidTree(oid.kind);
      r := GetItemRec(GetTree(oid.kind), oid.path, [], oid);
    }

    lemma ContentsOwnKeys()
      requires Valid()
      ensures OwnKeys(Contents)
    {
      forall o | o in Contents
        ensures Contents[o].oid == o
      {
        assert ValidTree(o.kind);
        HoldingsBelong(o.kind, [], GetTree(o.kind).View());
        assert Lookup(Contents, o) == Lookup(GetTree(o.kind).View().Holdings(), o);
      }
    }

    method SearchTree(p: Patterns, kind: ItemKind, chunks: Option<seq<string>>,
                      filter: Filter) returns (r: seq<ItemData>)
      requires Valid()
      ensures Lists(r, SelectionOf(p, Contents, {kind}, chunks, filter))
    {
      assert ValidTree(kind);
      HoldingsBelong(kind, [], GetTree(kind).View());
      SelectionOfTree(p, Contents, GetTree(kind).View(), kind, chunks, filter);
      var tree := GetTree(kind);
      if chunks.Some? {
        r := GetItemByMaskRec(p, tree, chunks.value, filter, kind, []);
      } else {
        r := Filtered(tree.membersWildcard, filter);
      }
    }

    method GetByMask(p: Patterns, mask: OIDMask, filter: Filter, includeStateless: bool) returns (r: seq<ItemData>)
      requires Valid()
      ensures Lists(r, Selection(p, Contents, mask, filter, includeStateless))
    {
      ghost var contents := Contents;
      if mask.kind.Some? {
        var kind := mask.kind.value;
        if kind == Lmacro && !includeStateless {
          return [];
        }
        r := SearchTree(p, kind, mask.chunks, filter);
        assert SelectionOf(p, contents, {kind}, mask.chunks, filter) ==
          Selection(p, contents, mask, filter, includeStateless);
      } else {
        ContentsOwnKeys();
        r := SearchTree(p, Unit, mask.chunks, filter);
        var more := SearchTree(p, Sensor, mask.chunks, filter);
        SelectionOneMore(p, contents, {Unit}, Sensor, mask.chunks, filter, r, more);
        r := r + more;
        more := SearchTree(p, Lvar, mask.chunks, filter);
        SelectionOneMore(p, contents, {Unit, Sensor}, Lvar, mask.chunks, filter, r, more);
        r := r + more;
        if includeStateless {
          more := SearchTree(p, Lmacro, mask.chunks, filter);
          SelectionOneMore(p, contents, {Unit, Sensor, Lvar}, Lmacro, mask.chunks, filter, r, more);
          r := r + more;
        }
        AllKinds(p, contents, mask, filter, includeStateless);
      }
    }

    lemma AllKinds(p: Patterns, contents: map<OID, ItemData>, mask: OIDMask, filter: Filter, includeStateless: bool)
      requires mask.kind.None?
      ensures Selection(p, contents, mask, filter, includeStateless) ==
        SelectionOf(p, contents, {Unit, Sensor} + {Lvar} + (if includeStateless then {Lmacro} else {}),
                    mask.chunks, filter)
    {
    }

    method Remove(oid: OID) returns (r: Option<ItemData>)
      requires Valid()
      modifies this, Repr
      ensures Valid() && fresh(Repr - old(Repr))
      ensures r == Lookup(old(Contents), oid)
      ensures Contents == Drop(old(Contents), oid)
      ensures r.None? ==> forall kind: ItemKind :: GetTree(kind).View() == old(GetTree(kind).View())
    {
      assert Lookup(Contents, oid) == Lookup(GetTree(oid.kind).View().Holdings(), oid);
      r := RemoveFromTree(oid);
      Contents := Drop(Contents, oid);
      forall o: OID
        ensures Lookup(Contents, o) == Lookup(GetTree(o.kind).View().Holdings(), o)
      {
        LookupDrop(old(Contents), oid, o);
        LookupDrop(old(GetTree(oid.kind).View()).Holdings(), oid, o);
        assert old(Lookup(Contents, o)) == old(Lookup(GetTree(o.kind).View().Holdings(), o));
      }
    }

    method RemoveFromTree(oid: OID) returns (r: Option<ItemData>)
      requires ValidTrees()
      modifies this`Repr, Repr
      ensures ValidTrees() && fresh(Repr - old(Repr))
      ensures Removed(oid.kind, [], old(GetTree(oid.kind).View()), oid, GetTree(oid.kind).View(), r)
      ensures forall kind: ItemKind :: kind != oid.kind ==> GetTree(kind).View() == old(GetTree(kind).View())
    {
      var tree := GetTree(oid.kind);
      var path: seq<string> := oid.path;
      assert [] + path == path;
      assert ValidTree(oid.kind);
      ghost var t := tree.View();
      r := RemoveItemRec(tree, path, oid);
      assert Removed(oid.kind, [], t, oid, tree.View(), r) by {
        RemoveRefines(oid.kind, [], t, path, oid);
      }
      forall k: ItemKind | k != oid.kind
        ensures ValidTree(k) && GetTree(k).View() == old(GetTree(k).View()) && GetTree(k).Repr == old(GetTree(k).Repr)
      {
        assert old(ValidTree(k));
      }
      Note(oid.kind);
    }
  }
}
