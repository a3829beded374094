/** The item tree as it is kept in memory: nodes that are updated in place. */
module ItemTrees {
  import opened Common
  import opened Oids
  import opened Items
  import opened Tries

  class ItemTree {
    var childs: map<string, ItemTree>
    var members: map<OID, ItemData>
    var membersWildcard: map<OID, ItemData>
    ghost var Below: map<string, Tree>  // the children as values
    ghost var Repr: set<ItemTree>

    ghost predicate Valid()
      reads this, Repr
      decreases Repr, 1
    {
      this in Repr && Below.Keys == childs.Keys && Linked()
    }

    ghost predicate Linked()
      requires this in Repr && Below.Keys == childs.Keys
      reads this, Repr
      decreases Repr, 0
    {
      && (forall k :: k in childs ==>
            && childs[k] in Repr && childs[k].Repr <= Repr && this !in childs[k].Repr
            && childs[k].Valid() && Below[k] == childs[k].View())
      && (forall k, l :: k in childs && l in childs && k != l ==> childs[k].Repr !! childs[l].Repr)
    }

    /** The tree as a value. */
    ghost function View(): Tree
      reads this
    {
      Tree(Below, members, membersWildcard)
    }

    constructor ()
      ensures Valid() && Repr == {this} && View() == EMPTY
    {
      childs, members, membersWildcard := map[], map[], map[];
      Below := map[];
      Repr := {this};
    }

    method IsEmpty() returns (empty: bool)
      requires Valid()
      ensures empty == View().IsEmpty()
    {
      empty := childs == map[] && members == map[];
    }

    /** Takes note of a child that has just changed. */
    ghost method Refresh(chunk: string)
      requires this in Repr && chunk in childs && Below.Keys == childs.Keys
      requires forall k :: k in childs ==> this !in childs[k].Repr && childs[k].Valid()
      requires forall k :: k in childs && k != chunk ==>
        childs[k] in Repr && childs[k].Repr <= Repr && Below[k] == childs[k].View()
      requires forall k, l :: k in childs && l in childs && k != l ==> childs[k].Repr !! childs[l].Repr
      modifies this`Repr, this`Below
      ensures Valid()
      ensures Repr == old(Repr) + childs[chunk].Repr
      ensures Below == old(Below)[chunk := childs[chunk].View()]
    {
      ghost var c := childs[chunk];
      Repr := Repr + c.Repr;
      Below := Below[chunk := c.View()];
      assert forall k :: k in childs ==> childs[k].Valid() && childs[k].View() == Below[k];
      assert Linked();
    }

    method Attach(chunk: string, child: ItemTree)
      requires Valid() && child.Valid() && child.Repr !! Repr && chunk !in childs
      modifies this`childs, this`Repr, this`Below
      ensures Valid()
      ensures Repr == old(Repr) + child.Repr
      ensures Below == old(Below)[chunk := child.View()]
    {
      childs := childs[chunk := child];
      Below := Below[chunk := child.View()];
      Repr := Repr + child.Repr;
      assert forall k :: k in childs ==> childs[k].Valid() && childs[k].View() == Below[k];
      assert Linked();
    }

    method Detach(chunk: string)
      requires Valid()
      modifies this`childs, this`Below
      ensures Valid()
      ensures Below == Drop(old(Below), chunk)
    {
      childs := Drop(childs, chunk);
      Below := Drop(Below, chunk);
    }
  }

  method AppendItemRec(tree: ItemTree, rest: seq<string>, item: ItemData, replace: bool) returns (ok: bool)
    requires tree.Valid()
    modifies tree.Repr
    ensures tree.Valid() && fresh(tree.Repr - old(tree.Repr))
    ensures (tree.View(), ok) == Append(old(tree.View()), rest, item, replace)
    decreases |rest|, 1
  {
    if rest != [] {
      if item.oid in tree.membersWildcard && !replace {
        return false;
      }
      tree.membersWildcard := tree.membersWildcard[item.oid := item];
      if rest[0] in tree.childs {
        ok := AppendToChild(tree, rest[0], rest[1..], item, replace);
      } else {
        ok := AppendNewChild(tree, rest[0], rest[1..], item, replace);
      }
    } else if item.oid in tree.members && !replace {
      ok := false;
    } else {
      tree.members := tree.members[item.oid := item];
      ok := true;
    }
  }

  method AppendToChild(tree: ItemTree, chunk: string, rest: seq<string>, item: ItemData,
                       replace: bool) returns (ok: bool)
    requires tree.Valid() && chunk in tree.childs
    modifies tree.Repr
    ensures tree.Valid() && fresh(tree.Repr - old(tree.Repr))
    ensures tree.members == old(tree.members) && tree.membersWildcard == old(tree.membersWildcard)
    ensures tree.Below == old(tree.Below)[chunk := Append(old(tree.Below[chunk]), rest, item, replace).0]
    ensures ok == Append(old(tree.Below[chunk]), rest, item, replace).1
    decreases |rest|, 2
  {
    assert tree.Linked();
    var c := tree.childs[chunk];
    ok := AppendItemRec(c, rest, item, replace);
    tree.Refresh(chunk);
  }

  method AppendNewChild(tree: ItemTree, chunk: string, rest: seq<string>, item: ItemData,
                        replace: bool) returns (ok: bool)
    requires tree.Valid() && chunk !in tree.childs
    modifies tree
    ensures tree.Valid() && fresh(tree.Repr - old(tree.Repr))
    ensures tree.members == old(tree.members) && tree.membersWildcard == old(tree.membersWildcard)
    ensures ok == Append(EMPTY, rest, item, replace).1
    ensures tree.Below == if ok then old(tree.Below)[chunk := Append(EMPTY, rest, item, replace).0] else old(tree.Below)
    decreases |rest|, 3
  {
    var child;
    child, ok := GrowChild(rest, item, replace);
    if ok {
      tree.Attach(chunk, child);
    }
  }

  method GrowChild(rest: seq<string>, item: ItemData, replace: bool) returns (child: ItemTree, ok: bool)
    ensures fresh(child.Repr) && child.Valid()
    ensures (child.View(), ok) == Append(EMPTY, rest, item, replace)
    decreases |rest|, 2
  {
    child := new ItemTree();
    ok := AppendItemRec(child, rest, item, replace);
  }

  method RemoveItemRec(tree: ItemTree, rest: seq<string>, oid: OID) returns (r: Option<ItemData>)
    requires tree.Valid()
    modifies tree.Repr
    ensures tree.Valid() && fresh(tree.Repr - old(tree.Repr))
    ensures (tree.View(), r) == Remove(old(tree.View()), rest, oid)
    decreases |rest|, 1
  {
    if rest != [] {
      if oid !in tree.membersWildcard {
        return None;
      }
      tree.membersWildcard := Drop(tree.membersWildcard, oid);
      if rest[0] !in tree.childs {
        return None;
      }
      r := RemoveAndPrune(tree, rest[0], rest[1..], oid);
    } else {
      r := Lookup(tree.members, oid);
      tree.members := Drop(tree.members, oid);
    }
  }

  method RemoveAndPrune(tree: ItemTree, chunk: string, rest: seq<string>, oid: OID) returns (r: Option<ItemData>)
    requires tree.Valid() && chunk in tree.childs
    modifies tree.Repr
    ensures tree.Valid() && fresh(tree.Repr - old(tree.Repr))
    ensures tree.members == old(tree.members) && tree.membersWildcard == old(tree.membersWildcard)
    ensures r == Remove(old(tree.Below[chunk]), rest, oid).1
    ensures var c := Remove(old(tree.Below[chunk]), rest, oid).0;
      tree.Below == if r.Some? && c.IsEmpty() then Drop(old(tree.Below), chunk) else old(tree.Below)[chunk := c]
    decreases |rest|, 3
  {
    r := RemoveFromChild(tree, chunk, rest, oid);
    if r.Some? {
      assert tree.Linked();
      var empty := tree.childs[chunk].IsEmpty();
      if empty {
        DropOverwritten(old(tree.Below), chunk, tree.Below[chunk]);
        tree.Detach(chunk);
      }
    }
  }

  method RemoveFromChild(tree: ItemTree, chunk: string, rest: seq<string>, oid: OID) returns (r: Option<ItemData>)
    requires tree.Valid() && chunk in tree.childs
    modifies tree.Repr
    ensures tree.Valid() && fresh(tree.Repr - old(tree.Repr))
    ensures tree.members == old(tree.members) && tree.membersWildcard == old(tree.membersWildcard)
    ensures tree.Below == old(tree.Below)[chunk := Remove(old(tree.Below[chunk]), rest, oid).0]
    ensures r == Remove(old(tree.Below[chunk]), rest, oid).1
    decreases |rest|, 2
  {
    assert tree.Linked();
    var c := tree.childs[chunk];
    r := RemoveItemRec(c, rest, oid);
    tree.Refresh(chunk);
  }
}
