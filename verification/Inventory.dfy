/** The inventory of a node: the item trees, the buckets by source and the sources. */
module Inventories {
  import opened Common
  import opened Oids
  import opened Masks
  import opened Items
  import opened ItemMaps
  import opened Registries

  const LOCAL_NODE_ALIAS := ".local"

  class Inventory {
    const items: ItemMap
    var itemsBySource: Buckets
    var sources: map<string, ItemSource>

    ghost function View(): Registry
      reads this, items
    {
      Registry(items.Contents, itemsBySource, sources)
    }

    ghost predicate Valid()
      reads this, items, items.Repr, items.unit, items.sensor, items.lvar, items.lmacro
    {
      items.Valid() && Agree(View())
    }

    constructor ()
      ensures Valid() && fresh(items) && fresh(items.Repr) && View() == NOTHING
    {
      items := new ItemMap();
      itemsBySource, sources := map[], map[];
    }

    method AppendItem(item: ItemData, replace: bool) returns (ok: bool)
      requires Valid()
      modifies this, items, items.Repr
      ensures Valid() && fresh(items.Repr - old(items.Repr))
      ensures ok == (replace || item.oid !in old(View()).items)
      ensures View() == if ok then Put(old(View()), item) else old(View())
    {
      ghost var v := View();
      ok := items.Append(item, replace);
      if ok {
        FileItem(item, v);
        PutAgrees(v, item);
      }
    }

    method FileItem(item: ItemData, ghost v: Registry)
      requires v.bySource == itemsBySource && v.sources == sources
      modifies this`itemsBySource, this`sources
      ensures itemsBySource == Put(v, item).bySource && sources == Put(v, item).sources
    {
      var node := item.Node();
      if node in itemsBySource {
        itemsBySource := itemsBySource[node := itemsBySource[node][item.oid := item]];
      } else {
        itemsBySource := itemsBySource[node := map[item.oid := item]];
        if item.source.Some? {
          sources := sources[node.value := item.source.value];
        }
      }
    }

    method RemoveItem(oid: OID) returns (r: Option<ItemData>)
      requires Valid()
      modifies this, items, items.Repr
      ensures Valid() && fresh(items.Repr - old(items.Repr))
      ensures (View(), r) == Take(old(View()), oid)
    {
      ghost var v := View();
      ghost var w := Take(v, oid).0;
      TakeAgrees(v, oid);
      TakeOne(v, oid);
      r := items.Remove(oid);
      if r.Some? {
        UnfileItem(r.value, v, w);
      }
    }

    method UnfileItem(item: ItemData, ghost v: Registry, ghost w: Registry)
      requires v.bySource == itemsBySource && v.sources == sources
      requires (w, Some(item)) == Take(v, item.oid)
      modifies this`itemsBySource, this`sources
      ensures itemsBySource == w.bySource && sources == w.sources
    {
      var node := item.Node();
      if node in itemsBySource {
        var left := Drop(itemsBySource[node], item.oid);
        if left == map[] {
          itemsBySource := Drop(itemsBySource, node);
          if node.Some? {
            sources := Drop(sources, node.value);
          }
        } else {
          itemsBySource := itemsBySource[node := left];
        }
      }
    }

    method GetItem(oid: OID) returns (r: Option<ItemData>)
      requires Valid()
      ensures r == Lookup(View().items, oid)
    {
      r := items.Get(oid);
    }

    method GetOrCreateSource(sourceId: string, svc: string) returns (source: ItemSource)
      requires Valid()
      ensures source.node == sourceId
      ensures if sourceId in sources then source == sources[sourceId] else fresh(source) && !source.destroyed
    {
      source := Registries.GetOrCreateSource(sources, sourceId, svc);
    }

    /**
     The items of the source: all that are stored for it, as the same objects, and nothing of another
     node; none exactly when the source is not registered, and then nothing is stored for it.
     */
    method GetItemsBySource(sourceId: string) returns (r: Option<map<OID, ItemData>>)
      requires Valid()
      ensures r.Some? <==> sourceId in sources
      ensures r.Some? ==> r.value != map[]
      ensures r.Some? ==> forall o :: o in r.value ==> r.value[o].oid == o && r.value[o].Node() == Some(sourceId)
      ensures forall o :: At(View(), Some(sourceId), o) ==> r.Some? && Lookup(r.value, o) == Some(View().items[o])
      ensures Tidy(View(), Some(sourceId)) && r.Some? ==> forall o :: o in r.value ==> At(View(), Some(sourceId), o)
    {
      r := Lookup(itemsBySource, Some(sourceId));
      forall o | HasEntry(View(), Some(sourceId), o)
        ensures View().Bucket(Some(sourceId))[o].oid == o && View().Bucket(Some(sourceId))[o].Node() == Some(sourceId)
      {
      }
      assert r.Some? ==> forall o :: o in r.value <==> HasEntry(View(), Some(sourceId), o);
    }

    /**
     The number of items by source name and in all; every item counts once exactly when no stale entry is
     left in a bucket.
     */
    method Stats() returns (bySource: map<string, nat>, total: nat)
      requires Valid()
      ensures Counted(itemsBySource, itemsBySource.Keys, bySource, total)
      ensures total >= |View().items|
      ensures total == |View().items| <==> Partition(View())
    {
      bySource, total := CountBuckets(itemsBySource);
      CountsOnceIffPartition(View());
    }

    /** All items that match one of the masks and pass the filter, each once, in the order of their OIDs. */
    method ListItems(p: Patterns, masks: seq<OIDMask>, filter: Filter, includeStateless: bool,
                     le: (OID, OID) -> bool) returns (r: seq<ItemData>)
      requires Valid() && TotalOrder(le)
      ensures Lists(r, Listing(p, View().items, masks, filter, includeStateless))
      ensures Sorted(r, le)
    {
      var found := ListFrom(p, items, masks, filter, includeStateless);
      r := SortItems(found, le);
    }
  }

  method ListFrom(p: Patterns, items: ItemMap, masks: seq<OIDMask>, filter: Filter,
                  includeStateless: bool) returns (r: set<ItemData>)
    requires items.Valid()
    ensures r == Listing(p, items.Contents, masks, filter, includeStateless)
  {
    r := {};
    ghost var contents := items.Contents;
    for i := 0 to |masks|
      invariant r == Listing(p, contents, masks[..i], filter, includeStateless)
    {
      var found := items.GetByMask(p, masks[i], filter, includeStateless);
      ListingOneMore(p, contents, masks[..i], masks[i], filter, includeStateless, found);
      assert masks[..i + 1] == masks[..i] + [masks[i]];
      r := r + set x | x in found;
    }
    assert masks[..|masks|] == masks;
  }

  ghost predicate TotalOrder(le: (OID, OID) -> bool) {
    && (forall a, b :: le(a, b) || le(b, a))
    && (forall a, b, c :: le(a, b) && le(b, c) ==> le(a, c))
  }

  ghost predicate Sorted(r: seq<ItemData>, le: (OID, OID) -> bool) {
    forall i, j :: 0 <= i < j < |r| ==> le(r[i].oid, r[j].oid)
  }

  method SortItems(items: set<ItemData>, le: (OID, OID) -> bool) returns (r: seq<ItemData>)
    requires TotalOrder(le)
    ensures Lists(r, items) && Sorted(r, le)
  {
    r := [];
    var todo := items;
    ghost var done := {};
    while todo != {}
      invariant todo !! done && todo + done == items
      invariant Lists(r, done) && Sorted(r, le)
    {
      var x :| x in todo;
      r := InsertItem(r, done, x, le);
      todo, done := todo - {x}, done + {x};
    }
    assert done == items;
  }

  method InsertItem(s: seq<ItemData>, ghost items: set<ItemData>, x: ItemData,
                    le: (OID, OID) -> bool) returns (r: seq<ItemData>)
    requires TotalOrder(le) && Lists(s, items) && Sorted(s, le) && x !in items
    ensures Lists(r, items + {x}) && Sorted(r, le)
  {
    var k := 0;
    while k < |s| && le(s[k].oid, x.oid)
      invariant k <= |s| && forall i :: 0 <= i < k ==> le(s[i].oid, x.oid)
    {
      k := k + 1;
    }
    r := s[..k] + [x] + s[k..];
    ListsInsert(s, items, k, x);
    assert forall j :: k <= j < |s| ==> le(x.oid, s[j].oid);
  }

  lemma ListsInsert(s: seq<ItemData>, items: set<ItemData>, k: nat, x: ItemData)
    requires Lists(s, items) && k <= |s| && x !in items
    ensures Lists(s[..k] + [x] + s[k..], items + {x})
  {
    var r := s[..k] + [x] + s[k..];
    assert r[k] == x;
    forall y | y in items
      ensures y in r
    {
      var i :| 0 <= i < |s| && s[i] == y;
      assert r[if i < k then i else i + 1] == y;
    }
  }

  /**
   The count of each bucket under its label and the number of all entries; the local node shares its label
   with no source of a regular name.
   */
  ghost predicate Counted(buckets: Buckets, names: set<Option<string>>, bySource: map<string, nat>, total: nat) {
    && total == |EntriesOf(buckets, names)|
    && (Some(".local") !in names ==>
          forall n :: n in names && n in buckets ==>
            Lookup(bySource, if n.Some? then n.value else ".local") == Some(|buckets[n]|))
  }

  method CountBuckets(buckets: Buckets) returns (bySource: map<string, nat>, total: nat)
    ensures Counted(buckets, buckets.Keys, bySource, total)
  {
    bySource, total := map[], 0;
    var todo := buckets.Keys;
    ghost var done := {};
    while todo != {}
      invariant todo !! done && todo + done == buckets.Keys
      invariant Counted(buckets, done, bySource, total)
    {
      var n :| n in todo;
      CountedOneMore(buckets, done, bySource, total, n);
      total := total + |buckets[n]|;
      bySource := bySource[NodeLabel(n) := |buckets[n]|];
      done := done + {n};
      todo := todo - {n};
    }
    assert done == buckets.Keys;
  }

  function NodeLabel(node: Option<string>): string {
    if node.Some? then node.value else LOCAL_NODE_ALIAS
  }

  lemma CountedOneMore(buckets: Buckets, done: set<Option<string>>, bySource: map<string, nat>, total: nat,
                       n: Option<string>)
    requires Counted(buckets, done, bySource, total) && n in buckets && n !in done
    ensures Counted(buckets, done + {n}, bySource[NodeLabel(n) := |buckets[n]|], total + |buckets[n]|)
  {
    var tagged := Tagged(n, buckets[n].Keys);
    TaggedSize(n, buckets[n].Keys);
    assert EntriesOf(buckets, done + {n}) == EntriesOf(buckets, done) + tagged;
    assert EntriesOf(buckets, done) !! tagged;
  }

  ghost function Listing(p: Patterns, contents: map<OID, ItemData>, masks: seq<OIDMask>, filter: Filter,
                         includeStateless: bool): set<ItemData> {
    set o | o in contents && (exists m :: m in masks && MaskMatches(p, m, o))
            && (o.kind == Lmacro ==> includeStateless) && filter.Matches(contents[o])
      :: contents[o]
  }

  /** Which items are listed, condition by condition. */
  lemma ListingMeans(p: Patterns, contents: map<OID, ItemData>, masks: seq<OIDMask>, filter: Filter,
                     includeStateless: bool, o: OID)
    requires OwnKeys(contents) && o in contents
    ensures var x := contents[o];
      x in Listing(p, contents, masks, filter, includeStateless) <==>
      && (exists m :: m in masks && (m.kind.Some? ==> o.kind == m.kind.value)
                      && (m.chunks.Some? ==> Covers(p, m.chunks.value, o.path)))
      && (o.kind == Lmacro ==> includeStateless)
      && (filter.node == Some(LocalNode) ==> x.source.None?)
      && (filter.node == Some(RemoteAny) ==> x.source.Some?)
      && (forall id :: filter.node == Some(RemoteNode(id)) ==>
            x.source.Some? && (x.source.value.node == id || id == "#" || id == "*"))
      && (filter.pattern.Some? ==> filter.pattern.value(x.oid))
      && (filter.included.Some? ==> filter.included.value(x.oid))
      && (filter.excluded.Some? ==> !filter.excluded.value(x.oid))
  {
    FilterMeans(filter, contents[o]);
    assert forall m :: MaskMatches(p, m, o) <==>
      (m.kind.Some? ==> o.kind == m.kind.value) && (m.chunks.Some? ==> Covers(p, m.chunks.value, o.path));
  }

  lemma ListingOneMore(p: Patterns, contents: map<OID, ItemData>, masks: seq<OIDMask>, mask: OIDMask, filter: Filter,
                       includeStateless: bool, found: seq<ItemData>)
    requires Lists(found, Selection(p, contents, mask, filter, includeStateless))
    ensures Listing(p, contents, masks + [mask], filter, includeStateless)
         == Listing(p, contents, masks, filter, includeStateless) + set x | x in found
  {
    assert forall m :: m in masks + [mask] <==> m in masks || m == mask;
    assert (set x | x in found) == Selection(p, contents, mask, filter, includeStateless);
  }
}
