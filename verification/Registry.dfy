/**
 The inventory as a value: all items, the same items grouped by the node they come
 from (none for local ones), and the registered sources.
 */
module Registries {
  import opened Common
  import opened Oids
  import opened Items

  type Buckets = map<Option<string>, map<OID, ItemData>>

  datatype Registry = Registry(
    items: map<OID, ItemData>,
    bySource: Buckets,
    sources: map<string, ItemSource>)
  {
    /** The items of one node; none if it has no bucket. */
    function Bucket(node: Option<string>): map<OID, ItemData> {
      if node in bySource then bySource[node] else map[]
    }

    function Entry(node: Option<string>, oid: OID): Option<ItemData> {
      Lookup(Bucket(node), oid)
    }
  }

  const NOTHING := Registry(map[], map[], map[])

  /** Stores an item, replacing the one of the same OID. Only a new bucket registers its source. */
  function Put(v: Registry, item: ItemData): Registry {
    var node := item.Node();
    Registry(
      v.items[item.oid := item],
      v.bySource[node := v.Bucket(node)[item.oid := item]],
      if node in v.bySource || item.source.None? then v.sources else v.sources[node.value := item.source.value])
  }

  /** Takes an item out; the last item of a bucket takes the bucket and its source with it. */
  function Take(v: Registry, oid: OID): (Registry, Option<ItemData>) {
    if oid !in v.items then (v, None) else
    var item := v.items[oid];
    var node := item.Node();
    var left := Drop(v.Bucket(node), oid);
    if node !in v.bySource then
      (v.(items := Drop(v.items, oid)), Some(item))
    else if left == map[] then
      var sources := if node.Some? then Drop(v.sources, node.value) else v.sources;
      (Registry(Drop(v.items, oid), Drop(v.bySource, node), sources), Some(item))
    else
      (Registry(Drop(v.items, oid), v.bySource[node := left], v.sources), Some(item))
  }

  lemma TakeOne(v: Registry, oid: OID)
    ensures Take(v, oid).0.items == Drop(v.items, oid) && Take(v, oid).1 == Lookup(v.items, oid)
    ensures Complete(v) && oid in v.items ==> v.items[oid].oid == oid
  {
    assert oid !in v.items ==> Drop(v.items, oid) == v.items;
  }

  lemma BucketAfterPut(v: Registry, item: ItemData, n: Option<string>)
    ensures Put(v, item).Bucket(n) == if n == item.Node() then v.Bucket(n)[item.oid := item] else v.Bucket(n)
  {
  }

  lemma BucketAfterTake(v: Registry, oid: OID, n: Option<string>)
    requires oid in v.items
    ensures Take(v, oid).0.Bucket(n) == if n == v.items[oid].Node() then Drop(v.Bucket(n), oid) else v.Bucket(n)
  {
    assert forall m: map<OID, ItemData> :: m == map[] ==> Drop(m, oid) == map[];
  }

  /** A source is registered by the first item of its bucket, and its object stays until the bucket goes. */
  lemma SourceStays(v: Registry, item: ItemData, oid: OID, n: string)
    requires Agree(v)
    ensures var w := Put(v, item);
      if n in v.sources then Lookup(w.sources, n) == Some(v.sources[n])
      else Lookup(w.sources, n) == if item.Node() == Some(n) then item.source else None
    ensures var w := Take(v, oid).0;
      var emptied := At(v, Some(n), oid) && forall o :: HasEntry(v, Some(n), o) ==> o == oid;
      Lookup(w.sources, n) == if n in v.sources && !emptied then Some(v.sources[n]) else None
  {
    if At(v, Some(n), oid) {
      var left := Drop(v.Bucket(Some(n)), oid);
      assert left == map[] <==> forall o :: HasEntry(v, Some(n), o) ==> o == oid by {
        assert forall o :: o in left <==> HasEntry(v, Some(n), o) && o != oid;
      }
    }
  }

  // ----- what the three indexes always agree on -----

  ghost predicate Complete(v: Registry) {
    forall o :: o in v.items ==> v.items[o].oid == o && Lookup(v.Bucket(v.items[o].Node()), o) == Some(v.items[o])
  }

  predicate HasEntry(v: Registry, n: Option<string>, o: OID) {
    o in v.Bucket(n)
  }

  ghost predicate Homed(v: Registry) {
    forall n, o :: HasEntry(v, n, o) ==> v.Bucket(n)[o].oid == o && v.Bucket(n)[o].Node() == n
  }

  ghost predicate NoEmptyBucket(v: Registry) {
    forall n :: n in v.bySource ==> v.bySource[n] != map[]
  }

  ghost predicate SourcesExact(v: Registry) {
    && (forall n :: n in v.sources <==> Some(n) in v.bySource)
    && (forall n :: n in v.sources ==> v.sources[n].node == n)
  }

  ghost predicate Agree(v: Registry) {
    Complete(v) && Homed(v) && NoEmptyBucket(v) && SourcesExact(v)
  }

  /** The buckets hold nothing but stored items, so that together they partition the inventory. */
  ghost predicate Partition(v: Registry) {
    forall n, o :: HasEntry(v, n, o) ==> Lookup(v.items, o) == Some(v.Bucket(n)[o])
  }

  lemma PutAgrees(v: Registry, item: ItemData)
    requires Agree(v)
    ensures Agree(Put(v, item))
  {
    PutCompletes(v, item);
    PutHomes(v, item);
    assert item.oid in Put(v, item).bySource[item.Node()];
  }

  lemma PutCompletes(v: Registry, item: ItemData)
    requires Complete(v)
    ensures Complete(Put(v, item))
  {
    var w := Put(v, item);
    forall o | o in w.items
      ensures w.items[o].oid == o && Lookup(w.Bucket(w.items[o].Node()), o) == Some(w.items[o])
    {
      BucketAfterPut(v, item, w.items[o].Node());
    }
  }

  lemma PutHomes(v: Registry, item: ItemData)
    requires Homed(v)
    ensures Homed(Put(v, item))
  {
    var w := Put(v, item);
    forall n, o | HasEntry(w, n, o)
      ensures w.Bucket(n)[o].oid == o && w.Bucket(n)[o].Node() == n
    {
      BucketAfterPut(v, item, n);
      assert HasEntry(v, n, o) || (n == item.Node() && o == item.oid);
    }
  }

  lemma TakeAgrees(v: Registry, oid: OID)
    requires Agree(v)
    ensures Agree(Take(v, oid).0)
  {
    if oid in v.items {
      TakeCompletes(v, oid);
      TakeHomes(v, oid);
      TakeSources(v, oid);
    }
  }

  lemma TakeCompletes(v: Registry, oid: OID)
    requires Complete(v) && oid in v.items
    ensures Complete(Take(v, oid).0)
  {
    var w := Take(v, oid).0;
    TakeOne(v, oid);
    forall o | o in w.items
      ensures w.items[o].oid == o && Lookup(w.Bucket(w.items[o].Node()), o) == Some(w.items[o])
    {
      BucketAfterTake(v, oid, v.items[o].Node());
      assert o != oid;
    }
  }

  lemma TakeHomes(v: Registry, oid: OID)
    requires Homed(v) && oid in v.items
    ensures Homed(Take(v, oid).0)
  {
    var w := Take(v, oid).0;
    forall n, o | HasEntry(w, n, o)
      ensures w.Bucket(n)[o].oid == o && w.Bucket(n)[o].Node() == n
    {
      BucketAfterTake(v, oid, n);
      assert HasEntry(v, n, o);
    }
  }

  lemma TakeSources(v: Registry, oid: OID)
    requires NoEmptyBucket(v) && SourcesExact(v) && oid in v.items
    ensures NoEmptyBucket(Take(v, oid).0) && SourcesExact(Take(v, oid).0)
  {
  }

  /** Storing an item keeps the partition exactly when it does not move its OID to another source. */
  lemma PutKeepsPartitionIff(v: Registry, item: ItemData)
    requires Agree(v) && Partition(v)
    ensures Partition(Put(v, item)) <==> (item.oid in v.items ==> v.items[item.oid].Node() == item.Node())
  {
    if item.oid in v.items && v.items[item.oid].Node() != item.Node() {
      MovingLeavesStaleEntry(v, item);
    } else {
      StayingKeepsPartition(v, item);
    }
  }

  lemma MovingLeavesStaleEntry(v: Registry, item: ItemData)
    requires Complete(v) && item.oid in v.items && v.items[item.oid].Node() != item.Node()
    ensures !Partition(Put(v, item))
  {
    var w, n := Put(v, item), v.items[item.oid].Node();
    BucketAfterPut(v, item, n);
    assert HasEntry(w, n, item.oid) && w.Bucket(n)[item.oid] == v.items[item.oid];
  }

  lemma StayingKeepsPartition(v: Registry, item: ItemData)
    requires Homed(v) && Partition(v) && (item.oid in v.items ==> v.items[item.oid].Node() == item.Node())
    ensures Partition(Put(v, item))
  {
    var w := Put(v, item);
    forall n, o | HasEntry(w, n, o)
      ensures Lookup(w.items, o) == Some(w.Bucket(n)[o])
    {
      BucketAfterPut(v, item, n);
      if o != item.oid || n != item.Node() {
        assert HasEntry(v, n, o);
      }
    }
  }

  lemma TakeKeepsPartition(v: Registry, oid: OID)
    requires Homed(v) && Partition(v)
    ensures Partition(Take(v, oid).0)
  {
    if oid in v.items {
      var w := Take(v, oid).0;
      TakeOne(v, oid);
      forall n, o | HasEntry(w, n, o)
        ensures Lookup(w.items, o) == Some(w.Bucket(n)[o])
      {
        BucketAfterTake(v, oid, n);
        assert HasEntry(v, n, o);
        LookupDrop(v.items, oid, o);
        NotTaken(v, oid, n, o);
      }
    }
  }

  lemma NotTaken(v: Registry, oid: OID, n: Option<string>, o: OID)
    requires Homed(v) && Partition(v) && oid in v.items && HasEntry(v, n, o)
    requires HasEntry(Take(v, oid).0, n, o)
    ensures o != oid
  {
    BucketAfterTake(v, oid, n);
  }

  // ----- taking several OIDs out -----

  /** The item of the OID is stored, and for this node. */
  predicate At(v: Registry, n: Option<string>, o: OID) {
    o in v.items && v.items[o].Node() == n
  }

  /** The bucket of the node has no entry of an item that has gone to another node, or away, since. */
  ghost predicate Tidy(v: Registry, n: Option<string>) {
    forall o :: HasEntry(v, n, o) ==> At(v, n, o)
  }

  /**
   What is left when the OIDs in `gone` have been taken out, in whatever order: an OID leaves the bucket of
   the node it is stored for and no other.
   */
  ghost predicate TakenOut(v: Registry, w: Registry, gone: set<OID>) {
    && w.items == v.items - gone
    && forall n, o :: w.Entry(n, o) == if o in gone && At(v, n, o) then None else v.Entry(n, o)
  }

  lemma TakeMore(v: Registry, c: Registry, gone: set<OID>, oid: OID)
    requires TakenOut(v, c, gone)
    ensures TakenOut(v, Take(c, oid).0, gone + {oid})
  {
    var w := Take(c, oid).0;
    TakeOne(c, oid);
    assert w.items == v.items - (gone + {oid});
    forall n, o
      ensures w.Entry(n, o) == if o in gone + {oid} && At(v, n, o) then None else v.Entry(n, o)
    {
      EntryAfterTake(c, oid, n, o);
    }
  }

  lemma EntryAfterTake(v: Registry, oid: OID, n: Option<string>, o: OID)
    ensures Take(v, oid).0.Entry(n, o) == if o == oid && At(v, n, o) then None else v.Entry(n, o)
  {
    if oid in v.items {
      BucketAfterTake(v, oid, n);
      LookupDrop(v.Bucket(n), oid, o);
    }
  }

  lemma TakenOutKeepsPartition(v: Registry, w: Registry, gone: set<OID>)
    requires Homed(v) && Partition(v) && TakenOut(v, w, gone)
    ensures Partition(w)
  {
    forall n, o | HasEntry(w, n, o)
      ensures Lookup(w.items, o) == Some(w.Bucket(n)[o])
    {
      assert w.Entry(n, o) == Some(w.Bucket(n)[o]) == v.Entry(n, o);
      assert HasEntry(v, n, o);
    }
  }

  /** Taking an OID out leaves a bucket as tidy as it was. */
  lemma TidyAfterTake(v: Registry, oid: OID, n: Option<string>)
    ensures Tidy(Take(v, oid).0, n) <==> Tidy(v, n)
  {
    var w := Take(v, oid).0;
    TakeOne(v, oid);
    forall o
      ensures HasEntry(w, n, o) && !At(w, n, o) <==> HasEntry(v, n, o) && !At(v, n, o)
    {
      EntryAfterTake(v, oid, n, o);
      assert HasEntry(w, n, o) <==> w.Entry(n, o).Some?;
      assert HasEntry(v, n, o) <==> v.Entry(n, o).Some?;
    }
  }

  /** Storing an item of another node leaves a bucket tidy if and only if it has no entry under the OID. */
  lemma TidyAfterPut(v: Registry, item: ItemData, n: Option<string>)
    requires item.Node() != n
    ensures Tidy(Put(v, item), n) <==> Tidy(v, n) && !HasEntry(v, n, item.oid)
  {
    var w := Put(v, item);
    BucketAfterPut(v, item, n);
    forall o
      ensures HasEntry(w, n, o) <==> HasEntry(v, n, o)
      ensures At(w, n, o) <==> At(v, n, o) && o != item.oid
    {
    }
    if Tidy(v, n) && HasEntry(v, n, item.oid) {
      assert HasEntry(w, n, item.oid) && !At(w, n, item.oid);
    }
    if !Tidy(v, n) {
      var o :| HasEntry(v, n, o) && !At(v, n, o);
      assert HasEntry(w, n, o) && !At(w, n, o);
    }
  }

  /**
   Taking out all OIDs of a bucket empties it, and with it unregisters the source, if and only if the
   bucket is tidy.
   */
  lemma EmptiedIffTidy(v: Registry, w: Registry, id: string)
    requires TakenOut(v, w, v.Bucket(Some(id)).Keys) && Agree(w)
    ensures w.Bucket(Some(id)) == map[] <==> Tidy(v, Some(id))
    ensures id !in w.sources <==> Tidy(v, Some(id))
  {
    var n := Some(id);
    if Tidy(v, n) {
      forall o
        ensures o !in w.Bucket(n)
      {
        assert w.Entry(n, o) == if HasEntry(v, n, o) && At(v, n, o) then None else v.Entry(n, o);
      }
    } else {
      var o :| HasEntry(v, n, o) && !At(v, n, o);
      assert w.Entry(n, o) == v.Entry(n, o);
    }
  }

  /**
   How a bucket becomes untidy, and that it stays so: an OID stored for one node is brought by
   another, and removed. The entry of the first node is still there and keeps that node
   registered, the other node has lost its item, and removing the OID again does nothing.
   */
  lemma StaleEntryOutlivesRemoval(v: Registry, from: string, item: ItemData)
    requires Agree(v) && At(v, Some(from), item.oid) && item.Node() != Some(from)
    ensures var w := Put(v, item);
      var x := Take(w, item.oid).0;
      && !Tidy(w, Some(from)) && HasEntry(x, Some(from), item.oid) && from in x.sources
      && !HasEntry(x, item.Node(), item.oid)
      && Take(x, item.oid) == (x, None)
  {
    var w := Put(v, item);
    var x := Take(w, item.oid).0;
    PutAgrees(v, item);
    TakeAgrees(w, item.oid);
    BucketAfterPut(v, item, Some(from));
    BucketAfterTake(w, item.oid, Some(from));
    BucketAfterTake(w, item.oid, item.Node());
    assert HasEntry(w, Some(from), item.oid) && !At(w, Some(from), item.oid);
  }

  /** The registered source, or a new one that nothing refers to yet. */
  method GetOrCreateSource(sources: map<string, ItemSource>, sourceId: string, svc: string) returns (source: ItemSource)
    ensures if sourceId in sources then source == sources[sourceId]
            else fresh(source) && source.node == sourceId && source.svc == svc && !source.destroyed
  {
    if sourceId in sources {
      source := sources[sourceId];
    } else {
      source := new ItemSource(sourceId, svc);
    }
  }

  // ----- every run -----

  datatype Op = AppendOp(item: ItemData, replace: bool) | RemoveOp(oid: OID)

  function Do(v: Registry, op: Op): Registry {
    match op
    case AppendOp(item, replace) => if replace || item.oid !in v.items then Put(v, item) else v
    case RemoveOp(oid) => Take(v, oid).0
  }

  function Run(v: Registry, ops: seq<Op>): Registry
    decreases |ops|
  {
    if ops == [] then v else Run(Do(v, ops[0]), ops[1..])
  }

  /** No replacing append of the run gives a stored OID another source. */
  ghost predicate KeepsSources(v: Registry, ops: seq<Op>)
    decreases |ops|
  {
    ops != [] ==>
      && (ops[0].AppendOp? && ops[0].replace && ops[0].item.oid in v.items ==>
            v.items[ops[0].item.oid].Node() == ops[0].item.Node())
      && KeepsSources(Do(v, ops[0]), ops[1..])
  }

  lemma {:induction false} RunAgrees(v: Registry, ops: seq<Op>)
    requires Agree(v)
    ensures Agree(Run(v, ops))
    decreases |ops|
  {
    if ops != [] {
      match ops[0] {
        case AppendOp(item, _) => PutAgrees(v, item);
        case RemoveOp(oid) => TakeAgrees(v, oid);
      }
      RunAgrees(Do(v, ops[0]), ops[1..]);
    }
  }

  lemma {:induction false} RunPartitions(v: Registry, ops: seq<Op>)
    requires Agree(v) && Partition(v) && KeepsSources(v, ops)
    ensures Partition(Run(v, ops))
    decreases |ops|
  {
    if ops != [] {
      match ops[0] {
        case AppendOp(item, _) => PutAgrees(v, item); PutKeepsPartitionIff(v, item);
        case RemoveOp(oid) => TakeAgrees(v, oid); TakeKeepsPartition(v, oid);
      }
      RunPartitions(Do(v, ops[0]), ops[1..]);
    }
  }

  // ----- counting -----

  /** The entries of the buckets named. */
  ghost function EntriesOf(bySource: Buckets, names: set<Option<string>>): set<(Option<string>, OID)> {
    set n, o | n in names && n in bySource && o in bySource[n] :: (n, o)
  }

  ghost function Entries(bySource: Buckets): set<(Option<string>, OID)> {
    EntriesOf(bySource, bySource.Keys)
  }

  ghost function Tagged<N, K>(n: N, keys: set<K>): set<(N, K)> {
    set k | k in keys :: (n, k)
  }

  lemma {:induction false} TaggedSize<N, K>(n: N, keys: set<K>)
    ensures |Tagged(n, keys)| == |keys|
    decreases keys
  {
    if keys != {} {
      var k :| k in keys;
      TaggedSize(n, keys - {k});
      assert Tagged(n, keys) == Tagged(n, keys - {k}) + {(n, k)};
      assert (n, k) !in Tagged(n, keys - {k});
    } else {
      assert Tagged(n, keys) == {};
    }
  }

  /** The entries the stored items account for. */
  ghost function Stored(items: map<OID, ItemData>): set<(Option<string>, OID)> {
    set o | o in items :: (items[o].Node(), o)
  }

  lemma {:induction false} StoredSize(items: map<OID, ItemData>)
    ensures |Stored(items)| == |items|
    decreases items.Keys
  {
    if items != map[] {
      var o :| o in items;
      var rest := Drop(items, o);
      StoredSize(rest);
      assert Stored(items) == Stored(rest) + {(items[o].Node(), o)};
      assert (items[o].Node(), o) !in Stored(rest);
      assert rest.Keys == items.Keys - {o};
    } else {
      assert Stored(items) == {};
    }
  }

  lemma EntriesAre(v: Registry, n: Option<string>, o: OID)
    ensures (n, o) in Entries(v.bySource) <==> HasEntry(v, n, o)
    ensures (n, o) in Stored(v.items) <==> o in v.items && v.items[o].Node() == n
  {
  }

  lemma StoredIsEntered(v: Registry)
    requires Complete(v)
    ensures Stored(v.items) <= Entries(v.bySource)
  {
    forall e | e in Stored(v.items)
      ensures e in Entries(v.bySource)
    {
      EntriesAre(v, e.0, e.1);
    }
  }

  lemma PartitionIffAllStored(v: Registry)
    requires Homed(v) && Complete(v)
    ensures Partition(v) <==> Entries(v.bySource) <= Stored(v.items)
  {
    if Partition(v) {
      forall e | e in Entries(v.bySource)
        ensures e in Stored(v.items)
      {
        EntriesAre(v, e.0, e.1);
      }
    }
    if Entries(v.bySource) <= Stored(v.items) {
      forall n, o | HasEntry(v, n, o)
        ensures Lookup(v.items, o) == Some(v.Bucket(n)[o])
      {
        EntriesAre(v, n, o);
      }
    }
  }

  /**
   Counting the buckets counts every item at least once, and once each exactly when the buckets partition
   the inventory.
   */
  lemma CountsOnceIffPartition(v: Registry)
    requires Agree(v)
    ensures |Entries(v.bySource)| >= |v.items|
    ensures |Entries(v.bySource)| == |v.items| <==> Partition(v)
  {
    StoredSize(v.items);
    StoredIsEntered(v);
    PartitionIffAllStored(v);
    SubsetSizes(Stored(v.items), Entries(v.bySource));
  }

  lemma SubsetSizes<T>(a: set<T>, b: set<T>)
    requires a <= b
    ensures |a| <= |b| && (|a| == |b| <==> b <= a)
  {
    assert b == a + (b - a);
    assert |b - a| == 0 ==> b - a == {};
  }
}
