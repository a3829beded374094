/** Full synchronization of the items of one source with the inventory it sent. */
module SourceSync {
  import opened Common
  import opened Oids
  import opened States
  import opened Items
  import opened Registries

  /** One item of the inventory of another node. */
  datatype ReplItem = ReplItem(
    oid: OID,
    status: Option<int>,
    value: Option<Value>,
    act: Option<nat>,
    ieid: Option<IEID>,
    t: Option<real>,
    meta: Option<Value>,
    enabled: bool)

  type Payload = map<OID, ReplItem>

  /** The state part fits the kind of the item. */
  predicate CheckState(r: ReplItem) {
    match r.oid.kind
    case Lvar => r.act.None? && r.ieid.Some? && r.t.Some?
    case Sensor => r.act.None? && r.ieid.Some? && r.t.Some?
    case Lmacro => r.status.None? && r.value.None? && r.act.None? && r.ieid.None? && r.t.None?
    case Unit => r.ieid.Some? && r.t.Some?
  }

  /** An item can be made of it: anything but a macro needs an event id and a time. */
  predicate Creatable(r: ReplItem) {
    r.oid.kind == Lmacro || (r.ieid.Some? && r.t.Some?)
  }

  function InitialState(r: ReplItem): State
    requires r.ieid.Some? && r.t.Some?
  {
    State(if r.status.Some? then r.status.value else 0,
          if r.value.Some? then r.value.value else Nothing,
          r.act, r.ieid.value, r.t.value)
  }

  /** The conversion of an inventory item into a state; it may fail. */
  type Convert = ReplItem -> Option<ReplState>

  /** What the payload makes of the state of an item it does not otherwise change: only a newer state is taken over. */
  function Updated(s: State, r: ReplItem, convert: Convert): State {
    if CheckState(r) && r.oid.kind != Lmacro && convert(r).Some? && s.ieid.Less(convert(r).value.ieid)
    then SetFromRs(s, convert(r).value)
    else s
  }

  /** What can be seen of an item at a time. */
  datatype Seen = Seen(meta: Option<Value>, enabled: bool, state: Option<State>)

  ghost function See(item: ItemData): Seen
    reads item, StateCell(item)
  {
    Seen(item.meta, item.enabled, if item.state.Some? then Some(item.state.value.View()) else None)
  }

  ghost function SeeAll(items: map<OID, ItemData>): (r: map<OID, Seen>)
    reads items.Values, StateCells(items)
  {
    map o | o in items :: See(items[o])
  }

  /** What a new item made of the payload item looks like. */
  function AsSent(r: ReplItem): Seen
    requires Creatable(r)
  {
    Seen(r.meta, r.enabled, if r.oid.kind == Lmacro then None else Some(InitialState(r)))
  }

  /** What the payload item makes of an item with the same meta data. */
  function Refreshed(seen: Seen, r: ReplItem, convert: Convert): Seen {
    seen.(enabled := r.enabled, state := if seen.state.Some? then Some(Updated(seen.state.value, r, convert)) else None)
  }

  /** A new item: what was sent, with status 0 and no value where none was. */
  ghost predicate ShowsSent(item: ItemData, r: ReplItem)
    reads item, StateCell(item)
  {
    && item.meta == r.meta && item.enabled == r.enabled
    && (item.state.Some? <==> r.oid.kind != Lmacro)
    && (item.state.Some? ==>
          var s := item.state.value;
          && s.status == (if r.status.Some? then r.status.value else 0)
          && s.value == (if r.value.Some? then r.value.value else Nothing)
          && s.act == r.act && Some(s.ieid) == r.ieid && Some(s.t) == r.t)
  }

  /**
   A kept item that looked like `was`: the flag is the one sent, and the state is the one sent, with its own counter
   if none was, if the payload item fits its kind and converts to a state with a greater event id; otherwise the
   state is the old one.
   */
  ghost predicate TakesOver(item: ItemData, was: Seen, r: ReplItem, convert: Convert)
    reads item, StateCell(item)
  {
    && item.enabled == r.enabled
    && (item.state.Some? ==>
          && was.state.Some?
          && var s, t, rs := item.state.value, was.state.value, convert(r);
          if r.oid.kind != Lmacro && r.ieid.Some? && r.t.Some? && (r.oid.kind == Unit || r.act.None?) && rs.Some? &&
             t.ieid.Less(rs.value.ieid)
          then s.status == rs.value.status && s.value == rs.value.value && s.ieid == rs.value.ieid &&
               s.t == rs.value.t && s.act == if rs.value.act.Some? then rs.value.act else t.act
          else s.status == t.status && s.value == t.value && s.act == t.act && s.ieid == t.ieid && s.t == t.t)
  }

  /** What is seen of an item is what its fields hold. */
  lemma SeenMeans(items: map<OID, ItemData>, o: OID)
    requires o in items
    ensures var item := items[o];
      && o in SeeAll(items) && SeeAll(items)[o].meta == item.meta && SeeAll(items)[o].enabled == item.enabled
      && SeeAll(items)[o].state.Some? == item.state.Some?
      && (item.state.Some? ==>
            var s, t := item.state.value, SeeAll(items)[o].state.value;
            s.status == t.status && s.value == t.value && s.act == t.act && s.ieid == t.ieid && s.t == t.t)
  {
  }

  ghost predicate Made(item: ItemData, r: ReplItem, source: ItemSource)
    reads item, StateCell(item)
  {
    item.oid == r.oid && item.source == Some(source) && Creatable(r) && See(item) == AsSent(r)
  }

  /** An item object for the source, unless the payload lacks what it takes to make one. */
  method MakeItem(r: ReplItem, source: ItemSource) returns (item: Option<ItemData>)
    ensures item.Some? <==> Creatable(r)
    ensures item.Some? <==> r.oid.kind == Lmacro || (r.ieid.Some? && r.t.Some?)
    ensures item.Some? ==> Made(item.value, r, source) && fresh(item.value) && fresh(StateCell(item.value))
    ensures item.Some? ==> ShowsSent(item.value, r)
  {
    var state: Option<ItemState> := None;
    if r.oid.kind != Lmacro {
      if r.ieid.None? || r.t.None? {
        return None;
      }
      var cell := new ItemState(InitialState(r));
      state := Some(cell);
    }
    var made := new ItemData(r.oid, Some(source), r.meta, state, r.enabled);
    item := Some(made);
  }

  /** The item is left as it is and at most its state and its enabled flag are updated. */
  predicate Keeps(existing: map<OID, ItemData>, r: ReplItem) {
    r.oid in existing && existing[r.oid].meta == r.meta
  }

  /** A new item object takes the place of the OID. */
  predicate Creates(existing: map<OID, ItemData>, known: bool, r: ReplItem) {
    !Keeps(existing, r) && Creatable(r) && (known || CheckState(r))
  }

  /** The OIDs of the payload that get a new item object. */
  function Created(v: Registry, n: Option<string>, payload: Payload): set<OID> {
    set o | o in payload && Creates(v.Bucket(n), n in v.bySource, payload[o])
  }

  /** The OIDs of the bucket that the payload lacks. */
  function Missing(v: Registry, n: Option<string>, payload: Payload): set<OID> {
    v.Bucket(n).Keys - payload.Keys
  }

  /** When a payload item changes an item in place, when it gives a new one, and when it is left out. */
  lemma ChecksMean(v: Registry, n: Option<string>, payload: Payload, o: OID)
    requires o in payload
    ensures var r, bucket, known := payload[o], v.Bucket(n), n in v.bySource;
      var dated := r.ieid.Some? && r.t.Some?;
      && (CheckState(r) <==>
            if r.oid.kind == Lmacro
            then r.status.None? && r.value.None? && r.act.None? && r.ieid.None? && r.t.None?
            else dated && (r.oid.kind == Unit || r.act.None?))
      && (Keeps(bucket, r) <==> r.oid in bucket && bucket[r.oid].meta == r.meta)
      && (o in Created(v, n, payload) <==>
            && (r.oid in bucket ==> bucket[r.oid].meta != r.meta)
            && (r.oid.kind == Lmacro || dated)
            && (known || CheckState(r)))
      && (o in Missing(v, n, payload) <==> o in bucket && o !in payload)
  {
  }

  ghost predicate Sound(v: Registry) {
    Agree(v) && Partition(v)
  }

  // ----- removing what the source no longer has -----

  /** Every entry that the payload lacks is of an item stored for the node. */
  ghost predicate Clean(v: Registry, n: Option<string>, payload: Payload) {
    forall o :: HasEntry(v, n, o) && o !in payload ==> At(v, n, o)
  }

  /** The bucket has lost exactly what the payload lacks, and no other bucket has lost anything. */
  ghost predicate Trimmed(v: Registry, w: Registry, n: Option<string>, payload: Payload) {
    forall m, o :: w.Entry(m, o) == if m == n && o !in payload then None else v.Entry(m, o)
  }

  lemma TrimmedIffClean(v: Registry, w: Registry, n: Option<string>, payload: Payload)
    requires TakenOut(v, w, Missing(v, n, payload))
    ensures Trimmed(v, w, n, payload) <==> Clean(v, n, payload)
  {
    if Clean(v, n, payload) {
      forall m, o
        ensures w.Entry(m, o) == if m == n && o !in payload then None else v.Entry(m, o)
      {
        assert o in Missing(v, n, payload) <==> HasEntry(v, n, o) && o !in payload;
      }
    } else {
      var o :| HasEntry(v, n, o) && o !in payload && !At(v, n, o);
      assert w.Entry(n, o) == v.Entry(n, o);
    }
  }

  lemma NothingMissing(v: Registry, n: Option<string>, payload: Payload)
    requires n !in v.bySource
    ensures TakenOut(v, v, Missing(v, n, payload))
  {
    assert Missing(v, n, payload) == {};
  }

  // ----- storing what the source has new -----

  /** What the registry has become with the new items stored for the node, in whatever order. */
  ghost predicate StoredIn(c: Registry, w: Registry, n: Option<string>, made: map<OID, ItemData>) {
    && w.items == c.items + made
    && forall m :: w.Bucket(m) == if m == n then c.Bucket(m) + made else c.Bucket(m)
  }

  lemma StoreMore(c: Registry, w: Registry, n: Option<string>, made: map<OID, ItemData>, item: ItemData)
    requires StoredIn(c, w, n, made) && item.Node() == n
    ensures StoredIn(c, Put(w, item), n, made[item.oid := item])
  {
    PutInUnion(c.items, made, item.oid, item);
    PutInUnion(c.Bucket(n), made, item.oid, item);
    forall m
      ensures Put(w, item).Bucket(m) == if m == n then c.Bucket(m) + made[item.oid := item] else c.Bucket(m)
    {
      BucketAfterPut(w, item, m);
    }
  }

  /** Where the loop over the payload stands. */
  ghost predicate Stage(v: Registry, w: Registry, n: Option<string>, existing: map<OID, ItemData>, known: bool,
                        payload: Payload, done: set<OID>, made: map<OID, ItemData>) {
    && Agree(w) && StoredIn(v, w, n, made)
    && made.Keys == set o | o in done && o in payload && Creates(existing, known, payload[o])
  }

  lemma StageNext(v: Registry, w: Registry, n: Option<string>, existing: map<OID, ItemData>, known: bool,
                  payload: Payload, done: set<OID>, made: map<OID, ItemData>,
                  oid: OID, item: Option<ItemData>)
    requires Stage(v, w, n, existing, known, payload, done, made) && oid in payload
    requires item.Some? <==> Creates(existing, known, payload[oid])
    requires item.Some? ==> item.value.oid == oid && item.value.Node() == n
    ensures if item.Some?
      then Stage(v, Put(w, item.value), n, existing, known, payload, done + {oid}, made[oid := item.value])
      else Stage(v, w, n, existing, known, payload, done + {oid}, made)
  {
    if item.Some? {
      PutAgrees(w, item.value);
      StoreMore(v, w, n, made, item.value);
    }
  }

  // ----- the whole payload -----

  /**
   After a whole payload the OIDs of the source are those it had or could be given, an item
   with unchanged meta data is the same object, and the buckets of the other nodes are as before.
   */
  ghost predicate Synced(v: Registry, w: Registry, n: Option<string>, payload: Payload) {
    && (forall o :: HasEntry(w, n, o) <==> o in payload && (HasEntry(v, n, o) || o in Created(v, n, payload)))
    && (forall o :: o in payload && Keeps(v.Bucket(n), payload[o]) ==> w.Entry(n, o) == v.Entry(n, o))
    && (forall m :: m != n ==> w.Bucket(m) == v.Bucket(m))
  }

  /** Where a whole payload leads: through a registry without the missing OIDs to one with the new items. */
  ghost predicate Worked(v: Registry, c: Registry, w: Registry, n: Option<string>, payload: Payload,
                         made: map<OID, ItemData>) {
    && (forall o :: o in payload ==> payload[o].oid == o)
    && TakenOut(v, c, Missing(v, n, payload))
    && Stage(c, w, n, v.Bucket(n), n in v.bySource, payload, payload.Keys, made)
  }

  /**
   The synchronization is right if and only if every entry that the payload lacks is of an item stored for
   the source.
   */
  lemma SyncedIffClean(v: Registry, c: Registry, w: Registry, n: Option<string>, payload: Payload,
                       made: map<OID, ItemData>)
    requires Worked(v, c, w, n, payload, made)
    ensures Synced(v, w, n, payload) <==> Clean(v, n, payload)
  {
    TrimmedIffClean(v, c, n, payload);
    if Clean(v, n, payload) {
      CleanIsSynced(v, c, w, n, payload, made);
    } else {
      var o :| HasEntry(v, n, o) && o !in payload && !At(v, n, o);
      assert c.Entry(n, o) == v.Entry(n, o);
      assert HasEntry(w, n, o);
    }
  }

  lemma CleanIsSynced(v: Registry, c: Registry, w: Registry, n: Option<string>, payload: Payload,
                      made: map<OID, ItemData>)
    requires Worked(v, c, w, n, payload, made) && Trimmed(v, c, n, payload)
    ensures Synced(v, w, n, payload)
  {
    forall o
      ensures w.Entry(n, o) == if o in made then Some(made[o]) else if o in payload then v.Entry(n, o) else None
    {
      assert c.Entry(n, o) == if o !in payload then None else v.Entry(n, o);
    }
    SyncedEntries(v, w, n, payload, made);
    forall m | m != n
      ensures w.Bucket(m) == v.Bucket(m)
    {
      SameEntriesSameBucket(v, c, m);
    }
  }

  lemma SyncedEntries(v: Registry, w: Registry, n: Option<string>, payload: Payload, made: map<OID, ItemData>)
    requires made.Keys == Created(v, n, payload) && forall o :: o in payload ==> payload[o].oid == o
    requires forall o ::
      w.Entry(n, o) == if o in made then Some(made[o]) else if o in payload then v.Entry(n, o) else None
    ensures forall o :: HasEntry(w, n, o) <==> o in payload && (HasEntry(v, n, o) || o in Created(v, n, payload))
    ensures forall o :: o in payload && Keeps(v.Bucket(n), payload[o]) ==> w.Entry(n, o) == v.Entry(n, o)
  {
    forall o
      ensures HasEntry(w, n, o) <==> o in payload && (HasEntry(v, n, o) || o in Created(v, n, payload))
    {
      assert HasEntry(w, n, o) <==> w.Entry(n, o).Some?;
    }
  }

  lemma SameEntriesSameBucket(v: Registry, w: Registry, n: Option<string>)
    requires forall o :: w.Entry(n, o) == v.Entry(n, o)
    ensures w.Bucket(n) == v.Bucket(n)
  {
    forall o
      ensures o in w.Bucket(n) <==> o in v.Bucket(n)
      ensures o in w.Bucket(n) ==> w.Bucket(n)[o] == v.Bucket(n)[o]
    {
      assert w.Entry(n, o) == v.Entry(n, o);
    }
  }

  /** Nothing stored for another node is under an OID that is missing from the payload or gets a new item object. */
  ghost predicate Disjoint(v: Registry, n: Option<string>, payload: Payload) {
    forall o :: o in v.items && !At(v, n, o) ==> o !in Missing(v, n, payload) && o !in Created(v, n, payload)
  }

  /** Everything stored for another node is still there, the same object. */
  ghost predicate OthersKept(v: Registry, w: Registry, n: Option<string>) {
    forall o :: o in v.items && !At(v, n, o) ==> Lookup(w.items, o) == Some(v.items[o])
  }

  /** The items of the other nodes stay if and only if the payload, and what it lacks, leave their OIDs alone. */
  lemma OthersKeptIffDisjoint(v: Registry, c: Registry, w: Registry, n: Option<string>, payload: Payload,
                              made: map<OID, ItemData>)
    requires Worked(v, c, w, n, payload, made) && forall o :: o in made ==> made[o].Node() == n
    ensures OthersKept(v, w, n) <==> Disjoint(v, n, payload)
  {
    KeptUnlessTouched(v, w.items, n, Missing(v, n, payload), made);
  }

  lemma KeptUnlessTouched(v: Registry, items: map<OID, ItemData>, n: Option<string>, gone: set<OID>,
                          made: map<OID, ItemData>)
    requires items == v.items - gone + made && forall o :: o in made ==> made[o].Node() == n
    ensures forall o :: o in v.items && !At(v, n, o) ==>
      (Lookup(items, o) == Some(v.items[o]) <==> o !in gone && o !in made)
  {
  }

  /** A partition stays one under the same condition. */
  lemma PartitionIffDisjoint(v: Registry, c: Registry, w: Registry, n: Option<string>, payload: Payload,
                             made: map<OID, ItemData>)
    requires Sound(v) && Agree(c) && Worked(v, c, w, n, payload, made)
    requires forall o :: o in made ==> made[o].Node() == n
    ensures Partition(w) <==> Disjoint(v, n, payload)
  {
    if Disjoint(v, n, payload) {
      TakenOutKeepsPartition(v, c, Missing(v, n, payload));
      StoredKeepsPartition(c, w, n, made);
    } else {
      var o :| o in v.items && !At(v, n, o) && (o in Missing(v, n, payload) || o in Created(v, n, payload));
      assert !HasEntry(v, n, o);
      assert c.Entry(v.items[o].Node(), o) == v.Entry(v.items[o].Node(), o) by {
        assert o !in Missing(v, n, payload);
      }
      TakenFromOther(v, c, w, n, made, o);
    }
  }

  lemma StoredKeepsPartition(c: Registry, w: Registry, n: Option<string>, made: map<OID, ItemData>)
    requires Homed(c) && Partition(c) && StoredIn(c, w, n, made)
    requires forall o :: o in made && o in c.items ==> At(c, n, o)
    ensures Partition(w)
  {
    forall m, o | HasEntry(w, m, o)
      ensures Lookup(w.items, o) == Some(w.Bucket(m)[o])
    {
      if m != n || o !in made {
        assert HasEntry(c, m, o);
        assert o !in made;
      }
    }
  }

  lemma TakenFromOther(v: Registry, c: Registry, w: Registry, n: Option<string>, made: map<OID, ItemData>, o: OID)
    requires Complete(v) && StoredIn(c, w, n, made) && o in made && made[o].Node() == n
    requires o in v.items && !At(v, n, o) && c.Entry(v.items[o].Node(), o) == v.Entry(v.items[o].Node(), o)
    ensures !Partition(w)
  {
    assert w.items[o] == made[o] != v.items[o];
    assert HasEntry(w, v.items[o].Node(), o) && w.Bucket(v.items[o].Node())[o] == v.items[o];
  }

  // ----- states and flags of the items -----

  ghost function StateCell(item: ItemData): set<ItemState> {
    if item.state.Some? then {item.state.value} else {}
  }

  ghost function StateCells(items: map<OID, ItemData>): set<ItemState> {
    set o | o in items && items[o].state.Some? :: items[o].state.value
  }

  /** Every item has a state object of its own. */
  ghost predicate OwnStates(items: map<OID, ItemData>) {
    forall a, b :: a in items && b in items && a != b && items[a].state.Some? && items[b].state.Some? ==>
      items[a].state.value != items[b].state.value
  }

  /** The items of a bucket are distinct objects with distinct state objects. */
  ghost predicate Separate(items: map<OID, ItemData>) {
    OwnStates(items) && forall o :: o in items ==> items[o].oid == o
  }

  /** What the items the source had look like, from `before` on, once the OIDs in `done` have been dealt with. */
  ghost predicate KeptTaken(before: map<OID, Seen>, now: map<OID, Seen>, existing: map<OID, ItemData>,
                            payload: Payload, done: set<OID>, convert: Convert) {
    forall o :: o in existing ==>
      && o in before && o in now
      && now[o] == if o in done && o in payload && Keeps(existing, payload[o])
                   then Refreshed(before[o], payload[o], convert) else before[o]
  }

  /** No payload takes the state of an item back to an earlier event id, or changes it under the same one. */
  lemma StatesNeverOlder(before: map<OID, Seen>, now: map<OID, Seen>, existing: map<OID, ItemData>, payload: Payload,
                         done: set<OID>, convert: Convert, o: OID)
    requires KeptTaken(before, now, existing, payload, done, convert) && o in existing && before[o].state.Some?
    ensures now[o].state.Some?
    ensures now[o].state == before[o].state || before[o].state.value.ieid.Less(now[o].state.value.ieid)
  {
  }

  /** What is done and what is still to do make up the whole. */
  ghost predicate Divides(todo: set<OID>, done: set<OID>, all: set<OID>) {
    todo !! done && todo + done == all
  }

  lemma MoveOne(todo: set<OID>, done: set<OID>, all: set<OID>, oid: OID)
    requires Divides(todo, done, all) && oid in todo
    ensures Divides(todo - {oid}, done + {oid}, all)
  {
  }

  /** The new objects are no old ones. */
  ghost predicate Apart(made: map<OID, ItemData>, existing: map<OID, ItemData>) {
    made.Values !! existing.Values && StateCells(made) !! StateCells(existing)
  }

  /** The new objects, seen as `now`, are as the payload says and belong to the source. */
  ghost predicate AllMade(made: map<OID, ItemData>, now: map<OID, Seen>, payload: Payload, source: ItemSource) {
    forall o :: o in made ==>
      && o in payload && Creatable(payload[o]) && made[o].oid == o && made[o].source == Some(source)
      && o in now && now[o] == AsSent(payload[o])
  }

  /** The same seen from the bucket. */
  ghost predicate AllAsSent(now: map<OID, Seen>, created: set<OID>, payload: Payload) {
    forall o :: o in created ==> o in now && o in payload && Creatable(payload[o]) && now[o] == AsSent(payload[o])
  }

  lemma ApartNext(made: map<OID, ItemData>, existing: map<OID, ItemData>, oid: OID, item: ItemData)
    requires Apart(made, existing) && item !in existing.Values && StateCell(item) !! StateCells(existing)
    ensures Apart(made[oid := item], existing)
  {
    assert made[oid := item].Values <= made.Values + {item};
    assert StateCells(made[oid := item]) <= StateCells(made) + StateCell(item);
  }

  lemma AllMadeNext(made: map<OID, ItemData>, now: map<OID, Seen>, payload: Payload, source: ItemSource, oid: OID,
                    item: ItemData, seen: Seen)
    requires AllMade(made, now, payload, source)
    requires oid in payload && Creatable(payload[oid]) && item.oid == oid && item.source == Some(source) &&
      seen == AsSent(payload[oid])
    ensures AllMade(made[oid := item], now[oid := seen], payload, source)
  {
  }

  lemma SeeNext(made: map<OID, ItemData>, oid: OID, item: ItemData)
    ensures SeeAll(made[oid := item]) == SeeAll(made)[oid := See(item)]
  {
  }

  lemma MadeIsAsSent(c: map<OID, ItemData>, made: map<OID, ItemData>, payload: Payload, source: ItemSource)
    requires AllMade(made, SeeAll(made), payload, source)
    ensures AllAsSent(SeeAll(c + made), made.Keys, payload)
    ensures forall o :: o in made ==> made[o].Node() == Some(source.node)
  {
    forall o | o in made
      ensures SeeAll(c + made)[o] == SeeAll(made)[o]
    {
    }
  }

  lemma KeptNext(before: map<OID, Seen>, now: map<OID, Seen>, existing: map<OID, ItemData>, payload: Payload,
                 done: set<OID>, oid: OID, convert: Convert)
    requires KeptTaken(before, now, existing, payload, done, convert)
    requires oid in payload && payload[oid].oid == oid && Keeps(existing, payload[oid]) && oid !in done
    ensures KeptTaken(before, now[oid := Refreshed(now[oid], payload[oid], convert)], existing, payload,
      done + {oid}, convert)
  {
  }

  lemma KeptSkips(before: map<OID, Seen>, now: map<OID, Seen>, existing: map<OID, ItemData>, payload: Payload,
                  done: set<OID>, oid: OID, convert: Convert)
    requires KeptTaken(before, now, existing, payload, done, convert) && oid in payload &&
      !Keeps(existing, payload[oid])
    ensures KeptTaken(before, now, existing, payload, done + {oid}, convert)
  {
  }

  /** The update of one kept item; it changes nothing of the others. */
  method UpdateKept(ex: ItemData, oid: OID, existing: map<OID, ItemData>, r: ReplItem, convert: Convert,
                    ghost others: map<OID, ItemData>)
    requires oid in existing && ex == existing[oid] && Separate(existing) && Apart(others, existing)
    modifies ex`enabled, StateCell(ex)
    ensures SeeAll(existing) == old(SeeAll(existing))[oid := Refreshed(old(See(ex)), r, convert)]
    ensures SeeAll(others) == old(SeeAll(others))
  {
    UpdateExisting(ex, r, convert);
    forall o | o in others
      ensures See(others[o]) == old(See(others[o]))
    {
      assert others[o] in others.Values && ex in existing.Values;
      assert StateCell(others[o]) <= StateCells(others) && StateCell(ex) <= StateCells(existing);
    }
    forall o | o in existing && o != oid
      ensures See(existing[o]) == old(See(existing[o]))
    {
      assert existing[o] != ex && StateCell(existing[o]) !! StateCell(ex);
    }
  }

  method UpdateExisting(ex: ItemData, r: ReplItem, convert: Convert)
    modifies ex`enabled, StateCell(ex)
    ensures See(ex) == Refreshed(old(See(ex)), r, convert)
    ensures TakesOver(ex, old(See(ex)), r, convert)
  {
    if ex.enabled != r.enabled {
      ex.enabled := r.enabled;
    }
    if CheckState(r) && r.oid.kind != Lmacro && ex.state.Some? && convert(r).Some? {
      if ex.state.value.ieid.Less(convert(r).value.ieid) {
        ex.state.value.SetRs(convert(r).value);
      }
    }
  }

  /** The source is registered and marked destroyed. */
  predicate Doomed(v: Registry, sourceId: string)
    reads v.sources.Values
  {
    sourceId in v.sources && v.sources[sourceId].destroyed
  }

  /**
   What a payload leads to: the registry with its exact conditions, the new items as sent, and
   the kept ones with the flag sent and with the state sent if that is newer.
   */
  ghost predicate Delivered(v: Registry, w: Registry, n: Option<string>, payload: Payload, convert: Convert,
                            before: map<OID, Seen>, kept: map<OID, Seen>, now: map<OID, Seen>) {
    && SyncExact(v, w, n, payload)
    && AllAsSent(now, Created(v, n, payload), payload)
    && KeptTaken(before, kept, v.Bucket(n), payload, payload.Keys, convert)
  }

  /** The items the source had: kept ones are updated in place, the others look as they did. */
  ghost predicate KeptInPlace(existing: map<OID, ItemData>, before: map<OID, Seen>, payload: Payload,
                              convert: Convert)
    reads existing.Values, StateCells(existing)
  {
    forall o :: o in existing ==>
      && o in before
      && if o in payload && existing[o].meta == payload[o].meta
         then TakesOver(existing[o], before[o], payload[o], convert)
         else See(existing[o]) == before[o]
  }

  /** The new items of the bucket: all payload items that no item with the same meta data was there for. */
  ghost predicate NewInPlace(v: Registry, w: Registry, n: Option<string>, payload: Payload)
    reads w.Bucket(n).Values, StateCells(w.Bucket(n))
  {
    forall o :: o in payload && (o in v.Bucket(n) ==> v.Bucket(n)[o].meta != payload[o].meta) ==>
      var r := payload[o];
      (r.oid.kind == Lmacro || (r.ieid.Some? && r.t.Some?)) && (n in v.bySource || CheckState(r)) ==>
        o in w.Bucket(n) && ShowsSent(w.Bucket(n)[o], r)
  }

  lemma KeptIsInPlace(existing: map<OID, ItemData>, before: map<OID, Seen>, payload: Payload, convert: Convert)
    requires forall o :: o in payload ==> payload[o].oid == o
    requires KeptTaken(before, SeeAll(existing), existing, payload, payload.Keys, convert)
    ensures KeptInPlace(existing, before, payload, convert)
  {
    forall o | o in existing
      ensures if o in payload && existing[o].meta == payload[o].meta
              then TakesOver(existing[o], before[o], payload[o], convert)
              else See(existing[o]) == before[o]
    {
      assert SeeAll(existing)[o] == See(existing[o]);
    }
  }

  lemma NewIsInPlace(v: Registry, w: Registry, n: Option<string>, payload: Payload)
    requires forall o :: o in payload ==> payload[o].oid == o
    requires AllAsSent(SeeAll(w.Bucket(n)), Created(v, n, payload), payload)
    ensures NewInPlace(v, w, n, payload)
  {
    forall o | o in Created(v, n, payload)
      ensures o in w.Bucket(n) && ShowsSent(w.Bucket(n)[o], payload[o])
    {
      assert SeeAll(w.Bucket(n))[o] == See(w.Bucket(n)[o]);
    }
  }

  datatype Outcome = Reserved | Busy | Done

  class Core {
    var inventory: Registry
    var invProcess: set<string>  // sources being processed

    /** Also leaves the items that are being watched as they are. */
    method LockSource(sourceId: string, ghost watched: map<OID, ItemData>) returns (ok: bool)
      modifies this`invProcess
      ensures SeeAll(watched) == old(SeeAll(watched))
      ensures ok == (sourceId !in old(invProcess))
      ensures invProcess == old(invProcess) + {sourceId}
    {
      if sourceId in invProcess {
        ok := false;
      } else {
        invProcess := invProcess + {sourceId};
        ok := true;
      }
    }

    method UnlockSource(sourceId: string, ghost watched: map<OID, ItemData>, ghost others: map<OID, ItemData>)
      modifies this`invProcess
      ensures SeeAll(watched) == old(SeeAll(watched)) && SeeAll(others) == old(SeeAll(others))
      ensures invProcess == old(invProcess) - {sourceId}
    {
      invProcess := invProcess - {sourceId};
    }

    method RemoveItem(oid: OID, ghost v: Registry, ghost gone: set<OID>)
      requires Agree(inventory) && TakenOut(v, inventory, gone)
      modifies this`inventory
      ensures Agree(inventory) && TakenOut(v, inventory, gone + {oid})
    {
      TakeAgrees(inventory, oid);
      TakeMore(v, inventory, gone, oid);
      inventory := Take(inventory, oid).0;
    }

    /**
     The items a destroy task removes under the lock. They are gone, and the source with them, exactly when
     its bucket was tidy.
     */
    method EmptySource(sourceId: string)
      requires Agree(inventory)
      modifies this`inventory
      ensures Agree(inventory) && TakenOut(old(inventory), inventory, old(inventory).Bucket(Some(sourceId)).Keys)
      ensures inventory.Bucket(Some(sourceId)) == map[] <==> Tidy(old(inventory), Some(sourceId))
      ensures sourceId !in inventory.sources <==> Tidy(old(inventory), Some(sourceId))
    {
      ghost var v := inventory;
      var todo := inventory.Bucket(Some(sourceId)).Keys;
      ghost var all, gone := todo, {};
      while todo != {}
        invariant todo !! gone && todo + gone == all
        invariant Agree(inventory) && TakenOut(v, inventory, gone)
      {
        var oid :| oid in todo;
        RemoveItem(oid, v, gone);
        todo, gone := todo - {oid}, gone + {oid};
      }
      assert gone == all;
      EmptiedIffTidy(v, inventory, sourceId);
    }

    method RemoveMissing(source: ItemSource, existing: map<OID, ItemData>, payload: Payload)
      requires Agree(inventory) && inventory.Bucket(Some(source.node)) == existing
      modifies this`inventory
      ensures Agree(inventory)
      ensures source.destroyed ==> inventory == old(inventory)
      ensures !source.destroyed ==>
        && TakenOut(old(inventory), inventory, Missing(old(inventory), Some(source.node), payload))
        && (Trimmed(old(inventory), inventory, Some(source.node), payload) <==>
              Clean(old(inventory), Some(source.node), payload))
    {
      ghost var v := inventory;
      var todo := existing.Keys;
      ghost var gone: set<OID> := {};
      while todo != {} && !source.destroyed
        invariant todo <= existing.Keys && gone == existing.Keys - payload.Keys - todo
        invariant Agree(inventory) && TakenOut(v, inventory, gone)
        invariant source.destroyed ==> inventory == v
      {
        var oid :| oid in todo;
        if oid !in payload {
          RemoveItem(oid, v, gone);
          gone := gone + {oid};
        }
        todo := todo - {oid};
      }
      if !source.destroyed {
        assert gone == Missing(v, Some(source.node), payload);
        TrimmedIffClean(v, inventory, Some(source.node), payload);
      }
    }

    /** Tells whether the source is known and, if so, removes what the payload does not have. */
    method Trim(source: ItemSource, existing: map<OID, ItemData>, payload: Payload) returns (known: bool)
      requires Agree(inventory) && existing == inventory.Bucket(Some(source.node))
      modifies this`inventory
      ensures Agree(inventory) && known == (Some(source.node) in old(inventory).bySource)
      ensures SeeAll(existing) == old(SeeAll(existing))
      ensures source.destroyed ==> inventory == old(inventory)
      ensures !source.destroyed ==>
        TakenOut(old(inventory), inventory, Missing(old(inventory), Some(source.node), payload))
    {
      known := Some(source.node) in inventory.bySource;
      if known {
        RemoveMissing(source, existing, payload);
      } else {
        NothingMissing(inventory, Some(source.node), payload);
      }
    }

    /** Stores a new item object made of the payload item, if it can be made. */
    method AppendRemoteItem(r: ReplItem, source: ItemSource, ghost watched: map<OID, ItemData>,
                            ghost others: map<OID, ItemData>)
      returns (item: Option<ItemData>)
      modifies this`inventory
      ensures item.Some? <==> Creatable(r)
      ensures inventory == if item.Some? then Put(old(inventory), item.value) else old(inventory)
      ensures item.Some? ==> Made(item.value, r, source) && fresh(item.value) && fresh(StateCell(item.value))
      ensures SeeAll(watched) == old(SeeAll(watched)) && SeeAll(others) == old(SeeAll(others))
    {
      item := MakeItem(r, source);
      if item.Some? {
        inventory := Put(inventory, item.value);
      }
    }

    /** One item of the payload: either a kept item is updated or a new one is stored, or nothing happens. */
    method ApplyRemote(oid: OID, source: ItemSource, existing: map<OID, ItemData>, known: bool, payload: Payload,
                       convert: Convert,
                       ghost before: map<OID, Seen>, ghost done: set<OID>, ghost others: map<OID, ItemData>)
      returns (item: Option<ItemData>)
      requires oid in payload && payload[oid].oid == oid && oid !in done && Apart(others, existing)
      requires Separate(existing) && KeptTaken(before, SeeAll(existing), existing, payload, done, convert)
      modifies this`inventory, existing.Values`enabled, StateCells(existing)
      ensures item.Some? <==> Creates(existing, known, payload[oid])
      ensures inventory == if item.Some? then Put(old(inventory), item.value) else old(inventory)
      ensures item.Some? ==> Made(item.value, payload[oid], source) && fresh(item.value) && fresh(StateCell(item.value))
      ensures KeptTaken(before, SeeAll(existing), existing, payload, done + {oid}, convert)
      ensures SeeAll(others) == old(SeeAll(others))
    {
      var r := payload[oid];
      item := None;
      if oid in existing && existing[oid].meta == r.meta {
        KeptNext(before, SeeAll(existing), existing, payload, done, oid, convert);
        UpdateKept(existing[oid], oid, existing, r, convert, others);
      } else {
        KeptSkips(before, SeeAll(existing), existing, payload, done, oid, convert);
        if known || CheckState(r) {
          item := AppendRemoteItem(r, source, existing, others);
        }
      }
    }

    /** One turn of the loop over the payload. */
    method ApplyNext(oid: OID, source: ItemSource, existing: map<OID, ItemData>, known: bool, payload: Payload,
                     convert: Convert,
                     ghost before: map<OID, Seen>, ghost v: Registry, ghost done: set<OID>,
                     ghost made: map<OID, ItemData>)
      returns (ghost made': map<OID, ItemData>)
      requires oid in payload && payload[oid].oid == oid && oid !in done
      requires Separate(existing) && KeptTaken(before, SeeAll(existing), existing, payload, done, convert)
      requires Stage(v, inventory, Some(source.node), existing, known, payload, done, made)
      requires Apart(made, existing) && AllMade(made, SeeAll(made), payload, source)
      modifies this`inventory, existing.Values`enabled, StateCells(existing)
      ensures KeptTaken(before, SeeAll(existing), existing, payload, done + {oid}, convert)
      ensures Stage(v, inventory, Some(source.node), existing, known, payload, done + {oid}, made')
      ensures Apart(made', existing) && AllMade(made', SeeAll(made'), payload, source)
      ensures source.destroyed == old(source.destroyed)
    {
      ghost var c := inventory;
      var item := ApplyRemote(oid, source, existing, known, payload, convert, before, done, made);
      StageNext(v, c, Some(source.node), existing, known, payload, done, made, oid, item);
      made' := made;
      if item.Some? {
        made' := made[oid := item.value];
        ApartNext(made, existing, oid, item.value);
        SeeNext(made, oid, item.value);
        AllMadeNext(made, SeeAll(made), payload, source, oid, item.value, See(item.value));
      }
    }

    method ApplyPayload(source: ItemSource, existing: map<OID, ItemData>, known: bool, payload: Payload,
                        convert: Convert)
      returns (ghost made: map<OID, ItemData>)
      requires Agree(inventory) && (forall o :: o in payload ==> payload[o].oid == o) && Separate(existing)
      modifies this`inventory, existing.Values`enabled, StateCells(existing)
      ensures source.destroyed ==> inventory == old(inventory) && SeeAll(existing) == old(SeeAll(existing))
      ensures !source.destroyed ==>
        && Stage(old(inventory), inventory, Some(source.node), existing, known, payload, payload.Keys, made)
        && AllMade(made, SeeAll(made), payload, source)
        && KeptTaken(old(SeeAll(existing)), SeeAll(existing), existing, payload, payload.Keys, convert)
    {
      made := map[];
      if !source.destroyed {
        made := ApplyAll(source, existing, known, payload, convert);
      }
    }

    /** The loop; the mark is looked at before every item. */
    method ApplyAll(source: ItemSource, existing: map<OID, ItemData>, known: bool, payload: Payload, convert: Convert)
      returns (ghost made: map<OID, ItemData>)
      requires Agree(inventory) && (forall o :: o in payload ==> payload[o].oid == o) && Separate(existing) &&
        !source.destroyed
      modifies this`inventory, existing.Values`enabled, StateCells(existing)
      ensures Stage(old(inventory), inventory, Some(source.node), existing, known, payload, payload.Keys, made)
      ensures AllMade(made, SeeAll(made), payload, source)
      ensures KeptTaken(old(SeeAll(existing)), SeeAll(existing), existing, payload, payload.Keys, convert)
    {
      ghost var v, n, before := inventory, Some(source.node), SeeAll(existing);
      made := map[];
      var todo := payload.Keys;
      ghost var done := {};
      while todo != {} && !source.destroyed
        invariant Divides(todo, done, payload.Keys) && !source.destroyed
        invariant Stage(v, inventory, n, existing, known, payload, done, made)
        invariant Apart(made, existing) && AllMade(made, SeeAll(made), payload, source)
        invariant KeptTaken(before, SeeAll(existing), existing, payload, done, convert)
      {
        var oid :| oid in todo;
        made := ApplyNext(oid, source, existing, known, payload, convert, before, v, done, made);
        MoveOne(todo, done, payload.Keys, oid);
        todo, done := todo - {oid}, done + {oid};
      }
    }

    /**
     The work under the lock of the source, undisturbed by other tasks. The synchronization is
     right if and only if every entry of the source that the payload lacks is of an item stored for
     it; new items and kept ones are as the payload says; and, from a partition, nothing of
     another node changes if and only if no new item takes an OID of it. Of a source marked
     destroyed nothing changes.
     */
    method Synchronize(source: ItemSource, existing: map<OID, ItemData>, payload: Payload, convert: Convert)
      requires Agree(inventory) && forall o :: o in payload ==> payload[o].oid == o
      requires existing == inventory.Bucket(Some(source.node)) && OwnStates(existing)
      modifies this`inventory, existing.Values`enabled, StateCells(existing)
      ensures Agree(inventory)
      ensures source.destroyed ==>
        inventory == old(inventory) && SeeAll(existing) == old(SeeAll(existing))
      ensures !source.destroyed ==>
        Delivered(old(inventory), inventory, Some(source.node), payload, convert, old(SeeAll(existing)),
          SeeAll(existing), SeeAll(inventory.Bucket(Some(source.node))))
    {
      ghost var v, n, before := inventory, Some(source.node), SeeAll(existing);
      BucketOwnKeys(v, n);
      var known := Trim(source, existing, payload);
      ghost var c := inventory;
      ghost var made := ApplyPayload(source, existing, known, payload, convert);
      if !source.destroyed {
        MadeIsAsSent(c.Bucket(n), made, payload, source);
        WorkedIsExact(v, c, inventory, n, payload, made);
      }
    }

    /** Finds the items and the object of the source, makes one if there is none, and synchronizes. */
    method ProcessLocked(payload: Payload, sourceId: string, svc: string, convert: Convert)
      requires Agree(inventory) && OwnStates(inventory.Bucket(Some(sourceId)))
      requires forall o :: o in payload ==> payload[o].oid == o
      modifies this`inventory, inventory.Bucket(Some(sourceId)).Values`enabled,
        StateCells(inventory.Bucket(Some(sourceId)))
      ensures Agree(inventory)
      ensures old(Doomed(inventory, sourceId)) ==>
        var existing := old(inventory).Bucket(Some(sourceId));
        inventory == old(inventory) && SeeAll(existing) == old(SeeAll(existing))
      ensures !old(Doomed(inventory, sourceId)) ==>
        var existing := old(inventory).Bucket(Some(sourceId));
        Delivered(old(inventory), inventory, Some(sourceId), payload, convert, old(SeeAll(existing)),
          SeeAll(existing), SeeAll(inventory.Bucket(Some(sourceId))))
    {
      var existing := inventory.Bucket(Some(sourceId));
      ghost var before := SeeAll(existing);
      var source := GetOrCreateSource(inventory.sources, sourceId, svc);
      assert source.node == sourceId && SeeAll(existing) == before;
      Synchronize(source, existing, payload, convert);
    }

    method ProcessAndUnlock(payload: Payload, sourceId: string, svc: string, convert: Convert)
      requires Agree(inventory) && OwnStates(inventory.Bucket(Some(sourceId)))
      requires forall o :: o in payload ==> payload[o].oid == o
      modifies this, inventory.Bucket(Some(sourceId)).Values`enabled, StateCells(inventory.Bucket(Some(sourceId)))
      ensures invProcess == old(invProcess) - {sourceId} && Agree(inventory)
      ensures old(Doomed(inventory, sourceId)) ==>
        var existing := old(inventory).Bucket(Some(sourceId));
        inventory == old(inventory) && SeeAll(existing) == old(SeeAll(existing))
      ensures !old(Doomed(inventory, sourceId)) ==>
        var existing := old(inventory).Bucket(Some(sourceId));
        Delivered(old(inventory), inventory, Some(sourceId), payload, convert, old(SeeAll(existing)),
          SeeAll(existing), SeeAll(inventory.Bucket(Some(sourceId))))
    {
      ghost var existing := inventory.Bucket(Some(sourceId));
      ProcessLocked(payload, sourceId, svc, convert);
      UnlockSource(sourceId, existing, inventory.Bucket(Some(sourceId)));
    }

    /** The whole work, unless the source is locked. */
    method ProcessUnlessBusy(payload: Payload, sourceId: string, svc: string, convert: Convert) returns (free: bool)
      requires Agree(inventory) && OwnStates(inventory.Bucket(Some(sourceId)))
      requires forall o :: o in payload ==> payload[o].oid == o
      modifies this, inventory.Bucket(Some(sourceId)).Values`enabled,
        StateCells(inventory.Bucket(Some(sourceId)))
      ensures free == (sourceId !in old(invProcess))
      ensures invProcess == old(invProcess) && Agree(inventory)
      ensures !free || old(Doomed(inventory, sourceId)) ==>
        var existing := old(inventory).Bucket(Some(sourceId));
        inventory == old(inventory) && SeeAll(existing) == old(SeeAll(existing))
      ensures free && !old(Doomed(inventory, sourceId)) ==>
        var existing := old(inventory).Bucket(Some(sourceId));
        Delivered(old(inventory), inventory, Some(sourceId), payload, convert, old(SeeAll(existing)),
          SeeAll(existing), SeeAll(inventory.Bucket(Some(sourceId))))
    {
      ghost var existing := inventory.Bucket(Some(sourceId));
      free := LockSource(sourceId, existing);
      if free {
        ProcessAndUnlock(payload, sourceId, svc, convert);
      }
    }

    method ProcessRemoteInventory(payload: Payload, sourceId: string, svc: string, convert: Convert)
      returns (outcome: Outcome)
      requires Agree(inventory) && OwnStates(inventory.Bucket(Some(sourceId)))
      requires forall o :: o in payload ==> payload[o].oid == o
      modifies this, inventory.Bucket(Some(sourceId)).Values`enabled,
        StateCells(inventory.Bucket(Some(sourceId)))
      ensures outcome == if "." <= sourceId then Reserved else if sourceId in old(invProcess) then Busy else Done
      ensures invProcess == old(invProcess) && Agree(inventory)
      ensures outcome != Done || old(Doomed(inventory, sourceId)) ==>
        var existing := old(inventory).Bucket(Some(sourceId));
        inventory == old(inventory) && SeeAll(existing) == old(SeeAll(existing))
      ensures outcome == Done && !old(Doomed(inventory, sourceId)) ==>
        var existing := old(inventory).Bucket(Some(sourceId));
        && Delivered(old(inventory), inventory, Some(sourceId), payload, convert, old(SeeAll(existing)),
             SeeAll(existing), SeeAll(inventory.Bucket(Some(sourceId))))
        && KeptInPlace(existing, old(SeeAll(existing)), payload, convert)
        && NewInPlace(old(inventory), inventory, Some(sourceId), payload)
    {
      outcome := Reserved;
      if !("." <= sourceId) {
        ghost var v, doomed := inventory, Doomed(inventory, sourceId);
        ghost var existing := inventory.Bucket(Some(sourceId));
        ghost var before := SeeAll(existing);
        var free := ProcessUnlessBusy(payload, sourceId, svc, convert);
        outcome := if free then Done else Busy;
        if free && !doomed {
          KeptIsInPlace(existing, before, payload, convert);
          NewIsInPlace(v, inventory, Some(sourceId), payload);
        }
      }
    }
  }

  /** What the registry is after a payload, with the exact conditions. */
  ghost predicate SyncExact(v: Registry, w: Registry, n: Option<string>, payload: Payload) {
    && Synced(v, w, n, payload) == Clean(v, n, payload)
    && OthersKept(v, w, n) == Disjoint(v, n, payload)
    && (Sound(v) ==> Sound(w) == Disjoint(v, n, payload))
  }

  lemma WorkedIsExact(v: Registry, c: Registry, w: Registry, n: Option<string>, payload: Payload,
                      made: map<OID, ItemData>)
    requires Agree(c) && Worked(v, c, w, n, payload, made)
    requires forall o :: o in made ==> made[o].Node() == n
    ensures SyncExact(v, w, n, payload)
  {
    SyncedIffClean(v, c, w, n, payload, made);
    OthersKeptIffDisjoint(v, c, w, n, payload, made);
    if Sound(v) {
      PartitionIffDisjoint(v, c, w, n, payload, made);
    }
  }

  lemma BucketOwnKeys(v: Registry, n: Option<string>)
    requires Agree(v)
    ensures forall o :: o in v.Bucket(n) ==> v.Bucket(n)[o].oid == o
  {
    forall o | o in v.Bucket(n)
      ensures v.Bucket(n)[o].oid == o
    {
      assert HasEntry(v, n, o);
    }
  }
}
