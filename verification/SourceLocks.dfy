/**
 Inventory processors and destroy tasks of any number of sources, interleaved at every
 point where one of them waits, around the lock each source has.
 */
module SourceLocks {
  import opened Common
  import opened Oids
  import opened Items
  import opened Registries

  /** Where a task stands. `oids` are the OIDs it still has to look at. */
  datatype Task =
    | Arrived(id: string, payload: set<OID>)                                     // processor, before the lock
    | Locked(id: string, payload: set<OID>)                                      // processor, lock taken
    | Removing(id: string, payload: set<OID>, source: ItemSource, oids: set<OID>)  // processor, removing missing items
    | Appending(id: string, source: ItemSource, oids: set<OID>)                  // processor, storing the payload
    | Leaving(id: string)                                                        // processor, about to unlock
    | Destroying(id: string)                                                     // destroy task, just started
    | Found(id: string, source: ItemSource)                                      // destroy task, source looked up
    | Waiting(id: string)                                                        // destroy task, source marked
    | Owning(id: string)                                                         // destroy task, lock taken
    | Emptying(id: string, oids: set<OID>)                                       // destroy task, removing all items
    | Emptied(id: string)                                                        // destroy task, about to unlock
    | Finished

  /** The source whose lock a task holds. */
  function Holds(task: Task): Option<string> {
    match task
    case Locked(id, _) => Some(id)
    case Removing(id, _, _, _) => Some(id)
    case Appending(id, _, _) => Some(id)
    case Leaving(id) => Some(id)
    case Owning(id) => Some(id)
    case Emptying(id, _) => Some(id)
    case Emptied(id) => Some(id)
    case _ => None
  }

  datatype System = System(
    inventory: Registry,
    invProcess: set<string>,     // locked sources
    marked: set<ItemSource>,     // sources marked destroyed
    tasks: map<nat, Task>,
    gone: set<string>)           // destroyed sources no processor has stored an item of since

  datatype Step =
    | Receive(t: nat, id: string, payload: set<OID>)  // an inventory arrives
    | Command(t: nat, id: string)                     // a source is to be destroyed
    | TryLock(t: nat)
    | Look(t: nat, blank: ItemSource)                 // read the inventory, with a new source object if none is there
    | Mark(t: nat)
    | Remove(t: nat, oid: OID)
    | Store(t: nat, item: ItemData)
    | Pass(t: nat, oid: OID)                          // an OID that needs no change of the inventory
    | Advance(t: nat)                                 // the end of a loop, or its break once the source is marked
    | Unlock(t: nat)

  function Registered(s: System, id: string, blank: ItemSource): ItemSource {
    if id in s.inventory.sources then s.inventory.sources[id] else blank
  }

  /** A source object nothing refers to yet. */
  predicate Unused(s: System, blank: ItemSource) {
    && blank !in s.marked && blank !in s.inventory.sources.Values
    && forall t :: t in s.tasks && (s.tasks[t].Removing? || s.tasks[t].Appending? || s.tasks[t].Found?) ==>
      s.tasks[t].source != blank
  }

  /** Whether the step may be taken. */
  predicate Enabled(s: System, step: Step) {
    match step
    case Receive(t, id, payload) => t !in s.tasks
    case Command(t, id) => t !in s.tasks
    case TryLock(t) => t in s.tasks && (s.tasks[t].Arrived? || s.tasks[t].Waiting?)
    case Look(t, blank) =>
      && t in s.tasks && (s.tasks[t].Locked? || s.tasks[t].Destroying? || s.tasks[t].Owning?)
      && blank.node == s.tasks[t].id && Unused(s, blank)
    case Mark(t) => t in s.tasks && s.tasks[t].Found?
    case Remove(t, oid) => t in s.tasks && (s.tasks[t].Removing? || s.tasks[t].Emptying?) && oid in s.tasks[t].oids
    case Store(t, item) =>
      && t in s.tasks && s.tasks[t].Appending? && item.oid in s.tasks[t].oids
      && item.source == Some(s.tasks[t].source) && s.tasks[t].source.node == s.tasks[t].id
    case Pass(t, oid) => t in s.tasks && (s.tasks[t].Removing? || s.tasks[t].Appending?) && oid in s.tasks[t].oids
    case Advance(t) =>
      && t in s.tasks && (s.tasks[t].Removing? || s.tasks[t].Appending? || s.tasks[t].Emptying?)
      && (s.tasks[t].oids == {} || (!s.tasks[t].Emptying? && s.tasks[t].source in s.marked))
    case Unlock(t) => t in s.tasks && (s.tasks[t].Leaving? || s.tasks[t].Emptied?)
  }

  function Do(s: System, step: Step): System
    requires Enabled(s, step)
  {
    match step
    case Receive(t, id, payload) => s.(tasks := s.tasks[t := Arrived(id, payload)])
    case Command(t, id) => s.(tasks := s.tasks[t := Destroying(id)])
    case TryLock(t) =>
      var task := s.tasks[t];
      if task.id in s.invProcess then
        // a processor gives up, a destroy task tries again
        if task.Arrived? then s.(tasks := s.tasks[t := Finished]) else s
      else
        s.(invProcess := s.invProcess + {task.id},
           tasks := s.tasks[t := if task.Arrived? then Locked(task.id, task.payload) else Owning(task.id)])
    case Look(t, blank) =>
      var task := s.tasks[t];
      var bucket := s.inventory.Bucket(Some(task.id)).Keys;
      s.(tasks := s.tasks[t :=
        match task
        case Locked(id, payload) => Removing(id, payload, Registered(s, id, blank), bucket)
        case Destroying(id) => Found(id, Registered(s, id, blank))
        case _ => Emptying(task.id, bucket)])
    case Mark(t) => s.(marked := s.marked + {s.tasks[t].source}, tasks := s.tasks[t := Waiting(s.tasks[t].id)])
    case Remove(t, oid) =>
      s.(inventory := Take(s.inventory, oid).0, tasks := s.tasks[t := s.tasks[t].(oids := s.tasks[t].oids - {oid})])
    case Store(t, item) =>
      s.(inventory := Put(s.inventory, item),
         tasks := s.tasks[t := s.tasks[t].(oids := s.tasks[t].oids - {item.oid})],
         gone := s.gone - {s.tasks[t].id})
    case Pass(t, oid) => s.(tasks := s.tasks[t := s.tasks[t].(oids := s.tasks[t].oids - {oid})])
    case Advance(t) =>
      var task := s.tasks[t];
      s.(tasks := s.tasks[t :=
        match task
        case Removing(id, payload, source, _) => Appending(id, source, payload)
        case Emptying(id, _) => Emptied(id)
        case _ => Leaving(task.id)])
    case Unlock(t) =>
      var task := s.tasks[t];
      s.(invProcess := s.invProcess - {task.id},
         tasks := s.tasks[t := Finished],
         gone := if task.Emptied? then s.gone + {task.id} else s.gone)
  }

  /**
   A locked source turns a processor away and keeps a destroy task waiting, and nothing else happens; a free
   one is locked. Who looks a source up gets its registered object, and a destroy task marks it.
   */
  lemma StepsMean(s: System, t: nat, blank: ItemSource)
    requires t in s.tasks
    ensures Enabled(s, TryLock(t)) ==>
      var task, s' := s.tasks[t], Do(s, TryLock(t));
      && s'.inventory == s.inventory && s'.marked == s.marked && t in s'.tasks
      && (task.id in s.invProcess ==>
            s'.invProcess == s.invProcess && s'.tasks[t] == if task.Waiting? then task else Finished)
      && (task.id !in s.invProcess ==>
            s'.invProcess == s.invProcess + {task.id} && Holds(s'.tasks[t]) == Some(task.id))
    ensures Enabled(s, Look(t, blank)) && !s.tasks[t].Owning? ==>
      var id, task := s.tasks[t].id, Do(s, Look(t, blank)).tasks[t];
      && (task.Found? || task.Removing?) && task.id == id
      && task.source == if id in s.inventory.sources then s.inventory.sources[id] else blank
    ensures Enabled(s, Mark(t)) ==>
      Do(s, Mark(t)) == s.(marked := s.marked + {s.tasks[t].source}, tasks := s.tasks[t := Waiting(s.tasks[t].id)])
    ensures Enabled(s, Unlock(t)) ==>
      var s' := Do(s, Unlock(t));
      s'.inventory == s.inventory && s'.invProcess == s.invProcess - {s.tasks[t].id} && s'.tasks[t] == Finished
  {
  }

  // ----- locks -----

  /** The source whose lock a task, given by its number, holds. */
  function Held(s: System, t: nat): Option<string> {
    if t in s.tasks then Holds(s.tasks[t]) else None
  }

  /** A source is locked exactly when one task, and no other, holds its lock. */
  ghost predicate LocksExact(s: System) {
    && (forall t :: Held(s, t).Some? ==> Held(s, t).value in s.invProcess)
    && (forall a, b :: Held(s, a).Some? && Held(s, a) == Held(s, b) ==> a == b)
    && (forall id :: id in s.invProcess ==> exists t :: Held(s, t) == Some(id))
  }

  lemma SameHolder(s: System, s': System)
    requires LocksExact(s) && s'.invProcess == s.invProcess && forall t :: Held(s', t) == Held(s, t)
    ensures LocksExact(s')
  {
    forall id | id in s'.invProcess
      ensures exists u :: Held(s', u) == Some(id)
    {
      var u :| Held(s, u) == Some(id);
      assert Held(s', u) == Some(id);
    }
  }

  lemma LockTaken(s: System, s': System, t: nat, id: string)
    requires LocksExact(s) && id !in s.invProcess && s'.invProcess == s.invProcess + {id}
    requires forall u :: Held(s', u) == if u == t then Some(id) else Held(s, u)
    requires Held(s, t).None?
    ensures LocksExact(s')
  {
    forall i | i in s'.invProcess
      ensures exists u :: Held(s', u) == Some(i)
    {
      if i == id {
        assert Held(s', t) == Some(i);
      } else {
        var u :| Held(s, u) == Some(i);
        assert Held(s', u) == Some(i);
      }
    }
  }

  lemma LockReleased(s: System, s': System, t: nat, id: string)
    requires LocksExact(s) && Held(s, t) == Some(id) && s'.invProcess == s.invProcess - {id}
    requires forall u :: Held(s', u) == if u == t then None else Held(s, u)
    ensures LocksExact(s')
  {
    forall i | i in s'.invProcess
      ensures exists u :: Held(s', u) == Some(i)
    {
      var u :| Held(s, u) == Some(i);
      assert Held(s', u) == Some(i);
    }
  }

  lemma StepKeepsLocks(s: System, step: Step)
    requires LocksExact(s) && Enabled(s, step)
    ensures LocksExact(Do(s, step))
  {
    var s' := Do(s, step);
    OthersHold(s, step);
    match step
    case TryLock(t) =>
      if s.tasks[t].id in s.invProcess {
        SameHolder(s, s');
      } else {
        LockTaken(s, s', t, s.tasks[t].id);
      }
    case Unlock(t) => LockReleased(s, s', t, s.tasks[t].id);
    case _ => SameHolder(s, s');
  }

  lemma OthersHold(s: System, step: Step)
    requires Enabled(s, step)
    ensures forall u :: u != step.t ==> Held(Do(s, step), u) == Held(s, u)
  {
  }

  // ----- buckets -----

  lemma StepKeepsAgree(s: System, step: Step)
    requires Agree(s.inventory) && Enabled(s, step)
    ensures Agree(Do(s, step).inventory)
  {
    if step.Remove? {
      TakeAgrees(s.inventory, step.oid);
    } else if step.Store? {
      PutAgrees(s.inventory, step.item);
    }
  }

  /**
   Without the lock of a source its bucket is changed in exactly one way: by removing an OID from
   another bucket, under which an item of the source is stored.
   */
  lemma BucketChanges(s: System, step: Step, id: string)
    requires Agree(s.inventory) && Enabled(s, step) && Held(s, step.t) != Some(id)
    ensures Do(s, step).inventory.Bucket(Some(id)) != s.inventory.Bucket(Some(id)) <==>
      step.Remove? && At(s.inventory, Some(id), step.oid)
  {
    match step
    case Remove(t, oid) =>
      if oid in s.inventory.items {
        BucketAfterTake(s.inventory, oid, Some(id));
      }
      assert At(s.inventory, Some(id), oid) ==> HasEntry(s.inventory, Some(id), oid);
    case Store(t, item) => BucketAfterPut(s.inventory, item, Some(id));
    case _ =>
  }

  /** Only storing an item of the source ends that its bucket is empty. */
  lemma EmptyStays(s: System, step: Step, id: string)
    requires Enabled(s, step) && s.inventory.Bucket(Some(id)) == map[]
    requires !(step.Store? && s.tasks[step.t].id == id)
    ensures Do(s, step).inventory.Bucket(Some(id)) == map[]
  {
    match step
    case Remove(t, oid) =>
      if oid in s.inventory.items {
        BucketAfterTake(s.inventory, oid, Some(id));
      }
    case Store(t, item) => BucketAfterPut(s.inventory, item, Some(id));
    case _ =>
  }

  // ----- whatever the steps store -----

  /** What every step keeps, even one that takes an OID from another node. */
  ghost predicate AlwaysInv(s: System) {
    && Agree(s.inventory) && LocksExact(s)
    && (forall t, o :: t in s.tasks && s.tasks[t].Emptying? && At(s.inventory, Some(s.tasks[t].id), o) ==>
          o in s.tasks[t].oids)
    && (forall t, o :: t in s.tasks && s.tasks[t].Emptied? ==> !At(s.inventory, Some(s.tasks[t].id), o))
  }

  /**
   An item comes to be stored for a source only in a step of the one who holds its lock; and a removed item
   is gone.
   */
  lemma NewAt(s: System, step: Step, id: string, o: OID)
    requires Agree(s.inventory) && Enabled(s, step)
    ensures At(Do(s, step).inventory, Some(id), o) ==>
      && (At(s.inventory, Some(id), o) || (step.Store? && Held(s, step.t) == Some(id)))
      && (step.Remove? ==> o != step.oid)
  {
    if step.Remove? {
      TakeOne(s.inventory, step.oid);
    }
  }

  lemma StepKeepsEmptying(s: System, step: Step, t: nat, o: OID)
    requires AlwaysInv(s) && Enabled(s, step)
    requires var s' := Do(s, step); t in s'.tasks && s'.tasks[t].Emptying? && At(s'.inventory, Some(s'.tasks[t].id), o)
    ensures o in Do(s, step).tasks[t].oids
  {
    var id := Do(s, step).tasks[t].id;
    NewAt(s, step, id, o);
    if t != step.t {
      OtherEmptying(s, step, t);
    } else if step.Look? {
      assert HasEntry(s.inventory, Some(id), o);
    }
  }

  lemma OtherEmptying(s: System, step: Step, t: nat)
    requires LocksExact(s) && Enabled(s, step) && t != step.t
    requires t in Do(s, step).tasks && Do(s, step).tasks[t].Emptying?
    ensures t in s.tasks && Do(s, step).tasks[t] == s.tasks[t] && Held(s, step.t) != Some(s.tasks[t].id)
  {
    assert Held(s, t) == Some(s.tasks[t].id);
  }

  lemma StepKeepsEmptied(s: System, step: Step, t: nat, o: OID)
    requires AlwaysInv(s) && Enabled(s, step)
    requires var s' := Do(s, step); t in s'.tasks && s'.tasks[t].Emptied?
    ensures !At(Do(s, step).inventory, Some(Do(s, step).tasks[t].id), o)
  {
    var id := Do(s, step).tasks[t].id;
    NewAt(s, step, id, o);
    EmptiedBefore(s, step, t, id, o);
  }

  lemma EmptiedBefore(s: System, step: Step, t: nat, id: string, o: OID)
    requires AlwaysInv(s) && Enabled(s, step)
    requires t in Do(s, step).tasks && Do(s, step).tasks[t] == Emptied(id)
    ensures !At(s.inventory, Some(id), o)
    ensures step.Store? ==> Held(s, step.t) != Some(id)
  {
    assert Held(s, t) == Some(id);
    assert s.tasks[t].Emptied? || (s.tasks[t].Emptying? && s.tasks[t].oids == {});
  }

  lemma StepKeepsAlways(s: System, step: Step)
    requires AlwaysInv(s) && Enabled(s, step)
    ensures AlwaysInv(Do(s, step))
  {
    var s' := Do(s, step);
    StepKeepsLocks(s, step);
    StepKeepsAgree(s, step);
    forall t, o | t in s'.tasks && s'.tasks[t].Emptying? && At(s'.inventory, Some(s'.tasks[t].id), o)
      ensures o in s'.tasks[t].oids
    {
      StepKeepsEmptying(s, step, t, o);
    }
    forall t, o | t in s'.tasks && s'.tasks[t].Emptied?
      ensures !At(s'.inventory, Some(s'.tasks[t].id), o)
    {
      StepKeepsEmptied(s, step, t, o);
    }
  }

  // ----- emptying a bucket -----

  /** A destroy task that holds the lock of the source. */
  predicate Clears(task: Task, id: string) {
    (task.Owning? || task.Emptying? || task.Emptied?) && task.id == id
  }

  /** The step stores an item under an OID that the bucket has an entry under. */
  predicate Overwrites(s: System, step: Step, id: string) {
    step.Store? && HasEntry(s.inventory, Some(id), step.item.oid)
  }

  /**
   While a destroy task holds the lock, a tidy bucket becomes untidy in exactly one way, and an untidy one
   stays so.
   */
  lemma TidyAfterStep(s: System, step: Step, t: nat, id: string)
    requires LocksExact(s) && Enabled(s, step) && t in s.tasks && Clears(s.tasks[t], id)
    ensures Tidy(Do(s, step).inventory, Some(id)) <==> Tidy(s.inventory, Some(id)) && !Overwrites(s, step, id)
  {
    assert Held(s, t) == Some(id);
    match step
    case Remove(u, oid) => TidyAfterTake(s.inventory, oid, Some(id));
    case Store(u, item) =>
      assert Held(s, u) == Some(s.tasks[u].id);
      TidyAfterPut(s.inventory, item, Some(id));
    case _ =>
  }

  /** A destroy task has marked the source and has yet to empty it. */
  predicate Dooms(task: Task, id: string) {
    (task.Waiting? || task.Owning? || task.Emptying?) && task.id == id
  }

  ghost predicate Pending(s: System, id: string) {
    exists t :: t in s.tasks && Dooms(s.tasks[t], id)
  }

  /**
   No mark is stuck: a marked source that is registered, or that a processor works with, has a destroy task
   that has yet to empty it.
   */
  ghost predicate MarksPending(s: System) {
    && (forall id :: id in s.inventory.sources && s.inventory.sources[id] in s.marked ==> Pending(s, id))
    && (forall t :: t in s.tasks && (s.tasks[t].Removing? || s.tasks[t].Appending?) && s.tasks[t].source in s.marked ==>
          Pending(s, s.tasks[t].id))
  }

  /** Tasks work with source objects of their own name. */
  ghost predicate NodesOk(s: System) {
    forall t :: t in s.tasks && (s.tasks[t].Removing? || s.tasks[t].Appending? || s.tasks[t].Found?) ==>
      s.tasks[t].source.node == s.tasks[t].id
  }

  ghost predicate MarkInv(s: System) {
    AlwaysInv(s) && NodesOk(s) && MarksPending(s)
  }

  /** The step ends emptying a source that is still registered and marked, with no other destroy task to come. */
  predicate Strands(s: System, step: Step)
    requires Enabled(s, step)
  {
    && step.Advance? && s.tasks[step.t].Emptying?
    && s.tasks[step.t].id in s.inventory.sources && s.inventory.sources[s.tasks[step.t].id] in s.marked
    && forall u :: u in s.tasks && u != step.t ==> !Dooms(s.tasks[u], s.tasks[step.t].id)
  }

  /** What holds of a task as long as destroy tasks find and leave things in order. */
  ghost predicate OrderOk(s: System, task: Task) {
    && (task.Owning? || task.Emptying? ==> Tidy(s.inventory, Some(task.id)))
    && (task.Emptied? ==> s.inventory.Bucket(Some(task.id)) == map[])
  }

  ghost predicate OrderInv(s: System) {
    && MarkInv(s)
    && (forall t :: t in s.tasks ==> OrderOk(s, s.tasks[t]))
    && (forall id :: id in s.gone ==> s.inventory.Bucket(Some(id)) == map[])
  }

  /**
   The bucket is tidy when a destroy task gets the lock, and no item is stored under an OID of a
   bucket that a destroy task is emptying.
   */
  ghost predicate Orderly(s: System, step: Step)
    requires Enabled(s, step)
  {
    && (step.TryLock? && s.tasks[step.t].Waiting? && s.tasks[step.t].id !in s.invProcess ==>
          Tidy(s.inventory, Some(s.tasks[step.t].id)))
    && (forall t :: t in s.tasks && (s.tasks[t].Owning? || s.tasks[t].Emptying?) ==>
          !Overwrites(s, step, s.tasks[t].id))
  }

  // ----- marks -----

  /** A destroy task that has yet to empty its source still has to, unless it has just done so. */
  lemma PendingStays(s: System, step: Step, id: string, t: nat)
    requires Enabled(s, step) && t in s.tasks && Dooms(s.tasks[t], id)
    requires t != step.t || !(step.Advance? && s.tasks[step.t].Emptying?)
    ensures Pending(Do(s, step), id)
  {
    assert t in Do(s, step).tasks && Dooms(Do(s, step).tasks[t], id);
  }

  /** Only storing an item registers a source, the one its processor works with. */
  lemma RegisteredBefore(s: System, step: Step, id: string)
    requires Enabled(s, step) && id in Do(s, step).inventory.sources
    ensures var x := Do(s, step).inventory.sources[id];
      Lookup(s.inventory.sources, id) == Some(x) ||
        (step.Store? && s.tasks[step.t].id == id && s.tasks[step.t].source == x)
  {
  }

  /** What the step has registered or marked was already in use, or is waited for now. */
  lemma RegisteredMarks(s: System, step: Step, id: string)
    requires MarkInv(s) && Enabled(s, step) && !Strands(s, step)
    requires var s' := Do(s, step); id in s'.inventory.sources && s'.inventory.sources[id] in s'.marked
    ensures Pending(Do(s, step), id)
  {
    RegisteredBefore(s, step, id);
    if step.Mark? && s.inventory.sources[id] == s.tasks[step.t].source {
      assert Dooms(Do(s, step).tasks[step.t], id);
    } else {
      assert Pending(s, id);
      StillPending(s, step, id);
    }
  }

  lemma StillPending(s: System, step: Step, id: string)
    requires Enabled(s, step) && !Strands(s, step) && Pending(s, id)
    requires step.Advance? && s.tasks[step.t].Emptying? && s.tasks[step.t].id == id ==>
      id in s.inventory.sources && s.inventory.sources[id] in s.marked
    ensures Pending(Do(s, step), id)
  {
    var t :| t in s.tasks && Dooms(s.tasks[t], id);
    if t == step.t && step.Advance? {
      t :| t in s.tasks && t != step.t && Dooms(s.tasks[t], id);
    }
    PendingStays(s, step, id, t);
  }

  lemma WorkedWithMarks(s: System, step: Step, u: nat)
    requires MarkInv(s) && Enabled(s, step) && !Strands(s, step)
    requires var s' := Do(s, step);
      u in s'.tasks && (s'.tasks[u].Removing? || s'.tasks[u].Appending?) && s'.tasks[u].source in s'.marked
    ensures Pending(Do(s, step), Do(s, step).tasks[u].id)
  {
    var s' := Do(s, step);
    var id := s'.tasks[u].id;
    if step.Mark? && s.tasks[u].source == s.tasks[step.t].source {
      assert Dooms(s'.tasks[step.t], id);
    } else {
      assert Pending(s, id);
      assert Held(s', u) == Some(id);
      if step.Advance? && s.tasks[step.t].Emptying? {
        assert Held(s, u) == Some(id) && Held(s, step.t) != Held(s, u);
      }
      StillPending(s, step, id);
    }
  }

  lemma StepKeepsNodes(s: System, step: Step)
    requires SourcesExact(s.inventory) && NodesOk(s) && Enabled(s, step)
    ensures NodesOk(Do(s, step))
  {
    forall t | t in Do(s, step).tasks && t != step.t
      ensures Do(s, step).tasks[t] == s.tasks[t]
    {
    }
  }

  lemma StrandedShows(s: System, step: Step)
    requires Enabled(s, step) && Strands(s, step)
    ensures !MarksPending(Do(s, step))
  {
    var s', id := Do(s, step), s.tasks[step.t].id;
    forall t | t in s'.tasks
      ensures !Dooms(s'.tasks[t], id)
    {
      assert t != step.t ==> s'.tasks[t] == s.tasks[t];
    }
    assert !Pending(s', id);
  }

  /** Whatever the steps store, a step leaves a mark stuck in exactly one way. */
  lemma StepKeepsMarks(s: System, step: Step)
    requires MarkInv(s) && Enabled(s, step)
    ensures MarkInv(Do(s, step)) <==> !Strands(s, step)
  {
    var s' := Do(s, step);
    if Strands(s, step) {
      StrandedShows(s, step);
    } else {
      StepKeepsAlways(s, step);
      StepKeepsNodes(s, step);
      forall id | id in s'.inventory.sources && s'.inventory.sources[id] in s'.marked
        ensures Pending(s', id)
      {
        RegisteredMarks(s, step, id);
      }
      forall t | t in s'.tasks && (s'.tasks[t].Removing? || s'.tasks[t].Appending?) && s'.tasks[t].source in s'.marked
        ensures Pending(s', s'.tasks[t].id)
      {
        WorkedWithMarks(s, step, t);
      }
    }
  }

  /** When a destroy task is done in order, its source is unregistered. */
  lemma EmptiedInOrder(s: System, t: nat)
    requires OrderInv(s) && Enabled(s, Advance(t)) && s.tasks[t].Emptying?
    ensures s.inventory.Bucket(Some(s.tasks[t].id)) == map[] && s.tasks[t].id !in s.inventory.sources
  {
    assert OrderOk(s, s.tasks[t]);
    NothingAtSource(s.inventory, s.tasks[t].id);
  }

  // ----- one orderly step -----

  lemma OtherTaskOrder(s: System, step: Step, u: nat)
    requires OrderInv(s) && Enabled(s, step) && Orderly(s, step) && u in s.tasks && u != step.t
    ensures OrderOk(Do(s, step), s.tasks[u])
  {
    assert OrderOk(s, s.tasks[u]);
    if s.tasks[u].Owning? || s.tasks[u].Emptying? {
      TidyAfterStep(s, step, u, s.tasks[u].id);
    } else if s.tasks[u].Emptied? {
      assert Held(s, u) == Some(s.tasks[u].id) && Held(s, step.t) != Held(s, u);
      EmptyStays(s, step, s.tasks[u].id);
    }
  }

  lemma OwnTaskOrder(s: System, step: Step)
    requires OrderInv(s) && Enabled(s, step) && Orderly(s, step)
    ensures step.t in Do(s, step).tasks && OrderOk(Do(s, step), Do(s, step).tasks[step.t])
  {
    if step.t in s.tasks {
      assert OrderOk(s, s.tasks[step.t]);
      if s.tasks[step.t].Owning? || s.tasks[step.t].Emptying? {
        TidyAfterStep(s, step, step.t, s.tasks[step.t].id);
      }
      if step.Advance? && s.tasks[step.t].Emptying? {
        EmptiedInOrder(s, step.t);
      }
      OwnTaskMoves(s, step);
    }
  }

  lemma OwnTaskMoves(s: System, step: Step)
    requires Enabled(s, step) && Orderly(s, step) && step.t in s.tasks && OrderOk(s, s.tasks[step.t])
    requires step.Remove? && s.tasks[step.t].Emptying? ==> Tidy(Do(s, step).inventory, Some(s.tasks[step.t].id))
    requires step.Advance? && s.tasks[step.t].Emptying? ==> s.inventory.Bucket(Some(s.tasks[step.t].id)) == map[]
    ensures OrderOk(Do(s, step), Do(s, step).tasks[step.t])
  {
  }

  lemma GoneStaysGone(s: System, step: Step, id: string)
    requires OrderInv(s) && Enabled(s, step) && id in Do(s, step).gone
    ensures Do(s, step).inventory.Bucket(Some(id)) == map[]
  {
    if step.Unlock? {
      assert OrderOk(s, s.tasks[step.t]);
    } else {
      EmptyStays(s, step, id);
    }
  }

  lemma DisorderShows(s: System, step: Step)
    requires OrderInv(s) && Enabled(s, step) && !Orderly(s, step)
    ensures !OrderInv(Do(s, step))
  {
    var s' := Do(s, step);
    if step.TryLock? {
      assert !OrderOk(s', s'.tasks[step.t]);
    } else {
      var t :| t in s.tasks && (s.tasks[t].Owning? || s.tasks[t].Emptying?) && Overwrites(s, step, s.tasks[t].id);
      TidyAfterStep(s, step, t, s.tasks[t].id);
      assert s'.tasks[t] == s.tasks[t];
      assert !OrderOk(s', s'.tasks[t]);
    }
  }

  /** A step keeps destroying in order, and the marks from getting stuck, if and only if it is orderly. */
  lemma StepKeepsOrder(s: System, step: Step)
    requires OrderInv(s) && Enabled(s, step)
    ensures OrderInv(Do(s, step)) <==> Orderly(s, step)
  {
    var s' := Do(s, step);
    if Orderly(s, step) {
      if step.Advance? && s.tasks[step.t].Emptying? {
        EmptiedInOrder(s, step.t);
      }
      StepKeepsMarks(s, step);
      forall t | t in s'.tasks
        ensures OrderOk(s', s'.tasks[t])
      {
        if t == step.t {
          OwnTaskOrder(s, step);
        } else {
          OtherTaskOrder(s, step, t);
        }
      }
      forall id | id in s'.gone
        ensures s'.inventory.Bucket(Some(id)) == map[]
      {
        GoneStaysGone(s, step, id);
      }
    } else {
      DisorderShows(s, step);
    }
  }

  // ----- one peaceful step -----

  /** The step does not store an item under an OID that another node has an item under. */
  predicate Peaceful(s: System, step: Step)
    requires Enabled(s, step)
  {
    step.Store? && step.item.oid in s.inventory.items ==> At(s.inventory, Some(s.tasks[step.t].id), step.item.oid)
  }

  /** Beyond that, the buckets are a partition, and what a task has yet to remove is in the bucket of its source. */
  ghost predicate Inv(s: System) {
    && OrderInv(s) && Partition(s.inventory)
    && (forall t :: t in s.tasks ==> ListOk(s, s.tasks[t]))
  }

  ghost predicate ListOk(s: System, task: Task) {
    task.Removing? || task.Emptying? ==> task.oids <= s.inventory.Bucket(Some(task.id)).Keys
  }

  lemma RemovesOwn(s: System, t: nat, oid: OID)
    requires Inv(s) && Enabled(s, Remove(t, oid))
    ensures At(s.inventory, Some(s.tasks[t].id), oid)
  {
    assert ListOk(s, s.tasks[t]);
    assert HasEntry(s.inventory, Some(s.tasks[t].id), oid);
  }

  /** Only the holder of the lock of a source changes the items of that source. */
  lemma OnlyHolderChanges(s: System, step: Step, id: string)
    requires Inv(s) && Enabled(s, step)
    ensures Do(s, step).inventory.Bucket(Some(id)) != s.inventory.Bucket(Some(id)) ==> Held(s, step.t) == Some(id)
  {
    if step.Remove? {
      RemovesOwn(s, step.t, step.oid);
    }
    if Held(s, step.t) != Some(id) {
      BucketChanges(s, step, id);
    }
  }

  /** The buckets stay a partition if and only if the step takes no OID from another node. */
  lemma StepKeepsStored(s: System, step: Step)
    requires Inv(s) && Enabled(s, step)
    ensures Partition(Do(s, step).inventory) <==> Peaceful(s, step)
  {
    if step.Remove? {
      TakeKeepsPartition(s.inventory, step.oid);
    } else if step.Store? {
      PutKeepsPartitionIff(s.inventory, step.item);
    }
  }

  lemma PeacefulIsOrderly(s: System, step: Step)
    requires Inv(s) && Enabled(s, step) && Peaceful(s, step)
    ensures Orderly(s, step)
  {
    PartitionIsTidy(s.inventory);
    forall t | t in s.tasks && (s.tasks[t].Owning? || s.tasks[t].Emptying?)
      ensures !Overwrites(s, step, s.tasks[t].id)
    {
      assert Held(s, t) == Some(s.tasks[t].id);
      assert step.Store? ==> Held(s, step.t) != Held(s, t);
      assert Overwrites(s, step, s.tasks[t].id) ==> At(s.inventory, Some(s.tasks[t].id), step.item.oid);
    }
  }

  lemma PartitionIsTidy(v: Registry)
    requires Homed(v) && Partition(v)
    ensures forall n :: Tidy(v, n)
  {
    forall n, o | HasEntry(v, n, o)
      ensures At(v, n, o)
    {
    }
  }

  lemma ListStaysOk(s: System, step: Step, u: nat)
    requires Inv(s) && Enabled(s, step) && u in Do(s, step).tasks
    ensures ListOk(Do(s, step), Do(s, step).tasks[u])
  {
    if u != step.t {
      assert ListOk(s, s.tasks[u]);
      if s.tasks[u].Removing? || s.tasks[u].Emptying? {
        assert Held(s, u) == Some(s.tasks[u].id) && Held(s, step.t) != Held(s, u);
        OnlyHolderChanges(s, step, s.tasks[u].id);
      }
    } else if u in s.tasks {
      assert ListOk(s, s.tasks[u]);
      if step.Remove? {
        RemovesOwn(s, u, step.oid);
        BucketAfterTake(s.inventory, step.oid, Some(s.tasks[u].id));
      }
    }
  }

  /** A step keeps the invariant if and only if it takes no OID from another node. */
  lemma StepKeepsInv(s: System, step: Step)
    requires Inv(s) && Enabled(s, step)
    ensures Inv(Do(s, step)) <==> Peaceful(s, step)
  {
    StepKeepsStored(s, step);
    if Peaceful(s, step) {
      PeacefulIsOrderly(s, step);
      StepKeepsOrder(s, step);
      forall t | t in Do(s, step).tasks
        ensures ListOk(Do(s, step), Do(s, step).tasks[t])
      {
        ListStaysOk(s, step, t);
      }
    }
  }

  // ----- every interleaving -----

  ghost predicate Legal(s: System, steps: seq<Step>)
    decreases |steps|
  {
    steps != [] ==> Enabled(s, steps[0]) && Legal(Do(s, steps[0]), steps[1..])
  }

  ghost function Exec(s: System, steps: seq<Step>): System
    requires Legal(s, steps)
    decreases |steps|
  {
    if steps == [] then s else Exec(Do(s, steps[0]), steps[1..])
  }

  ghost predicate AllOrderly(s: System, steps: seq<Step>)
    requires Legal(s, steps)
    decreases |steps|
  {
    steps != [] ==> Orderly(s, steps[0]) && AllOrderly(Do(s, steps[0]), steps[1..])
  }

  /** No step of the run takes an OID from another node. */
  ghost predicate AllPeaceful(s: System, steps: seq<Step>)
    requires Legal(s, steps)
    decreases |steps|
  {
    steps != [] ==> Peaceful(s, steps[0]) && AllPeaceful(Do(s, steps[0]), steps[1..])
  }

  /** No task has started yet, and no source is marked. */
  ghost predicate Init(s: System) {
    Agree(s.inventory) && s.invProcess == {} && s.tasks == map[] && s.gone == {} && s.marked == {}
  }

  /** Whatever the steps store, the locks stay exact. */
  lemma {:induction false} RunKeepsLocks(s: System, steps: seq<Step>)
    requires LocksExact(s) && Legal(s, steps)
    ensures LocksExact(Exec(s, steps))
    decreases |steps|
  {
    if steps != [] {
      StepKeepsLocks(s, steps[0]);
      RunKeepsLocks(Do(s, steps[0]), steps[1..]);
    }
  }

  lemma {:induction false} RunKeepsAlways(s: System, steps: seq<Step>)
    requires AlwaysInv(s) && Legal(s, steps)
    ensures AlwaysInv(Exec(s, steps))
    decreases |steps|
  {
    if steps != [] {
      StepKeepsAlways(s, steps[0]);
      RunKeepsAlways(Do(s, steps[0]), steps[1..]);
    }
  }

  lemma {:induction false} RunKeepsOrder(s: System, steps: seq<Step>)
    requires OrderInv(s) && Legal(s, steps) && AllOrderly(s, steps)
    ensures OrderInv(Exec(s, steps))
    decreases |steps|
  {
    if steps != [] {
      StepKeepsOrder(s, steps[0]);
      RunKeepsOrder(Do(s, steps[0]), steps[1..]);
    }
  }

  /** No step of the run leaves a mark stuck. */
  ghost predicate NoneStrands(s: System, steps: seq<Step>)
    requires Legal(s, steps)
    decreases |steps|
  {
    steps != [] ==> !Strands(s, steps[0]) && NoneStrands(Do(s, steps[0]), steps[1..])
  }

  /**
   Over every interleaving in which no destroy task ends with its source still registered and marked, and
   no other one to come: a processor gets a source that is not marked destroyed, unless a destroy task has
   marked it and has yet to empty it.
   */
  lemma UnmarkedUnlessPending(s0: System, steps: seq<Step>, t: nat, blank: ItemSource)
    requires Init(s0) && Legal(s0, steps) && NoneStrands(s0, steps)
    requires Enabled(Exec(s0, steps), Look(t, blank)) && Exec(s0, steps).tasks[t].Locked?
    ensures var s := Exec(s0, steps);
      var task := Do(s, Look(t, blank)).tasks[t];
      task.Removing? && (task.source in s.marked ==> Pending(s, s.tasks[t].id))
  {
    RunKeepsMarks(s0, steps);
  }

  lemma {:induction false} RunKeepsMarks(s: System, steps: seq<Step>)
    requires MarkInv(s) && Legal(s, steps) && NoneStrands(s, steps)
    ensures MarkInv(Exec(s, steps))
    decreases |steps|
  {
    if steps != [] {
      StepKeepsMarks(s, steps[0]);
      RunKeepsMarks(Do(s, steps[0]), steps[1..]);
    }
  }

  /** A run that takes no OID from another node is orderly, too. */
  lemma {:induction false} RunKeepsInv(s: System, steps: seq<Step>)
    requires Inv(s) && Legal(s, steps) && AllPeaceful(s, steps)
    ensures Inv(Exec(s, steps)) && AllOrderly(s, steps)
    decreases |steps|
  {
    if steps != [] {
      PeacefulIsOrderly(s, steps[0]);
      StepKeepsInv(s, steps[0]);
      RunKeepsInv(Do(s, steps[0]), steps[1..]);
    }
  }

  /**
   Over every orderly interleaving, from any inventory whose indexes agree: no two tasks hold the
   lock of one source; the step in which a destroy task releases the lock leaves the source without
   items and unregistered; and a processor that looks a source up gets one that is not marked
   destroyed, unless a destroy task has marked it and has yet to empty it. After a destruction,
   before anything was stored again, it gets an unmarked one even then.
   */
  lemma DestroyProtocol(s0: System, steps: seq<Step>, step: Step)
    requires Init(s0) && Legal(s0, steps) && AllOrderly(s0, steps)
    requires Enabled(Exec(s0, steps), step)
    ensures var s := Exec(s0, steps);
      var s' := Do(s, step);
      && (forall a, b :: Held(s, a).Some? && Held(s, a) == Held(s, b) ==> a == b)
      && (step.Unlock? && s.tasks[step.t].Emptied? ==>
            var id := s.tasks[step.t].id;
            && s'.inventory.Bucket(Some(id)) == map[] && id !in s'.inventory.sources
            && (forall o :: o in s'.inventory.items ==> s'.inventory.items[o].Node() != Some(id)))
      && (step.Look? && s.tasks[step.t].Locked? ==>
            var id := s.tasks[step.t].id;
            && s'.tasks[step.t].Removing?
            && (s'.tasks[step.t].source in s'.marked ==> Pending(s, id) && id !in s.gone))
  {
    var s := Exec(s0, steps);
    RunKeepsOrder(s0, steps);
    match step
    case Unlock(t) =>
      assert OrderOk(s, s.tasks[t]);
      if s.tasks[t].Emptied? {
        EmptyMeansUnregistered(s.inventory, s.tasks[t].id);
      }
    case Look(t, blank) =>
      if s.tasks[t].Locked? && s.tasks[t].id in s.gone {
        EmptyMeansUnregistered(s.inventory, s.tasks[t].id);
      }
    case _ =>
  }

  // ----- what a destroy task leaves behind in any interleaving -----

  /** No step of the run stores an item under an OID that the bucket has an entry under at the time. */
  ghost predicate Untaken(s: System, steps: seq<Step>, id: string)
    requires Legal(s, steps)
    decreases |steps|
  {
    steps != [] ==> !Overwrites(s, steps[0], id) && Untaken(Do(s, steps[0]), steps[1..], id)
  }

  lemma {:induction false} FinishedStays(s: System, steps: seq<Step>, t: nat)
    requires Legal(s, steps) && t in s.tasks && s.tasks[t].Finished?
    ensures t in Exec(s, steps).tasks && Exec(s, steps).tasks[t].Finished?
    decreases |steps|
  {
    if steps != [] {
      FinishedStays(Do(s, steps[0]), steps[1..], t);
    }
  }

  lemma ClearsOn(s: System, step: Step, t: nat, id: string)
    requires Enabled(s, step) && t in s.tasks && Clears(s.tasks[t], id)
    ensures t in Do(s, step).tasks && (Clears(Do(s, step).tasks[t], id) || Do(s, step).tasks[t].Finished?)
  {
  }

  lemma {:induction false} TidyAfterRun(s: System, steps: seq<Step>, t: nat, id: string)
    requires LocksExact(s) && Legal(s, steps) && t in s.tasks && Clears(s.tasks[t], id)
    requires t in Exec(s, steps).tasks && Exec(s, steps).tasks[t] == Emptied(id)
    ensures Tidy(Exec(s, steps).inventory, Some(id)) <==> Tidy(s.inventory, Some(id)) && Untaken(s, steps, id)
    decreases |steps|
  {
    if steps != [] {
      var s', rest := Do(s, steps[0]), steps[1..];
      ClearsOn(s, steps[0], t, id);
      if s'.tasks[t].Finished? {
        FinishedStays(s', rest, t);
      } else {
        StepKeepsLocks(s, steps[0]);
        TidyAfterStep(s, steps[0], t, id);
        TidyAfterRun(s', rest, t, id);
      }
    }
  }

  /**
   Over every interleaving whatsoever: `s` is a state in which a destroy task holds the lock, and
   `steps` lead to where it is done. Nothing is stored for the source then; and the bucket is empty and
   the source unregistered if and only if the bucket was tidy in `s` and no item was stored since
   under an OID it had an entry under.
   */
  lemma DestroyedIff(s0: System, before: seq<Step>, steps: seq<Step>, t: nat, id: string)
    requires Init(s0) && Legal(s0, before) && Legal(Exec(s0, before), steps)
    requires var s := Exec(s0, before); t in s.tasks && Clears(s.tasks[t], id)
    requires var end := Exec(Exec(s0, before), steps); t in end.tasks && end.tasks[t] == Emptied(id)
    ensures var s := Exec(s0, before);
      var w := Exec(s, steps).inventory;
      && (forall o :: o in w.items ==> w.items[o].Node() != Some(id))
      && (w.Bucket(Some(id)) == map[] <==> Tidy(s.inventory, Some(id)) && Untaken(s, steps, id))
      && (id !in w.sources <==> Tidy(s.inventory, Some(id)) && Untaken(s, steps, id))
  {
    var s := Exec(s0, before);
    RunKeepsAlways(s0, before);
    RunKeepsAlways(s, steps);
    TidyAfterRun(s, steps, t, id);
    NothingAtSource(Exec(s, steps).inventory, id);
  }

  lemma NothingAtSource(v: Registry, id: string)
    requires Agree(v) && forall o :: !At(v, Some(id), o)
    ensures forall o :: o in v.items ==> v.items[o].Node() != Some(id)
    ensures v.Bucket(Some(id)) == map[] <==> Tidy(v, Some(id))
    ensures id !in v.sources <==> Tidy(v, Some(id))
  {
    forall o | o in v.items
      ensures v.items[o].Node() != Some(id)
    {
      assert !At(v, Some(id), o);
    }
    if v.Bucket(Some(id)) != map[] {
      var o :| o in v.Bucket(Some(id));
      assert HasEntry(v, Some(id), o) && !At(v, Some(id), o);
    }
  }

  lemma EmptyMeansUnregistered(v: Registry, id: string)
    requires Agree(v) && v.Bucket(Some(id)) == map[]
    ensures id !in v.sources
    ensures forall o :: o in v.items ==> v.items[o].Node() != Some(id)
  {
  }
}
