# A verified model of the EVA ICS node core

EVA ICS is an automation platform. A node keeps an inventory of items (units, sensors, lvars and
lmacros, each named by an OID), holds the state of every item, copies the states of the items of
other nodes, and launches actions on units and lmacros. This project models the parts of the node
core, and of the code around it, where several structures or several tasks have to agree, and proves
what they keep over every input and every run.

| file | what it models |
|---|---|
| `Tries.dfy`, `ItemTree.dfy`, `ItemMap.dfy` | the item trees with their caches of descendants, and the mask search |
| `Registry.dfy`, `Inventory.dfy` | the inventory: the trees, the items by source and the registered sources |
| `States.dfy`, `Replication.dfy` | item states, their setters, and the copies on other nodes |
| `Sync.dfy`, `SourceLocks.dfy` | synchronization with the inventory of another node, and the lock it shares with source destruction |
| `Actions.dfy`, `ActCounter.dfy` | the life of an action, and the counter of running actions of a unit |
| `RpcFraming.dfy`, `RpcCalls.dfy` | the byte layout of RPC over pub/sub messages, and the pending calls |
| `Masks.dfy`, `Acl.dfy` | the three mask matchers (item tree, database extension, JavaScript bindings) and access lists |
| `Sequences.dfy`, `Delta.dfy`, `IacMerge.dfy` | action sequences, counter deltas, and merging an export into a deployment file |
| `Common.dfy`, `Text.dfy`, `Oids.dfy`, `Items.dfy` | options and results, splitting and joining text, OIDs, and the shared item and source objects |

Code that updates objects in place is modelled by classes and methods: the tree nodes are heap objects
with a footprint, and each method is proved against a function on values (`Tries.Append`,
`Registries.Put`, `Actions.Do` and so on) about which the laws are then proved. Tasks that interleave
are modelled as state machines, with one step for each stretch between two points where a task waits.

`dafny verify dfyconfig.toml` checks the whole project.

## What the code does and does not promise

Some properties hold only under a condition. Each of these comes with its exact condition.

- A replacing append that gives an OID another source leaves the old entry in the former source's
  bucket. The buckets partition the inventory, and the statistics count every item once, exactly when
  no such entry is left (`PutKeepsPartitionIff`, `CountsOnceIffPartition`).
- Removing the OID of such an entry takes the item from the other node, and the entry stays
  (`StaleEntryOutlivesRemoval`). So destroying a source, undisturbed, empties and unregisters it exactly when its
  bucket has no stale entry (`EmptiedIffTidy`, `EmptySource`), and a synchronization is right exactly when no
  entry that the payload lacks is stale (`SyncedIffClean`, `ProcessRemoteInventory`). Interleaved with
  processors of other sources, destroying does so exactly when the bucket has no stale entry once the
  lock is taken and no processor stores an item under an OID of the bucket since (`DestroyedIff`).
- The bucket of a source is changed without its lock exactly when an OID of another source's list, under
  which an item of that source is stored by then, is removed (`BucketChanges`).
- The mark of a destroyed source gets stuck exactly when a destroy task ends with the source still
  registered, because of a stale entry, and no other destroy task for it is to come (`StepKeepsMarks`).
- A copy equals the latest state it was sent exactly when the first event of that state brought the action
  counter or the copy had it already (`CounterFromFirst`).
- The outputs of an action depend on the order of its events only if two different events bring its
  final status (`OrderDoesNotMatter`, `OrderMattersOtherwise`).
- The status of an action goes back only when an id that is still stored is launched again
  (`GoesBackIffRelaunched`).
- When announcing the new state fails, launching an action returns after the counter was raised and
  nothing lowers it again (`CounterIsInFlight`).
- A reply of one byte, sent in the clear and uncompressed, is dropped as too short (`ReplyRoundTrip`,
  `LostRepliesAreClear`).
- A sender, key id or method name with a zero byte does not survive a request (`RequestRoundTrip`).
- Only the database extension reads `*` and `?` as wildcards, and it answers for kinds the bindings
  refuse. The texts both treat alike are given exactly (`MatchersAgreeOnText`, `DisagreeingItem`).
- The documentation of `act_decr` announces a panic for an idle unit. The code logs a warning and leaves
  the counter alone, and so does the model.

## Assumptions about code that is not part of this model

- An OID is a kind and a non-empty list of chunks, none of which holds a slash once it has been parsed. An
  OID mask is an optional kind and an optional list of chunks.
- An item event id (IEID) is ordered by boot id, then by its counter; a node draws each id once and always a
  later one. Boot ids that are zero ("phantom") get no special treatment.
- Formula and regular expression chunks, the patterns and mask lists of filters, and the range of an item
  are predicates passed as parameters. Whether a value is in range is asked of the value itself, so a value
  that is no number is simply not in range.
- Encryption, compression and MessagePack packing are functions passed as parameters; decryption inverts
  encryption, decompression inverts compression, and unpacking inverts packing of the value at hand.
- OIDs have a total order, by which items are sorted. Its definition is a parameter.
- A mask text `#` stands for a mask without kind and chunks.
- Ids of calls, actions and sequences are never drawn twice.
- Stopping a spawned task takes effect some time after it is asked for, or not at all if the task ends first.
- `Op::enough(d)` succeeds exactly when the elapsed time plus `d` is within the timeout. The longest
  expected duration of a sequence is a number it comes with.
- The conversion of an inventory item into a replicated state is a function passed as a parameter.
- Floating point numbers are reals. Clocks, fresh ids and nonces are parameters.

## Model

| member | source | states |
|---|---|---|
| `Tries.AppendRefines` | eva/src/items.rs:1326-1357 | Appending to a well-formed tree is refused exactly when the OID is held and replacing was not asked for, and then the tree is the same; otherwise the tree stays well-formed (exact caches, members only at their own node, no empty node below the root) and holds the old map with that one key changed |
| `Tries.RemoveRefines` | eva/src/items.rs:1263-1279 | Removing hands out what was held under the OID, keeps the tree well-formed with empty nodes pruned, and leaves the map without that key; removing what is not there changes nothing |
| `Tries.HoldingsBelong` | eva/src/items.rs:1326-1357 | A node at a path holds only items of that kind at or below that path, each under its own OID, and its members and its cache are exactly those at and below it |
| `Tries.SameObjectAlongPath` | eva/src/items.rs:1326-1357 | Every node on the path to a stored item exists and has the very same object in its cache; the node at the end has it as its only member |
| `Tries.Canonical` | eva/src/items.rs:1326-1357 | Two well-formed trees that hold the same items are the same tree, so the shape keeps no trace of history |
| `Tries.RemoveUndoesAppend` | eva/src/items.rs:1263-1279 | Appending an item under a new OID and removing it gives back the item and the exact tree |
| `Tries.AppendsCommute` | eva/src/items.rs:1326-1357 | Two replacing appends of different OIDs give the same tree in either order |
| `ItemTrees.AppendItemRec` | eva/src/items.rs:1326-1357 | The in-place recursion over heap nodes, with a child created only when the append below succeeds, does exactly what the append on values does, and touches only the tree's own nodes |
| `ItemTrees.RemoveItemRec` | eva/src/items.rs:1263-1279 | The in-place recursion with pruning does exactly what the removal on values does |
| `ItemTrees.ItemTree.IsEmpty` | eva/src/items.rs:1263-1279 | The test before pruning tells whether the node has neither members nor children |
| `ItemSearch.GetItemRec` | eva/src/items.rs:1250-1262 | Taking any member of the node a path leads to gives the item stored under that OID, or none |
| `ItemSearch.GetItemByMaskRec` | eva/src/items.rs:1281-1324 | The walk lists each item at or below the node whose remaining path the mask covers and that passes the filter, exactly once and nothing else, for masks of literals, `+`, `#`, formulas and regular expressions |
| `ItemSearch.SelectChilds` | eva/src/items.rs:1296-1314 | Of the children, one chunk of a mask leads to exactly those whose name it matches: all for `+`, by formula or regular expression, or the one of that name |
| `ItemSearch.VisitChilds` | eva/src/items.rs:1296-1314 | Visiting the selected children in any order lists exactly what the rest of the mask selects below them, each item once |
| `ItemSearch.Filtered` | eva/src/items.rs:1289-1295 | Lists exactly once each item of a map that passes the filter |
| `ItemSearch.HitsStep` | eva/src/items.rs:1296-1314 | What a mask selects below a node is the union over the matching children of what the rest of the mask selects there |
| `Masks.CoversStep` | eva/src/items.rs:1281-1324 | One level of the walk consumes one chunk: `#` needs at least one more chunk of the path, an exhausted mask needs the path exhausted, any other chunk must match the next one |
| `Masks.ChunksMean` | eva/src/items.rs:1296-1313 | A `+` matches any chunk, a formula or a valid regular expression what it accepts, and any other text itself alone |
| `ItemMaps.ItemMap.Append` | eva/src/items.rs:1164-1167 | The map from OID to item has that one key changed, or nothing at all, trees included, when the append is refused |
| `ItemMaps.ItemMap.Get` | eva/src/items.rs:1169-1172 | Finds exactly the item stored under the OID |
| `ItemMaps.ItemMap.Remove` | eva/src/items.rs:1174-1177 | Hands out the stored item and forgets it; if there was none, no tree changes |
| `ItemMaps.ItemMap.SearchTree` | eva/src/items.rs:1188-1199 | One tree, or its whole cache when the mask has no chunks, gives exactly the items of that kind that the mask and the filter select |
| `ItemMaps.ItemMap.GetByMask` | eva/src/items.rs:1178-1247 | Lists exactly once each stored item that matches the mask and passes the filter, and lmacros only when stateless items are asked for, with or without a kind and with or without chunks |
| `ItemMaps.SelectionMeans` | eva/src/items.rs:1100-1139 | A stored item is found exactly if its kind and path are those of the mask, it is no lmacro unless stateless ones are asked for, it is local, remote or of the node asked for (`#` and `*` for any), it matches the pattern, and it is included and not excluded |
| `Items.FilterMeans` | eva/src/items.rs:1100-1139 | What passes a filter, condition by condition |
| `ItemMaps.ItemMap.ContentsOwnKeys` | eva/src/items.rs:1164-1177 | Every item is stored under its own OID |
| `Registries.PutAgrees` | eva/src/items.rs:963-980 | Storing an item keeps the three indexes in agreement: every stored item is in the bucket of its own source, every bucket entry belongs to that source, no bucket is empty, and the registered sources are exactly the remote buckets |
| `Registries.SourceStays` | eva/src/items.rs:963-1009 | A source is registered by the first item of its bucket; its object is never replaced while it is registered, and it goes exactly when the last entry of its bucket is removed |
| `Registries.TakeAgrees` | eva/src/items.rs:995-1009 | Removing an item keeps that agreement |
| `Registries.RunAgrees` | eva/src/items.rs:963-1009 | Any run of appends and removals keeps it |
| `Registries.PutKeepsPartitionIff` | eva/src/items.rs:963-980 | Storing an item keeps the buckets a partition of the inventory if and only if it does not move a stored OID to another source |
| `Registries.TakeKeepsPartition` | eva/src/items.rs:995-1009 | Removing an item always does |
| `Registries.TakeMore` | eva/src/items.rs:995-1009 | Removing several OIDs one by one, in any order: each leaves the bucket of the node it is stored for, and no other bucket |
| `Registries.EmptiedIffTidy` | eva/src/core.rs:1279-1284 | Removing all OIDs of a source's bucket empties the bucket, and unregisters the source, if and only if every entry of the bucket is of an item stored for that source |
| `Registries.TidyAfterTake` | eva/src/items.rs:995-1009 | Removing any OID neither makes a bucket untidy nor tidies it |
| `Registries.TidyAfterPut` | eva/src/items.rs:963-980 | Storing an item of another node leaves a tidy bucket tidy if and only if the bucket has no entry under the OID, and never tidies one |
| `Registries.StaleEntryOutlivesRemoval` | eva/src/items.rs:963-1009 | The failing input: an OID stored for one node is brought by another and then removed; the entry stays in the first node's bucket and keeps that node registered, the other node has lost its item, and removing the OID again does nothing |
| `Registries.GetOrCreateSource` | eva/src/items.rs:827-831 | Gives the registered source, or a new one of that name that is not marked destroyed |
| `Registries.RunPartitions` | eva/src/items.rs:963-1009 | A run in which no replacing append moves an OID keeps the partition |
| `Registries.CountsOnceIffPartition` | eva/src/items.rs:810-825 | The bucket sizes add up to at least the number of items, and to exactly that number if and only if the buckets partition the inventory |
| `Inventories.Inventory.AppendItem` | eva/src/items.rs:963-980 | The object with its trees does what storing does on values, or is unchanged when refused |
| `Inventories.Inventory.RemoveItem` | eva/src/items.rs:995-1009 | The object with its trees does what removing does on values |
| `Inventories.Inventory.GetItem` | eva/src/items.rs:991-993 | Finds exactly the stored item |
| `Inventories.Inventory.GetOrCreateSource` | eva/src/items.rs:827-831 | Gives the registered source, or a new one that is not marked destroyed |
| `Inventories.Inventory.GetItemsBySource` | eva/src/items.rs:833-837 | None exactly if the source is not registered, and then nothing is stored for it; otherwise a non-empty map with every item stored for the source, as the same object, and with entries of that source only; without stale entries it holds nothing else |
| `Inventories.Inventory.Stats` | eva/src/items.rs:810-825 | The total is never less than the number of items and equals it exactly when no stale entry is left; each source's count is the size of its bucket |
| `Inventories.CountBuckets` | eva/src/items.rs:810-825 | The loop counts every entry of every bucket once |
| `Inventories.Inventory.ListItems` | eva/src/core.rs:2156-2193 | Lists each item that matches one of the masks and passes the filter exactly once, and nothing else, in the order of the OIDs |
| `Inventories.ListingMeans` | eva/src/core.rs:2156-2193 | An item is listed exactly if one of the masks and each condition of the filter admit it |
| `Inventories.ListFrom` | eva/src/core.rs:2156-2193 | The loop over the masks collects that set |
| `Inventories.SortItems` | eva/src/core.rs:2190-2192 | Sorting gives each item of the set once, in the order of the OIDs, for any total order of OIDs |
| `States.ItemState.SetValues` | eva/src/items.rs:351-365 | A status of ERROR or a value in range is stored, anything else marks the item failed and leaves the value; reports a change exactly when there was one |
| `States.ItemState.SetRaw` | eva/src/items.rs:330-384 | If every comparison it brings holds, the event asks for its own status and value, else for the other ones, with ERROR for a missing status; that is stored if it is ERROR or the value is in range, and otherwise the status is ERROR and the value stays. The result is true exactly if status, value or a given non-zero time changed; then, or if forced, event id and time are new, and otherwise the whole state is as it was. The counter never changes |
| `States.ItemState.Stamp` | eva/src/items.rs:366-384 | A given non-zero time is taken over and counts as a change if it differs; a changed or forced state gets the new event id and, if no time came, the present one |
| `States.ItemState.ForceSet` | eva/src/items.rs:271-285 | Stores the status and the value that are given, keeps those that are not, and takes a new event id and time; the counter stays |
| `States.ItemState.ActUp` | eva/src/items.rs:307-311 | A missing counter becomes 1, any other is raised by one; status and value stay, event id and time are new |
| `States.ItemState.ActDown` | eva/src/items.rs:297-306 | A positive counter is lowered by one, a zero or missing one stays; status and value stay, event id and time are new |
| `States.ItemState.SetRs` | eva/src/items.rs:313-322 | Status, value, event id and time become those another node sent, and the counter too if one was sent; otherwise it stays |
| `States.RawKeepsRange` | eva/src/items.rs:330-384 | After any run of at least one raw event, from any state, the status is ERROR or the value is in range; a refused event leaves the stored value alone |
| `States.IeidOrder` | eva/src/core.rs:695-697 | Event ids are strictly and totally ordered: by boot, and within a boot by count |
| `Replication.AnnouncedIffRestamped` | eva/src/core.rs:1560-1651 | A change that is not announced changes nothing; an announced one carries its fresh event id |
| `Replication.ChangesMean` | eva/src/core.rs:1560-1651 | A raw event is ignored for a disabled item unless fully forced, and for an lvar with status 0 unless forced, and is otherwise announced exactly if it changed something or was forced; lvar operations and action steps are always announced, and change exactly the named fields, event id and time |
| `Replication.ProcessRawState` | eva/src/core.rs:1560-1651 | A raw event on the state object itself takes that step of the history; what is not announced has changed nothing |
| `Replication.HistoryRises` | eva/src/items.rs:374-383 | Along any run of raw events, lvar operations and action steps the states have strictly rising event ids, each drawn in the run, and the last one is the state the item is in |
| `Replication.EqualIdsEqualStates` | eva/src/items.rs:374-383 | Two states of one history with equal event ids are equal |
| `Replication.UpdateStateFromRepl` | eva/src/core.rs:1960-2024 | An event is refused for an lmacro, for an lvar or sensor if it brings an action counter, or if it comes from another node than the item; otherwise status, value, event id, time and a counter, if one came, are taken over exactly when its event id is greater, and announced once, as current or as archive |
| `Replication.ProcessedInOrder` | eva/src/core.rs:1960-2005 | Events are processed in the order they come, each exactly if the copy, whatever its state, does not refuse it |
| `Replication.FollowProcessed` | eva/src/core.rs:1960-2005 | Refused events leave no trace: the copy and its announcements are those of the processed events alone |
| `Replication.FollowSettles` | eva/src/core.rs:2006-2024 | Over any list of events, welcome or not: the log has one announcement for each event processed, in order and about that event; the event ids announced as current rise strictly; and the copy ends with the greatest event id among its start and the events, showing what came with it |
| `Replication.ShowsLatest` | eva/src/core.rs:2006-2024 | A copy that received any selection of the origin's states, in any order and with repetitions, each with or without its action counter, ends with status, value, event id and time of the latest of them; it equals that state if every event of it brings the counter |
| `Replication.CounterFromFirst` | eva/src/items.rs:313-322 | Exactly: the first event that carries the latest state is taken over, so the copy equals that state if and only if this event brings the counter or the copy has the right one already |
| `Replication.ReplicaConverges` | eva/src/core.rs:2006-2024 | Once the origin's last state has been delivered, whenever that was, the copy shows it; it equals the origin if the events of that state bring the counter, or if the item never has one |
| `Replication.NoCounterAppears` | eva/src/items.rs:313-322 | The copy of an item that is not a unit never grows an action counter |
| `SourceSync.Core.ProcessRemoteInventory` | eva/src/core.rs:1730-1939 | Source names with a leading dot are refused and a locked source is skipped, and the lock is as before; if so, or if the source is marked destroyed, neither the indexes nor the items change; otherwise every new item object has meta, enabled flag, counter, event id and time as sent, status 0 and no value where none was sent, and no state if it is an lmacro; an item with unchanged meta is the same object with the flag sent, and has status, value, event id and time as sent, and the counter if one was, if the payload item fits its kind and converts to a state with a greater event id, and its old state otherwise; any other item that was there looks as before; the source's OIDs are exactly those of the payload it had or that pass the checks for creation, and no other bucket changes, if and only if every entry the payload lacks is of an item stored for the source; no item stored for another node changes if and only if none is under an OID that the payload lacks or that gets a new item; and a partition stays one under that condition, too |
| `SourceSync.Core.Synchronize` | eva/src/core.rs:1789-1933 | The same for the work done under the lock |
| `SourceSync.Core.ProcessLocked` | eva/src/core.rs:1780-1933 | The same with the items and the object of the source looked up first |
| `SourceSync.Core.ProcessAndUnlock` | eva/src/core.rs:1780-1937 | The same, with the lock released afterwards |
| `SourceSync.Core.ProcessUnlessBusy` | eva/src/core.rs:1773-1937 | The same, if the lock is free, and otherwise nothing |
| `SourceSync.Core.Trim` | eva/src/core.rs:1789-1804 | Missing items are removed only for a source that has a bucket, which decides the checks for creation that follow; no item object changes |
| `SourceSync.Core.ApplyRemote` | eva/src/core.rs:1810-1894 | One item of the payload either updates the item kept, or stores one new object as sent, or changes nothing |
| `SourceSync.UpdateKept` | eva/src/core.rs:1819-1864 | The update of one kept item leaves every other item as it is |
| `SourceSync.Core.RemoveMissing` | eva/src/core.rs:1791-1804 | The loop removes exactly the entries of the source that the payload lacks, and nothing of another bucket, if and only if each of these is of an item stored for the source; nothing at all if the source is marked destroyed |
| `SourceSync.Core.ApplyPayload` | eva/src/core.rs:1806-1932 | In whatever order the payload comes, one new object as sent is stored for each item to be created, the kept items are updated, and nothing else changes |
| `SourceSync.Core.AppendRemoteItem` | eva/src/items.rs:955-962 | Stores an item made of the payload item exactly when one can be made |
| `SourceSync.MakeItem` | eva/src/items.rs:622-644 | An item can be made exactly if it is an lmacro or comes with event id and time; the new object has OID, source, meta and enabled flag as given, no state if it is an lmacro, and otherwise the status sent or 0, the value sent or none, and the counter, event id and time sent |
| `SourceSync.UpdateExisting` | eva/src/core.rs:1819-1864 | The enabled flag becomes the one sent; status, value, event id and time become those of the converted state, and the counter if it has one, exactly if the payload item fits the kind, is no lmacro, converts, and its event id is greater than the one the item had; otherwise the state is the old one |
| `SourceSync.ChecksMean` | eva/src/core.rs:1740-1772 | A payload item fits its kind if it has event id and time and, unless it is a unit, no counter, or if it is an lmacro without any state; an item is kept if one with the same meta is there; a new one is made if none is kept, it is an lmacro or has event id and time, and the source is known or the item fits |
| `SourceSync.KeptIsInPlace` | eva/src/core.rs:1819-1864 | The same for all items of a source after a whole payload, read off the item objects |
| `SourceSync.NewIsInPlace` | eva/src/items.rs:622-644 | So are all new items of the payload read off the objects in the bucket |
| `SourceSync.StatesNeverOlder` | eva/src/core.rs:1836-1857 | Over a whole payload no state of an item that was there goes back to an earlier event id, or changes under the same one |
| `SourceSync.TrimmedIffClean` | eva/src/core.rs:1791-1804 | Removing what the payload lacks trims the bucket, and nothing else, if and only if every entry it lacks is of an item stored for the source |
| `SourceSync.SyncedIffClean` | eva/src/core.rs:1789-1933 | The same condition decides whether the whole synchronization is right |
| `SourceSync.OthersKeptIffDisjoint` | eva/src/core.rs:1791-1894 | From any agreeing indexes, stale entries or not: the items of the other nodes stay if and only if none is under an OID that is removed as missing or gets a new item |
| `SourceSync.PartitionIffDisjoint` | eva/src/core.rs:1791-1894 | A partition stays one under the same condition |
| `SourceSync.Core.EmptySource` | eva/src/core.rs:1279-1284 | The loop of a destroy task leaves the source without items and unregistered if and only if every entry of its bucket is of an item stored for it |
| `SourceSync.Core.LockSource` | eva/src/core.rs:713-721 | Succeeds exactly when nobody holds the lock, which is held afterwards either way; no item changes |
| `SourceLocks.StepKeepsLocks` | eva/src/core.rs:713-728 | Every step of every task, whatever it stores, keeps each lock held by exactly one task, or free |
| `SourceLocks.StepsMean` | eva/src/core.rs:713-728 | A locked source turns a processor away, keeps a destroy task waiting, and nothing else changes; a free one is locked by whoever tries. Who looks a source up gets its registered object if there is one, and a destroy task marks the object it found |
| `SourceLocks.OnlyHolderChanges` | eva/src/core.rs:1773-1810 | While the buckets are a partition, a step changes the bucket of a source only if its taker holds the lock of that source |
| `SourceLocks.BucketChanges` | eva/src/core.rs:1791-1804 | In any state: without the lock of a source a step changes its bucket if and only if it removes, on behalf of another source, an OID under which an item of that source is stored |
| `SourceLocks.StepKeepsInv` | eva/src/core.rs:1266-1287 | A step keeps the full invariant, with the buckets a partition and all removal lists within the buckets, if and only if it does not store an item under an OID that another node has an item under |
| `SourceLocks.StepKeepsMarks` | eva/src/core.rs:1266-1287 | No mark is stuck: a marked source that is registered, or that a processor works with, has a destroy task that has yet to empty it. Whatever is stored, a step keeps this if and only if it does not end the emptying of a source that is still registered and marked, with no other destroy task for it to come |
| `SourceLocks.UnmarkedUnlessPending` | eva/src/core.rs:1780-1786 | Over every interleaving without such a step a processor gets a source object that is not marked destroyed unless a destroy task has marked it and has yet to empty it |
| `SourceLocks.TidyAfterStep` | eva/src/core.rs:1266-1287 | While a destroy task holds the lock, its bucket is tidy after a step if and only if it was before and the step stores nothing under an OID it has an entry under |
| `SourceLocks.StepKeepsOrder` | eva/src/core.rs:1266-1287 | A step keeps what destroying relies on and leaves (tidy buckets under emptying, empty ones after it, destroyed sources empty until something is stored, no stuck mark) if and only if no destroy task gets the lock of an untidy bucket in it and it stores nothing under an OID of a bucket that is being emptied |
| `SourceLocks.RunKeepsOrder` | eva/src/core.rs:1266-1287 | So does every interleaving of such steps, from any inventory whose indexes agree |
| `SourceLocks.RunKeepsInv` | eva/src/core.rs:1266-1287 | Every interleaving that takes no OID from another node keeps the full invariant, and is orderly in the sense above; an OID may leave one node and later come from another |
| `SourceLocks.RunKeepsLocks` | eva/src/core.rs:713-728 | The locks stay exact over every interleaving whatsoever |
| `SourceLocks.DestroyProtocol` | eva/src/core.rs:1266-1287 | Over every orderly interleaving two tasks never hold one lock; when a destroy task releases it the source has no items and no registered object; and a processor gets a source object that is not marked destroyed unless a destroy task has marked it and has yet to empty it, and even then after a destruction until something is stored again |
| `SourceLocks.DestroyedIff` | eva/src/core.rs:1266-1287 | Over every interleaving whatsoever: when a destroy task is done nothing is stored for the source; and the bucket is empty and the source unregistered if and only if the bucket was tidy at any chosen point since the lock was taken and nothing was stored from there on under an OID it had an entry under at the time |
| `SourceLocks.RunKeepsAlways` | eva/src/core.rs:1266-1287 | What this rests on: the indexes agree, the locks are exact, and whatever is stored for a source that is being emptied is still on the list of its destroy task |
| `Actions.FromCode` | bindings/common/eva4-common.h:42-49 | Gives the status with the code, and none only if no status has it |
| `Actions.StatusCodes` | bindings/common/eva4-common.h:42-49 | The codes are 0, 1, 2, 8, 15, 128, 129 and 130, and exactly completed, failed, canceled and terminated actions are finished |
| `Actions.Manager.ProcessEvent` | eva/src/actmgr.rs:390-409 | An event on the bus of a higher status gives a stored action that status and its outputs, and fires its triggers if it finishes it; every known event stamps its time, and a lower one does nothing else; it fails exactly for an unknown code of a stored action, and no other action changes |
| `Actions.Manager.Insert` | eva/src/actmgr.rs:449-494 | A launched action is stored as created now, without outputs and with no trigger fired, and no other action changes |
| `Actions.Manager.ProcessReply` | eva/src/actmgr.rs:495-505 | A good reply turns a created action into an accepted one, leaves any other status, and stamps the time of acceptance; an error fails an action that is not finished, with the error as its output; the reply is an error exactly if the action is gone, and no other action changes |
| `Actions.RepliesMean` | eva/src/actmgr.rs:495-505 | In the runs, too, a good reply accepts a created action and an error fails an unfinished one |
| `Actions.Manager.MarkActionTimedOut` | eva/src/actmgr.rs:615-619 | A stored action that is not finished fails, and no other action changes |
| `Actions.Manager.CleanupActionHistory` | eva/src/actmgr.rs:660-675 | The cleaner keeps exactly the actions that are young or not finished |
| `Actions.StepForward` | eva/src/actmgr.rs:328-351 | Whatever happens next, a stored action moves only forward unless it is launched again: its status does not decrease, so a finished one stays finished, its stamps stay, and its trigger goes off in exactly the step that first finishes it; only the cleaner drops an action, and only a finished one |
| `Actions.GoesBackIffRelaunched` | eva/src/actmgr.rs:449-494 | A status goes back if and only if an id that is still stored is launched again |
| `Actions.RunForward` | eva/src/actmgr.rs:328-409 | Over every interleaving of launches with new ids, replies, events, timeouts and cleaner ticks: actions move only forward, the trigger fires exactly once, created and current status are always stamped, and an action that is gone was finished when the cleaner took it |
| `Actions.TakeAllOutcome` | eva/src/actmgr.rs:345-409 | After any list of events and accept replies the status is the greatest of them, exactly the statuses that came are stamped, and the outputs are those of a message that brought the greatest status |
| `Actions.OrderDoesNotMatter` | eva/src/actmgr.rs:345-409 | Two orders of the same messages, accept replies among them, give the same status and the same stamped statuses and, above accepted and if the bus events of the greatest status are one event, the same outputs |
| `Actions.OrderMattersOtherwise` | eva/src/actmgr.rs:390-409 | That condition is needed: of two different events with the greatest status the first one decides the outputs, so two orders differ |
| `ActCounter.RunCounts` | eva/src/core.rs:1060-1090 | Over every run of launches, ends, deployments and removals of a unit the counter stays at or below the actions in flight plus the launches that failed to announce, and equals that sum if the unit was left in place |
| `ActCounter.InFlightIsLaunchedNotEnded` | eva/src/core.rs:1028-1090 | Over every run the actions in flight are those launched and announced that have not ended |
| `ActCounter.CounterIsInFlight` | eva/src/core.rs:1028-1040 | For a unit that starts idle and is left in place the counter equals the actions in flight if and only if every launch was announced; if all were, it never exceeds them whatever is deployed |
| `Delta.DeltaIsAdvance` | eva/src/core.rs:2572-2580 | For a counter that wraps in [floor, ceil) each delta is in [0, range), and is the true advance if and only if that is less than the range |
| `Delta.DeltasSumUp` | eva/src/core.rs:2572-2580 | The deltas of any number of readings add up to the true total advance |
| `Delta.PlainDeltasSumUp` | eva/src/core.rs:2572-2580 | In the modes without overflow, and while no reading falls, the deltas add up to the difference of the last and the first reading |
| `RpcFraming.FlagsRoundTrip` | psrpc/src/options.rs:10-14 | Encryption and compression are recovered from the flags byte |
| `RpcFraming.PayloadRoundTrip` | psrpc/src/options.rs:150-217 | Whatever stands before it, a packed payload (compressed, then ciphertext, 16-byte tag and 12-byte nonce) is unpacked to itself, for all ciphers and compressions |
| `RpcFraming.Opens` | psrpc/src/options.rs:194-240 | Ciphertext, 16-byte tag and 12-byte nonce are opened with the hash of the key value, or its first 16 bytes for AES-128, and then decompressed if asked; either may fail, with its own error |
| `RpcFraming.OpensSealed` | psrpc/src/options.rs:98-113 | Whatever was sealed under exactly these keys and laid out so is opened |
| `RpcFraming.PackedBytes` | psrpc/src/options.rs:150-191 | A payload is packed into its bytes, compressed if asked, or into ciphertext, tag and nonce under exactly these keys |
| `RpcFraming.LeRoundTrip` | psrpc/src/lib.rs:443 | Little-endian bytes give back the number, for every width |
| `RpcFraming.LeWeights` | psrpc/src/lib.rs:443 | Earlier bytes weigh less: each byte further on counts 256 times as much |
| `RpcFraming.BuildRequest` | psrpc/src/lib.rs:435-449 | The message is version 1, type 1, the flags (16 for compression, 1 or 2 for the cipher), two zero bytes, sender and key id each ended by a zero byte, and then the body, compressed if asked: in the clear, or as ciphertext, tag and nonce sealed under the hash of the key value, or under its first 16 bytes for AES-128 |
| `RpcFraming.BodyRoundTrip` | psrpc/src/lib.rs:164-177 | Call id, method and parameters are recovered from the unpacked body |
| `RpcFraming.RequestRoundTrip` | psrpc/src/lib.rs:139-177 | The receiver recovers sender, options with key, call id, method and parameters if and only if no name holds a zero byte |
| `RpcFraming.ParsedNamesAreNulFree` | psrpc/src/lib.rs:142-172 | No message at all is read as one whose names hold a zero byte |
| `RpcFraming.BuildReply` | psrpc/src/lib.rs:178-210 | The first 20 bytes are version 1, type 0x11 for success or 0x12 for an error, two zero bytes and the call id in little-endian order; the packed payload follows |
| `RpcFraming.ReplyRoundTrip` | psrpc/src/lib.rs:234-280 | A reply reaches the caller with its id and kind if and only if its packed payload has at least two bytes, is ignored otherwise, and its payload is recovered |
| `RpcFraming.LostRepliesAreClear` | psrpc/src/lib.rs:260-264 | A reply is too short exactly when it is not encrypted and has fewer than two bytes as compressed |
| `RpcFraming.ErrorBytes` | psrpc/src/lib.rs:473-487 | The first two bytes of an error reply are its code modulo 65536 in little-endian order, and the message follows |
| `RpcFraming.ErrorRoundTrip` | psrpc/src/lib.rs:473-487 | Error code and message, if any, are recovered from an error reply |
| `RpcCalls.RpcClient.BeginCall` | psrpc/src/lib.rs:450-451 | Issuing a call with a new id adds it to the waiting calls, which stay exactly those issued and neither answered nor given up |
| `RpcCalls.RpcClient.CancelCall` | psrpc/src/lib.rs:452-462 | Giving up a call that could not be published, even if its answer has already come, removes it alone, and the waiting calls stay exact |
| `RpcCalls.RpcClient.ProcessMessage` | psrpc/src/lib.rs:260-280 | A message answers a call exactly if it is a reply with the id of a waiting one, which then waits no more, and changes nothing otherwise; the waiting calls stay exact, and it takes one step of the history that the run results are about |
| `RpcCalls.RunMatches` | psrpc/src/lib.rs:260-280 | Over every run of calls, failed publications and messages the pending calls are exactly those neither answered nor given up, each answer is a reply with the id of its call, and an answer is never replaced |
| `RpcCalls.FirstReplyAnswers` | psrpc/src/lib.rs:260-280 | Whatever arrives before it, the first reply with the id of a pending call answers it |
| `PgMatcher.OidMatch` | eva_pg/src/lib.rs:9-49 | The loop over text gives the declarative answer: the whole-mask wildcards, the kinds, then the chunks, and the malformed texts it refuses |
| `PgMatcher.ChunksMatch` | eva_pg/src/lib.rs:36-48 | Advancing through the mask chunk by chunk decides whether the mask, with `*` read as `#` and `?` as `+`, covers the path |
| `PgMatcher.AgreesExactlyWhenAliasFree` | eva_pg/src/lib.rs:36-48 | Reading `*` and `?` as wildcards changes the answer for some path if and only if such a chunk comes before the first `#` |
| `Masks.PlainCovers` | eva/src/items.rs:1281-1324 | For a mask with neither formula nor regular expression the item tree's matching is that of literals, `+` and `#` |
| `Acl.PathMatch` | bindings/js/src/aaa.ts:341-370 | True exactly if some mask of the list matches the path |
| `Acl.MaskMatch` | bindings/js/src/aaa.ts:346-367 | The loop with its flag decides whether the chunks of one mask cover those of the path |
| `Acl.ShortcutsAreSound` | bindings/js/src/aaa.ts:342-344 | Both shortcuts at the start, a `#` in the list and the path itself in the list, are matches of a mask of the list |
| `Acl.OidMatchList` | bindings/js/src/aaa.ts:326-331 | Fails exactly if a mask other than `#` is malformed; otherwise true exactly if one mask matches the item |
| `Acl.JsReadsMask` | bindings/js/src/oid.ts:19-49 | Through the conversion of OID and mask to paths, the bindings match the kind and the chunks |
| `Acl.PgReadsMask` | eva_pg/src/lib.rs:9-49 | From the same two texts the extension matches the kind and the chunks with its own wildcards |
| `Acl.TreeReadsText` | eva/src/items.rs:1178-1324 | For `#` and for masks of literals, `+` and `#` an item is selected from the tree exactly if the extension answers true for the two texts |
| `Acl.MatchersAgreeOnText` | bindings/js/src/aaa.ts:326-370 | For every text, the bindings and the extension both refuse it or give every item the same answer, if and only if it is `#`, or has no colon and is not `*`, or has a known kind and no `*` or `?` chunk before its first `#` |
| `Acl.DisagreeingItem` | eva_pg/src/lib.rs:9-49 | For any other mask, an item the extension accepts and the bindings do not |
| `Acl.IsItemReadable` | bindings/js/src/aaa.ts:142-148 | The answer, if no malformed mask gets in the way, is readability: admin, or matched by a mask of the read or write list and by none of the denied ones |
| `Acl.AddAll` | bindings/js/src/aaa.ts:102-113 | Filling a set adds exactly the new masks, without duplicates |
| `Acl.GetItemsAllowDenyReading` | bindings/js/src/aaa.ts:102-113 | An item is readable if and only if it is on the generated allow list and not on the deny list |
| `Acl.ReadableByLists` | bindings/js/src/aaa.ts:102-148 | The same for any lists with those masks, in any order |
| `Acl.ListingIsReadable` | eva/src/items.rs:1100-1139 | Adding the two lists as include and exclude filter to any listing, whatever its masks, node filter, pattern and kinds, leaves all its readable items and no others |
| `Text.SplitJoin` | bindings/js/src/oid.ts:19-49 | Splitting a joined path gives back its chunks |
| `Text.JoinSplit` | bindings/js/src/oid.ts:19-49 | Joining the chunks of a path gives it back, and no chunk holds a separator |
| `Oids.FullIdSplits` | eva/src/items.rs:1164-1177 | Splitting the full id of an OID at the slashes gives its chunks |
| `Sequences.LaunchBatch` | eva/src/seq.rs:43-65 | All actions start before any is awaited, every one is awaited up to the first whose task cannot be joined, the result is success exactly if all succeeded, and the time taken is that of the longest action awaited |
| `Sequences.AwaitBatch` | eva/src/seq.rs:53-64 | Every action is awaited in turn up to the first whose task cannot be joined, and success means that all succeeded |
| `Sequences.LaunchActionSequence` | eva/src/seq.rs:66-94 | No action starts before every earlier delay is over and every action of every earlier entry has been awaited and has succeeded; the run gives up on time at exactly the first entry whose declared wait or delay no longer fits, and on failure at the first entry that fails, with its whole batch awaited; and if no entry takes longer than declared, it ends within the timeout |
| `Sequences.LaunchEntry` | eva/src/seq.rs:73-91 | One entry either leaves the run one entry further with its real duration added, or stops it: for lack of time exactly if what it declares no longer fits, and then nothing of it has happened |
| `Sequences.FitsMeans` | eva/src/seq.rs:73-91 | An entry fits if its delay, its single wait, or each wait of its several actions, counted from when its turn comes, ends within the timeout; an entry with no actions always does |
| `Sequences.ElapsedMeans` | eva/src/seq.rs:43-65 | An entry takes as long as its delay, as its single action, or as the slowest of several, and no time without actions |
| `Sequences.NextEntry` | eva/src/seq.rs:66-94 | One batch carries the run past its entry exactly if it succeeded, and stops it for that reason otherwise |
| `Sequences.Runner.Execute` | eva/src/seq.rs:105-143 | A sequence that may take longer than its timeout is refused without a trace; otherwise the order above holds up to its end or to where it is terminated, the verdict says which of the two and why, the abort actions run once if and only if there are any and the run did not end well, and the sequence is no longer listed as running |
| `Sequences.RunKeepsJobs` | eva/src/seq.rs:105-154 | Over every interleaving of any number of sequences, termination requests and their effects: what has happened of each is in order, a listed one is neither requested to stop nor over, and its abort actions have run once if it is over, has any and did not end well, and not at all otherwise |
| `Sequences.TerminationStops` | eva/src/seq.rs:147-154 | A request that finds its sequence listed cannot be repeated, and only a sequence so requested is ever stopped; until the request takes effect the main run may go on in order, and may even report its end; once stopped nothing further happens, once reported the outcome stays; and when it is over its abort actions have run exactly once, if there are any, unless it reported a good end |
| `IacMerge.IndexKnown` | eva-shell/eva4_shell/iac_export.py:62-68 | Indexing succeeds exactly if every existing entry has an identity and no two share one; the index then knows the place of each |
| `IacMerge.MergeValues` | eva-shell/eva4_shell/iac_export.py:62-75 | Succeeds exactly if the existing identities are unique and every exported entry has one; then each identity appears once with its last exported value or else its old one, old entries keep their places, and new ones follow in the order they were first seen |
| `IacMerge.MergeExport` | eva-shell/eva4_shell/iac_export.py:45-77 | Succeeds exactly for well-formed documents and sections, and then puts the merged list into the first node |
| `IacMerge.ReadExport` | eva-shell/eva4_shell/iac_export.py:38-44 | Accepts exactly a mapping of one supported section to a list |
| `IacMerge.IdentityMeans` | eva-shell/eva4_shell/iac_export.py:23-33 | An entry has an identity exactly if it is a mapping in which each identifying field is a scalar; the identity is their values in order |
| `IacMerge.SameIdentity` | eva-shell/eva4_shell/iac_export.py:23-33 | Two entries have the same identity if and only if they agree on every identifying field |
| `IacMerge.IdentifyingFields` | eva-shell/eva4_shell/iac_export.py:10-20 | The nine supported sections, and group and id for alarms, login for users, oid for items and video recordings, name for data objects and generator sources, id for the rest |
| `IacMerge.MergeableMeans` | eva-shell/eva4_shell/iac_export.py:45-68 | A document can be merged into exactly if it is a mapping of version 4 with a list of named nodes whose first has the section as a list with unique identities, or lacks it, and every exported entry has an identity |
| `IacMerge.DocumentMeans` | eva-shell/eva4_shell/iac_export.py:45-77 | The result is the document with the merged list as that section of its first node, a local one if there was none, and nothing else changed |
| `IacMerge.EmptyDocumentMeans` | eva-shell/eva4_shell/iac_export.py:45-48 | A missing or empty document is merged into like one of version 4 without nodes |
| `IacMerge.OthersKept` | eva-shell/eva4_shell/iac_export.py:36-77 | All other sections, nodes and fields of the document stay as they were |
| `IacMerge.MergeTwice` | eva-shell/eva4_shell/iac_export.py:36-77 | The same export can always be merged again, and changes nothing then |
| `IacMerge.MergedReplace` | eva-shell/eva4_shell/iac_export.py:69-75 | An exported entry with a known identity takes the place of that entry and disturbs nothing else |
| `IacMerge.MergedAppend` | eva-shell/eva4_shell/iac_export.py:69-75 | An exported entry with a new identity goes to the end |

## Left out

- SourceSync.Core.Synchronize: works on the three indexes as a value; that the inventory object with its trees does the same is what `AppendItem` and `RemoveItem` state.
- SourceLocks.DestroyProtocol: covers full inventory processing only; quick processing and forced acceptance of events do not take the lock. What holds in runs that are not orderly is what `DestroyedIff`, `UnmarkedUnlessPending`, `BucketChanges` and `RunKeepsLocks` state.
- Replication.ReplicaConverges: covers raw events, lvar operations and action steps; deployment copies a state and keeps its event id.
- Registries.RunPartitions: is one direction; a later append can overwrite a stale entry and so restore the partition. The exact condition is stated for a single append.
- Sequences.LaunchActionSequence: a panic of a single action ends the run like a task that cannot be joined.
- IacMerge.MergeExport: the order of keys in a Python dictionary and the equality of `1` and `True` as identities are not modelled.
- The existing item without a source inside a source's bucket (eva/src/core.rs:1811-1818) cannot happen while the indexes agree, so that branch is not in the model.
- Announcements to other nodes during inventory processing, the node map and online flags.
- Freedom from deadlock around the state processor lock, and fairness.
- Scaling a delta by a period, and the other reactions to a modified value.
- Queries over the action history (status and filter predicates), which would add easy members only.
- The bus, MQTT and PSRT clients, process launching, services and the database: input and output.
- The inner workings of AES-GCM, bzip2, MessagePack, formulas and regular expressions.
- Rounding of floating point numbers and wall-clock time.
- The shell, charts, logs, language bindings other than the matchers and access lists, and build scripts.
