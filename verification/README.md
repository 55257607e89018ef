# Verified models of the persistent-memory applications

This project states and proves what the hardest parts of the repository do: the memcached cache
engine and its connections, the slab allocator, the vacation reservation manager, the lock-free
pointer cells and arithmetic of canneal.

The imperative parts are imperative here too: items are heap objects on doubly linked lists,
buffers are arrays that are moved, doubled and cut down, the generator overwrites its state in
place. Each such method is proved against a specification on plain values, and the promises are
proved of that specification, for all inputs and all runs.

| module | what it covers |
|---|---|
| `CacheSpec`, `CacheCommands`, `CacheStore`, `CacheDelta`, `CacheNumber` | the cache as a state machine: the global invariant, lookup, eviction, the store commands against a plain map, deferred deletes, flush, incr and decr and the numbers they keep as text |
| `CacheAlloc`, `CacheJoins`, `CacheLife`, `CacheVersions` | what clients can rely on, in sizes, slices, times and versions alone: allocation and eviction, append and prepend, expiry, delete delays and touches, cas |
| `CacheRuns`, `CacheFlush`, `CacheLocks`, `CacheWitness` | whole runs, one step being one section under cache_lock: the invariant, who keeps an item, flush_all, delete locks, and runs into the states that break a promise |
| `CacheKeys`, `CacheNames` | which keys are filed apart, which are read the same every time, and when the cache is a map from key strings |
| `Cache` | the same operations on linked items, stats and the delete queue array, proved to compute those steps |
| `ConnIn` | the receive buffer through conn_read, conn_nread and conn_swallow, against a byte-at-a-time automaton |
| `ConnRequests` | requests as clients write them, and what the automaton makes of them |
| `ConnOut` | msghdr and iov building, UDP headers, partial transmission |
| `ConnDatagrams` | the client that puts the datagrams of a reply together |
| `ConnWitness` | connections on which a promise is broken |
| `Tokenizer` | in-place tokenizing of a command line, batch after batch |
| `Slabs` | free lists and bump pages per size class under a memory limit |
| `AtomicPtr` | checkout, check-in and ordered swap as interleaved atomic steps |
| `MersenneTwister` | the in-place reload against the recurrence of MT19937 (mersenne_twister_engine, section 26.5.3.2 [rand.eng.mers] of ISO/IEC 14882:2014) |
| `Netlist` | incremental swap cost against the total routing cost |
| `Vacation`, `VacationRuns` | resource tables, bookings and bills, and where the prices come from |
| `Sequences`, `Wrappers` | facts and types that several modules use |

## What is proved, in short

* **Cache.** In every run without the unsound steps named below, an item is LINKED iff the index finds
  it under its key iff it is on the list of its class, once; the lists are consistent and newest
  first; the counters are exact; a reference count is the number of references; memory is kept
  exactly while something refers to it or a reference on it was lost. A store is one step of a plain
  map, for all six commands, whatever the allocator answers, at the cost of at most one other entry.
  If touches follow their lookups, a flush is final, and a lookup returns an item exactly while it
  is linked, unlocked and before its time. A delete lock holds until one of a short list of steps.
  Appends and prepends leave their bodies in order, and a version names one entry, so a cas replaces
  what its client has seen.
* **Connection.** Whatever the pieces the bytes come in, a waiting connection has handed over
  exactly the lines and blocks they spell, and these are the requests that a client wrote. While
  memory is granted, a reply is cut into messages that carry exactly its data, and every sequence of
  partial sends puts exactly those bytes on the wire; datagrams in any order give the client the
  data back.
* **The rest.** Chunks in use never overlap; every interleaving of swaps is a sequence of atomic
  exchanges and never deadlocks; the generator follows the recurrence across reloads; the
  incremental cost is off by exactly the nets that join the two elements; resource rows balance in
  every run, and while bookings lead back to their rows a bill is the sum of current prices.

Where a property is false of the code, the code is modelled as it is, and the exact condition is
proved:

* A key files its item under the number it spells, read from a buffer of sixteen bytes without a
  terminator (`memcached-pmdk/new_assoc.cpp`). So different keys can collide, and a reading that does
  not stop inside the key runs on into whatever lies behind it. The number of a key is the same every
  time iff its reading stops inside it (`CacheKeys.ReadAloneExact`). With a byte behind that is no digit,
  sign or space, it is shared with no other key iff the key is sixteen digits, or a minus sign and
  fifteen, without a leading zero; all others share it always (`CacheKeys.KeyExact`). No key has both, so
  as the code stands no key is safe (`CacheKeys.NoKeyIsSafe`): a digit that comes to lie behind the buffer
  hides a stored key (`CacheWitness.KeyRunsOn`). Other bytes behind it are harmless iff the keys filed
  still spell their numbers (`CacheSpec.BehindExact`). Provided that no digit ever lies there, in runs
  that use only such keys the cache is a map from key strings (`CacheNames.NamedRun`,
  `CacheNames.StoreByName`).
* append and prepend keep the reference on the old item when no memory is found, so the item can
  outlive everything that knows it (`CacheWitness.Stranding`). A forgotten item is kept iff such a
  reference was lost, lost references stay lost, and there are some iff some append or prepend ran
  out of memory (`CacheRuns.KeptIffUsed`, `CacheRuns.LostForGood`).
* A touch that comes after a flush_all brings an old item back (`CacheWitness.LateTouch`); a touch is
  harmless iff it does not move an item that a lookup would no longer return
  (`CacheFlush.TouchExact`), and touches that follow their lookups never do.
* A touch does nothing within a minute of the last one, but for the server's first minute, in which the
  unsigned difference wraps and every touch counts (`CacheLife.TouchInTime`).
* A second deferred delete of one item breaks the queue (`CacheWitness.SecondDeferral`); every other
  one is sound (`CacheRuns.DeferExact`).
* incr or decr of an item that was replaced meanwhile puts a second item under the key
  (`CacheWitness.LateDelta`); it is sound iff the item is still linked or the key is free
  (`CacheDelta.DeltaExact`).
* When the stream ends while commands are read, all that the last round of reads brought is dropped, so
  a complete line can be received and never handed over (`ConnWitness.LostLine`). Whatever stops the
  machine, what was handed over is what the bytes consumed spell, and that is all iff the bytes behind
  them complete nothing; these are dropped iff the connection is given up, at the end of the stream, when
  the buffer cannot grow, or after another fault. After a failed read in conn_read they stay in the
  buffer for the next wake-up (`ConnIn.Conn.DriveMachine`). The comment above try_read_network promises a
  return of 0 only when the first read brings nothing; the code also returns 0 after data when a later
  read fails.
* add_iov ignores a failure of add_msghdr. Then a message can get more than 1024 pieces
  (`ConnWitness.OverfullMessage`), or a UDP message is opened without its header slot and the next piece,
  taken for its header, is lost although success is reported (`ConnWitness.MisplacedByte`). The messages
  keep their limits iff neither happens, and when success is reported the data is all there iff none of
  it went where a slot should be (`ConnOut.Outbox.AddIov`).
* `p.Swap(p)` never returns once the cell is checked out (`AtomicPtr.SelfSwapSpins`), which every such
  call run alone comes to (`AtomicPtr.SelfSwapReached`).
* The delta of a swap is exact iff no net joins the two elements or they share a place
  (`Netlist.DeltaExact`, `Netlist.JoinedMisjudged`).
* A booking key leads back to its row iff the id is from 0 to 99999; a reservation of another id that
  succeeds breaks the books (`Vacation.KeyRoundTrip`, `Vacation.ReserveExact`): the unit may never come
  back (`Vacation.StrayBooking`). Rows balance all the same.

## Model

| member | source | states |
|---|---|---|
| `Cache.Lru.LinkQ` | memcached-pmdk/items.c:296-312 | the new item is first, all others keep their order; prev, next, head, tail and size stay consistent and every asserted condition holds |
| `Cache.Lru.UnlinkAt` | memcached-pmdk/items.c:315-336 | exactly that item leaves the list, every asserted condition holds |
| `Cache.Engine.ItemLink` | memcached-pmdk/items.c:339-361 | the linked heap state is Link of the state before, and keeps the global invariant; the key is free when assoc_insert runs |
| `CacheSpec.LinkInv` | memcached-pmdk/items.c:339-361 | linking an item whose key is free keeps the whole invariant: lists, index, references, totals, order |
| `Cache.Engine.ItemUnlink` | memcached-pmdk/items.c:364-377 | the heap state is Unlink of the state before; the item is freed at once if nobody holds it, with all of item_free's assertions |
| `CacheSpec.UnlinkInv` | memcached-pmdk/items.c:364-377 | unlinking keeps the whole invariant and does nothing to an item that is not linked |
| `Cache.Engine.ItemFree` | memcached-pmdk/items.c:268-281 | only an unlinked, unreferenced item that is on no list is freed; nothing else changes |
| `Cache.Engine.ItemRemove` | memcached-pmdk/items.c:380-390 | giving back a reference frees the item exactly when it was the last and the item is unlinked |
| `CacheSpec.ReleaseInv` | memcached-pmdk/items.c:380-390 | giving back a held reference keeps the whole invariant |
| `Cache.Engine.ItemUpdate` | memcached-pmdk/items.c:393-403 | a linked item older than the interval (in unsigned arithmetic) moves to the front with the current time, otherwise nothing changes |
| `CacheSpec.UpdateInv` | memcached-pmdk/items.c:393-403 | a touch keeps the whole invariant, newest-first order included |
| `CacheLife.TouchInTime` | memcached-pmdk/items.c:393-403 | a touch does nothing if the item was linked or touched within the last minute and the server is a minute old; otherwise the item is first on its list with the current time |
| `Cache.Engine.ItemGet` | memcached-pmdk/items.c:532-559 | a hit returns the item with one more reference; locked, flushed, expired and missing keys return nothing, and flushed or expired items are unlinked; while touches follow their lookups an item is returned iff it was linked since the last flush_all, no delete lock on it runs and its time has not come |
| `CacheCommands.GetInv` | memcached-pmdk/items.c:532-559 | a lookup with its lazy expiry keeps the whole invariant |
| `CacheLife.LookupExact` | memcached-pmdk/items.c:532-559 | after every run in which touches follow their lookups, a lookup takes a reference on the item under the key iff it was linked since the last flush_all, is not deleted with its time to come, and has no time or one to come; an unlocked item whose time has come leaves the index |
| `Cache.Engine.ItemGetNoCheck` | memcached-pmdk/items.c:567-574 | whatever the index holds is returned with one more reference |
| `Cache.Engine.SlabsClsid` | memcached-pmdk/items.c:93-101 | the scan finds the class of the specification |
| `CacheStore.ClassFromFits` | memcached-pmdk/items.c:93-101 | the class found is the first that fits, 0 exactly if none fits |
| `Cache.Engine.ItemAlloc` | memcached-pmdk/items.c:190-265 | the result and the heap state are those of Alloc for any answers of the allocator, and the invariant holds even if the retry fails; class, fields and eviction are as AllocExact says |
| `Cache.Engine.FindVictim` | memcached-pmdk/items.c:226-236 | the walk along prev pointers finds the victim of the specification |
| `CacheStore.VictimExact` | memcached-pmdk/items.c:226-236 | the victim is the unreferenced item nearest the tail within 50 steps; none is found exactly if all of those are referenced |
| `CacheStore.EvictsOldest` | memcached-pmdk/items.c:226-236 | no unreferenced item of the class has an older time than the victim |
| `CacheStore.AllocInv` | memcached-pmdk/items.c:205-240 | allocation keeps the whole invariant, also when it evicts and then fails |
| `CacheStore.AllocEvictsOne` | memcached-pmdk/items.c:226-236 | allocation loses at most one key, that of an item nobody holds |
| `CacheStore.AllocEffect` | memcached-pmdk/items.c:205-265 | a held item survives untouched; the map loses just what was evicted; a new item is fresh, of the class of its size, and held once |
| `CacheAlloc.AllocExact` | memcached-pmdk/items.c:197-246 | the new item is of the least class whose chunks hold its size and carries what was asked for; there is one iff some class fits and the first attempt, or with eviction on and that class in use the second, brings memory; an item leaves the index iff the first attempt failed, eviction is on and it is, on the list of that class, the one nobody holds nearest the tail; if no class fits nothing changes |
| `CacheNumber.ItemSize` | memcached-pmdk/items.c:181-186 | the size is that of header, key with its zero, the text of flags and length, and data |
| `CacheStore.SwapEffect` | memcached-pmdk/items.c:406-411 | replacing an item stores the new entry under its key with a new version, changes no other key, and gives back one reference on the old one |
| `Cache.Engine.StoreItem` | memcached-pmdk/memcached.c:819-917 | the code returned and the heap state are those of Store; data joined is the old and the new in order, less the line break between them |
| `CacheStore.StoreExact` | memcached-pmdk/memcached.c:819-917 | a store equals one step of a plain map for add, set, replace, append, prepend and cas: code, data, delete-lock rules; append leaves the old data less its line break followed by the new, prepend the new less its line break followed by the old; it keeps the invariant and the references of all connections, and loses one, on the old item, exactly when append or prepend finds no memory |
| `CacheJoins.JoinedRun` | memcached-pmdk/memcached.c:862-893 | over every run whose other steps leave the entry's data alone, appends and prepends leave the prepended bodies, latest first, the first body, the appended bodies in order, and one line break |
| `CacheLife.AddTouches` | memcached-pmdk/memcached.c:831-836 | an add that meets a live entry stores nothing and brings it to the front of its list, unless it was touched within the last minute |
| `CacheStore.StoreCostsOne` | memcached-pmdk/memcached.c:819-917 | a store takes at most one other entry with it: its own expired one, or one evicted that nobody held |
| `Cache.Engine.FlushOne` | memcached-pmdk/items.c:583-599 | the walk over one list, which stops at the first older item, unlinks what the specification does |
| `Cache.Engine.ItemFlushExpired` | memcached-pmdk/items.c:578-601 | all lists are flushed, in heap and specification alike |
| `CacheCommands.FlushClassExact` | memcached-pmdk/items.c:583-599 | because the list is newest first, stopping early still unlinks exactly the items of the class with time >= oldest_live |
| `CacheCommands.FlushExact` | memcached-pmdk/items.c:578-601 | after the flush the index holds exactly the items with time < oldest_live; no surviving item is changed |
| `Cache.Engine.FlushAllNow` | memcached-pmdk/memcached.c:1793-1797 | an immediate flush_all is FlushAll of the state before |
| `Cache.DeleteQueue.DeferDelete` | memcached-pmdk/memcached.c:1628-1651 | the entry is appended, flagged and owns the caller's reference; if the array cannot grow the reference is given back; the invariant survives iff no item is entered twice |
| `CacheCommands.DeferInv` | memcached-pmdk/memcached.c:1628-1651 | deferring an item not yet in the queue keeps the whole invariant |
| `CacheLife.DelayedDelete` | memcached-pmdk/memcached.c:143-161 | a delete with a delay, of seconds up to thirty days or of a date above, locks its key up to exactly then; the first lookup after it drops the key |
| `CacheRuns.DeferExact` | memcached-pmdk/memcached.c:1628-1651 | deferring is sound iff the item is not already ITEM_DELETED |
| `Cache.DeleteQueue.RunDeferredDeletes` | memcached-pmdk/memcached.c:2648-2664 | the in-place compaction leaves the array holding the queue of the specification after the sweep |
| `CacheCommands.SweepQueue` | memcached-pmdk/memcached.c:2648-2664 | the sweep keeps exactly the still-locked entries, in order, changes no other reference, and keeps the invariant |
| `CacheCommands.SweepItems` | memcached-pmdk/memcached.c:2648-2664 | an entry whose lock is over is unlinked and freed unless another reference is left; every other item is untouched |
| `CacheLife.SweepExact` | memcached-pmdk/memcached.c:2648-2664 | exactly the deleted items whose time has come leave queue and index; every other item stays as it is |
| `CacheRuns.NextInv` | memcached-pmdk/thread.c:369-497 | every section under cache_lock keeps the whole invariant: get, alloc, store, add_delta, unlink, remove, update, defer, sweep and flush, with the writes to an unlinked item, and changes behind the key buffer that leave the filed keys their numbers, in between |
| `CacheRuns.RunInv` | memcached-pmdk/thread.c:369-497 | so does every run, however the sections of different threads interleave |
| `CacheRuns.InitialInv` | memcached-pmdk/items.c:60-71 | the empty cache satisfies the invariant |
| `CacheRuns.KeptIffUsed` | memcached-pmdk/items.c:364-390 | after every run an item's memory is kept iff the index, a connection or the delete queue has it or a reference on it was lost; an item that none of these knows is kept iff one was lost |
| `CacheRuns.NextLost` | memcached-pmdk/memcached.c:876-879 | a step loses one reference if it is an append or prepend that runs out of memory, otherwise none |
| `CacheRuns.LostForGood` | memcached-pmdk/memcached.c:876-879 | over every run lost references only grow, and stay the same iff no append or prepend ran out of memory |
| `CacheFlush.FlushIsFinal` | memcached-pmdk/items.c:544-548 | if every touch is of an item that some lookup has returned since the last flush_all, no run returns an item that was linked before it |
| `CacheFlush.FlushIsFinalFromStart` | memcached-pmdk/items.c:544-548 | the same for every run from the empty cache |
| `CacheFlush.TouchExact` | memcached-pmdk/items.c:393-403 | a touch keeps that promise iff it does not move an item that lookups treat as flushed |
| `CacheFlush.NextSafe` | memcached-pmdk/items.c:544-548 | after every step exactly the items linked before the last flush_all count as flushed, and none that a lookup has returned since |
| `CacheLocks.LockLasts` | memcached-pmdk/items.c:525-543 | a delete-locked item keeps its key and lock through a step iff it is none of: the end of the lock, a flush_all that reaches its time, a direct unlink of it, set, a matching cas, an incr or decr that outgrows it |
| `CacheLocks.LockedRun` | memcached-pmdk/items.c:525-543 | throughout a run no lookup returns anything under the key and the lock stays iff the run has no such step |
| `CacheKeys.KeyExact` | memcached-pmdk/new_assoc.cpp:60-65 | with a byte behind the buffer that is no digit, sign or space, a key of sixteen bytes shares its number with no other iff it is digits without a leading zero, after at most a minus sign; any other key shares it whatever lies behind |
| `CacheKeys.ReadAloneExact` | memcached-pmdk/new_assoc.cpp:60-65 | the number of a key is the same whatever lies behind the buffer iff some character inside it ends the reading |
| `CacheKeys.NoKeyIsSafe` | memcached-pmdk/new_assoc.cpp:60-65 | the number of every key depends on what lies behind the buffer, or is shared with another key whatever lies there |
| `CacheSpec.BehindExact` | memcached-pmdk/new_assoc.cpp:60-65 | other bytes behind the buffer leave the invariant intact iff every filed key still spells its number |
| `Cache.Engine.Disturb` | memcached-pmdk/new_assoc.cpp:60-65 | the same for the linked items |
| `CacheKeys.KeysMixedUp` | memcached-pmdk/new_assoc.cpp:60-65 | two different keys of sixteen bytes that are filed under the same number, whatever lies behind the buffer |
| `CacheKeys.AtolSpells` | memcached-pmdk/new_assoc.cpp:60-65 | spaces, a sign or none, digits and anything that is no digit spell the digits with their places, less than zero after a minus sign |
| `CacheNames.HitIsExact` | memcached-pmdk/new_assoc.cpp:68-77 | with no digit behind the buffer, among unambiguous keys whatever a lookup finds has the very key looked up |
| `CacheNames.NamedRun` | memcached-pmdk/new_assoc.cpp:68-77 | that holds after every run whose requests name only unambiguous keys and in which no digit comes to lie behind the buffer |
| `CacheNames.BehindAllowed` | memcached-pmdk/new_assoc.cpp:60-65 | in such runs every change behind the buffer that brings no digit is harmless |
| `CacheNames.StoreByName` | memcached-pmdk/memcached.c:819-917 | in such a state do_store_item is one step of a plain map from key strings to entries |
| `CacheNames.JoinByName` | memcached-pmdk/memcached.c:862-893 | by key string too, data joined is the old and the new in order, less the line break between them |
| `CacheDelta.DeltaExact` | memcached-pmdk/memcached.c:1522-1561 | incr or decr keeps the invariant iff the number fits its item, or no memory is found, or the item is still linked, or its key is free |
| `CacheDelta.DeltaEffect` | memcached-pmdk/memcached.c:1539-1558 | the entry's data becomes the text given under the same flags and expiry, in place with its old version or in a new item with a new one; no other entry changes but at most what allocation evicts |
| `CacheNumber.DeltaCounts` | memcached-pmdk/memcached.c:1523-1561 | incr or decr of a linked item leaves under its key the old number plus the delta modulo 2^64, or less it and not below 0, readable as such, blanks included |
| `CacheNumber.TextsCount` | memcached-pmdk/memcached.c:1531-1558 | any sequence of incr and decr on the text equals the same sequence on the number, and none is refused once the first could be read |
| `CacheNumber.IncrementsAddUp` | memcached-pmdk/memcached.c:1537-1543 | any sequence of increments adds their sum modulo 2^64 |
| `CacheNumber.DecrementsStopAtZero` | memcached-pmdk/memcached.c:1537-1543 | any sequence of non-negative decrements leaves the value less their sum, or 0 if that is less |
| `CacheNumber.DecimalIs` | memcached-pmdk/memcached.c:1543-1543 | the text written is the usual notation: digits with their places and no leading zero |
| `Cache.Engine.AddDelta` | memcached-pmdk/memcached.c:1539-1561 | both paths on the heap equal Delta, for every held item; the invariant survives iff the number fits, no memory is found, the item is still linked or its key is free |
| `Cache.Engine.ChangeNumber` | memcached-pmdk/memcached.c:1523-1561 | the number is read from the item, changed and written as text; one out of range is refused and nothing changes |
| `Cache.Engine.StampItem` | memcached-pmdk/memcached.c:1450-1451 | the version a cas command names is written into the item to be stored |
| `CacheVersions.VersionNamesEntry` | memcached-pmdk/memcached.c:846-860 | after any run an entry with a version that an entry had before it is the same item under the same key and flags, with the same data unless incr or decr wrote over it |
| `CacheVersions.StoreIsNew` | memcached-pmdk/items.c:339-361 | a store that succeeds leaves a version above all that entries had before |
| `CacheVersions.InitialVersioned` | memcached-pmdk/items.c:60-71 | the empty cache is a state from which both hold |
| `CacheWitness.SecondDeferral` | memcached-pmdk/memcached.c:1628-1651 | a run from the empty cache into a state where an item already in the delete queue may be entered again |
| `CacheWitness.LateTouch` | memcached-pmdk/items.c:393-403 | a run in which a touch after flush_all makes a lookup return an item linked before it |
| `CacheWitness.Stranding` | memcached-pmdk/memcached.c:876-879 | a run after which an item is kept that neither the index nor a connection nor the queue knows |
| `CacheWitness.LateDelta` | memcached-pmdk/memcached.c:1539-1553 | a run into a state where incr would put a second item under a key |
| `CacheWitness.MatchingCas` | memcached-pmdk/memcached.c:846-860 | a run into a state where a cas that names the right version takes back a delete-locked key |
| `CacheWitness.KeyRunsOn` | memcached-pmdk/new_assoc.cpp:60-65 | a run into a state where a digit behind the buffer would hide a stored key |
| `ConnIn.Conn.TryReadCommand` | memcached-pmdk/memcached.c:1860-1896 | the bytes up to the first newline of the buffer, less a carriage return at their end that is not all of them, are handed over and consumed with it; without a newline nothing changes; the connection stays in step with the byte automaton |
| `ConnIn.Conn.Terminate` | memcached-pmdk/memcached.c:1874-1878 | the line is the bytes up to its end, less a carriage return that is not all of them; the zero byte ends it and touches nothing behind it |
| `ConnIn.Conn.ReadAll` | memcached-pmdk/memcached.c:1949-1998 | moving, doubling and filling the buffer append exactly the bytes read, inside the buffer: all that come before a read brings none, unless the buffer cannot grow |
| `ConnIn.Conn.TryReadNetwork` | memcached-pmdk/memcached.c:1943-1999 | unless memory is refused all that comes before a read brings nothing is received, and the connection closes iff that read is the end of the stream; received bytes stay consumed ++ buffered until it is given up; after the call all that the bytes spell was handed over iff the bytes read in it hold no newline |
| `ConnIn.Conn.ConnShrink` | memcached-pmdk/memcached.c:498-518 | a buffer over 8192 bytes with less than 2048 in it is cut to 2048 exactly if memory is granted; the buffered bytes are the same |
| `ConnIn.Conn.StepNRead` | memcached-pmdk/memcached.c:2174-2235 | bytes reach the item from the buffer first and the socket second, in order, and the block is handed over when complete |
| `ConnIn.Conn.StepSwallow` | memcached-pmdk/memcached.c:2237-2282 | exactly the announced bytes are thrown away |
| `ConnIn.Conn.DriveMachine` | memcached-pmdk/memcached.c:2148-2282 | when the machine waits for input, the lines and blocks handed over are a function of the bytes received, however read() chopped them; without a fault, only a reply that would block or a quit stops it otherwise; whatever stops it, what was handed over is what the bytes consumed spell, all there is iff the rest completes nothing; the rest is in the buffer until the connection is given up, and that is final; a stream that ends while commands are read loses a command iff a newline is among its last bytes; each wake-up ends |
| `ConnIn.EventsGrow` | memcached-pmdk/memcached.c:2148-2282 | more bytes never take back a line or block |
| `ConnRequests.CommandRead` | memcached-pmdk/memcached.c:1871-1884 | at the start of a line any non-empty word with carriage return and newline is handed over as exactly that word |
| `ConnRequests.PlainCommandRead` | memcached-pmdk/memcached.c:1871-1884 | so is a word, or nothing, with a newline alone, unless it ends in a carriage return |
| `ConnRequests.ReturnRead` | memcached-pmdk/memcached.c:1874-1878 | a carriage return that is the whole line stays |
| `ConnRequests.RequestsRead` | memcached-pmdk/memcached.c:2148-2282 | for every list of requests, each a command line and the bytes it announces, what is handed over is exactly the lines and the blocks expected, in order |
| `ConnRequests.WordsRead` | memcached-pmdk/memcached.c:1860-1896 | the words of any list, each with carriage return and newline, come back as exactly those lines |
| `ConnIn.DataGoesOn` | memcached-pmdk/memcached.c:2189-2214 | feeding any stretch of a block at once equals feeding it byte by byte |
| `ConnIn.SkipGoesOn` | memcached-pmdk/memcached.c:2247-2262 | the same for bytes to be thrown away |
| `ConnIn.NewlineBringsEvent` | memcached-pmdk/memcached.c:1871-1884 | inside a line, more bytes bring an event iff a newline is among them |
| `ConnIn.SilentExact` | memcached-pmdk/memcached.c:2148-2282 | in every mode more bytes bring an event iff they complete a line or a block |
| `ConnWitness.LostLine` | memcached-pmdk/memcached.c:1988-1992 | a complete line followed by the end of the stream is received and never handed over |
| `ConnOut.Outbox.EnsureIovSpace` | memcached-pmdk/memcached.c:629-651 | the list doubles when full and every header points at its own pieces in the new list; if memory is refused nothing changes |
| `ConnOut.Outbox.AddMsghdr` | memcached-pmdk/memcached.c:216-252 | an empty message is opened at the end, for UDP with an eight-byte header slot; if memory is refused there is no new message, or a UDP message without its slot, and exactly then the reply is broken |
| `ConnOut.Outbox.AddIov` | memcached-pmdk/memcached.c:658-706 | the messages partition the list without gaps; datagrams of at most 1400 bytes led by a header slot, a first TCP message of at most 1400 bytes and none over 1024 pieces stay so iff no piece goes on a message of 1024 and none is opened without its slot; when success is reported the messages carry exactly the old data followed by the new iff no byte went where a slot should be; sizes hold always |
| `ConnOut.Outbox.AddPiece` | memcached-pmdk/memcached.c:665-703 | one turn of the loop, with the same two conditions: which message it opens for every answer of the allocator, and how much of the data goes into the last one |
| `ConnWitness.OverfullMessage` | memcached-pmdk/memcached.c:676-679 | a reply whose one message gets piece 1025 after a refusal, with success reported |
| `ConnWitness.MisplacedByte` | memcached-pmdk/memcached.c:676-679 | a UDP reply whose second lot of data is accepted and lost |
| `ConnOut.LayoutExtend` | memcached-pmdk/memcached.c:692-699 | writing a piece behind the last message keeps the partition |
| `ConnOut.Outbox.BuildUdpHeaders` | memcached-pmdk/memcached.c:712-746 | the first piece of each message becomes the header of its own datagram: request, number and count in two bytes each and two zero bytes, also where the slot was refused (messages are never empty while add_iov reports success); layout and the data behind the first pieces stay; if memory is refused nothing changes |
| `ConnOut.Header` | memcached-pmdk/memcached.c:734-741 | eight bytes below 256, from which request, number and count below 65536 can be read back |
| `ConnDatagrams.ReplyRead` | memcached-pmdk/memcached.c:712-746 | a client that gets the datagrams of a built reply in any order sees from their counts that it has them all, and their bodies by number are the data of the reply |
| `ConnOut.Outbox.BuiltSends` | memcached-pmdk/memcached.c:2303-2307 | a finished reply can be sent, and what remains to be sent is all of it, for TCP exactly the appended data |
| `ConnOut.Outbox.Transmit` | memcached-pmdk/memcached.c:2045-2101 | for any answer of sendmsg, sent ++ remaining is unchanged; complete is answered iff no message is left, and then nothing remains |
| `ConnOut.Outbox.SendSome` | memcached-pmdk/memcached.c:2063-2077 | exactly the bytes the kernel took leave the front of the message, finished pieces and part of the next one |
| `ConnOut.Outbox.SendReply` | memcached-pmdk/memcached.c:2303-2350 | for every sequence of partial sends, a completed reply has put exactly its bytes on the wire |
| `ConnOut.WireIsPayload` | memcached-pmdk/memcached.c:2045-2101 | for TCP what goes out is the appended data |
| `Tokenizer.TokenizeCommand` | memcached-pmdk/memcached.c:948-984 | the tokens are the first words of the command, and the remainder starts where the next batch must start |
| `Tokenizer.TokenizeAll` | memcached-pmdk/memcached.c:1233-1342 | batch after batch the tokens are exactly the split of the whole string, in order, for any batch size of at least two |
| `Tokenizer.SplitOfJoined` | memcached-pmdk/memcached.c:948-984 | splitting undoes joining with spaces, for every list of words |
| `Tokenizer.SplitAtSpace` | memcached-pmdk/memcached.c:948-984 | splitting goes part by part at every space, so runs of spaces separate like one |
| `Tokenizer.SplitGivesWords` | memcached-pmdk/memcached.c:948-984 | only non-empty words without spaces come out |
| `Slabs.Allocator.constructor` | memcached-pmdk/slabs.c:93-121 | each chunk size is that of the class before it times the factor, rounded up to whole words, the first that of an item and the least chunk; the last, after half a block, is one block; as many chunks as go into a block; nothing is in use |
| `Slabs.Allocator.ChunkSizes` | memcached-pmdk/slabs.c:93-121 | the loop that computes these sizes |
| `Slabs.Allocator.SlabsClsid` | memcached-pmdk/slabs.c:78-87 | the smallest class that fits; 0 iff the size is 0 or over one block |
| `Slabs.Allocator.NewSlab` | memcached-pmdk/slabs.c:179-208 | a slab is added iff memory is there and the limit allows it or the class has none yet |
| `Slabs.Allocator.SlabsAlloc` | memcached-pmdk/slabs.c:213-274 | the chunk is of the smallest fitting class and was in use by nobody: the latest freed, else the tail, else a new slab; it fails iff none of these is to be had, and then changes nothing |
| `Slabs.Allocator.SlabsFree` | memcached-pmdk/slabs.c:277-304 | the chunk leaves the set in use and is the next to be handed out; if the free list cannot grow it is dropped and stays in use for good; the partition holds |
| `Slabs.LastFreedFirst` | memcached-pmdk/slabs.c:256-304 | a chunk given back is the next to be handed out, whatever the limit, and leaves the class as it was |
| `Slabs.LiveApart` | memcached-pmdk/slabs.c:213-304 | two chunks in use never overlap, within or across classes |
| `Slabs.BumpPartitioned` | memcached-pmdk/slabs.c:262-271 | handing out the tail's first chunk keeps in-use chunks, free slots and tail a partition of all chunks |
| `Slabs.GrownPartitioned` | memcached-pmdk/slabs.c:179-208 | so does adding a slab |
| `Slabs.NewSlabOk` | memcached-pmdk/slabs.c:187-206 | with a limit, memory taken stays within it plus 1MB per class that owns a slab |
| `Slabs.Purge` | memcached-pmdk/slabs.c:389-398 | the in-place purge keeps exactly the free slots outside the slab, as a multiset |
| `Slabs.ShedPartitioned` | memcached-pmdk/slabs.c:402-404 | a class that gives up a slab with no chunk in use, its free list purged, stays partitioned |
| `Slabs.MoveSound` | memcached-pmdk/slabs.c:402-408 | after the move of that slab all classes are partitioned and apart, the slab being the tail of the second, so chunks in use still never overlap; the memory owned changes by the difference of the two slab lengths |
| `AtomicPtr.StepRefines` | Immutable-Datastructure-c++/canneal/AtomicPtr.h:123-158 | each atomic step of any thread is one event on plain cells; the compare-and-set on the higher cell is the exchange, all other steps change nothing |
| `AtomicPtr.SetExchanges` | Immutable-Datastructure-c++/canneal/AtomicPtr.h:241-242 | the linearization point: setting the higher cell exchanges both cells at once |
| `AtomicPtr.RunRefines` | Immutable-Datastructure-c++/canneal/AtomicPtr.h:191-298 | every interleaving of any number of threads and cells replays as its sequence of atomic exchanges, and every value read is the one a plain cell holds |
| `AtomicPtr.RunPhases` | Immutable-Datastructure-c++/canneal/AtomicPtr.h:226-276 | per thread, a successful swap contributes exactly one exchange between call and return, a failed TrySwap none |
| `AtomicPtr.QuiescentPermutes` | Immutable-Datastructure-c++/canneal/AtomicPtr.h:226-276 | with no operation under way every cell is full and the contents are a permutation of the initial ones |
| `AtomicPtr.StartIsSound` | Immutable-Datastructure-c++/canneal/AtomicPtr.h:191-298 | full cells and idle threads are a state in which every run may start |
| `AtomicPtr.NoDeadlock` | Immutable-Datastructure-c++/canneal/AtomicPtr.h:226-243 | while any operation is unfinished, some thread run alone completes its own within six steps |
| `AtomicPtr.AloneSucceeds` | Immutable-Datastructure-c++/canneal/AtomicPtr.h:226-274 | run alone on two different full cells, Swap and TrySwap exchange them and return true, with one exchange |
| `AtomicPtr.SelfSwapSpins` | Immutable-Datastructure-c++/canneal/AtomicPtr.h:226-243 | a cell swapped with itself, once checked out, is waited for forever |
| `AtomicPtr.SelfSwapReached` | Immutable-Datastructure-c++/canneal/AtomicPtr.h:226-243 | from every state without pending operations, for every thread and cell, a self swap comes to that in three steps |
| `MersenneTwister.MTRand.Initialize` | Immutable-Datastructure-c++/canneal/MersenneTwister.h:283-298 | the state holds the seeded words |
| `MersenneTwister.SecondWord` | Immutable-Datastructure-c++/canneal/MersenneTwister.h:283-298 | the second word of seed 5489 is 1301868182 |
| `MersenneTwister.ThirdWord` | Immutable-Datastructure-c++/canneal/MersenneTwister.h:283-298 | the third is 2938499221 |
| `MersenneTwister.MTRand.Reload` | Immutable-Datastructure-c++/canneal/MersenneTwister.h:301-314 | overwriting in place in three phases yields the next 624 terms of the recurrence |
| `MersenneTwister.MTRand.RandInt` | Immutable-Datastructure-c++/canneal/MersenneTwister.h:179-193 | number n after seeding is the tempering of term 624 + n |
| `MersenneTwister.MTRand.Draw` | Immutable-Datastructure-c++/canneal/MersenneTwister.h:179-193 | the same for any number of draws across any number of reloads |
| `MersenneTwister.XNarrow` | Immutable-Datastructure-c++/canneal/MersenneTwister.h:126-132 | from words of 32 bits only terms of 32 bits come, although the words are 64 bits wide |
| `MersenneTwister.TwistLinear` | Immutable-Datastructure-c++/canneal/MersenneTwister.h:126-132 | the recurrence is linear over exclusive or |
| `MersenneTwister.TwistBits` | Immutable-Datastructure-c++/canneal/MersenneTwister.h:126-132 | what it makes of each bit of the three words, the constant of the standard included |
| `MersenneTwister.TemperLinear` | Immutable-Datastructure-c++/canneal/MersenneTwister.h:179-193 | tempering is linear over exclusive or |
| `MersenneTwister.TemperLowBits` | Immutable-Datastructure-c++/canneal/MersenneTwister.h:179-193 | what tempering makes of each of the lower sixteen bits |
| `MersenneTwister.TemperHighBits` | Immutable-Datastructure-c++/canneal/MersenneTwister.h:179-193 | and of each of the upper sixteen |
| `MersenneTwister.DrawNarrow` | Immutable-Datastructure-c++/canneal/MersenneTwister.h:179-193 | every number of a seeded stream lies in [0, 2^32 - 1] |
| `MersenneTwister.MTRand.SeedAndDraw` | Immutable-Datastructure-c++/canneal/MersenneTwister.h:179-221 | a generator seeded and drawn from yields the tempered terms of the seed's recurrence, each of 32 bits |
| `MersenneTwister.MTRand.Load` | Immutable-Datastructure-c++/canneal/MersenneTwister.h:353-361 | loading what describes number n of a stream puts any generator there |
| `MersenneTwister.SaveThenLoad` | Immutable-Datastructure-c++/canneal/MersenneTwister.h:343-361 | after save and load, at any position, both generators yield the same numbers, for any count |
| `Netlist.RoutingCostGivenLoc` | Immutable-Datastructure-c++/canneal/netlist_elem.cpp:50-70 | the loops sum the distances to all fanins and fanouts |
| `Netlist.NoShorterWalk` | Immutable-Datastructure-c++/canneal/netlist_elem.cpp:50-70 | no walk along the grid is shorter than the distance used |
| `Netlist.ShortestWalk` | Immutable-Datastructure-c++/canneal/netlist_elem.cpp:50-70 | and some walk is as short |
| `Netlist.SwapCost` | Immutable-Datastructure-c++/canneal/netlist_elem.cpp:74-98 | the loops sum new minus old distances |
| `Netlist.TotalRoutingCost` | Immutable-Datastructure-c++/canneal/netlist.cpp:51-59 | half the sum over named elements |
| `Netlist.DeltaExact` | Immutable-Datastructure-c++/canneal/annealer_thread.cpp:118-127 | the delta is the change of the total less 2 * m * dist for the m nets that join the two, so exact iff m or the distance is 0 |
| `Netlist.JoinedMisjudged` | Immutable-Datastructure-c++/canneal/annealer_thread.cpp:118-127 | two elements joined by a net whose exchange changes nothing and is computed as a gain of 2 |
| `Netlist.CalculateDeltaRoutingCost` | Immutable-Datastructure-c++/canneal/annealer_thread.cpp:118-127 | the computed delta has that value on every consistent snapshot |
| `Vacation.KeyRoundTrip` | vacation-pmdk/customer.cpp:8-10 | kind and id are recovered from the 64-bit key iff the id is from 0 to 99999 |
| `Vacation.AddReservationInv` | vacation-pmdk/manager.cpp:120-150 | adding or removing units keeps every row balanced and never empty, and never deletes a row in use |
| `Vacation.DeleteFlightInv` | vacation-pmdk/manager.cpp:187-193 | deleting a flight keeps the invariant |
| `Vacation.EraseInv` | vacation-pmdk/manager.cpp:104-107 | a row that is deleted is held by no customer |
| `Vacation.ReserveInv` | vacation-pmdk/manager.cpp:207-223 | a reservation keeps used equal to holders plus duplicates dropped |
| `Vacation.ReserveExact` | vacation-pmdk/manager.cpp:207-223 | for every id, a reservation keeps the invariant iff the customer, the row or a free unit is missing or the key leads back to the row |
| `Vacation.CancelInv` | vacation-pmdk/manager.cpp:109-118 | a booking always finds its row with a unit in use, and cancelling keeps the invariant |
| `Vacation.Manager.Supply` | vacation-pmdk/manager.cpp:120-150 | units are accepted iff no more are taken away than are free, or for a new row at least one at a price; the row then has that many more, and goes exactly when none are left; rows stay balanced, and the invariant holds if it did |
| `Vacation.Manager.WithdrawFlight` | vacation-pmdk/manager.cpp:187-193 | the flight goes exactly if it is there and unused; the invariant holds if it did |
| `Vacation.Manager.MakeBooking` | vacation-pmdk/manager.cpp:207-223 | a unit moves from free to used iff one is free and the customer exists, also for a booking already held; rows stay balanced; the invariant survives iff it fails or the id is from 0 to 99999 |
| `Vacation.Manager.CancelReservation` | vacation-pmdk/manager.cpp:109-118 | one unit moves back, or the error is reported and nothing changes |
| `Vacation.Manager.RemoveCustomer` | vacation-pmdk/manager.cpp:241-253 | every key visited gives one unit back to the row it leads to, or is reported; all are visited unless one is of no known kind; no other row changes; under the invariant every row held gets its unit back and no error is reported |
| `Vacation.LeaveInv` | vacation-pmdk/customer.cpp:91-98 | a customer gone, with one unit back for each row held, keeps the invariant |
| `Vacation.Manager.QueryCustomerBill` | vacation-pmdk/manager.cpp:255-261 | the sum of the prices noted, under the invariant the current prices of the rows held; -1 for an unknown customer |
| `Vacation.Manager.Execute` | vacation-pmdk/manager.cpp:167-253 | after every sequence of operations, each of which happens as specified, every row balances; if no booking succeeded for an id its key does not lead back to, the invariant holds and "No such reservation found" was never reported |
| `VacationRuns.RowHistory` | vacation-pmdk/manager.cpp:120-150 | over every run a row has the price given to the Add that made it, and as many units as were accepted since |
| `VacationRuns.BookingPrice` | vacation-pmdk/manager.cpp:207-223 | so a customer is charged, for every booking, the price given when the row booked was made |
| `Vacation.StrayBooking` | vacation-pmdk/customer.cpp:20-48 | car 100000 booked and given up: the error is reported and the car stays in use |

## Left out

- Cache.Engine.ItemUpdate: an item's fields other than its list links and the SLABBED flag are kept in one record that is replaced as a whole, so no update is torn.
- Cache.Lru.LinkQ: the arrays heads, tails and sizes are one list object per class.
- Cache.Engine.ItemAlloc: the persistent allocator answers a fresh object or nothing, by parameter; the suffix text is represented by the flags it spells; the eviction counter is not kept.
- Cache.Engine.ChangeNumber: an ERANGE left in errno by an earlier call is not modelled.
- Cache.Engine.FlushAllNow: setting oldest_live and the flush are one step, although the source sets it before it takes cache_lock.
- CacheSpec.BehindExact: within one section under cache_lock the bytes behind the key buffer are the same at every reading; they change between sections. A number of more than 64 bits wraps.
- CacheFlush.FlushIsFinal: a flush_all while the clock is below 2, where oldest_live becomes 0 or wraps, is left out of these runs; the invariant holds through it.
- Reference counts, version numbers, totals and sizes are unbounded; only times wrap at 32 bits.
- Delayed flush_all, cache dumps and statistics.
- The early error returns of the get command, which drop references.
- ConnIn.Conn.DriveMachine: the command layer is any function of what was handed over so far, with lengths that are not negative; answers of read(), memory and event requests are scripts; sending the reply is one step here and is covered by `ConnOut`; UDP input is left out.
- ConnIn.Conn.StepNRead: the item's data is a growing sequence.
- ConnOut.Outbox.AddIov: the list of headers is a sequence with a capacity; the eight-byte slot is added directly, since it always fits an empty message.
- ConnOut.Outbox.Transmit: the change of connection state after an error is not modelled.
- Slabs.Allocator.SlabsAlloc: the memory reserved for a slab, if any, is a parameter and meets no slab; a list of slabs that cannot grow counts as no memory.
- Slabs.Allocator.constructor: preallocation and the faked start value are left out.
- Slabs.MoveSound: the loop that unlinks the items of the slab, and the accounting in whole blocks that builds with slab reassignment use.
- AtomicPtr steps are sequentially consistent; Set, TrySet and lone checkouts by a client are not part of the runs.
- MersenneTwister.MTRand.Initialize: seeding from arrays and clocks, bounded and floating-point draws are left out.
- Netlist.SwapCost: coordinates are integers and costs exact; whole annealing runs are left out.
- Vacation.Manager.RemoveCustomer: which keys the hash map still visits after one of no known kind is left open; rows and booking lists are values in maps, so aliasing between handles is not captured.
- The hash map, persistent pools, transactions, crash recovery and the immer containers: maps and sequences stand for them.
- The twin memcached copy, benchmarks and clients.
