# gamesvr: a verified model

A Dafny model of the parts of the game server where a mistake would be silent: the
shared-memory message pipe, the sessions that read and write player data optimistically, the
object pools behind sessions and timers and their survival across a restart, the gold ledger,
and the two codecs.  Classes and loops follow the C++ code; each method is proved against a
function of the old state, and the lemmas say what those functions guarantee over whole runs.

| file | contents |
|---|---|
| `shared.dfy` | an option type and a search, used by several modules |
| `ring.dfy` | little-endian lengths, frames, circular indices in 32-bit arithmetic |
| `shm_pipe.dfy` | class `ShmPipe`: ring buffer with split copies, refining a bounded queue |
| `pipe_capacity.dfy` | how many equal messages fit |
| `pipe_protocol.dfy` | one producer and one consumer, interleaved at every load and store, with crashes |
| `pipe_progress.dfy` | what becomes of one poll and of one offer, while the other side does anything |
| `session.dfy` | a session's query keys and player data |
| `message_base.dfy` | parsing replies, building query and save requests |
| `message_handler.dfy` | the session state machine with redo |
| `arrival.dfy` | the order in which the replies to a session's queries arrive |
| `dispatch.dfy` | one call of the state machine without its loop: handlers, answers, queries, saves, the next uid |
| `session_course.dfy` | a session from its queries to its logic, and through the list of its uids |
| `redo.dfy` | what a rerun sees after a conflict, and which events are posted |
| `kv_store.dfy` | the store process: versions compared, then all keys written or none |
| `store_protocol.dfy` | any number of sessions and the store over a network that loses and reorders |
| `store_results.dfy` | acknowledged saves count exactly once; the stored value is their fold |
| `update.dfy` | one update from end to end, alone and in a race, and when a save is accepted |
| `id_pool.dfy`, `object_manager.dfy` | pool, free list, used set and id index, as a value and as a class |
| `id_leak.dfy` | when an id search can fail at all |
| `serialize.dfy`, `session_manager.dfy` | flat-buffer codec, session creation, timeouts, save and restore |
| `timer_manager.dfy` | timers, ticks, runs of ticks |
| `ledger.dfy` | the account operations with 64-bit wrap-around |
| `ledger_laws.dfy`, `ledger_amounts.dfy`, `award_order.dfy` | their laws: double entry, what each one changes and logs, lists of awards |
| `ledger_store.dfy` | the account identity over runs of many sessions on the store |
| `proxy_stream.dfy` | framing, reassembly of a byte stream, the send backlog |
| `base64.dfy` | the base64 codec against section 4 of RFC 4648 |

## What the proofs say about the code

Most of what the code promises holds, and is proved without bounds on the length of runs, the
number of sessions or the size of buffers.  Where the code does less than one would expect, the
model keeps the code's behaviour and a lemma says exactly when the expectation is met:

- `GetUsedSize` adds where it should subtract when the stored bytes wrap.  The result is then
  too large, never too small, and zero only for an empty pipe, so `GetOneData` still works
  (`Ring.UsedSizeExact`; `ShmPipes.WrappedPipe` is a run that ends with four bytes in use,
  reported as sixteen).
- The message pipe reserves the bytes of N messages, but not their four-byte lengths, so it never
  holds N messages (`PipeCapacity.ConfiguredSizeFallsShort`).
- Index updates are right for every pipe of at most 2^31 bytes; above that they are right exactly
  when the 32-bit sum does not wrap (`Ring.AdvanceExact`).
- When ten ids in a row are in use, `CreateSession` and the timers keep the slot for good.  That
  can happen if and only if the pool has more than ten slots: the masked counter comes round after
  2^28 creations (`IdLeak.LeaksArePossible`).  A leaked slot comes back after a restart as an
  object with id 0, and the restored pool is consistent if and only if at most one slot was leaked
  (`SessionManagers.RestoreKeepsSessions`, `SessionManagers.RestoreIsClean`); a leaked timer posts
  an empty message on every tick (`TimerManagers.TickPostsForLeaks`).
- A version conflict replaces the whole player by the keys that were submitted, so the rerun no
  longer sees keys that were fetched but not modified (`Redo.RerunSeesOnlySubmittedKeys`, with an
  example in `Redo.UnmodifiedKeyIsGone`).
- A conflict clears the events of every uid of the session: those of saves already accepted for
  earlier uids are posted if and only if no conflict follows
  (`Redo.EarlierEventsAreLostWithConflicts`).
- When the redo limit is reached, the events of the attempt that was just refused are still in the
  session and are posted if `OnSaveFailed` answers that the session is done, as handlers of the
  web server do (`Redo.RejectedEventsPosted`).
- `PlayerSubBuyIn` on a machine without a stake logs a cost that was not taken; every other
  operation logs exactly what it changed (`LedgerLaws.EventsMatchHoldings`).

Nothing needs the assumption that 64-bit totals do not overflow: wrap-around is modelled, the
double-entry identity holds modulo 2^64 in every run, and exactly while the totals fit.

Conventions: a `ghost` field such as `queue` or `hist` is bookkeeping that no code reads.  Time,
chunks received from the network, the walk order of a hash set, handler behaviour and values from
configuration are parameters.

## Model

| member | source | states |
|---|---|---|
| Ring.AdvanceExact | core/src/shm_pipe.cpp:94 | the 32-bit update `(idx + n) % _size` reaches the circular position if and only if the sum does not wrap; never a problem up to 2^31 bytes |
| Ring.LeftSizeCorrect | core/src/shm_pipe.cpp:52-67 | the free size is the capacity less one less the bytes stored, wherever they lie |
| Ring.UsedSizeExact | core/src/shm_pipe.cpp:69-80 | the used size equals the bytes stored if and only if they do not wrap; it is never too small and is zero only when empty |
| Ring.UsedSizeCounterexample | core/src/shm_pipe.cpp:78-79 | a pipe that is not empty stores at least four bytes; the frame of an empty message, wrapped in a ring of ten, is reported as sixteen |
| ShmPipes.WrappedPipe | core/src/shm_pipe.cpp:69-170 | that state is reached from a new pipe by three appends and two reads |
| Ring.StreamInjective | core/src/shm_pipe.cpp:90-95 | the length prefixes make the stored bytes determine the queue of messages |
| ShmPipes.ShmPipe.Initialize | core/src/shm_pipe.cpp:23-29 | a new pipe is valid and empty |
| ShmPipes.ShmPipe.Reuse | core/src/shm_pipe.cpp:31-35 | attaching to an existing segment changes nothing in it |
| ShmPipes.ShmPipe.GetLeftSize | core/src/shm_pipe.cpp:52-67 | the exact room left, one byte kept back |
| ShmPipes.ShmPipe.GetUsedSize | core/src/shm_pipe.cpp:69-80 | at least the bytes stored; zero if and only if the queue is empty; exact if and only if the bytes do not wrap |
| ShmPipes.ShmPipe.AppendOneData | core/src/shm_pipe.cpp:82-118 | succeeds if and only if the frame fits beside what is stored, and then the queue grows by that message; on refusal nothing changes |
| ShmPipes.ShmPipe.WriteHeader | core/src/shm_pipe.cpp:90-95 | the length bytes extend the stored run even when they straddle the end of the buffer |
| ShmPipes.ShmPipe.WriteSplit | core/src/shm_pipe.cpp:100-112 | a body copied in one or two parts extends the stored run by exactly its bytes |
| ShmPipes.ShmPipe.GetOneData | core/src/shm_pipe.cpp:120-170 | returns the head of the queue if the reader's buffer can take it; a reader with too small a buffer consumes nothing; both resynchronisation branches are dead |
| ShmPipes.ShmPipe.ReadHeader | core/src/shm_pipe.cpp:136-140 | the length of the head message is read back even when it straddles the end of the buffer |
| ShmPipes.ShmPipe.ReadBody | core/src/shm_pipe.cpp:148-164 | the body is read back in one or two parts and the rest of the reader's buffer is untouched |
| PipeCapacity.FillPipe | core/src/shm_pipe.cpp:82-118 | offering messages in turn to a pipe leaves exactly those that the specification `Fill` accepts |
| PipeCapacity.Capacity | core/src/shm_pipe.cpp:82-86 | from an empty pipe exactly floor((size - 1) / (len + 4)) appends of len-byte messages succeed, and they are the first ones |
| PipeCapacity.ConfiguredSizeFallsShort | core/src/frame_server.cpp:55 | a pipe sized as N messages plus one byte holds exactly floor(N * len / (len + 4)) of them, fewer than N |
| PipeProtocol.DeliveredIsPrefixOfAccepted | core/src/shm_pipe.cpp:38-170 | in every interleaving of single loads and stores of one producer and one consumer, with stale copies of both indices and crashes of either side, the messages delivered are a prefix of those accepted; no access leaves the ring and no resynchronisation happens |
| PipeProgress.SizeTestIsExact | core/src/shm_pipe.cpp:136-147 | a poll that has read the length of the head message gives up if and only if that message is larger than the reader's buffer, and then neither `_begin` nor what was delivered has changed |
| PipeProgress.DeliveredFits | core/src/shm_pipe.cpp:120-170 | over any run whose polls offer at most so many bytes, no longer message is delivered |
| PipeProgress.PollTakesTheHead | core/src/shm_pipe.cpp:120-170 | a poll on a pipe that is not empty delivers exactly the head message if it fits the reader's buffer, and otherwise consumes nothing, after a bounded number of its own steps and whatever the producer does in between |
| PipeProgress.OfferIsPublished | core/src/shm_pipe.cpp:82-118 | a message that fits beside what is unread is published exactly as offered, after a bounded number of the producer's steps and whatever the consumer does in between |
| PipeProtocol.PublishedBytesAreStable | core/src/shm_pipe.cpp:90-115 | no step of either side changes a byte of a published unread frame |
| PipeProtocol.ProducerStores | core/src/shm_pipe.cpp:91-112 | every store of the producer goes to the one position just behind what is published and already written |
| PipeProtocol.RefusalIsExact | core/src/shm_pipe.cpp:84-85 | an append is refused if and only if the frame did not fit beside what was unread when `_begin` was read |
| PipeProtocol.EmptyIsExact | core/src/shm_pipe.cpp:127-128 | a poll reports an empty pipe if and only if nothing published is unread at its last look at the indices |
| PipeProtocol.DeliveryIsInOrder | core/src/shm_pipe.cpp:166-169 | each step delivers nothing or exactly the next accepted message |
| PipeProtocol.WriteIndexCorrect | core/src/shm_pipe.cpp:96-112 | the choice between one copy and two, made with a stale `_begin`, still stores every byte at its circular position |
| PipeProtocol.ReadIndexCorrect | core/src/shm_pipe.cpp:148-164 | the choice between one copy and two, made with a stale `_end`, still loads every byte from its circular position |
| PipeProtocol.StepKeeps | core/src/shm_pipe.cpp:38-170 | every step of either process, and every crash, keeps the invariant that ties stale copies to the ring |
| Sessions.Session.AddQueryKey | common/session_manager.cpp:25-57 | the nested search loops compute the key insertion `AddKey` |
| Sessions.AddKeyKeepsDistinct | common/session_manager.cpp:25-57 | uids stay distinct, and keys stay distinct per uid |
| Sessions.AddKeyIsSetInsert | common/session_manager.cpp:25-57 | exactly that key is added to exactly that uid, every other uid keeps its keys |
| Sessions.Session.HaveAllDBData | common/session_manager.cpp:59-67 | true if and only if every uid has its data |
| Sessions.Session.GetDBProcessIndex | common/session_manager.cpp:69-77 | the first process of that uid, or -1 if there is none |
| MessageBases.ParseDBData | common/message_base.cpp:447-523 | the loop over a reply yields the key-to-value map, last entry winning, or fails as soon as an unknown key has a value |
| MessageHandlers.LastItemWins | common/message_base.cpp:447-523 | of several items for a key the last one that gives it an entry decides value and version; a key without a value starts at version 0 with its initial value, and base_info and gold_info then count as modified |
| MessageBases.SendQueryToDBProxy | common/message_base.cpp:298-327 | the loop sends the specified queries, and the session waits if and only if there is one |
| Dispatch.QueriesExact | common/message_base.cpp:301-320 | the queries go to exactly the uids without data, once each, in list order, with the uid and all its keys |
| MessageBases.SendSaveToDBProxy | common/message_base.cpp:329-445 | the modified keys that are not too long go out under the next version in one request and become unmodified; an unknown key or nothing modified sends nothing |
| MessageHandlers.MessageHandler.Process | common/message_handler_base.cpp:3-29 | the dispatch loop terminates whenever handlers do not add uids while asking for the next one, ends released or suspended, and computes the state machine `ProcessOnce`, of which `Dispatch.OneCall` says what it does |
| Dispatch.OneCall | common/message_handler_base.cpp:3-29 | the state and the reply choose the first handler; after each answer Next `OnQuerySuccess` runs for the process one further, until there is none and the session finishes; any other answer ends the call: queries for exactly what is missing, one save, events posted, or none |
| Dispatch.NextUid | common/message_handler_base.cpp:65-78 | after an accepted save whose handler answers Next, `OnQuerySuccess` runs on the session with the index one further if there is such a process, and otherwise the session finishes |
| SessionCourse.UidsInOrder | common/message_handler_base.cpp:65-155 | when handlers save on the data and go on after an accepted save: through any conflicts, the save on its way after n accepted ones is for uid n of the list, and the session finishes with the last |
| SessionCourse.EveryUidIsSaved | common/message_handler_base.cpp:65-155 | without conflicts, such a session sends exactly one save for each uid, in list order, and then finishes |
| SessionCourse.SuchHandlersExist | svr/lipsticksvr/message_handler_internal.cpp:594-597 | there are handlers that do so |
| SessionCourse.LogicRunsWhenAllAnswered | common/message_handler_base.cpp:80-114 | once every query sent has had a usable reply, in any order, the data is complete and the logic runs on it; as long as one has not, the session waits |
| SessionCourse.StoreReplyIsUsable | common/message_base.cpp:447-523 | a store with known keys gives a usable reply to every query |
| MessageHandlers.MessageHandler.HandleQueryResponse | common/message_handler_base.cpp:80-114 | a reply replaces the data of its uid and the logic starts when no uid is missing; every other reply goes to the failure handler |
| MessageHandlers.MessageHandler.HandleSaveResponse | common/message_handler_base.cpp:116-155 | success, conflict below and at the redo limit, unusable conflict replies and store errors each reach their handler with the right session |
| MessageHandlers.AtMostFourReruns | common/message_handler_base.cpp:128-132 | over any sequence of replies to one session, for any number of uids, the logic is re-run at most four times |
| Arrival.LogicRunsWithTheLastReply | common/message_handler_base.cpp:80-114 | over the calls of `Process` that replies to different uids cause: as long as one is to come the session stays suspended, sends nothing and runs no handler; the last one runs the logic once, on the data of all, if and only if no uid is missing |
| Arrival.ArrivalOrder | common/message_handler_base.cpp:92-107 | the same replies in any order leave the session in the same state with the same requests sent |
| Arrival.CompleteIff | common/session_manager.cpp:59-67 | the data is complete if and only if every uid had it or has had its reply |
| Redo.SubmittedKeys | common/message_base.cpp:343-435 | the keys in a save are exactly those fetched, marked as modified and not too long, each once, with the value held and the next version; they count as unmodified from then on and all others are left as they were |
| Redo.RerunSeesOnlySubmittedKeys | common/message_handler_base.cpp:133-148 | after a refused save the rerun starts with no events and sees a key of that uid if and only if it was submitted and is stored or has an initial value, with the stored value and version, or its initial value; other uids are untouched |
| Redo.UnmodifiedKeyIsGone | common/message_handler_base.cpp:134-143 | two keys fetched, one modified, a conflict on that one: the rerun sees its new value, and the other key is gone |
| Redo.EventsStartWithTheRerun | common/message_handler_base.cpp:145-148 | from a conflict on, over any further replies, a session does what it would do with no events, whatever happened before |
| Redo.PostedEventsAreOfAcceptedAttempt | common/message_handler_base.cpp:145-148 | after any number of conflicts, the events posted when the save is accepted are exactly those of the attempt that was accepted |
| Redo.EarlierEventsAreLostWithConflicts | common/message_handler_base.cpp:145-146 | with several uids, events of saves already accepted are posted if and only if the current save never met a conflict |
| Redo.ConflictsCounted | common/message_handler_base.cpp:128 | the redo count is the number of conflicts |
| Redo.RejectedEventsPosted | common/message_handler_base.cpp:129-132 | when a fifth conflict reaches the redo limit, the events of the attempt just refused are posted if and only if the failure handler answers Done |
| MessageHandlers.ParsedKeys | common/message_base.cpp:447-523 | a parsed player has a key if and only if the reply has it with a value, or without one and the key has an initial value |
| KVStores.KVStore.HandleQuery | svr/dbproxysvr/message_handler_leveldb.cpp:5-23 | the reply has the current value and version of each key asked for |
| KVStores.KVStore.HandleSave | svr/dbproxysvr/message_handler_leveldb.cpp:25-80 | all keys are written if every submitted version is the stored one plus one, otherwise none, and the reply has the current data of the submitted keys |
| Update.SaveIsAcceptedIff | svr/dbproxysvr/message_handler_leveldb.cpp:30-79 | a save is accepted if and only if every modified key still has the version that the session holds; then each gets its new value under the next version and nothing else changes, and otherwise the reply has the current data of those keys |
| Update.FetchedIsCurrent | common/message_base.cpp:329-523 | what was fetched from a store and then changed is accepted by that store |
| Update.UpdateIsStored | common/message_handler_base.cpp:3-155 | in any world, a message that changes one key runs through query, reply, logic, save and acknowledgement; the stored value is `f` of what it was under the next version, and nothing is left behind |
| Update.BothUpdatesAreStored | common/message_handler_base.cpp:116-155 | two sessions that fetched the same version and both save: the second is refused, its logic runs again on the first one's value, and both updates are stored |
| Update.UpdaterIsGood | common/message_handler_base.cpp:31-63 | such a message type satisfies everything that the store protocol asks of handlers |
| StoreProtocol.StoredValuesAreAChain | common/message_handler_base.cpp:116-155 | in every run of any number of sessions over a lossy, reordering network, a key's version counts its accepted writes, its value is that of the last one, and each write was computed from the value stored just before it and is what handlers make of that |
| StoreProtocol.AcceptedSaveReadTheCurrentValue | common/message_base.cpp:259-296 | a save the store accepts was computed, for every key in it, from the value stored at that moment; a refused one changes nothing |
| StoreResults.AcknowledgedExactlyOnce | svr/dbproxysvr/message_handler_leveldb.cpp:47-79 | a save answered with success is in the history of each of its keys exactly once, at the place of its version, and stays there in every continuation; after any other answer it is never there |
| StoreResults.StoredValueIsFoldOfSaves | common/message_handler_base.cpp:124-148 | the stored value is the fold of the operations of all accepted saves in the order of acceptance, one for each save, none lost and none performed twice |
| StoreResults.StoredValueIsFold | common/message_handler_base.cpp:124-148 | if every handler applies the same update, the stored value is that update iterated exactly as often as saves that changed the value were accepted |
| StoreResults.StoredValuesKeep | common/message_handler_base.cpp:116-155 | a property of a key that every handler keeps holds of every value ever stored under that key |
| StoreProtocol.AcceptIs | svr/dbproxysvr/message_handler_leveldb.cpp:48-57 | accepting a save appends one value to each submitted key and touches no other key |
| StoreProtocol.StepKeeps | common/message_handler_base.cpp:3-29 | every step of the sessions, the store and the network keeps the invariant on what each session knows |
| LedgerStore.StoredAccountsBalance | common/message_handler_base.cpp:116-155 | when handlers change the gold only by ledger operations, the stored account is one run of the operations of all accepted saves in the order of acceptance, however sessions race, fail and redo: no charge is lost, gold, stakes and all totals are those of that run, the books balance with what the operator removed, and no machine has two stakes |
| LedgerStore.OpOnStored | common/data_common.cpp:8-432 | what an operation does to the stored fields depends on the stored fields alone |
| IdPool.SearchResult | common/session_manager.cpp:114-125 | the id search gives the first free id behind the counter and gives up only if the next ten are all in use |
| IdPool.CreateKeepsInv | common/session_manager.cpp:108-136 | creation keeps the free list, the used set and the index in agreement, also when the search fails and the slot is leaked |
| IdPool.CreateAddsOne | common/session_manager.cpp:108-136 | creation adds exactly the new id with its object and disturbs no other object |
| IdPool.CreateKeepsCounter | common/session_manager.cpp:114-125 | with at most 2^28 slots the counter never wraps and no id is 0; on a pool with room creation fails only with ten live ids in a row |
| IdPool.CreateTakesNext | common/session_manager.cpp:108-134 | creation takes the front of the free list and the first id behind the counter that is not in use, up to the tenth; the counter moves to that id, cut to 28 bits, or by ten if there was none |
| IdPool.ReleasedSlotIsLast | include/hpp/object_manager.hpp:119-146 | a released slot is taken again only after every slot that was free before it |
| IdPool.ReleaseKeepsInv | common/session_manager.cpp:146-158 | release removes exactly that id and leaves every other object as it was |
| IdPool.ReleaseAllKeeps | common/session_manager.cpp:168-171 | releasing a list of ids removes exactly those and keeps the rest unchanged |
| IdLeak.LeaksArePossible | common/session_manager.cpp:117-125 | some run loses a slot to a failed id search if and only if the pool has more than ten slots |
| IdPool.EveryRun | common/session_manager.cpp:108-172 | after any run from a fresh pool: free list without repeats and complementary to the used set, index injective into used slots whose objects carry their id, used = indexed + failed searches, no wrap, no id 0 |
| ObjectManagers.ObjectManager.Malloc | include/hpp/object_manager.hpp:119-132 | takes the front of the free list and blanks that slot, or gives -1 when the pool is full |
| ObjectManagers.ObjectManager.Free | include/hpp/object_manager.hpp:134-146 | returns a slot to the back of the free list |
| ObjectManagers.ObjectManager.SearchId | common/session_manager.cpp:117-124 | the search loop computes the specified search |
| ObjectManagers.ObjectManager.CreateObject | common/session_manager.cpp:108-136 | the method changes pool, lists, index and counter exactly as the specified creation, and stays valid |
| ObjectManagers.ObjectManager.ReleaseObject | common/session_manager.cpp:146-158 | the method releases exactly one indexed object, or reports that the id is unknown |
| Serialize.SerializeBaseType | include/hpp/serialize.hpp:5-17 | writes the bytes in place and advances the offset, or leaves both alone if they do not fit |
| Serialize.UnSerializeBaseType | include/hpp/serialize.hpp:19-31 | reads exactly the bytes at the offset, or leaves it alone |
| Serialize.SerializeProtoBuf | include/hpp/serialize.hpp:33-52 | writes length and body together or nothing |
| Serialize.UnSerializeProtoBuf | include/hpp/serialize.hpp:54-75 | succeeds if and only if the length and the body it announces lie in the buffer, and otherwise rolls the offset back |
| Serialize.ReadsBack | include/hpp/serialize.hpp:33-75 | what was written is what is read |
| SessionManagers.CreateSession | common/session_manager.cpp:108-136 | a session with the message id and the time is created under a new id; otherwise the pool is full, or the search fails and the slot is leaked |
| SessionManagers.SessionLasts | common/session_manager.cpp:108-172 | a session expires ten seconds after its creation, by a clock of 32 bits |
| SessionManagers.CheckTimeOut | common/session_manager.cpp:160-172 | exactly the expired sessions go, and session 0 if a leaked slot is mistaken for it; every other one is unchanged, whatever the walk order |
| SessionManagers.SerializeSession | common/session_manager.cpp:9-15 | writes exactly `GetByteSize` bytes and cannot fail when they fit |
| SessionManagers.UnSerializeSession | common/session_manager.cpp:17-23 | reads back the session that was written there and ends just behind it |
| SessionManagers.ReleaseToBuffer | include/hpp/object_manager.hpp:84-105 | the buffer sized by summing `GetByteSize` is filled to its last byte, no write fails, whatever the walk order |
| SessionManagers.InitFromBuffer | include/hpp/object_manager.hpp:35-74 | from a saved buffer the pool gets the saved objects, or the first that fit, in its first slots, and the index and the counter are rebuilt from them |
| SessionManagers.RebuildIndex | common/session_manager.cpp:93-102 | the index names used slots by the id they carry, covers all of them, and the counter is the largest id |
| SessionManagers.Restart | include/hpp/object_manager.hpp:35-109 | saving by one process and loading by the next, run one after the other, succeed and give every session back under its id; the new pool is valid if and only if at most one slot was leaked, its counter is bounded as before, and its first id is free |
| SessionManagers.RestoreKeepsSessions | include/hpp/object_manager.hpp:35-109 | save and restore into a pool at least as large keep every session under its id; the ids are the same if and only if no id search ever failed, otherwise id 0 appears |
| SessionManagers.FirstIdIsFresh | common/session_manager.cpp:93-120 | after the rebuild the first id tried is given out, unless the counter wraps to a session with id 0 |
| SessionManagers.RestoreCounter | common/session_manager.cpp:93-103 | the rebuilt counter is at most ten per failed search further on than the old one could be |
| SessionManagers.RestoreIsClean | common/session_manager.cpp:89-106 | a restored pool satisfies the full pool invariant again if and only if at most one slot had been leaked |
| TimerManagers.CreateTimerMsec | common/timer_manager.cpp:93-123 | a timer is created with the 64-bit deadline now + msec under a new id, or not at all |
| TimerManagers.Tick | common/timer_manager.cpp:44-59 | posts, entry by entry, the messages that the run's log shows for the due slots in walk order, and then releases those timers |
| TimerManagers.TickExact | common/timer_manager.cpp:44-59 | removes exactly the timers due at that time and leaves every other one unchanged, pool and index in agreement |
| TimerManagers.TickPostsForLeaks | common/timer_manager.cpp:49-53 | each sweep posts exactly one empty message per slot leaked by a failed id search |
| TimerManagers.PostedOnceAndNotEarly | common/timer_manager.cpp:44-59 | over any run of creations, releases and ticks each timer is posted at most once, never before its deadline, and never while it is still waiting |
| TimerManagers.PostedWithOwnMessage | common/timer_manager.cpp:51 | over any such run, what is posted for a timer is the message that it was started with |
| TimerManagers.DueTimerIsPosted | common/timer_manager.cpp:47-54 | a tick posts every live timer whose deadline has come, with the message that it was started with |
| Ledger.PlayerAccount.PlayerAddBuyIn | common/data_common.cpp:8-54 | the stake grows by what the gold allows, and the new stake at that machine is returned |
| Ledger.PlayerAccount.PlayerSubBuyIn | common/data_common.cpp:60-106 | the stake pays at most what it holds, and what is left at that machine is returned |
| Ledger.PlayerAccount.CheckPlayerBuyInTimeout | common/data_common.cpp:111-158 | the delete-while-iterating loop equals the sweep `CheckTimeout`, with an event if anything expired |
| Ledger.PlayerAccount.SweepBuyIns | common/data_common.cpp:115-128 | the loop leaves the filtered list and moves the expired amounts into gold |
| Ledger.PlayerAccount.PlayerClearBuyIn | common/data_common.cpp:163-206 | the stake of one machine returns to gold |
| Ledger.PlayerAccount.PlayerAddGold | common/data_common.cpp:273-335 | gold and totals with the lottery swap, both refund clamps and wrap-around |
| Ledger.PlayerAccount.PlayerSubGold | common/data_common.cpp:341-380 | the method takes gold as specified and returns what is left |
| LedgerAmounts.SubGoldAmounts | common/data_common.cpp:341-380 | gold falls by the amount asked for, down to zero; the fall counts as consumed modulo 2^64, or as removed for the operator's reason; stakes, prizes and the other totals stay, and one event says so |
| LedgerAmounts.AddGoldAmounts | common/data_common.cpp:273-335 | gold and both totals rise by their parts modulo 2^64, exchanged for a lottery; a refund takes its given part back out of the consumed and the given total as far as both reach; parts that wrap to zero change nothing |
| LedgerAmounts.AddBuyInStake | common/data_common.cpp:8-54 | the amount asked for, or all gold there is, moves to that machine's stake, whose clock restarts; no other stake or total changes |
| LedgerAmounts.SubBuyInStake | common/data_common.cpp:60-106 | the cost is taken from that machine's stake as far as it reaches and counts as consumed; no other stake or total changes |
| LedgerAmounts.ClearBuyInStake | common/data_common.cpp:163-206 | that machine's stake returns to the gold and is gone; nothing else changes |
| LedgerAmounts.CheckTimeoutAmounts | common/data_common.cpp:111-158 | the sweep moves exactly what it drops to the gold and logs one event if any stake had expired; otherwise nothing changes |
| LedgerAmounts.StakeLasts | common/data_common.cpp:111-158 | a stake is returned by the first sweep ten minutes after it was last touched, by a clock of 32 bits, and by no earlier one |
| LedgerAmounts.SubPrizeCounts | common/data_common.cpp:416-432 | one prize count falls, down to zero, where the prize is no longer listed; nothing else changes |
| LedgerAmounts.EventsTellHoldings | common/data_common.cpp:8-380 | the last event of every operation shows the gold and the sum of the stakes as the operation leaves them |
| Ledger.PlayerAccount.PlayerAddAwards | common/data_common.cpp:239-267 | the loop applies the awards in turn |
| LedgerLaws.EveryRunBalances | common/data_common.cpp:8-380 | after any run of operations from an empty account, gold + stakes + consumed + removed equals charged + given modulo 2^64, and no machine has two stakes |
| LedgerLaws.BalancedExactly | common/data_common.cpp:8-380 | the identity is exact whenever both sides fit in 64 bits |
| LedgerLaws.AddGoldBalances | common/data_common.cpp:273-302 | the identity survives the lottery swap, the refund clamps and wrap-around |
| LedgerLaws.SweepGold | common/data_common.cpp:115-128 | the sweep adds to gold exactly the stakes it drops |
| LedgerLaws.SweepIsFilter | common/data_common.cpp:115-128 | the sweep keeps exactly the unexpired stakes, and a machine keeps its amount if and only if its stake has not expired |
| LedgerLaws.KeptAppend | common/data_common.cpp:115-128 | the sweep works stake by stake in list order |
| LedgerLaws.AddBuyInAmounts | common/data_common.cpp:13-28 | as a map from machine to amount, only that machine changes, by what the gold allows |
| LedgerLaws.SubBuyInAmounts | common/data_common.cpp:64-77 | as a map, only that machine changes, by at most its amount |
| LedgerLaws.ClearBuyInAmounts | common/data_common.cpp:167-177 | as a map, only that machine goes to zero, and gold rises by its amount |
| LedgerLaws.EventsMatchHoldings | common/data_common.cpp:79-105 | the logged changes add up to the change of gold and stakes, except if and only if a non-zero cost is taken from a machine without a stake |
| AwardOrder.OrderKeepsTotals | common/data_common.cpp:239-302 | permuting an award list changes no gold total, refunds and wrap-around included |
| AwardOrder.OrderKeepsPrizes | common/data_common.cpp:384-412 | permuting an award list changes no prize count |
| AwardOrder.PrizeCounts | common/data_common.cpp:384-412 | no prize is listed twice, and its count rises by the sum of its awards, as a 32-bit number |
| AwardOrder.RefundTotals | common/data_common.cpp:295-302 | closed form of a list of refunds, with and without wrap-around |
| AwardOrder.RefundWithoutWrap | common/data_common.cpp:295-302 | without wrap-around the consumed total falls by the gifts down to zero, the given total keeps only the excess, and the second clamp never binds |
| ProxyStream.MakeFrameIsFrame | core/src/proxy_manager.h:154-164 | what is sent for a non-empty message within limits is a well-formed frame from which head and message can be read |
| ProxyStream.Receiver.RecvData | core/src/proxy_manager.h:236-261 | the receive loop appends exactly what was received up to a full buffer, and empties the buffer on disconnect |
| ProxyStream.ReceivedIs | core/src/proxy_manager.h:236-261 | what is received is the data of the leading `recv` calls, until the buffer is full or a call gives none; the connection is lost exactly if that call reports an end or an error |
| ProxyStream.Receiver.GetOneData | core/src/proxy_manager.h:262-278 | gives the bytes that the first length announces, if they are all there, and keeps exactly the rest |
| ProxyStream.TakesTheFirstFrame | core/src/proxy_manager.h:262-278 | on a stream of frames that is the first frame, and it fits the caller's buffer |
| ProxyStream.SplitTakesFrames | core/src/proxy_manager.h:262-278 | taking frames until none is complete yields a prefix of the frames sent and leaves less than one frame |
| ProxyStream.Reassembly | core/src/proxy_manager.h:236-278 | for any chunking and any interleaving of receiving and taking, the frames taken are a prefix of those sent, the buffer holds exactly what came behind them, and a full buffer always has a complete frame |
| ProxyStream.Sender.ReserveData | core/src/proxy_manager.h:329-338 | the backlog stays a concatenation of whole frames, emptied first when the new one does not fit |
| ProxyStream.BacklogIsRecent | core/src/proxy_manager.h:329-338 | the backlog is the run of most recent frames since the last overflow and fits the buffer |
| ProxyStream.BacklogKeepsAll | core/src/proxy_manager.h:329-338 | frames that fit together are all kept |
| Base64.EncodeBytes | include/hpp/base64.hpp:42-85 | the loop computes the encoding, tail and padding included |
| Base64.DecodeString | include/hpp/base64.hpp:87-124 | the loop computes the decoding, up to the first character outside the alphabet |
| Base64.RoundTrip | include/hpp/base64.hpp:42-124 | decoding an encoding gives the bytes back, for every byte string |
| Base64.LetterIsIndexed | include/hpp/base64.hpp:32-35 | the letters are those of the 64-character alphabet, by position |
| Base64.DecodeIsBits | include/hpp/base64.hpp:87-124 | any text decodes to the bits of the letters before its first foreign character, cut to whole bytes |
| Base64.BitGroups | include/hpp/base64.hpp:49-79 | the letters of an encoding stand, six bits each, for the bits of the input in order with zeros added on the right, and one padding character follows per missing byte, as in section 4 of RFC 4648 |
| Base64.EncodeIsCanonical | include/hpp/base64.hpp:42-85 | an encoding is canonical and has 4 * ceil(n / 3) characters |
| Base64.CanonicalRoundTrip | include/hpp/base64.hpp:42-124 | encoding a decoding gives the text back if and only if the text is canonical |

## Left out

- Foreign calls: System V shared memory, sockets, `select`, signals, LevelDB, MySQL, logging and UDP events.  Shared memory is an array, `recv` gives an arbitrary chunk.
- The protobuf encoding: a message is opaque bytes with a fixed stand-in layout that its parser inverts.  Byte order beyond both ends agreeing.
- Memory models weaker than sequential consistency for the pipe.
- Partial sends on the proxy socket, and frames that `GetProxyData` takes but cannot post: nothing is claimed about delivery behind `GetOneData`.
- `CreateTimer` and the delays of `SetTimer` and `SetTimerMsec`, which pass milliseconds where seconds are expected; timer ids as `int`.
- `PlayerManager` and the machine manager, which use a weaker copy of the session index.
- Floating-point rates and `PlayerAddPoint`, which starts a shell command.
- What `OnPostMessage` sends for each event; it stops at the first gold event that is not positive.
- Error replies of the store that are sent before the final one, expiry of its version cache, and 32-bit wrap-around of versions.
- Duplicated messages, and ids of sessions reused after 2^28 creations: a reply reaches the session it was meant for or none.
- ShmPipes.ShmPipe.Initialize: requires a segment with room for one to 2^31 bytes; the code does not check, and below twelve bytes its size would wrap.
- ShmPipes.ShmPipe.Reuse: requires an intact pipe; a segment whose indices were damaged is not modelled.
- Serialize.UnSerializeProtoBuf: does not model the wrap-around of the offset sum for a corrupt length near 2^64.
- SessionManagers.InitFromBuffer: says nothing about what a damaged buffer loads, because the parser is not part of this model.
- ObjectManagers.ObjectManager.CreateObject: one generic class stands for the pool and for the copies of the id search in the session and the timer manager.
- MessageHandlers.MessageHandler.Process: a handler is a function of the session; what it does to other objects is not modelled, and every call may use a different one.
- MessageBases.ParseDBData: every stored value parses; they were all serialized by the same code.
- KVStores.KVStore.HandleQuery: leaves out failures of LevelDB, for which an early failure reply is sent before the final one.
- KVStores.KVStore.HandleSave: leaves out failures of LevelDB, for which an early failure reply is sent before the final one.
- Redo.PostedEventsAreOfAcceptedAttempt: is about sessions whose reruns end in a save again; `Redo.EventsStartWithTheRerun` is about all of them.
- SessionCourse.UidsInOrder: is about handlers that save something for every uid of the list; `Dispatch.OneCall` is about all handlers.
- Update.UpdateIsStored: is about a key that has an initial value; sessions with several keys are in `Update.SaveIsAcceptedIff`.
- PipeProgress.PollTakesTheHead: the consumer must not die on the way; when it does, `begin` has not moved and the next poll finds the same message.
- StoreProtocol.StoredValuesAreAChain: assumes of the failure handlers only that they end the session, as all those of the repository do, and of the others that a change is made through a setter, which marks it, and is saved before the session lets go of it.
- StoreResults.StoredValueIsFoldOfSaves: a save may perform no operation, because a fresh sub-message counts as modified and may be saved as it is.
- LedgerStore.StoredAccountsBalance: prizes and gold lie under different keys and are not related to each other.
- ProxyStream.Receiver.GetOneData: requires that a length which has arrived completely fits the buffer of the caller; the code does not check it.
