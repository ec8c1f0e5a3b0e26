# A verified model of the RPC multiplexer, keyring, download cache and script helpers

This project models the parts of the repository that hold real algorithms and proves what
they guarantee, over every input, every run or every interleaving.

- **Inbound streams** (`cli/src/rpc.rs`). `StreamTable` is the shared table of stream records,
  a class with one method per critical section. `StreamRuns` is the system of that table and
  all spawned `write_loop` tasks: one step per critical section or await, `write_all` moving
  any number of bytes at a time, and a peer that may go away at any moment. Its history is kept
  per write half, so that stream ids may be used again. The step lemma says that each step
  changes one half only, and how. `StreamProperties` proves single ownership of write halves,
  first-in-first-out delivery without loss, shutdown exactly once and last, and a bound on the
  steps a half can still take, all of it for runs in which no insert finds a record of its id,
  and that ownership fails in every other run. `WriteLoop` is the loop itself, as a loop.
- **Streams end to end** (`cli/src/rpc.rs`, `cli/src/msgpack_rpc.rs`). `EndToEnd` puts the
  receive task around that system: it handles frames in order, and for a duplex call it puts
  `streams_started` on the write queue and inserts the new streams one by one before the next
  frame; it alone empties the queue, in its select. The peer sends for a stream once it was
  told of it, and each `stream_ended` is a spawned task. It follows that every stream is
  inserted before anything arrives for it. `EndToEndProgress` bounds the steps and shows that a
  run which cannot go on has delivered everything, unless the receive task is held up.
- **Requests and calls**. `Calls` is the id counter and the table of one-shot callbacks;
  `ReceiveLoop` is dispatch, the spawned futures, the stream readers and the write channel, with
  the reply discipline; `Backpressure` says exactly when the receive loop can block on the write queue
  it alone empties, and `MessageCosts` ties the costs it counts to what gets enqueued.
- **Framing** (`cli/src/msgpack_rpc.rs`). `MsgPack` is the format table of the MessagePack
  specification with encoder and prefix decoder; `Framing` is the buffered decode loop;
  `MessageValues` writes the bytes of values out from the specification, without that table,
  and proves that they are decoded to what they stand for.
- **Keyring** (`cli/src/auth.rs`), **download cache** (`cli/src/download_cache.rs`,
  `cli/src/state.rs`), **import merging and formatting edits**
  (`scripts/sync-agent-host-protocol.ts`) and the **cycle-safe stringifier**
  (`src/bootstrap-fork.ts`) each have a module of their own.

Code that changes state step by step is modelled by classes and methods with loops, each
specified by functions on values; lemmas about those functions and about runs carry the
results. Concurrency is modelled by events: an event carries every choice the scheduler or
the outside world makes, a run is a list of events, and a theorem about all runs is a theorem
about all interleavings.

Some promises turn out to hold only under a condition, which is then proved to be exact:

- a stored credential is read back over any stale slots if and only if its length is no
  multiple of the step and the part in its last slot does not end with the marker
  (`Keyring.RoundTripIff`); the same condition decides whether `clear` succeeds after one
  store into an empty keyring (`Keyring.ClearAfterStoreIff`);
- the merged imports are a fixed point of a second pass if and only if no module imports a
  name both as a type and with an inline `type` modifier (`ImportMerge.FixedPointIff`);
- write halves are owned singly throughout a run if and only if no insert finds a record of its
  id (`StreamProperties.OwnedIffGuarded`); `StreamProperties.ReusedIdLosesHalf` is a run that
  inserts an id whose loop is running and so loses the new half for good;
- message ids are distinct if and only if at most 2^32 are handed out
  (`Calls.IdsFreshUntilWrap`);
- a call is completed if and only if some response with its id is dispatched after its callback
  was inserted (`Calls.CompletedIff`);
- list and directories of the download cache agree in memory whatever fails; a restart finds
  them as they were, whatever a failed write leaves in the file, if and only if no operation
  came to save the list or the last one that did wrote it (`DownloadCache.RestartAgrees`);
  `DownloadCache.FailedWriteLosesAgreement` is an instance of the failure;
- a drain of decoded frames can block the receive loop forever if and only if some message it
  sends itself may find the queue full (`Backpressure.BlocksIffNoFit`).

A response dispatched between sending a request and inserting its callback is dropped and the
call then waits for another one (`Calls.ResponseInWindowIsLost`); `clear` on an empty keyring
fails, because the entry that reading makes available cannot be deleted.

## Model

| member | source | states |
|---|---|---|
| StreamTable.Streams.Insert | cli/src/rpc.rs:575-584 | a record with the given write half, an empty queue and not ended replaces whatever the id had; no other record changes |
| StreamTable.Streams.Write | cli/src/rpc.rs:564-573 | the buffer joins the end of the queue of a known stream even if it has ended; a parked half is handed to a new loop; unknown ids change nothing |
| StreamTable.Streams.Remove | cli/src/rpc.rs:543-556 | a parked half is taken out with its record for the caller to shut down; a record without its half is only marked as ended |
| StreamTable.Streams.TakeTurn | cli/src/rpc.rs:603-621 | the four outcomes of the locked part of the loop: record gone, ended and drained (record dropped), drained (half parked), or the queue swapped out whole |
| WriteLoop.WriteHalf.WriteAll | cli/src/rpc.rs:624-626 | all of an item, or the part that fits before the peer is gone, and whether it failed |
| WriteLoop.Drain | cli/src/rpc.rs:623-627 | a batch delivers its concatenation, or exactly as much of it as the peer takes: nothing follows the first failing item |
| WriteLoop.Run | cli/src/rpc.rs:596-631 | undisturbed, the loop ends with the queue delivered as far as the peer takes it, and the half parked, or, if ended, the record dropped and the half shut down once |
| StreamRuns.StepIsLocal | cli/src/rpc.rs:537-631 | every step of the whole system changes the view of the write half it is about in the way that half's own step says, and the view of no other half |
| StreamRuns.StepKeepsInv | cli/src/rpc.rs:531-631 | every enabled step keeps the invariant: ownership, accounting of bytes and shutdown count of every half; an insert may reuse an id as long as the table has no record of it |
| StreamProperties.OneOwner | cli/src/rpc.rs:543-585 | in every reachable state a mapped stream's half is parked in a not ended record with an empty queue and no loop, or held by the stream's only live loop |
| StreamProperties.HalvesNotShared | cli/src/rpc.rs:564-573 | every write half is in exactly one place, a record or a task, until it is shut down, and in none after that |
| StreamProperties.OwnedIffGuarded | cli/src/rpc.rs:575-584 | this ownership holds at every moment of a run if and only if no insert of the run finds a record of its id |
| StreamProperties.RecordOutlivesLoop | cli/src/rpc.rs:603-608 | the arm for a missing record is never taken by a loop |
| StreamProperties.Fifo | cli/src/rpc.rs:564-628 | delivered bytes, then the rest of the batch, then the queue, are the bytes the run wrote to the half, also after an end; with the peer gone, what arrived is a prefix |
| StreamProperties.ShutdownLast | cli/src/rpc.rs:543-562 | at most one shutdown per half, only with nothing holding it and its record gone, and with everything delivered if the peer stayed |
| StreamProperties.LaterAlongRun | cli/src/rpc.rs:596-630 | along any run what a half was delivered and accepted only grows, and it stays shut down |
| StreamProperties.NeverWrittenAfterShutdown | cli/src/rpc.rs:630-631 | after its shutdown a half gets no byte and no second shutdown in any continuation |
| StreamProperties.RemoveTakesEffect | cli/src/rpc.rs:543-556 | after the locked part of remove the record is gone or marked as ended |
| StreamProperties.CalmRunIsShort | cli/src/rpc.rs:596-630 | a half no longer written or newly removed takes at most a computed number of further steps, whatever else runs and whether or not writes fail |
| StreamProperties.TaskNotStuck | cli/src/rpc.rs:602-630 | a half that has a task always has a next step, also after its peer has gone |
| StreamProperties.CalmRunCompletes | cli/src/rpc.rs:602-630 | a half left alone comes to rest parked, or, once removed, shut down exactly once with its record gone, everything delivered if the peer stayed |
| StreamProperties.ReusedIdLosesHalf | cli/src/rpc.rs:575-618 | a run that inserts an id again while its loop runs: the loop parks the old half in the new record, the buffer in between is gone, and in every continuation the new half gets no byte and no shutdown |
| EndToEnd.SentIsWhatPeerSent | cli/src/msgpack_rpc.rs:68-71 | what counts as sent for a stream is what the peer's sends of the run carried, in order, and it is over exactly if the peer ended it |
| EndToEnd.DeliveredInOrder | cli/src/msgpack_rpc.rs:66-96 | at every moment the half of a stream has a prefix of what the peer sent for it in the run; it is shut down at most once and only after the peer ended the stream and all that was sent arrived |
| EndToEnd.DeliveredInFull | cli/src/rpc.rs:279-291 | with no frame of the stream left, no end task and its write loop done, exactly the sent bytes arrived; then one shutdown if the peer ended the stream, else the half is parked |
| EndToEnd.FramesAlwaysHandled | cli/src/rpc.rs:453-479 | over all runs, every stream frame on its way is of a stream that was inserted, and the oldest data frame finds its record: the peer can only know of a stream once register_stream is done with it |
| EndToEnd.InsertsAreGuarded | cli/src/rpc.rs:477-479 | what register_stream inserts has no record and never had one, so the condition for insert is met |
| EndToEndProgress.StreamsAreFinite | cli/src/rpc.rs:531-631 | what the peer sends for a stream causes at most a computed number of steps of the receive loop, its end task and its write loop, under any interleaving |
| EndToEndProgress.LoopIsFinite | cli/src/msgpack_rpc.rs:66-110 | the receive task takes at most as many steps as the frames and messages handed to it allow |
| EndToEndProgress.StuckMeansDelivered | cli/src/msgpack_rpc.rs:66-110 | a run that can only go on by acts of others has the receive task held up in a drain (its own queue full, or out of ids), or has written out every message, told the peer of every stream, and delivered every stream, shut down once if ended |
| Calls.MessageIds.NextMessageId | cli/src/rpc.rs:397-400 | returns the counter and advances it, wrapping at 2^32 |
| Calls.IdsFreshUntilWrap | cli/src/rpc.rs:397-400 | the first n ids are pairwise distinct if and only if n is at most 2^32 |
| Calls.CallTable.Insert | cli/src/rpc.rs:361-378 | the callback is entered under its id |
| Calls.CallTable.Take | cli/src/rpc.rs:439-449 | looking a callback up removes it |
| Calls.OneShot | cli/src/rpc.rs:342-381 | over every interleaving each callback runs at most once and with a response of the id its call was sent with, which no other call has, and every call is in exactly one of: not sent, not yet inserted, pending, completed |
| Calls.CompletedIff | cli/src/rpc.rs:342-381 | over every run a call is completed if and only if some response with its id comes after its callback was inserted |
| Calls.ToldByFirstResponse | cli/src/rpc.rs:439-449 | over every run a completed call was told what the first response with its id after its insertion says: exactly its error, code and message, if it has one, else a success with exactly its bytes |
| Calls.FirstResponseCompletes | cli/src/rpc.rs:439-449 | the first response after insertion completes the call whatever ran in between, and a second one does nothing |
| Calls.ResponseInWindowIsLost | cli/src/rpc.rs:356-362 | a response dispatched between send and insert changes nothing; in every continuation without another one after the insertion the call is still not inserted or pending |
| ReceiveLoop.Dispatcher.DispatchWithPartial | cli/src/rpc.rs:420-450 | requests go to their method or are refused without touching the call table; a response takes its callback out and calls it with an error of its code and message if it has one, else with a success of its bytes, which is the step of the call system; a frame with neither method nor id panics |
| ReceiveLoop.StepKeepsInv | cli/src/msgpack_rpc.rs:71-97 | every step keeps each received frame either pending with the right future or settled with the reply it deserves |
| ReceiveLoop.OneReplyPerRequest | cli/src/rpc.rs:115-143 | the k-th frame of a run, if a request with an id whose future is done, has exactly one reply, with its id and the code for bad params (0), failure or unknown method (-1), or success, as its callback ended in the run; notifications and responses have none |
| ReceiveLoop.StartedBeforeReply | cli/src/msgpack_rpc.rs:85-95 | the reply to a duplex call is preceded by its streams_started, with its request id (0 for a notification) and the right number of streams |
| ReceiveLoop.StreamFramesInOrder | cli/src/rpc.rs:453-524 | every stream is announced and ended at most once, and all its data is enqueued after its announcement and before its end |
| ReceiveLoop.ReadersSendWhatTheyRead | cli/src/rpc.rs:482-520 | over every run the data enqueued for a stream is what its reader read, read by read, 1 to 4096 bytes each and in order, all before the end, and an end is enqueued exactly if the reader came to its end |
| Backpressure.FitsNeverBlocks | cli/src/msgpack_rpc.rs:71-97 | if every direct message finds room even after all spawned senders, the loop never blocks and can handle every decoded frame |
| Backpressure.WithinCapacityFits | cli/src/msgpack_rpc.rs:59 | queued, spawned and new messages within the capacity of 8 are enough |
| Backpressure.FitsIffWithinCapacity | cli/src/msgpack_rpc.rs:59 | with sync replies only, the bound of 8 is exact |
| Backpressure.BlockingRun | cli/src/msgpack_rpc.rs:71-101 | otherwise there is a schedule that blocks the loop |
| Backpressure.BlocksIffNoFit | cli/src/msgpack_rpc.rs:71-101 | a state with frames to handle and no possible step at all is reachable if and only if some direct message may find the queue full |
| MessageCosts.CostIsWhatIsEnqueued | cli/src/msgpack_rpc.rs:72-96 | over every run, the messages enqueued and the replies still owed add up to the costs of the frames received, each counted with the messages its own stream readers sent |
| Backpressure.RequestsBlockIff | cli/src/msgpack_rpc.rs:59-75 | sync requests decoded from one read on an empty queue can block the loop if and only if there are more than eight |
| MsgPack.DecodeStable | cli/src/msgpack_rpc.rs:139-146 | more bytes change neither a decoded message nor an error |
| MsgPack.DecodeEncode | cli/src/msgpack_rpc.rs:27-35 | every valid message followed by anything is decoded to itself and its own length |
| MessageValues.DecodesValues | cli/src/msgpack_rpc.rs:27-35 | the bytes of every value, written out from the specification's formats, followed by anything, are taken whole and decoded to the value's structure: n elements for an array, n keys and n values for a map |
| MessageValues.NeverUsed | cli/src/msgpack_rpc.rs:150-153 | the byte that starts no format is an error |
| MsgPack.StrictPrefixIsShort | cli/src/msgpack_rpc.rs:143-149 | a strict prefix of a message is neither a message nor an error |
| MsgPack.EncodeDecode | cli/src/msgpack_rpc.rs:155-160 | what is decoded is valid and encodes to exactly the bytes taken |
| Framing.Receiver.DecodeNext | cli/src/msgpack_rpc.rs:139-162 | takes one whole message with its bytes off the buffer, or leaves the buffer alone if it is short or bad; MessageValues.DecodesValues says what a message is |
| Framing.Receiver.OnRead | cli/src/msgpack_rpc.rs:68-97 | one read yields all whole messages of the buffer in order and keeps the rest |
| Framing.Receiver.Receive | cli/src/msgpack_rpc.rs:66-97 | a connection is the repetition of reads, ended by a bad message |
| Framing.ChunkingDoesNotMatter | cli/src/msgpack_rpc.rs:112-117 | any split of the bytes into reads gives the same frames, failure and leftover as one read |
| Framing.FramesSurviveChunking | cli/src/msgpack_rpc.rs:112-162 | for any messages, any partial next message and any split, exactly the messages come out in order, each with its own bytes, and the partial one stays in the buffer |
| MessageValues.ValuesSurviveChunking | cli/src/msgpack_rpc.rs:135-162 | the same for any values, by the bytes of the specification |
| Framing.NothingLostInFraming | cli/src/msgpack_rpc.rs:155-160 | the bytes of the frames and the leftover are the bytes read |
| Keyring.KeyringStorage.GetNextEntry | cli/src/auth.rs:294-305 | entry k denotes slot k, and is made available if it was not |
| Keyring.KeyringStorage.Read | cli/src/auth.rs:308-328 | terminates on every finite keyring with the reassembled text, nothing if an entry is missing, or the error of a failing entry |
| Keyring.KeyringStorage.Store | cli/src/auth.rs:330-352 | writes the text in steps, up to the first entry that fails |
| Keyring.KeyringStorage.Clear | cli/src/auth.rs:354-364 | deletes every entry reading or storing made available, up to the first that fails, and then forgets them |
| Keyring.ReadAfterStore | cli/src/auth.rs:307-352 | what is read after storing any text over any stale slots, in all cases |
| Keyring.RoundTripIff | cli/src/auth.rs:307-352 | the text comes back over all stale slots if and only if its length is no multiple of the step and its last part does not end with the marker |
| Keyring.RoundTrip | cli/src/auth.rs:307-352 | it does for every text not ending with the marker whose length is no multiple of the step |
| Keyring.ExactMultiple | cli/src/auth.rs:337-344 | at an exact multiple every slot written carries the marker and reading goes on into the next slot, whatever it holds |
| Keyring.SlotsWithinLimit | cli/src/auth.rs:220-225 | no slot written exceeds the entry limit |
| Keyring.SlotAfterStore | cli/src/auth.rs:334-344 | after a store, slot i holds the i-th step of the text with the marker, or the rest of the text, up to the first slot that fails; every other slot is as it was |
| Keyring.StoreSucceedsIff | cli/src/auth.rs:346-351 | a store succeeds if and only if every slot the text needs works |
| Keyring.ReadIff | cli/src/auth.rs:311-327 | a read fails if and only if it comes to a faulty slot, finds nothing if and only if it comes to a missing one, and else yields the joined texts up to the first slot without the marker |
| Keyring.DeleteStops | cli/src/auth.rs:354-364 | clearing deletes the slots before the first that is missing or fails, and no other |
| Keyring.ReadAfterClear | cli/src/auth.rs:354-364 | after a successful clear reading finds nothing |
| Keyring.ClearAfterStoreIff | cli/src/auth.rs:354-364 | after one store into an empty keyring clear succeeds, and empties it, if and only if the text survives |
| PersistedState.Container.LoadOrGet | cli/src/state.rs:46-59 | the value in memory, else the file's, else the default, now held in memory |
| PersistedState.Container.Save | cli/src/state.rs:61-70 | memory has the new value even if writing the file fails |
| DownloadCache.DownloadCache.Touch | cli/src/download_cache.rs:119-139 | the name moves to the front; beyond five names the last is evicted unless its directory cannot be removed |
| DownloadCache.DownloadCache.Exists | cli/src/download_cache.rs:52-60 | reports the directory and, if there is one, touches its name, which counts as a use in the results below |
| DownloadCache.DownloadCache.Delete | cli/src/download_cache.rs:63-72 | directory and name go, or neither if the directory cannot be removed |
| DownloadCache.DownloadCache.Create | cli/src/download_cache.rs:78-117 | an existing directory is returned untouched; else staging, creation, touch and up to 21 renames, with the state each failure leaves |
| DownloadCache.ListIsRecentlyUsed | cli/src/download_cache.rs:119-139 | after any history of touches with successful evictions the list is the first five distinct names of the reversed history |
| DownloadCache.ListIsByLastUse | cli/src/download_cache.rs:52-139 | over any operations with successful evictions, the list is the front of all names by last use, deleted ones dropped, and a name is on it if and only if it has been among the first five ever since its last use; a hit of exists and a create that reaches its touch are uses |
| DownloadCache.FirstFiveByLastUse | cli/src/download_cache.rs:52-139 | without deletes the list is the first five names by last use |
| DownloadCache.RenamedFrom | cli/src/download_cache.rs:102-114 | the renaming succeeds if and only if one of the attempts 0 to 20 does |
| DownloadCache.OnlyTheseDirectories | cli/src/download_cache.rs:52-139 | an operation adds no directory but those of a create, the named one only with every part done, and costs none but a deleted one, old staging and that of the name used longest ago beyond five |
| DownloadCache.FailedCreateLeaves | cli/src/download_cache.rs:93-97 | a create that fails before its touch leaves the list alone and the staging directory as far as it was cleaned or made |
| DownloadCache.CacheAgrees | cli/src/download_cache.rs:52-139 | after any operations and failures every cached directory is listed, without duplicates, and list and directories exceed five by at most the number of failed evictions |
| DownloadCache.TouchedNameStays | cli/src/download_cache.rs:119-139 | in every reachable cache a touch puts its name in front and never evicts it |
| DownloadCache.DeleteForgets | cli/src/download_cache.rs:63-72 | a delete that is held up changes nothing; any other removes that directory and name and nothing else |
| DownloadCache.CreateInstalls | cli/src/download_cache.rs:93-116 | a successful create leaves the directory listed first and no staging directory, and costs at most the directory used longest ago |
| DownloadCache.RestartAgrees | cli/src/state.rs:46-70 | a new process finds the cache as it was, whatever a failed write leaves in the file, if and only if no operation came to save the list or the last one that did wrote it; list and directories then agree |
| DownloadCache.FailedWriteLosesAgreement | cli/src/state.rs:61-70 | one failed write can leave a created directory that a new process has in no list |
| ImportMerge.MergeDuplicateImports | scripts/sync-agent-host-protocol.ts:118-168 | fails exactly if some other line reads like a placeholder of a module never imported; else yields the merged lines, every import among them written as ImportsAsWritten says |
| ImportMerge.ImportsAsWritten | scripts/sync-agent-host-protocol.ts:151-168 | every import written is of types only if no line imports a value from its module, and else of the values and then the types with a modifier each; each name once, in order of first occurrence in the lines |
| ImportMerge.OneWayToWrite | scripts/sync-agent-host-protocol.ts:151-168 | that description admits only one line |
| ImportMerge.BindingsPreserved | scripts/sync-agent-host-protocol.ts:151-168 | without lines that read like placeholders the merge succeeds and binds exactly the (module, kind, name) triples of the input |
| ImportMerge.OneImportPerModule | scripts/sync-agent-host-protocol.ts:122-149 | without such lines it succeeds with one import per imported module, at the module's first place, and all other lines kept in order |
| ImportMerge.FixedPointIff | scripts/sync-agent-host-protocol.ts:151-168 | a second pass changes nothing if and only if no module imports a name both as a type and with an inline modifier |
| ReverseEdits.ApplyInReverse | scripts/sync-agent-host-protocol.ts:50-55 | for sorted, non-overlapping edits, applying them last to first in place equals applying all at once |
| ReverseEdits.EditsInPlace | scripts/sync-agent-host-protocol.ts:50-55 | in the edited text every new text stands at the start of its edit moved by the edits before it, every character outside the edits is kept, moved likewise, and there is nothing else |
| SafeToString.Stringifier.VisitValue | src/bootstrap-fork.ts:53-65 | the replacer and the walk below a value yield the specified output and `seen` list |
| SafeToString.EachReachableOnce | src/bootstrap-fork.ts:52-65 | on every graph the walk ends; it fails exactly if a reachable object has a property that cannot be serialized, and else shows each reachable object in full exactly once |
| SafeToString.VisitDepicts | src/bootstrap-fork.ts:53-65 | the output follows the graph property by property; an object is shown in full where it comes up first in print order and is the marker everywhere else; undefined is left out of objects and null in arrays |
| SafeToString.OneDepiction | src/bootstrap-fork.ts:53-65 | that description admits only one output |
| SafeToString.SafeToString | src/bootstrap-fork.ts:21-75 | the result shows the arguments one by one, an undefined one as the word and an error as its stack, or its text without one, over the depicted graph; or it says that it is longer than 100000 or cannot be inspected |

## Left out

- Sockets, task scheduling, wakers, timers and end-of-file polling: only atomic steps, ordered channels and the queue capacity are kept; a peer that never reads is a run that stops.
- EndToEnd.FramesAlwaysHandled: the id counter stops at 2^32 instead of wrapping. The peer is taken to keep to the protocol: it sends for streams it was told of, and nothing after an end.
- Calls.OneShot: the id counter stops at 2^32 instead of wrapping; Calls.IdsFreshUntilWrap says what wrapping would do.
- The MessagePack library's typed decoding: a message whose values do not fit the expected type is an error in the code, possibly before its last byte; the model frames by syntax alone. The nesting limit of that library is not modelled either.
- MessageValues.DecodesValues: a value has its shortest format, as the library writes it; longer ones are covered by MsgPack alone. Floats are their bytes.
- ReceiveLoop.Dispatcher.DispatchWithPartial: the panic on a response without an id ends the receive task; that it also poisons the lock of the call table is not modelled.
- ReceiveLoop.OneReplyPerRequest: sends are taken to succeed, so closed channels (which only drop replies) are not part of it.
- EndToEnd.DeliveredInFull: frames arrive whole and in order; the bytes on the wire are covered separately by Framing. A closed connection is a run that stops.
- Calls.FirstResponseCompletes: what a callback makes of a response body that does not decode (an error with code 0 to the caller) is not modelled.
- Backpressure.BlocksIffNoFit: how many messages stream readers send during a drain is part of the cost of a frame, which MessageCosts counts after the fact.
- Keyring.KeyringStorage.Store: the sealed text is ASCII; on other text the code's slicing may panic. Sealing and unsealing are taken as inverses and left out, as are the thread wrapper with its timeout and the file fallback.
- PersistedState.Container.Save: the JSON text and file modes are not modelled; a failed write may leave anything in the file.
- DownloadCache.CacheAgrees: operations are not interleaved, and names that end with the staging suffix or equal the state file's name are excluded. A failed removal is taken to leave its directory.
- ImportMerge.MergeDuplicateImports: starts from lines already classified and names already split and trimmed; the patterns, the whitespace collapsing and the printed form of an import are left out.
- ReverseEdits.ApplyInReverse: takes the edits as the formatter promises them, sorted and not overlapping.
- SafeToString.EachReachableOnce: objects with a conversion method of their own, dates, regular expressions and getters are outside the graphs considered; they count as text.
- OAuth, updates, the singleton lock, logging, start-up code and the remaining scripts: no algorithm whose proof would add anything.
