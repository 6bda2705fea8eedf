# Verification of the concurrency library's core

The library runs Lua tasks on a pool of threads. Tasks belong to sessions, one Lua state each; they
exchange values over channels; a value crosses from one state to another as a message. Below that lie
an ordered map, a queue and a growable buffer. This project models these parts in Dafny and proves what
they are for, with the pointer code in the form the C code has, and the concurrent parts as transition
systems in which every locked region is one step.

## What is modelled

**The ordered map (`src/map.c`).** `aa_tree.dfy` describes the map's AA tree as a value whose forks carry
the heap node they stand for; `aa_path.dfy` adds positions in a tree, the height bound and the contents
as a finite map. `ordered_map.dfy` is the C code on heap nodes with two links and one shared sentinel:
insertion and removal with an explicit array of 64 nodes, the skew and split macros, lookup, ordered
visit, and destruction by rotation. Each method is tied to the tree it leaves behind, and no method may
write to the sentinel. `cursor.dfy` is the cursor with its path array.

**Messages (`src/lc_message.c`, `src/message.c`).** A value graph, shared and cyclic, becomes a token
array (`encoding.dfy` as a function, `builder.dfy` as the code), is flagged for references, and is read
back (`decoding.dfy`, `decoder.dfy`) into new tables. The main theorem, `Decoding.RoundTrip`, says that
the copy is isomorphic. `wire.dfy` and `message.dfy` are the byte layer. There the code falls short: a
reference adds four bytes to the byte count and eight to the message. The project keeps the code as it
is and proves exactly when a message still comes back whole (`Wire.ByteRoundTrip`) and exactly when the
block that is allocated is large enough (`Message.AllocationSuffices`), with a message of three values
that does not come back (`Message.SharedTableLosesNil`). `sharing.dfy` says it in terms of the values: a
message has no reference if and only if no table is mentioned twice (`Sharing.ReferencesExactly`), and
then the code as it is delivers an isomorphic copy (`Message.Deliver`). `sizes.dfy` tells the remaining
conditions from the values too: whether their sizes fit the format (`Sizes.RepresentableExactly`) and
whether the bytes missing from the count cost the last token (`Message.SurvivesExactly`).

**Channels (`src/lc_channel.c`).** `channel.dfy` has the three operations with the callbacks they make;
`channel_runs.dfy` proves what holds over whole runs. A read takes a buffered message and a waiting
writer at once, and then that writer's message reaches nobody. So a channel is first in, first out, with
nothing lost, if and only if no read of the run finds both (`ChannelRuns.FifoExactly`). That can be told
from the operations alone: there is no buffer, or no read is asked for while the writes lead the reads by
more than the buffer holds (`ChannelRuns.FifoByCounting`). An unbuffered channel always qualifies, and for
every other there is a run that does not (`ChannelRuns.EveryBufferLoses`). Writers are called back once
each, in turn while nothing collides (`ChannelRuns.WritersTold`).

**Sessions (`src/lc_session.c`).** `session.dfy` lets any number of pool workers interleave in one
session, spurious and early returning ones included: one job at a time, each job once, in order, no job
forgotten, a measure by which every interleaving drains the queue, and a post for whoever waits for that.

**Tasks (`src/lc_task.c`, with channels and sessions).** `tasks.dfy` puts all channels, sessions and tasks
into one transition system, built from the steps of the two modules before it. A callback is a step of
its own (it tests the status and then queues a job), so it can come before its task has yielded.
`task_steps.dfy` and `task_runs.dfy` prove that a waiting task has exactly one wake-up on its way, that a
popped job never meets a running or finished task, and that a system at rest has lost nobody. The one
exception is a close: it forgets the tasks that wait, and if it falls between the script's own test of the
channel and the operation's, the task yields with nothing to wake it. `stranding.dfy` says exactly when
this happens to a given task, that such a task is never woken in any continuation, and gives a run that
ends so (`Stranding.ACloseStrands`).

**The thread pool (`src/lc_thread.c`).** `pool.dfy` counts permits, jobs and workers. The exit test and
the decrement of the counter are apart, so the lower limit of threads is no invariant:
`ThreadPools.TwoTimeoutsStrandAJob` is a run of the shipped limits that leaves a job without a worker,
and `ThreadPools.ServedIffStaffed` with `ThreadPools.StaffedBySubmit` says exactly when a submitted job
can be reached.

**Queue and buffer (`src/queue.c`, `src/buffer.c`).** `queue.dfy` is the linked queue with its embedded
head and tail pointer. `queue_clear` takes a NULL element for the end; `Queues.ClearsAll` says exactly
when it clears everything. `buffer.dfy` is the growable buffer, with the cost of growing.

`option.dfy`, `errors.dfy`, `sequences.dfy` and `numbers.dfy` hold what several parts share.

## Where the code and its comments differ

- The comment on `map_insert` (`src/map.c:125`) promises to overwrite an equal key. With a copy callback
  the code passes the item instead of the place of the item (`src/map.c:146`). So the callback stores the
  address of its copy at the start of the item that has just been released, where the key is, and the key
  is no longer found. `OrderedMap.Map.Insert` says exactly when the key gets its new value: when there is
  no copy callback or the key was not there. `OrderedMap.InsertTwiceWithCopy` is an input that fails.
- `map_remove` lowers the counter of a map that is already empty (`src/map.c:272`);
  `OrderedMap.Map.Remove` states this, and that the counter is right in every other case, and
  `OrderedMap.RemoveFromNothing` is such an input.

## Model

| member | source | states |
|---|---|---|
| AaTree.RotatedRight | src/map.c:89-93 | the rotation of `map_clear` (and of `skew`) keeps nodes and items in order and makes the left subtree smaller |
| AaTree.SkewKeeps | src/map.c:9-17 | `skew` keeps the nodes, the items and their order |
| AaTree.SplitKeeps | src/map.c:19-28 | `split` keeps the nodes, the items and their order |
| AaTree.RebalanceKeeps | src/map.c:252-262 | all that a removal does to one node on the way up keeps the nodes, the items and their order |
| AaTree.GrowLeft | src/map.c:166-174 | insertion below on the left: one skew and one split restore the level invariant; the subtree rises by at most one, and only from a horizontal right link to a root without one |
| AaTree.GrowRight | src/map.c:166-174 | the same for an insertion below on the right |
| AaTree.ShrinkLeft | src/map.c:246-262 | removal below on the left: the skews and splits restore the level invariant; the subtree sinks by at most one level and on its old level gains no horizontal right link |
| AaTree.ShrinkRight | src/map.c:246-262 | the same for a removal below on the right |
| AaPath.InsertUpBalanced | src/map.c:166-179 | over the whole walk back an insertion keeps the tree balanced and raises it by at most one level |
| AaPath.InsertUpCarries | src/map.c:166-179 | the walk back of an insertion keeps all items in order and loses or doubles no node |
| AaPath.RemoveUpBalanced | src/map.c:246-269 | over the whole walk back a removal keeps the tree balanced and lowers it by at most one level |
| AaPath.RemoveUpCarries | src/map.c:246-269 | the walk back of a removal keeps all items in order and loses or doubles no node |
| AaPath.SingleChildIsRight | src/map.c:214-222 | a node with a missing child has no left one: why `map->root = it->link[1]` is right |
| AaPath.LevelBound | src/map.c:19-28 | a tree at level k has at least 2^k - 1 items and height at most 2k |
| AaPath.HeightBound | src/map.h:15-17 | the fewest items that a tree of a given height can have |
| AaPath.HeightBoundIsSharp | src/map.h:15-17 | for every height there is a map (balanced, keys ascending, no node twice) with exactly that many items |
| AaPath.LimitsAreMinItems | src/map.h:15-17 | the sizes at which a path of 64 nodes may overflow: 3 * 2^32 - 2 items on insertion, 2^33 - 2 on removal, which stores the sentinel too, 2^34 - 2 in a cursor, which stores ancestors only |
| AaPath.PathsFit | src/map.c:135-140 | below those sizes no path is too long for the array |
| AaPath.ItemInserted | src/map.c:163-179 | the tree after the walk back is balanced, in order, and holds the old items and the new one |
| AaPath.KeyGone | src/map.c:145-149 | in ascending items, one whose key is written over takes its key out of the map |
| AaPath.RemovedSingle | src/map.c:214-225 | unlinking a node without left child and walking back: exactly its key is gone from the contents and exactly its node from the tree, which is balanced and in order |
| AaPath.RemovedDouble | src/map.c:226-244 | moving the heir up and unlinking its node: exactly the removed key is gone from the contents and exactly the node of the heir from the tree |
| AaPath.SearchStep | src/map.c:114-120 | the key sought stays between what lies before and after the position reached |
| AaPath.SearchMisses | src/map.c:122 | a search that ends at the sentinel proves that the key is not in the map |
| AaPath.SearchHits | src/map.c:117 | a search that stops has found the value of the key |
| AaPath.WalkIsInorder | src/map.c:282-288 | the traversal order of a cursor is the order of `map_ordered`, or its reverse |
| AaPath.PlugWalk | src/map.c:327-355 | at any position: what a cursor has passed, what it is at, and what is ahead make up the whole traversal |
| OrderedMap.Node.Sentinel | src/map.c:6 | the static sentinel: level 0, no data, both links to itself |
| OrderedMap.RotateNode | src/map.c:89-93 | in the heap, the rotation of the tree; the sentinel and every other node stay as they are |
| OrderedMap.SkewNode | src/map.c:9-17 | the macro in the heap does the skew of the tree |
| OrderedMap.SplitNode | src/map.c:19-28 | the macro in the heap does the split of the tree |
| OrderedMap.SkewLink | src/map.c:258 | `skew(up->link[1])`, also when the link is the sentinel, which is not written |
| OrderedMap.SkewLinkLink | src/map.c:259 | `skew(up->link[1]->link[1])` likewise |
| OrderedMap.SplitLink | src/map.c:261 | `split(up->link[1])` likewise |
| OrderedMap.RebalanceNode | src/map.c:252-262 | the pointer code of one round of a removal does the rebalancing of the tree |
| OrderedMap.Map.constructor | src/map.c:52-62 | a new map is empty and valid |
| OrderedMap.Map.Find | src/map.c:109-123 | the value of the key in the map, NULL when it is missing; the number of comparisons is at most the height bound, twice the logarithm of the size |
| OrderedMap.Map.Ordered | src/map.c:282-288 | every item once, in ascending order |
| OrderedMap.Map.Clear | src/map.c:76-98 | destruction by rotation ends, and releases every item once, in ascending order |
| OrderedMap.Map.Hang | src/map.c:174-178 | fixing the parent, or the root, puts the new subtree in place |
| OrderedMap.Map.Insert | src/map.c:126-185 | a new key is added; an equal one has its old item released and is overwritten. With a copy callback an equal key is lost instead: the callback writes the address of the copy into the item just released, that one item becomes what the write leaves, and the key is no longer in the map. The contents become the old ones with the key set if and only if there is no copy callback or the key was not there; the counter follows the number of items; NULL is refused |
| OrderedMap.Map.InsertBelow | src/map.c:133-180 | the case of a map with a root: added, overwritten, or with a copy callback the key lost |
| OrderedMap.Map.Descend | src/map.c:138-161 | the search for the spot, with every write to the path array in range |
| OrderedMap.Map.Overwrite | src/map.c:141-155 | an equal key without a copy callback: the tree differs in the one item, every node, level and link the same |
| OrderedMap.Map.StoreAddress | src/map.c:145-149 | the copy callback handed the item in place of the pointer to it: one item of the in-order sequence becomes what the write leaves, its key is gone, and every node, level and link is the same |
| OrderedMap.InsertTwiceWithCopy | src/map.c:145-149 | the input that fails: with a copy callback, a key inserted twice is not found |
| OrderedMap.Map.WalkBackInsert | src/map.c:163-179 | the new node and the walk back: valid, one node more, the contents with the new item |
| OrderedMap.Map.RiseInsert | src/map.c:166-179 | the loop over the path array does the walk back of the tree |
| OrderedMap.Map.Remove | src/map.c:187-275 | the contents without the key, or the same tree when it is missing; what is returned; one node given back to the allocator, which was in the tree and is no longer; and that on an empty map the counter still goes down |
| OrderedMap.Map.RemoveBelow | src/map.c:192-270 | the case of a map with a root, valid again, with exactly the old contents minus the key and the old nodes minus the one freed |
| OrderedMap.RemoveFromNothing | src/map.c:272 | the input for which the counter is wrong: a new map, one removal, size -1 |
| OrderedMap.Map.Locate | src/map.c:197-211 | the search that saves the sentinel too on a miss, with every write to the path array in range |
| OrderedMap.Map.RemoveSingle | src/map.c:214-225 | the single child case, with its shortcut at the root: exactly the node of the key leaves the tree, and is not written after that |
| OrderedMap.Map.Unlink | src/map.c:218-225 | the node unlinked is written neither by the unlinking nor by the walk back |
| OrderedMap.Map.RemoveDouble | src/map.c:226-244 | the two child case: exactly the node freed leaves the tree, and it is the one of the heir |
| OrderedMap.Map.FindHeir | src/map.c:228-234 | the heir is the next larger item, found with the path array extended in range |
| OrderedMap.Map.RiseRemove | src/map.c:246-269 | the loop over the path array does the walk back of the tree |
| MapCursor.Cursor.Push | src/map.c:331-332 | one step down, with the write to the path in range |
| MapCursor.Cursor.Start | src/map.c:306-321 | the first (or last) item, with every other one ahead and none behind, whatever the cursor was used for before |
| MapCursor.Cursor.Move | src/map.c:327-355 | the next item in the direction asked for, the rest still ahead, the one left now behind; and NULL at the end, for good |
| MapCursor.Cursor.Descend | src/map.c:329-337 | the branch that goes down |
| MapCursor.Cursor.Ascend | src/map.c:338-351 | the branch that goes up, off the end when nothing is ahead |
| MapCursor.Cursor.Traverse | src/map.c:357-371 | from a cursor in any state: `map_first` and `map_next` to the end visit what `map_ordered` visits; `map_last` and `map_prev` visit the exact reverse |
| MapCursor.Cursor.ThereAndBack | src/map.c:365-371 | `map_prev` undoes `map_next` and the other way round, while not off the end |
| Encoding.UnseenShrinks | src/lc_message.c:39-62 | why encoding ends on cyclic tables: entering a table into `refmap` leaves fewer to be written |
| Encoding.EncSound | src/lc_message.c:100-194 | every reference leads back to an earlier token, which is a table token (or was on record before); what is put on record is the index of the token that holds the number of pairs and the `lua_objlen` of that very table, no two tables have the same one, and every table token is that of a table newly on record: each table met is written exactly once |
| Encoding.EncTableSound | src/lc_message.c:119-140 | the same for a table, cycles back to it included |
| Encoding.EncPairsSound | src/lc_message.c:134-139 | the same for the pairs of a table |
| Encoding.EncAllSound | src/lc_message.c:204-206 | the same for the values of a message |
| Sharing.RecordsPast | src/lc_message.c:39-62 | what encoding puts on record is what is reached from the values without passing through a table already there |
| Sharing.RecordsReached | src/lc_message.c:39-62 | the tables on record after encoding are exactly those reached from the values |
| Sharing.ReferencesExactly | src/lc_message.c:53-61 | a message has one reference for every mention of a table but the first of each: none if and only if no table is mentioned twice |
| Sizes.MessageMeasured | src/lc_message.c:100-211 | the number of tokens of a message is the number of parts of its values and of the tables they reach, and the tokens fit the format if and only if every string, code and table does |
| Sizes.RepresentableExactly | src/message.c:53-88 | a message without a second mention, or of no more tokens than an index can count, can be written as it is if and only if the sizes of its strings, codes and tables fit |
| Sizes.LastTokenBytes | src/message.c:112-186 | the length of the last token of a message, told from its values: that of the last value inside the last value, eight bytes if it is a table already reached by then |
| MessageBuilder.Builder.NextIndex | src/message.c:12-23 | the next index; a full array is replaced by one twice as large with all its tokens copied |
| MessageBuilder.Builder.PushReference | src/message.c:151-163 | the target is flagged; only the index is counted in bytes |
| MessageBuilder.Builder.WriteValue | src/lc_message.c:100-194 | appends the encoding of the value, flags what it refers to, adds its bytes, and raises the value count by exactly one, whatever the nesting |
| MessageBuilder.Builder.WriteTable | src/lc_message.c:119-140 | the same for a table: a reference when it is on record, else the table, on record before its pairs |
| MessageBuilder.Builder.WriteFunction | src/lc_message.c:148-168 | the same for a function and its upvalues |
| MessageBuilder.Builder.WriteAll | src/lc_message.c:204-206 | the same for a sequence of values: the count rises by their number |
| Decoding.RawSetAppends | src/lc_message.c:249-253 | setting the decoded pairs one after the other rebuilds the table: no key is overwritten, none removed |
| Decoding.DecodesValue | src/lc_message.c:213-288 | decoding where an encoded value lies rebuilds it under a renaming of tables that only grows |
| Decoding.DecodesTable | src/lc_message.c:242-255 | the same for a table, registered before its pairs are decoded |
| Decoding.DecodesReference | src/lc_message.c:273-277 | a reference finds the table it was made for |
| Decoding.DecodesPairs | src/lc_message.c:249-253 | the same for the pairs still to come, while the table is being filled |
| Decoding.DecodesFunction | src/lc_message.c:256-262 | the same for a function and its upvalues |
| Decoding.TopIsCount | src/lc_message.c:300-301 | the loop of `lua_decodemessage` stops after exactly the values written |
| Decoding.TopFallsShort | src/lc_message.c:300-301 | decoding fewer tokens gives fewer values |
| Decoding.RoundTrip | src/lc_message.c:290-308 | any values over any graph of tables, shared and cyclic, are rebuilt up to the names of tables, one to one: exactly the tables reached from the values, and nothing else, is created; from fewer tokens come fewer values |
| MessageDecoder.Decoder.DecodeValue | src/lc_message.c:213-288 | the recursive reader computes the decoding function, moving the cursor and filling tables |
| MessageDecoder.Decoder.FillTable | src/lc_message.c:249-253 | the loop over the slots does the same for the pairs |
| MessageDecoder.Decoder.Set | src/lc_message.c:252 | `lua_rawset`: a nil value removes, a nil key is an error |
| MessageDecoder.Decoder.DecodeUpvalues | src/lc_message.c:258-261 | the loop over the upvalues |
| MessageDecoder.Decoder.DecodeMessage | src/lc_message.c:290-308 | all top-level values; a single nil for an empty message |
| Wire.IntRoundTrip | src/message.c:234-236 | a 32-bit integer comes back from its four bytes |
| Wire.TypeComesFirst | src/message.h:15-29 | every token starts with the code of its type, and 0x20 for one referred to, least byte first |
| Wire.Layout | src/message.c:53-88 | where the parts of every kind of token lie, and how long it is |
| Wire.WrittenBytes | src/message.c:42-94 | the bytes written are those counted, and exactly four more for every reference |
| Wire.NextReads | src/message.c:242-283 | where a token was written it is read back, flag and payload, with the offset of the next |
| Wire.ReadsWritten | src/message.c:242-283 | repeated reading returns a prefix of what was written, and when it is all |
| Wire.ByteRoundTrip | src/message.c:42-94 | reading a whole message returns a prefix of its tokens, and all of them if and only if the last is longer than four bytes per reference |
| Message.Store | src/message.c:34-40 | the bytes go to the write position and nowhere else |
| Message.WriteTokens | src/message.c:53-88 | the loop writes the byte form of the tokens, in range of a block that is large enough |
| Message.AllocationSuffices | src/message.c:46-51 | what `msg_new` allocates is large enough if and only if the message has no reference |
| Message.MsgCursor.Drain | src/message.c:242-283 | from a fresh cursor, token i comes with index i, up to the first -1 |
| Message.NewMessage | src/lc_message.c:196-211 | tokens, byte count, value count and reference count of a message; `refs` is twice the number of references |
| Message.Transfer | src/lc_message.c:196-308 | building and decoding a message, before it is turned into bytes: an isomorphic copy; for no values, one nil |
| Message.SurvivesExactly | src/message.c:42-94 | the size field reaches the last token if and only if four bytes for every mention of a table but the first of each are less than that token, both told from the values |
| Message.EndToEnd | src/lc_message.c:196-308 | through bytes, for values whose sizes fit: when four bytes for every repeated mention of a table are less than the last token an isomorphic copy, and otherwise fewer values than were sent |
| Message.Deliver | src/lc_message.c:196-308 | the code of both layers in turn, in the block that is allocated: when no table is mentioned twice and the sizes of the values fit, the message comes back as an isomorphic copy |
| Message.DeliverWithRoom | src/lc_message.c:196-308 | not the allocation of the code but four bytes more for every reference: then every message can be written, and comes back if and only if these bytes are less than its last token, else with fewer values |
| Message.SharedTableLosesNil | src/message.c:151-163 | a message that does not meet the condition: a table sent twice and then nil |
| Channels.StepConsistent | src/lc_channel.c:186-259 | in every step: while readers wait, no message and no writer does; the buffer stays within its size; a closed channel is empty |
| Channels.Answers | src/lc_channel.c:186-259 | what an open channel answers: a write SUCCESS just when it did not find the buffer full, else ERR_FULL; a read ERR_EMPTY just when it is left waiting; a successful caller is called back first, with its own event, a writer that found the buffer full last or not at all |
| Channels.OnlyCloseTells | src/lc_channel.c:138-150 | a close leaves the channel empty and tells everybody who waits, readers first, that it is closed; no other operation tells anybody so |
| Channels.Channel.constructor | src/lc_channel.c:152-172 | a new channel is open and empty and holds as many messages as asked for; a negative size stands for INT_MAX |
| Channels.Channel.WriteMessage | src/lc_channel.c:186-228 | a write meets the first waiting reader, or is buffered, or waits, or is refused; all callbacks in their order; a reader popped always comes with a message |
| Channels.Channel.ReadMessage | src/lc_channel.c:230-259 | a read takes the first message and releases the first writer, or waits, or is refused; all callbacks in their order |
| Channels.Channel.ClearReaders | src/lc_channel.c:144 | every waiting reader is called back as closed, in order |
| Channels.Channel.ClearWriters | src/lc_channel.c:145 | every waiting writer is called back as closed, in order |
| Channels.Channel.CloseChannel | src/lc_channel.c:138-150 | the queues are emptied and the channel is closed; closing again does nothing |
| ChannelRuns.OpenRun | src/lc_channel.c:186-259 | over every run without a close: the reads served and those waiting are the reads asked, in order; while nothing was dropped, the messages delivered, buffered and waiting are those written, in order; and always none is lost but those dropped |
| ChannelRuns.Matching | src/lc_channel.c:186-259 | delivery k goes to read k, and while nothing was dropped it carries message k |
| ChannelRuns.WritersTold | src/lc_channel.c:186-259 | over every run without a close: each accepted write is called back once with the event for a write, or its writer waits; nobody is told that the channel is closed; and while no read has collided writers are told in turn, each with its own message |
| ChannelRuns.DroppedCounts | src/lc_channel.c:239-258 | nothing is dropped exactly when no read finds both a buffered message and a waiting writer |
| ChannelRuns.FifoExactly | src/lc_channel.c:239-258 | a run is first in, first out, with nothing lost, if and only if no read finds both |
| ChannelRuns.UnbufferedNeverCollides | src/lc_channel.c:199-205 | with an empty buffer no read ever finds both |
| ChannelRuns.CollidesExactly | src/lc_channel.c:199-258 | whether some read of a run finds both can be told from the operations: just when there is a buffer and a read is asked for while writes lead reads by more than it holds |
| ChannelRuns.FifoByCounting | src/lc_channel.c:186-259 | so a run is first in, first out, with nothing lost, if and only if the channel was made with size 0 or no read is asked for while the lead is greater than the size (INT_MAX for a negative one) |
| ChannelRuns.FifoChannels | src/lc_channel.c:152-259 | an unbuffered channel always is; an unlimited one if and only if no read finds more than INT_MAX messages outstanding |
| ChannelRuns.HoldsItsSize | src/lc_channel.c:152-205 | a channel made for a number of messages holds that many: while no read has collided, its buffer, its waiting writers and its waiting readers are what the lead of the writes over the reads and the size say |
| ChannelRuns.HoldsManyWrites | src/lc_channel.c:152-205 | of writes alone, none has to wait if and only if they are no more than the size asked for |
| ChannelRuns.EveryBufferLoses | src/lc_channel.c:239-258 | every channel with a buffer can lose a message: one write more than it holds, then a read |
| ChannelRuns.BoundedChannelLoses | src/lc_channel.c:239-258 | a buffer of one, two writes and a read: the second message reaches nobody, though its writer is told it was written |
| ChannelRuns.AnswerStep | src/lc_channel.c:89-97 | a step answers or queues each id once more than it was asked before, closing included |
| ChannelRuns.AllAnswered | src/lc_channel.c:89-97 | over every run, for every buffer size and with closes anywhere: callbacks made and entries queued are the operations accepted |
| ChannelRuns.CalledBackOnce | src/lc_channel.c:89-97 | an accepted operation is called back at most once, and not at all exactly while it is queued |
| ChannelRuns.ClosedStaysClosed | src/lc_channel.c:189 | a closed channel accepts nothing and calls nobody |
| Sessions.InvStep | src/lc_session.c:196-256 | one worker in a running session and none in a ready one; a ready session with jobs has a submission pending |
| Sessions.OnceInOrder | src/lc_session.c:196-256 | over every run: jobs run, the job in progress and the queue are the jobs enqueued, in order; submissions, runner and semaphore posts together never exceed them; and a session that was given jobs and has nobody inside is submitted, or has posted that it is ready for more |
| Sessions.EverySubmission | src/lc_session.c:204-256 | over every run: the jobs queued while nobody was inside are as many as the submissions pending, the workers inside, the posts made and the submissions that came to nothing, all together |
| Sessions.WorkShrinks | src/lc_session.c:221-256 | every step of a worker, an early return or an empty run included, lowers the measure of work left |
| Sessions.Drains | src/lc_session.c:221-256 | without new jobs every interleaving of workers stops, and stops only with the queue empty, the status ready and nothing pending |
| Sessions.EverythingRan | src/lc_session.c:180-256 | when it has stopped, exactly the jobs enqueued have run, in their order, and whoever waits for the session was posted to if there was any job |
| Sessions.Session.QueueTask | src/lc_session.c:204-214 | the job is last in line, the session stays in order, and a worker is there or will come: one submission more just when nobody is inside |
| Sessions.Session.BeginRun | src/lc_session.c:225-235 | an early return when it is running; else the only worker, with the first job enqueued that was not run |
| Sessions.Session.EndRun | src/lc_session.c:242-252 | the job counts as run, nobody is left inside, and if there are more jobs a worker will come, else the semaphore is posted |
| Sessions.RunOne | src/lc_session.c:221-256 | all of `session_run` by a worker alone in the session: the next job run, less work left |
| Sessions.RunAll | src/lc_session.c:221-256 | a single worker given every submission runs all jobs in order and stops, with the semaphore posted if there was any job |
| Tasks.TaskRecord.Enter | src/lc_task.c:111-135 | ready with a message or suspended: running; anything else is taken for finished |
| TaskSteps.ChannelMoves | src/lc_channel.c:186-259 | a channel operation turns its own id and the waiting ids into waiting ids and callbacks, none lost or doubled |
| TaskSteps.WhoIsCalled | src/lc_channel.c:394-415 | `task_callback` resumes the tasks that are told of a read or a write, and leaves those told of a close: so any operation but a close wakes everybody it calls, and a close nobody |
| TaskSteps.PoppedResumable | src/lc_task.c:113-135 | under the invariant a popped job finds its task ready or suspended |
| TaskSteps.CallAccepted | src/lc_task.c:165-173 | under the invariant a callback finds its task neither finished nor failed |
| TaskSteps.SessionActs | src/lc_session.c:221-256 | entering a task uses up its wake-up; the other steps of a worker only pass wake-ups on |
| TaskSteps.OtherActs | src/lc_channel.c:394-475 | a new task and a channel operation bring one wake-up each; the other steps only pass them on |
| TaskSteps.CountStep | src/lc_task.c:105-173 | every step keeps the number of wake-ups of every task what its status asks for |
| TaskSteps.InvStep | src/lc_task.c:105-173 | every step of the system keeps the whole invariant |
| TaskRuns.DefaultNeverTaken | src/lc_task.c:133-134 | in every reachable state of channels, sessions and tasks, a popped job finds its task ready or suspended, also when the callback came before the yield |
| TaskRuns.NoCallbackRefused | src/lc_task.c:165-173 | in every reachable state, no callback in flight is for a task that has ended |
| TaskRuns.OneRunner | src/lc_session.c:221-256 | in every reachable state, no task runs twice and no session runs two tasks |
| TaskRuns.StatusTells | src/lc_task.c:105-147 | in every reachable state a task has failed just when its script last came back with LUA_ERRRUN, is suspended just when it last yielded, and finished just when it came to its end |
| TaskRuns.OneWakeUp | src/lc_channel.c:394-475 | in every reachable state, a suspended, ready or yielding task has exactly one wake-up on its way and any other none; the exception, and the only one, is a task whose channel was closed |
| TaskRuns.NobodyStranded | src/lc_channel.c:410-411 | without a close there is no exception |
| TaskRuns.RestLosesNobody | src/lc_channel.c:394-475 | when nothing moves, the tasks waiting on a channel, once each, and those stranded by a close are exactly the ready and suspended ones; every other task has finished, failed, or was left running by an unknown error code |
| TaskRuns.WaitsSomewhere | src/lc_channel.c:394-475 | with nothing closed, each task at rest that is ready or suspended waits on exactly one channel, once |
| TaskRuns.StartPopped | src/lc_task.c:105-130 | the code of `task_run` on a popped job, in any reachable state: the script is resumed, and the record agrees with the step of the system; only a new task whose job has no message is finished instead |
| TaskRuns.StopRunning | src/lc_task.c:137-147 | the code of `task_run` after the script: the record agrees with the step of the system; it has failed, is suspended or finished just when the code says so, and stays running only with an unknown error code |
| TaskRuns.Resume | src/lc_task.c:165-173 | the code of `task_resume` from a callback in flight, in any reachable state: not refused |
| Stranding.StrandedExactly | src/lc_channel.c:394-415 | a given task is stranded in a run if and only if some step of it closed an open channel on which the task waited, or was an operation of the task that came after a close |
| Stranding.NobodyExactly | src/lc_channel.c:394-415 | nobody is stranded in a run if and only if no step of it did so to any task |
| Stranding.StrandedIsLost | src/lc_channel.c:410-411 | in every reachable state a stranded task is suspended or about to be, and nothing is on its way to wake it |
| Stranding.LostStays | src/lc_channel.c:394-415 | no step of anybody wakes it |
| Stranding.LostForever | src/lc_channel.c:394-415 | nor does any continuation of the run: once suspended it never changes |
| Stranding.ACloseStrands | src/lc_channel.c:138-150 | a run that strands a task: it reads from an unbuffered channel, waits, and the channel is closed |
| ThreadPools.InvStep | src/lc_thread.c:350-405 | queue length equals permits plus workers that hold a permit; the thread counter equals the workers not signed off |
| ThreadPools.PopFindsAJob | src/lc_thread.c:361-367 | in every run, a worker with a permit pops a job, never NULL: workers leave by timing out only |
| ThreadPools.FirstComeFirstServed | src/lc_thread.c:350-405 | in every run, jobs are dispatched once each, in the order submitted |
| ThreadPools.ThreadsWithinLimits | src/lc_thread.c:393-400 | with fixed limits there are never more threads than the greater limit |
| ThreadPools.StartsAThread | src/lc_thread.c:383-405 | a submission starts a thread if and only if `pthread_create` succeeds and there are fewer than the lower limit, or fewer than the upper limit when it finds other jobs queued |
| ThreadPools.ThreadsStarted | src/lc_thread.c:383-405 | over every run in which creations succeed and nobody signs off, there are at least as many threads as submissions, up to the lower limit; and while no job is taken off their number is known exactly from both limits |
| ThreadPools.ServedIffStaffed | src/lc_thread.c:350-381 | the workers can get to the first job if and only if one is in the loop, or at its exit test with a lower limit of at least one |
| ThreadPools.StaffedBySubmit | src/lc_thread.c:383-405 | after a submission this holds if and only if it held before or the submission starts a thread, by the two limits and what is queued |
| ThreadPools.UnstaffedForever | src/lc_thread.c:350-381 | otherwise nothing the workers do changes it |
| ThreadPools.TwoTimeoutsStrandAJob | src/lc_thread.c:350-381 | a run with limits 1 and 2 that ends so: a job in the queue and no worker, since test and decrement are apart |
| ThreadPools.Pool.Submit | src/lc_thread.c:383-405 | the job is last in line with its permit; permits, jobs and workers agree; a thread is started exactly when creation succeeds and one of the two limits asks for it, and then there is one worker more; the pool is staffed exactly when it was or that is so |
| ThreadPools.Pool.TakePermit | src/lc_thread.c:352 | a worker that gets a permit is sure of a job |
| ThreadPools.Pool.PopJob | src/lc_thread.c:361-367 | the first job, never NULL, dispatched in its turn |
| ThreadPools.Pool.AfterTimeout | src/lc_thread.c:352-359 | a worker leaves only if the workers that have not signed off, itself and others on their way out included, are more than the lower limit |
| ThreadPools.Pool.SignOff | src/lc_thread.c:379 | the counter stays the number of workers that have not signed off, and never goes below zero |
| ThreadPools.Pool.SetThreads | src/lc_thread.c:409-417 | each new limit takes the place of its own; no thread starts or ends and no job moves |
| ThreadPools.RunAll | src/lc_thread.c:350-377 | a single worker, when nobody else holds a permit, runs every job in order and goes back to wait |
| Queues.Queue.constructor | src/queue.c:22-31 | an empty queue, its tail at its own head |
| Queues.Queue.Push | src/queue.c:46-56 | the element is added at the end, in the linked nodes |
| Queues.Queue.Pop | src/queue.c:58-73 | the first element is taken off, the tail put back to the head with the last one; NULL from an empty queue |
| Queues.Queue.Peek | src/queue.c:75-82 | the first element stays |
| Queues.Queue.IsEmpty | src/queue.c:100-102 | the tail is at the head exactly when there are no elements |
| Queues.Queue.Clear | src/queue.c:84-92 | elements are released up to the first NULL, which is taken off too; what follows it stays |
| Queues.ClearsAll | src/queue.c:84-92 | clearing leaves nothing if and only if no element before the last is NULL |
| Queues.ReleasedOrKept | src/queue.c:84-92 | every element is released in order, kept in order, or the one NULL that stopped it |
| Buffers.Buffer.constructor | src/buffer.h:16-21 | an empty buffer on its own block |
| Buffers.Buffer.Grow | src/buffer.c:13-31 | enough space, less than half as much again and eight, every byte kept; all copying so far is at most twice the capacity |
| Buffers.Buffer.WriteAt | src/buffer.c:72-78 | the bytes are known where they were written and everything known elsewhere stays; position, end and capacity keep their order |
| Buffers.Buffer.Write | src/buffer.c:64-70 | the same at the position, which moves on |
| Buffers.Buffer.Reserve | src/buffer.c:94-102 | the space is in range and the position moves past it |
| Buffers.Buffer.Seek | src/buffer.c:104-110 | the position moves within what was written, else ERR_OVERFLOW |
| Buffers.Buffer.ReadFrom | src/buffer.c:86-92 | bytes exactly when the range lies before the end, and they are those known there |
| Buffers.Buffer.Read | src/buffer.c:80-84 | the same at the position, which moves on only when something was read |
| Buffers.LastWriteStays | src/buffer.c:64-78 | over any sequence of operations a byte is there at the end unless written over |
| Buffers.EndIsFarthest | src/buffer.c:64-110 | over any sequence of operations the end is as far as any of them has reached, and no further |
| Buffers.ReservedIsKept | src/buffer.c:64-102 | a write after space was reserved leaves that space alone, and filling it in later leaves the write alone: both are there, one after the other |
| Buffers.WritesWhereSought | src/buffer.c:64-110 | the next write goes to where a seek has gone, or, if that was refused, to where the position was |
| Buffers.WritesJoin | src/buffer.c:64-70 | chunks written in turn make up the buffer, end to end |
| Buffers.WriteThenRead | src/buffer.c:64-92 | chunks written and then read with the same sizes come out as they went in, across every growth |

## Left out

- OrderedMap.Map.Insert: what the released item reads as once the copy callback has written to it is the parameter `stored`, which may be anything whose key, read from the stored address, differs from the key inserted. That reads and writes of released memory have no other effect is taken for granted.
- OrderedMap.Map.Clear: leaves the root and the counter as they were, as the code does, so it says nothing about using the map afterwards.
- OrderedMap.Map.Remove: the size bound is the one under which the path of 64 nodes cannot overflow; `AaPath.HeightBoundIsSharp` shows that a larger map can need a longer path.
- OrderedMap.Map.constructor: keys are integers under their usual order; the compare callback is taken to be a total order.
- MapCursor.Cursor.Move: the map must not change while a cursor is on it.
- MessageBuilder.Builder.WriteValue: counters are unbounded integers, and `refmap` is a finite map from table addresses to token indices, not the tree of `src/map.c`.
- Decoding.RoundTrip: a function is its code and its upvalues; decoding makes a new function every time, so the identity of functions, and functions that are their own upvalues, are not covered. Table keys that are numbers are compared by their eight bytes.
- Decoding.DecodesValue: metatables are not modelled; `write_value` returns SUCCESS for a table and so flags token 0 in place of the metatable.
- MessageDecoder.Decoder.DecodeValue: on a stream that breaks off inside a value the code goes on with a short Lua stack; the model stops there.
- Message.EndToEnd: when a message breaks off inside a table or function, fewer values is what the model's reader gives, which stops there; see the line before.
- Wire.ByteRoundTrip: the four bytes of an integer are taken in the order of a little-endian machine, and a read beyond the block is taken for the end.
- Channels.Channel.WriteMessage: the test for a closed channel, made before the lock is taken, is one step with the operation; writes that slip in after a close are not covered.
- Tasks.TaskRecord.Enter: the task that runs is passed along, since thread-local storage keeps only the first task a thread ran (`src/lc_task.c:13-20`).
- TaskRuns.OneWakeUp: channel operations are the only source of yields, scripts do not resume tasks themselves, jobs carry a message, and no handle of a task, session or channel is collected while in use.
- Sessions.Drains: takes for granted that the pool starts every submission; `ThreadPools.TwoTimeoutsStrandAJob` shows that it need not.
- ThreadPools.ServedIffStaffed: says what the workers can do, not that the scheduler lets them.
- Queues.Queue.Push: a copy callback is taken to give an equal element.
- Queues.Queue.Pop: the node taken off is freed in C; here it is only unlinked.
- Buffers.Buffer.ReadFrom: returns the bytes, not a pointer into the block that the next write may move.
- Buffers.Buffer.constructor: wrapping a foreign block, handing the block over (`buf_release`) and compacting are not modelled.
- Reference counts of sessions, tasks, channels and messages, and who frees a message.
- Userdata with its `__save` and `__load`, and threads and light userdata, which the code refuses.
- The channel branch for code outside any task, with `session_callback` and its semaphore.
- The Lua stack, bytecode dump and load, and the reference table's place on the stack.
- Allocation failure, NULL arguments other than items and keys, and overflow of sizes.
- Spinlocks, semaphores and clocks themselves: a locked region is one step, a timed wait may time out at any time.
- Printing, error messages, module registration and build files.
