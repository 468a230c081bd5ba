# memqueue

memqueue is an in-memory queue server. Clients create queues, post messages with an expiry, and poll
several queues at once, each at its own pace; every queue counts revisions, so that a client that polls
from the revision it was last told misses nothing. A cooperative scheduler runs one thread per request
and a cleaner thread that expires messages, queues and consumers. Requests and responses are JSON.

The model follows the program's parts. Code that changes things in place is imperative: the tree, the
timers, the tables, the tokener and the server are classes, and their methods are proved against
functions on values. The lemmas are about those functions.

**Red-black tree** (`src/rbtree.c`). `RbShape`, `RbInsertion` and `RbErasure` hold trees as values, with a
path for the place where an algorithm works, and show that the fix-ups keep order and balance.
`RbMemory` and `RbSplice` tie parent-linked nodes to such trees, and `RbTree` has the pointer code.
`RbSeek`, `RbSpine` and `RbWalk` are about searching, the left spine and the height, and stepping.

**Timers** (`src/memqueue_expiry.c`). `Expiry` has the three trees of deadline buckets, one pass over a
tree, and the cleaner that sleeps until the next deadline.

**Queues** (`src/memqueue.c`). `QueueState` and `QueueOps` have the state with its reference counts,
`QueueSteps` the atomic steps, which end where a thread may wait: in the wait of a poll and in the sending of its
response. `QueueDelivery`, `QueueHistory` and `QueueKeeping` say what a step does to a poller, to the past and to
messages still in use; `QueueLeaving` says when a message leaves. `QueueRuns`, `QueueConsumer`, `QueueLoss` and
`QueuePromise` are about whole runs. `MemQueue` has the functions of the source in place on the server's tables.

**JSON** (`lib/json`). `JsonMachine` is the tokener one character at a time, `JsonCall` a call on a piece of
text, `JsonParser` the loops and gotos of the source. `JsonPrinter` has the printers. `JsonRoundTrip`,
`JsonStable`, `JsonStrings`, `JsonCutShort` and `JsonScan` relate texts and values. `JsonMemory`, `JsonOwners`
and `JsonOwnership` add the objects behind the values, with their reference counts. `LinkHash`, `LinkTable` and `JsonObject` are the probing
table and the objects built on it; `JsonMembers` is the list of members they stand for.

**Chained hash** (`src/hash.c`). `ChainedHash` has the table that the server keeps queues and consumers in.

What the code and its documentation do not agree on, or what a reader of the code may not expect:

- README.md of the server says that consumers do not miss messages. That holds for messages posted with a positive
  expiry or with -1, and for no others (`QueuePromise.PromisedIff`): every other message, with 0 or below -1, can be
  posted while the response to its only poller is being sent, and is lost then (`QueueLoss.LostWhileSending`).
- It also holds only for consumers in step. A client that asks for a higher revision than the queue has is served from
  the beginning; if it is told nothing and asks again for the same revision, it can miss a message that is still in
  the queue (`QueuePromise.MissedWhileAhead`). Once it is told a revision it is in step (`QueueConsumer.GetsInStep`).
- A second delete of a queue takes it from the store while messages in it are still in use
  (`QueueLoss.DeletedTwice`). A delete that frees the queue frees one that nothing refers to exactly if the base
  reference was still held (`QueueOps.FreedUnused`).
- `json_tokener_parse` also succeeds inside a comment that a text leaves open behind an inner value, and then
  returns that value (`JsonCutShort.CutShort`). A caller can tell from the text alone: of the texts that are parsed,
  exactly those return an inner value that end in a comment while a bracket or brace is open
  (`JsonScan.CutShortIff`), so none without a slash (`JsonScan.WholeWithoutSlash`).
- Of the string literals of section 7 of RFC 8259, the tokener rejects those with `\f` or an upper-case hexadecimal
  digit (`JsonStrings.StringLiteral`), and cuts the value at a `\u0000` (`JsonStrings.CutAtNul`).
- The cleaner does not sleep when the next deadline is one millisecond away, but goes round at once
  (`Expiry.Timers.Park`).

## Model

| member | source | states |
|---|---|---|
| RbTree.RbRoot.Erase | src/rbtree.c:216-281 | the pointer code turns the tree on the heap into `Erased(tree, n)`, with all links and colours in place, for every node of every valid tree |
| RbSeek.ErasedSound | src/rbtree.c:216-281 | `Erased` leaves an ordered red-black tree whose in-order sequence is the old one minus exactly that node |
| RbTree.RbRoot.EraseColor | src/rbtree.c:136-214 | the loop ends and computes the fix-up from any place with one black too few, on the heap |
| RbErasure.EraseFixBalanced | src/rbtree.c:136-214 | the fix-up of a place with one black too few gives a balanced tree with a black root |
| RbTree.RbRoot.Insert | src/memqueue_expiry.c:49-74 | descent, linking and recolouring turn the tree on the heap into `Inserted(tree, n)`, in at most 2 log2 (n + 1) steps down |
| RbSeek.InsertedSound | src/memqueue_expiry.c:49-74 | `Inserted` leaves an ordered red-black tree whose in-order sequence has exactly the new node added |
| RbTree.RbRoot.InsertColor | src/rbtree.c:71-134 | the loop ends, by the depth of the place it works at, and computes the fix-up on the heap |
| RbInsertion.InsertFixBalanced | src/rbtree.c:71-134 | the fix-up of a red node below what may be a red parent gives a balanced tree |
| RbMemory.RotateLeftAt | src/rbtree.c:25-46 | the pointer writes rotate the subtree in place, and all links in and around it fit again |
| RbMemory.RotateRightAt | src/rbtree.c:48-69 | the same to the right |
| RbTree.RbRoot.Search | src/memqueue_expiry.c:29-47 | finds the bucket of a deadline exactly if there is one, in at most 2 log2 (n + 1) steps |
| RbSpine.HeightBound | src/rbtree.c:71-281 | a balanced tree of n nodes has at most 2 log2 (n + 1) levels; it bounds the steps that `Search`, `Insert` and `Earliest` count |
| RbSpine.ErasedSpine | src/memqueue_expiry.c:209-237 | erasing a spine node, with all the rebalancing, leaves the spine below it as it was, at the end of the new spine |
| RbWalk.Next | src/rbtree.c:295-321 | the in-order successor, or null behind the last node |
| RbWalk.Prev | src/rbtree.c:323-345 | the in-order predecessor, or null before the first node |
| RbWalk.StepsAreInverse | src/rbtree.c:295-345 | b follows a exactly if a precedes b |
| RbWalk.PrevWalkIsComplete | src/rbtree.c:283-345 | stepping back from the last node until nothing is left visits the whole tree in descending order |
| RbWalk.Last | src/rbtree.c:283-293 | the last node in order |
| Expiry.Timers.ObjsExpire | src/memqueue_expiry.c:184-239 | one pass meets the left spine as it was when the pass began; it expires, in that order, the objects of its due buckets, takes out those buckets and no others, nothing early, and a due bucket if there is any |
| Expiry.SpinePass | src/memqueue_expiry.c:205-238 | erasing the due nodes of the spine one by one keeps all rules, removes exactly them, and the earliest node is among them if it is due |
| Expiry.Timers.Earliest | src/memqueue_expiry.c:155-162 | the descent to the left ends at the earliest deadline, in at most 2 log2 (n + 1) steps |
| Expiry.Timers.SchedGetMinTimeout | src/memqueue_expiry.c:142-182 | 0 exactly if nothing is scheduled, 1 if something is due, else the time to the earliest deadline of all three trees |
| Expiry.Timers.ObjSchedExpire | src/memqueue_expiry.c:76-140 | the object comes first in the bucket for its deadline, no other bucket changes, and a parked cleaner still wakes in time or has been signalled |
| Expiry.Timers.Resched | src/memqueue_expiry.c:241-265 | the object leaves its bucket, which goes if it is empty then, and gets a new deadline; other buckets stay |
| Expiry.Timers.ExpireConsumers | src/memqueue_expiry.c:227-233 | every expired consumer posts one message 2000 ms ahead, and sleep safety is kept through all of it |
| Expiry.Timers.Park | src/memqueue.c:604-610 | the cleaner parks exactly if no deadline is within a millisecond, and then wakes no later than the earliest one |
| Expiry.Timers.CleanerRound | src/memqueue.c:599-613 | with the clock held still a round takes out a due bucket if there is one and makes nothing due; what is not due stays |
| Expiry.Timers.Cleaner | src/memqueue.c:599-613 | so after as many rounds as there were due buckets none is due, although expired consumers post messages on the way |
| QueueRuns.EveryState | src/memqueue.c:167-219 | in every state of every run, a message counts one for itself if its timer runs or it has expiry -1, plus its pending entries; a queue counts its base reference, its messages' counts and its consumers; lists are in order of revision; the store holds exactly the queues that have not been freed, and their counts are above 0 |
| QueueLeaving.LeavesIff | src/memqueue.c:167-185 | a message leaves its queue in a step exactly if the step gives up a reference to it, because a response with it has been sent, its timer runs out, or a full queue drops it as its head, and nothing refers to it afterwards |
| QueueRuns.WhyGone | src/memqueue.c:488-497 | over whole runs: a message that had a reference of its own and is gone has had its timer run out in between |
| QueueRuns.Lasting | src/memqueue.c:496-497 | a message posted with expiry -1 stays for good |
| QueueRuns.PostedAs | src/memqueue.c:645-671 | unless the queue is full, a message gets the next revision, is in the list with its data, and has a reference of its own unless its expiry is 0 or below -1 |
| QueueRuns.NeverChanges | src/memqueue.c:460-519 | no step of a run changes a message or brings one back |
| QueueConsumer.OnePoll | src/memqueue.c:95-157 | a poll delivers the messages above the revision it is served from that the queue held when it began, in order, and then each one posted before the response is built |
| QueueConsumer.OnePollExact | src/memqueue.c:95-157 | a revision is delivered exactly if it is above the one asked for and was posted during the poll or was still in the queue when it began |
| QueueConsumer.NoDuplicate | src/memqueue.c:123-156 | over successive polls the revisions delivered strictly increase |
| QueueConsumer.NoGap | src/memqueue.c:548-564 | what lies in the range of a poll and is not delivered had left the queue before the poll began; and it had expired, unless it never had a reference of its own |
| QueueConsumer.NoGapOverall | src/memqueue.c:95-157 | over successive polls, every message later than what the first one is served from has been delivered by one of them or was skipped by one for that reason, unless the first is ahead of the queue and gets nothing |
| QueuePromise.PromisedIff | README.md:7-10 | in every run each consumer in step that polls beyond a message has got it or it has expired, if and only if it was posted with a positive expiry or with -1 |
| QueuePromise.MissedWhileAhead | src/memqueue.c:123-126 | for each such expiry, a run in which a consumer ahead of its queue never gets a message that is still there |
| QueueLoss.LostWhileSending | src/memqueue.c:147-155 | for any two texts and every expiry that is 0 or below -1, a run of the server in which the second message is posted while the response with the first is sent, and is neither in that response, nor in the next, nor in the queue |
| QueueLoss.DeletedTwice | src/memqueue.c:709-723 | a run after which a second delete takes the queue from the store while a message in it has a reference of its own |
| QueueSteps.ConsumerExpiredInv | src/memqueue.c:615-624 | expiring a consumer never frees the queue before the consumer is unlinked from it, and keeps all counts |
| MemQueue.QueueServer.Post | src/memqueue.c:645-671 | carries out the step `Post`, with the test for a full queue and the drop from its head, and keeps the invariant |
| MemQueue.QueueServer.IsFull | src/memqueue.c:689-707 | full exactly if the limit is reached and nothing may be dropped; a crowded queue that drops is never empty |
| MemQueue.QueueServer.RefreshConsumer | src/memqueue.c:566-597 | a new consumer is announced and counted; the order of the two in the code makes no difference |
| MemQueue.QueueServer.ConsumerExpired | src/memqueue.c:615-624 | carries out the step, and the queue is live when its list of consumers is written |
| MemQueue.QueueServer.PollBegin | src/memqueue.c:95-145 | carries out the step `Begin`: "not found" exactly if no queue is there, and a wait exactly if nothing is pending, when the names are distinct |
| MemQueue.QueueServer.CreateResult | src/memqueue.c:273-330 | one element for each queue that something is pending of and none for another, with its messages in order, its revision, and its consumers exactly if a binder asks for them |
| MemQueue.QueueServer.Finish | src/memqueue.c:152-156 | unbinding and releasing carry out the step `End`, and the invariant holds |
| JsonMachine.CaseOk | lib/json/json_tokener.c:194-612 | every case of the switch, for every character, keeps the tokener in order; the depth stays within 0 and 31 |
| JsonCall.ChunkInvariance | lib/json/json_tokener.c:182-628 | however a text is cut, if each earlier call asks for more then the last one leaves the same tokener, error code and value as one call on the whole |
| JsonCall.ObjNotLive | lib/json/json_tokener.c:185-186 | the local variable `obj` never has to survive a call |
| JsonParser.JsonTokener.ParseEx | lib/json/json_tokener.c:182-628 | the loops, gotos and tight inner loops come to what the machine says, character by character |
| JsonParser.JsonTokener.Reset | lib/json/json_tokener.c:90-100 | every level up to the depth is fresh again, whatever happened before |
| JsonRoundTrip.RoundTrip | lib/json/json_tokener.c:102-113 | parsing what the printers write gives the same value back, for every nesting of null, booleans, 32-bit numbers, C strings, arrays and objects without equal names, exactly if its height is at most 31; otherwise the depth error |
| JsonStable.RunBuilds | lib/json/json_tokener.c:182-628 | from any input come only values with 32-bit numbers, C strings, objects without equal names, and a height of at most 31 |
| JsonStable.ParsedIsStable | lib/json/json_tokener.c:102-113 | what was parsed from any text at all, if it has no doubles, is the same after printing and parsing it again |
| JsonCutShort.ParsedIff | lib/json/json_tokener.c:617-624 | parsing succeeds exactly if it stops at a whole value at depth 0 or inside a comment behind a value at any depth |
| JsonScan.CutShortIff | lib/json/json_tokener.c:305-344 | of the texts that are parsed, exactly those return an inner value that end, by a scan of their characters, in a comment while a bracket or brace is open |
| JsonScan.WholeWithoutSlash | lib/json/json_tokener.c:196-210 | a text without a slash is parsed exactly if a whole value at depth 0 is |
| JsonCutShort.CutShort | lib/json/json_tokener.c:305-318 | for every printable v of height below 31, an opening bracket, v and an unfinished comment parse as v |
| JsonStrings.StringLiteral | lib/json/json_tokener.c:371-437 | every string literal of the grammar in section 7 of RFC 8259 is parsed as the characters it denotes, up to a NUL, exactly if it has neither `\f` nor an upper-case hexadecimal digit; otherwise it is an error |
| JsonStrings.Utf8Decodes | lib/json/json_tokener.c:412-428 | the bytes written for a 16-bit code read back as that code by section 3 of RFC 3629 |
| JsonOwnership.CaseAccounts | lib/json/json_tokener.c:194-612 | every case keeps the account: each live object has one reference and one owner, a level, its container, or `obj` while it waits to be added, and they spell what the tokener holds |
| JsonOwnership.RunAccounts | lib/json/json_tokener.c:182-628 | so does every call, however it ends |
| JsonOwnership.CallOwns | lib/json/json_tokener.c:73-100 | a call and then a reset, whatever was read before: the live objects are exactly those that can be reached from the returned value, each with one reference; none if there is an error |
| JsonOwnership.ParseOwns | lib/json/json_tokener.c:102-113 | the same for `json_tokener_parse`, on every text; and giving up the value frees all of them |
| JsonOwners.TableAddOwned | lib/json/json_object.c:263-268 | a member that is replaced is freed with all it owns, and the new value belongs to the object |
| JsonMemory.PutFrees | lib/json/json_object.c:138-144 | giving up the one reference to a value frees its objects, however deep, and no others |
| JsonPrinter.EscapeStr | lib/json/json_object.c:84-125 | writes the escapes of the text up to its NUL, character for character, though it copies plain runs whole |
| JsonPrinter.ToJsonString | lib/json/json_object.c:192-227 | appends the text that `Print` gives, whatever the nesting |
| LinkTable.LhTable.Insert | lib/json/linkhash.c:123-154 | the entry comes last in the list; a loaded table doubles first and loses its tombstones; the first free slot of the probe is taken |
| LinkTable.LhTable.Resize | lib/json/linkhash.c:90-108 | the same entries in the same order, no tombstone, and no resize inside the resize |
| LinkTable.LhTable.LookupEntry | lib/json/linkhash.c:157-170 | a slot with that key exactly if there is one |
| LinkTable.LookupEnds | lib/json/linkhash.c:163-168 | the probe meets a slot it stops at exactly if the key is there or some slot is EMPTY |
| LinkTable.LhTable.Delete | lib/json/linkhash.c:210-215 | exactly the entry of that key leaves the list, and its slot becomes a tombstone |
| LinkTable.LhTable.ForEach | lib/json/linkhash.c:90-108 | the links from the head visit exactly the live slots, in the order of insertion |
| LinkHash.PlacedSound | lib/json/linkhash.c:130-151 | placing a key where its probe ends keeps every live key reachable from its home slot and the list exact |
| LinkHash.RemovedSound | lib/json/linkhash.c:181-207 | so does a tombstone |
| JsonObjects.JsonObject.Add | lib/json/json_object.c:263-268 | in every run from a new object: an older member of that name goes, the new one comes last, no tombstone survives, and an EMPTY slot is left |
| JsonObjects.JsonObject.Get | lib/json/json_object.c:270-273 | ends, and gives the value of the member of that name, or null if there is none |
| ChainedHash.HashTable.Insert | src/hash.c:69-93 | for any hash function: adds the key last in the order of insertion exactly if it is not there, and nothing else changes |
| ChainedHash.HashTable.Remove | src/hash.c:50-67 | takes out exactly that key; the traversal cursor dangles afterwards exactly if it was at it |
| ChainedHash.HashTable.Get | src/hash.c:101-114 | the value of the key in the map that the list stands for |
| ChainedHash.ChainWithout | src/hash.c:57-60 | unlinking an item from its chain and from the list of all items leaves the chain of the remaining ones |
| ChainedHash.Rounds | src/hash.c:116-128 | calls of `h_next`, however many: each round returns every item once, in the order of insertion, then null, and the next round is the same |
| ChainedHash.HashTable.Traverse | src/hash.c:116-128 | the usual loop visits all that is left of the list and leaves the cursor at the beginning |

## Left out

- Sockets, lthread, HTTP, routing, argument parsing, logging and the shell: input and output, or code that is
  not part of this model. A thread switch is where a step ends.
- Allocation failures: every `calloc` succeeds.
- `rb_replace_node` (src/rbtree.c:347-364): nothing calls it. The packed parent and colour word is two fields.
- Expiry.Timers.ObjSchedExpire: in a bucket that was there before, the code leaves the object's `expiry_node`
  unset (src/memqueue_expiry.c:127-135). The model has no such field; `Resched` takes the bucket as an argument
  and asks that the object be in it.
- Expiry.Timers.ObjsExpire: the callbacks are recorded; of their effects on timers only the message of an
  expired consumer is modelled. Writes to objects that have just been freed (src/memqueue_expiry.c:216-232) are not.
- Wrap-around of 32-bit deadlines and of revisions: deadlines are below 2^32 and `now + 2000` is, too.
- QueueRuns.EveryState: the steps keep timers as flags and take them to run out at any time; deadlines are in
  `Expiry`. Rescheduling changes a deadline and leaves the flag set, so the steps do not show it.
- MemQueue.QueueServer.Post: does not move the queue's deadline after the response, as the code does
  (src/memqueue.c:668), because the state has no deadlines; `Expiry.Timers.Resched` has the operation.
- MemQueue.QueueServer.RefreshConsumer: does not move the deadline of a consumer that is known, for that reason.
- QueueSteps.Finish: a queue may be freed while a poller is bound to it, as the code does not count binders
  (src/memqueue.c:332-349). The model then keeps the binder; the list it was in is memory that has been freed,
  which the model does not capture.
- MemQueue.QueueServer.Delete: asks that the base reference be held and the queue's timer be stopped, as the code
  checks neither. `FreedUnused` and `DeletedTwice` say what goes wrong otherwise.
- MemQueue.QueueServer.PollBegin: says when it waits only for distinct names. For a queue named twice, messages
  that arrive through its first binding are not counted by the code's total. Deadlines of polled queues are not moved.
- QueueConsumer.OnePoll: polls without `latest`; the filter itself is in `QueueSteps.EnqueueMsgs`.
- MemQueue: the JSON response around the results, and the queue information of `on_queue_info`.
- Doubles: kept as the text that `sscanf` would convert; what `%lf` writes is a parameter of the printer, so the
  round trip is for values without doubles. The functions that read a value as another type are left out.
- JsonStrings.StringLiteral: surrogates are encoded one by one, as the code has it; a pair is not one character.
- JsonRoundTrip.RoundTrip: a character is one byte in the C locale, and strings end at their first NUL.
- JsonOwnership.ParseOwns: counts objects. Member names, printed text and the tokener's own buffer are values, and
  an address is not used twice. A level above the current depth holds no object, which `Reset` and every pop leave so.
- JsonOwners.TableAddOwned: deletes every entry of the name; with distinct names that is the one that
  `lh_table_delete` finds (`JsonMembers.DelAt`).
- LinkTable.LhTable.Lookup: asks that the key be there or a slot be EMPTY, since the code does not count
  tombstones; `LookupEnds` says that it does not end otherwise. Objects meet the condition in every run of
  `Add` and `Get`.
- The size of a table as an `int`: doubling does not overflow.
- `array_list` with gaps (`json_object_array_put_idx`), `lh_table_free`, `h_free`: easy next to what is there.
- ChainedHash: `h_hash_func` itself; all that is proved holds for any hash function.
- `src/time.c`: the clock is a parameter.
