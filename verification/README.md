# Verified model of the zit runtime core

The zit library contains a small concurrent runtime: missions with queues of
tasks, worker threads, a chunked queue, a block allocator, a red-black tree
with chains of equal keys, an epoll front end that counts hits, and a base64
codec.  This project models these parts in Dafny and proves what their code and
documentation promise.  `dafny verify dfyconfig.toml` checks everything.

## The parts

**Red-black tree** (`RbShape`, `RbTree`, `RbRebalance`, `RbSwap`, `RbOps`,
`RbRead`; `src/rbtree.c`, `zit/container/rbtree.h`).  Nodes are heap objects
with left, right, parent, next, color and data.  A ghost `Shape` is the tree
read from the links and a `Path` is what surrounds one position, so that code
that climbs through parent links is a walk up a path; `Focused(p, s)` says that
the links around and below one position are those of p and s.  Entries carry
node identities: an equation between entry sequences says which objects are in
the tree, in what order, with what data and with what chain.  `Sound` is
everything but the colors of the tree, `Valid` adds the red-black rules and says
with it that every node in the tree holds the data, links and chain its entry
names.  The place of a key is given by `Locate`, a scan of the entry sequence
from its start, and the operations are stated through it (`Spot`).  The
comparator is any total preorder; `DefaultCompare` and `DefaultOrders` say for
which keys the default one is one.

**Chunked queue** (`ChunkQueue`, `QueueRace`; `zit/container/queue.h`).
`ChunkQueue.Queue` is the queue as one thread uses it, a class that refines a
sequence; its positions count bytes.  `QueueRace` is the queue between threads:
pushers exclude each other by one lock and poppers by another, so one push and
one pop are under way at a time, and each is broken into its single accesses to
the memory both can reach, the links in both directions included
(`PushStep`: lines 271-299 and 395-425; `PopStep`: lines 301-323 and 427-450).

**Task server** (`TaskServer`, `TaskProgress`, `TaskOrder`; `src/task.c`, reference counts
of `src/memory.c`).  A transition system over any number of missions, posts and
workers (`PosterStep`: `src/task.c:276-329`; `WorkerStep`:
`src/task.c:78-148`).  The status lock of a mission is part of the state: a
worker that gives a mission up reads the size of its queue in one step and
writes the status in another, and pushes fall in between; whoever pushes to the
ready queue holds the lock until it has posted the semaphore.  The sections
under the other spin locks are single steps.  The lock of the tree of
subscribers, which keeps posts from overlapping, is not represented: without it
there are only more interleavings, and a post that waits for it waits for one
that is never stuck (`TaskProgress.PostNeverStuck`).  A run is a sequence of
states and of the actors that take its steps; `TaskOrder` states what a run does
by its steps, without the records kept in the states.

**Block allocator** (`Allocator`; `zit/memory/alloc.h`, `src/memory.c`).

**Epoll sessions** (`EpollSession`; `src/epoll.c`).  One poll thread, any number
of workers, input events (`PollStep`: lines 477-498; `WorkerStep`: lines
790-833).

**Base64** (`Base64`; `src/modp_b64`).  The format is specified after section 4
of RFC 4648 and the methods are proved against it.  The tables are given by the
formulas that generate them.

`Sums` holds lemmas about sums over sequences, `Common` two small definitions.

## What the proofs brought to light

- `zrbtree_erase` returns only the first node of a chain to the allocator:
  `src/rbtree.c:400` zeroes a node before line 401 reads its `next`.  All nodes
  of a key come back if and only if nothing was chained (`RbOps.Erase`);
  `RbOps.EraseLoses` is a run that loses one.
- `zrbtree_erasex` copies the links but not the color when it promotes a chained
  node (`src/rbtree.c:438-461`).  Chained nodes are always red, so the red-black
  rules survive exactly if the node taken out was red (`RbOps.EraseX`);
  `RbOps.EraseXBreaks` is a run that ends with a red root.
- The default comparator has the right sign exactly for two keys whose
  difference fits in 32 bits (`RbRead.DefaultCompare`), and among the keys of a
  window of n values it is an order if and only if n is at most 2^31
  (`RbRead.WindowOrder`).
- `modp_b64_decode` counts the groups before it strips padding
  (`src/modp_b64/modp_b64.cc:190-213`), so padded text is rejected although the
  comment there allows it: decoding what was encoded gives the bytes back
  exactly if their number is a multiple of three (`Base64.DecodeEncode`).
- The allocator's cap leaves out the first chunk and admits one more beyond the
  limit: when it refuses, its memory is above the limit by more than one chunk
  and at most two (`Allocator.Alloc.Pop`); with chunks as large as the limit it
  takes three times the limit (`Allocator.ThreeTimes`).

## Model

| member | source | states |
|---|---|---|
| RbTree.RbTree.ReplaceNode | src/rbtree.c:79-91 | the parent or the root points to the new subtree, the links around it are unchanged |
| RbTree.RbTree.RotateLeft | src/rbtree.c:93-102 | the links are those of the left-rotated subtree in the same surroundings |
| RbTree.RbTree.RotateRight | src/rbtree.c:104-113 | the links are those of the right-rotated subtree in the same surroundings |
| RbShape.RotationKeepsOrder | src/rbtree.c:93-113 | neither rotation moves an entry past another |
| RbRebalance.InsertCase5 | src/rbtree.c:115-124 | recolor and rotate the grandparent: the whole tree obeys the rules again, same entries in the same order |
| RbRebalance.InsertCase4 | src/rbtree.c:125-134 | an inner grandchild is straightened first; same result |
| RbRebalance.InsertCase3 | src/rbtree.c:136-145 | a red uncle: recolor and go on two levels up, where the climb ends with all rules restored |
| RbRebalance.InsertCase1 | src/rbtree.c:154-159 | from a red node that only its parent can object to, to a red-black tree with the same entries |
| RbShape.RecoloredIsNewRed | src/rbtree.c:136-145 | after the recoloring only the grandparent's parent can object, and no entry moved |
| RbRebalance.DeleteCase6 | src/rbtree.c:170-184 | a red far nephew: one rotation fills the missing black, same entries on both sides |
| RbRebalance.DeleteCase5 | src/rbtree.c:186-206 | a red near nephew is turned into a red far one, then case 6 |
| RbRebalance.DeleteCase4 | src/rbtree.c:208-219 | a red parent takes the missing black, or case 5 |
| RbRebalance.DeleteCase3 | src/rbtree.c:221-232 | a black family: the sibling turns red and the climb goes on at the parent, which ends filled |
| RbRebalance.DeleteCase2 | src/rbtree.c:234-244 | a red sibling is rotated up first |
| RbRebalance.DeleteCase1 | src/rbtree.c:246-251 | from a position one black short to one that takes the subtree of the short height, even a red one; links kept, same entries on both sides |
| RbShape.SiblingExists | src/rbtree.c:170-232 | a position one black short has a sibling, so none of the cases meets NULL there |
| RbShape.RedSibling | src/rbtree.c:234-244 | after the rotation the position is still one black short and has a black sibling, entries in place |
| RbShape.BlackFamily | src/rbtree.c:208-232 | recoloring the sibling moves the missing black to the parent, or ends with it |
| RbShape.RedNearNephew | src/rbtree.c:186-206 | after rotating the sibling the far nephew is red |
| RbShape.RedFarNephew | src/rbtree.c:170-184 | after rotating the parent nothing is missing any more |
| RbSwap.MaximumNode | src/rbtree.c:162-168 | the last node of a subtree, at the end of a way that only goes right |
| RbSwap.SwapLinks | src/rbtree.c:343-381 | all links of the two nodes are exchanged, also when one is the child of the other |
| RbSwap.SwapWithPredecessor | src/rbtree.c:333-396 | the two nodes have changed places and colors, every other node is where it was; only the data of the node to go changes |
| RbShape.SwapPlaces | src/rbtree.c:343-381 | after the exchange the same nodes stand at different positions each |
| RbShape.SwapKeepsRules | src/rbtree.c:343-381 | the exchange does not touch the red-black rules |
| RbOps.Lookup | src/rbtree.c:59-77 | the node that a scan of all entries would find, and its position, in exactly the comparisons on the way down to it |
| RbOps.LocateHit | src/rbtree.c:59-77 | the scan stops at the entry with the key, with all lower ones before it |
| RbOps.LocateMiss | src/rbtree.c:59-77 | without such an entry it ends between the lower and the higher ones |
| RbOps.Decide | src/rbtree.c:59-77 | one comparison rules out the entry compared and everything on its other side |
| RbOps.FindPlace | src/rbtree.c:260-290 | the node with the key, or the node below which the new one belongs and on which side |
| RbOps.Insert | src/rbtree.c:253-305 | the tree stays valid; it gains exactly the new node at its place; an equal key lengthens the chain right behind its head in multiple mode and changes nothing in unique mode |
| RbOps.AddToChain | src/rbtree.c:270-282 | the new node is the first behind the head, the tree itself is unchanged |
| RbOps.Unlink | src/rbtree.c:384-396 | a node with at most one child leaves the tree, the rules hold and all other entries keep their order |
| RbOps.EraseNode | src/rbtree.c:333-396 | a node with any children leaves the tree, all others are the same objects in the same order and the rules hold |
| RbOps.Erase | src/rbtree.c:307-408 | from any valid tree to a valid one that has lost exactly the entry with the key, or -1 and no change; only the head of the entry is recycled, which is all that was lost if and only if nothing was chained to it |
| RbOps.PopFront | src/rbtree.c:548-583 | the first entry leaves with its chain intact if the condition accepts it; otherwise nothing changes |
| RbOps.EraseX | src/rbtree.c:410-546 | exactly the first node with the key that the comparator accepts, given data and, for the head, the node, is gone and recycled, or nothing; order, links and all other nodes are kept; the rules hold if and only if no chained node took the place of a black one |
| RbOps.Promote | src/rbtree.c:435-462 | the first chained node stands where its head stood, with its children, parent and chain; valid if and only if the head was red |
| RbOps.TakeFromChain | src/rbtree.c:529-541 | one chained node is cut out, its neighbours are linked, the tree is unchanged |
| RbShape.OtherColor | src/rbtree.c:438-461 | a node put in the place of one of the other color always breaks the rules |
| RbOps.EraseXBreaks | src/rbtree.c:438-461 | a run: two nodes for one key, the first erased by erasex, and the tree that is left has a red root |
| RbOps.EraseLoses | src/rbtree.c:397-402 | a run: two nodes for one key, the key erased, and the second node is neither in the tree nor recycled |
| RbOps.FirstAt | src/rbtree.c:433-541 | what the comparator leaves of the nodes with a key: all before its first match and all after it |
| RbOps.ErasesFirst | src/rbtree.c:432-541 | there is a first node that the comparator accepts, asked with the node for the head and without it for the chain, or none, and that one is erased |
| RbRead.Find | zit/container/rbtree.h:94-113 | the node with the key or null; the comparisons made are those on the way down, at most 2 * log2(n + 1) |
| RbRead.FindX | zit/container/rbtree.h:115-142 | the node with the key that the comparator accepts and none before it, or null if it accepts none; without a comparator the first |
| RbRead.Operate | zit/container/rbtree.h:147-183 | the calls made for the nodes with the key, each given the node, its data and its next link, up to the first that fails |
| RbRead.AppliedStops | zit/container/rbtree.h:147-183 | for any operation: the chosen nodes are called once each in chain order up to the first failing call, whose result is returned, and none after it |
| RbRead.CallsAll | zit/container/rbtree.h:168-175 | without a comparator every node with the key is called, with its next link |
| RbRead.CallsLike | zit/container/rbtree.h:157-167 | with one exactly the nodes it accepts are called, each once and in chain order |
| RbRead.HeightBound | zit/container/rbtree.h:94-113 | a red-black tree with n positions is at most 2 * log2(n + 1) high |
| RbRead.Foreach | src/rbtree.c:828-856 | the calls of do_each are the walk of the given order |
| RbRead.WalkInOrder | src/rbtree.c:828-856 | order 0 goes through the entries one after the other, each chain behind its head |
| RbRead.WalkComplete | src/rbtree.c:828-856 | every order visits every node once |
| RbRead.WalkSorted | src/rbtree.c:828-856 | order 0 visits the data in ascending order |
| RbRead.WalkAround | src/rbtree.c:828-856 | in every order the nodes of a subtree are visited one after the other |
| RbRead.WalkAncestors | src/rbtree.c:828-856 | order 1 visits a node before those below it, an order other than 0 and 1 after them |
| RbRead.Property4 | src/rbtree.c:890-917 | accepts exactly if no red node has a red child or parent |
| RbRead.Property5 | src/rbtree.c:919-941 | accepts exactly if all ways down count the same black nodes, and as many as the first one found |
| RbRead.Verify | src/rbtree.c:943-961 | accepts exactly the trees with a black root, no red node with a red child and equal black counts; an accepted tree is at most 2 * log2(n + 1) high |
| RbRead.DefaultCompare | zit/container/rbtree.h:74-79 | the wrapped difference has the sign of the true one if and only if the true one fits in 32 bits |
| RbRead.DefaultOrders | zit/container/rbtree.h:74-79 | among keys in a window of 2^31 values the default comparator is a total preorder |
| RbRead.WindowOrder | zit/container/rbtree.h:74-79 | among the keys of a window of n values it is an order if and only if n is at most 2^31 |
| RbRead.DefaultCycle | zit/container/rbtree.h:74-79 | three keys it orders in a circle |
| TaskServer.StepSafe | src/task.c:78-148 | every step of a worker or a poster keeps the whole invariant |
| TaskServer.RunSafe | src/task.c:276-329 | the invariant holds in every state of every run |
| TaskServer.Ownership | src/task.c:83-97 | a mission is ready if and only if it is queued once or held by exactly one worker, never both; so its queue has one consumer |
| TaskServer.WokenFindsMission | src/task.c:111-120 | the pop after a successful wait finds a mission |
| TaskOrder.ReadyFifo | src/task.c:89-117 | over a whole run the missions put into the ready queue are the missions taken, in that order, followed by those still in it |
| TaskServer.WorkerSemaphore | src/task.c:83-120 | the ready queue is as long as the semaphore plus workers that waited and not popped plus pushes not posted |
| TaskServer.PosterSemaphore | src/task.c:304-311 | the same for the steps of a post |
| TaskServer.WorkerAwake | src/task.c:83-97 | a mission with queued tasks that is idle, or whose worker has read size zero and is about to set it idle, has a poster that has not looked at its status yet |
| TaskServer.WorkerLocks | src/task.c:84-96 | the status lock is held exactly by the one worker or poster between taking and releasing it |
| TaskServer.PosterLocks | src/task.c:304-312 | the same for the steps of a post |
| TaskServer.PosterAwake | src/task.c:294-311 | the same for the steps of a post, which waits while the status is being switched |
| TaskServer.WorkerHeads | src/task.c:125-146 | what a worker has read at the head of a queue stays there until its own pop takes it off |
| TaskServer.OperatedOnce | src/task.c:78-81 | a worker about to operate for a subscriber is the first to |
| TaskServer.ReleasedOnce | src/task.c:78-81 | a worker about to release is the first to for its delivery, and the operate is over |
| TaskServer.CloneSucceeds | src/memory.c:155-159 | while a post walks the chain a clone brings the count to two or more, so it never reports ZNOT_EXIST |
| TaskServer.RefMeaning | src/memory.c:155-166 | the reference count is the number of deliveries queued or in hand plus what the poster itself holds |
| TaskServer.FreedLast | src/memory.c:161-166 | a block goes back at most once, and only after every subscriber has operated |
| TaskServer.WorkerOrder | src/task.c:136-147 | a serial mission has operated its tasks in the order they were pushed, one at a time, across workers and batches |
| TaskOrder.Batches | src/task.c:136-147 | in no run does a worker operate on more than 128 tasks of a serial mission before it gives the mission up, and earlier only when the queue is empty |
| TaskOrder.MissionFifo | src/task.c:123-147 | over a whole run the tasks pushed to any mission are those taken off, in that order, followed by its queue; those a serial mission operated are the first pushed |
| TaskOrder.CountsAreSteps | src/task.c:78-81 | the counts kept for a delivery are the numbers of steps of the run that operated and released |
| TaskOrder.AtMostOnce | src/task.c:78-81 | no run operates for a subscriber twice, and none releases more often than it operates |
| TaskProgress.Progress | src/task.c:99-148 | every step that is not a timed-out wait or a wait for a lock lowers a measure |
| TaskProgress.LockMovesOn | src/task.c:84-96 | whoever holds a status lock can take its next step |
| TaskProgress.PostNeverStuck | src/task.c:276-315 | a post under way can go on, or the holder of the lock it waits for can |
| TaskProgress.RunsEnd | src/task.c:99-148 | a run takes no more such steps than the measure of its first state |
| TaskProgress.RestIsDone | src/task.c:83-97 | the only state without a further step has all missions idle, all queues empty and all posts over |
| TaskProgress.RestIsExact | src/task.c:276-329 | by then every subscriber has operated exactly once, every block has gone back exactly once, every serial mission has operated just what was pushed, in order |
| TaskProgress.RunsComplete | src/task.c:276-329 | the same for the last state of every run that cannot go on |
| TaskOrder.ExactlyOnce | src/task.c:276-329 | a run that cannot go on has operated and released exactly once for every subscriber of every post |
| ChunkQueue.Queue.constructor | zit/container/queue.h:63-85 | an empty queue with one chunk |
| ChunkQueue.Queue.Push | zit/container/queue.h:105-128 | the value is appended |
| ChunkQueue.Queue.Pop | zit/container/queue.h:130-148 | the first value is returned and removed, or nothing if there is none |
| ChunkQueue.Queue.PushFront | zit/container/queue.h:150-168 | the value is put first |
| ChunkQueue.Queue.PopBack | zit/container/queue.h:170-188 | the last value is returned and removed, or nothing if there is none |
| ChunkQueue.Queue.Foreach | zit/container/queue.h:190-207 | op sees the contents in order |
| ChunkQueue.Queue.Back | zit/container/queue.h:213-223 | the last value, also when it is in the chunk before the end chunk |
| ChunkQueue.Queue.BackPos | zit/container/queue.h:232-254 | one more slot at the end, all other values unchanged |
| ChunkQueue.Queue.Fill | zit/container/queue.h:225-231 | writing into that slot sets the last value |
| ChunkQueue.Queue.Front | zit/container/queue.h:256-262 | the first value |
| ChunkQueue.Queue.Destroy | zit/container/queue.h:87-103 | every chunk ever allocated has been freed, none twice |
| ChunkQueue.Queue.ByteLaw | zit/container/queue.h:40-50 | size * value_size is (chunks - 1) * chunk_length + end_pos - begin_pos |
| ChunkQueue.Queue.PutSpare | zit/container/queue.h:139-146 | a chunk taken off is in the spare slot and the one before it is freed; every chunk is in one place |
| ChunkQueue.FullAdvanced | zit/container/queue.h:105-128 | a new end chunk as soon as the last one is full leaves the contents with just the value pushed |
| ChunkQueue.FullBegun | zit/container/queue.h:130-148 | going on to the next chunk takes off just the first value |
| QueueRace.PushSafe | zit/container/queue.h:271-299 | every memory access of a push, in either form, keeps the invariant |
| QueueRace.PopSafe | zit/container/queue.h:301-323 | every memory access of a pop, in either form, keeps the invariant |
| QueueRace.PushFill | zit/container/queue.h:395-425 | filling in a reserved slot after the end chunk has moved on sets just the value not yet counted in |
| QueueRace.FirstIsNext | zit/container/queue.h:427-450 | the value at the begin position is the next one counted in |
| QueueRace.NextLinked | zit/container/queue.h:311-320 | a popper that has used up its chunk finds the next one linked |
| QueueRace.Fifo | zit/container/queue.h:271-323 | in every interleaving the values popped are the first of those that callers gave to their pushes, in that order, and no chunk is in two of list, spare slot and freed, nor freed twice |
| QueueRace.PushedIsAsked | zit/container/queue.h:271-299 | the values committed, and that of the push under way, are the values callers started pushes with, in that order |
| QueueRace.EveryPopAnswered | zit/container/queue.h:301-323 | every pop started has one answer but for the one under way, and the values answered are those taken out |
| QueueRace.EveryStepCounts | zit/container/queue.h:271-323 | a push or a pop is over after at most ten steps of its own, whatever the other side does |
| QueueRace.SpareSlot | zit/container/queue.h:279-318 | a push allocates only if the spare slot is empty, and a pop leaves the chunk just used up there and frees the one it displaces |
| QueueRace.PushForms | zit/container/queue.h:395-425 | the copying push fills its slot before reserving it, the other one reserves it and leaves it to the caller |
| QueueRace.PopForms | zit/container/queue.h:427-450 | the two-phase pop has its value while it is still counted in |
| QueueRace.EmptyMeansEmpty | zit/container/queue.h:301-306 | a pop that finds nothing has not missed a committed value |
| QueueRace.PushBackLinked | zit/container/queue.h:290-294 | the prev link of a new chunk names the end chunk when it is linked, whatever the popper does meanwhile |
| QueueRace.PopBackLinked | zit/container/queue.h:316-318 | only between taking a chunk off and clearing the prev link does the first chunk name the one before it |
| QueueRace.Rest | zit/container/queue.h:271-323 | between operations the chunks hold exactly the values committed and not popped, and are linked both ways |
| Allocator.Alloc.constructor | src/memory.c:22-47 | one zeroed chunk, nothing issued; the limit or its default |
| Allocator.Alloc.Pop | zit/memory/alloc.h:73-119 | a zeroed block nobody holds: the oldest recycled one, or the next of the last chunk, or of a new one; refused exactly if there is no block left and the cap is exceeded, and then the memory is above the limit by more than one chunk |
| Allocator.ThreeTimes | zit/memory/alloc.h:82-111 | a run: with chunks as large as the limit the memory reaches three times the limit |
| Allocator.Alloc.Push | zit/memory/alloc.h:128-131 | the block is zeroed and recycled; live, recycled and unissued blocks still tile the chunks; no other live block changes |
| Allocator.Alloc.Capped | zit/memory/alloc.h:82-111 | the 32-bit product in the cap never wraps around, and the memory stays below the limit plus two chunks |
| EpollSession.StepSafe | src/epoll.c:477-498 | every step of the poll thread or a worker keeps the invariant |
| EpollSession.Alone | src/epoll.c:795-826 | a session held by a worker is held by no other, not queued and not being enqueued |
| EpollSession.EveryEventCounts | src/epoll.c:477-483 | the hits of a session are exactly the events polled for it |
| EpollSession.NoLostHit | src/epoll.c:790-833 | whenever a session is idle and not just being marked, and events were polled for it, a do_work began after the last of them |
| EpollSession.SessionFifo | src/epoll.c:491-796 | workers start with sessions in the order they were enqueued |
| EpollSession.EventWhileReady | src/epoll.c:483-820 | the EPOLLIN bit of a session is set exactly while it is ready or just being marked |
| EpollSession.DequeuedHasEvent | src/epoll.c:795-811 | a dequeued session has its EPOLLIN bit set and one worker |
| EpollSession.Progress | src/epoll.c:790-833 | every step lowers a measure, also when more hits send a worker around again |
| EpollSession.RestAnswersAll | src/epoll.c:477-498 | when nobody can go on all events are polled, and for every session that had one a do_work began after its last |
| Base64.Encode | src/modp_b64/modp_b64.cc:80-116 | the text is the one of RFC 4648 section 4, terminated, and nothing behind it is written |
| Base64.Decode | src/modp_b64/modp_b64.cc:187-262 | the bytes of an accepted text and their number, otherwise -1; the overlapping stores stay below 3 * len / 4 |
| Base64.TablesAgree | src/modp_b64/modp_b64_data.h:10-96 | the encoder's table lookups give the characters of the group |
| Base64.CharTable | src/modp_b64/modp_b64_data.h:7-96 | the 64 characters and the padding character, one by one |
| Base64.Padding | src/modp_b64/modp_b64.cc:96-112 | two equals signs end the text of 3n + 1 bytes, one that of 3n + 2, none that of 3n |
| Base64.TestVectors | src/modp_b64/modp_b64.cc:80-116 | the test vectors of section 10 of RFC 4648 |
| Base64.LookedIs | src/modp_b64/modp_b64_data.h:100-284 | the word looked up is bad exactly if a character is, otherwise it holds the bytes of the group |
| Base64.DecodeEncode | src/modp_b64/modp_b64.cc:187-262 | decode(encode(b)) is b if and only if the length of b is a multiple of three, otherwise it is rejected |
| Base64.OneByteRejected | src/modp_b64/modp_b64.cc:187-262 | the padded text of a single byte is rejected |
| Base64.EncodeDecode | src/modp_b64/modp_b64.cc:187-262 | encode(decode(t)) is t for every accepted t |
| Base64.Accepted | src/modp_b64/modp_b64.cc:187-240 | accepted are exactly the texts of whole groups of characters of the alphabet |

## Left out

- Allocation failure inside the queue and the allocator: the positions are moved before the chunk is obtained, so the queue's invariant does not survive it; allocation succeeds here.
- Weak memory ordering, and the lifetime of the slot pointer that pop returns: reading the value is part of the pop.
- The return value of `zqueue_push_front`: the code returns none.
- `zqueue_lock_push_front` and `zqueue_lock_pop_back`: their push and pop ends would share one lock with the other end's, which nothing in the repository does.
- `zqueue_swap` and the tree printers, logging, sockets, files, time and threads: thin wrappers or output.
- RbOps.Erase: the chained nodes behind an erased head are lost to the allocator in the code, so conservation together with the allocator is stated for unique trees only.
- RbOps.PopFront: when it refuses it returns no node, while the code leaves the caller's variable as it was.
- RbRead.DefaultCompare: an overflowing subtraction wraps around here; the language standard leaves it undefined.
- RbRead.Verify: the first of its checks, that every node is red or black, is part of the type of colors here.
- RbRead.Operate: an operation cannot change the node it is given; what it changes is in its hint.
- RbRead.FindX: the key is given as its data, while the code passes the node that holds it.
- The memory pool of `zit/memory/mem_pool.h`, which pops through the branch of `zrbtree_erasex` that promotes a chained node.
- `ztsk_svr_unsubscribe`: its comparator answers the opposite of what `zrbtree_erasex` expects; the subscribers are fixed during a run.
- The copying clone mode of posting with its failures, starting and stopping the server, and creating workers.
- Timeouts of the semaphore waits are steps that change nothing.
- TaskServer.RunSafe: a block that went back and is issued again counts as another one.
- EpollSession.NoLostHit: output events, session close, the control pipe, accept and heartbeats are not modelled, nor is the 32-bit wrap of the hit counter.
- Base64.Decode: the first word is read only once the length is known to be sufficient, while the code reads it before; the cases of a length that is not a multiple of four come after a return in the code and are omitted.
- The big-endian decoder: its tables are not part of this model.
- ChunkQueue.Queue.ByteLaw: the 32-bit widths of sizes and positions are not modelled.
- Allocator.Alloc.Pop: the recycle queue is a sequence and the three locks are not modelled.
