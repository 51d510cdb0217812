# Verification of the messaging core

pbdZMQ is an R package around a bundled ZeroMQ library (libzmq 4.2.2).  This project models the
data structures and the protocols between threads that the library rests on, and the package's own
file transfer, and proves what they are for.  `dafny verify dfyconfig.toml` checks everything.

| files | what they model |
|---|---|
| `Basics`, `Parts` | what several modules share; multipart messages and their logs |
| `Fifo`, `Interleaving`, `QueueHistory` | the contract of a queue between a writer and a reader, the lock-free queue that meets it, its two threads interleaved, and the results from the list of what was written |
| `PipeEndpoint`, `PipePair`, `PipeFlow`, `PipeStranding`, `PipeTermination`, `PipeCredit`, `PipeDrift`, `PipeReading`, `PipeStream`, `PipeObject` | a pipe: one endpoint, both endpoints with their queues and commands (safety), delivery, where termination fails, when it completes, watermarks, how the counts behind them drift, what users are told, what one user wrote and the other read, and the endpoint as an object updated in place |
| `Ownership`, `OwnershipSafety`, `OwnershipCounts`, `OwnershipProgress`, `OwnershipRequests`, `OwnObject` | the shutdown of a tree of objects by commands, sequence numbers and acknowledgements; the object updated in place |
| `Subscriptions`, `Mtrie` | the theory of sets of subscriptions, and the trie that holds them, on the heap |
| `PipeArray`, `Distributor`, `Publisher` | the array whose items know their places, the distributor on it, and the publisher that chooses pipes with the trie |
| `RoundRobin`, `FairQueue`, `LoadBalancer`, `BalancerLogs` | turn-taking, the two queues that use it, and what a balancer's pipes hold |
| `MessageRefs`, `ReceiveBuffer` | reference-counted message bodies, and the receive buffer zero-copy messages point into |
| `Mailbox` | commands from many threads to one |
| `Framing`, `Encoder`, `Decoder` | the wire format of version 2 of the protocol, byte by byte; the chunking encoder and decoder |
| `Metadata`, `Plain` | the property codec and the PLAIN handshake |
| `Transfer` | sending a file in chunks over the three socket pairings |

Three kinds of theorem recur.  A method that works in place is tied to a function of the old state
(`View() == F(old(View()))`, or sets and logs before and after).  An invariant is kept by every step,
so it holds in every run; theorems with `Run` say what that means.  And where waiting matters, some
step is possible until the end and each step makes a measure smaller.

What comes from outside is a parameter: which pipes refuse a part at the moment (`full`), which are
below their watermark (`room`), what arrives when, what the authenticator answers, and in which order
threads act.  A step is one access to what threads share, or one command of a mailbox.

Some promises turn out not to hold of the code as it is.  The model keeps the code, and the lemmas say
exactly when they hold and give inputs that break them: termination when a hiccup crosses the request
(`PipeTermination.TerminationExactly`, `PipeTermination.CrossingFreeRunsGo`, `PipeStranding.CrossingStrands`),
flow control when credentials are read or an identity is taken back (`PipeDrift.RefusedExactly`), the choice
of pipes after failed sends (`Publisher.FirstPartsGoWhereWanted`, `Publisher.RetriedSend`), whole messages
for a pipe that refused a part and has room again (`Distributor.Dist.ReadersSeeWholeMessages`), a message
being received or sent when a pipe leaves (`FairQueueing.MessageSurvivesLeaving`,
`FairQueueing.ReceiveAfterHarm`, `LoadBalancing.TerminateIsSafe`, `LoadBalancing.LeavingBreaksAMessage`),
turns when a pipe leaves (`RoundRobin.LeaveRanks`), an unsubscription that only others could make
(`Mtrie.Node.Rm`), a request to terminate that comes before its owner knows of the object
(`OwnershipCounts.RequestTakesEffect`), and cut-off metadata (`Metadata.AcceptsNothingElse`).

## Model

| member | source | states |
|---|---|---|
| LockFreeQueue.YPipe.Write | src/zmqsrc/src/ypipe.hpp:82-92 | the lock-free queue appends; what is finished may be flushed later: it refines the queue contract |
| LockFreeQueue.YPipe.Unwrite | src/zmqsrc/src/ypipe.hpp:99-106 | takes back only an item of an unfinished message |
| LockFreeQueue.YPipe.Flush | src/zmqsrc/src/ypipe.hpp:111-132 | publishes all finished items; false exactly when the reader was asleep |
| LockFreeQueue.YPipe.CheckRead | src/zmqsrc/src/ypipe.hpp:137-157 | true exactly when something is published; otherwise the reader is marked asleep |
| LockFreeQueue.YPipe.Read | src/zmqsrc/src/ypipe.hpp:162-173 | hands out the oldest published item, or none and the reader is asleep |
| QueueInterleaving.StepRefines | src/zmqsrc/src/ypipe.hpp:82-173 | with the threads interleaved at every access to the shared pointer: each step is one operation of the contract with its result, or, when the writer found the reader asleep and has not said so yet, none |
| QueueInterleaving.EveryInterleavingIsSequential | src/zmqsrc/src/ypipe.hpp:82-173 | so any interleaving of a writer and a reader gives the results of some run of the contract, one operation after the other |
| QueueHistory.ContractIsLogged | src/zmqsrc/src/ypipe.hpp:82-173 | each operation of the contract, seen as one list of what was written and three marks in it: its result is the one the list calls for, and it moves the marks or changes the end of the list in the one way that result implies |
| QueueHistory.EveryInterleavingIsExplained | src/zmqsrc/src/ypipe.hpp:82-173 | so in any interleaving of the two threads every result is the one that the list calls for, and what was handed out followed by what is left is what was written and not taken back, in order |
| PipeObject.Pipe.CheckRead | src/zmqsrc/src/pipe.cpp:143-167 | the object's new state and answer are those of the endpoint function that PipeReading.CheckTells and the protocol theorems are about, delimiter included |
| PipeObject.Pipe.Read | src/zmqsrc/src/pipe.cpp:169-204 | same, with the message that PipeReading.ReadHandsOut determines; credentials are skipped, whole messages counted, and the count is sent at multiples of the low watermark |
| PipeObject.Pipe.CheckWrite | src/zmqsrc/src/pipe.cpp:206-219 | same; a full pipe becomes passive |
| PipeObject.Pipe.Write | src/zmqsrc/src/pipe.cpp:221-233 | same; only finished messages that carry no identity are counted |
| PipeObject.Pipe.Rollback | src/zmqsrc/src/pipe.cpp:235-246 | same; exactly the unfinished parts are taken back and each of them is marked as having more |
| PipeObject.Pipe.Flush | src/zmqsrc/src/pipe.cpp:248-256 | same; a sleeping reader is sent a wake-up |
| PipeObject.Pipe.ProcessActivateRead | src/zmqsrc/src/pipe.cpp:258-264 | same |
| PipeObject.Pipe.ProcessActivateWrite | src/zmqsrc/src/pipe.cpp:266-275 | same |
| PipeObject.Pipe.ProcessHiccup | src/zmqsrc/src/pipe.cpp:277-300 | same; the old queue is flushed and drained, its finished messages are no longer counted as written |
| PipeObject.Pipe.ProcessPipeTerm | src/zmqsrc/src/pipe.cpp:302-341 | same, for the three states the assertion allows |
| PipeObject.Pipe.ProcessPipeTermAck | src/zmqsrc/src/pipe.cpp:343-378 | same; everything still in the inbound queue is read before it is deleted |
| PipeObject.Pipe.Terminate | src/zmqsrc/src/pipe.cpp:390-447 | same, in all six states |
| PipeObject.Pipe.ProcessDelimiter | src/zmqsrc/src/pipe.cpp:477-489 | same |
| PipeObject.Pipe.Hiccup | src/zmqsrc/src/pipe.cpp:491-512 | same; a new inbound queue is announced to the peer |
| PipeObject.DropUnfinished | src/zmqsrc/src/pipe.cpp:240-245 | the loop of rollback takes back exactly what the queue contract's rollback does |
| PipeObject.Drain | src/zmqsrc/src/pipe.cpp:284-290 | the draining loop reads exactly the published items, in order |
| PipeObject.CountFinished | src/zmqsrc/src/pipe.cpp:286-289 | counts the drained items that end a message |
| PipeEndpoint.ComputeLwm | src/zmqsrc/src/pipe.cpp:454-475 | the low watermark of a positive high one is positive and half of it, rounded up |
| PipePair.MoveKeeps | src/zmqsrc/src/pipe.cpp:143-512 | every step of either endpoint, hiccups included, keeps the invariant and fails no assertion |
| PipePair.EveryRunIsSafe | src/zmqsrc/src/pipe.cpp:277-378 | in every interleaving of calls and deliveries no state assertion fails, no command reaches a deallocated endpoint and no deleted queue is used |
| PipePair.AtMostOneTermAndOneAck | src/zmqsrc/src/pipe.cpp:302-447 | in every run each of the two endpoints sends at most one termination command and at most one acknowledgement |
| PipePair.NothingIsLeaked | src/zmqsrc/src/pipe.cpp:343-378 | once both endpoints are deallocated every queue has been deleted and no command is left |
| PipePair.ReceiverIsAlive | src/zmqsrc/src/pipe.cpp:343-378 | the receiver of a command in flight is still allocated |
| PipePair.AckArrives | src/zmqsrc/src/pipe.cpp:343-378 | an acknowledgement is the last command of all, and finds its receiver in a state that expects it |
| PipePair.ProcessHiccupKeeps | src/zmqsrc/src/pipe.cpp:277-300 | processing a hiccup keeps the invariant: the old queue is deleted after its writer left it |
| PipeFlow.EveryUncrossedRunFlows | src/zmqsrc/src/pipe.cpp:143-300 | in every run in which no hiccup is ever on its way to an end that has asked to terminate: between hiccups what was written and kept is what was read followed by what is in the queue, and a sleeping reader with published items has a wake-up in flight |
| PipeFlow.CalmRunsAreUncrossed | src/zmqsrc/src/pipe.cpp:143-512 | runs without hiccups are such runs |
| PipeFlow.HiccupFlow | src/zmqsrc/src/pipe.cpp:277-300 | the delivery of a hiccup keeps this: from then on the queue written is again the one being read |
| PipeFlow.AcknowledgesAfterReadingEverything | src/zmqsrc/src/pipe.cpp:302-341 | an endpoint that its peer asked to terminate, and that was not told to drop pending messages, goes on to acknowledge and wait (term_ack_sent) only after reading everything the peer wrote into the queue and kept |
| PipeFlow.WaitingReaderCanTake | src/zmqsrc/src/pipe.cpp:143-204 | a reader that waits for the delimiter, with no command in flight to it, is awake and has something to read |
| PipeFlow.StuckExactly | src/zmqsrc/src/pipe.cpp:302-447 | whatever hiccups there were: once either side terminates, and until both are gone, no step is due exactly when no command is in flight and a side waits for a delimiter that it cannot read |
| PipeFlow.NeverStuck | src/zmqsrc/src/pipe.cpp:302-447 | in the uncrossed runs that never happens: some step is possible until both are deallocated |
| PipeFlow.DueIsProgress | src/zmqsrc/src/pipe.cpp:277-447 | each such step, the delivery of a hiccup included, makes a measure smaller, in every run |
| PipeFlow.DueStepsEnd | src/zmqsrc/src/pipe.cpp:277-447 | so every sequence of such steps is bounded |
| PipeStranding.EveryRunIsAnnounced | src/zmqsrc/src/pipe.cpp:491-512 | in every run the queues announced by hiccups in flight are empty |
| PipeStranding.CrossingStrands | src/zmqsrc/src/pipe.cpp:277-341 | when a hiccup is on its way to an end that has asked to terminate, and the other end would wait for the delimiter, then neither is ever deallocated, however the run goes on, as long as the user of the waiting end does not give up: by terminating it, or dropping the delay, before the request arrives, or by terminating it without delay afterwards |
| PipeStranding.HiccupCanStrandTermination | src/zmqsrc/src/pipe.cpp:277-300 | such a run from a new pair, after which both endpoints wait and nothing is due |
| PipeTermination.EveryRunGoesOrStrands | src/zmqsrc/src/pipe.cpp:277-512 | every run, with whatever hiccups, leads to a pair that is stranded in this way or that nothing holds up |
| PipeTermination.CrossingFreeRunsGo | src/zmqsrc/src/pipe.cpp:277-512 | a run in which no hiccup crosses a request while the other end waits leads to one that nothing holds up |
| PipeTermination.StrandedOrFree | src/zmqsrc/src/pipe.cpp:390-447 | a stranded pair stays stranded exactly until the user of the waiting end gives up, and then nothing holds it up any more |
| PipeTermination.TerminationCompletes | src/zmqsrc/src/pipe.cpp:277-447 | with nothing to hold it up, a maximal sequence of due steps deallocates both endpoints |
| PipeTermination.TerminationExactly | src/zmqsrc/src/pipe.cpp:277-447 | for every run, hiccups included, after which either side terminates: a maximal sequence of due steps is bounded and deallocates both endpoints exactly if the pair is not stranded |
| PipeCredit.UnreadWithinWatermark | src/zmqsrc/src/pipe.cpp:206-233 | without drift at most `hwm` counted messages are unread |
| PipeCredit.ReportsEveryHalf | src/zmqsrc/src/pipe.cpp:454-475 | with any drift: the reader is never half of the watermark, rounded up, beyond its last report, and as soon as it is that far beyond the count the writer knows, a newer count is on its way |
| PipeCredit.StoppedWriterIsNotStranded | src/zmqsrc/src/pipe.cpp:266-275 | a writer stopped by the watermark has more than half of it unread ahead or a newer read count on its way |
| PipeCredit.EveryPlainRunIsCredited | src/zmqsrc/src/pipe.cpp:197-233 | in every run without hiccups and credentials the last count sent is the read count rounded down to a multiple of the low watermark |
| PipeCredit.WatermarksHold | src/zmqsrc/src/pipe.cpp:41-85 | these properties, in both directions, in every such run that starts with a pair as pipepair makes it |
| PipeCredit.LaterPartsAreTaken | src/zmqsrc/src/pipe.cpp:206-233 | in such runs an endpoint that took a part of a message takes all the later ones as well, as long as it is active: only finishing a message uses up room |
| PipeCredit.WriteNeedsRoom | src/zmqsrc/src/pipe.cpp:221-233 | a write is taken exactly when the endpoint is active and has room |
| PipeDrift.EveryRunIsAccounted | src/zmqsrc/src/pipe.cpp:169-300 | in every run, hiccups and credentials included: the writer's count is the reader's, plus the counted messages in the queue being written, plus the credentials the reader skipped, less the identities taken back by hiccups; the last count sent is the read count rounded down |
| PipeDrift.WatermarksDrift | src/zmqsrc/src/pipe.cpp:206-300 | so in every run and for both directions that difference is how far the bound on the unread messages moves, and whether a writer is refused for good; and a reader that is half of the watermark beyond the count the writer knows has a newer one on its way |
| PipeDrift.UnreadWithinDrift | src/zmqsrc/src/pipe.cpp:206-233 | the number of unread messages is at most the watermark less the drift |
| PipeDrift.RefusedExactly | src/zmqsrc/src/pipe.cpp:536-540 | when all was read and no credit is on its way, the writer has room exactly if the drift and what the rounding of the read count leaves are together not negative and below the watermark |
| PipeDrift.IdentityStopsTheWriter | src/zmqsrc/src/pipe.cpp:277-300 | a run from a new pair after which both ends are active, nothing is unread or in flight, and every write is refused: an identity was taken back that was never counted, and the unsigned difference wraps around |
| PipeReading.ReadHandsOut | src/zmqsrc/src/pipe.cpp:169-204 | an endpoint that is awake and active, or waiting for the delimiter, gets from a read exactly the first published item that is not a credential, unchanged; it is the last of what was taken, the items before it are gone and all others stay; it is counted if it ends a message without identity, and the count is sent at multiples of the low watermark |
| PipeReading.ReadEnds | src/zmqsrc/src/pipe.cpp:190-194 | if that item is the delimiter, the read takes it and gives nothing; an active endpoint has received the delimiter, a waiting one acknowledges and lets go of its outbound queue |
| PipeReading.ReadFindsNothing | src/zmqsrc/src/pipe.cpp:175-188 | if there is none, the credentials are taken, nothing is given, and the endpoint waits for a wake-up that the queue will ask for |
| PipeReading.CheckTells | src/zmqsrc/src/pipe.cpp:143-167 | a check is true exactly when an awake endpoint has a published first item that is not the delimiter, and then changes nothing; with nothing published the endpoint waits for a wake-up |
| PipeReading.CheckEnds | src/zmqsrc/src/pipe.cpp:157-164 | a delimiter in front is taken at once, with the same consequences as in a read |
| PipeReading.CheckThenRead | src/zmqsrc/src/pipe.cpp:143-204 | after a check that was true, a read gives a message exactly if one that is no credential was published before any delimiter |
| PipeReading.WriteAppends | src/zmqsrc/src/pipe.cpp:221-233 | a write is taken exactly if the endpoint is active, not stopped, and less than the watermark ahead of what it knows to be read; then this very item is the last one of the queue, and unless marked as having more it ends a message, counted if it carries no identity |
| PipeReading.CheckWriteTells | src/zmqsrc/src/pipe.cpp:206-219 | a check of the room says whether a write would be taken, and stops an endpoint that has none |
| PipeReading.RollbackTakesBack | src/zmqsrc/src/pipe.cpp:235-246 | exactly the items after the last finished message are taken back |
| PipeReading.FlushPublishes | src/zmqsrc/src/pipe.cpp:248-256 | every finished message is published, and a wake-up is sent exactly if the reader sleeps and there is something new |
| PipeReading.TerminateEnds | src/zmqsrc/src/pipe.cpp:390-447 | in each state: who is asked or answered, and where the endpoint goes |
| PipeReading.TerminateCloses | src/zmqsrc/src/pipe.cpp:432-447 | the outbound queue then holds the finished messages and the delimiter, all of it published, and a sleeping reader is woken |
| PipeReading.ReadsHandOutTheStream | src/zmqsrc/src/pipe.cpp:143-204 | in every run and for both ends: what the reads handed out since the last hiccup is what was taken from the queue, without credentials and delimiters |
| PipeStream.EveryRunIsJoined | src/zmqsrc/src/pipe.cpp:143-512 | in every run, whatever hiccups and terminations cross: what a reader took followed by what is in its queue is what its peer put in, or nothing yet if the peer has not seen the hiccup; what is finished, what is published and what comes before a delimiter are whole messages |
| PipeStream.RestIsThere | src/zmqsrc/src/pipe.cpp:143-167 | so an endpoint in the middle of a message is told that there is something to read: the rest of it has been published |
| PipeStream.WritesAreKept | src/zmqsrc/src/pipe.cpp:221-246 | in every run what an end put in is the list of its accepted writes, without the parts of unfinished messages that were rolled back, and with a delimiter where it was terminated |
| PipeStream.ReadsFollowWrites | src/zmqsrc/src/pipe.cpp:143-300 | from user to user, in every run: what the reads of one end handed out, followed by the messages in its queue, is what the writes of the other end were accepted and kept, credentials aside |
| OwnObject.Own.CheckTermAcks | src/zmqsrc/src/own.cpp:194-210 | the object's new fields and what it sends are those of the handler function the tree theorems are about |
| OwnObject.Own.ProcessSeqnum | src/zmqsrc/src/own.cpp:72-79 | same |
| OwnObject.Own.ProcessOwn | src/zmqsrc/src/own.cpp:121-133 | same; a child reported to a terminating owner is told to terminate at once |
| OwnObject.Own.ProcessTermReq | src/zmqsrc/src/own.cpp:98-119 | same; ignored when terminating or for an object not owned |
| OwnObject.Own.ProcessTerm | src/zmqsrc/src/own.cpp:158-173 | same; every owned object is told to terminate |
| OwnObject.Own.UnregisterTermAck | src/zmqsrc/src/own.cpp:180-187 | same |
| OwnObject.Own.ProcessCommand | src/zmqsrc/src/object.cpp:73-153 | the handler first and then the sequence number, for each command |
| OwnershipSafety.StepKeeps | src/zmqsrc/src/own.cpp:66-210 | every delivery, launch, request, registration and event keeps the invariant; in it the ack count is the terms in flight, the terminating children and the acks in flight |
| OwnershipSafety.EveryRunIsSafe | src/zmqsrc/src/own.cpp:158-210 | for a tree of any size and any interleaving: no assertion fails, no object receives a command after it was destroyed, none gets a second term |
| OwnershipCounts.AtMostOneTermAndOneAck | src/zmqsrc/src/own.cpp:158-210 | counted over every run: an object with an owner is sent at most one term, exactly if it was asked to terminate, and sends at most one ack, exactly if it was destroyed |
| OwnershipCounts.RequestTakesEffect | src/zmqsrc/src/own.cpp:98-119 | a request for a child asks it to terminate, or finds it asked already, exactly if the child has been reported to its owner; otherwise it is ignored and leaves no trace |
| OwnershipCounts.EarlyRequestIsLost | src/zmqsrc/src/own.cpp:82-109 | a run in which a new child asks to be terminated before its owner knows of it, and the request is ignored |
| OwnershipRequests.TerminateCompletes | src/zmqsrc/src/own.cpp:98-156 | an object that is told to terminate, the root at any time and any other once it has been reported to its owner, is destroyed together with all it owns when no step is due any more |
| OwnershipSafety.FinishedMeansAlone | src/zmqsrc/src/own.cpp:194-210 | when an object is destroyed all its children are gone and its queue is empty |
| OwnershipSafety.ReceiverIsAlive | src/zmqsrc/src/object.cpp:208-227 | an object with a command in flight, a reserved sequence number or a registered event is alive |
| OwnershipProgress.QuietMeansDestroyed | src/zmqsrc/src/own.cpp:158-210 | when nothing is due, an object has been destroyed exactly if it or one of the owners above it is terminating |
| OwnershipProgress.DueIsProgress | src/zmqsrc/src/own.cpp:158-210 | each due step keeps the invariant and leaves less to do |
| OwnershipProgress.DueStepsComplete | src/zmqsrc/src/own.cpp:121-210 | whatever is terminating: the due steps are bounded, and when none is left the tree below every terminating object is destroyed and everything else is alive |
| OwnershipProgress.ShutdownCompletes | src/zmqsrc/src/own.cpp:121-210 | once launching stops, shutdown takes a bounded number of steps and destroys the whole tree |
| Mtrie.Node.Add | src/zmqsrc/src/mtrie.cpp:70-150 | adds exactly the pair to what the trie denotes; true exactly when the prefix was new; keeps the shape invariant |
| Mtrie.Node.Extend | src/zmqsrc/src/mtrie.cpp:85-131 | growing the table on either side keeps every child in its place |
| Mtrie.Node.RmAll | src/zmqsrc/src/mtrie.cpp:153-160 | removes exactly the pipe's pairs; the callbacks are strictly ascending and made exactly for the affected prefixes |
| Mtrie.Node.RmPipe | src/zmqsrc/src/mtrie.cpp:162-284 | the same below a node, with the path in the buffer put in front of every callback |
| Mtrie.Node.RmPipeTable | src/zmqsrc/src/mtrie.cpp:206-241 | the loop over the table: prunes redundant children and finds the new first and last one |
| Mtrie.Node.Shrink | src/zmqsrc/src/mtrie.cpp:243-283 | the three ways of compacting keep every child; the assertions in them hold |
| Mtrie.Node.Rm | src/zmqsrc/src/mtrie.cpp:291-386 | for every valid trie, prefix and pipe: removes exactly the pair; the assertion on its presence fails exactly when others have the prefix and this pipe does not; otherwise true exactly when the prefix has a node (or is empty) and no pipe is left there |
| Mtrie.Node.Detach | src/zmqsrc/src/mtrie.cpp:317-331 | deleting a redundant child keeps the rest; the assertions on the counts hold |
| Mtrie.Node.Compact | src/zmqsrc/src/mtrie.cpp:332-381 | to a single child, from the left or from the right: the table is tight again |
| Mtrie.Node.Match | src/zmqsrc/src/mtrie.cpp:388-429 | each pipe is called back as many times as there are prefixes of the data it subscribed to |
| Mtrie.MatchSelects | src/zmqsrc/src/mtrie.cpp:388-429 | so the pipes called back are exactly those subscribed to some prefix of the data |
| Mtrie.Node.RedundantMeansEmpty | src/zmqsrc/src/mtrie.cpp:431-434 | a node is redundant exactly when nothing is subscribed in it or below it |
| Mtrie.Shrunk | src/zmqsrc/src/mtrie.cpp:251-283 | one child is left exactly when the new first and last byte agree |
| Mtrie.NewEndsSurvive | src/zmqsrc/src/mtrie.cpp:207-239 | the loop's running minimum and maximum are the first and last surviving child |
| Subscriptions.AscendingIsUnique | src/zmqsrc/src/mtrie.cpp:162-284 | order and number of the callbacks follow from the set of prefixes they are made for |
| Subscriptions.ReportedNext | src/zmqsrc/src/mtrie.cpp:212-216 | the callbacks of one child come after those of the earlier ones |
| PipeArrays.PipeArray.PushBack | src/zmqsrc/src/array.hpp:118-123 | stored places agree with positions after an append |
| PipeArrays.PipeArray.Erase | src/zmqsrc/src/array.hpp:125-134 | the last item takes the place of the erased one, and places still agree |
| PipeArrays.PipeArray.Swap | src/zmqsrc/src/array.hpp:136-143 | places agree after a swap |
| PipeArrays.PipeArray.PlacesAreUnique | src/zmqsrc/src/array.hpp:150-153 | so no item occurs twice |
| PipeArrays.SwapUpto | src/zmqsrc/src/array.hpp:136-143 | a swap across a border exchanges one pipe for another before it; any other swap changes nothing there |
| Distributor.Dist.Attach | src/zmqsrc/src/dist.cpp:50-66 | the new pipe is eligible, and active unless a message is being sent; the groups stay nested |
| Distributor.Dist.Match | src/zmqsrc/src/dist.cpp:68-81 | an eligible pipe joins the matching ones, any other call changes nothing, repeats included |
| Distributor.Dist.ReverseMatch | src/zmqsrc/src/dist.cpp:83-97 | the matching pipes become exactly the eligible ones that did not match |
| Distributor.Dist.Unmatch | src/zmqsrc/src/dist.cpp:99-102 | no pipe matches any more |
| Distributor.Dist.PipeTerminated | src/zmqsrc/src/dist.cpp:104-122 | the pipe leaves every group and nothing else changes, also in the middle of a message |
| Distributor.Dist.Activated | src/zmqsrc/src/dist.cpp:124-138 | any passive pipe becomes eligible, and active unless a message is being sent |
| Distributor.Dist.Write | src/zmqsrc/src/dist.cpp:210-224 | a pipe that takes the part gets it and is flushed at the last one; a pipe that refuses leaves all three groups |
| Distributor.Dist.Distribute | src/zmqsrc/src/dist.cpp:163-203 | every matching pipe is tried exactly once, although the index steps back on a refusal; one reference is left for each pipe that took a large message |
| Distributor.Dist.SendToMatching | src/zmqsrc/src/dist.cpp:146-161 | exactly the matching pipes that did not refuse get the part; after the last part active and eligible agree; those that refuse a later part are cut off, and those cut off that take another message are torn |
| Distributor.Dist.SendToAll | src/zmqsrc/src/dist.cpp:140-144 | the same for all active pipes |
| Distributor.Dist.CheckHwm | src/zmqsrc/src/dist.cpp:226-233 | true exactly when every matching pipe has room |
| Distributor.KeepsOrder | src/zmqsrc/src/dist.cpp:146-161 | one more part for the pipes being sent to: a log stays message after message in order unless its pipe was cut off and takes another message, and only the pipes of the message being sent and those cut off end in the middle of one |
| Distributor.Dist.ReadersSeeWholeMessages | src/zmqsrc/src/dist.cpp:210-224 | so in every state a pipe's reader sees whole messages only, exactly unless the pipe refused a later part of a message, became active again and has taken a message to its end since; and all that is whole, unless it was torn |
| Distributor.RefusalTears | src/zmqsrc/src/dist.cpp:124-161 | the calls that make a reader see a message without its end followed by another |
| Publisher.XPub.Send | src/zmqsrc/src/xpub.cpp:230-258 | the first part goes exactly to the pipes marked before and the eligible subscribed ones (or to the eligible others), the later parts to those that took the earlier ones |
| Publisher.XPub.MarkMatching | src/zmqsrc/src/xpub.cpp:224-239 | the callbacks mark exactly the eligible pipes subscribed to some prefix of the data |
| Publisher.FirstPartsGoWhereWanted | src/zmqsrc/src/xpub.cpp:230-258 | after any calls of a socket: a first part goes exactly where it is wanted if the socket is lossy or no first part failed since a message was last finished; in general exactly when every pipe that the failed sends left marked subscribes to it, that is every pipe one of them was meant for, or with inverted matching every pipe that an odd number of them, up to the last one in a row, were meant for |
| Publisher.RetriedSend | src/zmqsrc/src/socket_base.cpp:1118-1156 | a first part that failed and is tried again goes where it was wanted; with inverted matching it goes to nobody, and succeeds |
| Publisher.BlockingSend | src/zmqsrc/src/socket_base.cpp:1118-1156 | a blocking send that fails any number of times, with nothing else happening in between, still goes where it was wanted at first; with inverted matching only the first attempt can fail |
| Publisher.LaterPartsFollow | src/zmqsrc/src/xpub.cpp:230-258 | the later parts of a message are for the pipes its first part was for, whatever they contain, less those that refused one |
| Publisher.SubscribedByCalls | src/zmqsrc/src/xpub.cpp:58-115 | after any calls a pipe is subscribed to a prefix exactly if it subscribed, or was attached with a subscription to all, and has neither unsubscribed nor ended since |
| Publisher.EligibleByCalls | src/zmqsrc/src/xpub.cpp:142-258 | and it is eligible exactly if it was attached or got room again, and has neither ended nor refused a part since |
| Publisher.Retry | src/zmqsrc/src/socket_base.cpp:1118-1156 | with the socket itself: the second of two calls of send with the same part delivers exactly there |
| Publisher.SendAnother | src/zmqsrc/src/xpub.cpp:244-257 | with the socket itself: a send that fails on a full pipe leaves its mark, and the next message is delivered to that pipe, too, which is not subscribed to it |
| Publisher.TwoSubscribers | src/zmqsrc/src/xpub.cpp:52-77 | the calls that make such a socket |
| Publisher.ForeignUnsubscription | src/zmqsrc/src/mtrie.cpp:291-306 | the calls after which a peer's unsubscription fails the assertion of the trie: only another pipe has the prefix |
| Publisher.XPub.WriteActivated | src/zmqsrc/src/xpub.cpp:142-145 | the pipe may be chosen again |
| Publisher.XPub.Subscribe | src/zmqsrc/src/xpub.cpp:110-115 | passed upstream exactly when the prefix is new |
| Publisher.XPub.Unsubscribe | src/zmqsrc/src/xpub.cpp:110-113 | for whatever a peer sends: the assertion of the trie fails exactly when only others have the prefix; otherwise passed upstream exactly when nobody has it any more |
| Publisher.XPub.PipeTerminated | src/zmqsrc/src/xpub.cpp:205-222 | the pipe's subscriptions go, and exactly the prefixes nobody else has (or all of its own) are passed upstream |
| RoundRobin.DropRanks | src/zmqsrc/src/fq.cpp:121-127 | taking a pipe without a message out of the turn moves no other pipe back |
| RoundRobin.AdvanceRanks | src/zmqsrc/src/fq.cpp:109-112 | the next turn moves every other pipe forward by one |
| RoundRobin.JoinRanks | src/zmqsrc/src/fq.cpp:76-81 | a pipe that joins moves each other one back by at most one |
| RoundRobin.DropActives | src/zmqsrc/src/fq.cpp:121-127 | exactly the pipe whose turn it is loses its turns |
| RoundRobin.JoinActives | src/zmqsrc/src/fq.cpp:76-81 | exactly the activated pipe is added to the active ones, behind all of them, and the turn stays |
| RoundRobin.LeaveActives | src/zmqsrc/src/fq.cpp:56-69 | exactly the leaving pipe is taken from them |
| RoundRobin.TurnAfterLeave | src/zmqsrc/src/fq.cpp:56-69 | exactly when the turn moves to another pipe because a third one leaves |
| RoundRobin.LeaveRanks | src/zmqsrc/src/fq.cpp:56-69 | exactly when a leaving pipe moves a waiting one back, and by how much |
| FairQueueing.FairQueue.RecvPipe | src/zmqsrc/src/fq.cpp:88-132 | whatever state the pipes are in, the loop returns what the specification of one receive says, the failed assertion included |
| FairQueueing.FairQueue.HasIn | src/zmqsrc/src/fq.cpp:134-156 | the loop deactivates what the specification says and reports whether anything can be read |
| FairQueueing.FairQueue.Attach | src/zmqsrc/src/fq.cpp:49-54 | the new pipe is the last active one |
| FairQueueing.FairQueue.Activated | src/zmqsrc/src/fq.cpp:76-81 | the passive pipe is the last active one, by the specification that FairQueueing.ComingIn is about |
| FairQueueing.FairQueue.PipeTerminated | src/zmqsrc/src/fq.cpp:56-69 | swaps and resets the turn as the specification of leaving says |
| FairQueueing.DropKeepsGood | src/zmqsrc/src/fq.cpp:118-124 | a pipe without data is never the one a message is being received from |
| FairQueueing.MessagesAreUnbroken | src/zmqsrc/src/fq.cpp:88-132 | in every run in which pipes leave, or are terminated by their users, without harm to the message being received, the parts of a message come one after the other from one pipe |
| FairQueueing.BoundedWaiting | src/zmqsrc/src/fq.cpp:88-156 | while a pipe with a message waits, the others finish at most as many messages as there were pipes before it, plus one for each pipe that joined, plus for each that left and put it back as many as it put before it |
| FairQueueing.ComingIn | src/zmqsrc/src/fq.cpp:49-81 | a pipe that is attached or activated is active: the active pipes are exactly the old ones, at their old places, and this one behind them |
| FairQueueing.ServedAfterComingIn | src/zmqsrc/src/fq.cpp:49-156 | from then on, while it has a message, the others finish at most as many messages as there were active pipes, plus what is put before it |
| FairQueueing.RecvServes | src/zmqsrc/src/fq.cpp:88-132 | a call delivers something whenever an active pipe has a message, and moves no waiting pipe back |
| FairQueueing.NothingIsOverlooked | src/zmqsrc/src/fq.cpp:94-156 | a call delivers, and a poll reports, something exactly when some active pipe has it |
| FairQueueing.NothingIsLost | src/zmqsrc/src/fq.cpp:88-132 | what was received from a pipe that stays and what is still there is what was there and what arrived, in order |
| FairQueueing.MessageSurvivesLeaving | src/zmqsrc/src/fq.cpp:56-69 | exactly when a message being received goes on after a pipe left, the one it comes from included |
| FairQueueing.ReceiveAfterHarm | src/zmqsrc/src/fq.cpp:56-132 | what the next receive gives after a pipe left, or was terminated by its user, to the harm of the message being received, whatever is attached, activated and arrives in between: the assertion fails exactly when there is nothing from the pipe the turn moved to, or from the first that came in if none was left; otherwise that pipe's part is taken for the rest of the message |
| FairQueueing.LeavingCanAbort | src/zmqsrc/src/fq.cpp:115-119 | exactly when the very next receive fails the assertion after a pipe left, said of the state before: the turn does not stay, another pipe is active, and there is nothing to read from the last active one or the first one, whichever is next |
| FairQueueing.MidMessage | src/zmqsrc/src/fq.cpp:49-132 | the calls that lead to the middle of a message from the third of three pipes |
| FairQueueing.LeavingBreaksAMessage | src/zmqsrc/src/fq.cpp:56-69 | then the second pipe leaves, and the next part comes from the first |
| FairQueueing.LeavingAborts | src/zmqsrc/src/fq.cpp:115-119 | or, if the first has nothing, the receive aborts, whether the second pipe leaves or the third |
| FairQueueing.EndingAborts | src/zmqsrc/src/fq.cpp:115-119 | and so it does when the user of the third pipe terminates it |
| FairQueueing.LateAbort | src/zmqsrc/src/fq.cpp:115-119 | the calls after which a receive finds nothing, and the next one aborts because a pipe without messages came in |
| LoadBalancing.LoadBalancer.SendPipe | src/zmqsrc/src/lb.cpp:87-150 | the method sends, drops, rolls back and deactivates as the specification of one send says |
| LoadBalancing.LoadBalancer.HasOut | src/zmqsrc/src/lb.cpp:152-173 | as the specification says |
| LoadBalancing.LoadBalancer.Attach | src/zmqsrc/src/lb.cpp:49-53 | the new pipe is the last active one |
| LoadBalancing.LoadBalancer.Activated | src/zmqsrc/src/lb.cpp:75-80 | the passive pipe is the last active one, by the specification that LoadBalancing.ComingIn is about |
| LoadBalancing.LoadBalancer.PipeTerminated | src/zmqsrc/src/lb.cpp:55-73 | starts dropping exactly when the pipe being sent to leaves in the middle of a message |
| LoadBalancing.MessagesStayWhole | src/zmqsrc/src/lb.cpp:87-150 | in every run of a new load balancer all parts of a message are in one pipe, and what any pipe's reader sees is whole messages and all of them, also after the pipe left |
| LoadBalancing.WholeBetweenMessages | src/zmqsrc/src/lb.cpp:103-112 | a reader sees the longest prefix of whole messages; no pipe but the one being sent to holds anything else |
| LoadBalancing.RollbackKeepsGood | src/zmqsrc/src/lb.cpp:105-112 | a refusal in the middle of a message takes exactly the earlier parts of that message back, all the way to its first |
| LoadBalancing.TerminateIsSafe | src/zmqsrc/src/lb.cpp:55-73 | a leaving pipe keeps all this exactly when it does not move the turn away from a pipe in the middle of a message |
| LoadBalancing.LeavingBreaksAMessage | src/zmqsrc/src/lb.cpp:55-73 | otherwise the rest of the message goes to another pipe, whose reader sees it without its beginning |
| LoadBalancing.BoundedWaiting | src/zmqsrc/src/lb.cpp:87-173 | while a pipe with room waits, the others get at most as many messages as there were pipes before it, plus one for each pipe that joined, plus for each that left and put it back as many as it put before it |
| LoadBalancing.ComingIn | src/zmqsrc/src/lb.cpp:49-80 | a pipe that is attached or activated is active: the active pipes are exactly the old ones, at their old places, and this one behind them |
| LoadBalancing.ServedAfterComingIn | src/zmqsrc/src/lb.cpp:49-173 | from then on, while it has room, the others get at most as many messages as there were active pipes, plus what is put before it |
| BalancerLogs.SendDoes | src/zmqsrc/src/lb.cpp:87-150 | a send is dropped exactly while the rest of a broken message is; otherwise an active pipe with room takes this very part, the one in the middle of a message if there is one, or the send fails and only an unfinished message of the refusing pipe is taken back |
| BalancerLogs.LogsAreReported | src/zmqsrc/src/lb.cpp:87-150 | in every run a pipe holds exactly the parts that the sends reported for it, in order, without those of messages given up |
| BalancerLogs.OpenMeansRoom | src/zmqsrc/src/lb.cpp:152-157 | in the middle of a message a poll reports room |
| LoadBalancing.NoRoomIsOverlooked | src/zmqsrc/src/lb.cpp:103-173 | between messages a send succeeds, and a poll reports room, exactly when some active pipe has it |
| LoadBalancing.SendServes | src/zmqsrc/src/lb.cpp:87-150 | a send fails only when the pipe in the middle of a message refuses, as long as an active pipe has room |
| MessageRefs.Message.Close | src/zmqsrc/src/msg.cpp:216-271 | frees the body exactly when it is not shared or its count reaches zero |
| MessageRefs.Message.Move | src/zmqsrc/src/msg.cpp:273-292 | the other message's body is taken over with its count unchanged; a message moved onto itself is closed |
| MessageRefs.Message.Copy | src/zmqsrc/src/msg.cpp:294-336 | a body becomes shared with count two, or its count grows by one; a message copied onto itself is closed |
| MessageRefs.Message.AddRefs | src/zmqsrc/src/msg.cpp:456-477 | the count stands for that many references more |
| MessageRefs.Message.RmRefs | src/zmqsrc/src/msg.cpp:479-519 | the count goes down; false exactly when the body is gone |
| MessageRefs.StepKeeps | src/zmqsrc/src/msg.cpp:216-336 | every operation of every holder keeps the count of a shared body equal to its outstanding references |
| MessageRefs.EveryRunIsCounted | src/zmqsrc/src/msg.cpp:216-519 | so it is in every interleaving of copies, closes and distributions, and no body is freed twice |
| MessageRefs.TouchedIsLive | src/zmqsrc/src/msg.cpp:216-519 | no operation touches a body that was freed |
| MessageRefs.NothingLeaks | src/zmqsrc/src/msg.cpp:216-271 | when nobody holds anything, every body was freed exactly once |
| MessageRefs.DistributionBalances | src/zmqsrc/src/dist.cpp:187-202 | adding references, copying and taking back those of refusals leaves one per pipe that took the message |
| ReceiveBuffers.Allocator.Allocate | src/zmqsrc/src/decoder_allocators.cpp:60-96 | the buffer handed out has no message in it: the old one exactly if nobody uses it, else a new one |
| ReceiveBuffers.Allocator.Deallocate | src/zmqsrc/src/decoder_allocators.cpp:98-105 | freed exactly when no message uses it |
| ReceiveBuffers.Allocator.CallDecRef | src/zmqsrc/src/decoder_allocators.cpp:122-133 | freed exactly with its last user |
| ReceiveBuffers.Allocator.NewMessage | src/zmqsrc/src/v2_decoder.cpp:105-131 | a message uses the buffer exactly when it is large and fits; a content slot is always left |
| ReceiveBuffers.Allocator.RawMessage | src/zmqsrc/src/raw_decoder.cpp:56-74 | a large message takes the buffer over with the decoder's own reference |
| ReceiveBuffers.Allocator.constructor | src/zmqsrc/src/decoder_allocators.cpp:37-44 | as many content slots as messages of at least that size fit |
| Mailboxes.StepKeeps | src/zmqsrc/src/mailbox.cpp:59-101 | every step of the receiver and of any number of senders keeps the invariant |
| Mailboxes.EveryRunDelivers | src/zmqsrc/src/mailbox.cpp:59-101 | commands are received once and in the order of writing; never two signals are outstanding |
| Mailboxes.WokenFindsACommand | src/zmqsrc/src/mailbox.cpp:94-99 | after taking a signal the read succeeds |
| Mailboxes.NoWakeUpIsLost | src/zmqsrc/src/mailbox.cpp:59-67 | a passive receiver with commands waiting has a signal, or one is coming |
| Mailboxes.CommandsAreDrained | src/zmqsrc/src/mailbox.cpp:69-101 | while commands wait there is a next step, and each brings the end nearer |
| Mailboxes.Mailbox.Post | src/zmqsrc/src/mailbox.cpp:61-65 | writes and flushes; tells exactly when a signal is owed |
| Mailboxes.Mailbox.SendSignal | src/zmqsrc/src/mailbox.cpp:65-66 | pays it |
| Mailboxes.Mailbox.Recv | src/zmqsrc/src/mailbox.cpp:69-101 | fails exactly when there is nothing to read while active and no signal; the assertion holds |
| Mailboxes.Mailbox.constructor | src/zmqsrc/src/mailbox.cpp:34-42 | starts passive, with the reader asleep |
| Framing.GetPut | src/zmqsrc/src/wire.hpp:81-104 | a number that is written is read back |
| Framing.PutByte | src/zmqsrc/src/wire.hpp:60-92 | network byte order: byte i of n is the number divided by 256 to the power n-1-i, modulo 256 |
| Framing.LargeFrameBytes | src/zmqsrc/src/v2_encoder.cpp:47-78 | the bytes of a frame with more than 255 bytes of body: the three flag bits, the eight bytes of the size with the most significant first, the body |
| Framing.SmallFrameBytes | src/zmqsrc/src/v2_encoder.cpp:47-78 | the bytes of any other frame: the flag bits, one byte of size, the body |
| Framing.AnyFrameIsRead | src/zmqsrc/src/v2_decoder.cpp:60-161 | whatever the flag byte is: its lowest three bits alone decide, one or eight bytes give the size, exactly so many bytes are the body, and a size over the limit is refused |
| Framing.FeedAppend | src/zmqsrc/src/decoder.hpp:107-154 | however a stream is cut in two, the pieces give what the whole gives |
| Framing.ChunksAreInvisible | src/zmqsrc/src/decoder.hpp:107-154 | and so for any number of pieces |
| Framing.FeedFrame | src/zmqsrc/src/v2_decoder.cpp:60-161 | the decoder's steps read the encoder's frame back as the message, flags and all sizes included |
| Framing.SentIsReceived | src/zmqsrc/src/v2_encoder.cpp:47-78 | any sequence of acceptable messages arrives as it was sent, however the stream is cut |
| Framing.PartOfStream | src/zmqsrc/src/v2_decoder.cpp:60-161 | before that, exactly the messages whose frames have arrived |
| Framing.PartOfFrame | src/zmqsrc/src/v2_decoder.cpp:60-161 | a frame that is not complete gives nothing yet |
| Framing.FeedTooLarge | src/zmqsrc/src/v2_decoder.cpp:91-97 | a message over the limit is refused as soon as its size is known |
| Encoding.Encoder.Encode | src/zmqsrc/src/encoder.hpp:81-135 | each piece, copied or not, is what comes next of the frame; a short piece means the message is finished |
| Encoding.Encoder.LoadMsg | src/zmqsrc/src/encoder.hpp:137-142 | what is due is the frame of the message, whose bytes Framing.LargeFrameBytes and Framing.SmallFrameBytes give |
| Encoding.Encoder.OutEvent | src/zmqsrc/src/stream_engine.cpp:377-390 | a batch loads messages only when the encoder is free and gets bytes from each of them; all output is the frames in order |
| Decoding.Decoder.Decode | src/zmqsrc/src/decoder.hpp:107-154 | takes bytes in, copied or in place, up to the end of a message, with the result of taking them one by one |
| Decoding.Decoder.RunSteps | src/zmqsrc/src/decoder.hpp:121-126 | runs the state machine until more is needed or a message is complete |
| Decoding.Decoder.Next | src/zmqsrc/src/v2_decoder.cpp:60-161 | the steps of the state machine |
| Decoding.Decoder.GetBuffer | src/zmqsrc/src/decoder.hpp:79-99 | in place exactly when at least a buffer is missing |
| Decoding.Decoder.DecodeNext | src/zmqsrc/src/decoder.hpp:107-154 | the same with account of the stream: what was decoded so far is what the bytes consumed so far, taken one by one, give |
| Decoding.Engine.InEvent | src/zmqsrc/src/stream_engine.cpp:333-360 | all that was received is decoded, message by message, until the session has no room for one; then the message is held and the input stops |
| Decoding.Engine.RestartInput | src/zmqsrc/src/stream_engine.cpp:442-486 | the held message goes first, and decoding goes on where it stopped |
| Decoding.Engine.NothingIsLost | src/zmqsrc/src/stream_engine.cpp:333-486 | so at any time the messages the session took and the one held are those of the stream as far as it was decoded; unless the session has no room or the stream is malformed, that is all of it |
| Metadata.ParsesWhatWasAdded | src/zmqsrc/src/mechanism.cpp:86-159 | every list of properties is recovered in order, and a property cut off after its name or length goes unnoticed |
| Metadata.AcceptsNothingElse | src/zmqsrc/src/mechanism.cpp:102-159 | whatever is accepted is such a list followed by nothing or by such a cut-off property |
| Metadata.RefusesMisfit | src/zmqsrc/src/mechanism.cpp:130-141 | properties that fit and then one that does not are refused as invalid, whatever follows |
| Metadata.RefusedForMisfit | src/zmqsrc/src/mechanism.cpp:130-141 | and nothing else is; what is neither this nor accepted is a protocol error |
| Metadata.PropertyBytes | src/zmqsrc/src/mechanism.cpp:86-100 | the bytes of a property: the length of the name, the name, four bytes for the length of the value with the most significant first, the value |
| Metadata.FirstValueStays | src/zmqsrc/src/mechanism.cpp:147-153 | the dictionary has exactly the names there were and those of the properties, each with its first value |
| Metadata.StoppedIsCutOff | src/zmqsrc/src/mechanism.cpp:111-124 | exactly which incomplete properties leave no byte over |
| Metadata.Parse | src/zmqsrc/src/mechanism.cpp:102-159 | the loop gives the verdict and the dictionary of the specification; the first value of a name stays |
| Metadata.ScanAt | src/zmqsrc/src/mechanism.cpp:108-128 | moves the cursor over exactly one property |
| Metadata.ScanAdded | src/zmqsrc/src/mechanism.cpp:86-100 | reading a property that was written gives it back with the rest |
| Metadata.FittingIsMutual | src/zmqsrc/src/mechanism.cpp:169-212 | both peers agree on whether their socket types fit |
| Metadata.TableFollowsPatterns | src/zmqsrc/src/mechanism.cpp:169-212 | for every pair of types: they fit exactly if they serve the same messaging pattern from opposite sides, or are both dealers, routers, pairs or datagram sockets |
| Metadata.OnlyNamesFit | src/zmqsrc/src/mechanism.cpp:169-212 | a string fits exactly if it is the name of such a type; one that names no type fits nothing |
| Plain.HelloRoundTrip | src/zmqsrc/src/plain_server.cpp:133-189 | the server reads a username and password exactly from what a client with these sends |
| Plain.HelloBytes | src/zmqsrc/src/plain_client.cpp:114-141 | the bytes of HELLO: its name, and username and password each behind a byte of length |
| Plain.CommandBytes | src/zmqsrc/src/plain_server.cpp:212-278 | the names of the commands and the status 200, in ASCII, each name behind its length |
| Plain.CommandsTold | src/zmqsrc/src/plain_client.cpp:160-189 | INITIATE and READY are their names followed by the properties; ERROR carries a status of three bytes behind its length |
| Plain.PropertiesTold | src/zmqsrc/src/plain_client.cpp:160-189 | the properties are the name of the socket type, and for REQ, DEALER and ROUTER the identity |
| Plain.ClientTakes | src/zmqsrc/src/plain_client.cpp:71-222 | which messages a client takes in which state, by their bytes, and where each leads; any other is refused with the right error and changes nothing |
| Plain.ServerTakesHello | src/zmqsrc/src/plain_server.cpp:81-189 | a server takes a HELLO exactly if it is one that a client would write; 200 alone, or no authenticator, lets the client in |
| Plain.ServerTakes | src/zmqsrc/src/plain_server.cpp:81-235 | and an INITIATE exactly while it waits for one and its metadata is accepted; in any other state it takes nothing |
| Plain.ProcessHello | src/zmqsrc/src/plain_server.cpp:133-189 | the cursor parser agrees with that reading |
| Plain.PropertiesExchanged | src/zmqsrc/src/plain_client.cpp:160-189 | a peer finds the other's properties exactly when the socket types fit, and refuses them otherwise |
| Plain.StepKeeps | src/zmqsrc/src/plain_server.cpp:54-131 | every step of an honest handshake keeps both peers in step |
| Plain.EveryHandshakeAgrees | src/zmqsrc/src/plain_client.cpp:49-205 | fitting honest peers never refuse each other; the client is ready only after the server, each has the other's properties; the server lets in only without an authenticator or on status 200 for the client's own credentials |
| Plain.NeverStuck | src/zmqsrc/src/plain_client.cpp:49-112 | some step is possible until both are ready or both know of the error |
| Plain.StepsLeadToTheEnd | src/zmqsrc/src/plain_server.cpp:54-117 | each step brings that nearer |
| Plain.MisfitsAreRefused | src/zmqsrc/src/plain_server.cpp:220-235 | the server refuses a client whose socket type does not fit |
| Plain.PlainClient.NextHandshakeCommand | src/zmqsrc/src/plain_client.cpp:49-69 | sends and moves on as the specification says |
| Plain.PlainClient.ProcessHandshakeCommand | src/zmqsrc/src/plain_client.cpp:71-101 | state, result and stored properties as the specification says, for every message |
| Plain.PlainClient.ProcessError | src/zmqsrc/src/plain_client.cpp:204-222 | accepts an error command only while waiting and with a reason that fits |
| Plain.PlainServer.NextHandshakeCommand | src/zmqsrc/src/plain_server.cpp:54-79 | sends and moves on as the specification says |
| Plain.PlainServer.ProcessHandshakeCommand | src/zmqsrc/src/plain_server.cpp:81-106 | state, result, stored properties and status code as the specification says, for every message |
| Plain.PlainServer.ZapMsgAvailable | src/zmqsrc/src/plain_server.cpp:119-131 | an answer counts only while one is awaited; its status code is what an error command will carry |
| Transfer.SendFile | src/R_zmq_transfer.c:80-110 | the loop over the reused buffer sends the chunks of the file |
| Transfer.RecvFile | src/R_zmq_transfer.c:161-197 | the loop writes what it receives up to the first chunk that is not full; a chunk that is too long is an error |
| Transfer.ChunksMakeTheFile | src/R_zmq_transfer.c:87-109 | there are length / BUFLEN + 1 chunks, only the last is not full, and together they are the file |
| Transfer.FileArrives | src/R_zmq_transfer.c:168-196 | the receiver stops after exactly these chunks and has the same file |
| Transfer.SenderKeeps | src/R_zmq_transfer.c:87-109 | the sender's steps keep both programs in step and never call the socket in the wrong phase |
| Transfer.ReceiverKeeps | src/R_zmq_transfer.c:168-196 | and so do the receiver's |
| Transfer.EveryTransferSucceeds | src/R_zmq_transfer.c:80-197 | in every interleaving and for all three socket pairings: when both loops have ended the file is identical, the number of chunks is right, nothing is left over and both sockets are where they started |
| Transfer.NeverDeadlocked | src/R_zmq_transfer.c:80-197 | the two programs never both wait |
| Transfer.StepsLeadToTheEnd | src/R_zmq_transfer.c:80-197 | every step brings the end nearer |

## Left out

- PipeObject.Pipe.ProcessHiccup: the new queue arrives as an object and a number standing for its address; that the peer created it is the concern of PipePair.
- PipeFlow.EveryUncrossedRunFlows: the items of a queue that a hiccup replaces are dropped by design; the theorem speaks of each queue from its creation on.
- PipeCredit.WatermarksHold: runs without hiccups and credentials, where there is no drift; PipeDrift.WatermarksDrift is about all runs.
- PipeCredit.LaterPartsAreTaken: runs without hiccups and credentials.
- Distributor.Dist.SendToMatching: which pipes refuse is a parameter, and a hiccup in the middle of a message, which gives the rest of it to a new queue, is not modelled.
- QueueInterleaving.EveryInterleavingIsSequential: the memory behind the queue, allocated in chunks, is a sequence.
- Decoding.Engine.InEvent: a session that rejects a message for another reason than lack of room tears the connection down.
- Mtrie.Node.RmAll: the scratch buffer for the path is a sequence; its growth is not modelled.
- Distributor.Dist.Match: between messages only, as the publisher calls it.
- Publisher.XPub.Send: whether the socket drops or fails is fixed when it is made; manual subscriptions, the welcome message and the queue of messages passed upstream are not modelled.
- FairQueueing.MessagesAreUnbroken: what follows an event that harms the message being received is the subject of FairQueueing.ReceiveAfterHarm, up to the next receive; several such events before it are not.
- LoadBalancing.BoundedWaiting: a pipe's leaving that breaks the message being sent, by LoadBalancing.TerminateIsSafe, is not part of its runs.
- LoadBalancing.MessagesStayWhole: after a rollback the parts that follow count as a new message; the application decides what to send then.
- MessageRefs.Message.Copy: a closed message and an empty one look alike; the source marks the closed one as invalid, and calls on invalid messages fail without effect.
- MessageRefs.EveryRunIsCounted: the reference count of a message's metadata object is not modelled.
- Mailboxes.Mailbox.Recv: a call that nobody interrupts; the interleavings are in the step theorems. Time-outs appear as finding no signal.
- ReceiveBuffers.Allocator.NewMessage: requires the size received to be within the buffer. After a read straight into a message it can be more, and then no message begins before the next buffer is allocated.
- Encoding.Encoder.Encode: handing out the message's own memory instead of copying shows only in the length of the piece.
- Decoding.Decoder.Decode: receiving in place shows only as a limit on the length; running out of memory is not modelled.
- Metadata.Parse: storing the peer's identity and the hook for a mechanism's own properties.
- Plain.EveryHandshakeAgrees: the authenticator's answer is well formed; malformed answers end the session. Peers that do not follow the protocol are covered only by the contracts of single commands.
- Transfer.EveryTransferSucceeds: blocking sockets without errors, and no limit on chunks in flight in the one-way pairing; progress bar, file opening and R glue are not modelled.
- Pipes are numbers in the arrays and the trie, and the places stored in them are a map kept with the array; null entries, which no array here has, are not modelled.
- Changing watermarks on a live pipe, pipes that keep only the newest message, identities and routing ids, the callbacks of a pipe's owner.
- Object classes that override the termination handlers, reaping and the context's own shutdown.
- Wrap-around of 32- and 64-bit counters, except where the pipe compares two of them (PipeEndpoint.CheckHwm).
- Version 1 of the wire format, the greeting, the CURVE and GSSAPI mechanisms, pollers, transports, and the remaining socket types, which are thin layers over the parts modelled here.
