# dsh-link, modelled and proved

dsh-link joins the machines of one user: every machine runs a node, nodes deliver messages to each
other, let a peer call a small set of methods through a command queue, and a bridge inside the host
wakes a local session when a message arrives. This project models the parts of dsh-link that keep
state across steps, and proves what they promise over whole runs. Methods and classes follow the code
that updates things in place; each is proved equal to a function of the old state, and the laws are
proved about that function.

| part | files | what is at stake |
|---|---|---|
| command queue | `Commands`, `ClaimSteps`, `TerminalRecords`, `EnqueueRaces`, `CommandQueue`, `QueueLifecycle`, `CommandWorker`, `TimeIds`, `TextOrder` | a command runs once, ends once, and drains in order |
| messages and shared state | `SharedState`, `SharedProcesses`, `Delivery`, `DeliverySafety`, `DeliveryNode` | nothing twice, nothing foreign, "delivered" is true, no mark is lost |
| wake engine | `WakeGuard`, `ObjectKeys`, `TopicPool`, `TopicSweep`, `TopicRuns`, `RouteTable`, `RouteLaws`, `RouteSweeps`, `BridgeTick`, `BridgeLaws`, `BridgeSafety` | two bridges cannot wake each other without bound, topics do not mix |
| session logs | `FrameDecoder`, `Transcript` | frames are found although the magic occurs inside them; pages and cache agree with the log |
| tunnel file | `TomlText`, `FrpcToml`, `FrpcRoundTrip`, `FrpcDocument` | frpc.toml reads back as what was written |

A protocol is a state, a list of actions, a total `Apply` and an `Exec` over a list; an action that is
not enabled changes nothing, so a theorem about `Exec` covers every interleaving. `ClaimSteps` and
`SharedProcesses` take single file-system calls as actions, the others whole operations or requests.

Assumptions, made once:

- the clock read by successive steps does not go backwards; in `ClaimSteps` the claim file's mtime is
  read from the same clock;
- rename and exclusive create are atomic, and a read sees one version of a file;
- generated message ids, command ids and session ids are new;
- policy and limits are fixed during a run;
- about zstd (frames and magic as in section 3.1.1 of RFC 8878): a whole frame decodes, also with
  trailing bytes, a strict prefix of one does not, and nothing decodes from a start that is not the
  start of a good frame.

## What turned out otherwise

- docs/PROTOCOL.md:119 says that terminal states are immutable. The code keeps that between whole operations (`QueueLifecycle.RunKeeps`). Between file-system calls it does
  not: two overlapping reports turn a done record into a failed one
  (`ClaimSteps.OverlappingReportsRewrite`), the write of a stale-lease takeover turns a done record
  back into a claimed one (`ClaimSteps.TakeoverRewrites`), and so does the write of any claim when a
  report arrives before that claim returned (`ClaimSteps.EarlyReportIsOverwritten`).
  `TerminalRecords.TerminalForeverIff` says of every run, with no hypothesis, exactly when it keeps its
  finished records: nobody writes after a report has landed on its command since it read it.
- The count and the write of `enqueue` are separate steps, so several processes can pass maxPending
  together: by all of them but one, and no further (`EnqueueRaces.UnfinishedIsBounded`,
  `BoundIsReached`).
- `complete` does not ask whether the command was claimed, so a pending command can become done
  directly; `QueueLifecycle.UnclaimedCompletion` says that this is the only way.
- A good frame with four or more inner occurrences of the magic is lost, and its events with it.
  `FrameDecoder.DecodesEverythingIff` gives the exact condition, `CrowdedFrameIsLost` an input.
- `mergeState` commutes exactly when no tie has to be broken (`SharedState.MergeCommutesIff`); ties
  also concern the value of a read mark, not only delivery entries.
- An interval as long as a budget window holds at most `2 * maxThreadWakes - 1` wakes of one thread,
  one fewer than two full budgets (`WakeGuard.ThreadCap`); `CapIsReached` shows the bound is met.
- A route sweep is invisible to every later lookup (`RouteLaws.SweepIsInvisible`), but not to every
  later send: an expired route that is still in the table hands its message ids on when its own session
  sends on its thread again. `RouteSweeps.SendTellsIff` says that exactly such a send can tell, and
  `SweepIsInvisibleToSends` that a run without one cannot.
- `deliver` to oneself appends and marks in two steps and does not look at the inbox. Two flushes at
  once put one message there twice (`DeliveryNode.OverlappingFlushesDuplicate`), and so does a process
  that dies between the steps, when the next one flushes (`DeathBeforeTheMarkDuplicates`). Messages
  from other nodes are never there twice; `DeliverySafety.InboxesAreSound` has the exact condition.
- When the order of ids disagrees with that of timestamps, the watermark can land below a message that
  was just prompted, and the message wakes a session again (`BridgeLaws.SkewedIdsWakeTwice`).
  `WakesAgainIff` says exactly when, `BridgeSafety.RanksAboveWakesAgain` that it can always come to
  that, `CoveredNeverWakesAgain` what can never come again.
- A printed string of frpc.toml comes back exactly if it needs no escape and is not empty, for the
  top-level values also trimmed (`FrpcRoundTrip.StringReadsBackIff`, `PickReadsBackIff`).

## Model

| member | source | states |
|---|---|---|
| ClaimSteps.ClaimExclusive | src/capabilities.mjs:291-361 | However the list, stat, remove, create, re-read and write calls of any number of processes interleave, reports that overlap each other included, no command is handed out twice, attempts stays at most 1, and every hand-out is on record, as long as no lease goes stale and a command is completed only after its claim returned |
| TerminalRecords.StepTerminalIff | src/capabilities.mjs:320-361 | With no hypothesis: one file-system call changes a finished record if and only if it is a write that finds its file finished and stores something else |
| TerminalRecords.TerminalForeverIff | src/capabilities.mjs:320-361 | With no hypothesis on the run: finished records are the same at any two points of it if and only if no claim or report writes, other than the same record again, after a report landed on its command since it read it |
| TerminalRecords.TerminalForever | src/capabilities.mjs:320-332 | Without stale leases, with reports only after the claim returned and one at a time, no writer is overtaken, so a record that is done or failed at any point is the same ever after |
| ClaimSteps.CreateWins | src/capabilities.mjs:313-318 | Winning the exclusive create keeps the protocol invariant: without a claim file a command is pending and held by nobody, or finished |
| ClaimSteps.OverlappingReportsRewrite | src/capabilities.mjs:344-361 | Two reports that both read before either writes turn a done record into a failed one |
| ClaimSteps.EarlyReportIsOverwritten | src/capabilities.mjs:320-332 | A report that completes a command whose claim has not returned, with no stale lease and no other report, is overwritten by the claim's write: done becomes claimed, with no claim file left |
| ClaimSteps.TakeoverRewrites | src/capabilities.mjs:305-332 | A report that lands between re-read and write of a stale-lease takeover is overwritten: done becomes claimed |
| CommandQueue.Queue.ListRecords | src/capabilities.mjs:209-228 | Every record of the directory, sorted by id |
| CommandQueue.Queue.Enqueue | src/capabilities.mjs:242-284 | Refused by policy, refused when maxPending commands are unfinished, else exactly the new record is added: pending, with the given capability and params, created now, and claimed by nobody |
| CommandQueue.Queue.Claim | src/capabilities.mjs:291-337 | New directory and returned records of the claim loop, leases, takeover and limit included |
| CommandQueue.Queue.ClaimCandidate | src/capabilities.mjs:301-332 | One candidate: a claim file whose lease is not stale keeps it off and nothing changes; what is handed out is on record as claimed by this bridge now, with one more attempt, under a claim file of this moment |
| CommandQueue.Queue.Complete | src/capabilities.mjs:344-361 | Bad id and unknown command are the errors; on errors and on a terminal record nothing changes; else a success makes the record done with its result and no error, a failure failed with its error and no result, finished now, the rest as it was, and the claim file goes; a result over maxResultBytes is stored as its length and a prefix |
| CommandQueue.Queue.Sweep | src/capabilities.mjs:382-402 | New directory and count of the expiry loop |
| QueueLifecycle.ClaimEffect | src/capabilities.mjs:296-337 | claim hands out exactly the first max claimable commands in id order, each claimed by this bridge now with one more attempt and otherwise as it was, writes their claim files, and changes nothing else |
| QueueLifecycle.ClaimableIff | src/capabilities.mjs:296-318 | Claimable is exactly a pending command, or one whose claim file is as old as the lease |
| QueueLifecycle.ClaimDrainsInOrder | src/capabilities.mjs:209-228 | Claimed commands come in the order in which their ids were taken, and nothing claimable whose id was taken earlier, let alone whose record was complete earlier, is left behind |
| QueueLifecycle.StepKeepsStamps | src/capabilities.mjs:262-279 | Every operation keeps every id in step with the clock, given that enqueue takes the id before it reads createdAt |
| QueueLifecycle.RunKeepsStamps | src/capabilities.mjs:262-279 | The same over every run, so what ClaimDrainsInOrder asks of a directory holds of every reached one |
| QueueLifecycle.SweepEffect | src/capabilities.mjs:382-402 | sweep expires exactly the unfinished commands that have no creation time or reached the TTL since it, drops exactly their claim files, and leaves every other record as it was |
| QueueLifecycle.StepKeeps | src/capabilities.mjs:242-402 | Every operation keeps the directory consistent and attempts equal to hand-outs, moves each record only forward, and keeps the unfinished commands within maxPending |
| QueueLifecycle.RunKeeps | src/capabilities.mjs:242-402 | Over every run: terminal records never change, nothing returns to pending, a claim file exists exactly while its command is claimed, attempts equals the hand-outs, at most maxPending commands are unfinished |
| QueueLifecycle.UnclaimedCompletion | src/capabilities.mjs:344-361 | A pending command becomes done or failed in one step if and only if the step is a complete of that id |
| QueueLifecycle.EnqueuedIs | src/capabilities.mjs:242-284 | In a run an enqueue that is not refused adds exactly the record with the given capability and params |
| EnqueueRaces.UnfinishedIsBounded | src/capabilities.mjs:256-284 | With the count and the write as two steps, for any set of enqueuing processes and all other operations in between: the unfinished commands, together with the writes still to come, stay within maxPending and one for every enqueuing process but one |
| EnqueueRaces.BoundIsReached | src/capabilities.mjs:256-284 | For every limit and every number of processes a run that reaches that bound |
| CommandWorker.Worker.Report | integrations/dsh-link-bridge/lib/commands.js:181-183 | One result POST over a network that may lose the request or the reply; an answer means that the command is finished |
| CommandWorker.Worker.Run | integrations/dsh-link-bridge/lib/commands.js:189-223 | The reports tried for one command, the queue after them, and by how much executed, failed and the recorded errors grow in every case |
| CommandWorker.Worker.RunTick | integrations/dsh-link-bridge/lib/commands.js:268-278 | All claimed commands run one after the other, each with its own reports |
| CommandWorker.OneOrTwoReports | integrations/dsh-link-bridge/lib/commands.js:189-223 | Every claimed command with an id gets one or two reports: the first carries what the handler returned or threw, a second one only follows a success report, as a failure with the network error |
| CommandWorker.FirstLandedDecides | src/ops.mjs:521-529 | The first report that lands on an unfinished command is stored and stays, field by field, whatever queue operations happen between and after the reports: a success whose reply was lost stays done with its own result |
| CommandWorker.LostSuccessFails | integrations/dsh-link-bridge/lib/commands.js:208-222 | If the success report never reached the node, the follow-up failure report is stored for good with its own error, unless a queue operation between the two had finished the command: then that outcome stays |
| TimeIds.NewId | src/util.mjs:32-40 | The loop writes the prefix, the ten base-32 digits of the time, most significant first, and the random part |
| TimeIds.StampRoundTrip | src/util.mjs:29-40 | A stamp decodes back to its time, for every time that fits its digits |
| TimeIds.IdRoundTrip | src/util.mjs:31-40 | The time of an id is read back from it, for times below 32^10 ms |
| TimeIds.IdOrderIsTimeOrder | src/util.mjs:31-40 | For times below 32^10 ms, string order of ids is time order, both ways, whatever the random parts |
| SharedState.MergeState | src/store.mjs:16-29 | The merged state: union of read marks, per id the entry with the newer stamp, local on ties |
| SharedState.MergePicks | src/store.mjs:16-29 | Field by field: where both sides hold something the memory copy wins, unless the delivery entry of the file is the only stamped one or the later one |
| SharedState.MergeAssociative | src/store.mjs:16-29 | The merge is associative on all states |
| SharedState.MergeIdempotent | src/store.mjs:16-29 | Merging a state with itself changes nothing |
| SharedState.MergeCommutesIff | src/store.mjs:16-29 | Order does not matter if and only if no key is held on both sides with different values and no newer stamp |
| SharedState.MergeKnows | src/store.mjs:14-29 | A merge knows a read mark or a stamp at least this new exactly when one side does |
| SharedState.MergeAbsorbs | src/store.mjs:88-99 | Merging in a file that knows nothing more changes nothing |
| SharedState.MessageStore.LoadState | src/store.mjs:88-99 | Memory becomes the merge of memory and file, and knows everything the file knows |
| SharedState.MessageStore.SaveState | src/store.mjs:101-107 | Memory and file both become the merge |
| SharedState.MessageStore.MarkRead | src/store.mjs:160-168 | The file is written exactly when a mark is new; the count returned is that of the unread non-empty ids, each counted once; new marks have this time and older ones keep theirs |
| SharedState.MessageStore.SetDelivery | src/store.mjs:190-195 | The entry holds the given fields, the stored ones that were not given, and this time; no other entry or mark changes; a later stamp on file wins |
| SharedProcesses.StepConserves | src/store.mjs:88-107 | One file-system step forgets no mark or stamp and invents none: known after is known before or created by the step |
| SharedProcesses.RunConserves | src/store.mjs:88-107 | The same over every interleaving of read, merge, mark, stamp, snapshot and rename by any processes |
| SharedProcesses.KnowledgeIsKept | src/store.mjs:10-15 | From a fresh start: what is known in memories and on disk is the start's knowledge plus what the run marked and stamped, and no continuation loses it |
| SharedProcesses.AllSavedIsOnDisk | src/store.mjs:101-107 | One uninterrupted save by each process, in any order, puts every mark and stamp on disk |
| SharedProcesses.UnsavedMarksAreOnlyInMemory | src/store.mjs:160-168 | Before its save a mark is in memory only, so a process that dies takes it along |
| DeliverySafety.StepKeeps | src/ops.mjs:100-212 | Every step, with any loss and however the processes of a node interleave, keeps the delivery invariant, and no inbox shrinks |
| DeliverySafety.RunKeeps | src/ops.mjs:100-212 | The same over every run |
| DeliverySafety.InboxesAreSound | src/ops.mjs:100-212 | In every run an inbox holds only what a send of the run addressed to this node, only a node's own messages to itself can be there twice, and no id is there twice if and only if every append of such a message found it not there |
| DeliverySafety.StepUniqueIff | src/ops.mjs:101-105 | A step puts an id into an inbox twice if and only if it appends a message to oneself that is there already; requests, relays and pulls never do |
| DeliverySafety.RunUniqueIff | src/ops.mjs:101-105 | The same over every run |
| DeliverySafety.DeliveredMeansArrived | src/ops.mjs:114-129 | When any node marks a message delivered, directly or through a relay, its recipient holds it, then and ever after |
| DeliverySafety.OnlySendsCreate | src/ops.mjs:131-144 | A message that exists was created by a send of its own origin |
| DeliverySafety.DirectPush | src/ops.mjs:114-126 | A direct push is marked delivered if and only if the answer comes back; the message arrives if and only if the request got through or it was there before |
| DeliverySafety.CanCallIff | src/ops.mjs:15-45 | A node calls exactly the peers that it has a token for and that are none of its own names |
| DeliverySafety.CandidatesAre | src/ops.mjs:106-109 | Whom deliver tries: the peer of that name alone, with or without a token; without such a peer every peer if the node relays, else nobody |
| DeliverySafety.RelayedArrives | src/ops.mjs:317-334 | Through a hub: it answers exactly if both requests and both answers got through and it relays, has a token for the recipient, and the recipient is there; the message arrives exactly if it was there or both requests got through; the hub keeps a record exactly of what the recipient answered |
| DeliverySafety.ImportHolds | src/store.mjs:177-188 | After an import an id is in the inbox exactly when it was there or was a non-empty id of the page |
| DeliverySafety.ImportAdds | src/store.mjs:177-188 | The inbox before the import stays in front; what comes behind it are messages of the page, marked with the peer they came from |
| DeliverySafety.NewerIff | src/server.mjs:161-168 | `since` keeps exactly the records with a later id, each as often as it is there |
| DeliverySafety.PageMeans | src/server.mjs:161-171 | The page is in order of ids and holds records later than `since`; one that it leaves out has no lower id than any it shows, and then the page is full |
| DeliverySafety.PageIsWholeIff | src/server.mjs:161-171 | The outbox page, cut before the recipient filter, holds everything newer exactly when that fits the limit |
| DeliverySafety.PullBrings | src/ops.mjs:194-206 | A pull from a peer whose whole outbox fits the page brings every message for this node |
| DeliveryNode.Link.ImportMessages | src/store.mjs:177-188 | Appends exactly the new ids; imported and skipped add up to the page |
| DeliveryNode.Link.Deliver | src/ops.mjs:100-129 | For any record of the outbox. To oneself: delivered. With a token for the recipient: delivered exactly if the first request and its answer got through to a node that is there, and arrived exactly if it was there or the request got through. Without an entry of that name, on a relaying node: every peer that can be called is posted to in turn until one answers; pending means all were and none did. Otherwise nobody is. Only this record is marked; delivered implies the recipient holds it; a pending record does not end up twice in a tidy inbox |
| DeliveryNode.Link.DeliverToSelf | src/ops.mjs:101-105 | The message is in the inbox and marked delivered; it is there once if and only if it was not there before |
| DeliveryNode.Link.SendMessage | src/ops.mjs:131-144 | Refused without recipient or body, else queued and delivered just as above, as a run of protocol steps that leaves a tidy inbox tidy |
| DeliveryNode.Link.Flush | src/ops.mjs:146-155 | Exactly what was pending (for that recipient) is tried once, in outbox order; the number delivered is that of the records whose request and answer get through, up to those that only a relay can decide; nothing that was settled changes; flushes one after the other duplicate nothing |
| DeliveryNode.Link.DropOutbox | src/ops.mjs:161-170 | Refused without ids and recipient; else exactly the chosen pending records become dropped and nothing else changes |
| DeliveryNode.Link.Sync | src/ops.mjs:194-212 | Unknown peer is an error; else a run of pulls from that peer or from all with a token; every record for this node on a page that was answered is held afterwards and nothing else of the network changes; imported counts the new inbox records, imported and skipped together what was shown, failed the peers that gave no answer |
| DeliveryNode.Link.AcceptMessage | src/ops.mjs:317-334 | Without an id refused; a held id is answered without a second record; own messages stored; else relayed one hop, kept in the outbox only if the recipient's node answered; without an error the recipient holds the message |
| DeliveryNode.Link.Post | src/ops.mjs:117-125 | One request that may be lost, or whose answer may be lost; an answer means that the recipient holds the message |
| DeliveryNode.OverlappingFlushesDuplicate | src/ops.mjs:146-155 | Two flushes that both listed a message to oneself as pending leave it in the inbox twice, marked delivered |
| DeliveryNode.DeathBeforeTheMarkDuplicates | src/ops.mjs:101-105 | After a process died between append and mark the message is still pending, and the next flush appends it again |
| DeliveryNode.AcceptSpares | src/ops.mjs:317-334 | A request changes no node but the one asked and the recipient |
| WakeGuard.Runtime.WakeGate | integrations/dsh-link-bridge/lib/index.js:206-223 | Verdict and pruned counters of the gate; a yes means room in the hour, in the thread's window and after its cooldown; no other thread is touched |
| WakeGuard.VerdictIff | integrations/dsh-link-bridge/lib/index.js:206-223 | Cooldown exactly inside an open window with cooldown left; else budget exactly if that window has all its wakes; else rate cap exactly if the last hour is full; else yes |
| WakeGuard.GateLeaves | integrations/dsh-link-bridge/lib/index.js:206-223 | Asking forgets the window of this thread exactly if it is over, keeps every other thread, and forgets only wake times that are an hour old |
| WakeGuard.Runtime.RecordWake | integrations/dsh-link-bridge/lib/index.js:225-231 | Counters after a recorded wake: one wake more for the thread, in its open window or in one that starts now; no other thread is touched; the list holds this wake and those of the last hour |
| WakeGuard.GateIff | integrations/dsh-link-bridge/lib/index.js:206-223 | The gate, which keeps only counters and a pruned list, says yes exactly when the full history of wakes allows it |
| WakeGuard.HourlyCap | integrations/dsh-link-bridge/lib/index.js:218-230 | In every run every window of one hour holds at most maxWakesPerHour wakes |
| WakeGuard.WindowCapped | integrations/dsh-link-bridge/lib/index.js:218-222 | A history that is within the cap at each of its wakes is within it in every sliding hour |
| WakeGuard.ThreadWindows | integrations/dsh-link-bridge/lib/index.js:206-231 | In every run a budget window holds at most maxThreadWakes wakes of its thread, a cooldown apart, and windows of a thread start more than a window apart |
| WakeGuard.ThreadCap | integrations/dsh-link-bridge/lib/index.js:206-231 | In every run any interval as long as a window, ends included, holds fewer than 2 * maxThreadWakes wakes of a thread |
| WakeGuard.CapIsReached | integrations/dsh-link-bridge/lib/index.js:206-231 | A run with budget 2 that has 3 wakes in such an interval, so the bound is tight |
| ObjectKeys.FirstsRankLow | integrations/dsh-link-bridge/lib/topics.js:335-338 | The first keys of the stable sort rank no higher than any key behind them |
| TopicPool.ReuseIff | integrations/dsh-link-bridge/lib/topics.js:209-238 | A plan reuses a session exactly if the entry is live, its session is not gone, and at this time it is not idle too long, has budget left and is not too old |
| TopicPool.NamedIff | integrations/dsh-link-bridge/lib/topics.js:209-238 | Otherwise a new one is made, and the old session is named exactly if it is alive, under the first of idle-reset, wake-budget and session-age that applies |
| TopicPool.SessionPool.RecordUse | integrations/dsh-link-bridge/lib/topics.js:258-277 | Wakes and creation time are kept for the same session and started over for another; a plan at any later time reuses the session if and only if it is not idle, spent, too old or gone by then |
| TopicPool.SessionPool.SweepPool | integrations/dsh-link-bridge/lib/topics.js:298-349 | Pool, archive list and drop list of the three passes |
| TopicPool.SessionPool.ArchiveQuiet | integrations/dsh-link-bridge/lib/topics.js:309-320 | An entry is archived now exactly if it is live, has a session, was not used at this instant and has been unused for archiveIdleMs; every other one stays as it was; the archived are named in key order |
| TopicPool.SessionPool.ForgetOld | integrations/dsh-link-bridge/lib/topics.js:322-330 | Exactly the entries archived at least two archive windows ago are removed and listed |
| TopicPool.SessionPool.CapSize | integrations/dsh-link-bridge/lib/topics.js:332-347 | The oldest entries that are not in use are removed until the pool fits, and their sessions named |
| TopicSweep.DropIsExact | integrations/dsh-link-bridge/lib/topics.js:298-349 | The drop list has no duplicates and is exactly the removed keys; surviving entries keep their order and change only by being retired |
| TopicSweep.InUseIsUntouched | integrations/dsh-link-bridge/lib/topics.js:290-291 | A live entry used at exactly now survives unchanged |
| TopicSweep.EvictionTakesTheOldest | integrations/dsh-link-bridge/lib/topics.js:332-347 | What was archived two windows ago goes; anything else that a sweep removes is an entry not in use, no newer than any surviving one not in use, and the pool is not brought below the cap for it |
| TopicSweep.OverfullMeansInUse | integrations/dsh-link-bridge/lib/topics.js:290-291 | If the pool stays above maxPoolSize, every well-formed entry left is in use now |
| TopicSweep.EvictedSize | integrations/dsh-link-bridge/lib/topics.js:339-346 | The cap removes no more than needed, and everything removable if that is not enough |
| TopicSweep.SweepTwice | integrations/dsh-link-bridge/lib/topics.js:298-349 | A second sweep at the same instant changes and returns nothing |
| TopicSweep.ArchiveIsExact | integrations/dsh-link-bridge/lib/topics.js:279-288 | A sweep names exactly the sessions of the topics it retires and of those it evicts for the cap, each under its reason |
| TopicRuns.PlanMeans | integrations/dsh-link-bridge/lib/topics.js:209-238 | A plan reuses only a live session that no sweep or plan named, and names only the topic's own spent session |
| TopicRuns.RunKeeps | integrations/dsh-link-bridge/lib/index.js:434-468 | Every run of waits, lost sessions, sweeps and wakes keeps the pool invariant |
| TopicRuns.TopicsOwnTheirSessions | integrations/dsh-link-bridge/lib/index.js:434-455 | In every run distinct topics own distinct sessions |
| TopicRuns.ChargesAreBounded | integrations/dsh-link-bridge/lib/index.js:559-562 | In every run the messages charged to one session are at most max(0, maxSessionWakes - 1) + batchLimit |
| TopicRuns.ChargeLimitIsReached | integrations/dsh-link-bridge/lib/topics.js:231-233 | For every budget and batch limit a run that charges exactly that bound |
| TopicRuns.NamedIsNeverReused | integrations/dsh-link-bridge/lib/topics.js:209-349 | A session once named for archiving by a plan or a sweep is never reused, however the run goes on |
| RouteTable.RouteObject.EnforceCap | integrations/dsh-link-bridge/lib/routes.js:94-103 | Exactly the overflow, oldest first, is removed and returned |
| RouteTable.RouteObject.RegisterRoute | integrations/dsh-link-bridge/lib/routes.js:110-129 | The route is written with this session, time and message id (own ids kept, a takeover starts over) and the cap enforced; nothing happens when routing is off or the input unusable |
| RouteTable.AddedId | integrations/dsh-link-bridge/lib/routes.js:123-125 | The id just sent is held, behind the last seven before it; one that is held already changes nothing |
| RouteTable.RouteObject.FindRoute | integrations/dsh-link-bridge/lib/routes.js:137-159 | The live route on the thread, else the first live route that holds the answered id, and the refreshed entry |
| RouteTable.AnswerIff | integrations/dsh-link-bridge/lib/routes.js:137-159 | Nobody answers exactly if routing is off, or the thread has no fresh route and no fresh route holds the answered id; else the route on the thread does, else the first holder in table order |
| RouteTable.LookupTouches | integrations/dsh-link-bridge/lib/routes.js:142-146 | A hit sets the time and counts one more on the route that answered and changes nothing else |
| RouteTable.HitLasts | integrations/dsh-link-bridge/lib/routes.js:131-159 | A hit is answered by the same route again for as long as the time to live from now |
| RouteTable.RouteObject.FindHolder | integrations/dsh-link-bridge/lib/routes.js:152-157 | The first key in insertion order whose live route holds the id |
| RouteTable.RouteObject.SweepRoutes | integrations/dsh-link-bridge/lib/routes.js:162-173 | Table after the sweep, and the three counts: their sum is what was removed, malformed are the broken entries, overflow what the cap took |
| RouteTable.RouteObject.ForgetRoutesForSession | integrations/dsh-link-bridge/lib/routes.js:176-185 | Exactly the routes of the session go, and are counted |
| RouteTable.ForgetOnlyRemoves | integrations/dsh-link-bridge/lib/routes.js:176-185 | Exactly the routes of the session are forgotten and every other one stays as it is |
| RouteLaws.EvictionTakesTheOldest | integrations/dsh-link-bridge/lib/routes.js:94-103 | An evicted route is no more recently used than one that is kept, and eviction stops at exactly max |
| RouteLaws.SweepIsInvisible | integrations/dsh-link-bridge/lib/routes.js:162-173 | Within its cap a swept table answers any sequence of later lookups, sweeps and forgets at any later times like the table that was not swept |
| RouteLaws.SweepIsVisibleToASend | integrations/dsh-link-bridge/lib/routes.js:117-125 | A table on which a send after the sweep gives another answer |
| RouteSweeps.SweepIsInvisibleToSends | integrations/dsh-link-bridge/lib/routes.js:110-173 | Any later lookups, sweeps, forgets and sends of new messages are answered alike by the swept and the unswept table, evictions included, as long as no send hits a route of its own session that was dead at the sweep and holds message ids |
| RouteSweeps.SendTellsIff | integrations/dsh-link-bridge/lib/routes.js:117-125 | For one send: the two tables answer alike whatever follows if and only if the send does not hit such a route |
| RouteSweeps.ReachedHasOneHolder | integrations/dsh-link-bridge/lib/routes.js:110-129 | In every reached table no message id is held by two routes, which the two laws above ask for, given that a message is sent on one thread |
| RouteLaws.SizesAreBounded | integrations/dsh-link-bridge/lib/routes.js:94-129 | In every run at most max routes and at most 8 message ids per route |
| RouteLaws.AnswersNameTheAsker | integrations/dsh-link-bridge/lib/routes.js:131-159 | In every run an answer names the session that asked on that thread last, or the holder of the answered id |
| RouteLaws.ForgottenStaysForgotten | integrations/dsh-link-bridge/lib/routes.js:176-185 | After forgetting a session no lookup returns it until it sends again |
| RouteLaws.SendIsAnswered | integrations/dsh-link-bridge/lib/routes.js:105-129 | A lookup on the thread within the time to live after a send returns the sender, whatever the table held |
| BridgeTick.Runtime.PollOnce | integrations/dsh-link-bridge/lib/index.js:502-594 | The whole tick on the runtime's fields, pool, routes and guard: sweeps, hold, gate, session, prompt; for a new message the outcome and the watermark by the guard's counters and the clock, as below |
| BridgeTick.OutcomeIff | integrations/dsh-link-bridge/lib/index.js:524-594 | With a new message: cooling exactly within cooldownMs of the last prompt; else held back exactly if the newest one's thread is cooling; else given up exactly if its budget is spent or the hour is full; the watermark moves exactly on a give-up or an accepted prompt, to that message |
| BridgeTick.IdleTick | integrations/dsh-link-bridge/lib/index.js:510-524 | Without an answer nothing changes; without a new message pool and routes are swept and nothing else changes |
| BridgeTick.UnseenKeepsOrder | integrations/dsh-link-bridge/lib/index.js:513-515 | The batch is exactly the unread messages above the watermark, in the order of the list, each as often as it is listed |
| BridgeTick.TickSweeps | integrations/dsh-link-bridge/lib/index.js:516-523 | After any tick that got its list every route left is live, and every topic but the newest message's is as the sweep of the pool left it |
| BridgeTick.Runtime.PromptOne | integrations/dsh-link-bridge/lib/index.js:548-594 | The tick after the gate's yes, for an accepted prompt, a failed one, and a session that is gone; exactly an accepted prompt moves the watermark, to the last message of the batch |
| BridgeTick.Runtime.ChooseSession | integrations/dsh-link-bridge/lib/index.js:549-563 | The asker of a live route, else the topic's own session, else a new one; a routed session is not known to be gone, any other one is on record for the topic at this time before the prompt |
| BridgeTick.RoutedIff | integrations/dsh-link-bridge/lib/index.js:549-556 | The session of the route that answers is used exactly if it is not known to be gone |
| BridgeLaws.NewerIff | integrations/dsh-link-bridge/lib/index.js:192-198 | Above the watermark is exactly not at or below it in the order by timestamp, then id |
| BridgeLaws.MarkMoves | integrations/dsh-link-bridge/lib/index.js:524-594 | A tick moves the watermark only when it woke a session or gave the wake up for good, then to the last message listed; soft holds and failed prompts leave it |
| BridgeLaws.WatermarkNeverDecreases | integrations/dsh-link-bridge/lib/index.js:545-592 | Over every run with timestamps the watermark never goes down |
| BridgeLaws.NothingOldIsPrompted | integrations/dsh-link-bridge/lib/index.js:513-515 | At any point of any run: every message of every batch prompted from there on, accepted or failed, lies above the watermark of that point, whoever set it |
| BridgeLaws.NoMessageWakesTwice | integrations/dsh-link-bridge/lib/index.js:513-592 | If order by id agrees with order by timestamp, no message is part of two successful wakes |
| BridgeLaws.CoveredNeverWakesAgain | integrations/dsh-link-bridge/lib/index.js:513-592 | Whatever the ids: a message that ranks no higher than the last one of a wake is in no later wake |
| BridgeLaws.WakesAgainIff | integrations/dsh-link-bridge/lib/index.js:513-592 | While nothing moved the watermark since a wake, a poll that lists a message unread and gets through wakes with it exactly if it ranks above the last message of that wake |
| BridgeLaws.SkewedIdsWakeTwice | integrations/dsh-link-bridge/lib/index.js:187-198 | A run from the start in which one message is part of two accepted wakes |
| BridgeSafety.RanksAboveWakesAgain | integrations/dsh-link-bridge/lib/index.js:502-594 | After any wake, while nothing moved the watermark since, a message that ranks above the last one of that wake wakes a session again, by a poll that lists it after a rest longer than every cooldown, window and hour |
| BridgeSafety.RunLinks | integrations/dsh-link-bridge/lib/index.js:502-594 | Every run of whole ticks is at the same time a run of the guard, of the pool and of the routes, with the same state and the same wakes |
| BridgeSafety.LoopGuardHolds | integrations/dsh-link-bridge/lib/index.js:200-231 | In every run of whole ticks an hour has at most maxWakesPerHour accepted prompts, and a window-long interval fewer than 2 * maxThreadWakes of one thread |
| BridgeSafety.TopicsDoNotMix | integrations/dsh-link-bridge/lib/index.js:549-563 | Every accepted prompt went to a session that had sent on the thread of the newest message or had sent the message it answers, or to one that serves only this topic |
| FrameDecoder.FrameStarts | src/dshview.mjs:141-149 | The positions of the magic, found by repeated indexOf, are all of them, in order |
| FrameDecoder.StartsComplete | src/dshview.mjs:141-149 | Every occurrence of the magic from a position on is among the starts from there |
| FrameDecoder.TryBoundaries | src/dshview.mjs:180-192 | The retry loop: the first of at most 4 boundaries that decodes, and how far it advances |
| FrameDecoder.DecodeStarts | src/dshview.mjs:176-203 | Events, frames and corruptFrames of the main loop, with the skip over decoded inner boundaries |
| FrameDecoder.DecodeFrames | src/dshview.mjs:166-204 | The same for a buffer that is cut at maxBytes, and the truncation flag |
| FrameDecoder.NoStraddle | src/dshview.mjs:11-11 | The magic has no border, so no occurrence straddles the end of a frame that the magic follows |
| FrameDecoder.DecodeLog | src/dshview.mjs:166-204 | Decoding a well-formed log gives the texts of exactly the good frames with at most 3 inner magics, in order, up to the frame limit |
| FrameDecoder.CorruptCount | src/dshview.mjs:176-203 | Without a frame limit the corrupt frames reported for a well-formed log are exactly the magics that lie in no frame that is read; when the read was cut, the last magic is forgiven |
| FrameDecoder.DecodesEverythingIff | src/dshview.mjs:162-204 | Every event of every good frame comes out, in order, if and only if each good frame that carries events has at most 3 inner magics |
| FrameDecoder.CrowdedFrameIsLost | src/dshview.mjs:13-13 | A good frame with 4 inner magics that decodes to nothing |
| FrameDecoder.ConcatLog | src/dshview.mjs:10-12 | Good frames and any noise between them form a well-formed log; what is asked of the library concerns only slices of this log |
| FrameDecoder.ConcatDecodes | src/dshview.mjs:166-204 | Decoding such a concatenation returns exactly the events of the good frames in which at most 3 further magics begin, in order |
| FrameDecoder.FramesCountTheirOwn | src/dshview.mjs:162-165 | When every segment, decodable or not, begins with the magic, each frame counts the magics of its own bytes, and none straddles a frame's end |
| FrameDecoder.CutLog | src/dshview.mjs:114-139 | The first n bytes of a well-formed log are a well-formed log of the frames they hold whole |
| FrameDecoder.CutDecodesPrefix | src/dshview.mjs:166-204 | For every n, inside a frame or inside the next magic, reading n bytes gives a prefix of the events of the whole log, if no magic straddles a frame's end |
| FrameDecoder.FramesCutAnywhere | src/dshview.mjs:166-204 | So it does for every log of frames, decodable or not |
| Transcript.Viewer.Lookup | src/dshview.mjs:775-787 | A hit if and only if the entry has the same length limit, size and whole-millisecond mtime and is less than five seconds old, and then nothing changes; without a hit the key is gone |
| Transcript.Viewer.Store | src/dshview.mjs:789-795 | The payload is held afterwards, everything else held was held before, and never more than eight are |
| Transcript.Viewer.Transcript | src/dshview.mjs:884-931 | Without a usable entry: the total, the stretch asked for, and the corrupt frames of what decoding and rendering make of the file or its first readCap bytes, flagged exactly if that is not the whole; then the file is answered from the cache for five seconds. With one: the same of the cached transcript |
| Transcript.WholeIff | src/dshview.mjs:906-930 | Such an answer is unflagged, and is the whole transcript of the whole file, exactly if the file is within the read cap and no offset or limit cuts it |
| Transcript.ForwardPagesJoin | src/dshview.mjs:913-923 | Consecutive pages from the top are the transcript, as far as they reach |
| Transcript.BackwardPagesJoin | src/dshview.mjs:917-919 | Tail pages, put in front of each other, are the end of the transcript |
| Transcript.PagesGiveEverything | src/dshview.mjs:913-927 | For page sizes of at least 1, enough pages either way give the whole transcript |
| Transcript.TruncatedIff | src/dshview.mjs:924-930 | The answer is not flagged as truncated exactly when it holds the whole transcript of the whole file |
| Transcript.CacheIsBounded | src/dshview.mjs:789-795 | In every run the cache holds at most 8 transcripts |
| Transcript.CachedIsRecent | src/dshview.mjs:775-787 | In every run a hit is what reading this key gave less than five seconds ago, from a file of the present size and time |
| Transcript.CachedIsFresh | src/dshview.mjs:774-787 | While size and whole-millisecond mtime identify content, a cached answer shows the file as it is now, exactly as a fresh read would |
| FrpcToml.FindVisitors | src/tunnel.mjs:52-63 | Exactly the peers with a server name and a port, in order, each with its own name, server name, secret key and port, on 127.0.0.1, and its own url or that of the port |
| FrpcToml.FrpConfigToml | src/tunnel.mjs:69-130 | Refused without a server or an identity, else the lines of the file, joined |
| FrpcToml.ParseFrpcTomlSummary | src/tunnel.mjs:132-157 | The three top-level values, and the proxy and visitor sections in order |
| FrpcRoundTrip.QuotedStart | src/tunnel.mjs:65-67 | What the section patterns read from any printed string, escapes included |
| FrpcRoundTrip.StringReadsBackIff | src/tunnel.mjs:146-151 | A printed string is read back as itself if and only if it is not empty and holds no quote, backslash or control character |
| FrpcRoundTrip.PickReadsBackIff | src/tunnel.mjs:134-137 | A top-level string is read back as itself if and only if it is moreover trimmed |
| FrpcDocument.FindIsLookup | src/tunnel.mjs:134-151 | Searching printed lines by pattern is looking the key up among the settings that were printed: no line is mistaken for another |
| FrpcDocument.SectionsPrint | src/tunnel.mjs:138-143 | Splitting the printed text at section headers gives the printed sections |
| FrpcDocument.FileParts | src/tunnel.mjs:101-128 | The file has one proxy section and one section per visitor, in order |
| FrpcDocument.FileReadsBack | src/tunnel.mjs:52-157 | Reading the printed file gives back server, port, user, the one proxy, and for exactly the reachable peers in order their name, server name, port and key, for any number of peers |
| FrpcDocument.TopSettings | src/tunnel.mjs:81-99 | Looked up before the first section: the token and its scopes if and only if one is configured, TLS, web server, log and login settings as configured or fixed |
| FrpcDocument.SectionSettings | src/tunnel.mjs:106-126 | Looked up in a section: who may connect, each user once, the local and the bind address, encryption on and compression off |
| FrpcDocument.FileSays | src/tunnel.mjs:81-99 | The printed file contains the lines of the token, TLS, web server and log settings under the names that frpc knows |
| FrpcDocument.DecimalParses | src/tunnel.mjs:78-78 | A printed number parses back to itself, so ports are recovered as numbers |

## Left out

- ClaimSteps.ClaimExclusive: takes the stated hypotheses (no stale lease, completion after the claim returned). A stale lease is handed out again by design, and an early report leaves a claimed record without a claim file (`EarlyReportIsOverwritten`). `sweep` is not among the file-level steps.
- TerminalRecords.TerminalForeverIff: over the file-level steps of `enqueue`, `claim` and `complete`; `QueueLifecycle.RunKeeps` has sweep, with whole operations as steps.
- QueueLifecycle.RunKeeps: the queue's operations are whole steps here; `EnqueueRaces` has several enqueuing processes.
- EnqueueRaces.UnfinishedIsBounded: the count lists the directory in one step.
- DeliverySafety.InboxesAreSound: recipients are names; the broadcast recipient `*` and aliases of the own node are accepted by the model but not part of the runs of the theorem. A peer entry's name is taken to be that node's own name, and one request is one step, so the look into the inbox and the append of a request are not interleaved with another request.
- DeliverySafety.PullBrings: an outbox longer than the page is cut before the recipient filter; `PageIsWholeIff` says when.
- CommandWorker.FirstLandedDecides: a request that is lost is one whose first report does not land; then `LostSuccessFails` applies.
- FrpcDocument.FileReadsBack: strings are non-blank, trimmed, without quotes, backslashes, control characters or the separators U+2028 and U+2029, and the name in the comment line is one line; what happens to a single value otherwise is stated exactly by `StringReadsBackIff` and `PickReadsBackIff`. Line terminators other than `\n` are not taken as line ends.
- BridgeLaws.NoMessageWakesTwice: needs order by id to agree with order by timestamp; `WakesAgainIff` and `CoveredNeverWakesAgain` do not. Messages have timestamps.
- RouteLaws.SweepIsInvisible: the table is within its cap before the sweep, and the later steps are lookups, sweeps and forgets; `RouteSweeps` has the sends.
- RouteSweeps.SweepIsInvisibleToSends: a send that finds the table full needs a single least recently used route, since among routes last used in the same millisecond the one evicted depends on the order of the keys, which a sweep changes.
- BridgeSafety.TopicsDoNotMix: no session is pinned by configuration; routes bypass the pool by design, so a retired session can still be answered.
- Transcript.CachedIsFresh: the session index behind the key is not modelled, and stat and read see the same version of the file.
- FrameDecoder.DecodeFrames: the onFrame callback that stops early is left out; the zstd library and the parser of the JSON lines are parameters.
- FrameDecoder.CorruptCount: without a frame limit, which is how transcripts are read.
- CommandQueue.Queue.Complete: bytes are counted as characters of the serialized text; a result that cannot be serialized is left out, and errors are taken as already normalized.
- SharedState.MessageStore.SetDelivery: entries are maps of strings with a numeric stamp; an ISO timestamp is taken as the number it prints.
- DeliveryNode.Link.SendMessage: attachments, threads, and the size limit are left out; ids of sent messages are new.
- RouteTable.RouteObject.RegisterRoute: thread, session and message id come trimmed.
- CommandQueue.Queue.ListRecords: generated ids are lower-case letters and digits, where localeCompare is taken as order by code unit; stray files and torn records are not in the directory.
- TopicPool.SessionPool.SweepPool: JavaScript's special order of integer-like keys is left out; limits are whole numbers.
- Inside one process the asynchronous functions of the store are not interleaved with each other; processes are.
- `wait`, `stats` and presence files of the queue, and the beat of the worker.
- Topic keys and labels (regular expressions over subject and body) are inputs of a tick; opening a session either gives a new id or fails.
- Archiving calls and their limit of three per tick, so no claim that every retired session is archived.
- Restart: reloading the bridge's state file, which does not keep all fields.
- HTTP routing, authentication, MCP, command line, doctor, file roots, the frpc process and port probing.
- `authorizeCall` and the normalizers of configuration: decided by reading their branches; the verdict is an input of `Enqueue`.
