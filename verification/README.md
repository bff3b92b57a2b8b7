# Verified model of the live wall, its audits and its launch protocol

This Dafny 4.11 project models the parts of the repository where several steps, several parties or several checks
together have to mean something, and proves what they mean. `dafny verify dfyconfig.toml` checks all of it.

**The live wall.** A worker appends events to a run's log. A server polls the log and sends it as server-sent events.
A browser merges frames and pages into a buffer, overlays them on snapshot reads and decides which live viewers to show.

- `RunLog` is the vocabulary: events numbered 1, 2, 3, ..., pages, statuses.
- `EventMerge` and `WallProjection` are `mergeEvents` and `projectWall`, as loops over an insertion-ordered map and as
  the functions those loops compute, with closed forms of those functions.
- `WallController` gives every handler of the wall's controller as a function on its state. `LiveWall.WallLoop` is the
  controller itself, an object with fields, and each method is proved equal to its handler. `ControllerLifecycle` has the
  invariant, `ControllerHistory` what follows for whole histories of inputs, and `HandlerResults` what each handler gives
  its caller, which the methods of `WallLoop` promise.
- `Decimal` and `ServerSentEvents` are the texts: ids and cursors, frames, and the receiving state machine of section
  9.2.6 of the WHATWG HTML Standard. `EventStream` is the handler with its slot counters, and `StreamDelivery` a stream
  beside a writer that goes on committing.
- `Replication` says what a wall promises about the log, and `WallSystem` joins writer, streams, a link that loses,
  repeats and reorders, and the controller, and proves the promise in every run.

**The audits.** `PeakConcurrency` (a sweep against the number of sessions live at an instant), `Correspondence` (how
counts and uniqueness turn one direction into a bijection), `ProofClosures`, `ReportLinks`, `ProjectJourney`,
`ContextRetirement` (an automaton against the histories it accepts), `Totals` and `ManagedLedger` (two readings of a
ledger that differ by one allocation), `BudgetAmendments` (a chain of signed policy amendments) and
`BudgetStore` (the same as statements in a transaction).

**Launching and addresses.** `LaunchProtocol` is the form that saves a request before it sends it, with its tab, the
network and an idempotent server; `LaunchReplacement` is what replacing that form inside the page can lose. `Powers` and
`PublicAddress` are the IP classification, from text to number to range.

What the repository, outside the modelled files, is taken to do: sequences of a run are 1..n; `events(after, limit)` is
the first `limit` events above `after`, with the last of them as `nextCursor` exactly when more remain
(`src/server/repository.ts:392-399`); a read sees everything committed before it starts; a run's or attempt's terminal
outcome never changes once committed (`docs/API.md:546-548`); the run and attempt rows are what the events committed so far
make of the queued ones, but for the time of a cancellation, which row and event each take for themselves
(`src/server/repository.ts:412-419`); the events handed to the report check ascend; and a launch request answered with
400, 401, 403, 404, 413, 415, 422 or 429 makes no run (`docs/API.md:136-141`), while one answered with any other error may
have made one. Schema validation is a precondition, JSON a one-line text that decodes to what was encoded, and a digest is
compared as the value it digests. Timers may fire at any step after they are set.

Four results say where the code does less than its comments suggest:

- Projecting again over a projected wall gives every status that projecting once gives, but not every viewer:
  an attempt that was not running when the sessions were read keeps no viewer when it starts later
  (`WallProjection.IncrementalViewers` is the exact condition, `IncrementalViewersCanDiffer` an instance).
- A report's citation names exactly its observation and its screenshot unless those two are one record; then a
  second, foreign id passes (`ReportLinks.CitedEvidenceIsExact`, `ReportLinks.ForeignCitationCanPass`).
- No launch is forgotten as long as the form is not replaced inside the page while a call runs that may still clear the
  storage: its request is still on its way, or its reply is and is a run or a first send's definite refusal
  (`LaunchProtocol.NoForgottenRun`). From every state with such a call, and from no other, replacing the form begins a run
  that loses a launch for good: the server has its run, and the client never sees it nor has it saved again
  (`LaunchReplacement.ReplacementLosesExactly`, with `ReplacedFirstSendForgets`, `ReplacedCallForgets`, `LostForGood`).
- A demonstration receipt can be applied again, while nothing else changed, exactly when it leaves the policy as it was
  (`BudgetAmendments.ReplayedReceipts`).

## Model

| member | source | states |
|---|---|---|
| EventMerge.MapBySequence | src/lib/live-wall.ts:26-29 | the map built by the two loops holds the last buffered entry of each sequence, and incoming events of this run only where nothing was held |
| EventMerge.FollowCursor | src/lib/live-wall.ts:31-35 | the loop ends on the length of the run 1, 2, 3, ... that the sorted buffer starts with |
| EventMerge.MergeEvents | src/lib/live-wall.ts:25-37 | the imperative merge computes the specification: sorted union, cursor, gap |
| EventMerge.SortingIsAscending | src/lib/live-wall.ts:30 | sorting forgets the insertion order of the map: only its entries count |
| EventMerge.CursorIsLongestPrefix | src/lib/live-wall.ts:31-35 | n is at most the cursor iff every sequence 1..n is held, and nothing is held right after the cursor |
| EventMerge.NoGapMeansComplete | src/lib/live-wall.ts:36 | `gap` is false iff the held sequences are exactly 1..cursor |
| EventMerge.MergeIsUnion | src/lib/live-wall.ts:24-37 | for batches of one log the merged buffer is the union, stays a selection of the log, and the cursor never falls nor passes the log |
| EventMerge.MergeIsIdempotent | src/lib/live-wall.ts:25-37 | merging the same batch again changes nothing, for any batch |
| EventMerge.MergeIsJoin | src/lib/live-wall.ts:24-37 | two sequences of batches of one log give the same buffer iff they carry the same events, whatever their order, grouping and repetition |
| EventMerge.FirstHeldStays | src/lib/live-wall.ts:28 | an entry that is already held is never replaced |
| EventMerge.NewcomersAreOwn | src/lib/live-wall.ts:27-29 | whatever is held after a merge was held before or came in for this run |
| WallProjection.OverlayBuffer | src/lib/live-wall.ts:40-60 | the loop's run, attempts and hidden viewers are the pointwise overlays of the whole buffer; signals hide viewers even beyond the cursor |
| WallProjection.ProjectWall | src/lib/live-wall.ts:39-68 | the imperative projection computes the specification, and a session keeps its URL exactly when it was available and may be watched: open run, no cancellation read or received, no finish of the run, no finish or recovery of the attempt, every summary of it not launched, intended or active, the attempt running |
| WallProjection.LatestRowsCount | src/lib/live-wall.ts:40-41 | of several attempt rows with one id exactly the last is kept |
| WallProjection.OverlaidRunIs | src/lib/live-wall.ts:47-52 | closed form of the overlaid run: the last outcome up to the cursor, else running once an attempt started, and the first cancellation anywhere |
| WallProjection.OverlaidStatusIs | src/lib/live-wall.ts:53-59 | closed form of an overlaid attempt status |
| WallProjection.ProjectionIsIdempotent | src/lib/live-wall.ts:112-116 | projecting a projected wall changes nothing |
| WallProjection.StaleRunReadsNeverWin | src/lib/live-wall.ts:197-198 | a run read at log position k, overlaid up to cursor c, has the status of position max(k, c) |
| WallProjection.StaleAttemptReadsNeverWin | src/lib/live-wall.ts:197-198 | the same for every attempt |
| WallProjection.StaleRunNeverWins | src/lib/live-wall.ts:47-52 | the whole run row when the buffer is the prefix itself: its status and whether it is cancelled are as of the later position; its time of cancellation is the row's exactly unless an event of another time cancelled it |
| WallProjection.OutcomesMustAgree | docs/API.md:546-548 | that holds at all positions iff the log's run outcomes agree |
| WallProjection.IncrementalEqualsScratch | src/lib/live-wall.ts:112-116 | however often the wall is projected while its buffer grows, all its statuses are those of one projection from scratch at the end |
| WallProjection.IncrementalViewers | src/lib/live-wall.ts:62-66 | after any number of projections a viewer is shown iff the one from scratch would show it and the attempt was running in every earlier projection |
| WallProjection.IncrementalViewersCanDiffer | src/lib/live-wall.ts:62-66 | an instance where the two differ |
| WallProjection.ViewersAreExact | src/lib/live-wall.ts:42-66 | in every projection a session is shown with its URL iff it was read as available and may be watched: nobody is hidden who may |
| WallProjection.ViewersAreSafe | src/lib/live-wall.ts:61-66 | an exposed URL is the one that was read, and its attempt may be watched, by the wall it was made from and by the wall that shows it |
| Decimal.ParsingInvertsPrinting | src/server/event-stream.ts:12-17 | the cursor parser accepts exactly the printed safe integers, and inverts printing |
| Decimal.ResumesFromLastEventId | src/server/event-stream.ts:24-29 | with the id of the last frame a reconnect resumes right after it, whatever valid query it repeats |
| Decimal.ReadsBackTheCursor | src/server/event-stream.ts:19-30 | the controller's own query is read back as its cursor with the default page size |
| Decimal.PaginatesWhatIsAsked | src/server/event-stream.ts:12-30 | the parser answers with a cursor and a limit iff they are what is asked for: at most one `after` and one `limit` and nothing else, printed numbers up to 2^53-1, 1 to 100 by default 50, the header over the query |
| ServerSentEvents.ChunksDoNotMatter | src/server/event-stream.ts:94-112 | the receiver's state depends on the concatenated text only, not on how it was cut |
| ServerSentEvents.RoundTrip | src/server/event-stream.ts:94-123 | frames, keepalive comments and the failure event, in any chunks and cut off anywhere, are read as exactly the messages of the items that wholly arrived: all of them when nothing is missing |
| ServerSentEvents.MessagesAreFrames | src/lib/live-wall.ts:160-166 | without a failure the messages are the frames one for one, and the id the client compares names exactly the frame's sequence |
| ServerSentEvents.NamesTellKindsApart | src/lib/live-wall.ts:160 | the name a frame carries belongs to its kind and to no other |
| ControllerLifecycle.Preserved | src/lib/live-wall.ts:112-253 | every input, in every state, keeps the lifecycle invariant |
| ControllerHistory.AlwaysInvariant | src/lib/live-wall.ts:91-254 | it holds after every order of reads, pages, messages, errors, timers, refreshes and stops |
| ControllerHistory.OwnsAtMostOne | src/lib/live-wall.ts:90-117 | at most one poll timer, one reconnect timer and one open stream, and never a stream beside a reconnect timer |
| ControllerHistory.IdleWillPoll | src/lib/live-wall.ts:230-236 | an idle controller that is neither stopped nor unavailable is fully settled or has a poll pending |
| ControllerHistory.NothingAfterStop | src/lib/live-wall.ts:247-253 | after a stop nothing is published, opened, scheduled or read again, whatever still arrives |
| ControllerHistory.NoLostRefresh | src/lib/live-wall.ts:238-246 | a refresh owed stays owed until a later reconciliation begins, unless stopped |
| ControllerHistory.RefreshIsAnswered | src/lib/live-wall.ts:238-244 | in every history a refresh asked for is followed by a later reconciliation before the loop is idle again, unless stopped |
| ControllerHistory.HistoryGrows | src/lib/live-wall.ts:141-149 | without a 404 the buffer and the cursor only grow, and publications are only added |
| ControllerHistory.ViewerLatch | src/lib/live-wall.ts:44-46 | once a finishing or recovering event is buffered no later publication exposes that viewer, until a 404 |
| ControllerHistory.PublishedViewersAreSafe | src/lib/live-wall.ts:61-66 | every URL ever published was, in its wall, of a running attempt of an open, uncancelled run that no event blocks and whose summaries allow it |
| HandlerResults.ReactContinues | src/lib/live-wall.ts:91-254 | one step of any input: the invariant and the buffer's order stay, every owed reconciliation stays owed, a stopped controller stays quiet, and but for a 404 nothing is taken back |
| HandlerResults.PageResult | src/lib/live-wall.ts:200-229 | a page is taken whole or refused whole, and the paging goes on strictly further or the reading is over |
| HandlerResults.MessageResult | src/lib/live-wall.ts:160-186 | a message is ignored, taken, or the end of its stream, by whose it is and whether it can be read |
| HandlerResults.ReadingSettles | src/lib/live-wall.ts:210-244 | in every history a reading that comes to its last page, with no refresh asked for, is followed by another one iff it found a new terminal event; else it ends settled, with the next poll as needed |
| HandlerResults.OpenRunIsStreamed | src/lib/live-wall.ts:150-185 | in every history an idle controller whose last reading succeeded and whose run is open has a stream open or a reconnect timer pending |
| LiveWall.WallLoop.constructor | src/lib/live-wall.ts:97-108 | the object starts as the state from which all histories start, empty, loading, with nothing open, pending or shown; and that state is valid |
| LiveWall.WallLoop.PublishState | src/lib/live-wall.ts:112-116 | unless stopped, exactly one wall is added to those shown: a projected one over the same buffer, with exactly the viewers that may be watched |
| LiveWall.WallLoop.StopAll | src/lib/live-wall.ts:247-253 | afterwards no stream is open and no timer is pending, and nothing was published; from a valid state the stopped one is valid |
| LiveWall.WallLoop.ExpireOwner | src/lib/live-wall.ts:120-126 | the last wall shown has no viewer and says the session expired, the history stays, the owner is told once, and no stream or timer is left |
| LiveWall.WallLoop.FailWith | src/lib/live-wall.ts:118-140 | by status: 401 and 403 end as an expired session; 404 forgets everything and shows the run as unavailable, 429 says so, anything else asks to wait; the failure is counted, no viewer stays; 429 and 404 leave no stream and no reconnect timer, the rest keep both |
| LiveWall.WallLoop.AcceptEvents | src/lib/live-wall.ts:141-149 | the buffer keeps what it held and takes exactly the events of this run that it lacked; a new finish of run or attempt unsettles the wall; the reply is whether something lies beyond the cursor |
| LiveWall.WallLoop.OpenNewStream | src/lib/live-wall.ts:150-153 | an open run with neither stream nor reconnect timer gets the one stream, and its cursor is the buffer's first hole: everything up to it is held and the next sequence is not; otherwise nothing changes |
| LiveWall.WallLoop.LatestTerminalSequence | src/lib/live-wall.ts:189-190 | the loop computes the largest sequence of a terminal event, which no terminal event of the buffer exceeds |
| LiveWall.WallLoop.AskRefresh | src/lib/live-wall.ts:238-241 | a refresh is owed afterwards unless stopped; an idle controller has begun it, from the last finish in its buffer and with no poll pending, a busy one is otherwise unchanged; nothing is shown |
| LiveWall.WallLoop.OnSnapshot | src/lib/live-wall.ts:192-199 | the rows are those read; never an event, a publication or the cursor is taken back; and paging starts at the buffer's first hole |
| LiveWall.WallLoop.OnPage | src/lib/live-wall.ts:200-229 | a page of this run is held wholly; the last one concludes the history, a cursor that does not advance or the hundredth page fails the reading, any other leads to the next; one with a foreign event fails the reading; nothing is taken back |
| LiveWall.WallLoop.CompleteHistory | src/lib/live-wall.ts:210-226 | no failure is left; the wall is unsettled, and one more reading asked for, iff a terminal event above the one known before the reads is held; an open run has a stream or a pending reconnect, a finished one neither; what was shown last is the state |
| LiveWall.WallLoop.FinishReconcile | src/lib/live-wall.ts:230-236 | exactly one poll is pending iff the controller is neither stopped nor unavailable and a failure, a settling history, a running run or cleanup is left to wait for; after 5 seconds, 30 once a finished run was polled twelve times, 10 to 60 with the failures, 60 when limited |
| LiveWall.WallLoop.OnReadFailed | src/lib/live-wall.ts:227-236 | the error for the status is shown and no viewer, the history is kept unless the run is missing, and a poll is pending after 10, 20, 40 or 60 seconds unless it is or the owner is gone; after a stop nothing at all happens |
| LiveWall.WallLoop.OnSettled | src/lib/live-wall.ts:241-244 | a refresh asked for meanwhile begins now; otherwise the loop is idle with a poll pending, or stopped, or the run missing, or nothing left to wait for |
| LiveWall.WallLoop.OnStreamOpened | src/lib/live-wall.ts:154-159 | a stream that is not open any more changes nothing; the open one forgets earlier interruptions and adds one wall that says live, with exactly the viewers that may be watched |
| LiveWall.WallLoop.OnStreamError | src/lib/live-wall.ts:175-185 | a stream that is not open any more changes nothing; the open one is gone and exactly one reconnect timer is pending, of one second doubling to thirty, no viewer is left and a refresh is owed |
| LiveWall.WallLoop.OnMessage | src/lib/live-wall.ts:160-174 | an event of the open stream is held; a finish, a recovery, a cancellation or a hole in the buffer owes a refresh and nothing else asks for one; a finished run has no stream left; an unreadable, foreign or misnumbered one ends like a stream error; any other stream's changes nothing |
| LiveWall.WallLoop.OnTimer | src/lib/live-wall.ts:180-183 | the timer is gone and a refresh is owed; nothing is taken back or shown |
| EventStream.SlotsAreExact | src/server/event-stream.ts:38-71 | in every interleaving `active` is the number of open streams and the sum of the owners' counts, at most 100; owners have 1 to 5; each stopped stream gave its slot back once |
| EventStream.RefusedOnlyWhenFull | src/server/event-stream.ts:46-48 | a valid request gets 429 iff all slots, or all of its owner's, are held by open streams |
| EventStream.NothingAfterStop | src/server/event-stream.ts:72-128 | a stopped stream is never touched again: nothing more is enqueued |
| EventStream.TeardownEnds | src/server/event-stream.ts:59-81 | an abort, the deadline or a cancel ends its stream and no other, once, and frees one slot |
| EventStream.StreamHandler.CleanupStream | src/server/event-stream.ts:59-71 | a running stream is stopped and its slot released, once; a stopped one is left alone; the slot invariant is kept |
| EventStream.StreamHandler.CloseStream | src/server/event-stream.ts:72-76 | the same, with the stream closed |
| EventStream.StreamHandler.OpenStream | src/server/event-stream.ts:41-83 | 400, 404, 401 or 429, the first that applies, and nothing changes; or 200 and one more stream: the cursor and limit that were asked for, its owner and run, the earlier of session and lifetime as deadline, nothing sent, closed iff the request was aborted |
| EventStream.StreamHandler.BuildFrames | src/server/event-stream.ts:93-100 | the frame loop accepts a page iff every event is of the run, safe and in ascending order above the cursor, and then `next` is its last sequence |
| EventStream.StreamHandler.PullTurn | src/server/event-stream.ts:84-127 | past the deadline the stream closes; a throwing read or a page out of place ends it with the failure event; a page of events is sent and moves the cursor to its last; silence is broken by a comment when due; it closes iff the status is terminal and nothing remains; no other stream changes |
| StreamDelivery.TurnSends | src/server/event-stream.ts:93-119 | a turn sends the whole valid page and moves the cursor to its end, or sends no event and leaves the cursor |
| StreamDelivery.TurnClimbs | src/server/event-stream.ts:93-107 | for any answer of the repository the sent ids stay strictly increasing above the resume cursor |
| StreamDelivery.BadPageEmitsNothing | src/server/event-stream.ts:92-97 | a page that fails validation emits none of its events, leaves the cursor and ends the stream with the fixed failure |
| StreamDelivery.SendsExactlyTheLog | src/server/event-stream.ts:84-120 | beside a writer, in every interleaving, what was sent is exactly the log after the resume cursor, no skip and no repeat |
| StreamDelivery.EveryTurnDelivers | src/server/event-stream.ts:84-120 | without further commits every turn before the deadline sends a full page or all there is: enough turns deliver the whole log, and the stream closes iff its run is over and the log delivered |
| StreamDelivery.FinishedMeansDelivered | src/server/event-stream.ts:88-109 | a close caused by a terminal status means the whole log after the cursor was sent |
| StreamDelivery.OutcomeIsNeverMissed | src/server/event-stream.ts:88-91 | the very outcome that made the status read terminal, committed before that read, was sent unless the client resumed after it |
| StreamDelivery.StatusMustComeFirst | src/server/event-stream.ts:88-91 | with the two reads swapped a stream can close and still owe the final event |
| StreamDelivery.ReadsTheSentEvents | src/server/event-stream.ts:94-105 | a client that reads a stream's text in any chunks and up to any point, and decodes it, has the sent events from the first one on, each under its kind and id |
| Replication.ProjectionIsShown | src/lib/live-wall.ts:112-116 | projecting a sound wall shows the statuses of the later of read and cursor |
| Replication.MergedIsSound | src/lib/live-wall.ts:141-147 | accepting any events of the log keeps a wall sound; a new terminal event keeps it unsettled |
| Replication.SucceedKeeps | src/lib/live-wall.ts:210-226 | ending a history settles the wall only over terminal events held before its reads began, gap-filling ones included |
| WallSystem.StaysGood | src/lib/live-wall.ts:91-254 | every action of writer, server, link and controller keeps the system invariant |
| WallSystem.AlwaysGood | src/lib/live-wall.ts:91-254 | the invariant holds in every run |
| WallSystem.ReplicaOfTheLog | src/lib/live-wall.ts:24-37 | in every run the buffer is a sorted selection of the log and the cursor its longest held prefix |
| WallSystem.PublishedWallsAreTrue | src/lib/live-wall.ts:189-219 | every published wall shows the statuses of the later of its reads and its cursor; a settled one holds no terminal event committed after its summaries' read began |
| WallSystem.ReconcileCatchesUp | src/lib/live-wall.ts:199-226 | a reconciliation that ends without failing has a cursor of at least the log's length when its last page read began |
| WallSystem.CapKeepsTheAdvance | src/lib/live-wall.ts:200-208 | one stopped by the cap of a hundred pages fails but keeps all it read |
| WallSystem.CursorNeverFalls | src/lib/live-wall.ts:127-131 | only a 404 ever lowers the cursor or forgets an event |
| PeakConcurrency.ObservedPeakConcurrency | scripts/advanced-proof.ts:330-338 | the peak is at least the number of sessions live at any instant, and is reached at some session's start |
| PeakConcurrency.RunningCountStaysNatural | scripts/advanced-proof.ts:334-336 | the running count is never negative and ends at zero |
| PeakConcurrency.LiveIsRunning | scripts/advanced-proof.ts:331-336 | the number live at any instant is one of the running counts |
| PeakConcurrency.SortingPermutes | scripts/advanced-proof.ts:333 | the sort keeps every edge |
| Correspondence.CountedIsOneToOne | scripts/advanced-proof.ts:314-318 | a check in one direction with equal counts and unique keys gives exactly one partner to each side |
| ProofClosures.AcceptedLedgerIs | scripts/advanced-proof.ts:62-76 | a ledger parses, under either baseline, iff it is at most twelve launches of 300 seconds that share no identity and no session, with their total |
| ProofClosures.AdvancedClosureIsOneToOne | scripts/advanced-proof.ts:313-324 | the closure is accepted iff launches and sessions correspond one to one, by token and session id, each session ended one way or the other and used exactly what it lasted |
| ProofClosures.ExactReleaseClosure | scripts/release-proof.ts:89-103 | accepted iff settled launches and completed sessions of at most 300 seconds correspond one to one and at most three were live at any instant |
| ProofClosures.UsageStaysReserved | scripts/release-proof.ts:96-102 | the seconds used by an accepted closure's sessions are at most the ledger's reservation |
| ProofClosures.InspectionIsOneToOne | scripts/release-proof.ts:168-179 | a receipt is accepted iff it matches the inventory file for file and digest for digest, one to one |
| ProofClosures.ResumedLedgerIsPermutation | scripts/report-proof.ts:100-110 | a resumed ledger is accepted iff it is the original in some order, with the same valid total |
| ProofClosures.ReportClosureIsOneToOne | scripts/report-proof.ts:131-144 | accepted iff expected launches and proofs correspond one to one, each proof a confirmed readback of the launch's one completed session of at most 300 seconds |
| ReportLinks.EvidenceIsOneToOne | scripts/report-proof.ts:188-194 | the one-way check means report and source have the same evidence, one to one |
| ReportLinks.StepsAreTheEvents | scripts/report-proof.ts:203-207 | the steps are accepted iff they are what the step events determine, in order and number, each with available evidence |
| ReportLinks.ObservationsAreOneToOne | scripts/report-proof.ts:208-211 | observations and observation steps correspond one to one, so no two of those steps share evidence, which is not checked |
| ReportLinks.GroupsAreTheAgents | scripts/report-proof.ts:212-215 | the groups' signatures are exactly the agent's, and their occurrences cite only known evidence |
| ReportLinks.CitedStepCountsActions | scripts/report-proof.ts:216-235 | the step a citation must carry is the number of actions before its observation, and no other |
| ReportLinks.CitedEvidenceIsExact | scripts/report-proof.ts:234-237 | a citation names exactly observation and screenshot iff those are two records |
| ReportLinks.ForeignCitationCanPass | scripts/report-proof.ts:180-239 | otherwise a whole report that cites a record that does not exist is accepted |
| ReportLinks.AcceptedReportMirrorsSource | scripts/report-proof.ts:181-239 | with the events in order, a report is accepted iff it mirrors its source: header, evidence one to one, the timeline and the steps that the events determine, observations and groups, and citations each with the page, the number of prior actions and the two records of its observation |
| ReportLinks.AcceptedReportRestsOnEvidence | scripts/report-proof.ts:181-239 | an accepted report holds the source's evidence set, and every observation and finding rests on evidence of both |
| ProjectJourney.ReadOnlyProjectJourney | scripts/report-proof.ts:162-178 | the loop accepts iff every action was harmless where it was taken, something navigated, and the last entry shows the empty board |
| ContextRetirement.WalkAccepts | scripts/advanced-proof.ts:177-199 | the automaton accepts from a reachable state iff the entries are allowed and the marks left complete it |
| ContextRetirement.RunAutomaton | scripts/advanced-proof.ts:177-199 | the loop accepts a history iff its create and delete entries are none, or dispatched, returned or uncertain, delete dispatched, perhaps uncertain, confirmed, among allowed ones |
| ContextRetirement.AdvancedContextsRetired | scripts/advanced-proof.ts:168-201 | the verdict is: unique identities, no orphan operation, and every context deleted, revoked, without job or remote digest, and of a retired history |
| ContextRetirement.VerdictIgnoresOrder | scripts/advanced-proof.ts:168-201 | the verdict on the inventory is the same for every order of its contexts and of its operations |
| ContextRetirement.VerdictIgnoresOthers | scripts/advanced-proof.ts:179-180 | a context's verdict depends only on which entries of its own were recorded, not on what was recorded for other contexts |
| ContextRetirement.RetiredWasDeleted | scripts/advanced-proof.ts:167-199 | a retired context that was ever asked for has a confirmed deletion |
| Totals.SumWithOneMore | scripts/managed-proof.ts:95-99 | totals do not depend on the order of rows, and one more row adds its amount |
| ManagedLedger.AllocationsAreDistinct | scripts/managed-proof.ts:87-94 | the set sizes pass iff no two allocations, native or managed, share a token, a session or a provider run |
| ManagedLedger.ReadableLedgerIs | scripts/managed-proof.ts:80-120 | a database reads iff runs, attempts and progress belong together, no identity is shared, each attempt's seconds are in order, and the total with the native seconds lies within the lifetime limit and no lower than any amendment found it; and the totals are the sums they are called |
| ManagedLedger.ChargesCoverUse | scripts/managed-proof.ts:95-113 | in a readable ledger the attempts' charged seconds cover what their browsers ran, and an attempt with a session was dispatched, reserved for and has a run |
| ManagedLedger.SettledCommitsWhatWasConsumed | scripts/managed-proof.ts:98-132 | in a settled ledger the attempts' committed seconds are the consumed ones, every attempt is over, closed and leased to no one, and undispatched ones got everything back |
| ManagedLedger.NewRunHasTheAttempt | scripts/managed-proof.ts:80-86 | the new attempt belongs to the new run: forced by both ledgers' relationship checks |
| ManagedLedger.AllocationIsExact | scripts/managed-proof.ts:334-346 | for two readable ledgers the comparison passes iff the new one is the old one plus one run, its one attempt as planned and reported, and that attempt's progress; the check of the total is implied |
| ManagedLedger.BoundIs | scripts/managed-proof.ts:160-169 | a plan is bound iff nothing is under way, the ledger is the approved one with three native launches of 900 seconds, and the planned reservation fits lifetime, development and owner budgets |
| ManagedLedger.BoundAllocationStaysWithinBudget | scripts/managed-proof.ts:160-169 | after a bound and accepted allocation the lifetime limit holds, the native ledger is the approved one, and everything old is over and unchanged |
| BudgetStore.BudgetDatabase.ReadPolicy | scripts/managed-budget.ts:51-74 | the reader computes the chain or the first error, in the order of its checks |
| BudgetStore.BudgetDatabase.ReadDemoRows | scripts/managed-budget.ts:60-64 | the rows' receipts, or the first misnumbered or invalid row |
| BudgetStore.BudgetDatabase.ApplyBudgetAmendment | scripts/managed-budget.ts:90-119 | the new database and the reply, the binding of the receipt to the present policy, total and history included; a rejected amendment leaves everything as it was |
| BudgetStore.BudgetDatabase.ApplyDemoAmendment | scripts/managed-budget.ts:121-138 | the same for a demonstration amendment |
| BudgetAmendments.StepIsSound | scripts/managed-budget.ts:106-138 | any attempt, accepted or rejected, and any other work keep the chain sound; lifetime never falls, the baseline never moves, receipts are only added, amendments leave the history |
| BudgetAmendments.ReadsChains | scripts/managed-budget.ts:50-75 | the reader accepts iff there are no amendments, or one well-formed budget amendment and well-formed demonstrations numbered from one, each starting where the one before it ended, the last being the stored policy |
| BudgetAmendments.BudgetAmendmentIs | scripts/managed-budget.ts:90-119 | a budget amendment is accepted iff none was before, nothing is queued, every attempt is settled and closed, 1800 seconds are reserved, and it doubles the lifetime of a policy of one 300-second session at a time, changing nothing else |
| BudgetAmendments.DemoAmendmentIs | scripts/managed-budget.ts:27-138 | a demonstration amendment is accepted iff the chain reads, everything is at rest, the stated seconds are reserved, and the policy becomes five sessions of 60 or 90 seconds for six hours above a baseline of at most 302400 seconds; the check of the approved ceiling is implied |
| BudgetAmendments.ChainAlwaysReadsBack | scripts/managed-budget.ts:50-74 | after any sequence the chain reads back, the stored policy is the closed form of original policy and receipts, and no receipt claims more than is reserved |
| BudgetAmendments.ChainFromTheStart | scripts/managed-budget.ts:50-138 | so from any database that no amendment has touched |
| BudgetAmendments.ReplayedReceipts | scripts/managed-budget.ts:111-129 | a budget receipt is good once; a demonstration receipt is good again iff it leaves the policy unchanged |
| LaunchProtocol.LaunchForm.constructor | src/components/launch.tsx:88-100 | mounting recovers a saved request of this owner and no other; a new launch can be submitted iff nothing at all was saved |
| LaunchProtocol.LaunchForm.SendRequest | src/components/launch.tsx:157-172 | a request is reported sent iff it could be, and then it is the saved one; otherwise neither the storage nor a running call changed, and a storage that fails blocks new launches |
| LaunchProtocol.LaunchForm.OnReply | src/components/launch.tsx:173-184 | a run, or one of the eight definite statuses for a first send, takes the request out of the storage, and only the latter lets another launch be submitted; after every other status it is still saved and pending |
| LaunchProtocol.LaunchForm.OnBrokenConnection | src/components/launch.tsx:178-184 | the request of a lost reply is still saved and is the only one that can be sent |
| LaunchProtocol.StepIsGood | src/components/launch.tsx:157-190 | every calm step keeps the invariant of tab, network and server |
| LaunchProtocol.NoForgottenRun | src/components/launch.tsx:164-184 | beside a server that may have made the run and still answer any other error, over any losses, refusals, reloads and reconciliations, and any replacement of the form while no call can still clear the storage, every run made was seen or its request is still saved, and is the one asked for |
| LaunchProtocol.LeavesOnlyWhenKnown | src/components/launch.tsx:173-183 | a key leaves the storage only when its run was seen, or there is none and never will be |
| LaunchProtocol.NewKeysWait | src/components/launch.tsx:186-188 | a new key is sent only when the outcome of every earlier one is known |
| LaunchProtocol.RepliesNeverConflict | src/components/launch.tsx:165-176 | the server never meets a key with another body |
| LaunchReplacement.ReplacedFirstSendForgets | src/components/launch.tsx:178-184 | if the form is replaced while a first send may still be refused, some run makes that very launch lost: nothing that happens later brings it back |
| LaunchReplacement.ReplacedCallForgets | src/components/launch.tsx:173-184 | if it is replaced while any call may still clear, some run makes the next launch lost, whatever new key it has |
| LaunchReplacement.ReplacementLosesExactly | src/components/launch.tsx:173-190 | in every state of every calm history, replacing the form can lose a launch by steps that are calm afterwards iff a call runs that may still clear the storage: its request is on its way, or a reply that clears is |
| LaunchReplacement.LostForGood | src/components/launch.tsx:88-100 | a lost launch is neither seen nor saved again in any continuation, calm or not |
| PublicAddress.ExpandsToEight | src/server/public-address.ts:7-15 | every text form of section 2.2 of RFC 4291 without dots expands to exactly its eight groups |
| PublicAddress.SameAddressSameNumber | src/server/public-address.ts:7-15 | two texts have the same number iff they write the same address, however compressed |
| PublicAddress.Ipv4ValueOfText | src/server/public-address.ts:3-5 | a dotted text has the positional number of its bytes |
| PublicAddress.InRangeIsInterval | src/server/public-address.ts:17-20 | for an aligned base the shift test is membership of the interval |
| PublicAddress.BlockSpans | src/server/public-address.ts:22-31 | each entry of the table is the stated interval of numbers |
| PublicAddress.PublicIpv4 | src/server/public-address.ts:34-38 | an IPv4 address is public iff it is in none of the reserved ranges, given byte by byte |
| PublicAddress.PublicIpv6 | src/server/public-address.ts:39-50 | an IPv6 address is public iff it is global unicast outside the five excluded ranges, given by its first two groups |
| PublicAddress.LoopbackV4 | src/server/public-address.ts:53-55 | an IPv4 address is loopback iff its first byte is 127 |
| PublicAddress.LoopbackV6 | src/server/public-address.ts:53-57 | an IPv6 text is loopback iff it writes ::1 |
| PublicAddress.NeverPublic | src/server/public-address.ts:40-41 | no loopback address is public, nor any IPv4-mapped one |

## Left out

- WallController: callbacks run outside the handlers; a subscriber that stops the controller from inside a publication is not modelled (after a stream error it would leave a reconnect timer that finds the controller stopped).
- EventStream: one time per turn and per request; the two readings of the clock in one turn are taken equal, and `enqueue` never throws.
- ServerSentEvents: characters, not UTF-8 bytes; a leading byte order mark, `retry` fields and the stream's end are not modelled, since the handler sends none of the first two.
- Decimal: a cursor above 2^53-1 is refused exactly, where the source compares the rounded double; both refuse.
- LaunchProtocol: session cookies and CSRF tokens that change under a running call, a second tab with a copy of the storage, and the form's own validation.
- ProofClosures: timestamps are finite reals, so the finiteness checks hold and the division by 1000 is exact.
- ManagedLedger: the native ledger's own reader and settlement check are inputs; rows are compared as values, where the source compares their digests.
- BudgetAmendments: the literal approval texts and dates of a receipt, which its schema fixes.
- PublicAddress: addresses with dots inside IPv6 or with a zone, which the source refuses before parsing.
- `selectViewers`, capability flags, argument parsing and single comparisons of a budget: one expression each.
- SQLite, files, locks, child processes, proxies, Docker, DNS and network guards: tables are sequences and maps, a transaction is all or nothing.
- Browser automation, recordings, screenshots, React rendering and copy.
- `exclusiveHumanInterval`, `noAdvancedDispatchOverlap`, marker contrasts and approvals: predicates over one record.
- `readManagedInvocationInventory`: a directory of journals.
- The repository's own writes, the worker, leases and takeover: only the reads and appends stated above.
