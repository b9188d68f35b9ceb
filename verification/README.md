# Verified model of the uni-chat engine state and its server

The `state` package keeps one JSON file per engine: which addressed message each
channel still has to answer, which post each channel has acknowledged, when it was
last active. Several engine processes update that file. `pkg/protocol` answers
requests over a socket and runs engines as bounded subprocesses. This project models
those parts in Dafny and proves what they guarantee over every input, every run and
every interleaving.

`dafny verify dfyconfig.toml` checks everything.

## How the model is built

| file | what it holds |
|---|---|
| `Basics.dfy` | options, map lookup, wrapping 64-bit counters |
| `Text.dfy`, `Items.dfy` | string comparison and trimming, timestamps, check items, the comparators |
| `Frontiers.dfy` | the total order behind the pending projection |
| `Projections.dfy` | `ApplyPending` on values, runs of it, the frontier refinement |
| `Convergence.dfy` | when the order of events does not matter, exactly |
| `Sequences.dfy`, `Sorting.dfy` | filters; what a stable sort promises, and that this determines it |
| `Merging.dfy`, `MergeOutput.dfy` | `MergePending`: convergence of batches, replay, the accepted list |
| `Revisions.dfy`, `Snapshots.dfy` | revision stamps, exclusion; `LoadState` |
| `Cursors.dfy` | the successor graph, its numbering, the cursor's walk |
| `Activity.dfy` | the activity index |
| `StateObject.dfy` | the `State` object whose methods update its fields, each equal to its value function |
| `Writers.dfy` | processes taking the lock, loading, changing, writing and renaming |
| `Server.dfy` | the accept loop, its slots, its workers, its shutdown |
| `Buffers.dfy`, `Commands.dfy` | bounded output of an engine; the signal escalation |

The main results:

* Every channel has a *frontier* in a total order (nothing; an unreadable stamp, by
  post id; an instant, by post id; an instant resolved; resolved at an unreadable
  stamp). An event is accepted exactly when it lies strictly above the frontier, and
  then raises it (`Projections.FrontierRefinement`).
* A channel ends the same in every order, with any duplicates, from every start,
  **if and only if** no event shadows a greatest event with a different outcome, and
  if and only if mere reorderings of the very same events agree
  (`ConvergenceIsExact`). Stamps that parse, with equal instants meaning the same
  event, satisfy the condition; an own and an addressed post of one instant need not
  (`OneInstantTwoPosts`). The result carries over to batches, and through the lock,
  crashes and reloads to concurrent writers (`WritersConverge`).
* Whatever the processes do, every field of the state file is what the committed
  actions of its kind make of the initial one; short of the revision wrapping the file
  is that of one object to which all of them were applied (`WritersRefineOneObject`).
* The integer versions of the cursor graph are graph distances, the graph stays a set
  of disjoint acyclic chains, and no interleaving of records and acknowledgements
  moves a cursor back, within one process or across all of them.
* The server never runs more than 32 handlers, decides on every connection exactly
  once, calls the handler exactly for the requests that decode, gives back the slot of
  every connection whose handler returns, never waits for a worker to accept or to shut
  down, and leaves no handler under a live context when it returns itself.

How the code's values appear:

* A timestamp string is modelled by what parsing makes of it: `Empty`, `Garbage`,
  `At(instant, spelling)` (two spellings of one instant, section 5.6 of RFC 3339, are
  different values of equal order), or `OutOfRange`, the text that formatting yields
  for a UTC year outside 0 to 9999, which does not parse.
* The wall clock is a parameter. In one merge a channel accepts at most one own post
  without a stamp (`Projections.ClockIsReadOncePerChannel`), so a merge takes one
  arbitrary reading per channel.
* `uint64` counters wrap at 2^64; statements about them say how far from wrapping.
* A nil map and an empty one read alike and are one value here.
* A connection attempts one response. Encoding it may fail, on a payload that is not
  JSON or a closed connection, and then nothing is written: attempts and replies are
  counted apart. A handler's return is a move like the others, and nothing forces it.
* An impossible step of a step system changes nothing, so statements over all event
  sequences are statements over all interleavings.

Where the code and its comments differ, the code is modelled:

* "Own posts always close the projection" (`state/state.go:101`): an own post older
  than the pending item is rejected and the item stays pending
  (`OlderOwnPostDoesNotClose`). A channel is without a pending item afterwards exactly
  when it was before or the post lies above its frontier (`OwnPostClosesExactly`).
* `RecordActivity` "stores the newest valid activity" (`state/state.go:282`) except
  when the newest instant falls outside the UTC years 0 to 9999: its canonical text
  does not parse, and the next offer replaces it. `ActivityIsRunningMaximum` gives
  the exact condition, `YearTenThousandIsForgotten` an instance.

## Model

| member | source | states |
|---|---|---|
| `Text.CompareByFirstDifference` | state/state.go:190 | comparing post ids: the first differing character, or the shorter text, decides |
| `Text.CompareFindsTheDifference` | state/state.go:190 | a smaller id is smaller at such a first difference |
| `Frontiers.CompareItemsIsKeyOrder` | state/state.go:178-191 | the three-way comparator over validity, instant and id is the order of one key: negative, zero, positive, and antisymmetric |
| `Frontiers.BelowTotal` | state/state.go:178-208 | the frontier order is total and irreflexive |
| `Frontiers.BelowTransitive` | state/state.go:178-208 | the frontier order is transitive, across unreadable stamps, instants and resolutions |
| `Frontiers.ComparedToResolution` | state/state.go:193-208 | with no resolved id, an item beats a resolution exactly when its key lies above it, so a tie and an unreadable stamp never do |
| `Frontiers.ComparedToResolvedPost` | state/state.go:193-208 | with both ids at hand a resolution compares as the post it names, and by the ids alone where a stamp does not parse |
| `Projections.FrontierRefinement` | state/state.go:104-146 | an item is accepted exactly when it is own or anchored-addressed and strictly above its channel's frontier, also when both marks are present; acceptance strictly raises the frontier, sets the slot and stamps it; rejection changes nothing; no other channel changes |
| `Projections.AcceptedPostIsStored` | state/state.go:121-143 | an accepted own post leaves no pending item and resolves its channel at its own stamp, or at the clock's reading if it has none; an accepted addressed post is stored unchanged and leaves no resolution |
| `Projections.AnsweredIsAnswered` | state/state.go:114-131 | after an accepted own post no item of the channel stamped at or before it is ever accepted again; without a stamp, none at or before the clock's reading |
| `Projections.LaterQuestionReopens` | state/state.go:133-143 | an addressed post with a later stamp that comes next is pending again |
| `Projections.FirstQuestionIsPending` | state/state.go:133-143 | in a channel that holds nothing an addressed post is accepted exactly when its channel, channel reference and id each hold more than white space |
| `Projections.PendingItemsWereAsked` | state/state.go:104-146 | from nothing, every pending item was offered, is filed under its own channel, is addressed and not own, and has those three readable |
| `Projections.RunIsPerChannel` | state/state.go:104-146 | what a run does to a channel depends on that channel's slot and events alone |
| `Projections.RunRaisesFrontier` | state/state.go:104-146 | no run lowers a frontier, and afterwards every item offered lies at or below it |
| `Projections.RejectedBelowFrontier` | state/state.go:104-146 | events at or below the frontiers of their channels change nothing, in a run of any length, and none is accepted |
| `Projections.ReplayIsRejected` | state/state.go:104-146 | items offered before are never accepted again, whatever the stamps and the clock |
| `Projections.ClockIsReadOncePerChannel` | state/state.go:117-131 | after an own post without a stamp was accepted, its channel never accepts a second one |
| `Projections.UnreadableOwnPostCloses` | state/state.go:121-131 | an accepted own post whose stamp does not parse closes its channel to every later item |
| `Projections.OwnPostClosesExactly` | state/state.go:101-131 | after an own post the channel has no pending item exactly when it had none or the post lies above its frontier |
| `Projections.OlderOwnPostDoesNotClose` | state/state.go:101-131 | an own post older than the pending item is rejected and the item stays pending |
| `Convergence.EventsSettle` | state/state.go:104-146 | determined events leave the outcome of a greatest event above the initial frontier, or nothing new |
| `Convergence.EventsConverge` | state/state.go:104-146 | events with the same keys, in any order, with any duplicates, under any clocks, from any state, give the same slot if their effects together are determined |
| `Convergence.ConvergenceIsExact` | state/state.go:104-146 | the condition for this holds if and only if all orders, with any duplicates, from all states agree, and if and only if all reorderings of the very same events do |
| `Convergence.ShadowsSplitRuns` | state/state.go:117-143 | where it fails, two orders of the very same events end differently |
| `Convergence.DistinctInstantsConverge` | state/state.go:104-146 | stamps that parse, equal instants meaning one event: the set of events decides, whatever the clock |
| `Convergence.OneInstantTwoPosts` | state/state.go:117-143 | an own and an addressed post of one instant can end differently in the two orders |
| `Sorting.StableSortCorrect` | state/state.go:164 | the sorted batch is ordered, a permutation, and keeps equal items in order |
| `Sorting.StableSortIsDetermined` | state/state.go:164 | any ordered, stable rearrangement of the batch is that one |
| `Sorting.PermutationsSortAlike` | state/state.go:164 | permutations of a batch in which only identical items compare equal sort alike |
| `Merging.MergeIsRun` | state/state.go:152-176 | a merge is a run of `ApplyPending`, and the own and addressed items it returns are exactly those the run accepts, in that order |
| `Merging.ScheduleMembers` | state/state.go:153-165 | grouping and sorting lose and invent no item |
| `Merging.ScheduleIsPermutation` | state/state.go:153-165 | every item of the batch is offered, as often as the batch holds it |
| `Merging.ChannelsInOrder` | state/state.go:154-160 | channels are taken in order of first occurrence: an item of the earlier one stands before every item of the later one |
| `Merging.BatchConvergence` | state/state.go:152-176 | any split into batches, any order, any duplicates, any clocks: equal keys and effects determined together give equal slots, settled by the greatest event |
| `Merging.TwoBatchesCommute` | state/state.go:152-176 | A then B, B then A and both in one call agree, each of the five merges under its own clock, if all their effects together are determined |
| `Merging.BatchesOfDistinctInstantsConverge` | state/state.go:152-176 | the same for stamps that parse with equal instants meaning one event, for any clocks |
| `Merging.MergedBatchIsNotReplayed` | state/state.go:148-176 | on one projection, a batch merged once, with any merges before and since, changes nothing when merged again, and none of its own or addressed items is accepted |
| `MergeOutput.AcceptedListIsOrdered` | state/state.go:153-175 | accepted items come channel by channel; of two on different channels, the one whose channel occurs first in the batch comes first; each channel is sorted, its own and addressed items strictly increasing |
| `MergeOutput.OthersPassThrough` | state/state.go:165-173 | items neither own nor addressed come out exactly as often as they went in, equal-key items of a channel in input order |
| `MergeOutput.MergeAcceptsPerChannel` | state/state.go:162-174 | what a merge accepts in a channel depends on that channel alone |
| `MergeOutput.OrderInBatchIsIrrelevant` | state/state.go:152-176 | if only identical items of a channel compare equal, permuting the batch changes neither the projection, nor the revision, nor any channel's accepted list |
| `MergeOutput.MergeCountsRevisions` | state/state.go:152-176 | a merge advances the revision once, modulo 2^64, per own or addressed item accepted |
| `Revisions.StampsStaySound` | state/state.go:307-310 | short of wrapping: the revision counts the accepted events, stamps stay at or below it, distinct stamps stay distinct |
| `Revisions.EqualStampsMeanEqualSlots` | state/state.go:307-310 | a channel whose stamp is equal, or absent, at two points of a run has the same slot at both |
| `Revisions.RunsStayExclusive` | state/state.go:114-143 | a channel is never both pending and resolved; pending items are anchored and filed under their own channel |
| `Snapshots.NormaliseEstablishes` | state/state.go:84-93 | loading bounds every stamp by the revision and drops exactly the pending items that are not anchored |
| `Snapshots.LoadKeepsTheFile` | state/state.go:51-95 | loading a decoded file keeps its cursors, activity, watch list, last check, resolutions and stamps, and exactly the pending items that can be shown and reached, unchanged; the revision rises to the least bound of the stamps |
| `Snapshots.NoFileIsEmpty` | state/state.go:54-58 | without a file the state holds nothing and its revision is 0 |
| `Snapshots.NormaliseFixesExactly` | state/state.go:84-93 | loading changes nothing if and only if that already held |
| `Snapshots.NormaliseIsIdempotent` | state/state.go:84-93 | loading twice is loading once |
| `Snapshots.LoadAfterSaveIsIdentity` | state/state.go:51-99 | a loaded state, after any run short of wrapping, loads back as itself |
| `Cursors.RecordReportsTheEdge` | state/state.go:224-259 | true exactly when the edge stands afterwards; a second successor, or an id already numbered, is refused |
| `Cursors.RecordGrowsLine` | state/state.go:224-259 | recording keeps every edge and number, adds at most one edge, and touches one channel |
| `Cursors.LinesStaySound` | state/state.go:224-280 | over any run a channel stays a set of disjoint chains, the empty id never a target, each id with one successor and one predecessor, versions at most the number of edges |
| `Cursors.ReachableLinesAreSound` | state/state.go:224-280 | the same from a table that knows no edges, with any cursors |
| `Cursors.VersionsIndexReachability` | state/state.go:244-258 | on one chain y lies n edges after x if and only if its version is greater by n |
| `Cursors.VersionIsDepth` | state/state.go:244-258 | a version is the distance from the head of the chain |
| `Cursors.ChainsAreAcyclic` | state/state.go:244-258 | no id reaches itself |
| `Cursors.CursorNeverMovesBack` | state/state.go:224-280 | under any interleaving the cursor follows recorded edges, takes no value twice, and moves at most as often as edges were recorded |
| `Cursors.AcksFollowOneEdge` | state/state.go:263-280 | an acknowledgement is accepted exactly when it names the current cursor's successor, and moves only that cursor |
| `Cursors.TakenIdsNeverMove` | state/state.go:263-280 | an id the cursor has taken in a run never moves it again |
| `Cursors.PassedIdsNeverMove` | state/state.go:263-280 | an id behind the cursor on its chain, loaded or taken, never moves it in any later state |
| `Activity.ActivityIsRunningMaximum` | state/state.go:285-305 | from an empty entry the stored text is the canonical one of the greatest instant offered if and only if its UTC year has four digits or it was offered last |
| `Activity.OfferIsRecorded` | state/state.go:285-305 | true exactly when the channel is not blank, the candidate parses and no entry that parses is at or after it; then the entry is the candidate's instant in UTC, or does not parse where the year has not four digits; otherwise nothing changes |
| `Activity.OnlyNewActivityIsReported` | state/state.go:285-305 | after any offers of four-digit years to an empty entry, true exactly when the candidate is later than all of them |
| `Activity.NewestActivityStands` | state/state.go:285-305 | from any entry, over any offers of four-digit years: the initial entry as long as nothing newer came, and otherwise the greatest instant in UTC |
| `Activity.YearTenThousandIsForgotten` | state/state.go:285-305 | an instant in UTC year 10000 is replaced by an older one |
| `Activity.ActivityIgnoresOrder` | state/state.go:285-305 | for four-digit years neither order nor duplicates matter |
| `StateObject.State.Load` | state/state.go:51-95 | the loaded object is the file as `Snapshots.Load` gives it (`LoadKeepsTheFile`), or the empty state |
| `StateObject.State.RaiseRevision` | state/state.go:84-88 | the revision becomes the least number at or above itself and every stamp |
| `StateObject.State.DropUnanchored` | state/state.go:89-93 | exactly the unanchored pending items go |
| `StateObject.State.TouchPending` | state/state.go:307-310 | one increment, stored as the channel's stamp |
| `StateObject.State.ApplyPending` | state/state.go:104-146 | the updated fields and the result are those of `Projections.Apply` |
| `StateObject.State.MergePending` | state/state.go:152-176 | the updated fields and the accepted list are those of `Merging.Merge` |
| `StateObject.State.RecordCursor` | state/state.go:224-259 | the updated maps and the result are those of `Cursors.Record` |
| `StateObject.State.AdvanceCursor` | state/state.go:263-280 | the updated cursors and the result are those of `Cursors.Advance` |
| `StateObject.State.RecordActivity` | state/state.go:285-305 | the updated index and the result are those of `Activity.Record` |
| `StateObject.Group` | state/state.go:153-160 | the grouping loop: the distinct channels, each occurring in the batch before every item of the next, with its items in input order |
| `Writers.WritersAreSerializable` | state/state.go:350-446 | with any timeouts, failures and crashes the state file is never torn and holds the committed transactions in lock order; at most one process is inside the lock |
| `Writers.WritersRefineOneObject` | state/state.go:51-446 | in every history each field of the file is what the committed actions of its own kind make of the initial one: cursors, activity, the watch list and last check last set, and, short of the revision wrapping, the whole projection as if all batches had been merged on one object |
| `Writers.WritersKeepNewestActivity` | state/state.go:285-446 | the activity of a channel in the file of any history is the initial entry or the newest instant committed by any process |
| `Writers.SerialIsOneMerge` | state/state.go:51-176 | short of wrapping, reloads between transactions change nothing of the projection, not even revision and stamps |
| `Writers.NoTempsAreLeft` | state/state.go:419-445 | without crashes, only the process writing a temporary file has one |
| `Writers.UndisturbedWriterCommits` | state/state.go:332-446 | a process that finds the lock free and is left alone commits and frees it |
| `Writers.CrashesFreeTheLock` | state/state.go:342-388 | a crash frees the lock it held and leaves the state file alone |
| `Writers.FailuresFreeTheLock` | state/state.go:419-445 | a process that fails anywhere inside the lock frees it, leaves the state file alone and takes its own temporary file with it |
| `Writers.GivingUpLeavesNothing` | state/state.go:350-388 | a process that gives up waiting leaves everything as it was |
| `Writers.SerialMerges` | state/state.go:51-176 | reloading between transactions does not change what the merges do to a channel |
| `Writers.CommittedBatchIsNotReplayed` | state/state.go:148-176 | in any history, a batch committed once, merged into the state loaded afterwards, under any clock, changes nothing, and none of its own or addressed items is accepted |
| `Writers.WritersConverge` | state/state.go:148-446 | two histories whose committed merges have the same keys and effects determined together leave the channel the same, whatever the clocks |
| `Writers.WritersOfDistinctInstantsConverge` | state/state.go:148-446 | the same from the set of committed events alone, for stamps that parse with equal instants meaning one event |
| `Writers.WritersNeverMoveCursorBack` | state/state.go:224-446 | across processes too a cursor follows edges and takes no value twice |
| `Server.NextKeepsCounts` | pkg/protocol/protocol.go:881-897 | slots, table and wait group always count exactly the connections between taking and returning them |
| `Server.SlotAccounting` | pkg/protocol/protocol.go:844-903 | handlers within active connections within slots within 32; a spawned active connection has its slot and its wait-group entry |
| `Server.EveryConnectionTakesOnePath` | pkg/protocol/protocol.go:881-901 | in every run a connection past its arrival has taken a slot exactly once and is on the worker's path, or was turned away exactly once and is on the busy path |
| `Server.TurnedAwayOnlyWhenFull` | pkg/protocol/protocol.go:881-901 | and it is turned away only while 32 other connections hold the slots |
| `Server.PathIsFinal` | pkg/protocol/protocol.go:881-901 | a connection on one of the two paths stays on it |
| `Server.OneCallOneReply` | pkg/protocol/protocol.go:1017-1036 | exactly one handler call for a request that decoded and none otherwise, at most one response attempted and no more written; no call on the busy path |
| `Server.HandlerRunsForDecodedRequests` | pkg/protocol/protocol.go:1017-1036 | once a response was attempted the request either decoded, and the handler was called once and has returned, or did not, and none was called; on the busy path it was read first; every attempt is counted |
| `Server.NothingIsCutShort` | pkg/protocol/protocol.go:872-903 | until the listener is closed handlers run under a live context and responses are attempted on open connections |
| `Server.ConnectionsReachTheirEnd` | pkg/protocol/protocol.go:888-900 | outside the sweep no connection is stuck, a running handler's return being its own move; at its end exactly one response was attempted and it is closed |
| `Server.MovesEnd` | pkg/protocol/protocol.go:888-900 | in no run does a connection make more than twelve moves: those made and those still left to its end never exceed that |
| `Server.AcceptingNeverWaits` | pkg/protocol/protocol.go:872-902 | while the listener is open the loop's own steps bring it back to Accept, where any new connection can arrive, however many handlers run |
| `Server.ShutdownIsSafe` | pkg/protocol/protocol.go:857-871 | on return every worker's connection is closed and every running handler's context cancelled; after a completed wait no worker is left |
| `Server.ShutdownCompletes` | pkg/protocol/protocol.go:857-880 | once the listener is closed the loop's own steps and the grace time bring ServeContext to its return, whatever workers and handlers do |
| `Server.NothingBecomesActive` | pkg/protocol/protocol.go:857-877 | from the closing sweep on the table only shrinks |
| `Server.NothingArrivesAfterClosing` | pkg/protocol/protocol.go:872-880 | once the listener is closed no connection arrives |
| `Server.OnlyClosingEndsTheLoop` | pkg/protocol/protocol.go:872-880 | in every run the listener is open exactly while it was not closed, and without that the accept loop goes on, whatever Accept returns |
| `Buffers.BoundedBuffer.Write` | pkg/protocol/protocol.go:947-963 | reports the full length; the new content and flag are those of `Buffers.Store` |
| `Buffers.WritesKeepPrefix` | pkg/protocol/protocol.go:941-963 | the content is the prefix of everything written, however cut; truncated exactly when some write found too little room |
| `Buffers.TruncatedMeansTooLong` | pkg/protocol/protocol.go:947-963 | without empty writes, truncated if and only if more than the limit was written |
| `Buffers.EmptyWriteTruncates` | pkg/protocol/protocol.go:951-955 | an empty write to a full buffer sets the flag |
| `Buffers.RepliesAreWhole` | pkg/protocol/protocol.go:1187-1197 | for any writes, a reply is the decoding of everything written; there is one if and only if the run succeeded, no write overflowed and the whole decodes |
| `Buffers.FailuresNameTheirCause` | pkg/protocol/protocol.go:1187-1197 | an engine failure is reported exactly when the run failed, an excess exactly when else a write overflowed, a bad response exactly when else the whole does not decode |
| `Buffers.FittingResponsesAreDecoded` | pkg/protocol/protocol.go:1187-1197 | without empty writes, a reply is returned if and only if the run succeeded, the output fits, and the whole of it decodes |
| `Commands.EscalationIsOrdered` | pkg/protocol/process_unix.go:24-42 | SIGKILL only after SIGTERM and the whole grace period, each at most once |
| `Commands.OnlyTheDeadlineEscalates` | pkg/protocol/process_unix.go:24-42 | no signal is attempted before the deadline, and a timeout is reported exactly when one was |
| `Commands.StubbornChildIsKilled` | pkg/protocol/process_unix.go:27-41 | a child that outlives the deadline and the grace period is sent SIGKILL, and its result is awaited |
| `Commands.EveryCallCanReturn` | pkg/protocol/process_unix.go:18-43 | from every reachable state at most five steps return the call, if signals are sent, the grace period ends and the child exits |
| `Commands.ReturnTellsTheTruth` | pkg/protocol/process_unix.go:18-43 | a normal return sent nothing; a timeout error names exactly the signals attempted; unless the start failed or a signal was refused, the child was waited for |

## Left out

- Parsing and formatting of timestamps: a stamp is given by what it parses to.
- JSON encoding of the state: taken as exact; a file that does not decode makes loading fail.
- The library's sorting algorithm, in place on a slice: modelled by the stable sort its contract determines (`Sorting.StableSortIsDetermined`).
- `LockContext` as a loop: its polling may go on for ever, so it is a step system whose attempts, timeouts and errors may come at any point; times are not modelled.
- Inner cursor maps shared by reference: stored back as values.
- Directory creation, file modes, environment paths and the configuration file.
- The removal of a temporary file failing on an error path.
- `decodeBoundedRequest` and its trailing-data checks: a request decodes or does not.
- Server.ConnectionsReachTheirEnd: does not promise that a handler returns, since nothing in the server makes it; its slot is held until it does.
- The contents of requests and responses, timeouts of a connection, and panics as distinct from other handler results.
- `sanitizeStderrTail`: formatting of a diagnostic.
- `pkg/capability`, `keychain`, the wire structures, the escalation on other systems: no further state of their own to reason about.
