# Trasa core, modelled in Dafny

Trasa plans delivery trips. A client sends the waypoints of a trip; the server finds
the region they lie in, asks the routing engine of that region (OSRM) for the best
order, puts the waypoints in that order and stitches the legs of the route onto them.
Short trips are answered at once; long ones go through a message queue to background
workers, and the client polls a record of the outcome.

This project models the hand-written parts of that path and proves what they promise.

| file | what it models |
|---|---|
| `Permutations.dfy`, `Reordering.dfy` | permutations and their cycles; the in-place reordering loop |
| `Trip.dfy` | trips, legs, the optimised trip and the response around it |
| `Engine.dfy` | the calls into the routing engine, as an oracle with a contract |
| `Cost.dfy` | the total cost of a trip |
| `Geometry.dfy`, `Polygons.dfy`, `RegionIndex.dfy` | points in rings and envelopes; what being within a polygon means; the spatial index with its box prefilter |
| `Lines.dfy`, `PolyFile.dfy`, `Decimal.dfy` | the line reader and the polygon-file parser; a number format for it |
| `Protocol.dfy` | the queue and its workers as a state machine, its invariant, conservation |
| `CompleteRuns.dfy`, `RecordFinality.dfy` | runs that see a message through; which records there can be, and when records and answers are final |
| `Deletions.dfy`, `LostFailures.dfy` | which messages leave the queue and for what reasons; deletes that fail and failures that are lost |
| `Scheduler.dfy`, `Background.dfy` | the objects behind the machine and one pass of a worker; the machine with the JSON bodies and the real routing put in |
| `Answers.dfy`, `Admission.dfy` | the answer to a trip and what a client reads in it; the synchronous trip call, and the asynchronous one up to the queue |
| `Json.dfy`, `TripJson.dfy` | property trees and the JSON form of trips |
| `RowIterator.dfy` | the iterator over an address book |
| `Numerals.dfy`, `Duration.dfy` | decimal numerals and the duration printer |

Values that never change once built (waypoints, legs, regions, documents) are
datatypes. Objects that are updated in place (the optimised trip's arrays, the index,
the input stream, the row iterator, the scheduler's queue, the record table) are
classes whose methods are tied to functions of their contents.

## What the main results say

* The reordering loop ends exactly on permutations. On one, it scatters the waypoints
  as the order says, using one swap less than the length for every cycle, and never
  moves a slot the order leaves in place; so a trip's ends, and with them the answer of
  `roundtrip`, are the same in every state of the loop.
* With an engine that keeps its promises, a trip is built exactly when the engine found
  a single trip and the trip is one-way or its ends are one place to the engine. Of the
  trips built, the response accepts exactly the one-way ones with three waypoints and a
  geometry: it asks a round trip for one leg more than the constructor allows. A queued
  request scheduled by itself gets a ready record in some run exactly under these
  conditions, if persisting finds its fields.
* The synchronous call answers with the waypoints in the engine's order, and between any
  two a leg with the engine's own figures cut to whole units.
* A point inside a ring is strictly inside the ring's envelope, because a ring crosses
  every parallel an even number of times; so the box prefilter of the index drops no
  answer. A triangle holds exactly the points strictly on the same side of its edges, and
  a chord divides a ring into two parts, exactly one of which holds what the ring holds:
  this determines, without counting crossings, which points off the chords are within any
  polygon.
* Over every run of any number of workers, with crashes, time-outs, redeliveries and
  remote calls that fail or report wrongly, every message is visible, in flight or
  deleted, and only one of these. Under an id there can come to be exactly the records
  that are the verdict of a message that goes under that id; which id that is, the
  message's body can say itself. So:
  * the status and the account of a record never change if and only if no two messages
    that go under its id disagree. Whatever the engine finds, this is so if and only if
    no two different requests go under one id; or, should persisting lack its fields, no
    two for different accounts. (Only these two columns are stable: a redelivered trip is
    written again with a new time stamp.) A client's answers are final if and only if the
    messages agree up to the case of the account.
  * a message can leave the queue if and only if it does not parse, or it has a verdict
    and brings no receipt handle, or some message with a verdict brings one.
  * that every deleted message did not parse, threw in routing or has a ready record is
    true if and only if whatever can delete a message that routes leaves a ready record
    under its id which no other message can spoil. Whatever the engine finds, this is so
    if and only if no message brings a handle or goes under the id of another that can
    complete, and all that can complete go under their own ids.
  * if no body brings a trip id or a receipt handle, records and answers are final,
    deletions have these reasons, and a refused trip has no record and stays in the
    queue. That is what a caller has to see to; a queued
    body is of this kind if and only if the client's request is.
* A queued round trip is never ready unless another message goes under its id. One whose
  ends meet is never answered if and only if none does, and never leaves the queue if and
  only if no message with a verdict brings a receipt handle (`MeetingEndsStayUnanswered`).
* A crash between the delete and the record of a failed trip loses the failure for good,
  if and only if no other message with a verdict goes under its id.
* Printing polygon documents and reading them for a name gives back exactly the points
  of that name's documents; parts nested in a section say nothing. Printed durations have
  a number for every unit from the first nonzero one on, and read back to the millisecond.

Where the code and its documentation differ, the model follows the code:

* The response's leg count for round trips (`source/routing/trip.cc:303-307`) cannot be
  met by any trip the constructor builds (`source/routing/trip.cc:159-162`).
* Persisting a completed trip reads the children `request` and `response`
  (`source/routing/worker.cc:38-41`) of a document that has `meta` and `trip`
  (`source/routing/trip.cc:345-351`). The protocol is proved with that choice left open;
  `AsWrittenNothingIsReady` says what follows from it.
* A request that already carries a `meta.region` or a `meta.accountid` keeps it: what the
  server adds comes second and is not read (`source/services/trip.cc:180-186`). The same
  goes for `meta.id` and `meta.receipthandle` of a queued body
  (`source/routing/scheduler.cc:120-123`), so a message can write its record under the id
  of another and can delete another; `SentIdOverwritesARecord` and `ForeignDelete` are such
  runs.
* The asynchronous call stamps its time as `meta.create_at` (`source/services/trip.cc:128`),
  but the request's constructor reads `meta.createdat` (`source/routing/trip.cc:233`). It
  takes exactly those of the requests the synchronous call takes that bring a
  `meta.createdat` of their own.
* A last line of an address book without a newline is not read
  (`source/import/region_reader.cc:58-69`).

## What is taken as given

* The routing engine: a function from a request to a reply, with the promises of
  `Engine.KeepsPromises` where those are needed. `FinishesIffPermutation` shows why the
  constructor needs a permutation.
* Coordinates are fixed-point integers and the map is a plane; `Geometry.Within` is the
  even-odd rule without the boundary. The rounding of degrees by the engine and in JSON
  documents is a parameter, the latter idempotent.
* What a remote call does, which message arrives and when a worker dies are parts of the
  protocol's actions. The queue gives every message a fresh non-empty id, and every
  delivery a fresh non-empty receipt handle; either may be any such string, also one that
  some body already brought. The machine itself takes any function for what a body says;
  `Background.ConfigOf` puts in the JSON documents. How texts parse to trees, and the
  number conversions of files, are parameters. The engine is deterministic.
* A string that was moved from is empty, and debug assertions are compiled out.

## Model

| member | source | states |
|---|---|---|
| Reordering.Reorder | source/routing/trip.cc:164-174 | The nested swap loop ends and leaves the items scattered by the order, the order sorted, the multiset of items unchanged, after exactly length minus number-of-cycles swaps, so fewer swaps than items |
| Reordering.SwapInPlace | source/routing/trip.cc:171-172 | The two swaps exchange the same two slots of items and order and nothing else |
| Reordering.ScatterIsTheOnlyOne | source/routing/trip.cc:164-174 | A sequence is the scatter of the items exactly when item k stands at order[k] and everything beyond the order is in place |
| Reordering.ScatterKeepsItems | source/routing/trip.cc:164-174 | Scattering by a permutation keeps the multiset of items |
| Reordering.FinishesIn | source/routing/trip.cc:164-174 | From a permutation the loop is done after one step per index and one swap per missing cycle, and not a step earlier |
| Reordering.FinishesIffPermutation | source/routing/trip.cc:164-174 | For any order within range, some number of steps ends the loop if and only if the order is a permutation |
| Reordering.FixedSlotsNeverMove | source/routing/trip.cc:164-174 | A slot the order maps to itself, or that lies beyond the order, holds its first item in every state of the loop |
| Reordering.SwapPlacesOne | source/routing/trip.cc:169-173 | Each swap puts an entry in place for good: the set of misplaced indices strictly shrinks |
| Reordering.SwapStep | source/routing/trip.cc:169-173 | Each swap of a run adds one cycle and removes a misplaced index |
| Reordering.RunReaches | source/routing/trip.cc:168-174 | In every state every entry of items and order has moved together from where it was, and all indices passed are in place |
| Permutations.SwapSplitsCycle | source/routing/trip.cc:169-173 | Swapping entry i with the one it points to detaches exactly one element into a cycle of its own |
| Permutations.OrbitReturns | source/routing/trip.cc:168-174 | Following a permutation from any index comes back to it |
| Permutations.IsOnto | source/routing/trip.cc:164-174 | Every slot is the target of some item |
| Permutations.CycleCountBounds | source/routing/trip.cc:164-174 | A non-empty order has between one cycle and as many as entries |
| Trip.LegChain | source/routing/trip.cc:179-190 | Legs connect consecutive waypoints if and only if they form a chain whose stops are the waypoints once each in order; on a round trip the chain closes at its start |
| Trip.EndsNeverMove | source/routing/trip.cc:99-106 | With the engine's order both ends, and so the answer of roundtrip, are the original ones in every state of the reordering loop |
| Trip.ScatterKeepsEnds | source/routing/trip.cc:150-182 | After the loop the ends are still the original ones |
| Trip.Journey | source/routing/trip.cc:164-190 | The legs of a built trip stop at the original waypoints in the engine's order, each exactly as often as before, from the starting building to the final one |
| Trip.OptimizedTrip.constructor | source/routing/trip.cc:141-191 | The waypoints end scattered by the order; leg i goes from waypoint i to waypoint i+1 at its own cost; the geometry is kept |
| Trip.OptimizedTrip.ConnectLegs | source/routing/trip.cc:179-190 | Leg i goes from waypoint i to waypoint i+1, the wrap-around never happens, costs are kept |
| Trip.OptimizedTrip.Create | source/routing/trip.cc:150-162 | The constructor succeeds exactly when the order has an index for every waypoint (on a trip whose end ids agree, for all but the last) and there is a leg for each but one, and otherwise fails with the count that does not fit, index count first |
| Trip.CheckResponse | source/routing/trip.cc:299-308 | A response accepts exactly the trips with three waypoints, a geometry and different end ids |
| Engine.BuildRequest | source/routing/osrm_interop.cc:160-184 | Coordinate i is the rounded longitude and latitude of waypoint i; all are sent, but for the last if the end ids and both rounded end coordinates agree; a round trip may end anywhere, another ends at its last waypoint |
| Engine.Truncate | source/routing/osrm_interop.cc:126-127 | Truncation goes towards zero by less than one, for both signs |
| Engine.MapLegs | source/routing/osrm_interop.cc:102-133 | Legs are mapped exactly for a single trip, one for one: distance and duration truncated towards zero, buildings still zero |
| Engine.MapWaypointsOrder | source/routing/osrm_interop.cc:145-156 | The order is the engine's waypoint indices in order |
| Engine.BuildsIff | source/routing/osrm_interop.cc:158-203 | A trip is built if and only if the engine reports success with the code ok in any case, a single trip, and rounded end coordinates that agree if the end ids do |
| Engine.OptimizeTrip | source/routing/osrm_interop.cc:158-203 | A trip is built exactly when BuildsIff says; otherwise the error says why; what is built holds the waypoints in the engine's order with both ends in place, and leg i from waypoint i to the next at the engine's i-th cost, truncated |
| Engine.OptimizeInRegion | source/routing/osrm_interop.cc:286-294 | The engine asked is the region's, and all it gives is passed on; an unknown region is an error |
| Engine.Route | source/routing/worker.cc:141-149 | Optimising and wrapping throws exactly when no trip is built, and is accepted exactly for three or more waypoints, different end ids and a geometry |
| Cost.TotalIsSum | source/routing/trip.cc:199-209 | The accumulated total is the sum of the legs' distances and durations |
| Cost.TotalCloseToEngine | source/routing/osrm_interop.cc:115-129 | The total differs from the engine's by less than one unit per leg, and never exceeds it when the engine's figures are not negative |
| Cost.Int32ExactIffPrefixesFit | source/routing/trip.cc:201-208 | The 32-bit accumulation is exact if every running total fits and overflows otherwise |
| Cost.TotalFitsInt | source/routing/trip.cc:199-209 | No overflow when leg count times longest leg fits in 32 bits |
| Geometry.ParallelCrossedEvenly | source/spacial/region.cc:23-24 | A ring crosses any parallel an even number of times |
| Geometry.WithinIsInsideEnvelope | source/spacial/index.cc:98-117 | A point within a ring is strictly inside its envelope, which is what the tree is queried for |
| Geometry.Envelope | source/spacial/index.cc:116-117 | The box holds all corners and each of its sides touches one |
| Geometry.WithinRectangle | source/spacial/region.cc:23-24 | In a rectangle, within means strictly between its sides |
| Geometry.ClosingPointIsRedundant | source/spacial/region.cc:23-24 | Repeating the first corner at the end of a ring changes nothing |
| Polygons.WithinTriangle | source/spacial/region.cc:23-24 | A point is within a triangle if and only if it is strictly on the same side of all three edges, whatever the corners' order |
| Polygons.ChordDivides | source/spacial/region.cc:23-24 | A point neither on a ring nor on one of its chords is within the ring if and only if it is within exactly one of the two parts the chord makes of it |
| Polygons.CutCornerDecides | source/spacial/region.cc:23-24 | Of the two edges that meet in a corner cut off by the parallel, exactly one is crossed in the east if and only if the point is on the same side of all three edges |
| RegionIndex.NameDenotesOneRegion | source/spacial/region.cc:26-30 | Among regions with distinct names, equality by name is equality |
| RegionIndex.BoxesDropNothing | source/spacial/index.cc:97-110 | If no node with a fitting box contains the point, no region at all does |
| RegionIndex.Index.Insert | source/spacial/index.cc:114-125 | A region is added exactly when no region has its name; names stay distinct and boxes stay envelopes |
| RegionIndex.Index.Query | source/spacial/index.cc:97-100 | The candidates are exactly the nodes whose box strictly holds the point |
| RegionIndex.Index.Locate | source/spacial/index.cc:95-112 | A region found holds the point within its bounds, and nothing is found only if no region's bounds do |
| RegionIndex.Index.Build | source/spacial/index.cc:127-133 | The index is built exactly when the sources have distinct names, and then holds their regions in order |
| Text.IEqualsMeaning | source/spacial/index.cc:75-75 | Two names are equal case-insensitively exactly when each pair of characters is equal or the two cases of one letter |
| Text.TrimMeaning | source/spacial/index.cc:60-71 | Trimming takes off the blanks at both ends and those only |
| Text.IsSpaceMeaning | source/spacial/index.cc:60-71 | Blank are the space and the five control characters from tab to carriage return |
| Lines.TextStream.GetLine | source/spacial/index.cc:58-58 | Reading a line takes the text up to the next newline; the end of the text and an empty read are flagged as std::getline does |
| Lines.LinesOfUnlines | source/import/region_reader.cc:58-58 | Lines written out with newlines are read back as the same lines |
| Lines.LinesRebuildText | source/spacial/index.cc:58-58 | The lines and the remainder of a text rebuild it |
| PolyFile.ToPolygon | source/spacial/index.cc:19-87 | The reading loop computes the polygon the line-by-line machine describes |
| PolyFile.StaysSane | source/spacial/index.cc:63-73 | Depth never falls below zero, surplus END lines included, and outside documents no name is remembered |
| PolyFile.OutputAppends | source/spacial/index.cc:75-81 | Points read before neither change nor influence those read later |
| PolyFile.BalancedComposes | source/spacial/index.cc:57-83 | After a balanced part the machine starts afresh: the polygons of the parts are concatenated |
| PolyFile.ClosedTextComposes | source/spacial/index.cc:57-83 | The same for texts, when the first ends with a newline |
| PolyFile.BlankLinesDoNotMatter | source/spacial/index.cc:60-62 | Texts that differ in blank lines only give the same polygon |
| PolyFile.NeutralLinesDoNotMatter | source/spacial/index.cc:63-82 | A point line anywhere but directly in a section, and an END when nothing is open, can be put in or taken out without effect |
| PolyFile.PointReadsBack | source/spacial/index.cc:76-80 | A printed point line, longitude first, reads back as the point |
| PolyFile.UnreadableIsZero | source/spacial/index.cc:76-80 | A number that cannot be read, and the one after it, is zero |
| PolyFile.SectionReadsBack | source/spacial/index.cc:63-82 | A section adds its points exactly when the document's name matches |
| PolyFile.EndCloses | source/spacial/index.cc:65-68 | A line that starts with END, whatever follows, closes one level, and the document with the last |
| PolyFile.NestedPartsAreIgnored | source/spacial/index.cc:63-82 | A part nested in a section, at any depth, changes nothing |
| PolyFile.DocumentReadsBack | source/spacial/index.cc:63-82 | A document yields the points of all its sections exactly when its trimmed title matches the name, and ends at depth zero |
| PolyFile.PrintThenRead | source/spacial/index.cc:19-87 | Printing well-formed documents and reading for a name gives exactly the points of the documents of that name, in order |
| Decimal.DecimalsReadBack | source/spacial/index.cc:76-79 | Signed decimals with seven places are a number format that reads back |
| Protocol.StepKeepsInv | source/routing/worker.cc:124-168 | Every step of every worker, whatever the bodies hold, keeps the queue a partition of the messages, every record the verdict of a message that goes under its id, and every worker's metadata what its message reads as; no record or receipt disappears |
| Protocol.MessagesAreConserved | source/routing/scheduler.cc:54-159 | Every scheduled message is exactly one of visible, in flight and deleted, whatever the bodies hold |
| CompleteRuns.WholeWayRuns | source/routing/worker.cc:124-168 | From any state with an idle worker, a new message with a verdict can be brought to its record |
| CompleteRuns.AnUndisturbedTripIsAnswered | source/routing/worker.cc:137-158 | From any reachable state in which a worker, one of many, was handed an accepted trip there is a run to a ready record under its account; the message ends deleted unless it brings a receipt handle |
| RecordFinality.RecordsThereCanBe | source/routing/worker.cc:137-165 | A record can come to stand under an id if and only if some message that goes under that id has it as its verdict |
| RecordFinality.RecordsAreFinalIff | source/routing/worker.cc:137-165 | The record under an id never changes, in any run, if and only if no two messages that go under the id disagree |
| RecordFinality.FinalForEveryEngineIff | source/routing/worker.cc:27-165 | All records are final whatever the engine finds if and only if no two different requests go under one id; if persisting lacks its fields, if and only if no two for different accounts do |
| RecordFinality.SentIdOverwritesARecord | source/routing/scheduler.cc:118-124 | The run in which a message that brings another's id turns that one's ready record into a failed one |
| RecordFinality.RecordsAreFinal | source/routing/worker.cc:141-165 | If no body brings an id or a receipt handle, a record under a real id never changes in status or account; it is ready only for an accepted routing, failed only for one that threw, and it is its own message's |
| RecordFinality.AnswersAreFinalIff | source/services/trip.cc:65-115 | The answers for an id, other than pending, never change in any run if and only if the verdicts under that id agree in status and, up to case, in account |
| RecordFinality.ReadAlikeMeaning | source/services/trip.cc:86-113 | Two records agree in status and, up to case, in account exactly when every caller gets the same answer from both |
| RecordFinality.AnswersAreFinal | source/services/trip.cc:65-115 | A final answer is right: the account the request names sees ready or failed as the routing ended, others are not authorised; with plain bodies the request is the one the id stands for |
| Deletions.StepKeepsDeletions | source/routing/worker.cc:124-168 | Every step, whatever the bodies hold, keeps every deletion accounted for by a message that did not parse or by one that was routed and, if accepted, recorded |
| Deletions.DeletionsHaveReasonsIff | source/routing/worker.cc:137-165 | In every run every deleted message did not parse, threw in routing or has a ready record, if and only if whatever can delete a message that routes leaves a ready record under its id which no message can spoil |
| Deletions.ReasonsForEveryEngineIff | source/routing/worker.cc:27-165 | That holds whatever the engine finds if and only if parsing messages bring no handle beside others, go under no id of another that can complete, and under their own if they can complete; if persisting lacks its fields, if and only if none brings a handle beside a different one |
| Deletions.PlainDeletionsHaveReasons | source/routing/worker.cc:137-165 | If no body brings an id or a receipt handle, a deleted message did not parse, threw in routing or has a ready record |
| Deletions.DeletionsThereCanBe | source/routing/scheduler.cc:97-159 | A message can leave the queue if and only if it does not parse, or has a verdict and brings no receipt handle, or some message with a verdict brings one |
| Deletions.RefusedStaysQueuedIff | source/routing/worker.cc:147-164 | A message whose response is refused never leaves the queue, in any run, if and only if no message with a verdict brings a receipt handle |
| Deletions.RefusedHasNoRecordIff | source/routing/worker.cc:147-164 | The id of a message whose response is refused never gets a record, in any run, if and only if no other message with a verdict goes under it |
| Deletions.ForeignDelete | source/routing/scheduler.cc:118-124 | The run in which a message that brings the receipt handle of another takes that one off the queue |
| Deletions.RefusedStaysPending | source/routing/worker.cc:147-164 | If no body brings an id or a receipt handle, a message whose response is refused never gets a record and never leaves the queue |
| Deletions.NothingReadyWithoutFields | source/routing/worker.cc:27-63 | If persisting lacks its fields no record is ever ready, whatever the bodies hold |
| LostFailures.FailedDeleteIsTriedAgain | source/routing/scheduler.cc:83-95 | A delete that does not take leaves the message in flight, from where an idle worker can receive it again |
| LostFailures.CrashLosesAFailureIff | source/routing/worker.cc:159-165 | In the run that dies between delete and record the failed trip's message is gone, and no future writes a record under its id if and only if no other message with a verdict goes under it |
| LostFailures.ForgottenForEver | source/routing/worker.cc:159-165 | A deleted message without a record and without a worker never gets one, unless another message goes under its id |
| Scheduler.TripScheduler.ScheduleTrip | source/routing/scheduler.cc:54-81 | A sent request is visible under the id promised; a failed send changes nothing |
| Scheduler.TripScheduler.DeleteMessage | source/routing/scheduler.cc:83-95 | A delete removes the message of a known receipt if it takes, and otherwise changes nothing and reports nothing |
| Scheduler.TripScheduler.PollTripRequest | source/routing/scheduler.cc:97-141 | A message that parses is in flight and handed out, with an id and a handle of its own winning over the queue's; one that does not is deleted on the spot |
| Scheduler.TripScheduler.CompleteTrip | source/routing/scheduler.cc:143-153 | Completing deletes by the response's receipt |
| Scheduler.TripScheduler.DiscardTrip | source/routing/scheduler.cc:155-159 | Discarding deletes by the kept metadata's receipt |
| Scheduler.TripTable.PersistCompleteTrip | source/routing/worker.cc:27-73 | Writes the ready record or throws; a write can take effect and still be reported as failed |
| Scheduler.TripTable.PersistDiscardedTrip | source/routing/worker.cc:75-103 | Writes the failed record, or fails in silence |
| Scheduler.TripTable.PollTrip | source/services/trip.cc:42-115 | The status call answers by the record, after checking the id and the account |
| Scheduler.ProcessNext | source/routing/worker.cc:125-167 | One pass of the worker's loop changes queue and table by exactly the steps of that worker that the arrival, the routing and the remote calls determine, from idle to idle; the deleted receipt and the records left are stated outright |
| Scheduler.ProcessRequest | source/routing/worker.cc:132-165 | Once a request is handed out, the pass leaves these records and deletes by this receipt: its own, unless the failure comes after the hand-over |
| Scheduler.TryRoute | source/routing/worker.cc:137-158 | The try block does exactly the steps up to where it throws, throws exactly as stated, and from the hand-over on the kept metadata is empty |
| Scheduler.PersistAndComplete | source/routing/worker.cc:151-158 | Persists and, unless that throws, completes: exactly these steps |
| Scheduler.HandleFailure | source/routing/worker.cc:159-165 | The catch block deletes first and records afterwards, with what the kept metadata still holds: exactly these two steps |
| Background.StampedIdAndHandle | source/routing/scheduler.cc:120-123 | A polled document's id and receipt handle are the queue's unless it brought its own |
| Background.StampKeepsRequest | source/routing/scheduler.cc:120-123 | Stamping decides neither whether a document is a request nor its trip, region or account |
| Background.PollMessage | source/routing/scheduler.cc:117-128 | Parsing, stamping and reading a message gives exactly the metadata the state machine takes it to have, and fails exactly on what is not a request |
| Background.QueuedBodyIsPlainIff | source/services/trip.cc:119-157 | A queued body brings no id and no receipt handle if and only if the client's request names none |
| Background.QueuedBodyIsTheCallersIff | source/services/trip.cc:127-130 | A queued trip's record goes under the caller's account if and only if the request names no other |
| Background.RoundTripsAreNeverReady | source/routing/worker.cc:141-165 | No queued round trip is ever ready, and one whose ends meet has no record, if no other message goes under its id; the latter stays in the queue if no message with a verdict brings a receipt handle |
| Background.MeetingEndsStayUnanswered | source/routing/worker.cc:141-165 | A queued round trip whose ends meet never gets a record if and only if no other message with a verdict goes under its id, and never leaves the queue if and only if no message with a verdict brings a receipt handle |
| Background.BecomesReadyIff | source/routing/worker.cc:141-158 | A request scheduled by itself can get a ready record if and only if persisting finds its fields, the region's engine finds a trip to build, there are three or more waypoints with different end ids, and the trip has a geometry |
| Background.BecomesFailedIff | source/routing/worker.cc:159-165 | It can get a failed record if and only if the region has no engine or the engine finds no trip to build |
| Background.RecordsTellTheRouting | source/routing/worker.cc:141-165 | Every record stems from a message that goes under its id and is under that one's account; it is failed exactly when the region's engine found no trip to build, and a ready one is of a one-way trip with a geometry |
| Background.AsWrittenNothingIsReady | source/routing/worker.cc:37-41 | With the response document as written no trip is ever ready |
| Admission.InvokeSync | source/services/trip.cc:173-214 | A request with a readable location is located in a region that contains it, and is answered as InvokeIn says for that region |
| Admission.InvokeIn | source/services/trip.cc:185-213 | Only a trip of 3 to the maximum of waypoints, all within the located region, reaches an engine; the answer holds its waypoints in the engine's order with the engine's legs and geometry; every rejection and every routing error has its cause |
| Admission.AskEngine | source/services/trip.cc:211-213 | Once admitted, the trip is built and answered, or fails, exactly as the region's engine decides |
| Answers.AnswerTellsTheTrip | source/services/trip.cc:211-213 | The answer reads as the trip in the engine's order, with the engine's geometry |
| Answers.AnswerTellsTheLegs | source/services/trip.cc:211-213 | The answer has a leg from each waypoint to the next, with the engine's distance and duration cut to whole units |
| Admission.AllWithin | source/services/trip.cc:201-210 | A trip passes only if the region contains all its waypoints, and fails only on a waypoint in no region or another one |
| Admission.ReadRequest | source/routing/trip.cc:269-281 | A request is read exactly when all parts can be read and its checks hold |
| Admission.IsRequestIff | source/routing/trip.cc:269-281 | Which documents are requests, field by field |
| Admission.RequestReadsBack | source/routing/trip.cc:269-281 | A document made of a trip and its metadata is a request if and only if the trip has three or more waypoints and real ends, and region, account and time are given |
| Admission.LocationReadsBack | source/spacial/coords.cc:51-56 | The location of a request reads back with latitude and longitude in their places |
| Admission.AddedRegion | source/services/trip.cc:186-190 | The region read from a stamped request is the one it already carried, if any, else the one added |
| Admission.AddedAccount | source/services/trip.cc:182-185 | The account read from a stamped request is the one it already carried, if any, else the caller's |
| Admission.AddedId | source/services/trip.cc:181-185 | The id read from a stamped request is the one it already carried, if any, else the one added |
| Admission.AddedTime | source/services/trip.cc:183-185 | The creation time read from a stamped request is the one it already carried, if any, else the one added |
| Admission.EngineIsOfTheLocatedRegion | source/services/trip.cc:189-212 | The engine is that of the located region if and only if the request carried no other region's name |
| Admission.StampedTripIsTheSame | source/services/trip.cc:186-190 | Stamping a request leaves its trip alone |
| Admission.InvokeAsync | source/services/trip.cc:119-154 | What the asynchronous call queues is an admitted trip of the region its location lies in; every rejection has its cause |
| Admission.Admit | source/services/trip.cc:130-154 | A stamped request passes only as an admitted trip, and is rejected with the first cause |
| Admission.AsyncFields | source/services/trip.cc:127-129 | Account, region and the time under `create_at` of a queued request are the server's unless it brought its own; its creation time, id and receipt handle are whatever it brought |
| Admission.AsyncAcceptsIff | source/services/trip.cc:126-133 | A request is one after the asynchronous call stamped it if and only if it is one after the synchronous call stamped it and it brought a `meta.createdat` of its own |
| Admission.AsyncNeedsACreationTime | source/services/trip.cc:126-133 | A request without a readable `meta.createdat` of its own is not a request after the asynchronous call stamped it |
| Admission.QueuedAccountIsTheCallers | source/services/trip.cc:127-130 | The account read from a queued request is the caller's if and only if it brought no other |
| Json.AddedIsFoundLast | source/services/trip.cc:186-189 | Adding at a path that exists does not change what is read there |
| Json.ReadChildren | source/routing/trip.cc:26-41 | Reading a list takes every child in order and fails on the first that cannot be read |
| Json.ListReadsBack | source/routing/trip.cc:126-131 | A list written element by element is read back element by element |
| Json.ListIsReadIff | source/routing/trip.cc:26-41 | A list can be read if and only if all its children can, as what they read, in order |
| Json.IntReadsBack | source/model/address.cc:24-40 | Integers survive the tree |
| Json.ShowIntMeaning | source/model/address.cc:37-48 | An integer is written as a minus exactly if it is negative, and digits worth its size without leading zeros |
| TripJson.BuildingToJson | source/model/address.cc:37-48 | The building's document, field by field |
| TripJson.BuildingReadsBack | source/model/address.cc:22-48 | A building reads back without its country and with rounded coordinates |
| TripJson.BuildingIsReadIff | source/model/address.cc:22-35 | Which documents read as a building, and as which: the zip code may be missing |
| TripJson.BuildingErrors | source/model/address.cc:22-35 | A building fails for lack of a text or for a number that cannot be read |
| TripJson.WaypointToJson | source/routing/waypoint.cc:41-58 | The waypoint's document, without empty phone numbers and notes |
| TripJson.WaypointReadsBack | source/routing/waypoint.cc:24-58 | A waypoint reads back with empty phone number and notes absent |
| TripJson.WaypointHolds | source/routing/waypoint.cc:41-58 | The waypoint's document holds the texts that are there and not empty, and the input method |
| TripJson.WaypointIsReadIff | source/routing/waypoint.cc:24-30 | Which documents read as a waypoint, and as which |
| TripJson.LegToJson | source/routing/waypoint.cc:60-68 | The leg's document |
| TripJson.LegIsHeld | source/routing/waypoint.cc:60-68 | Each of the four figures of a leg is found under its own name |
| TripJson.TripToJson | source/routing/trip.cc:120-135 | The trip's document: both ends and the waypoints between them in order |
| TripJson.TripIsHeld | source/routing/trip.cc:120-135 | The starting point, the final point and the waypoints between them in order are found under their names |
| TripJson.TripFromJson | source/routing/trip.cc:80-97 | Reading a trip merges both ends and the list; a trip read has at least two waypoints |
| TripJson.TripIsReadIff | source/routing/trip.cc:80-97 | Which documents read as a trip, and as which: starting point first, final point last |
| TripJson.TripErrors | source/routing/trip.cc:80-97 | A trip fails for lack of a child or for what one of its waypoints fails |
| TripJson.TripReadsBack | source/routing/trip.cc:80-135 | A written trip reads back as the same waypoints in order, in normal form; writing and reading that changes nothing |
| TripJson.OptimizedToJson | source/routing/trip.cc:211-221 | The optimised trip's document: the trip's, then legs and geometry |
| TripJson.OptimizedReadsBack | source/routing/trip.cc:211-221 | It reads back as a trip in its optimised order |
| TripJson.LegsAndGeometryAreHeld | source/routing/trip.cc:211-221 | All legs in order, and the geometry, are found under their names |
| TripJson.ResponseLacksPersistedFields | source/routing/trip.cc:345-351 | No response document has the children persisting reads |
| RowIterator.BuildingRecordIterator.constructor | source/import/region_reader.cc:19-27 | A new iterator has all rows of the file before it |
| RowIterator.BuildingRecordIterator.Step | source/import/region_reader.cc:54-111 | Reads on to the next row, consuming at least one line, or resets the iterator at the end |
| RowIterator.BuildingRecordIterator.Next | source/import/region_reader.cc:54-111 | Drops exactly the current row from the rows still to come |
| RowIterator.SplitCells | source/import/region_reader.cc:71-73 | A line is cut at its semicolons, with nothing after a last one |
| RowIterator.CellsOfJoined | source/import/region_reader.cc:71-73 | Joined cells are read back, whether or not the last one is closed |
| RowIterator.RowReadsBack | source/import/region_reader.cc:75-95 | A building written as a row is read back, or skipped exactly if incomplete |
| RowIterator.IsRowIff | source/import/region_reader.cc:75-107 | A line is a row if and only if it has exactly eight cells, the first three numbers, and a city, a street, a house number and a positive coordinate |
| RowIterator.RowsReadBack | source/import/region_reader.cc:54-111 | Buildings written out as rows are read back, all that are complete, in order |
| RowIterator.NoRowDoesNotMatter | source/import/region_reader.cc:75-107 | A line that is no row can be put in or taken out anywhere |
| RowIterator.UnterminatedLineIsIgnored | source/import/region_reader.cc:58-69 | Whatever follows the last newline is not read |
| RowIterator.ReadAll | source/import/region_reader.cc:52-137 | Stepping while valid yields exactly the rows of the terminated lines, in order, all of them complete |
| Duration.PrintDuration | tools/geomodel/train.h:14-48 | For times above zero the text has one token for every unit from the first nonzero count on, number then suffix, blanks between them; it is empty otherwise; it reads back as the time exactly for times that are not negative |
| Duration.PrintCounts | tools/geomodel/train.h:26-47 | The five blocks print all units from the first nonzero one on |
| Duration.RenderIsTokens | tools/geomodel/train.h:26-47 | From the first nonzero count on there is a token for each of the five units, those of count zero included |
| Duration.CountsAreTheMixedRadixDigits | tools/geomodel/train.h:20-24 | The counts are in range and worth the time, and are the only such counts |
| Duration.RenderReadsBack | tools/geomodel/train.h:26-47 | The text reads back to the millisecond and does not start with a zero |

## Left out

- OSRM, R-tree internals, geodesic geometry, AWS clients, SQLite, Torch, JWT and archive handling: foreign code, behind parameters and contracts.
- HTTP and WebSocket sessions, key refresh, downloads, configuration, logging, geocoding, the NER data set: plumbing, or only easy members.
- trip.async: its answer, the promise with its times; what it queues is `Admission.InvokeAsync`'s result, sent by `Scheduler.TripScheduler.ScheduleTrip`.
- Protocol.MessagesAreConserved: the queue service's rare redelivery of a message it already deleted is not an action; delivery again after a time-out at any moment is.
- RecordFinality.AnswersAreFinal: records always carry an account and a status, as the workers write them; the other columns of a record (time stamp, region, texts, cost) are not modelled, and the time stamp does change when a redelivered trip is written again.
- Records under the empty id, which the service refuses to write, are left open by the results about records.
- Progress of the protocol, timings and estimated arrivals: nothing in the code guarantees them.
- Admission.InvokeSync: a request located in no region is excluded, because the code dereferences the result unchecked.
- RowIterator.BuildingRecordIterator.Next: copying iterators, comparing them and the past-the-end sentinel; iteration is driven by the conversion to bool. A missing file is not modelled.
- Reordering.Reorder: the narrowing of an index to int, which matters beyond 2^31 waypoints.
- Cost.TotalFitsInt: the engine's own figures are taken to fit an int when truncated; durations are 64-bit and not bounded.
- PolyFile.ToPolygon: the debug assertion that some point was read; number extraction is a parameter, with `Decimal` as one instance (no exponents); numbers too large for a double.
- Text comparison: case and blanks as in ASCII.
- extract_waypoint and find_waypoint: not called anywhere.
- JSON text: documents are trees; writing them as characters and parsing them again is not modelled.
- trip_metadata to JSON: what a response says of its metadata is a parameter of `AsWrittenNothingIsReady`.
