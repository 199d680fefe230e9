# What the boop model proves

boop coordinates coding agents over one mailbox, one append-only delivery ledger and
a terminal multiplexer. This project models its hardest logic in Dafny and proves
what its comments and tests promise. It stands beside the repository and checks with
`dafny verify dfyconfig.toml`.

The model follows the program's own form: code that updates fields is a class whose
methods are proved against a step function, loops are loops with invariants, and code
made of expressions is functions with lemmas. What holds over whole runs or all
interleavings is stated about the step functions.

| files | what they model |
|---|---|
| `Ladder`, `DoorWords` | the delivery ladder, its ledger queries and door budget; which refusals cool a route off |
| `Admission`, `AdmissionTheorems`, `CommitPushTheorems` | any number of concurrent attempts over one store, one indivisible action at a time, with crashes anywhere |
| `Delivery`, `Drain`, `DrainTheorems` | the ladder's code as methods of a store, shown to be an undisturbed attempt of that system; the drain's pass; retiring a dead route |
| `Repeats` | runs that repeat an effect, and exactly when |
| `Traces`, `TraceTheorems`, `Order` | deriving traces from session observations and relations |
| `Calendar`, `CalendarText` | seconds to civil date to text, and text to milliseconds |
| `Snapshot` | recovering wrap flags from two readings of one grid |
| `Control`, `ControlTheorems`, `ControlText` | line framing from arbitrary chunks, and pairing reply blocks with commands |
| `HeadWatch`, `CommitRow` | coalescing commits into moves; the row a lane mails and the head read back out of it |
| `Reminder`, `ReminderTheorems`, `ReminderClaims` | reminder schedules over the mailbox; what each claim and retry sends |
| `Guard` | the memory guard of an agent |
| `IndexPool`, `ExactLookup`, `PathTails` | the shared-counter index pool and its merge; what matches, over path segments |
| `Shell` | the supervisor's command line, read by a POSIX tokenizer |

## How the concurrent model works

An attempt is a program counter over the actions of `deliver_hail_budgeted`: check
the reminder, take the lock, look for an earlier receipt, append, walk the ladder,
gate, push, record a failure trip, record the receipt, ack, file the commit push,
release. Each action reads or writes the shared tables once. What the outside answers
(transports, panes, hooks, configuration, clocks) is fixed for an attempt when it
starts but arbitrary, so the theorems hold for every answer. Any attempt may move
next, any may crash between two actions (which frees its lock), readers may ack rows,
and other writers may append rows that neither accept, paste nor push. No clock is
shared, and an attempt's message is already in the mailbox; all that is assumed of time is that one attempt stamps its receipt no earlier
than it read the clock at its gate.

## Where the code and its documentation differ

- `exact_matches` says a path belongs to the deepest group containing it. The code
  compares the directories as spelled, trailing slashes included, so this holds
  exactly when nested checkouts are spelled by depth (`ExactLookup.OwnerIsDeepestIff`).
- `rows_from_capture` calls its alignment exact. It is exactly when no wrapped group
  ends in a row of only whitespace (`Snapshot.WrapRecovery`); otherwise the walk stops
  early and a row of the group loses its flag (`Snapshot.BlankContinuationMisleads`).
- `deliver_hail_budgeted` says a commit row joins the commit ledger the moment the
  door takes it. A crash can fall in between, and the attempt that repairs the ack
  leaves the commit ledger as it is (`AdmissionTheorems.NextAttemptRepairs`), so the
  same head is pushed again in another message: `Repeats.CrashRepeatsPush` is the run,
  for every lane, subscriber and body. `CommitPushTheorems.OnePushPerHead` says that a
  crash is the only way, and `Repeats.PushesAgainIff` that a body goes over exactly
  when no earlier effect stands for its head.
- `iso_to_ms` reads what `rfc3339_now` prints up to the year 9999 and not beyond
  (`CalendarText.RoundTripEnds`).
- `door_transport_failure` says a busy door is not cooled off, and the ladder that only
  a transport failure cools a route off. The text searched holds the names of door and
  route, so a door that is merely busy cools off a route called `socket`
  (`DoorWords.RouteNameTrips`, exactly when by `DoorWords.DeclinedTripsIff`).
- The ladder reads a hold as nothing delivered. Text typed at a prompt whose submit key
  is then refused lands as a mailbox hold, so the next attempt types it again without
  any crash (`Ladder.LeftTypedIff`, `Repeats.TypesAgain`); it is the one exception but
  a lost receipt to one effect a delivery (`AdmissionTheorems.AtMostOneEffect`).
- `chrono_lite` says it answers none on any shape mismatch. It does not look at the
  separators or at what follows the seconds but a fraction, so a zone offset is read as
  if it were the `Z` (`CalendarText.OffsetIgnored`).
- A `%output` notice is meant to name its pane. The line is split at the blank after the
  word, so the pane is always read as empty and joins the text
  (`ControlText.NoticeNamesNothing`, exactly when by `ControlText.PaneIsReadIff`); no
  command's answer depends on it.
- `commit_head` returns the first range it meets, so a lane named with `..` gets its
  own name's tail (`CommitRow.HeadReadBackIff`); slugged names never have one.

## Model

| member | source | states |
|---|---|---|
| Ladder.WalkTells | crates/boop-proc/src/deliver.rs:600-705 | every landing short of a door: the row it records makes the ledger call the message accepted exactly when the body itself reached the recipient, pasted exactly when a notice did, and never reads as a door push |
| Ladder.PushTells | crates/boop-proc/src/deliver.rs:724-770 | a push a door or queue took is accepted, carries the body and counts against the budget; a declined one does none of the three, and a failure trip is stamped with the gate's clock (which answers take it is Delivery.DoorAnswers) |
| Ladder.GateTells | crates/boop-proc/src/deliver.rs:386-422 | a gated body lands in the cool-off, whose row accepts nothing and counts as no push |
| Ladder.BlowoutCools | crates/boop-proc/src/deliver.rs:386-422 | after a blown budget at some instant the route is cooling at t if and only if t is before the end of the cooldown from that instant, up to the end of the clock |
| Ladder.DoorReachedIff | crates/boop-proc/src/deliver.rs:600-705 | a message reaches a door exactly when its route has one to try and no rule keeps it in the mailbox: lanes, progress rows, and commit rows that are done, not wanted at the door or already pushed; and which door that is |
| Ladder.LandsWhere | crates/boop-proc/src/deliver.rs:600-714 | where a message lands short of a door, each landing exactly when: kept in the mailbox by kind, at a turn boundary, with an inbox hook, as a pane notice, submitted in a pane, or an error of the session lookup |
| Ladder.LeftTypedIff | crates/boop-proc/src/deliver.rs:908-942 | the body is left typed at a prompt exactly when a harness with a submit key took the text in a live pane and not the key |
| Ladder.Allowance | crates/boop-proc/src/deliver.rs:316-320 | the larger of the floor and the number of lanes that name the route as parent |
| Ladder.ContainsIff | crates/boop-proc/src/deliver.rs:795-811 | the search for a transport word finds it at whatever position it occurs |
| DoorWords.DeclinedTripsIff | crates/boop-proc/src/deliver.rs:746-811 | a door that declined trips its route exactly when the door's name, the route's name or the answer says one of the eleven transport words in any case, and none of the three says the exempting phrase; no word can straddle two of them |
| DoorWords.RouteNameTrips | crates/boop-proc/src/deliver.rs:746-795 | a live door that is merely busy, at a route called socket: the route cools off |
| AdmissionTheorems.FreshTripCools | crates/boop-store/src/ident.rs:362-367 | a trip written once earlier ones are over cools its route off for exactly its own term |
| AdmissionTheorems.AtMostOneEffect | crates/boop-proc/src/deliver.rs:484-552 | over every interleaving of senders and drains with crashes anywhere: an effect of a message at a route is followed by another only if its receipt was lost to a crash or it was a line left typed and unsubmitted; with neither, each delivery has at most one effect, whether a body, a pane notice or a typed line |
| AdmissionTheorems.AckNeedsReceipt | crates/boop-proc/src/deliver.rs:501-538 | the ladder acks a mailbox row only once a ledger row says the body went over, and every receipted effect has its row |
| AdmissionTheorems.NoSecondCall | crates/boop-proc/src/deliver.rs:501-517 | once the ledger says a message was accepted or its notice pasted, no action of any attempt has an effect for it again |
| AdmissionTheorems.NextAttemptRepairs | crates/boop-proc/src/deliver.rs:501-507 | a crash between receipt and ack is repaired by the next attempt that gets the lock: four actions stamp the row, with no transport call, no ledger row and no commit push |
| AdmissionTheorems.WindowBound | crates/boop-proc/src/deliver.rs:340-380 | for every push row of every run: the pushes of its route in the window that ends with it, itself included, never exceed the allowance of its gate, and no other push of its body lies in that window |
| AdmissionTheorems.CoolOffsApart | crates/boop-proc/src/deliver.rs:348-422 | cool-offs of one route never overlap, whether the budget or a dead door tripped them, and every push was gated after each trip then on record had ended |
| AdmissionTheorems.NextKeeps | crates/boop-proc/src/deliver.rs:469-552 | every step of the system (an action, a crash, a new attempt, a reader's ack, another writer's row) keeps the whole invariant behind these theorems |
| AdmissionTheorems.NewestCovers | crates/boop-store/src/ident.rs:3540-3562 | the newest trip by instant and record order ends no earlier than any trip of its route, so reading one row decides the cool-off |
| AdmissionTheorems.OpenGateSaw | crates/boop-proc/src/deliver.rs:340-380 | an open gate means fewer pushes than the allowance and no push of this body in its window, and every trip of the route over |
| AdmissionTheorems.PushKept | crates/boop-proc/src/deliver.rs:715-718 | a receipt stamped no earlier than its gate's clock keeps the window bound the gate established |
| AdmissionTheorems.ActSane | crates/boop-proc/src/deliver.rs:469-552 | each action of an attempt hands on a landing whose row tells its effect, with the gate it went through exactly when it is a push |
| AdmissionTheorems.ActSeen | crates/boop-proc/src/deliver.rs:469-552 | what an attempt saw of the ledger before each action still holds when its next action relies on it |
| AdmissionTheorems.RunProcs | crates/boop-store/src/bus.rs:727-747 | the lock is enough: while one attempt moves, what every other attempt saw of the ledger stays true |
| CommitPushTheorems.OnePushPerHead | crates/boop-proc/src/deliver.rs:539-549 | over every interleaving: two bodies of one head of a lane at one subscriber, in whatever messages, mean a crash between a transport's answer and the filing of the commit push; a receipted body is on file or its attempt is about to file it (the repeat itself is Repeats.CrashRepeatsPush, its exact condition Repeats.PushesAgainIff) |
| CommitPushTheorems.OnFileIff | crates/boop-proc/src/deliver.rs:539-549 | in every reachable state with the subscriber's lock free, a head is in the commit ledger if and only if some body of it went over, was receipted and was not cut short of its filing |
| Repeats.PushesAgainIff | crates/boop-proc/src/deliver.rs:611-636 | in every reachable state, an attempt of a commit that nothing else stops (lock free, reminder live, no earlier receipt or notice, an open door) puts the body in front of the subscriber if and only if the transport takes it and no earlier effect stands for its head; otherwise it has no effect |
| Repeats.BodyGoesOverIff | crates/boop-proc/src/deliver.rs:724-771 | an attempt that nothing in admission stops, at an open door, adds a body entry if and only if the answer is injected or queued, or acpx replied, and of a commit the head is not on file |
| Repeats.CrashRepeatsPush | crates/boop-proc/src/deliver.rs:539-549 | for every lane, subscriber and body: a run from the start in which the first body is receipted, the process dies before the filing, and a second message with the same head goes over as well, nothing lost |
| Repeats.TypesAgain | crates/boop-proc/src/deliver.rs:908-942 | from any state in which an attempt would leave its text typed, a run without any crash ends with the text typed twice, the first receipted as a mailbox hold |
| Repeats.TypedTwice | crates/boop-proc/src/deliver.rs:908-942 | the same from the start of a run, for every plain hail to a pane whose submit key is refused |
| CommitPushTheorems.WalkChecks | crates/boop-proc/src/deliver.rs:611-636 | a commit row whose head is on file is never handed over |
| Delivery.Store.DoorGate | crates/boop-proc/src/deliver.rs:386-422 | answers the landing the verdict calls for and writes a trip exactly for a fresh blowout; it pushes exactly when no trip is in force, the window holds fewer pushes than the allowance and none is this body's, and a fresh trip cools the route for exactly the cooldown |
| Delivery.Store.Admit | crates/boop-proc/src/deliver.rs:477-528 | the reminder, the lock, the earlier receipts and the opening row leave the tables and the answer the attempt's own actions leave |
| Delivery.Store.WalkAndPush | crates/boop-proc/src/deliver.rs:600-771 | the ladder with its gate, push and failure trip leaves the tables the attempt's own actions leave |
| Delivery.Store.DeliverHail | crates/boop-proc/src/deliver.rs:469-552 | the code from start to end is the attempt's actions run one after the other: the same tables and the same landing, with the lock free or taken; and outright: the early stops, the landings and cool-offs short of a push, and what each answer of an open door comes to |
| Delivery.SystemRefinesDelivery | crates/boop-proc/src/deliver.rs:469-552 | an attempt of the interleaved system that nobody disturbs runs to its end and leaves exactly the tables of one delivery |
| Delivery.DeliveryShape | crates/boop-proc/src/deliver.rs:469-552 | all a delivery can do to mailbox and ledger: one hold row unlocked; nothing but an ack; the opening row alone on an error; or the opening row, the receipt, and an ack exactly when the body was carried |
| Delivery.DoorAnswers | crates/boop-proc/src/deliver.rs:724-771 | at an open door, answer by answer: injected, queued and an acpx reply leave the rows (accepted-by-harness, door), (held-for-turn-boundary, door queue) and (accepted-by-harness, acpx queue), the ack, a commit's filing and nothing else; a refusal leaves its hold, and a cool-off if it reads as a dead transport; acpx without a reply is an error after the opening row |
| Delivery.EarlyAlone | crates/boop-proc/src/deliver.rs:477-517 | what admission alone comes to: a lost reminder or a taken lock writes its hold at once, an earlier receipt is acked again, an earlier notice changes nothing |
| Delivery.OpenDoorDelivers | crates/boop-proc/src/deliver.rs:508-549 | at an open door a fresh message is carried, acked and accepted in the ledger if and only if the answer is injected or queued, or acpx replied, and it errs exactly when acpx gave no reply |
| Delivery.WalkStates | crates/boop-proc/src/deliver.rs:125-150 | a landing's recorded state differs from its rung's only for a pane that took and submitted the body |
| Drain.DrainRouteHeldMail | crates/boop-proc/src/deliver.rs:1098-1174 | one pass leaves the tables and the count of the pass specification, which is stated again without it: see Drain.PassIs |
| Drain.PassIs | crates/boop-proc/src/deliver.rs:1145-1174 | with k the first pushable row whose attempt lands as a cool-off or a mailbox hold, or the end: the rows before k and k itself are each attempted once, in order, on the tables the previous one left, none after k, the count is the number carried, and the rest are retired exactly when k's hold names a dead session and has reached the bound |
| DrainTheorems.EveryDoorTakes | crates/boop-proc/src/deliver.rs:1145-1174 | a pass in which every row finds its lock free and an open door that takes it attempts every row, leaves each acked and counts them all |
| Drain.HeldRows | crates/boop-store/src/bus.rs:327-372 | gathers the pushable rows of the specification, oldest first |
| DrainTheorems.PushableIff | crates/boop-proc/src/deliver.rs:1129-1144 | a row is pushed exactly when it is the route's, unread, not accepted, pasted, pushed or retired there, no reminder's, and no progress row other than an unfinished commit for a subscriber in door mode |
| Drain.RetireHeld | crates/boop-proc/src/1_dead_route.rs:75-106 | appends one route-dead row for each held row, in order, and nothing else |
| DrainTheorems.DeliveryCools | crates/boop-proc/src/deliver.rs:469-552 | a delivery writes one cooled-off row exactly when it lands in the cool-off |
| DrainTheorems.OneCooledRowPerPass | crates/boop-proc/src/deliver.rs:1146-1155 | one pass writes at most one cooled-off row, however many rows it pushes |
| DrainTheorems.PassCounts | crates/boop-proc/src/deliver.rs:1145-1174 | over distinct unread rows a pass reports exactly the number of mailbox rows it stamped |
| DrainTheorems.DeadHoldCounts | crates/boop-proc/src/1_dead_route.rs:33-45 | a hold that names a dead session counts once, for its own message, and leaves mailbox and every other row as they were |
| DrainTheorems.AbsentLandsDead | crates/boop-proc/src/deliver.rs:684-712 | a hail to a route whose harness has no live session and no hook lands as a hold that names a dead session |
| DrainTheorems.DeadDoorLandsDead | crates/boop-proc/src/1_dead_route.rs:25-29 | so does one whose door's refusal reads as a dead transport |
| DrainTheorems.TickHoldsOnce | crates/boop-proc/src/deliver.rs:1146-1167 | below the bound, a pass whose first row lands dead adds exactly one hold to that oldest row and disturbs nothing else |
| DrainTheorems.TickRetires | crates/boop-proc/src/1_dead_route.rs:47-73 | at the bound, the pass marks every row it would push route-dead and leaves nothing pushable |
| DrainTheorems.OldestStays | crates/boop-store/src/bus.rs:327-345 | mail arriving between passes does not displace the oldest pushable row |
| DrainTheorems.DeadRouteRetires | crates/boop-proc/src/1_dead_route.rs:47-106 | over passes that all land dead, with mail arriving in between: after exactly the attempts the oldest row has left, every row pushable at the start is route-dead and nothing is left to push |
| Traces.DeriveTraces | crates/boop-store/src/0_trace_identity.rs:130-252 | the whole answer for every input: the three budgets, the least ambiguous session by map order, or the derivation; the budget error inside the search is proved unreachable |
| Traces.Search | crates/boop-store/src/0_trace_identity.rs:201-227 | the worklist search ends although its queue may hold duplicates, and finds exactly the sessions a path reaches, with every relation that touches them |
| Traces.Partition | crates/boop-store/src/0_trace_identity.rs:198-250 | component after component until none is unseen: every session in one trace |
| Traces.RootOf | crates/boop-store/src/0_trace_identity.rs:231-240 | the member with the least (earliest observation, name), an unobserved one counting as latest |
| Traces.FirstAmbiguous | crates/boop-store/src/0_trace_identity.rs:175-182 | the first key in map order with several distinct endpoints, none exactly when there is none |
| Traces.SortByRoot | crates/boop-store/src/0_trace_identity.rs:250-251 | the same traces, by strictly ascending root |
| TraceTheorems.SameTraceIffConnected | crates/boop-store/src/0_trace_identity.rs:198-230 | the traces cover exactly the named sessions, and two sessions share one if and only if an undirected path of relations joins them |
| TraceTheorems.AtMostOneTrace | crates/boop-store/src/0_trace_identity.rs:228-230 | no session is in two traces |
| TraceTheorems.EvidenceConserved | crates/boop-store/src/0_trace_identity.rs:219-249 | all traces' evidence together is the input's relations, each as often as it occurs |
| TraceTheorems.EvidenceInside | crates/boop-store/src/0_trace_identity.rs:219-249 | a trace cites exactly the relations with both ends inside it |
| TraceTheorems.DerivationPermuted | crates/boop-store/src/0_trace_identity.rs:130-252 | permuting observations or relations changes nothing but the order of evidence |
| TraceTheorems.AnswerPermuted | crates/boop-store/src/0_trace_identity.rs:130-252 | permuted inputs are refused alike, for the same reason and session |
| TraceTheorems.ContinuationsAreLines | crates/boop-store/src/0_trace_identity.rs:163-182 | in an accepted input, sessions joined by continuations in any directions lie on one directed walk: the continuations form disjoint lines and rings |
| TraceTheorems.SimpleOrRing | crates/boop-store/src/0_trace_identity.rs:163-182 | in an accepted input a directed walk along continuations is simple or runs round one ring: its first p sessions are distinct and every later one is the one p before it |
| TraceTheorems.AcceptedIsUnambiguous | crates/boop-store/src/0_trace_identity.rs:135-182 | Ok exactly when the budgets hold and no session has two predecessors or two successors |
| TraceTheorems.AmbiguousIff | crates/boop-store/src/0_trace_identity.rs:135-182 | a session has several predecessors exactly when two continuations from different sessions meet at it, and several successors exactly when two part from it |
| Calendar.CivilIsValidAndInverts | crates/boop/build.rs:61-72 | for every integer day the date is a valid Gregorian date, and the parser's day count gives the day back |
| Calendar.DaysInvertsCivil | crates/boop-harness/src/transcript.rs:84-91 | every valid date is the date of its own day count |
| Calendar.CivilKeepsOrder | crates/boop/build.rs:61-72 | a day is earlier exactly when its date is earlier |
| Calendar.CivilFollowsTheCalendar | crates/boop/build.rs:61-72 | day 0 is 1970-01-01 and each next day has the next calendar date, in both directions without end |
| Calendar.EraOfDay | crates/boop/build.rs:64 | the adjusted truncating division is the floor of the day over 400-year eras, negative days included |
| Calendar.EraOfYear | crates/boop-harness/src/transcript.rs:86 | the adjusted truncating division is the floor of the year over 400 |
| CalendarText.RoundTrip | crates/boop-harness/src/transcript.rs:63-93 | for every second with a four-digit year the printed text parses to that second in milliseconds (sections 5.1 and 5.6 of RFC 3339) |
| CalendarText.TextOrderIsTimeOrder | crates/boop/build.rs:56-75 | for every pair of seconds with four-digit years, text order is time order |
| CalendarText.RoundTripEnds | crates/boop-harness/src/transcript.rs:71-93 | for every second from the epoch on, without bound, the round trip returns it if and only if its year has four digits |
| CalendarText.FiveDigitYearUnread | crates/boop-harness/src/transcript.rs:78-83 | a five-digit year shifts the fields and reads as 0 |
| CalendarText.NineDigitYearUnread | crates/boop-harness/src/transcript.rs:78-83 | a nine-digit year puts its own last digit and a hyphen in the day field and reads as 0 |
| CalendarText.ReadsNear | crates/boop-harness/src/transcript.rs:71-93 | whatever the text, the instant read is within 10^15 milliseconds of the epoch before the cast wraps a negative one |
| CalendarText.FractionReads | crates/boop-harness/src/transcript.rs:71-93 | three digits of milliseconds after the point are read, for every second with a four-digit year and every fraction |
| CalendarText.OffsetIgnored | crates/boop-harness/src/transcript.rs:71-93 | a zone offset in place of the Z is not read: for every second and every hour offset the text reads as if it had none |
| Snapshot.RowsFromCapture | crates/boop-mux/src/_0_snapshot.rs:128-170 | the grid: every captured row with its flag, its text exactly the row without trailing whitespace, then blank rows up to the viewport |
| Snapshot.TrimEndIs | crates/boop-mux/src/_0_snapshot.rs:157-163 | a row's text is a prefix of the captured row, does not end in whitespace, and drops only whitespace |
| Snapshot.StripsWhitespace | crates/boop-mux/src/_0_snapshot.rs:184-186 | stripping drops the whitespace and nothing else, character by character and piece by piece |
| Snapshot.MarkWraps | crates/boop-mux/src/_0_snapshot.rs:129-154 | the flags are those of the walk over the logical lines, in place |
| Snapshot.WalkLine | crates/boop-mux/src/_0_snapshot.rs:137-150 | where one logical line's walk stops |
| Snapshot.WrapRecovery | crates/boop-mux/src/_0_snapshot.rs:131-154 | if the joined view is the concatenation of consecutive groups of rows, the flags are set on precisely the non-first rows of each group if and only if no group of several rows ends in a blank one |
| Snapshot.RecoveredGrid | crates/boop-mux/src/_0_snapshot.rs:128-154 | the same, from the two captured texts of a grid of fewer than 65536 rows |
| Snapshot.BlankContinuationMisleads | crates/boop-mux/src/_0_snapshot.rs:128-154 | two concrete captures, a row wrapped into a blank one before another row: the recovered flags are not the true ones |
| Snapshot.CaptureReadsRows | crates/boop-mux/src/_0_snapshot.rs:174-180 | reading back the rows a capture printed gives the rows |
| Snapshot.WindowIsTheView | crates/boop-mux/src/_0_snapshot.rs:88-100 | the view is exactly the full screen of rows with the scrolled rows below it, or the topmost screen when there are fewer; none exactly for an empty grid |
| Control.NextLine | crates/boop-mux/src/2_control.rs:210-233 | for any chunking and any clock: a line handed out is the stream's next newline-ended line; while the reads succeed and the clock stays within the deadline there is one exactly when the stream has one; it times out exactly when its last look at the clock was past the deadline, and a closed stream has none left |
| Control.ControlClient.Command | crates/boop-mux/src/2_control.rs:143-194 | reads up to this command's own block and no further, answering its body or refusal; broken by a time-out or a failed read only if that struck on the last turn taken, so on a healthy connection it is answered, refused or told the stream closed |
| Control.ControlClient.Take | crates/boop-mux/src/2_control.rs:156-193 | one turn of the loop is the event handler's, the attach block skipped once |
| Control.ControlClient.NextEvent | crates/boop-mux/src/2_control.rs:132-136 | hands out the next event of the stream; on a healthy connection there is one exactly when the stream has one, and an error names what struck on the last turn taken |
| Control.PlainLineIsBody | crates/boop-mux/src/2_control.rs:29-69 | a line that does not begin with % is body text, only its line ends trimmed |
| ControlTheorems.LinesOfUnlines | crates/boop-mux/src/2_control.rs:210-233 | splitting undoes printing, and what follows the last newline is not a line |
| ControlTheorems.ScanBlock | crates/boop-mux/src/2_control.rs:156-193 | one whole block, with notifications before it, is the answer unless it is the attach block |
| ControlTheorems.KthCommandGetsKthBlock | crates/boop-mux/src/2_control.rs:143-194 | on an attach block followed by one block a command, the k-th command is answered by the k-th block, body or error, and leaves exactly the blocks after it |
| ControlText.HeadersParse | crates/boop-mux/src/2_control.rs:29-77 | a printed begin, end or error line parses to that event with its command number, whatever its time and flags |
| ControlText.NoticeNamesNothing | crates/boop-mux/src/2_control.rs:49-83 | every printed output or session-change notice is read with an empty pane or id and everything after the blank as one text |
| ControlText.PaneIsReadIff | crates/boop-mux/src/2_control.rs:79-83 | a pane or id is read exactly when it runs into the word without a blank |
| ControlText.ReplyIsBlock | crates/boop-mux/src/2_control.rs:29-69 | a printed reply whose content does not begin with % is read as its block, and the block's body is the content, line ends trimmed |
| ControlText.KthCommandFromText | crates/boop-mux/src/2_control.rs:143-233 | from the text itself: on an attach reply followed by one reply a command, and any part of a line after it, the k-th command is answered by the k-th reply's content lines or refused, and what is left is exactly the replies after it |
| ControlText.Commands | crates/boop-mux/src/2_control.rs:143-233 | k healthy commands issued one after the other on a fresh connection, each with its own clock, return the first k replies in order, content lines or refusal, and leave exactly the replies after them |
| ControlTheorems.AnswersFollowAttempt | crates/boop-mux/src/2_control.rs:143-194 | a finished answer, and what it leaves, is what the stream alone determines: which body, a refusal, or closed, each if and only if the scan of the stream says so |
| ControlTheorems.BodyIsWholeContent | crates/boop-mux/src/2_control.rs:185-192 | the body is the whole content if and only if every content event is body text |
| ControlTheorems.PlainContent | crates/boop-mux/src/2_control.rs:29-69 | content lines that do not begin with % come back whole, line ends trimmed |
| HeadWatch.Watch.constructor | crates/boop-proc/src/headwatch.rs:86-101 | the head at start is the baseline unless one was already reported |
| HeadWatch.Watch.Nudge | crates/boop-proc/src/headwatch.rs:103-105 | arms the next tick and changes nothing else |
| HeadWatch.Watch.Tick | crates/boop-proc/src/headwatch.rs:109-158 | one tick leaves the state and emits the move of the step specification |
| HeadWatch.MovesFormAChain | crates/boop-proc/src/headwatch.rs:109-158 | over every run each move starts where the previous ended, Advanced always reaches a descendant with its commit count, Rewound never a descendant |
| HeadWatch.AdvancesTelescope | crates/boop-proc/src/headwatch.rs:130-146 | consecutive advances count together exactly the commits in the ancestry of the last head and not of the first, in any graph |
| HeadWatch.RunTelescopes | crates/boop-proc/src/headwatch.rs:109-158 | the same for any stretch of advances of any run |
| HeadWatch.StepRemembers | crates/boop-proc/src/headwatch.rs:109-116 | a tick reads the head exactly when a nudge armed it or the reflog time moved, and git answers; it then remembers that head and the reflog time after reading it, and a nudge lasts until the next tick |
| HeadWatch.StepBurst | crates/boop-proc/src/headwatch.rs:117-158 | a head that does not descend from the reported one is a rewind at once; one that does opens or moves the burst from the reported head, dated now; nothing else touches the burst but its report |
| HeadWatch.AdvanceIsQuiet | crates/boop-proc/src/headwatch.rs:109-158 | over every run an advance ends at the last head read and comes no earlier than the quiet time after that head was read, with no other head in between |
| HeadWatch.CloseChangesShare | crates/boop-proc/src/headwatch.rs:109-158 | heads read closer together than the quiet time share one advance: none is sent between them |
| HeadWatch.BurstIsReported | crates/boop-proc/src/headwatch.rs:147-158 | an open burst whose head stays is reported exactly once, by the first tick a quiet time after its last change, and not before |
| HeadWatch.SteadyHeadIsReported | crates/boop-proc/src/headwatch.rs:109-158 | a head that stays put is reported, whether a nudge or a moved reflog announced it: a tick that reads it, then one a quiet time later, emit exactly the move from the reported head, a rewind at the first, an advance once quiet |
| Reminder.Store.Add | crates/boop-store/src/1_reminder.rs:33-69 | each refusal in the order the code checks, and otherwise the new schedule due one interval later |
| Reminder.Store.Claim | crates/boop-store/src/1_reminder.rs:110-152 | claims exactly when due, active and complete with no envelope in flight at the route; due time and envelope commit together, the envelope to the schedule's route with the schedule's text and reference |
| Reminder.Store.Retry | crates/boop-store/src/1_reminder.rs:156-189 | retries exactly a refused, unread, unaccepted envelope, with that same envelope |
| Reminder.Store.CancelSchedule | crates/boop-store/src/1_reminder.rs:91-93 | cancels exactly an active schedule |
| Reminder.Store.ExpireDue | crates/boop-store/src/1_reminder.rs:95-98 | expires exactly the active schedules whose end has come |
| Reminder.FindMail | crates/boop-store/src/1_reminder.rs:175 | the first envelope with the id, none exactly when there is none |
| ReminderTheorems.FiringBound | crates/boop-store/src/1_reminder.rs:110-189 | over every run, fire i of a schedule comes at least i+1 intervals after its creation and before its end, so there are at most (until - created - 1) / every fires |
| ReminderTheorems.OneActivePerRoute | crates/boop-store/src/1_reminder.rs:14-17 | at every moment of every run each route has at most one active schedule and at most 32 are active |
| ReminderTheorems.OnlyNewestOpen | crates/boop-store/src/1_reminder.rs:110-128 | over every run every claimed envelope but the newest of its schedule has a completion receipt or a reply, and a retry repeats the envelope before it |
| ReminderTheorems.ClaimsAreDistinct | crates/boop-store/src/1_reminder.rs:110-128 | two claims of a run never share an envelope, whichever schedules made them |
| ReminderTheorems.ClaimFindsRouteQuiet | crates/boop-store/src/1_reminder.rs:115-126 | when a schedule claims, nothing ever fired at its route is in flight, whichever schedule fired it |
| ReminderClaims.ClaimableIff | crates/boop-store/src/1_reminder.rs:110-128 | over every run a schedule may claim if and only if it is active and due, every envelope it ever fired is complete, and none that another schedule ever fired at its route is in flight |
| ReminderClaims.ClaimSends | crates/boop-store/src/1_reminder.rs:134-152 | a successful claim adds one envelope, to the schedule's route with its text, sender and reference, opens its ledger at that route unless it has rows, and moves nothing but that schedule's due time, last message and detail |
| ReminderClaims.ClaimedOnce | crates/boop-store/src/1_reminder.rs:134-152 | over every run with minted ids: the envelope of each claim is in the mailbox once, with the schedule's route and text, whatever came after |
| ReminderClaims.ClaimedIsActive | crates/boop-store/src/1_reminder.rs:193-203 | over every run readers may hand a claimed envelope over if and only if nothing has superseded it, cancelled its schedule or expired it, and its end has not come |
| ReminderClaims.RetryableIff | crates/boop-store/src/1_reminder.rs:156-170 | a retry is due exactly when the schedule is, the newest row of its last envelope refuses it, the envelope is unread, and no row ever accepted it or ended its turn |
| ReminderClaims.RetrySends | crates/boop-store/src/1_reminder.rs:156-189 | over every run with minted ids a retry resends the envelope of the last claim, to the schedule's route with its text, and writes one row at that route first |
| ReminderTheorems.OneLiveEnvelopePerRoute | crates/boop-store/src/1_reminder.rs:193-203 | readers hand over at most one reminder envelope for a route at any moment |
| ReminderTheorems.RetriesAlternate | crates/boop-store/src/1_reminder.rs:156-189 | in every run the retries of an envelope never outnumber its recorded refusals, and lag by the refusal still unanswered |
| ReminderTheorems.NoRetryAfterAcceptance | crates/boop-store/src/1_reminder.rs:159-166 | once acceptance or a turn end is recorded an envelope is never retried |
| Guard.ResourceGuard.Due | crates/boop-proc/src/0_resource_guard.rs:190-202 | due exactly when enabled, not paused and a poll interval after the last sample; asking marks it taken |
| Guard.ResourceGuard.Sample | crates/boop-proc/src/0_resource_guard.rs:204-230 | one observation leaves the phase and emits the action of the specification |
| Guard.ResourceGuard.MarkResumed | crates/boop-proc/src/0_resource_guard.rs:232-235 | back to watching from nothing |
| Guard.InterruptIff | crates/boop-proc/src/0_resource_guard.rs:204-215 | an interrupt is emitted if and only if the last breach_samples samples since the last reset were all over the limit |
| Guard.PauseFollowsInterrupt | crates/boop-proc/src/0_resource_guard.rs:216-223 | every pause follows an interrupt by at least the grace period, on a sample over the limit, with no emission, resume or late sample between |
| Guard.SilentWhilePaused | crates/boop-proc/src/0_resource_guard.rs:228-229 | nothing is emitted after a pause until a resume |
| Guard.PhaseIsHistory | crates/boop-proc/src/0_resource_guard.rs:204-235 | on every history the phase is what inputs and outputs say it is |
| Guard.EmittedAt | crates/boop-proc/src/0_resource_guard.rs:204-230 | what is emitted at each event, told by the history before it alone |
| Guard.DisabledIsSilent | crates/boop-proc/src/0_resource_guard.rs:205 | without a limit the guard never acts |
| IndexPool.ScheduleIndependence | crates/boop-mux/src/_4_click_lookup.rs:306-330 | for every number of workers and every interleaving on the shared counter that lets them return, each index is drawn exactly once and the sorted lists are the sequential list |
| IndexPool.Indexes | crates/boop-mux/src/_4_click_lookup.rs:306-330 | the pool with a scheduler that chooses freely always finishes, with the sequential list |
| IndexPool.StepProgress | crates/boop-mux/src/_4_click_lookup.rs:316-323 | every step of a worker that has not returned brings the end nearer |
| ExactLookup.ExactMatches | crates/boop-mux/src/_4_click_lookup.rs:297-362 | the concurrent lookup returns the sequential answer |
| ExactLookup.RankingIsComplete | crates/boop-mux/src/_2_click_rungs.rs:183-206 | the ranking lists exactly the matching entries, whole tails first, shallower first, then by name |
| PathTails.RankingBySegments | crates/boop-mux/src/_2_click_rungs.rs:183-206 | over segments between slashes: a row is a whole tail if and only if the token's segments are the last of the path, and name-only if and only if it is none and the name is the token's last segment; whole tails first, then fewer segments, then byte order |
| PathTails.TailIsStripped | crates/boop-mux/src/_2_click_rungs.rs:184 | the token's tail is what is left after all leading ./ and then all leading slashes, and nothing else is |
| PathTails.AnswerMatches | crates/boop-mux/src/_4_click_lookup.rs:331-362 | every row of the answer matches by segments, comes from the first searched group that offers its path, and belongs to the owner |
| PathTails.AnswerCovers | crates/boop-mux/src/_4_click_lookup.rs:331-362 | every path a searched group offers has a merged row, and that row is in the answer if and only if it is not a worktree's copy of a row of group 0 |
| PathTails.AnswerInOrder | crates/boop-mux/src/_4_click_lookup.rs:331-362 | rows stand by group, and within one by the group that offered them, then in ranking order |
| ExactLookup.KeptIsFirst | crates/boop-mux/src/_4_click_lookup.rs:331-349 | every merged row is the first eligible candidate of its path |
| ExactLookup.SeenKept | crates/boop-mux/src/_4_click_lookup.rs:331-349 | the merged rows cover exactly the paths eligible candidates name |
| ExactLookup.AnswerIsExact | crates/boop-mux/src/_4_click_lookup.rs:331-362 | one row a path, groups in order, and exactly the merged rows that are not a worktree's copy of a file group 0 lists |
| ExactLookup.NoOtherBranch | crates/boop-mux/src/_4_click_lookup.rs:350-359 | no worktree row repeats the checkout-relative path of a group-0 row |
| ExactLookup.OwnerOutranks | crates/boop-mux/src/_4_click_lookup.rs:337-342 | the owner contains the path and no containing group is spelled longer, the last winning ties |
| ExactLookup.OwnerIsDeepestIff | crates/boop-mux/src/_4_click_lookup.rs:293-296 | every path belongs to its deepest containing checkout if and only if each checkout nested in another has a spelling that outranks it |
| ExactLookup.TrimmedOwnsDeepest | crates/boop-mux/src/_4_click_lookup.rs:293-296 | directories without trailing slashes own deepest |
| ExactLookup.PaddedOwnsTooMuch | crates/boop-mux/src/_4_click_lookup.rs:337-342 | a directory padded with slashes takes the paths of a checkout inside it |
| ExactLookup.DecidingRow | crates/boop-mux/src/_4_click_lookup.rs:371-382 | finds the only row, or the only whole tail, exactly when there is one |
| ExactLookup.AnswerExact | crates/boop-mux/src/_4_click_lookup.rs:366-405 | opens exactly the deciding row; otherwise lists the first 50 in order, captioned exactly when the captions differ anywhere in the list |
| Shell.SupervisorCommand | crates/boop-harness/src/harness.rs:882-911 | a POSIX shell (sections 2.2.1, 2.2.2 and 2.3 of the Shell Command Language) reads exactly the intended arguments back, for all NUL-free fields |
| Shell.ReadQuoted | crates/boop-harness/src/harness.rs:919-921 | a quoted value reads as one word with exactly that value, whatever is in it |
| Shell.QuoteInjective | crates/boop-harness/src/harness.rs:919-921 | two values print alike only when they are equal |
| CommitRow.Slug | crates/boop-proc/src/lane.rs:74-84 | the slug of the specification |
| CommitRow.SlugIsOneWord | crates/boop-proc/src/lane.rs:72-84 | only letters, digits, _ and -, no hyphen at either end, and no letter of the branch lost, added or moved |
| CommitRow.SlugIdempotent | crates/boop-proc/src/lane.rs:74-84 | slugging a slug changes nothing |
| CommitRow.HeadReadBack | crates/boop-proc/src/deliver.rs:594-598 | for any lane the head read out of its row is the new sha unless a word of the lane holds a range: then the tail of the first such word |
| CommitRow.HeadReadBackIff | crates/boop-proc/src/deliver.rs:594-598 | the new sha comes back if and only if no word of the lane holds a range, or the first that does ends in that sha |
| CommitRow.SluggedHeadReadBack | crates/boop-proc/src/headwatch.rs:236-259 | for every branch and every pair of hex shas, the head read out of a slugged lane's row is the new sha |
| CommitRow.DottedLaneMisleads | crates/boop-proc/src/deliver.rs:594-598 | a lane named with dots gets its own range back |

## Left out

- Processes, tmux, git, SQLite and the file system: their answers are parameters. A database transaction is one indivisible action.
- Delivery: the children fan-out and the acpx command, which call `door_gate` without the route lock; stores without a file, which have no lock; the harness column of a ledger row.
- Delivery: what a transport did before it answered with an error, and an attempt that never returns from a transport call.
- Delivery: rows of kinds outside the ladder (a lane's own supervisor accepting its mail) are kept apart from it: other writers append only rows that neither accept, paste nor push.
- Drain: binding a session to the route before the pass, and `drain_all_held_mail` over several routes. A pass is stated with nobody else moving; interleaving is the subject of the concurrent model.
- DrainTheorems.DeadRouteRetires: assumes what its statement says of each pass (outside a cool-off, the first row landing as a hold that names a dead session), and one registry, subscription table and bound throughout.
- Environment parsing and configuration: budgets, cool-offs, attempts and intervals are parameters, so the theorems hold for each setting.
- Traces: the fields of observations and relations that derivation does not read.
- Calendar: the system clock; `u64` and `i64` overflow beyond the years stated.
- Snapshot: identity, generation, cursor, `grid_eq`; columns, which the walk does not read.
- Control: bytes are characters, so lossy UTF-8 decoding and the quoting half that writes to tmux are not modelled; the clock and which reads fail are inputs, one value a turn.
- HeadWatch: git always answers except for an unreadable head; `read_commit_facts` and the debug quoting of a commit row's subject, ask and check are parameters; counts are unbounded.
- Reminder: envelope ids are minted fresh, so the upsert of an existing envelope is not modelled; SQLite's promotion of an overflowing due time to a real number; timestamps of rows and envelopes.
- Guard: sampling processes, signals, and the 32-bit counter, which a positive `breach_samples` keeps below its limit.
- ExactLookup: each character stands for one byte of a path; `index_with` is a fixed function of its directory and no worker panics; choosing the groups, fuzzy ranking and the rungs before and after this one.
- Shell: `with_on_exit` and the environment stamp before the command; the shell's other quoting, expansions and operators, which the tokenizer refuses.
- Adapters, ACP channels, the terminal interface, disk collection, link resolution, closed-set migration and favourite parsing: input and output, declarations, or one or two branches each.
