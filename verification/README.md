# Longclaw verification model

Longclaw is an ISO 8583 load generator and issuer simulator. This project models its hard core in Dafny and
proves what the core promises: the message codec, the request/response/follow-up protocol over an asynchronous
log, the batch writer behind that log, refund runs, the simulated issuer, framing, pacing and statistics.
`dafny verify dfyconfig.toml` checks all of it.

## How the modules fit together

- `Numerals`, `Bits`, `Codec`, `Message`: numbers as text, the 64-bit bitmaps, the message text as functions
  on values (`Parse`, `Print`, `WellFormed`), and the message object whose loops and mutators are proved equal
  to those functions. The text follows ISO 8583:1987, clause 4; where the code is more lenient (trailing bytes,
  lower-case hex, signed lengths) the model follows the code.
- `Matching`, `Tags`, `Issuer`, `Outgoing`, `Shipped`, `Wire`: references, match keys and dispatch, tagged values
  in DE123, the answer to a request, the requests the server sends, the shipped field specification, and frames
  on a socket.
- `Log`, `Protocol`, `Paths`, `Connection`: the tables and the statements on them; the protocol as a transition
  system with one action per atomic step of a goroutine and an arbitrary peer; and the connection object, whose
  methods are proved to take steps of that system.
- `Conservation`, `LoggedRequests`, `Pipeline`, `Guarantees`, `Provenance`, `Exchange`: the invariant, proved one
  reference at a time; the server over the batched log, which refines a server over a synchronous one; what
  follows in every reachable state; where every answered row comes from; and the exchanges that can complete.
- `BatchWriter`: the writer's goroutine with its loops, for any statements queued and any close between steps.
- `Refunds`, `RefundStarts`, `EarlyStart`: candidate selection, the runner's reservation, histories of sale and
  refund runs interleaved with everything the server does, and exactly when a refund run may start.
- `Ownership`: which worker every logged row belongs to, so that a reversed sale is in no candidate list.
- `Stats`, `Pacing`: the summary of a test, percentiles, tick-driven pacing and node fairness.
- `Witnesses`: for each promise the code does not keep everywhere, an input on which it fails.

Time stands for whole nanoseconds (milliseconds in `Stats`), a string for a Go string of single-byte characters,
and a message field key for the field number minus one.

## What the code does and its comments do not say

Each point names the lemma with the exact condition, and then one with an input on which the code fails.

- `extractTag` slices out of bounds when the first AV or CV tag of DE123 has a length that is a minus sign and a
  non-zero digit. The handler runs in a goroutine of its own that nothing recovers, so such a request ends the
  whole program (`Issuer.ResponseFails`, `Witnesses.NegativeLengthCrashes`).
- A partial approval sets DE4 without marking it: the response is well formed exactly when the request carried
  DE4 (`Issuer.ResponseExact`, `Witnesses.PartialApprovalWithoutAmount`). Templates and refunds set DE37 the same
  way (`Outgoing.PersonaliseExact`, `Witnesses.TemplateWithoutReference`; `Outgoing.RefundExact`,
  `Witnesses.SaleWithoutReference`).
- Rewriting the CV tag of a full DE123 can push the field past 999 characters (`Outgoing.PersonaliseExact`,
  `Witnesses.RewriteOverflows`).
- The computed reply matches its request only if the third and last digits of the request's type identifier are
  even (`Matching.ReplyMatches`, `Witnesses.RepliesUnmatched`), and is also taken for a response for six types
  only (`Matching.ReplyHandled`).
- No message is ever matched with a reversal of type 0400 or 0401: the read loop knows no response type with its
  key, so it stays unanswered (`Matching.AnswerableExactly`, `Guarantees.TakenIsAnswerable`).
- The overall maximum latency starts from zero, so it is the true maximum exactly when some time is not negative
  (`Stats.OverallMaxExact`, `Witnesses.NegativeTimes`).
- The figures of a summary and its percentiles come from two statements without a transaction. Minimum,
  percentiles and maximum are in order exactly when, of the times the second statement reads, fewer than half are
  below the first one's minimum and at least 99 in a hundred are at most its maximum
  (`Stats.GetStressTestResults`, `Witnesses.OrderBroken`).
- Refund candidates are read from the committed tables. A refund run keeps every sale at one live refund exactly
  when no sale it is going to send has one among the statements still queued (`Refunds.NeverTwoRefunds`,
  `RefundStarts.StartSafeExactly`, `EarlyStart.EarlyStartReachable`); an empty queue is enough
  (`Refunds.QuietStartsAreSafe`).

## Model

| member | source | states |
|---|---|---|
| Numerals.ValueOfNumeral | iso/bit_set.go:39-41 | printed numbers read back as themselves, in any base from 2 to 16 |
| Numerals.NumeralOfValue | iso/bit_set.go:27-34 | what was read prints back as the same text exactly when it has no lower-case digits |
| Numerals.NumeralInjective | utils/helper.go:62-64 | equal-width numerals are equal only for equal numbers |
| Numerals.PadExact | utils/helper.go:62-64 | zero padding keeps the number and takes more places only for a number too large for its width |
| Numerals.AtoiExactly | iso/iso_messages.go:93-97 | exactly decimal digits with at most one sign before them are a number, and a minus sign negates it |
| Bits.BitOfWithBit | iso/bit_set.go:13-25 | read over write: setting a bit changes that bit and no other |
| Bits.AssignByMask | iso/bit_set.go:17-25 | setting a bit is exactly clearing and adding its one-bit mask |
| Bits.BitmapsEqual | iso/bit_set.go:9-15 | the 64 bits determine the word |
| Bits.ParseOfHex | iso/bit_set.go:27-41 | a printed bitmap reads back as itself |
| Bits.HexOfParse | iso/bit_set.go:27-41 | an accepted bitmap text is the printed one exactly when it is upper case |
| Bits.HexBit | iso/bit_set.go:39-41 | each printed hex digit is the four bits at its place |
| Bits.BitSet.SetBit | iso/bit_set.go:17-25 | the masked update is the assignment of that bit |
| Bits.BitSet.SetString | iso/bit_set.go:27-34 | succeeds exactly on valid hex and otherwise changes nothing |
| Codec.ParseLocal | iso/iso_messages.go:31-124 | the parser depends only on the characters it consumed, so every extension parses to the same message |
| Codec.ShorterRejected | iso/iso_messages.go:31-124 | every text that stops short of the message's end is rejected |
| Codec.PrintThenParse | iso/iso_messages.go:26-127 | every well-formed message parses back from its text, whatever follows, consuming exactly that text |
| Codec.ParseThenPrint | iso/iso_messages.go:194-225 | every accepted text gives a well-formed message that prints to the consumed length, and to the same text exactly when bitmaps are upper case and lengths unsigned |
| Codec.ParseCanonicalises | iso/iso_messages.go:26-127 | printing an accepted text yields a canonical text of the same message |
| Codec.RoundTripExactly | iso/iso_messages.go:26-127 | print then parse is the identity on exactly the well-formed messages |
| Codec.UniquelyDecodable | iso/iso_messages.go:194-225 | two messages with anything after them have the same text only if they and what follows are equal |
| Codec.MarkedAfterMark | iso/iso_messages.go:182-192 | MarkField marks its index and no other, creating the secondary bitmap when needed |
| Codec.MarkAndSetKeeps | iso/iso_messages.go:133-192 | marking and setting keeps a message well formed exactly when the value fits the field |
| Codec.SetFieldKeeps | iso/iso_messages.go:133-135 | setting alone keeps it well formed exactly when the field was present and the value fits |
| Codec.MarkPrintable | iso/iso_messages.go:182-203 | marking index 0 without a secondary bitmap is the only mark that makes FormatIso fail |
| Message.Iso8583Message.NewIso8583Message | iso/iso_messages.go:26-127 | the parsing loops accept the same texts, with the same errors and the same message, as the value-level parser |
| Message.Iso8583Message.FormatIso | iso/iso_messages.go:194-225 | the printing loop writes the value-level text |
| Message.Iso8583Message.MarkField | iso/iso_messages.go:182-192 | the object's bitmaps change as the value's do, and nothing else changes |
| Message.Iso8583Message.NewResponseMessage | iso/iso_messages.go:164-178 | a deep copy under another type identifier that shares no state with the request |
| Matching.ReferenceShape | utils/helper.go:54-64 | every reference is exactly twelve decimal digits and reads as its counter modulo 10^12 |
| Matching.ReferencesDistinct | utils/helper.go:54-64 | references agree exactly when their counters are congruent modulo 10^12, so fewer than 10^12 consecutive draws are distinct |
| Matching.ReferenceCounter.GenerateTimestampID | utils/helper.go:62-64 | each draw advances the counter by one and returns its reference |
| Matching.MatchKeyDetermines | network/server/iso_server.go:54-56 | a key determines the reference, and the type identifier up to the low bit of its third character |
| Matching.ReplyMatches | network/server/iso_response_handler.go:41-44 | a request matches its computed reply exactly when its third and last digits are even, and never another reference |
| Matching.ReplyHandled | network/server/iso_response_handler.go:29-44 | the computed reply is both taken for a response and matched with its request exactly for 0100, 0120, 0200, 0220, 0420 and 0800 |
| Matching.RequestsAreReplied | network/server/iso_response_handler.go:22-44 | the read loop answers exactly the four-digit types whose computed reply is of a response type, other than the advices and 0801 |
| Matching.AnswerableExactly | network/server/iso_response_handler.go:29-39 | a request can be matched by some response exactly for twenty-two types, and 0400 and 0401 are not among them |
| Tags.ExtractTagFails | network/server/iso_response_handler.go:181-191 | extraction fails exactly on a negative declared length |
| Tags.ExtractedLength | network/server/iso_response_handler.go:181-191 | an extracted value has the length its tag declares |
| Tags.ExtractedExactly | network/server/iso_response_handler.go:181-191 | a non-empty value is extracted exactly when the first occurrence of the tag declares its length and is followed by it |
| Tags.FirstCvStays | network/server/iso_server.go:485-505 | the first CV tag stays at its index whatever is written after it |
| Tags.CvReadsBack | network/server/iso_server.go:485-505 | the rewritten tag stays at its index with the text before it; reading it gives exactly what was written, exactly when the CVV2 has three characters, and those are characters 2 to 5 of a value of length 05 and 3 to 6 of one of length 07 |
| Issuer.BuildResponse | network/server/iso_response_handler.go:46-91 | the mutations build the response given as a value, on fresh state |
| Issuer.CodeExactly | network/server/iso_response_handler.go:95-134 | the response code by the sixteenth character of DE2, the amount of DE4 and SUPPORT in DE123, in every case |
| Issuer.DrawsDiffer | network/server/iso_response_handler.go:123-130 | different draws give different codes, so that every code of a list is drawn |
| Issuer.AvsExactly | network/server/iso_response_handler.go:138-163 | the address result by the characters of the AV value, in every case |
| Issuer.CvvExactly | network/server/iso_response_handler.go:166-178 | M exactly when the CV value ends in 949, P exactly when it is 838, N otherwise |
| Issuer.ResponseExact | network/server/iso_response_handler.go:46-91 | the response is well formed exactly when DE4 was carried or not needed, differs from the request only at DE4, DE38, DE39, DE54 and DE123, with exact widths, and has the computed type; reading its DE123 back gives the address result under AR and the verification result under CR; DE54 is written for a partial approval and a returned balance only |
| Issuer.NetworkResponse | network/server/iso_response_handler.go:50-55 | a network management request is echoed as a well-formed 0810 with DE39 00 and nothing else changed |
| Issuer.ResponseParsesBack | network/server/iso_response_handler.go:46-91 | the text sent back parses to exactly the response built |
| Issuer.ResponseFails | network/server/iso_response_handler.go:138-191 | the handler crashes on a request exactly when the first AV or CV in its DE123 is followed by a minus sign and a digit from 1 to 9 |
| Issuer.PartialHalves | network/server/iso_response_handler.go:73-83 | a partial approval approves half the amount, rounded down, and reports the full amount in a DE54 entry 0091 with the currency of DE49, or 840 |
| Issuer.BalanceReturned | network/server/iso_response_handler.go:85-88 | a declined request with RETURNBAL reports four fifths of the amount, rounded down, in a DE54 entry 0002, and keeps its DE4 |
| Issuer.AmountExactly | network/server/iso_response_handler.go:73 | leading zeros are dropped, and what is left counts as zero when it is no number |
| Issuer.ResponseWidths | network/server/iso_response_handler.go:195-203 | amounts fill twelve characters and a DE54 entry twenty, for every well-formed request |
| Outgoing.GetIsoMessage | network/server/iso_server.go:472-510 | the mutations build the personalised template given as a value |
| Outgoing.PersonaliseExact | network/server/iso_server.go:472-510 | with any card the template stays well formed exactly when it carried DE37, the card's data fits the fields it goes into and the CV tag has room; it changes only in those fields and the reference |
| Outgoing.EntryFields | network/server/iso_server.go:446-461 | a request's row has the type, DE2, DE3, DE4 and DE49 of the message, no original row, and a text that parses to the message |
| Outgoing.BuildRefund | network/server/refund.go:53-72 | the mutations build the refund's log entry given as a value |
| Outgoing.RefundExact | network/server/refund.go:53-68 | a refund is the sale except for DE3, DE7, DE11 and DE37, and well formed exactly when the sale carried DE37 |
| Outgoing.RefundOfLoggedSale | network/server/iso_server.go:446-461 | a logged sale has its message's DE2, DE3, DE4 and DE49 and a text that parses to the message; its refund names the sale, keeps type, PAN, amount and currency, and parses back |
| Shipped.ShippedFields | data/file_spec.json:1-1029 | the shipped specification defines every field, with the widths the server relies on |
| Shipped.MessageSize | iso/iso_messages.go:194-225 | under any specification a message is no longer than its header and its fields' longest texts |
| Shipped.ShippedSize | data/file_spec.json:1-1029 | the longest texts of all fields together are exactly 39985 characters |
| Shipped.ShippedFits | data/file_spec.json:1-1029 | every well-formed message under the shipped specification is shorter than 2^16 |
| Wire.FrameReadsBack | network/server/iso_server.go:171-188 | a frame begins with its text's length, high byte first, and reads back as its text, leaving what follows, exactly when the text is shorter than 2^16 |
| Wire.FramesReadBack | network/server/iso_server.go:171-188 | concatenated frames read back as the texts sent, in order, exactly when each is shorter than 2^16 |
| Wire.BrokenStream | network/server/iso_server.go:171-188 | a stream cut at any byte delivers a prefix of the texts sent |
| Shipped.MessagesArrive | network/server/iso_server.go:241-265 | any number of well-formed messages arrive as the same messages in the same order |
| Wire.Socket.ReadLengthPrefixedMessage | network/server/iso_server.go:171-188 | reads exactly the first frame and leaves exactly the rest |
| Wire.Socket.WriteMessage | network/server/iso_server.go:244-256 | appends exactly one frame |
| Log.AnsweredRowsFinal | database/dao.go:47-62 | no queued statement changes or removes an answered row |
| Log.ApplyKeeps | database/dao.go:44-90 | keys stay fresh, and response time and code are only ever set together |
| Log.ApplyAllConcat | database/batch_writer.go:87-118 | applying batches one after another is applying their concatenation |
| Connection.IsoConnection.HandleResponse | network/server/iso_server.go:113-130 | handling a response takes the read loop's steps of the transition system from receipt to rest, and queues their statements in order |
| Connection.IsoConnection.HandleMessage | network/server/iso_server.go:107-130 | a message of a request type is answered elsewhere, one of a response type takes the read loop's steps, any other changes nothing |
| Connection.IsoConnection.RecordResponse | network/server/iso_server.go:121-129 | a matched response queues its update before its follow-up is looked at |
| Connection.IsoConnection.SendFollowUp | network/server/iso_server.go:135-155 | releasing a follow-up takes the read loop's steps to rest on every branch, its row being of its own test, reference, connection and type |
| Connection.IsoConnection.SendSingleMessage | network/server/iso_server.go:525-562 | sending takes the worker's steps and ends handed over, dropped or abandoned, by the state of the channel and the database |
| Connection.IsoConnection.WriteNext | network/server/iso_server.go:241-264 | the write loop takes one message and writes it as one frame; the write demands that its stamp is already recorded |
| Conservation.StepFollows | network/server/iso_server.go:74-265 | a step changes the view of the one reference it is about, and by the view-level step |
| Conservation.OthersUntouched | network/server/iso_server.go:74-265 | a step leaves every other reference's share of the connection alone |
| Conservation.StepKeepsConn | network/server/iso_server.go:74-265 | every step keeps each reference in at most one place, with channels, maps and goroutines consistent |
| LoggedRequests.ActedLogged | network/server/iso_server.go:134-155 | every step keeps the log in agreement with where the request is |
| LoggedRequests.OthersKept | database/dao.go:47-90 | a statement about another reference leaves this one's rows alone |
| Pipeline.NextKeeps | network/server/iso_server.go:74-265 | every action of any goroutine or peer keeps the invariant of the whole server |
| Pipeline.RunKeeps | network/server/iso_server.go:74-265 | the invariant holds after every run |
| Pipeline.AdvanceRefines | database/batch_writer.go:60-85 | taking and committing leave the logical tables unchanged, and any other step changes them by its own statement |
| Pipeline.AdvanceEnabled | database/batch_writer.go:9-13 | an action waits only for its own reasons or with 100000 statements queued, and the batch writer takes no more than 2000 |
| Pipeline.BatchingInvisible | database/batch_writer.go:22-32 | any interleaving with the batch writer ends where the same actions end on a synchronous log |
| Pipeline.ReachableInv | database/batch_writer.go:22-32 | the invariant holds of the logical tables in every reachable state of the batched server |
| Guarantees.UnansweredAreUnderWay | network/server/iso_server.go:241-265 | a reference has at most one unanswered row, and exactly as many as places holding its request |
| Guarantees.ResponseUpdatesOneRow | database/dao.go:47-53 | the update of a matched response finds exactly one row, even when original and follow-up share reference and type |
| Guarantees.OutcomeOfRequest | network/server/iso_server.go:537-562 | a dropped request leaves no row; a handed-over request that is nowhere any more has exactly one answered row, and its released and answered follow-up exactly one more |
| Guarantees.FollowUpsSafe | network/server/iso_server.go:113-155 | a follow-up is pushed at most once, and only after its original is answered in the log |
| Guarantees.SentAtExact | database/dao.go:65-78 | a planned follow-up has one row, with sent_at set exactly when it was pushed |
| Guarantees.TakenIsAnswerable | network/server/iso_server.go:114-120 | only requests of the answerable types are ever taken out of sentTimes |
| Provenance.AnsweredRowsExplained | network/server/iso_server.go:113-130 | every answered row has the time its own request was stamped, and the time, code and authorisation of the response that found that stamp in sentTimes, the last one made under its key |
| Provenance.LoggedRowsExplained | database/batch_writer.go:22-32 | the same of the batched server in every reachable state |
| Exchange.ExchangeCompletes | network/server/iso_server.go:107-155 | from any connection at rest a request of an answerable type and its follow-up can complete, with their statements queued in this order |
| BatchWriter.Writer.Run | database/batch_writer.go:60-85 | whatever is queued meanwhile, the writer stops only with everything queued before the close committed once and in order, and with a silent channel it drains it and stops exactly if closed |
| BatchWriter.Writer.Flush | database/batch_writer.go:67-78 | the closing loop finishes only with everything queued before the close committed, and does finish on a silent channel |
| BatchWriter.Writer.Fill | database/batch_writer.go:71-83 | the batch grows in channel order to 2000 statements or an empty channel, losing and repeating nothing |
| BatchWriter.Writer.Commit | database/batch_writer.go:87-118 | committing applies the batch's statements in order |
| BatchWriter.Writer.HoldingLogical | database/batch_writer.go:60-85 | the tables with batch and channel folded in are all accepted statements applied in order |
| Refunds.GetRefundCandidates | database/dao.go:136-165 | the scan in key order yields the candidate list |
| Refunds.CandidatesExact | database/dao.go:134-165 | the list holds each approved, unreversed sale without a live refund exactly once, oldest first, with its reference and text |
| Refunds.CandidatesMeaning | database/dao.go:134-150 | a row is a candidate exactly when it is of that test, of type 0100 or 0200, with processing code 00xxxx and response code 00, no row of its test and reference has type 0400 or 0420, and every refund of it was refused |
| Refunds.InsertUnselects | database/dao.go:144-149 | an inserted row takes a sale off the list exactly when it is a reversal of type 0400 or 0420 with its test and reference, or a refund of it |
| Refunds.StressTestRunner.Reserve | runner/stresstest_runner.go:21-23 | succeeds exactly when the flag was clear, and leaves it set |
| Refunds.StressTestRunner.Serve | runner/stresstest_runner.go:18-28 | any interleaving of reservations and releases succeeds as Granted says |
| Refunds.FirstCallerWins | runner/stresstest_runner.go:18-28 | a reservation is refused exactly when an earlier one succeeded and nobody has released since, or the runner was busy from the start |
| Refunds.NoneRevived | database/dao.go:47-62 | no statement but a refund's insert makes a refund live: refused refunds stay refused |
| Refunds.OthersInsertNoRefund | network/server/iso_server.go:463-562 | outside refund runs the server never queues the insert of a refund |
| Refunds.TakeKeeps | network/server/refund.go:36-43 | every turn of runner, server, peer and batch writer keeps the refund invariant, given that runs start safely |
| Refunds.NeverTwoRefunds | network/server/refund.go:15-51 | over any history of runs that start safely no sale has two approved or unanswered refunds, in the committed tables or with the queue folded in |
| Refunds.AtMostOneExactly | database/dao.go:147-149 | no sale has two live refunds exactly when at most one refund of each sale is unanswered or has response code 00 |
| Refunds.QuietStartsAreSafe | database/dao.go:136-150 | a start with no refund insert queued, so one with an empty queue, is safe |
| Refunds.NoRefundIsRefunded | database/dao.go:141-143 | whenever runs start, a refund's own row, committed or queued, is never a candidate |
| Refunds.OneTestAtATime | runner/stresstest_runner.go:21-53 | whatever happens, at most one test is reserved or running, and the flag is set exactly then |
| RefundStarts.StartSafeExactly | database/dao.go:136-150 | a start is safe exactly when no history of the run it starts gives a sale two live refunds |
| RefundStarts.UnsafeStartDoubles | network/server/refund.go:36-43 | every unsafe start reaches two live refunds of one sale, at whatever place in the list the sale stands |
| EarlyStart.EarlyStartReachable | database/dao.go:136-150 | from a fresh world, a second run started before the first one's insert is committed refunds a sale twice |
| EarlyStart.SaleMessageOk | network/server/iso_server.go:446-461 | a sale message of the kind that history needs exists under the shipped specification |
| Ownership.RowsBelong | network/server/iso_server.go:134-155 | in every reachable state a row or queued insert under a drawn reference has the test and connection of the worker that drew it, and the type of its request or of its follow-up |
| Ownership.ReleasedHasRow | network/server/iso_server.go:137-155 | a follow-up pushed on the write channel has a row of its type and its original's test, with the queue folded in |
| Ownership.ReleasedReversalBlocks | database/dao.go:144-146 | once a sale's reversal has been pushed, the sale is in no candidate list of the tables with the queue folded in |
| Ownership.CommittedReversalBlocks | database/dao.go:144-146 | in every reachable state a sale whose reversal is committed is in no candidate list |
| Ownership.NoReversedSaleIsRefunded | network/server/refund.go:15-20 | over any history of sale and refund runs, no run picks up a sale whose reversal is committed |
| Stats.SnapshotCounts | database/dao.go:193-228 | the snapshot holds each row of the test once and each answered time once |
| Stats.TypeCounts | database/dao.go:194 | a type's group holds exactly the rows of that type, rows without one being grouped as unknown |
| Stats.GroupingKeeps | database/dao.go:193-196 | grouping by type loses and repeats no sample |
| Stats.CombineGroups | database/dao.go:191-228 | the figures combined from the groups are the direct ones, overall and per type |
| Stats.OverallMaxExact | database/dao.go:213-217 | the overall maximum is the direct one exactly when nothing was answered or some time is not negative |
| Stats.LatenciesPartition | database/dao.go:244-270 | the sorted read holds all answered times, and the lists per type partition them |
| Stats.OfSorted | database/dao.go:244-270 | each type's list is in time order because the rows are |
| Stats.CollectLatencies | database/dao.go:255-267 | the loop builds the overall list and each type's list |
| Stats.NearestRank | database/dao.go:283-293 | an element is the percentile exactly when at least p of the list is at most it and less than p is below it |
| Stats.PercentileMonotone | database/dao.go:283-293 | a higher percentile is never smaller, and all lie between the extremes |
| Stats.PercentilesExact | database/dao.go:277-293 | the percentiles of a sorted list are the nearest-rank ones of its times in any order, by counting, for 50, 95 and 99 in a hundred |
| Stats.OrderedExactly | database/dao.go:277-293 | minimum, P50, P95, P99 and maximum are in order exactly when fewer than half of the times are below the minimum and at least 99 in a hundred are at most the maximum |
| Stats.SameTimesInOrder | database/dao.go:184-275 | two reads that see the same times are in order |
| Stats.GetStressTestResults | database/dao.go:184-275 | every figure is the direct one on the grouped query's snapshot; P50, P95 and P99 are the nearest-rank percentiles of the sorted read's snapshot, by the counts of its times; they are in order, and lie between minimum and maximum exactly under the stated condition on the two snapshots, overall and per type |
| Stats.CommitsOnlyAdd | database/dao.go:193-250 | whatever is committed between the two reads, the second sees every time the first saw |
| Stats.LaterReadEncloses | database/dao.go:193-250 | the second read's times then reach from at most the reported minimum to at least the direct maximum |
| Pacing.Rotation.NodeTargets | network/server/iso_server.go:309-319 | one step goes to all nodes, or to the next in turn |
| Pacing.MakeSteps | network/server/iso_server.go:418-431 | a tick makes the steps due, or is cut short with exactly the jobs that were taken |
| Pacing.RunStress | network/server/iso_server.go:383-435 | the loop sends what its ticks call for, or a prefix of it when the deadline comes first; uncut, no tick saw a further step due and some tick saw as many due as were made |
| Pacing.StepsExact | network/server/iso_server.go:415-419 | at its last tick a run has made the largest number of steps whose seconds, steps * 10^9 / rate in nanoseconds, have elapsed |
| Pacing.RunPaced | network/server/iso_server.go:415-419 | in whatever order its ticks come, a run has made exactly the largest number of steps due at any of them |
| Pacing.DroppedTicksMadeUp | network/server/iso_server.go:381-383 | two runs whose last ticks agree have sent the same, whichever ticks were dropped |
| Pacing.RoundRobinFair | network/server/iso_server.go:309-319 | over any stretch with the same nodes each node gets floor(steps / nodes) or one more |
| Pacing.TurnOrder | network/server/iso_server.go:309-319 | step number k goes to the node k places after the starting one, around the list |
| Pacing.AdvertisedFair | network/server/iso_server.go:309-319 | in advertised mode every node gets every step |
| Pacing.RunRefund | network/server/refund.go:36-43 | each due candidate is sent exactly once, in order, to node number i mod n; as many are sent as fit in the elapsed nanoseconds at the rate, at most all |
| Pacing.MaxDueLast | network/server/refund.go:40-41 | with ticks in order, the refunds due are the largest number that fits in the nanoseconds of the last tick |
| Witnesses.NegativeLengthCrashes | network/server/iso_response_handler.go:181-191 | a well-formed request with DE123 CV-1 crashes the handler |
| Witnesses.RepliesUnmatched | network/server/iso_response_handler.go:41-44 | a request of type 0101 is answered with a reply that does not match it |
| Witnesses.PartialApprovalWithoutAmount | network/server/iso_response_handler.go:79-83 | a well-formed request with SUPPORT and without DE4 gets a response that is not well formed |
| Witnesses.TemplateWithoutReference | network/server/iso_server.go:508-509 | a well-formed template without DE37 becomes a message that is not well formed |
| Witnesses.SaleWithoutReference | network/server/refund.go:60-68 | the refund of a well-formed sale without DE37 is not well formed |
| Witnesses.RewriteOverflows | network/server/iso_server.go:485-505 | a well-formed template whose CV tag begins at character 995 becomes a message that is not well formed |
| Witnesses.NegativeTimes | database/dao.go:213-217 | with one answered time of -5 the overall maximum is 0 |
| Witnesses.OrderBroken | database/dao.go:184-275 | with a row inserted and answered between the two reads of the tables, the median is below the minimum |

## Left out

- TLS, certificates, the listener, the handshake and the random disconnect: I/O with no state of this model.
- HTTP routes, JSON handlers, configuration, system information and loading of files: plumbing.
- SQLite: statements are total functions on tables; a failing begin, prepare, statement or commit is not modelled.
- The `stress_test` table with SetTotalRequests, and AchievedPerSecond and FollowUpsNotSent of a summary.
- Clocks, tickers and sleeps: times are values supplied from outside, and the two-second answer delay is dropped.
- Random choices of template, card and decline code: parameters or arbitrary values.
- The connection echo test, FormatPrint, logging and the dropped, sent and unmatched counters.
- The client program: the peer is arbitrary.
- Protocol.Next: a reference is assumed never to be drawn twice; `Matching.ReferencesDistinct` supports this for
  fewer than 10^12 consecutive draws of one process, and a restart draws from a seed of its own.
- The map of connected clients and its sorting: the connected nodes are given as a list in order.
- Reuse of a remote address by a later connection: a connection is identified with its address.
- Rows written before the mti column existed are allowed in the tables but never written by the model.
- Protocol.Do: a transition system on values, because its steps belong to goroutines that interleave; Connection
  gives each goroutine's code as a method and relates it to these steps. A closed database refuses every later
  statement there; a send racing with the close is allowed by BatchWriter.Writer.Others.
- BatchWriter.Writer.Run: nothing is promised for a statement whose send races with the close, since it may be
  accepted and never committed.
- Pacing.StepsExact: the float64 product of seconds and rate is the exact product, rounded down.
- Stats.NearestRank: a percentile is an exact fraction and its rank an exact ceiling; averages are exact too.
- Issuer.ResponseExact: four fifths of an amount is exact integer arithmetic, where the code multiplies a float64.
- Tags.CvReadsBack: for single-byte characters only, where counting runes and counting bytes agree.
- Matching.MatchKeyDetermines: for single-byte characters only; converting a byte above 127 to a string would
  widen it.
