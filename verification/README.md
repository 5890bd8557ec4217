# Energy-reading ingest, verified

A Dafny model of the pipeline that turns one Pub/Sub delivery into stored energy readings and
an answer: a push endpoint, a registry that picks a parser by the root element, a streaming
parser for ESMP generation-and-load documents, one batch buffer refilled in place, stamping
and validation, an append-only table, and the view over it that keeps the newest row per key.

The layers, and where they are:

- `Xml`, `EsmpStream`, `EsmpTree`, `EsmpDocument`, `EsmpEnding`, `EsmpPrint`: the token cursor, the one-pass
  parser as a function of the tokens, a decoder that sees the whole tree, the theorem that they
  agree on every token stream, and a printer the parser inverts.
- `EsmpParser`, `Service`, `BigQuerySink`, `Registry`, `Ingest`, `Handler`: the code as it
  executes, with loops, one reused array and objects that change, each proved against a function.
- `Batching`: what happens to the readings of one attempt, as a fold; the durable prefix,
  nothing lost, batch sizes invisible.
- `Errors`: error values as trees, so that the retry decision is proved for every wrapping.
- `Interval`, `Wire`: int64 duration arithmetic and the microsecond encoding.
- `View`: the window query over every table and every way of breaking ties.
- `Delivery`, `Termination`, `Interleaving`, `Merging`, `Refinement`, `Requests`,
  `Convergence`, `Redelivery`, `EndToEnd`: the at-least-once protocol as a state machine over every run of overlapping,
  failing and repeated deliveries; its invariant, its end, the proof that the endpoint's
  behaviour on one request, and on many in any merge, is a run of it, and what the view shows afterwards.
- `QuarantineKey`: object names for quarantined payloads.

## Reading the model

- Instants are integer nanoseconds since the Unix epoch; a float64 is a finite amount, an
  infinity or not a number. Lexing of XML, JSON, base64, instants, integers and floats is a
  parameter (`Lexis`, `Codec`), and so are token verification, the clock, SHA-256 and every
  answer of the table. An accepted append has persisted its rows at least once, a rejected one
  any number of times; `Batching.Landed` says which rows are there, and their order and number
  when none is persisted twice.
- Local names are an enumeration of the names the parser compares with, and one case for any
  other. Comments, directives and processing instructions are data without text.
- A context is a predicate on the number of tokens left at each check. That number falls from
  check to check, so the predicate covers every moment at which a context can be done.
- `streamDocument`, `requirePointContext`, `intervalStart`, `parseResolution`,
  `normaliseInstant` and the cap on readings follow the listing in
  `docs/superpowers/plans/2026-09-19-consumption-ingest.md:724-728`, `:776-819` and `:985-1056`,
  except that `intervalStart` returns the error for a position below one
  (`internal/consumption/xmlfmt/esmp.go:225-228`) and that a done context is transient
  (`internal/consumption/xmlfmt/esmp_test.go:255-285`). `Interval.IntervalStartExact` and
  `Interval.HourlyWraps` rest on the listing's product of durations.
- Errors of the BigQuery library are any trees that mention none of the package's sentinels.
- The protocol machine records for each quarantine write only which delivery made it;
  `Handler.Endpoint.Consume` says what was written. The subscription is taken to deliver again
  after an acknowledgement too, as at-least-once delivery allows.
- Names such as `Pass`, `Attempt` and `Plan` are specifications. The lemma beside each method
  says what the specification means; the method is proved equal to it.

## Where code and documentation part

- `internal/consumption/quarantine/gcs.go:32-37` promises distinct keys for distinct message ids.
  The digest is 32 bits, so `QuarantineKey.DistinctIdsCanShareName` gives two ids with one key for
  any digest function; `QuarantineKey.SharedNames` is the exact condition.
- `deploy/terraform/gcp/modules/warehouse/main.tf:42` says a later correction wins. It does until
  the corrected message is delivered again: `Redelivery.CorrectionCanBeUndone`, with the exact
  condition in `Convergence.ShownExactly`.
- Rows that tie on the time of ingest have no determined winner, as `README.md:302-308` of the
  repository says; `View.ShownUnderEveryOrder` is the exact condition.
- A cancelled append is meant to be retried (`internal/consumption/bqsink/sink.go:154-158`), but an
  error without a gRPC status counts as permanent: `Errors.NoStatusIsPermanent`.
- `sanitizeID` caps after it trims, so it can leave a character it would trim:
  `QuarantineKey.SanitizingAgain` is the exact condition on the id, and
  `QuarantineKey.SanitizingAgainCanDiffer` such an id.
- A truncated document is meant to be malformed
  (`docs/superpowers/plans/2026-09-19-consumption-ingest.md:799`), but the first end tag called
  like the root ends a document, wherever it stands outside a TimeSeries.
  `EsmpEnding.DocumentExactly` says for every token stream whether it succeeds and with which
  readings; `EsmpEnding.UnclosedCanSucceed` is a root that is never closed and still succeeds,
  `EsmpEnding.InnerRootLosesReadings` a closed document whose readings are not read, and
  `EsmpEnding.LosesWhatIsBeyond` says exactly which readings are lost.

## Model

| member | source | states |
|---|---|---|
| EsmpTree.StreamingEqualsTree | internal/consumption/xmlfmt/esmp.go:63-220 | on every token stream the one-pass parser succeeds exactly when the element is closed, its tree decodes (last scalars over all children, none after a Period; last interval and resolution, none after a Point) and the cap holds; it then yields the tree's readings and stops right after the end tag |
| EsmpTree.PeriodAgrees | internal/consumption/xmlfmt/esmp.go:147-220 | the same from the middle of a Period, whatever has been seen before |
| EsmpTree.SeriesAgrees | internal/consumption/xmlfmt/esmp.go:73-134 | the same from the middle of a TimeSeries |
| EsmpDocument.DocumentFollowsTree | docs/superpowers/plans/2026-09-19-consumption-ingest.md:792-818 | an uncancelled pass over any closed document yields every TimeSeries up to the first end tag called like the root, or fails when one does not decode or the cap is passed; it stops at the end of the document, or before it when an inner element stopped it |
| EsmpDocument.InnerRootCuts | docs/superpowers/plans/2026-09-19-consumption-ingest.md:803-807 | the readings up to there are the whole tree's when no inner element is called like the root, and only such an element stops the reading of a tree that decodes up to there |
| EsmpDocument.DocumentEqualsTree | docs/superpowers/plans/2026-09-19-consumption-ingest.md:776-819 | without such an element the pass succeeds exactly when the whole tree decodes within the cap, with the tree's readings |
| EsmpEnding.NoStopFails | docs/superpowers/plans/2026-09-19-consumption-ingest.md:797-801 | tokens that never reach, properly nested, an end tag called like the root outside the TimeSeries are never a success, however the pass is cancelled |
| EsmpEnding.DocumentExactly | docs/superpowers/plans/2026-09-19-consumption-ingest.md:792-818 | on every token stream an uncancelled pass succeeds if and only if the tokens reach, properly nested, an end tag called like the root outside the TimeSeries, and what stands up to there, completed to a document, decodes within the cap; it yields those readings and stops right after that tag |
| EsmpEnding.UnclosedCanSucceed | docs/superpowers/plans/2026-09-19-consumption-ingest.md:797-807 | a root that is never closed, with an empty element called like it inside: a success without readings |
| EsmpEnding.EndsAtRootExactly | docs/superpowers/plans/2026-09-19-consumption-ingest.md:803-807 | a successful pass over a closed document stops at the end of the document if and only if no inner element is called like the root |
| EsmpEnding.LosesWhatIsBeyond | docs/superpowers/plans/2026-09-19-consumption-ingest.md:803-807 | the tree's readings are those read and then those beyond the end tag that stopped the pass, so all are read if and only if none stand there |
| EsmpEnding.InnerRootLosesReadings | docs/superpowers/plans/2026-09-19-consumption-ingest.md:803-807 | a closed document that decodes, with readings, and a success that yields none of them |
| EsmpDocument.CancellationCuts | internal/consumption/xmlfmt/esmp_test.go:255-285 | a done context yields a prefix of the readings and the transient error or changes nothing; every other failure is a malformed document |
| EsmpDocument.CutExactly | docs/superpowers/plans/2026-09-19-consumption-ingest.md:792-795 | a pass ends in the transient error if and only if the context is done at a check that the pass reaches |
| EsmpDocument.PeriodErrors | internal/consumption/xmlfmt/esmp.go:155-219 | a Period fails only as malformed |
| EsmpDocument.SeriesErrors | internal/consumption/xmlfmt/esmp.go:79-133 | a TimeSeries fails only as malformed |
| EsmpDocument.OnlyThreeRules | internal/consumption/consumption.go:72-89 | a reading of an ESMP document is valid, however stamped, if and only if its meter is not blank, its start is not zero and its value is finite |
| Consumption.ValidExactly | internal/consumption/consumption.go:72-89 | any reading is valid exactly when its meter is not white space, its start is not January 1 of year 1, its resolution is positive, its value finite, and unit and measure not empty; otherwise the error is the invalid reading's |
| Consumption.SpacesAre | internal/consumption/consumption.go:74 | white space, by code point |
| EsmpPrint.EachRuleCanBreak | internal/consumption/consumption.go:72-89 | and each of the three is broken by the one reading of some document |
| EsmpPrint.ParseInvertsPrint | internal/consumption/xmlfmt/esmp.go:85-133 | a printed document parses back to its readings in order: in any namespace, with scalars, quantities and qualities present or absent, with unknown subtrees between the children of every element and around every text, and whatever follows it |
| EsmpPrint.ParsedCodes | internal/consumption/xmlfmt/esmp.go:238-275 | in what such a document parses to, the k-th reading is "missing" where the k-th Point says A02, "estimated" where it says A03 and "measured" otherwise, "production" in a series of type A01 and "consumption" otherwise, and "gross" |
| EsmpPrint.WordsAgree | docs/superpowers/plans/2026-09-19-consumption-ingest.md:1030-1056 | which texts are resolutions and how long, which instants get seconds, and what the codes mean, by an independent table the printed meaning uses |
| EsmpPrint.RealFormIsPrintable | internal/consumption/xmlfmt/esmp.go:44-56 | indented documents, with an end to the interval and a quality on some Points only, are among them |
| EsmpPrint.PeriodIgnoresNoise | internal/consumption/xmlfmt/esmp.go:213-217 | names inside a skipped child of a Period mean nothing |
| EsmpPrint.SeriesIgnoresNoise | internal/consumption/xmlfmt/esmp.go:127-131 | names inside a skipped child of a TimeSeries mean nothing |
| EsmpPrint.LastIgnoresNoise | internal/consumption/xmlfmt/esmp.go:44-56 | nor do unknown children of an element that is decoded whole |
| EsmpPrint.LateScalarRejected | internal/consumption/xmlfmt/esmp.go:92-95 | a scalar anywhere after a Period makes the TimeSeries malformed |
| EsmpPrint.LateSettingRejected | internal/consumption/xmlfmt/esmp.go:168-171 | an interval or resolution anywhere after a Point makes the Period malformed |
| EsmpPrint.LateScalarFailsDocument | internal/consumption/xmlfmt/esmp.go:92-95 | a scalar after a Period in any TimeSeries makes the whole document malformed |
| EsmpPrint.LateSettingFailsDocument | internal/consumption/xmlfmt/esmp.go:168-171 | and an interval or resolution after a Point in any of its Periods |
| EsmpPrint.PeriodDecodesExactly | internal/consumption/xmlfmt/esmp.go:166-217 | a Period decodes if and only if no interval or resolution follows a Point, every interval starts at an instant, every resolution is one of six, every Point has a position of at least one and no position or quantity that does not convert, and with a Point there are a meter, a unit, an interval and a resolution |
| EsmpPrint.BadPeriodFailsDocument | internal/consumption/xmlfmt/esmp.go:166-217 | anything of that kind in any Period makes the whole document malformed |
| Xml.ContentOfPrint | internal/consumption/xmlfmt/esmp.go:127-131 | reading an element through its end tag inverts printing it, whatever follows |
| Xml.PrintOfContent | internal/consumption/xmlfmt/esmp.go:205-217 | and consumes exactly one balanced span |
| EsmpParser.NewEsmp | internal/consumption/xmlfmt/esmp.go:31-37 | a positive batch size is kept, any other becomes 5000 |
| EsmpParser.AppendPoint | internal/consumption/xmlfmt/esmp.go:224-253 | one Point is one reading pushed, flushed at the batch size, or a malformed document with nothing changed; the total counts it |
| EsmpParser.Buffer.Flush | docs/superpowers/plans/2026-09-19-consumption-ingest.md:780-790 | the buffer is emitted and reused, and an empty one is not emitted |
| EsmpParser.ParsePeriod | internal/consumption/xmlfmt/esmp.go:147-220 | on any tokens, any state and any answers of the table the loop pushes exactly the readings of the pass, returns the first failure, and ends right after its own end tag |
| EsmpParser.ParseTimeSeries | internal/consumption/xmlfmt/esmp.go:73-134 | the same for the TimeSeries loop; the total is what was stored plus what is held |
| EsmpParser.StreamDocument | docs/superpowers/plans/2026-09-19-consumption-ingest.md:792-818 | the same for the document loop, with the context checked before every token |
| EsmpParser.Parse | internal/consumption/xmlfmt/esmp.go:59-61 | a whole parse hands the sink the batches of the fold over the pass and stores as many readings as that |
| EsmpParser.PushAllCounts | internal/consumption/xmlfmt/esmp.go:230-250 | until something fails, stored and held readings together are all readings so far |
| Batching.BufferFollowsPlan | internal/consumption/xmlfmt/esmp.go:246-250 | filling and reusing one buffer amounts to emitting the document cut into whole batches, and the rest when it ended properly |
| Batching.PlanCovers | internal/consumption/xmlfmt/esmp.go:246-250 | the batches hold the readings in order, each exactly once, in sizes from one to the batch size |
| Batching.NothingLost | internal/consumption/service.go:48-64 | what was written and what is held are together all readings so far, stamped, in order |
| Batching.SuccessStoresEverything | internal/consumption/service.go:48-73 | a successful attempt wrote all readings in order, once, in accepted, valid, stamped batches, and counts them all |
| Batching.BatchSizeInvisible | internal/consumption/consumption.go:99-104 | two batch sizes with which an attempt succeeds store the same sequence |
| Batching.DurablePrefix | internal/consumption/service.go:53-67 | when every append is accepted, with b the batch size and `bad` the first invalid reading, exactly the first b * (bad / b) readings are stored and counted, all of them on success, and the error is the invalid reading's if it was emitted |
| Batching.AttemptSound | internal/consumption/service.go:49-61 | every batch written is valid and carries the id and the one timestamp; only the last append can have failed |
| Batching.WritesFollowPlan | internal/consumption/service.go:48-64 | however appends are answered, the batches handed to the sink are the first of the plan in order, and emitting does not fail exactly when every batch is valid and every append accepted |
| Batching.AcceptedArePersisted | internal/consumption/bqsink/sink.go:87-121 | when every append was accepted the table got the rows of all batches and no others, in order and once each if no append persists twice |
| Service.Emitter.StampBatch | internal/consumption/service.go:49-56 | stamping in place leaves the stamped readings, or reports that one is invalid |
| Service.Emitter.Emit | internal/consumption/service.go:48-64 | stamp, validate, write, count: the step of the fold, with one invalid reading keeping the batch from the sink |
| BigQuerySink.Sink.Write | internal/consumption/bqsink/sink.go:89-121 | an empty batch does nothing; any other is one append of its rows, in order, persisted as often as the table's answer says, with its error classified |
| Errors.ClassifyIsTransient | internal/consumption/bqsink/sink.go:148-162 | a library error becomes transient exactly when its status is 1, 4, 8, 13 or 14, however it is wrapped, and nothing else |
| Errors.NoStatusIsPermanent | internal/consumption/bqsink/sink.go:153-160 | an error without a gRPC status is permanent |
| Errors.IsALeaf | internal/httpapi/ingest.go:127 | a sentinel is found in an error exactly when it stands at some leaf, however deep and wherever |
| Errors.StatusIsFirstLeaf | internal/consumption/bqsink/sink.go:153 | the status of an error is the first at its leaves |
| Errors.FixedClasses | internal/consumption/consumption.go:42-53 | parser, registry and validation errors are never transient; a done context always is |
| Registry.RootDecides | internal/consumption/registry.go:31-56 | whatever the prolog, the full name of the root selects the parser, which continues right after it |
| Registry.RefusalIsPermanent | internal/consumption/registry.go:33-52 | a refused document is malformed or of unknown format, never transient |
| Registry.OpensExactly | internal/consumption/registry.go:31-56 | a document is opened if and only if its first element is registered, with that parser; without one it is malformed, and with an unregistered one of unknown format |
| Registry.Registry.Register | internal/consumption/registry.go:24-26 | registering again replaces |
| Registry.Registry.For | internal/consumption/registry.go:31-56 | the loop selects what the specification does and leaves the cursor after the root |
| Ingest.Ingest | internal/consumption/service.go:37-74 | an attempt leaves in the table exactly what its appends persisted and returns the count and error of its specification |
| Ingest.SuccessIsDurable | internal/consumption/service.go:65-73 | no error means every reading of the document is in the table, stamped once, and in order and once each if no append persists twice |
| Ingest.SucceedsExactly | internal/consumption/service.go:65-73 | no error exactly when the document ends properly, every batch is valid and every append accepted |
| Ingest.WritesAreFirst | internal/consumption/service.go:48-64 | on any failure too, what was handed to the sink is the first batches of the document in order |
| Ingest.StoredExactly | internal/consumption/service.go:53-67 | with appends accepted, a parse error, a done context or an invalid reading leaves exactly the rows of the whole batches before the first invalid reading in the table, and that many are reported |
| Ingest.CapExactly | docs/superpowers/plans/2026-09-19-consumption-ingest.md:724-728 | a closed document that decodes is read if and only if it holds at most 5,000,000 readings, and is malformed otherwise |
| Ingest.WritesAreSound | internal/consumption/service.go:49-60 | every batch handed to the sink is valid, stamped and no larger than the parser's batch |
| Ingest.TransientExactly | internal/consumption/service.go:40-67 | the error is transient exactly when an append was answered with a retryable code, or the context is done at a check the pass reaches and every batch before it was valid and accepted |
| Handler.Endpoint.Consume | internal/httpapi/ingest.go:64-138 | 401 exactly for a request that is not trusted, 413 exactly for a trusted one over 16777216 bytes, 503 for a smaller one that breaks off, each with table, appends and quarantine untouched; otherwise the answer, the rows and the quarantine writes of the ingest; 200 alone writes to quarantine, the payload under its id, or the raw body under none |
| Handler.Endpoint.Park | internal/httpapi/ingest.go:143-157 | one quarantine write, whose failure changes nothing |
| Handler.AnswersAreSafe | internal/httpapi/ingest.go:64-138 | 204 only for a trusted, complete request with every reading accepted and in the table; 200 with exactly one quarantine write; 401, 413 and 503 with none |
| Handler.EarlyExactly | internal/httpapi/ingest.go:68-108 | which requests are answered 401, 413, 503 and 200 before there is a message |
| Handler.VerdictExactly | internal/httpapi/ingest.go:117-137 | no error is 204, one with the transient sentinel at a leaf 503, any other 200 |
| Handler.RetriesExactlyTransient | internal/httpapi/ingest.go:117-137 | past the envelope, 503 exactly when an append was rejected with status 1, 4, 8, 13 or 14, or the context is done at a reached check with all before it accepted, so a permanent error is acknowledged |
| Interval.IntervalStartExact | docs/superpowers/plans/2026-09-19-consumption-ingest.md:1014 | the start is exact if and only if position - 1 is at most (2^63 - 1) / resolution |
| Interval.PositionsTile | internal/consumption/xmlfmt/esmp.go:225-238 | within the bound intervals of distinct positions are disjoint and neighbours tile |
| Interval.ShortResolutionsExact | docs/superpowers/plans/2026-09-19-consumption-ingest.md:1044-1056 | every position under the cap is exact at quarter and half hours |
| Interval.HourlyWraps | docs/superpowers/plans/2026-09-19-consumption-ingest.md:1014 | at one hour, position 2,562,049 starts before its Period |
| Wire.RoundTrip | internal/consumption/bqsink/schema.go:31-44 | a row gives its reading back but for what its timestamps hold below the microsecond, and exactly when they hold nothing there |
| Wire.RowColumns | internal/consumption/bqsink/schema.go:31-44 | every column holds its field, times in whole microseconds and the resolution in whole seconds, rounded down |
| Wire.MicroFloors | internal/consumption/bqsink/schema.go:34 | the encoding floors, before 1970 too |
| Wire.MicroKeepsOrder | internal/consumption/bqsink/schema.go:34 | and keeps order |
| Wire.PositionsStayApart | internal/consumption/bqsink/schema.go:34-35 | two positions of a Period, both within the exact bound, never share a start in the table |
| Wire.RowsShareStart | internal/consumption/bqsink/schema.go:34-35 | any two positions share a start in the table if and only if their offsets differ by a multiple of 2^64 nanoseconds |
| Wire.RowsCanShareStart | internal/consumption/bqsink/schema.go:34-35 | as positions 1 and 2^53 + 1 do at quarter hours |
| View.OneNewestRowPerKey | deploy/terraform/gcp/modules/warehouse/main.tf:48-57 | the view has exactly one row for each key of the table, and none of that key is newer |
| View.OneNewestRowPerCell | deploy/terraform/gcp/modules/warehouse/main.tf:51-56 | in the columns: every row has a shown one with its metering point, start, direction and measure, which is no older, and two shown rows that agree in these four are one |
| EndToEnd.PositionsBothShown | deploy/terraform/gcp/modules/warehouse/main.tf:53 | readings at two positions of one Period, within the exact bound, are both shown, each at its own start |
| View.ShownUnderEveryOrder | deploy/terraform/gcp/modules/warehouse/main.tf:51-56 | a row is shown however ties are broken if and only if all others of its key are strictly older or copies |
| View.PermutationInvisible | deploy/terraform/gcp/modules/warehouse/main.tf:51-56 | the order of appends does not matter |
| View.UntiedKeyIsStable | deploy/terraform/gcp/modules/warehouse/main.tf:51-56 | strictly older rows, wherever added, change nothing for an untied key |
| Delivery.StepKeepsInvariant | internal/httpapi/ingest.go:64-138 | every step of every interleaving keeps rows traced to their delivery, accepted batches in the table, answers matched by what was stored or quarantined, and fates by their cause |
| Delivery.RunsKeepInvariant | internal/consumption/service.go:45-67 | so every reachable state has it |
| Convergence.EveryRunIsSafe | internal/httpapi/ingest.go:58-63 | in every run each row is a valid reading with its message's id and its delivery's one timestamp, 204 means all rows are there, and exactly the deliveries answered 200 wrote to quarantine, once |
| Refinement.AttemptIsRun | internal/consumption/service.go:37-74 | an attempt, with any cancellation and any answers, is a run of the protocol with the same rows and the matching answer |
| Refinement.RequestIsRun | internal/httpapi/ingest.go:64-138 | the endpoint's handling of any request is a run of the protocol, step for step of one delivery, with the same rows and answer, and with a quarantine write by that delivery exactly when it answers 200 |
| Requests.RequestInAnyMerge | internal/httpapi/ingest.go:64-138 | the steps of a request lead, in any merge with the steps of others, to the endpoint's answer and the same rows |
| Requests.RequestsAreRun | internal/httpapi/ingest.go:64-138 | any number of requests have steps of their own of which every merge, with starts anywhere in between, is a run in which each gets the endpoint's answer and adds the rows the endpoint appends |
| Merging.AnyMergeIsRun | internal/httpapi/ingest.go:64-138 | any merge of requests, each starting when it likes, of which each could take its own steps alone, is a run, and each ends with the answer and the rows it would alone |
| Interleaving.DeliveriesCommute | internal/consumption/bqsink/sink.go:112-118 | steps of different deliveries commute, to the same answers, quarantine writes and rows up to order, which no untied key of the view can see, and to the same fates if they are of different messages |
| Termination.StepLowersMeasure | deploy/terraform/gcp/modules/messaging/main.tf:64-67 | every step lowers one measure |
| Termination.RunsAreBounded | deploy/terraform/gcp/modules/messaging/main.tf:64-67 | so every run ends, under every fault pattern |
| Termination.NothingIsStuck | deploy/terraform/gcp/modules/messaging/main.tf:59-67 | until all is settled some step without a fault is possible |
| Termination.RunsSettle | deploy/terraform/gcp/modules/messaging/main.tf:59-67 | from any state a run leads to where every message is stored, quarantined or dead-lettered |
| Termination.FateIsFinal | internal/httpapi/ingest.go:58-63 | the first of these outcomes is the only one |
| Termination.FirstAnswerDecides | internal/httpapi/ingest.go:58-63 | of an undecided message a delivery's 204 makes it stored, a 200 quarantined, and nothing else decides it |
| Termination.AcknowledgedIsDecided | internal/httpapi/ingest.go:58-63 | in every run a message with a delivery that answered 204 or 200 is decided |
| Termination.DeliveriesWithinLimit | deploy/terraform/gcp/modules/messaging/variables.tf:49-53 | in every run the deliveries of a message that reached the endpoint, refused ones too, and those left are together the limit |
| Convergence.ShownExactly | deploy/terraform/gcp/modules/warehouse/main.tf:48-57 | a stored message is what the view shows on its keys, however ties are broken, if and only if every newest row there is one it means |
| Convergence.UntimedExactly | deploy/terraform/gcp/modules/warehouse/main.tf:51-56 | what "but for the time of ingest" leaves out is that column and no other |
| Convergence.RedeliveryConverges | internal/consumption/bqsink/sink.go:87-121 | after any run with one complete delivery of a document whose rows agree where they share a key, and other messages strictly older on its keys, the view shows what one clean delivery would |
| Convergence.CorrectionWins | deploy/terraform/gcp/modules/warehouse/main.tf:42-56 | a complete message whose ingest started last, and whose rows agree where they share a key, wins on all its keys, in every interleaving of the appends |
| Convergence.LateRedeliveryUndoesCorrection | deploy/terraform/gcp/modules/warehouse/main.tf:42-56 | the old message delivered again after a correction takes the keys back |
| Redelivery.CleanDelivery | internal/consumption/service.go:65-73 | without faults a valid document is stored whole and answered 204 |
| Redelivery.CorrectionCanBeUndone | deploy/terraform/gcp/modules/warehouse/main.tf:42 | for any document and any correction of it there is a run, all answered 204, after which the view does not show the correction |
| EndToEnd.StoredIsTheDocument | internal/consumption/bqsink/sink.go:87-88 | a closed document without an inner element called like its root, acknowledged as stored, decodes, and every reading of its tree is a row of the table |
| EndToEnd.StoredIsWhatWasRead | internal/consumption/bqsink/sink.go:87-88 | whatever a stored message holds, it reaches an end tag called like its root, decodes up to there, and every reading up to there is a row of the table |
| EndToEnd.ViewShowsTheDocument | deploy/terraform/gcp/modules/warehouse/main.tf:48-57 | and while it is the latest on its keys, and its rows agree where they share one, the view shows there exactly the readings of its tree |
| QuarantineKey.SanitizeId | internal/consumption/quarantine/gcs.go:53-79 | the loop computes the replaced, trimmed, capped id: 1 to 128 letters, digits, dots, underscores and dashes, and an id of 1 to 128 letters, digits and dashes as it is |
| QuarantineKey.SanitizedIsSafe | internal/consumption/quarantine/gcs.go:51-79 | for every id the result is 1 to 128 letters, digits, dots, underscores and dashes and starts with no dot or underscore |
| QuarantineKey.SafeIdIsKept | internal/consumption/quarantine/gcs.go:51-79 | an id of 1 to 128 such characters, with no dot or underscore at its ends, is kept |
| QuarantineKey.SanitizedMiddle | internal/consumption/quarantine/gcs.go:53-79 | what becomes of any id with a letter, digit or dash: what surrounds the first and last of these goes, and the first 128 characters between are kept, or underscores where not allowed |
| QuarantineKey.NothingToKeep | internal/consumption/quarantine/gcs.go:73-76 | an id without any is "unknown" |
| QuarantineKey.SanitizingAgain | internal/consumption/quarantine/gcs.go:65-71 | sanitising twice is sanitising once exactly when the trimmed id is at most 128 long or its 128th character is none that is trimmed |
| QuarantineKey.SanitizingAgainCanDiffer | internal/consumption/quarantine/gcs.go:65-71 | 127 letters, a dot and a letter sanitise differently the second time |
| QuarantineKey.ThreeSlashes | internal/consumption/quarantine/gcs.go:36-43 | no id escapes the date prefix: the key has three slashes |
| QuarantineKey.NameParts | internal/consumption/quarantine/gcs.go:38-43 | date partition, time, digest, safe part and extension stand where they should |
| QuarantineKey.SharedNames | internal/consumption/quarantine/gcs.go:32-43 | at one instant two ids share a key if and only if digests and safe parts both coincide |
| QuarantineKey.DistinctIdsCanShareName | internal/consumption/quarantine/gcs.go:32-49 | whatever the digest function, two distinct ids of 33 characters share a key |

## Left out

- Tasks CRUD, Postgres, health, middleware, server lifecycle, configuration, the migrator, Terraform and Kubernetes beyond the cited resources: thin layers.
- The EnergyAccount parser: only its registration is known here.
- Error messages and logging; `sanitizeMetadata`, `joinCloseErrors`, `New` and `Close` of the sink, the GCS writer, OIDC verification: calls out of the program or one-branch code.
- `BigQuerySink.Sink.Write`: a row that cannot be encoded, or a field missing from the table descriptor (`internal/consumption/bqsink/sink.go:98-108`), is covered only as a rejected append that persisted nothing and has no status.
- `Registry.Registry.For`: parsers are ESMP parsers with their batch size; the root's attributes, which no parser here reads, are not kept.
- `Xml.Decoder.Element`: consumes its span in one step, without the depth limit of `encoding/xml`.
- `Xml.Decoder.Token`: matches end tags by the resolved name; the prefixes as written, which `encoding/xml` compares first, are not kept, so tags of one name under two prefixes of one namespace match here and not there.
- `QuarantineKey.SanitizeId`: characters stand for runes; an id that is not valid UTF-8 is not modelled.
- `Delivery.RunsKeepInvariant`: backoff delays, the acknowledgement deadline and message ordering are left to the choice of steps, which allows them all.
- `Termination.DeliveriesWithinLimit`: Pub/Sub keeps the limit only approximately; the machine keeps it exactly.
