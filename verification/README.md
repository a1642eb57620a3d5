# A verified model of the AgentGateway observation bridge

The bridge receives OpenTelemetry log records and spans, normalizes the tool calls among them,
buffers them by join key, assembles one execution per call and appends it to a JSONL file. While
the file is written new signals keep arriving, and a write may fail half-way and be rolled back.
This project models that pipeline and proves what it guarantees over whole runs.

How the files fit together:

- `Text`, `Observation`, `Normalize`, `Merging`: strings, the execution record, the two
  normalizers and `merge`, with the loops of the source as methods proved against functions.
- `Telemetry`, `NormalizeLaws`, `MergeLaws`, `Audit`: what each field of a signal takes from its
  attributes and bytes, what one signal says, what a set of signals says
  (`Summary`, the reference every record is compared with), and when `Disagreements` is complete.
- `Sink`: the transactional append as a class over a file that may take part of a line, and
  `ReadAll`.
- `Processor`: every critical section of the processor, first as a function on its fields and then
  as the method that updates them in place.
- `Machine`: the whole pipeline as a state machine. Its steps are the atomic sections: count a
  signal, buffer it, snapshot, skip, write, acknowledge, count a failure, roll back, finish.
  Anything may arrive between any two of them. A ghost history remembers where each signal went
  and which signals each record was built from.
- `BufferProofs`, `SnapshotProofs`, `StepProofs`: the inductive invariant `Inv`.
- `Guarantees`, `RunLaws`, `Observers`, `Drain`, `Failures`, `Calls`, `Counters`, `SlotAudit`,
  `Privacy`, `Edges`, `Witnesses`: the theorems, exactly where they stop, and states where they do.
- `Pipeline`: the class that drives processor and sink, and whose `Valid` ties the objects to a
  reachable machine, so that the theorems hold of the objects.

A state is `Reachable` when some run leads to it from an empty processor over any initial file.

Where the code and its comments differ, or the code does something its comments do not say, the
model follows the code:

- `merge` is documented to record every objection (internal/bridge/processor.go:483-485,
  internal/observation/execution.go:143-147), but it starts from the base's list and drops the
  list of its second argument (line 489). `Audit.MergeAuditsExactlyWhen` says exactly when one merge
  keeps the list complete, and `SlotAudit` which slots and records of a running pipeline are.
- An ambiguous record may say that no signal carried an id (internal/bridge/processor.go:568):
  an unattributed base absorbs an ambiguous record and its text stays until another ambiguous one
  is merged in. `MergeLaws.MisleadingDetailExactlyWhen` is the exact condition for one merge,
  `Audit.SlotMisleadsExactlyWhen` for a slot.
- An error type of blanks only marks a signal as failed although `firstNonEmpty` then treats it as
  absent (internal/normalize/agentgateway.go:167-202). `NormalizeLaws.StatusMarksErrors` is the exact
  condition for a signal, `Guarantees.StatusIsTheWorstAsserted` for a written record.
- `JoinKey` trims both ids while the parent key built during assembly does not
  (internal/bridge/processor.go:270 and 355). The two agree exactly when both ids are trimmed
  (`NormalizeLaws.ParentKeyIsJoinKeyExactlyWhen`), which `hexID` guarantees; a span that takes its
  trace id from an attribute with a blank before it can miss its parent
  (`NormalizeLaws.ParentKeyCanMiss`).
- `JoinKey` is documented to be exact (internal/observation/execution.go:149-151), which ids from
  attributes that hold a slash break: `NormalizeLaws.KeyIsExactExactlyWhen`.
- ParentsSuppressed and the finalized keys count a shared parent once for each record:
  `Counters.ParentsSuppressedExactlyWhen`, `Counters.UnsharedCountersAddUp`.
- The parent rule looks one level up. `Drain.FlushDrainsExactlyWhen` and
  `Drain.FlushIsStuckExactlyWhen` say what one Flush leaves behind for any claim graph, `Edges` what
  shared parents, chains and self-parented spans do.
- A failed assembly is documented to roll every unwritten snapshot back (line 310-312), which holds
  except where a record written before the failure consumed the same parent:
  `Failures.RemainderIsInvisibleExactlyWhen` and `Failures.RetryKeepsParentExactlyWhen`.

## Model

| member | source | states |
|---|---|---|
| Text.SortNonEmpty | internal/bridge/processor.go:653-665 | sorting the collected names yields a strictly increasing list of exactly the non-empty ones |
| Text.Sort | internal/bridge/processor.go:386 | sorting the collected names yields a strictly increasing list of exactly the same ones |
| Text.AscendingIsUnique | internal/bridge/processor.go:663 | a sorted duplicate-free slice depends on its elements alone, not on collection order |
| Text.JoinSplit | internal/normalize/aliases.go:93 | splitting at a separator leaves parts without it that join back to the string |
| Text.SplitJoin | internal/normalize/aliases.go:93 | any non-empty list of parts without the separator is what splitting their join gives, so there is one way to split |
| Text.TrimIsMiddle | internal/observation/execution.go:158-159 | trimming removes blanks from both ends, all of them, and nothing else |
| Text.LessIsLexicographic | internal/bridge/processor.go:386 | the order is bytewise: a proper prefix first, or the smaller where they first differ |
| Observation.ClassifyOperation | internal/observation/execution.go:183-204 | the two loops compute the reference classification: nothing present, all equal and well formed, conflict, or malformed |
| Observation.ClassifyMeetsContract | internal/observation/execution.go:176-204 | the answer is the verdict on the set of present ids, whatever order or repetition; an id is carried exactly when correlated, well formed and trimmed, and a detail exactly otherwise |
| Observation.JoinKeyNeedsBothIDs | internal/observation/execution.go:157-164 | a key is empty exactly when one of the ids is blank, and otherwise both ids without the blanks around them, joined by a slash |
| Normalize.AttributeMap | internal/normalize/agentgateway.go:261-270 | the loop computes the reference map of the attributes |
| Normalize.LastAttributeWins | internal/normalize/agentgateway.go:261-270 | that map holds exactly the keys some non-nil attribute sets to a non-nil value, each with the value of the last one that does |
| Normalize.PayloadAvailability | internal/normalize/agentgateway.go:216-229 | the loop reports a payload as refused exactly when its raw attribute is non-empty, and as not emitted otherwise |
| Normalize.ReadDuration | internal/normalize/agentgateway.go:248-259 | the loop computes the reference duration |
| Normalize.DurationIsFirst | internal/normalize/agentgateway.go:248-259 | that is what the first value says that is not blank without its unit and parses, or zero if none does |
| Normalize.OperationID | internal/normalize/aliases.go:89-103 | the nested loops compute the reference list of ids |
| Normalize.OperationIDsInOrder | internal/normalize/aliases.go:89-103 | that is the non-blank trimmed comma-separated parts of the three keys, each once, in order of first appearance |
| NormalizeLaws.SignalVerdictIsTokenVerdict | internal/normalize/aliases.go:89-103 | the ids found are exactly the non-blank trimmed parts under any of the keys, so a signal's classification is the verdict on that set |
| NormalizeLaws.StatusMarksErrors | internal/normalize/agentgateway.go:167-202 | a failed or cancelled outcome names a non-blank error type and any other carries neither type nor code, if and only if the source's error type is not blank-but-set |
| NormalizeLaws.StatusIsDecidedBy | internal/normalize/agentgateway.go:162-202 | cancelled, failed and successful outcomes each characterized by the evidence: a cancelling error type; otherwise any error type, code or error span; otherwise completion or an ok span |
| NormalizeLaws.OnlyToolCallsAndNoPayload | internal/normalize/agentgateway.go:146-160 | a signal normalizes exactly when it is a tools/call on a tool that names it; its record holds no payload and no verified annotation, refuses exactly the payloads offered, and is a client's exactly for client spans |
| NormalizeLaws.SpanTimes | internal/normalize/agentgateway.go:123-136 | a span's times are unset exactly when the source left them unset; its duration is zero unless both are set, and then the whole milliseconds between them, rounded toward zero in either order |
| NormalizeLaws.NormalizedIsWellNormalized | internal/normalize/agentgateway.go:68-144 | every log and span that normalizes has a coherent correlation equal to the verdict on its tokens, names its one signal and transport, records no disagreement, marks errors exactly unless the error type is blank-but-set, and has status, payload marks and fields as its telemetry gives them |
| NormalizeLaws.StatusFitsTelemetry | internal/normalize/agentgateway.go:162-211 | the status of every normalized signal, each value if and only if, from its error type and code, its span status and end time, or its four completion attributes |
| NormalizeLaws.ErrorNamesItsSource | internal/normalize/agentgateway.go:167-202 | its error code is the source's, and its error type the source's or a name made from the code, or from the span's error, in each case |
| NormalizeLaws.CancelInAnyCase | internal/normalize/agentgateway.go:171-173 | an error type names a cancellation exactly when the word stands in it, in any mixture of ASCII cases |
| NormalizeLaws.PayloadFitsTelemetry | internal/normalize/agentgateway.go:213-229 | its two payloads are refused exactly when offered |
| NormalizeLaws.SignalNamesItsIDs | internal/observation/execution.go:183-204 | its explanation lists all its ids in order if there are several, names the one that is not well formed, and is empty for one that is |
| Telemetry.FieldsFitTelemetry | internal/normalize/agentgateway.go:68-144 | each of its ten text fields and both times are what its own bytes, counts and attributes give that field, aliases in order |
| Telemetry.AliasesFallBack | internal/normalize/aliases.go:21-66 | each aliased field is the first non-empty attribute of its canonical name and aliases, in the order of the table |
| Telemetry.LogDuration | internal/normalize/agentgateway.go:248-259 | a log's duration is what its duration attribute says without unit and blanks, or else its duration_ms, or zero |
| Telemetry.UnitIsDropped | internal/normalize/agentgateway.go:250 | exactly one "ms" at the end and the blanks around what is left are dropped, and nothing else |
| Telemetry.AttributeTextSaysValue | internal/normalize/agentgateway.go:272-285 | an integer attribute becomes the digits that say it, without leading zeros and after a minus if negative |
| Telemetry.HexSpells | internal/normalize/agentgateway.go:287-292 | an id is spelled with two lower-case hexadecimal digits for each byte, the high one first |
| Telemetry.InstantWraps | internal/normalize/agentgateway.go:294-299 | an instant is its count of nanoseconds taken as a signed 64-bit number, and unset exactly for the count zero |
| NormalizeLaws.HexIsInjective | internal/normalize/agentgateway.go:287-292 | different id bytes have different hex ids |
| NormalizeLaws.HexKeysAreExact | internal/observation/execution.go:149-164 | keys of two non-empty byte ids are non-empty, and equal exactly when both trace bytes and span bytes are |
| NormalizeLaws.KeyIsExactExactlyWhen | internal/observation/execution.go:149-164 | for any ids that are not blank, no other ids, up to blanks around them, share the key, if and only if the key reads as two trimmed ids around a slash in one way only |
| NormalizeLaws.SlashedTraceCollides | internal/observation/execution.go:157-164 | a trace id with a slash shares its key with other ids |
| NormalizeLaws.KeyOfByteIDs | internal/normalize/agentgateway.go:68-144 | a normalized signal carrying both ids is keyed by the hex of exactly those ids |
| NormalizeLaws.JoinIsExact | internal/bridge/processor.go:267-273 | two normalized signals share a key exactly when their raw id bytes are equal, and the parent key of a span is the key of exactly the signals carrying its trace and parent id bytes |
| NormalizeLaws.ParentKeyIsJoinKeyExactlyWhen | internal/bridge/processor.go:270 | for ids that are not blank the parent key is the join key of the pair exactly when both are trimmed |
| NormalizeLaws.AttributeTraceClaimsExactlyWhen | internal/bridge/processor.go:355 | a span without trace bytes claims the key of its parent's ids exactly when its trace.id attribute is trimmed |
| NormalizeLaws.ParentKeyCanMiss | internal/normalize/agentgateway.go:123-136 | a concrete client span that normalizes and claims a key other than the join key of its parent |
| NormalizeLaws.LogWithholdsPayload | internal/normalize/agentgateway.go:68-97 | two logs that differ only in HTTP status and raw payload values, agreeing on which are empty, normalize to the same record |
| NormalizeLaws.SpanWithholdsPayload | internal/normalize/agentgateway.go:102-144 | the same for spans |
| Privacy.PayloadsNeverShow | internal/normalize/agentgateway.go:213-229 | two runs from one start whose telemetry differs only in withheld values end with the same buffer, counters, written records and file |
| Merging.UnionOf | internal/bridge/processor.go:653-665 | the loop and sort return the strictly increasing list of exactly the non-empty names of either argument |
| Merging.Transport | internal/bridge/processor.go:638-651 | all three cases prefix each name and join them with "+" |
| Merging.TransportNamesAll | internal/bridge/processor.go:636-651 | taken apart at the plus signs the transport gives one prefixed part for each name, in order |
| MergeLaws.JoinIsSemilattice | internal/bridge/processor.go:536-600 | the join on correlation, status, seen-from and availabilities is idempotent, commutative and associative |
| MergeLaws.SummaryOfUnion | internal/bridge/processor.go:486-534 | what two sets of signals say together is the join of what each says |
| MergeLaws.MergeVerdict | internal/bridge/processor.go:566-576 | re-classifying from two merged records is the lattice join of their verdicts, and stays coherent |
| MergeLaws.MergeMarks | internal/bridge/processor.go:536-561 | a merged status is the maximum under unknown, success, cancelled, error; its error type is blank exactly when both are; and merging keeps failures and error types together |
| MergeLaws.MisleadingDetailExactlyWhen | internal/bridge/processor.go:566-576 | a merged record is ambiguous and says that no signal carried an id exactly when the base carried none and the other is ambiguous, or one of them says so already and no other ambiguous one is merged with or before it; records without an id always say so |
| NormalizeLaws.ClassificationExplainsItself | internal/observation/execution.go:183-204 | a classification says that no signal carried an id when it is unattributed and never when it is ambiguous |
| MergeLaws.MergeIsTheJoin | internal/bridge/processor.go:486-534 | on the order-free part of a record merge is exactly that join, and keeps a record's fields in agreement |
| MergeLaws.MergeTreesAgree | internal/bridge/processor.go:486-534 | merging in another order or grouping, or merging a record in twice, gives the same order-free answer |
| MergeLaws.MergeRepresents | internal/bridge/processor.go:486-534 | merging a record of one set of signals with a record of another gives a record of their union, whatever they are: in its order-free part, and in that every field and every listed disagreement comes from signals of the union |
| MergeLaws.MergeFillsGaps | internal/bridge/processor.go:491-517 | ids, kind, parent, tool, target, times and source fields keep the base's value unless absent and lose none, and a duration is computed only where neither side asserts one |
| MergeLaws.MergeKeepsTheRest | internal/bridge/processor.go:519-533 | error type and code are filled where blank, a read-only annotation the addition knows wins, fingerprints, verification and observer type stay the base's, and the base's disagreements stay first |
| MergeLaws.MergeListsContradictions | internal/bridge/processor.go:536-634 | merge appends exactly one entry for each of tool, target and status on which both assert something different, in this order and with either side's values and signals |
| MergeLaws.MergeExplains | internal/bridge/processor.go:563-576 | which explanation a merged record carries, for every combination of the two correlations |
| Audit.MergeAuditsExactlyWhen | internal/bridge/processor.go:486-534 | after a merge an empty list means no two signals contradict each other exactly when the second list was empty, the first was not, or the two records themselves contradict; the base's entries are never dropped |
| Audit.SlotIsAudited | internal/bridge/processor.go:208-211 | a left fold of single signals has an empty list exactly when no two of them contradict each other |
| Audit.SlotMisleadsExactlyWhen | internal/bridge/processor.go:208-211 | a left fold of signals is ambiguous and says that no signal carried an id exactly when its only ambiguous signal came after at least one signal without an id and after no other |
| Audit.SlotMergeCanDropDisagreements | internal/bridge/processor.go:489 | for any record naming a tool and any other tool, merging slots instead of signals can lose the recorded contradiction |
| Sink.JSONL.Write | internal/sink/jsonl.go:62-96 | the method computes the reference write; it accepts a record exactly when the sink is not poisoned, the record encodes and the append takes its whole line, and poisons the sink exactly when an append that was tried fails and cannot be rolled back |
| Sink.WriteIsTransactional | internal/sink/jsonl.go:58-96 | success appends one whole line; a failure leaves sink and file as they were and usable, unless it cannot be rolled back, and then exactly the prefix the append took stays and the sink accepts nothing any more |
| Sink.WriteSucceedsExactlyWhen | internal/sink/jsonl.go:62-96 | which writes are accepted and which failures poison, each if and only if, from what the platform did |
| Sink.FileIsAcceptedLines | internal/sink/jsonl.go:62-96 | after any sequence of attempts an unpoisoned file is its initial content and one line per accepted record in order |
| Sink.ReadAll | internal/sink/jsonl.go:110-136 | the scan loop computes the reference reader, with its blank-line, bad-line and too-long cases |
| Sink.LinesAreTheFile | internal/sink/jsonl.go:118-122 | the lines the scan meets hold no newline and, each ended by one, are the file, up to a newline missing at its end |
| Sink.ReadAllExactly | internal/sink/jsonl.go:121-134 | of any file ReadAll returns the records on its non-blank lines in order exactly when every line fits and decodes; otherwise the first line that does not decides, as too long or by its number |
| Sink.ReturnIsDropped | internal/sink/jsonl.go:121 | a carriage return at the end of a line is not part of what it says, and nothing else is dropped |
| Sink.ReadBackRoundTrip | internal/sink/jsonl.go:110-136 | from an empty file ReadAll returns exactly the accepted records in order, if and only if each line fits the scanner's buffer |
| Processor.Processor.constructor | internal/bridge/processor.go:94-109 | a new processor holds nothing and has counted nothing |
| Processor.Processor.SetObserver | internal/bridge/processor.go:114-119 | sets the identity and nothing else |
| Processor.Processor.Buffer | internal/bridge/processor.go:178-218 | the method has the effect of the reference section: unjoinable, late, or stamped with the observer and stored, pending while the key is in flight and active otherwise |
| Processor.Processor.ReadStats | internal/bridge/processor.go:159-170 | StillBuffered counts every key with a live active or pending signal once |
| Processor.Processor.ReadyKeys | internal/bridge/processor.go:379-388 | exactly the buffered keys first seen before the cutoff, or all of them without one, in strictly increasing order |
| Processor.Processor.ChildMap | internal/bridge/processor.go:267-273 | every claimed parent, and only such, is mapped to one of the client spans naming it |
| Processor.Processor.Snapshot | internal/bridge/processor.go:257-297 | for some ready list and claim map of the current buffer, the records of the ready unskipped keys, with all their keys reserved and nothing else changed |
| Processor.Processor.DiscardPending | internal/bridge/processor.go:474-481 | drops what is pending under the key and returns how many signals that was |
| Processor.Processor.AcknowledgeRecord | internal/bridge/processor.go:412-438 | finalizes every consumed key and moves the counters of one record |
| Processor.Processor.MergePendingIntoActive | internal/bridge/processor.go:443-469 | folds both pending slots into the active ones, keeping an existing first-seen time |
| Processor.Processor.RestoreReserved | internal/bridge/processor.go:313-327 | skipping already restored keys makes no difference: the effect is that of restoring the keys of all remaining records |
| Processor.RestoredStays | internal/bridge/processor.go:316-325 | restoring a key a second time changes nothing |
| SnapshotProofs.BatchMembers | internal/bridge/processor.go:275-299 | a batch holds one record for every ready, unskipped, present key, in strictly increasing key order |
| SnapshotProofs.SnapshotItem | internal/bridge/processor.go:331-376 | a snapshotted record says exactly what the signals live under its keys say, and its flags agree with them |
| StepProofs.StepKeeps | internal/bridge/processor.go:178-469 | every atomic section keeps the whole invariant |
| StepProofs.ReachableStatesAreSound | internal/bridge/processor.go:121-469 | the invariant holds in every state of every run |
| Observers.EveryRecordNamesItsObserver | internal/bridge/processor.go:195-198 | in every reachable state every slot and every accepted record carries the processor's observer id and version, or neither if it has no id |
| Guarantees.StructuralInvariant | internal/bridge/processor.go:159-217 | in every reachable state the key sets of the maps fit together: first-seen is spans and logs, pending within in flight within first-seen, emitted apart from all, nothing in flight while idle, StillBuffered the size of first-seen |
| Guarantees.SignalsAreConserved | internal/bridge/processor.go:121-218 | signals seen are ignored, unjoinable, late, active, pending, acknowledged or between the two counting sections, and the counts add up |
| Guarantees.NoSignalIsLost | internal/bridge/processor.go:293-439 | an acknowledged signal is part of the record the sink accepted for it, one of an unfinalized key is folded into its slot, and one of a finalized key is late exactly when no accepted record holds it |
| Guarantees.ExactlyOnceOnDisk | internal/bridge/processor.go:390-439 | the file is its initial content and one line per accepted record, record keys are pairwise distinct, extra bytes exist only after poison and are a prefix of the line of the record whose write poisoned the sink, and Emitted counts the accepted records not awaiting acknowledgement |
| Guarantees.PoisoningWriteTearsItsRecord | internal/sink/jsonl.go:84-94 | over any run after the write that poisoned the sink, the extra bytes are what that write left and are attributed to its record |
| Guarantees.WrittenFileReadsBack | internal/sink/jsonl.go:108-136 | in every reachable state a file that started empty and is not poisoned reads back as the accepted records, if and only if their lines fit |
| Guarantees.PoisonIsTerminal | internal/sink/jsonl.go:76-78 | after poison no run changes the file, the accepted records, the finalized keys or Emitted |
| Guarantees.RecordSaysWhatItsSignalsSay | internal/bridge/processor.go:331-376 | correlation, id, status, seen-from, transport and both availabilities of a written record are those of its set of signals, all of them under its keys |
| Guarantees.RunsAgreeOnSameSignals | internal/bridge/processor.go:249-308 | two runs whose records were built from the same signals, up to when and how often they came, write the same answer |
| Guarantees.AttributionIsExplicit | internal/bridge/processor.go:566-576 | a record is correlated exactly when the tokens on all its signals are one well-formed id, then carries that id and no detail, and its signals lie under its own key or the parent key its client span names |
| Guarantees.RecordNamesItsTransports | internal/bridge/processor.go:636-651 | a written record names exactly the transports of its signals: both for logs and spans together, and otherwise the one |
| Guarantees.StatusComesFromTelemetry | internal/normalize/agentgateway.go:162-211 | a written record failed exactly when one of its signals carries an error type, a code or an error span and names no cancellation; was cancelled when none does but one names a cancellation; and succeeded when none shows any of these and one was completed |
| Guarantees.PayloadComesFromTelemetry | internal/normalize/agentgateway.go:213-229 | each raw payload of a written record is refused exactly when one of its signals offered it, and not emitted otherwise |
| Guarantees.NothingIsInvented | internal/bridge/processor.go:483-534 | every id, kind, parent, tool, target, source field and time of a written record is what the telemetry of one of its signals gives that field, and empty only if none gives it anything; duration and error texts are a signal's, or the time between a start and an end of signals; every listed disagreement is one between two of its signals |
| Guarantees.StatusIsTheWorstAsserted | internal/bridge/processor.go:536-561 | a written status is the worst any of its signals asserts, and the record names an error exactly when it failed, if and only if some signal names one in case it did; no source without blank error types breaks that |
| Guarantees.CountersCountRecords | internal/bridge/processor.go:416-438 | the counters are the counts of acknowledged records by seen-from and by correlation, both splits add up to Emitted, and the finalized keys are the consumed ones |
| Guarantees.FinalizedKeysAddUp | internal/bridge/processor.go:363-419 | finalized keys are at most Emitted plus consumed parents, and equal to it exactly when no key was consumed twice |
| Counters.ParentsSuppressedExactlyWhen | internal/bridge/processor.go:47-50 | in every reachable state ParentsSuppressed is the number of acknowledged records that folded in a span of their parent, at least the number of such parents, and equal to it exactly when no two records share one |
| Counters.UnsharedCountersAddUp | internal/bridge/processor.go:363-424 | over any run in which no two client spans name one parent and none names itself when an assembly starts, the finalized keys are Emitted plus the consumed parents and ParentsSuppressed is the number of distinct suppressed parents |
| Counters.CountersCountEvents | internal/bridge/processor.go:121-186 | over any run from the start the logs and spans seen, the signals ignored, the unjoinable ones and the failed writes are counted exactly as often as they happened |
| RunLaws.FinalizedKeysStayFinal | internal/bridge/processor.go:189-194 | over any run a finalized key is never buffered, reserved or recorded again, and each signal arriving for it is late, the late counter being the number of late signals |
| RunLaws.AcknowledgementSettles | internal/bridge/processor.go:412-419 | an acknowledgement settles every signal under the record's keys: those of the snapshot go with the record, and each that arrived since becomes late and adds one to LateSignalsIgnored |
| RunLaws.FirstSeenNeverMoves | internal/bridge/processor.go:443-469 | over any run a buffered key keeps its first-seen time until finalized, and a new key has the time of a signal that arrived since |
| RunLaws.AssemblyIsInvisible | internal/bridge/processor.go:301-327 | between idle states, whatever assemblies failed or succeeded in between, a key not finalized has the presence, first-seen time and slot contents it would have had if none had ever been attempted, and nothing pending or reserved |
| RunLaws.SpanOutlivesRun | internal/bridge/processor.go:486-504 | over any run a buffered span keeps its ids, and every other field, time and error text it has, until it is finalized |
| RunLaws.ClientSpansClaim | internal/bridge/processor.go:267-273 | a signal names a parent exactly when it is a client span with parent bytes, and then the key of its trace id and those bytes |
| RunLaws.ClaimOutlivesRun | internal/bridge/processor.go:263-273 | over any run a client span keeps naming its parent until it is finalized |
| Drain.AssemblyFinalizesDone | internal/bridge/processor.go:299-307 | at any point of an assembly, failed or not and whatever arrives meanwhile, the keys it has finalized are exactly those consumed by the records it is done with |
| Drain.AssemblyFinalizesExactly | internal/bridge/processor.go:275-307 | an assembly that meets no failure finalizes exactly the keys that are ready and unskipped or named by a client span that is, whatever arrives meanwhile |
| Drain.FreshKeysAreLeftAlone | internal/bridge/processor.go:225-230 | at any point of an assembly with a cutoff, failed or not and whatever arrives, a key first seen at or after the cutoff that no older client span names is not finalized and stays buffered with its first-seen time |
| Drain.ExpiryFinalizesExactly | internal/bridge/processor.go:379-388 | an assembly with a cutoff that meets no failure finalizes exactly the unskipped keys first seen before it and the parents such client spans name |
| Drain.FlushDrainsExactlyWhen | internal/bridge/processor.go:153-157 | a successful Flush with nothing arriving empties the buffer exactly when every skipped key is named by an unskipped client span |
| Drain.FlushDrainsPairs | internal/bridge/processor.go:153-157 | it does when no claiming client span is itself claimed |
| Drain.FlushShrinks | internal/bridge/processor.go:257-307 | with acyclic claims such a Flush strictly shrinks a non-empty buffer |
| Drain.FlushesDrain | internal/bridge/processor.go:257-307 | with acyclic claims, as many such Flushes as there are buffered keys empty it |
| Drain.FlushIsStuckExactlyWhen | internal/bridge/processor.go:277-287 | such a Flush writes nothing exactly when every buffered key is a client span naming another buffered key and no two name the same |
| Drain.FlushesLeaveOnlyCycles | internal/bridge/processor.go:257-307 | for any claims, at least as many such Flushes as buffered keys leave only cycles of claims, or nothing |
| Drain.StaleKeysAwaitFreshClaimants | internal/bridge/processor.go:225-230 | after a successful assembleExpired with a clock that does not run backwards, a key still buffered from before the cutoff is claimed, and every span claiming it is still buffered and was first seen at or after the cutoff, when no claiming span is claimed |
| Failures.FailureIsInvisibleExactlyWhen | internal/bridge/processor.go:301-327 | after a failed assembly is rolled back any key is buffered as if nothing had been attempted, if and only if no record written before the failure consumed it |
| Failures.RemainderIsInvisibleExactlyWhen | internal/bridge/processor.go:310-327 | the failed and unattempted records leave no trace exactly when none of their keys was consumed by a record written before |
| Failures.UnsharedFailureIsInvisible | internal/bridge/processor.go:310-327 | in particular when no two buffered client spans name one parent and none names itself |
| Failures.RetryKeepsParentExactlyWhen | internal/bridge/processor.go:363-376 | the retry of a rolled-back record takes its parent along exactly when no record written before the failure had consumed it |
| Calls.OneCallOneRecord | internal/bridge/processor.go:232-248 | over any run, with any ingest, failures and retries, what waits under a key no client span names, whether span, log or both and with or without a parent, stays buffered until exactly one record since is written from the key, which is its own, has its span's ids and every other field, time and error text that span has, and says what all folded signals say |
| Calls.PairIsOneRecord | internal/bridge/processor.go:232-248 | the same for a client span together with what waits under a parent no other span names, and the parent never becomes a record |
| Calls.UnclaimedKeyIsOneRecord | internal/bridge/processor.go:331-361 | in every reachable state a finalized key that no written client span names was written as exactly one record, its own, which holds every signal acknowledged under the key |
| Calls.FlushWritesTheCall | internal/bridge/processor.go:275-307 | any successful Flush writes a buffered key no client span names, and finalizes with it the parent it names |
| Edges.SharedParentIsConsumedTwice | internal/bridge/processor.go:363-376 | from any fields, two client spans naming one parent both consume and count it, and once the first is acknowledged the second is assembled without it |
| Edges.ChainLeavesItsRoot | internal/bridge/processor.go:277-287 | in a chain of two claims a successful Flush finalizes child and middle and leaves the root buffered |
| Edges.SkippingIsDeterminedExactlyWhen | internal/bridge/processor.go:267-286 | which keys are skipped is independent of map iteration order exactly when no span is its own parent and also named by another |
| Edges.FieldsDependOnOrderExactlyWhen | internal/bridge/processor.go:625-634 | a merged tool or target depends on argument order exactly when both are set and differ |
| Witnesses.MutualClaimsArise | internal/bridge/processor.go:267-287 | two client spans that name each other reach a buffer that is nothing but a cycle |
| Witnesses.ChainArises | internal/bridge/processor.go:267-287 | three client spans reach a chain of claims |
| Witnesses.SharedParentArises | internal/bridge/processor.go:267-287 | three client spans reach a shared parent |
| SlotAudit.PendingSlotsAreAudited | internal/bridge/processor.go:197-211 | in every reachable state a pending slot lists disagreements exactly when two of its signals contradict each other |
| SlotAudit.ActiveSlotsAreAuditedExactlyWhen | internal/bridge/processor.go:443-469 | in every state of every run an active slot lists disagreements exactly when two of its signals contradict each other, if and only if it lists some anyway or no roll-back merged a pending slot of its key that listed some into it |
| SlotAudit.WithoutRollBackAllIsClear | internal/bridge/processor.go:301-327 | no roll-back at all is enough for that |
| SlotAudit.RecordIsAuditedExactlyWhen | internal/bridge/processor.go:331-376 | a record assembled in any state of any run lists disagreements exactly when two of its signals contradict each other, if and only if it lists some anyway, or none of the slots it was merged from lists any and no roll-back had merged such a list away |
| Edges.BufferedSlotIsAudited | internal/bridge/processor.go:204-211 | depositing signals one by one into an empty slot leaves an empty list of disagreements exactly when no two of them contradict each other |
| Edges.BufferedSlotMisleadsExactlyWhen | internal/bridge/processor.go:204-211 | the same of a slot filled signal by signal |
| Pipeline.Bridge.constructor | internal/bridge/processor.go:94-119 | the objects start at an initial machine over the given file, with the given observer |
| Pipeline.Bridge.Consume | internal/bridge/processor.go:125-133 | one turn of the consume loop is the counting section and the buffering section of the machine |
| Pipeline.Bridge.Emit | internal/bridge/processor.go:390-439 | skipping, or writing while signals arrive and then acknowledging or counting the failure, is a run of the machine that advances or fails the batch |
| Pipeline.Bridge.Assemble | internal/bridge/processor.go:249-308 | snapshot, write loop and roll-back are a run of the machine from idle to idle: complete on success, rolled back at the first failure |
| Pipeline.Bridge.Flush | internal/bridge/processor.go:153-157 | on success with nothing arriving the buffer maps are empty, unless a claiming span is itself claimed |
| Pipeline.Bridge.AssembleExpired | internal/bridge/processor.go:225-230 | without a positive wait it does nothing; on success every key older than the cutoff is claimed by a buffered span that is not, unless a claiming span is itself claimed; and in any case each key first seen since the cutoff that no older span names stays as it was |

## Left out

- JSON: the codec is a parameter, assumed invertible and newline-free only where reading back is concerned.
- Float parsing and formatting: a duration attribute is read by a parameter, a double attribute arrives as its rendered text.
- Wall-clock time: the time a section reads is a parameter; instants are integer nanoseconds with 0 as the zero time.
- Mutexes and goroutines: each critical section is one atomic step and one assembler runs at a time.
- A processor without a sink (internal/bridge/processor.go:399-407), and a nil processor: emit then only counts.
- A change of observer identity while running: it is set once, before the first signal, to any value.
- The receivers, request decoding, configuration, replay, shutdown and the extension experiments under cmd and internal: plumbing around the pipeline.
- Opening and closing the file, and a file changed by another process, which the source declares unsupported.
- Attribute aliases that no normalized field reads (internal/normalize/aliases.go:27-32), and the token counts they name.
- Letter case outside ASCII when looking for "cancel" in an error type.
- sort.Strings itself: sorting is modelled by insertion, characterized by its unique result.
- Merged durations, correlation details, error types, tools, targets and disagreements depend on arrival order and are not part of the order-independent answer.
- Machine: the interleavings are those of atomic sections, so a torn read of a map or counter, which the mutex excludes, cannot be expressed.
