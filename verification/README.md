# CedarGraph in Dafny

A model of the parts of CedarGraph, a temporal graph database, whose promises are hardest to see from the code: the
change log of a partition and everything that reads or recovers it, the commit protocol around it, the order of values
and the query operators that depend on it, and the codecs. Each part is modelled as the source has it: what the source
changes in place is a class or a method with loops, proved against functions on values, and the properties are lemmas
about those functions. Everything is stated for all inputs, all runs or all points of failure.

- **Change log** (`LogSpec`, `LogInvariant`, `LogRecovery`, `LogCrash*`, `LogReuse`, `LogLitter`, `LogCut`,
  `LogCompaction`, `LogMaintenance`, `LogPaging`, `LogSnapshot`, `LogRuns`, `ChangeLog`). A directory is a map from file
  name to bytes. Segment files hold 16-byte headers and payloads; the manifest is text; the snapshot file holds the whole
  history. A crash is a stop after any write, at any byte of a frame. Serialisation of a record is a parameter: any codec
  whose decoder inverts it.
- **Commit protocol** (`CommitProtocol`, `CommitRuns`, `CommitFailures`, `CommitCrash`, `ReplayCheck`, `Intents`). A
  state machine over the steps of prepare, commit, retry, recovery, compaction and crash, with any number of partitions
  and transactions.
  Storage is a set of versioned writes: the memtable keeps one entry per version and never replaces one
  (src/storage/cedar_memtable.cc:26-66), so a later transaction adds to it and overwrites nothing.
- **Queries** (`Values`, `ValueOrder`, `RowOrder`, `NaNOrder`, `Pushdown*`, `Operators`, `VarExpand`). Doubles are reals
  with infinities and NaN.
- **Text and bytes** (`Grammar`, `Queries`, `Statements`, `Temporal*`, `Crc32c*`, `Base64`, `AccessTokens`). The parsers
  are functions on a cursor, the input still to be read and the last error, and methods on a moving position that are
  proved equal to them. CRC-32C is division by the polynomial of section 12.1 of RFC 3720; the register, the table and
  the chunked instruction are proved to be that division.

## Model

| member | source | states |
|---|---|---|
| LogInvariant.AppendKeepsInv | src/cdc/partition_change_log.cc:404-429 | Appending any batch with one version to a log whose memory and directory agree succeeds, adds exactly the batch to records and history, and leaves memory and directory in agreement: the files are the packing of the records, the manifest lists them, the snapshot file holds the history. |
| LogInvariant.StampedAppend | src/cdc/partition_change_log.cc:404-429 | What the code stamps (consecutive offsets, one version, place and size of the batch) is such a batch, so a batch that can be serialised is appended as stamped. |
| Segments.PackLast | src/cdc/partition_change_log.cc:773-818 | Placing record after record by the roll rule of an append gives the same segments as packing all of them from the front, for every list of records. |
| LogCompaction.SameStartSameSegment | src/cdc/partition_change_log.cc:868-967 | Packing a log and packing any tail of it give the same segment wherever both begin one, so a rewritten file that has the name of a listed one has its bytes. |
| LogRecovery.RecoverRoundTrip | src/cdc/partition_change_log.cc:597-771 | Opening the directory of any consistent log gives back that very log: records, history, watermark, earliest offset, committed version, segment list, active segment and files. |
| LogRecovery.RecoverSurvivors | src/cdc/partition_change_log.cc:597-771 | Whatever else is in the directory: if the listed files still hold their frames, with at most a torn frame behind the last one, opening rebuilds the log, cuts off the torn frame and takes the history from the snapshot file. |
| LogRecovery.WrongVersionRefused | src/cdc/partition_change_log.cc:597-771 | A manifest that does not carry the highest version of its segments is refused. |
| LogRuns.ReopenAfterRun | src/cdc/partition_change_log.cc:404-595 | After any run of appends, compactions, maintenance passes and reopenings from an empty directory, the log reopens as exactly what it is in memory; its history is all that was appended and its records are the end of it. |
| LogCrashPoints.CrashInLaterAppend | src/cdc/partition_change_log.cc:404-429 | For every point at which a process can stop in an append to a log with records (any byte of any frame, after the frames, after the snapshot file): the directory opens if and only if the batch began a new segment or no frame of it is whole, and then with the records before the append. |
| LogCrashPoints.CrashInFirst | src/cdc/partition_change_log.cc:969-1004 | The same points in the first append to an empty log: it opens for good only if no byte was written; inside a frame it does not open at all; everywhere else it opens once, as an empty log, and never again. |
| LogCrash.CrashDuringAppend | src/cdc/partition_change_log.cc:773-818 | The part inside the frames for a log with records, with the exact log that reopens: the one before the append, and if only the active segment was touched even the same files. |
| LogCrash.CrashRefused | src/cdc/partition_change_log.cc:641-733 | Any number of whole frames in a listed segment file that the manifest does not know of: the directory does not open. |
| LogLeftovers.CrashBeforeManifest | src/cdc/partition_change_log.cc:820-866 | A process that stops between the snapshot file and the manifest: the log opens if and only if the batch began a new segment, and its history then already holds the batch although its records do not. |
| LogFirstAppend.CrashInFirstAppend | src/cdc/partition_change_log.cc:969-1004 | Whole frames in segments that no manifest lists: the directory opens as an empty log whose manifest then lists them, and never again. |
| LogFirstAppend.TornFirstAppend | src/cdc/partition_change_log.cc:969-1004 | A torn frame in a segment that no manifest lists: the directory does not open. |
| LogReuse.AppendAfterCrash | src/cdc/partition_change_log.cc:773-818 | After an append that crashed with all frames in new segments the log reopens as before, every next append succeeds, and the log then opens if and only if the two batches have begun no segment at the same offset. |
| LogReuse.AppendAfterLeftover | src/cdc/partition_change_log.cc:773-818 | When one segment was left behind: the log opens after the next append if and only if that append did not begin a segment with its first record. |
| LogLitter.AppendOverJunk | src/cdc/partition_change_log.cc:333-376 | Over any files that are in the directory besides those of the log: the append fails exactly if it begins a segment in one of them and what that file then holds cannot be read as frames; if it begins none there, the log opens afterwards. |
| LogLitter.AppendOverHardlyBegun | src/cdc/partition_change_log.cc:285-331 | With the frames the log writes: over a frame of which less than six bytes were written, the append fails if and only if it begins a segment there. |
| LogCut.RecoverCut | src/cdc/partition_change_log.cc:641-733 | A log whose last segment file was cut anywhere inside what the manifest lists opens if and only if the cut falls inside the last frame, another frame precedes it in that file, and the highest version is found elsewhere; it then opens without its last record. |
| LogCut.LastByteLost | src/cdc/partition_change_log.cc:641-733 | If the last two records are of one version and in one file, cutting the last byte off that file gives a log that opens without its last record. |
| LogCut.ScanOfCut | src/cdc/partition_change_log.cc:641-733 | However a segment file is cut, the scan keeps exactly its whole frames and their length, as long as the manifest promises nothing beyond them. |
| LogFaults.DamagedPayloadRefused | src/cdc/partition_change_log.cc:285-331 | Any change of a stored payload within four consecutive bytes, in any record of any segment, makes the log refuse to open. |
| LogCompaction.ReopenAfterCompact | src/cdc/partition_change_log.cc:582-595 | A compaction that keeps some record reopens as the compacted log if and only if the committed version is found among what was kept; otherwise it does not open. |
| LogCompaction.CrashWhileRenaming | src/cdc/partition_change_log.cc:868-967 | A process that stops between any two renames of a compaction leaves a directory that reopens as the log before it, with files that no later append can touch. |
| LogCompaction.CrashWhileRemoving | src/cdc/partition_change_log.cc:868-967 | A process that stops after any of the removals leaves the compacted log. |
| LogRuns.CompactExactly | src/cdc/partition_change_log.cc:582-595 | Compacting a log with records and non-decreasing versions always succeeds, and the log opens afterwards, as the compacted one, if and only if a record was retained. |
| LogMaintenance.CompactToEmptyBreaksLog | src/cdc/partition_change_log.cc:868-967 | Retaining nothing succeeds and leaves a directory that can never be opened again. |
| LogMaintenance.RunOnceKeepsActive | src/cdc/change_log_maintenance.cc:79-94 | A maintenance pass succeeds, never empties the log, and either does nothing or leaves exactly the active segment, byte for byte. |
| LogPaging.PagesEnumerate | src/cdc/partition_change_log.cc:431-464 | Pages asked for with the last offset seen enumerate, once and in order, every record after the start up to the first one larger than a whole page. |
| LogPaging.AllReachable | src/cdc/partition_change_log.cc:431-464 | A reader gets everything if and only if every record fits a page. |
| LogPaging.PageWithinLimits | src/cdc/partition_change_log.cc:431-464 | A page stays within both limits, and no longer one would. |
| LogSnapshot.SnapshotPlusTailExactly | src/cdc/partition_change_log.cc:466-542 | Loading a snapshot and applying every change with a higher version gives the state of the full history if and only if each key with a change above the version has its last record above it, or that record and its last one above the version are both deletes. |
| LogSnapshot.SnapshotPlusTail | src/cdc/partition_change_log.cc:466-542 | In particular it does for histories whose versions never decrease. |
| LogSnapshot.OutOfOrderTailFails | src/cdc/partition_change_log.cc:466-542 | Two records of one key, the later one with the smaller version: snapshot plus tail differs from the full history. |
| LogSnapshot.FoldUnique | src/cdc/partition_change_log.cc:466-542 | If the order tells all live records apart, every call folds the history to the same list, whatever order the hash map yields. |
| LogSnapshot.SeparateCallsJoin | src/cdc/partition_change_log.cc:466-542 | Then the pages of separate calls, each folding and sorting anew, join to one snapshot: nothing missing, nothing twice. |
| LogSnapshot.SnapshotPagesJoin | src/cdc/partition_change_log.cc:466-542 | The pages of one folded snapshot, each asked for with the last offset of the one before, are the snapshot, if every record fits a page. |
| SnapshotKeys.KeyInjective | src/cdc/partition_change_log.cc:30-36 | Two records have the same key string if and only if they agree on all six fields. |
| SnapshotKeys.KeyedSnapshotPlusTail | src/cdc/partition_change_log.cc:30-36 | The exact condition for snapshot plus tail, for the key string of the code. |
| SnapshotKeys.ToldApartExactly | src/cdc/partition_change_log.cc:466-542 | In one partition the order tells all live records apart if and only if no two of them differ only in the entity type. |
| Manifests.ParsePrint | src/cdc/partition_change_log.cc:139-246 | Reading the manifest text that was written gives back every field and every segment line. |
| LogFormats.SegmentFileNamesSort | src/cdc/partition_change_log.cc:129-133 | Names of segment files sort like their first offsets. |
| LogFormats.LogFormatGood | src/cdc/partition_change_log.cc:129-246 | File names, manifest text and frames of the code meet every assumption that the theorems about the log make of them, for every faithful serialisation. |
| Frames.LogFramingSound | src/cdc/partition_change_log.cc:285-331 | A whole frame reads back whatever follows it, and a frame cut anywhere inside is recognised as torn, for every faithful serialisation. |
| Frames.ReadDamagedFrame | src/cdc/partition_change_log.cc:285-331 | A payload changed within four consecutive bytes is recognised by its checksum. |
| ChangeLogs.PartitionChangeLog.AppendCommittedBatch | src/cdc/partition_change_log.cc:404-429 | The object after the call, files included, and its answer are those of the append on values; a record that cannot be serialised stops it where it is. |
| ChangeLogs.PartitionChangeLog.Recover | src/cdc/partition_change_log.cc:597-771 | The object after opening a directory is the one that recovery on values gives, and it succeeds exactly when that does. |
| ChangeLogs.PartitionChangeLog.Compact | src/cdc/partition_change_log.cc:582-595 | The object after compaction is the one that compaction on values gives. |
| ChangeLogs.PartitionChangeLog.ReadAfter | src/cdc/partition_change_log.cc:431-464 | The page of the loop is the page on values, within both limits. |
| ChangeLogs.PartitionChangeLog.SnapshotRecords | src/cdc/partition_change_log.cc:466-542 | The page of some fold of the history, after the offset and within the limits. |
| LogClients.ChangeLogMaintenance.RunOnce | src/cdc/change_log_maintenance.cc:79-94 | The object after a maintenance pass is the one that the pass on values gives. |
| LogClients.ContainsBatch | tools/storaged.cc:1732-1764 | Page by page the loop answers what a plain scan of all it can see answers. |
| LogClients.VisibleIsAll | tools/storaged.cc:1732-1764 | It can see all of the log if and only if every record fits a page. |
| SnapshotStream.Stream | tools/storaged.cc:1356-1461 | Although records may arrive before every page, streaming succeeds if and only if the limits of the request are valid and every record to be streamed fits a page; the batches are numbered, one is final, and they hold exactly the records of the start after the resume point up to the version. |
| CommitProtocol.StepKeepsInv | tools/storaged.cc:394-588 | Every step of prepare, commit, retry, recovery, compaction and crash keeps the protocol invariant, unless it is a retry over appended batches or a compaction that drops a batch with an intent. |
| CommitRuns.LogImpliesStorage | tools/storaged.cc:528-577 | At every moment of every such run, crashes anywhere: a batch that was appended was appended once, and its writes are already stored. |
| CommitRuns.CommittedExactlyOnce | tools/storaged.cc:518-577 | Whatever happens after a transaction began its puts, interrupted recoveries included: as soon as no intent is left, all its batches were appended exactly once and all its writes are stored. |
| CommitRuns.DurableIntentsComplete | tools/storaged.cc:1592-1665 | Once an intent was durable its batch is never lost. |
| CommitRuns.FinishedIsDone | tools/storaged.cc:578-588 | A commit that reports success has appended every batch of its transaction and stored its writes. |
| CommitRuns.EveryRecoveryRepairs | tools/storaged.cc:1766-1842 | After any run that crashed, every restart whose recovery runs to its end without a failure leaves no intent and every batch with a durable intent appended exactly once. |
| CommitRuns.RecoveryCanEnd | tools/storaged.cc:1766-1842 | From anywhere inside a recovery there is such a way to its end; each step brings it nearer. |
| CommitFailures.RetryExactly | tools/storaged.cc:436-588 | A retried commit that goes through leaves every log free of duplicates if and only if no log held a batch of its transaction at the retry. |
| CommitFailures.RetryDuplicates | tools/storaged.cc:541-577 | For every transaction over two partitions, a run from the start in which the commit fails between the two appends, is retried, and appends the first batch a second time. |
| CommitFailures.CompactionExactly | tools/storaged.cc:1766-1842 | After a compaction no batch is ever appended twice, in any continuation, if and only if no dropped batch still had its intent. |
| CommitFailures.CompactionDuplicates | tools/storaged.cc:1766-1842 | A run from the start in which an append is followed by a failed delete, compaction drops the batch, and recovery appends it again. |
| ReplayCheck.CheckIsExact | tools/storaged.cc:1732-1764 | The check that recovery makes on the log finds a batch if and only if its transaction was appended. |
| CommitCrash.AppendIsStep | tools/storaged.cc:541-577 | An append that completes is the step of the protocol: the log stands for one transaction more, opens as that, and recovery finds the batch. |
| CommitCrash.CrashIsBefore | src/cdc/partition_change_log.cc:404-429 | Wherever a process stops inside the append of a batch, a directory that opens stands for the transactions before it, and recovery finds the batch missing; and exactly when it opens. |
| CommitCrash.CrashIsStep | tools/storaged.cc:541-577 | So in every reachable state a crash inside an append is the crash step of the protocol before it: the log that opens is that of the machine, and the intent to be replayed is there. |
| CommitCrash.ReplayAppends | tools/storaged.cc:1766-1842 | If no frame of the batch was whole, and a segment that it began has no byte, replaying the intent appends it as the commit would have, to the very same files, and the log opens afterwards. |
| CommitCrash.ReplayBreaksLog | tools/storaged.cc:1766-1842 | If all frames were written and the manifest was not, the log is lost: it does not open, or it opens once, the replay appends the batch again to the files left behind, reports success, and it does not open after that. |
| Intents.RoundTrip | tools/storaged.cc:1592-1665 | A persisted intent within the limits of the reader reads back as what it was. |
| Intents.Write | tools/storaged.cc:1592-1665 | The loop writes exactly the encoding, and does write it if every record can be serialised. |
| Intents.ReadBack | tools/storaged.cc:1682-1730 | The reading loop decodes what the decoder on values decodes and refuses what it refuses. |
| Intents.PrefixRefused | tools/storaged.cc:1682-1730 | An intent file cut anywhere is refused. |
| ValueOrder.Trichotomy | src/cypher/value.cc:116-153 | For values of every type, nested lists, maps, nodes and paths included, exactly one of less, equal and greater holds if no NaN is compared. |
| ValueOrder.LtTransitive | src/cypher/value.cc:116-153 | The order is transitive on them. |
| ValueOrder.EqCongruent | src/cypher/value.cc:70-114 | Equality is an equivalence on them that the order respects. |
| Values.EqReflexive | src/cypher/value.cc:70-114 | A value of any type equals itself if and only if no NaN is compared in it. |
| ValueHash.HashRespectsEq | src/cypher/value.cc:382-422 | Equal values hash equally. |
| ValueHash.HashValue | src/cypher/value.cc:382-422 | The hashing loops over items and entries compute that hash. |
| ValueHash.PathsEqual | src/cypher/value.cc:23-49 | The loop over two paths decides their equality. |
| ValueHash.PathLess | src/cypher/value.cc:51-68 | The loop over two paths decides their order. |
| RowOrder.ComparatorIsWeakOrder | src/cypher/execution_plan.cc:1991-2022 | For every list of sort items and directions the comparator is a strict weak order on rows without a NaN, nulls last when ascending and first when descending. |
| RowOrder.SortedMeans | src/cypher/execution_plan.cc:1991-2022 | Sorting gives the one permutation that is in order and keeps ties as they were. |
| RowOrder.NaNBreaksComparator | src/cypher/execution_plan.cc:1991-2022 | Three rows, one of them NaN, on which the comparator is no weak order. |
| NaNOrder.NaNBreaksOrder | src/cypher/execution_plan.cc:1991-2022 | Every key with a NaN anywhere in it, in either direction, ties with two ordered keys of which one is before the other. |
| NaNOrder.SortableExactly | src/cypher/execution_plan.cc:1991-2022 | So the comparator is a weak order with a key among all ordered ones if and only if no NaN is compared in it. |
| Pushdown.SplitKeepsMeaning | src/cypher/execution_plan.cc:2488-2526 | A row passes a WHERE tree if and only if it passes every pushed predicate and the remaining tree, in three-valued logic. |
| Pushdown.NoConjunctThrows | src/cypher/execution_plan.cc:2488-2526 | Where no conjunct throws the tree does not either, so the split also drops what the tree drops. |
| Pushdown.SplitKeepsConjuncts | src/cypher/execution_plan.cc:2451-2526 | The split holds every conjunct of the tree exactly once. |
| Pushdown.RebuildKeepsAll | src/cypher/execution_plan.cc:1627-1697 | The index predicate and the rebuilt filter together are all the predicates, each once. |
| Pushdown.ChooseBest | src/cypher/execution_plan.cc:1636-1650 | The loop picks the first equality, or else the first predicate. |
| Pushdown.RebuildFilter | src/cypher/execution_plan.cc:1660-1683 | The loops over the others build the chain of them in their order. |
| PushdownPlan.AgreesExactly | src/cypher/execution_plan.cc:668-686 | Per operator, stored value and literal, scan and evaluator agree if and only if: nothing is stored and the operator is not `<>`; a null is stored and the operator is neither `<` nor `<=`, or the literal is null and it is neither `>` nor `>=`, or both are and it is `<` or `>`; two floats, neither NaN under `=` and `<>`; an integer and a float whose order as numbers and as kinds satisfies the operator alike; two integers, strings or booleans always; other values whose texts are ordered as they are. |
| PushdownExactly.OtherLeafExactly | src/cypher/execution_plan.cc:1689-1696 | Over a leaf that is no node scan, such as the index scan of a labelled pattern: the rows are kept if and only if every row that passes the rest of the WHERE passes the pushed predicates anyway. |
| PushdownExactly.SublistExactly | src/cypher/execution_plan.cc:590-666 | For any chain of operators over a scan, if the index yields some of the scanned nodes in order: kept if and only if a row that passes the rest passes the pushed predicates exactly when its node was yielded and the others hold of the node alone. |
| PushdownExactly.WhereExactly | src/cypher/execution_plan.cc:1627-1697 | For any chain of operators over a scan, without an index: kept if and only if, for every row that passes all other conditions, the value stored in its node is one on which scan and evaluator agree for that operator and literal. |
| PushdownExactly.WhereKeepsRows | src/cypher/execution_plan.cc:1627-1697 | So kept if every scanned node stores such a value. |
| PushdownFailures.IndexedExactly | src/cypher/execution_plan.cc:511-587 | Whatever nodes an index yields, in whatever order: kept if and only if the yielded nodes that send a row are, in order, the scanned nodes with a passing row, and each sends exactly those. |
| PushdownFailures.OtherVariableExactly | src/cypher/execution_plan.cc:1651-1658 | If the best predicate is on a variable other than the scanned one: kept if and only if no node that the index scan yields sends a row and no row of the plan passes. |
| PushdownFailures.OtherVariableOnScan | src/cypher/execution_plan.cc:1651-1658 | For one such predicate over a bare scan: kept if and only if no node matches it and, unless there is no node, the predicate fails where nothing but the environment binds its variable. |
| PushdownFailures.OtherVariableYieldsNothing | src/cypher/execution_plan.cc:1651-1658 | If besides an operator expands from the scanned variable, no row comes out at all, so kept if and only if none passes. |
| PushdownFailures.UnboundYieldsNothing | src/cypher/execution_plan.cc:1660-1683 | If another predicate is on a variable that neither the scan nor the environment binds, and is not `<>`, no row comes out, so kept if and only if none passes. |
| PushdownFailures.UnboundNotApplied | src/cypher/execution_plan.cc:1660-1683 | If it is `<>`, it is not applied: the plan yields what it yields without it. |
| PushdownFailures.MissingPropertyIsLost | src/cypher/execution_plan.cc:668-686 | `MATCH (n) WHERE n.x <> 1` drops a node without the property, which passes. |
| PushdownFailures.LabelScanLosesPredicate | src/cypher/execution_plan.cc:1886-1910 | `MATCH (n:P) WHERE n.x = 1` yields a node with x = 2. |
| PushdownFailures.LabelLookupUnchecked | src/cypher/execution_plan.cc:511-587 | Nodes that a label index yields are not checked: one with x = 2 comes out of `x = 1`. |
| PushdownFailures.OtherVariableTakesScan | src/cypher/execution_plan.cc:1651-1658 | `MATCH (n) WHERE m.x = 1` yields a node as m, although no row passes. |
| PushdownFailures.ExpansionLosesRows | src/cypher/execution_plan.cc:1660-1683 | `MATCH (a)-[]->(b) WHERE a.x = 1 AND b.y = 2` yields nothing, although its one edge passes. |
| PlanOperators.RunWhere | src/cypher/execution_plan.cc:1491-1506 | For every plan and WHERE: draining the operators of the pushed-down plan, and of a filter over the whole plan, yields their rows, the same list exactly if the push-down keeps the rows. |
| Operators.Operator.Next | src/cypher/execution_plan.cc:754-893 | Each operator yields the first of the rows its meaning has left and moves on by one, over any tree of operators. |
| Operators.Drain | src/cypher/execution_plan.cc:2049-2104 | Pulling until nothing comes yields all rows of the meaning of the tree: filter, limit, skip, expand, unwind, sort. |
| VarExpand.Expand | src/cypher/execution_plan.cc:984-1043 | The search with one queue ends on every graph and emits, in the same order, what the search level by level emits. |
| VarExpand.ExpansionComplete | src/cypher/execution_plan.cc:984-1043 | Every vertex other than the start whose distance is within the limits is emitted at that depth. |
| VarExpand.ExpansionSound | src/cypher/execution_plan.cc:984-1043 | Every emitted row is an edge that ends a walk of exactly its depth, within the limits; below the maximum the depth is the distance. |
| VarExpand.ExpansionOnce | src/cypher/execution_plan.cc:984-1043 | Below the maximum no vertex is emitted twice. |
| VarExpand.ExpansionExactly | src/cypher/execution_plan.cc:984-1043 | A vertex is on a row if and only if its distance is within the limits and below the maximum, or an edge leads to it from a vertex one step nearer than the maximum. |
| VarExpand.WalkEndExactly | src/cypher/execution_plan.cc:1004-1013 | A vertex that ends a walk whose length is within the limits is on a row if and only if its distance is within them too, or an edge leads to it on the last level. |
| VarExpand.LongerWalkLost | src/cypher/execution_plan.cc:1004-1013 | `*2..3` in a triangle: the end of a walk of two edges is on no row, because it was seen at distance one. |
| VarLengthRows.DrainWalk | src/cypher/execution_plan.cc:962-982 | Draining the variable-length operator yields, row by row of its child, the expansion of that row. |
| VarLengthRows.WalkReaches | src/cypher/execution_plan.cc:984-1043 | Every vertex whose distance is within the limits is on some row of the walk. |
| VarLengthRows.WalkSound | src/cypher/execution_plan.cc:984-1043 | Every row of the walk ends in an edge to a vertex that a walk of a length within the limits reaches. |
| VarLengthRows.ExpandRecord | src/cypher/execution_plan.cc:984-1043 | The rows that the search buffers for one row of its child are those of the expansion on values. |
| ExpressionParser.ParseExpression | src/cypher/parser.cc:958-1367 | On every input the recursive descent ends; the position never goes back, a tree that is returned took at least one character, and tree, position and error are those of the grammar on values. |
| Grammar.Expression | src/cypher/parser.cc:958-1367 | For every cursor: never further back, no error forgotten, a tree took at least one character, no tree only with an error. |
| PatternParser.ParsePattern | src/cypher/parser.cc:454-603 | The pattern loop ends on every input, with the elements, position and error of the grammar on values. |
| StatementParser.Parser.ParseStatement | src/cypher/parser.cc:14-166 | The statement loop ends on every input, nested statements included; tree, position, error and the one temporal clause of the parser are those of the grammar on values. |
| Statements.ParseStatement | src/cypher/parser.cc:14-166 | Every statement ends at the end of the input or with an error. |
| StatementParser.Parser.IsValid | src/cypher/parser.cc:168-177 | Answers whether the statement at the position parses without an error, and puts position and error back, but not the temporal clause. |
| StatementLaws.AcceptedHasNoSubquery | src/cypher/parser.cc:132-147 | No accepted query holds a CALL subquery, also not inside a UNION. |
| StatementLaws.CallRefused | src/cypher/parser.cc:132-147 | Whatever the braces hold, a query with a CALL and a brace among its clauses is refused. |
| StatementLaws.CallBraceRefused | src/cypher/parser.cc:132-147 | `CALL {` with any text behind it, such as `CALL {}`, is refused. |
| StatementLaws.TemporalKeptExactly | src/cypher/parser.cc:14-21 | A query keeps whichever temporal clause it begins with if and only if it meets no UNION and no CALL with a brace. |
| StatementLaws.UnionLosesTemporal | src/cypher/parser.cc:119-131 | `ALL VERSIONS UNION` is accepted and its statement has no temporal clause. |
| StatementLaws.NumberExactly | src/cypher/parser.cc:1246-1282 | A number literal is read exactly, fraction included, if its integer part is at most INT64_MAX, and is null with an error otherwise. |
| Scanners.DigitsExact | src/cypher/parser.cc:298-319 | Digits are read if and only if their value is at most INT64_MAX, with no overflow on the way. |
| TemporalExactly.ParsePrintExactly | src/cypher/parser_temporal.cc:17-340 | The text of a temporal clause reads back as the clause if and only if the clause is printable; it then sets no error and leaves only blanks. |
| TemporalExactly.QuotedOnly | src/cypher/parser_temporal.cc:550-576 | A quoted text reads back, whatever follows it, only if it holds no quote and no backslash. |
| TemporalExactly.ContainedInOnly | src/cypher/parser_temporal.cc:642-686 | CONTAINED IN is printed as a text that reads back as no clause. |
| TemporalRoundTrip.CurrentTimestampReadsAsNow | src/cypher/parser_temporal.cc:346-476 | The current timestamp is printed under its own name and reads back as now. |
| TemporalParser.ParseTemporalClause | src/cypher/parser_temporal.cc:17-340 | The clause parsers on a moving position give the clause, position and error of the parsers on values. |
| TemporalProgress.ClauseOnward | src/cypher/parser_temporal.cc:17-340 | A temporal clause, or the attempt at one, never ends before where it began and forgets no error. |
| Crc32cTable.TableChecked | src/core/crc32c.cc:33-76 | Every table entry is the register after dividing its index bit by bit. |
| CrcDivision.FeedIsRemainder | src/core/crc32c.cc:83-95 | The register is the remainder of the division by the Castagnoli polynomial: dividend = quotient * divisor + register. |
| CrcDivision.ChecksumDetectsBurst | src/core/crc32c.cc:83-95 | Byte strings that differ only inside four consecutive bytes never share a checksum. |
| Crc32c.ExtendSW | src/core/crc32c.cc:83-95 | One look-up per byte computes that remainder, conditioned by all ones. |
| Crc32c.ExtendHW | src/core/crc32c.cc:111-151 | Chunks of 8, 4, 2 and 1 bytes through any instruction that divides give the very same word. |
| Crc32c.InstructionExists | src/core/crc32c.cc:111-151 | There is such an instruction. |
| Crc32c.ExtendConcat | src/core/crc32c.cc:83-95 | Extending by one string and then by another is extending by both. |
| Crc32c.CoefficientsInjective | src/core/crc32c.cc:83-95 | Two registers with the same coefficients are the same word. |
| Base64.DecodeEncode | src/client/jwt_manager.cc:174-269 | Decoding what was encoded gives it back, for every string of bytes. |
| Base64.EncodeLoop | src/client/jwt_manager.cc:174-220 | The loop over groups of three bytes gives that encoding. |
| Base64.DecodeLoop | src/client/jwt_manager.cc:222-269 | The loop over groups of four characters gives that decoding, for every input. |
| AccessTokens.SplitMeans | src/client/jwt_manager.cc:76-111 | A token splits into three parts exactly if it is those parts joined by two dots and none of them holds a dot. |
| AccessTokens.GeneratedValidates | src/client/jwt_manager.cc:26-111 | A generated token validates exactly until it expires, if its texts are not empty and hold no quote. |
| AccessTokens.Manager.GenerateToken | src/client/jwt_manager.cc:26-74 | The token, and the current token of the object, are those on values; without a secret there is none and the old one stays. |
| AccessTokens.PayloadReadsExactly | src/client/jwt_manager.cc:306-378 | The claims read back as written if and only if no text is empty or holds a quote, the lifetime is positive and the expiry fits 63 bits. |
| AccessTokens.QuoteChangesFields | src/client/jwt_manager.cc:336-378 | A user name with a quoted field in it reads back as two other fields. |

## Findings

Properties the code was expected to have and does not, each with an input that shows it and the condition under which it
does hold.

| property | source | an input | exactly when it holds |
|---|---|---|---|
| Reopening after a crash in an append gives the log before it | src/cdc/partition_change_log.cc:641-733 | LogCrash.CrashRefused | LogCrashPoints.CrashInLaterAppend: the batch began a new segment, or none of its frames is whole |
| The same for the first append | src/cdc/partition_change_log.cc:969-1004 | LogFirstAppend.CrashInFirstAppend, LogFirstAppend.TornFirstAppend | LogCrashPoints.CrashInFirst: no byte was written |
| An append to a reopened log leaves a log that opens | src/cdc/partition_change_log.cc:773-818 | LogReuse.AppendAfterLeftover | LogReuse.AppendAfterCrash: it begins no segment at an offset where the crashed append began one |
| An append to a reopened log succeeds | src/cdc/partition_change_log.cc:333-376 | LogLitter.AppendOverHardlyBegun | LogLitter.AppendOverJunk: every file left behind in which it begins a segment then reads as frames |
| A compacted log opens | src/cdc/partition_change_log.cc:868-967 | LogMaintenance.CompactToEmptyBreaksLog | LogRuns.CompactExactly: a record was retained |
| The same when commit versions decrease | src/cdc/partition_change_log.cc:597-771 | LogRecovery.WrongVersionRefused | LogCompaction.ReopenAfterCompact: the highest version was retained |
| A shortened segment file is refused | src/cdc/partition_change_log.cc:641-733 | LogCut.LastByteLost | LogCut.RecoverCut: the cut is not inside a last frame with another one before it, or the highest version was in it |
| A snapshot and the changes after its version give the full state | src/cdc/partition_change_log.cc:466-542 | LogSnapshot.OutOfOrderTailFails | LogSnapshot.SnapshotPlusTailExactly: the tail settles each key it changes |
| A reader gets every record | src/cdc/partition_change_log.cc:431-464 | LogPaging.PagesEnumerate | LogPaging.AllReachable: every record fits a page |
| A retried commit appends nothing twice | tools/storaged.cc:436-588 | CommitFailures.RetryDuplicates | CommitFailures.RetryExactly: no log held a batch of the transaction |
| Replaying an intent after a crash in its append restores the log | tools/storaged.cc:1766-1842 | CommitCrash.ReplayBreaksLog | CommitCrash.ReplayBreaksLog, CommitCrash.ReplayAppends: never once all frames are written; yes if no frame is whole and a segment that the batch began has no byte |
| Recovery appends nothing twice after a compaction | tools/storaged.cc:1766-1842 | CommitFailures.CompactionDuplicates | CommitFailures.CompactionExactly: no dropped batch still had its intent |
| A WHERE pushed into a scan keeps the rows | src/cypher/execution_plan.cc:668-686 | PushdownFailures.MissingPropertyIsLost | PushdownExactly.WhereExactly, PushdownPlan.AgreesExactly: the pushed property of every row that passes the other conditions holds a value on which scan and evaluator agree, per operator |
| The same over a labelled pattern | src/cypher/execution_plan.cc:1886-1910 | PushdownFailures.LabelScanLosesPredicate | PushdownExactly.OtherLeafExactly: every row that passes the rest passes the pushed predicates |
| The same with an index | src/cypher/execution_plan.cc:511-666 | PushdownFailures.LabelLookupUnchecked | PushdownExactly.SublistExactly, PushdownFailures.IndexedExactly: the yielded nodes that send a row are those with a passing row |
| The same for a predicate on another variable | src/cypher/execution_plan.cc:1627-1697 | PushdownFailures.OtherVariableTakesScan | PushdownFailures.OtherVariableExactly, PushdownFailures.OtherVariableOnScan: no node matches it and no row passes |
| The same with a predicate on a variable bound further up | src/cypher/execution_plan.cc:1660-1683 | PushdownFailures.ExpansionLosesRows | PushdownFailures.UnboundYieldsNothing, PushdownFailures.UnboundNotApplied: no row passes, or it is `<>`, which is not applied |
| A variable-length pattern finds the end of every walk within its limits | src/cypher/execution_plan.cc:1004-1013 | VarExpand.LongerWalkLost | VarExpand.WalkEndExactly: its distance is within the limits too, or the last level reaches it |
| ORDER BY sorts by a weak order | src/cypher/execution_plan.cc:1991-2022 | RowOrder.NaNBreaksComparator | NaNOrder.SortableExactly: no NaN is compared in a key |
| A temporal clause reads back from its text | src/cypher/parser_temporal.cc:642-686 | TemporalRoundTrip.CurrentTimestampReadsAsNow, TemporalExactly.ContainedInOnly | TemporalExactly.ParsePrintExactly: the clause is printable |
| A query with a subquery is accepted | src/cypher/parser.cc:132-147 | StatementLaws.CallBraceRefused | StatementLaws.CallRefused: never |
| A query keeps its temporal clause | src/cypher/parser.cc:14-21 | StatementLaws.UnionLosesTemporal | StatementLaws.TemporalKeptExactly: it holds no other query |
| The claims of a token read back | src/client/jwt_manager.cc:336-378 | AccessTokens.QuoteChangesFields | AccessTokens.PayloadReadsExactly: no text is empty or holds a quote, the lifetime is positive, the expiry fits |

## Left out

- Protobuf serialisation is not modelled: a codec is any pair of functions of which the second inverts the first.
- Errors of the file system other than a crash (short writes, failing renames, full disks) are not modelled.
- CommitProtocol.StepKeepsInv: the append of one batch is one step, which CommitCrash joins with the crash points of the log; a compaction that drops part of a batch counts as dropping it.
- CommitCrash.ReplayBreaksLog: for the point behind all frames; the points inside the frames of a new segment are left to LogLitter.AppendOverJunk.
- LogSnapshot.SeparateCallsJoin: goes one way; that pages of separate calls can disagree when two live keys differ only in the entity type is not shown, because it depends on the order of a hash map.
- LogReuse.AppendAfterCrash: the recovery conclusion is for directories whose segment files have sizes that fit 64 bits.
- LogLitter.AppendOverHardlyBegun: for a longer torn frame the exact condition is the one of LogLitter.AppendOverJunk, since bytes of two frames can agree with a checksum by chance.
- ChangeLogs.PartitionChangeLog.SnapshotRecords: a folded record that cannot be serialised, for which the source returns an error, is not modelled.
- VarExpand.Expand: the path that the search carries along, which no row shows, is not modelled.
- PushdownExactly.WhereExactly: the plan is a value, so the in-place replacement of children of the operator tree is a new tree here; it says which rows pass, not which of the others throw.
- Operators.Drain: a standalone UNWIND is an unwind over one empty row; aggregation, projection and the writing operators are not modelled.
- RowOrder.SortedMeans: only for keys without a NaN, as the sort is undefined otherwise.
- Temporal.Micros: the multiplication of a duration wraps around at 64 bits, which the source leaves undefined.
- Grammar.DecimalValue: a decimal literal is a real number; its rounding to a double is not modelled.
- AccessTokens.GeneratedValidates: the HMAC is any function; seconds become ticks without a bound, where the source overflows beyond the year 2262, which C++ leaves undefined.
- Evaluation and printing of temporal clauses beyond their text, the planner's cost rules, the semantic checks of queries, replication, remote calls, and the storage engine below the memtable are not modelled; most of them would only add easy members.
