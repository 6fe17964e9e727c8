/** A crash inside the append of a batch, seen by the commit protocol: how the change log of a partition stands for the
    batches of its transactions, and what opening it and replaying the intent make of the crash. */
module CommitCrash {
  import opened Bytes
  import opened ChangeRecords
  import opened Framings
  import opened LogClients
  import opened LogCrashPoints
  import opened LogFormats
  import opened LogInvariant
  import opened LogRecovery
  import opened LogReuse
  import opened LogSpec
  import opened Manifests
  import opened ReplayCheck
  import opened Wrappers
  import P = CommitProtocol

  predicate AllWellFormed(plan: P.Plan, p: P.Partition, txns: seq<P.Txn>) {
    forall i :: 0 <= i < |txns| ==> WellFormed(plan, (p, txns[i]))
  }

  /** The log holds the batches of these transactions, in this order, and nothing else. */
  predicate StandsFor(log: Log, plan: P.Plan, p: P.Partition, txns: seq<P.Txn>) {
    AllWellFormed(plan, p, txns) && log.records == RecordsOf(log.options, plan, p, txns, log.earliest)
  }

  /** The records that an append of the batch writes. */
  function Written(log: Log, plan: P.Plan, k: P.Key): seq<ChangeRecord>
    requires WellFormed(plan, k)
  {
    Stamped(log.options, plan, k, log.highWatermark + 1)
  }

  /** The batch is one that the log can take: its records can be serialised, and offsets and version fit 64 bits. */
  predicate Takes(log: Log, plan: P.Plan, k: P.Key) {
    && WellFormed(plan, k) && plan.version(k.1) <= UINT64_MAX
    && log.highWatermark + |plan.batches(k.1)[k.0]| < UINT64_MAX
    && AllFit(log.options.format.framing, Written(log, plan, k))
  }

  /** The append of the batch, by the commit or by the replay of its intent. */
  ghost function AppendOf(log: Log, plan: P.Plan, k: P.Key): Outcome
    requires WellFormed(plan, k)
  {
    Append(log, plan.version(k.1), Written(log, plan, k))
  }

  /** What opens after a crash inside it. */
  ghost function Reopened(log: Log, plan: P.Plan, k: P.Key, at: Point): Option<Log>
    requires WellFormed(plan, k) && Reaches(log, Written(log, plan, k), at)
  {
    Recover(log.options, DiskAt(log, plan.version(k.1), Written(log, plan, k), at))
  }

  lemma WrittenIsNext(log: Log, plan: P.Plan, k: P.Key)
    requires Counters(log) && Takes(log, plan, k)
    ensures var batch := Written(log, plan, k);
            batch != [] && NextBatch(log, batch) && OneVersion(batch, plan.version(k.1))
  {
    StampedIsNext(log, plan.version(k.1), Raw(plan.batches(k.1)[k.0]));
  }

  lemma Whether(log: Log, plan: P.Plan, p: P.Partition, txns: seq<P.Txn>, t: P.Txn)
    requires StandsFor(log, plan, p, txns) && WellFormed(plan, (p, t))
    ensures HasBatch(log.records, IntentOf(plan, (p, t))) <==> t in txns
  {
    CheckIsExact(log.options, plan, p, txns, log.earliest, t);
  }

  /** An append that completes is the step of the protocol: the log then stands for one more transaction. */
  lemma AppendIsStep(log: Log, plan: P.Plan, p: P.Partition, txns: seq<P.Txn>, t: P.Txn)
    requires Inv(log) && StandsFor(log, plan, p, txns) && Takes(log, plan, (p, t))
    ensures var out := AppendOf(log, plan, (p, t));
            && out.ok && Inv(out.log) && Recover(log.options, out.log.disk) == Some(out.log)
            && StandsFor(out.log, plan, p, txns + [t]) && HasBatch(out.log.records, IntentOf(plan, (p, t)))
  {
    var batch := Written(log, plan, (p, t));
    var out := Append(log, plan.version(t), batch);
    WrittenIsNext(log, plan, (p, t));
    AppendKeepsInv(log, plan.version(t), batch);
    RecoverRoundTrip(out.log);
    StandsForMore(log, plan, p, txns, t, out.log);
    Whether(out.log, plan, p, txns + [t], t);
  }

  lemma StandsForMore(log: Log, plan: P.Plan, p: P.Partition, txns: seq<P.Txn>, t: P.Txn, l: Log)
    requires Counters(log) && StandsFor(log, plan, p, txns) && WellFormed(plan, (p, t))
    requires l.options == log.options && l.earliest == log.earliest
             && l.records == log.records + Written(log, plan, (p, t))
    ensures StandsFor(l, plan, p, txns + [t])
  {
    var more := txns + [t];
    assert more[..|more| - 1] == txns;
    assert log.highWatermark + 1 == log.earliest + |log.records|;
  }

  /** Wherever the process stops inside the append, a directory that opens holds what it held before it, and the check
      that recovery makes says that the batch is not there. It opens exactly if the batch began a segment or none of its
      frames is whole; for the first append of a log, if no frame is torn. */
  lemma {:induction false} CrashIsBefore(log: Log, plan: P.Plan, p: P.Partition, txns: seq<P.Txn>, t: P.Txn, at: Point)
    requires Inv(log) && StandsFor(log, plan, p, txns) && Takes(log, plan, (p, t)) && t !in txns
    requires Reaches(log, Written(log, plan, (p, t)), at)
    ensures var batch, l := Written(log, plan, (p, t)), Reopened(log, plan, (p, t), at);
            && (l.Some? ==> StandsFor(l.value, plan, p, txns) && !HasBatch(l.value.records, IntentOf(plan, (p, t))))
            && (l.Some? <==> if log.records != [] then Opens(log, batch[0]) || (at.InFrame? && at.j == 0)
                             else !(at.InFrame? && at.n > 0))
  {
    var batch := Written(log, plan, (p, t));
    WrittenIsNext(log, plan, (p, t));
    if log.records != [] {
      CrashInLaterAppend(log, plan.version(t), batch, at);
    } else {
      CrashInFirst(log, plan.version(t), batch, at);
      NoRecords(log, plan, p, txns);
    }
    CheckIsExact(log.options, plan, p, txns, log.earliest, t);
  }

  lemma NoRecords(log: Log, plan: P.Plan, p: P.Partition, txns: seq<P.Txn>)
    requires StandsFor(log, plan, p, txns)
    ensures log.records == [] <==> txns == []
  {
  }

  lemma NotYetAppended(plan: P.Plan, w: P.World, k: P.Key)
    requires P.Inv(plan, w) && P.Enabled(plan, w, P.AppendBatch(k))
    ensures k in w.intents && !P.InLog(w, k)
  {
    assert !P.InHistory(w, k);
  }

  lemma CrashKeepsFiles(plan: P.Plan, w: P.World)
    ensures P.Next(plan, w, P.Crash).logs == w.logs && P.Next(plan, w, P.Crash).intents == w.intents
  {
  }

  /** So for the protocol the crash happened before the append: the log that opens is that of the machine after `Crash`,
      and the intent, which is still there, will be replayed. */
  lemma CrashIsStep(plan: P.Plan, w: P.World, k: P.Key, log: Log, at: Point)
    requires P.Inv(plan, w) && P.Enabled(plan, w, P.AppendBatch(k))
    requires Inv(log) && StandsFor(log, plan, k.0, P.Log(w, k.0)) && Takes(log, plan, k)
    requires Reaches(log, Written(log, plan, k), at)
    ensures var l, z := Reopened(log, plan, k, at), P.Next(plan, w, P.Crash);
            l.Some? ==> StandsFor(l.value, plan, k.0, P.Log(z, k.0)) && k in z.intents && !P.InLog(z, k)
  {
    NotYetAppended(plan, w, k);
    CrashKeepsFiles(plan, w);
    CrashIsBefore(log, plan, k.0, P.Log(w, k.0), k.1, at);
  }

  // ---------------------------------------------------------------- replaying the intent

  lemma NothingBefore(b: Bytes)
    ensures [] + b == b
  {
  }

  lemma OverEmptyFile(d: Disk, name: string)
    ensures Over(map[name := []], d) == if name in d then d else d[name := []]
  {
    var extra: Disk := map[name := []];
    var o, e := Over(extra, d), if name in d then d else d[name := []];
    assert o.Keys == e.Keys;
    forall n | n in o
      ensures o[n] == e[n]
    {
      if n == name { NothingBefore(Contents(d, n)); } else { OverElsewhere(extra, d, n); }
    }
  }

  /** A segment file that was created and no more. */
  lemma CreatedDisk(log: Log, version: nat, batch: seq<ChangeRecord>)
    requires Layout(log) && NextBatch(log, batch) && batch != [] && Opens(log, batch[0])
    requires Reaches(log, batch, InFrame(0, 0))
    ensures var name := log.options.format.name(End(log));
            && name !in log.disk && name != SNAPSHOT
            && DiskAt(log, version, batch, InFrame(0, 0)) == Over(map[name := []], log.disk)
  {
    assert batch[..0] == [];
    OpeningBytes(log, batch[0], []);
    OverEmptyFile(log.disk, log.options.format.name(End(log)));
  }

  lemma EndInUse(log: Log, version: nat, batch: seq<ChangeRecord>)
    requires Layout(log) && log.records != [] && NextBatch(log, batch) && batch != [] && Opens(log, batch[0])
    ensures log.options.format.name(End(log)) in Enter(log, version, batch).disk
  {
    var l, k := Enter(log, version, batch), |log.names|;
    PackedFacts(log);
    EnteredNames(log, version, batch);
    EndUsed(log, batch, AppendFrames(log, batch));
    assert SegmentStored(l.options, l.names, l.disk, Packed(l), k);
  }

  /** It changes nothing for an append of the same batch. */
  lemma CreatedHarmless(log: Log, version: nat, batch: seq<ChangeRecord>)
    requires Inv(log) && log.records != [] && NextBatch(log, batch) && batch != [] && Opens(log, batch[0])
    requires Reaches(log, batch, InFrame(0, 0))
    ensures var d := DiskAt(log, version, batch, InFrame(0, 0));
            && Recover(log.options, d) == Some(log.(disk := d))
            && Append(log.(disk := d), version, batch) == Append(log, version, batch)
  {
    var name := log.options.format.name(End(log));
    CrashInLaterAppend(log, version, batch, InFrame(0, 0));
    CreatedDisk(log, version, batch);
    EnterAbove(log, map[name := []], version, batch);
    EndInUse(log, version, batch);
    OverEmptyFile(Enter(log, version, batch).disk, name);
  }

  /** Nothing of the batch is on disk that an append of the same batch would meet: no frame of it is whole, and if it
      began a segment, the file is empty. */
  predicate NothingLeft(log: Log, batch: seq<ChangeRecord>, at: Point)
    requires batch != []
  {
    at.InFrame? && at.j == 0 && (Opens(log, batch[0]) ==> at.n == 0)
  }

  /** Then the replay appends the batch as the commit would have. */
  lemma ReplayAppends(log: Log, plan: P.Plan, p: P.Partition, txns: seq<P.Txn>, t: P.Txn, at: Point)
    requires Inv(log) && StandsFor(log, plan, p, txns) && Takes(log, plan, (p, t)) && log.records != []
    requires var batch := Written(log, plan, (p, t)); Reaches(log, batch, at) && NothingLeft(log, batch, at)
    ensures var l := Reopened(log, plan, (p, t), at);
            && l.Some?
            && var out := AppendOf(l.value, plan, (p, t));
            && out == AppendOf(log, plan, (p, t)) && out.ok && StandsFor(out.log, plan, p, txns + [t])
            && Recover(log.options, out.log.disk) == Some(out.log)
  {
    var batch := Written(log, plan, (p, t));
    WrittenIsNext(log, plan, (p, t));
    AppendIsStep(log, plan, p, txns, t);
    if Opens(log, batch[0]) {
      CreatedHarmless(log, plan.version(t), batch);
      SameWritten(log, plan, (p, t), DiskAt(log, plan.version(t), batch, at));
    } else {
      CrashInLaterAppend(log, plan.version(t), batch, at);
    }
  }

  /** The append reports success, and the directory does not open any more. */
  ghost predicate Lost(o: Options, out: Outcome) {
    out.ok && (FilesFit(o.format, out.log.disk) ==> Recover(o, out.log.disk) == None)
  }

  lemma ShareWithItself(log: Log, batch: seq<ChangeRecord>)
    requires Layout(log) && log.records != [] && NextBatch(log, batch) && batch != [] && Opens(log, batch[0])
    ensures ShareFile(log, batch, batch)
  {
    PackedFacts(log);
    ShareAtEnd(log, batch, batch);
  }

  lemma {:induction false} AgainBreaksLog(log: Log, version: nat, batch: seq<ChangeRecord>)
    requires Inv(log) && log.records != [] && NextBatch(log, batch) && batch != []
    requires OneVersion(batch, version) && version <= UINT64_MAX
    ensures var d := DiskAt(log, version, batch, AfterFrames);
            if Opens(log, batch[0]) then
              && Recover(log.options, d) == Some(log.(disk := d))
              && Lost(log.options, Append(log.(disk := d), version, batch))
            else Recover(log.options, d) == None
  {
    if Opens(log, batch[0]) {
      ShareWithItself(log, batch);
      AppendAfterCrash(log, batch, version, batch);
    } else {
      CrashInLaterAppend(log, version, batch, AfterFrames);
    }
  }

  /** Once all frames are written and the manifest is not, the log is lost whatever recovery does: it does not open, or
      it opens, the replay appends the batch again to the files that the crash left, and it does not open after that. */
  lemma {:induction false} ReplayBreaksLog(log: Log, plan: P.Plan, k: P.Key)
    requires Inv(log) && Takes(log, plan, k) && log.records != []
    ensures var l := Reopened(log, plan, k, AfterFrames);
            && (l.Some? <==> Opens(log, Written(log, plan, k)[0]))
            && (l.Some? ==> Lost(log.options, AppendOf(l.value, plan, k)))
  {
    WrittenIsNext(log, plan, k);
    AgainBreaksLog(log, plan.version(k.1), Written(log, plan, k));
    SameWritten(log, plan, k, DiskAt(log, plan.version(k.1), Written(log, plan, k), AfterFrames));
  }

  lemma SameWritten(log: Log, plan: P.Plan, k: P.Key, d: Disk)
    requires WellFormed(plan, k)
    ensures AppendOf(log.(disk := d), plan, k) == Append(log.(disk := d), plan.version(k.1), Written(log, plan, k))
  {
  }
}
