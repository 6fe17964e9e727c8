/** Whole runs of a change log: appends, maintenance, compactions and reopenings in any order. */
module LogRuns {
  import opened ChangeRecords
  import opened LogFormats
  import opened Manifests
  import LogSpec
  import opened LogInvariant
  import opened LogRecovery
  import opened LogCompaction
  import opened LogMaintenance
  import opened Wrappers

  type Log = LogSpec.Log

  /** An append carries its records as they are stamped. */
  datatype Step =
    | Append(version: nat, batch: seq<ChangeRecord>)
    | Maintain(config: Config, youngestClosedAge: nat)
    | Compact(retainFrom: nat)
    | Reopen

  function Batch(s: Step): seq<ChangeRecord> {
    if s.Append? then s.batch else []
  }

  /** What the callers of the log owe it: versions do not decrease, offsets do not overflow, records can be
      serialised, and compaction retains something. */
  predicate Allowed(log: Log, s: Step) {
    match s
    case Append(version, batch) => NextBatch(log, batch) && OneVersion(batch, version)
        && log.committed <= version <= UINT64_MAX
    case Maintain(config, _) => ValidConfig(config)
    case Compact(retainFrom) => retainFrom <= log.highWatermark
    case Reopen => true
  }

  /** The operations of a log. */
  datatype Machine = Machine(
    append: (Log, nat, seq<ChangeRecord>) -> LogSpec.Outcome,
    maintain: (Log, Config, nat) -> LogSpec.Outcome,
    compact: (Log, nat) -> LogSpec.Outcome,
    reopen: Log -> Option<Log>)

  ghost function ChangeLog(): Machine {
    Machine((log: Log, version: nat, batch: seq<ChangeRecord>) => LogSpec.Append(log, version, batch),
            (log: Log, config: Config, age: nat) => RunOnce(log, config, age),
            (log: Log, from: nat) => LogSpec.Compact(log, from),
            (log: Log) => LogSpec.Recover(log.options, log.disk))
  }

  /** What a step reports and leaves. */
  function Effect(m: Machine, log: Log, s: Step): LogSpec.Outcome {
    match s
    case Append(version, batch) => m.append(log, version, batch)
    case Maintain(config, age) => m.maintain(log, config, age)
    case Compact(retainFrom) => m.compact(log, retainFrom)
    case Reopen =>
      match m.reopen(log)
      case None => LogSpec.Outcome(log, false)
      case Some(l) => LogSpec.Outcome(l, true)
  }

  /** The retained records are the end of the history, whose versions never decrease. */
  predicate Ordered(h: seq<ChangeRecord>, rs: seq<ChangeRecord>) {
    LogSpec.Monotone(h) && |rs| <= |h| && rs == h[|h| - |rs|..] && (rs == [] ==> h == [])
  }

  ghost predicate Sane(log: Log) {
    Inv(log) && Ordered(log.history, log.records)
  }

  lemma OrderedAppend(h: seq<ChangeRecord>, rs: seq<ChangeRecord>, batch: seq<ChangeRecord>, version: nat)
    requires Ordered(h, rs) && OneVersion(batch, version) && LogSpec.MaxVersion(rs) <= version
    ensures Ordered(h + batch, rs + batch)
  {
    if h != [] {
      OrderedIsMonotone(h, rs);
      MaxVersionIsLast(rs);
      assert h[|h| - 1] == rs[|rs| - 1];
    }
  }

  lemma OrderedRest(h: seq<ChangeRecord>, rs: seq<ChangeRecord>, q: nat)
    requires Ordered(h, rs) && (q < |rs| || q == 0)
    ensures Ordered(h, rs[q..])
  {
    assert rs[q..] == h[|h| - |rs[q..]|..];
  }

  lemma OrderedIsMonotone(h: seq<ChangeRecord>, rs: seq<ChangeRecord>)
    requires Ordered(h, rs)
    ensures LogSpec.Monotone(rs)
  {
  }

  /** A step that succeeds, keeps everything in order and adds `batch` to the history. */
  ghost predicate Proceeds(log: Log, out: LogSpec.Outcome, batch: seq<ChangeRecord>) {
    out.ok && Sane(out.log) && out.log.history == log.history + batch
  }

  lemma AppendSane(log: Log, version: nat, batch: seq<ChangeRecord>)
    requires Sane(log) && NextBatch(log, batch) && OneVersion(batch, version) && log.committed <= version <= UINT64_MAX
    ensures Proceeds(log, LogSpec.Append(log, version, batch), batch)
  {
    AppendKeepsInv(log, version, batch);
    OrderedAppend(log.history, log.records, batch, version);
  }

  lemma TrimsProceeds(log: Log, q: nat, out: LogSpec.Outcome)
    requires Sane(log) && q < |log.records| && Trims(log, q, out)
    ensures Proceeds(log, out, [])
  {
    OrderedRest(log.history, log.records, q);
    assert log.history + [] == log.history;
  }

  lemma CompactedSane(log: Log, from: nat, q: nat)
    requires Sane(log) && from == log.earliest + q && 0 < q < |log.records|
    ensures Proceeds(log, LogSpec.Compact(log, from), [])
  {
    OrderedIsMonotone(log.history, log.records);
    MonotoneKeepsVersion(log, q);
    CompactKeepsInv(log, from, q);
    TrimsProceeds(log, q, LogSpec.Compact(log, from));
  }

  lemma CompactSane(log: Log, from: nat)
    requires Sane(log) && from <= log.highWatermark
    ensures Proceeds(log, LogSpec.Compact(log, from), [])
  {
    if from > log.earliest {
      CompactedSane(log, from, from - log.earliest);
    } else {
      assert log.history + [] == log.history;
    }
  }

  /** A compaction of a log with records always succeeds; the log opens afterwards, as the compacted one, if and only
      if a record was retained. */
  lemma CompactExactly(log: Log, from: nat)
    requires Sane(log) && Tidy(log) && log.records != []
    ensures var out := LogSpec.Compact(log, from);
            out.ok && LogSpec.Recover(log.options, out.log.disk) == if from <= log.highWatermark then Some(out.log)
                else None
  {
    if from <= log.highWatermark {
      CompactSane(log, from);
      RecoverRoundTrip(LogSpec.Compact(log, from).log);
    } else {
      CompactToEmptyBreaksLog(log, from);
    }
  }

  lemma MaintainSane(log: Log, c: Config, age: nat)
    requires Sane(log) && ValidConfig(c)
    ensures Proceeds(log, RunOnce(log, c, age), [])
  {
    if Due(log, c, age) {
      ActiveSegment(log);
      CompactSane(log, log.activeFirst);
    } else {
      assert log.history + [] == log.history;
    }
  }

  /** Every operation of the machine goes well when its callers owe it nothing. */
  ghost predicate Reliable(m: Machine) {
    && (forall log: Log, v: nat, b: seq<ChangeRecord> {:trigger m.append(log, v, b)} ::
          Sane(log) && NextBatch(log, b) && OneVersion(b, v) && log.committed <= v <= UINT64_MAX ==>
          Proceeds(log, m.append(log, v, b), b))
    && (forall log: Log, c: Config, age: nat {:trigger m.maintain(log, c, age)} ::
          Sane(log) && ValidConfig(c) ==> Proceeds(log, m.maintain(log, c, age), []))
    && (forall log: Log, from: nat {:trigger m.compact(log, from)} ::
          Sane(log) && from <= log.highWatermark ==> Proceeds(log, m.compact(log, from), []))
    && (forall log: Log {:trigger m.reopen(log)} :: Sane(log) ==> m.reopen(log) == Some(log))
  }

  lemma ChangeLogReliable()
    ensures Reliable(ChangeLog())
  {
    var m := ChangeLog();
    forall log: Log, v: nat, b: seq<ChangeRecord> |
      Sane(log) && NextBatch(log, b) && OneVersion(b, v) && log.committed <= v <= UINT64_MAX
      ensures Proceeds(log, m.append(log, v, b), b)
    {
      AppendSane(log, v, b);
    }
    forall log: Log, c: Config, age: nat | Sane(log) && ValidConfig(c)
      ensures Proceeds(log, m.maintain(log, c, age), [])
    {
      MaintainSane(log, c, age);
    }
    forall log: Log, from: nat | Sane(log) && from <= log.highWatermark
      ensures Proceeds(log, m.compact(log, from), [])
    {
      CompactSane(log, from);
    }
    forall log: Log | Sane(log)
      ensures m.reopen(log) == Some(log)
    {
      RecoverRoundTrip(log);
    }
  }

  lemma StepSane(m: Machine, log: Log, s: Step)
    requires Reliable(m) && Sane(log) && Allowed(log, s)
    ensures Proceeds(log, Effect(m, log, s), Batch(s))
  {
    if s.Reopen? { assert log.history + [] == log.history; }
  }

  // ---------------------------------------------------------------- runs

  function Run(m: Machine, log: Log, steps: seq<Step>): Log
    decreases |steps|
  {
    if steps == [] then log else Run(m, Effect(m, log, steps[0]).log, steps[1..])
  }

  predicate AllowedRun(m: Machine, log: Log, steps: seq<Step>)
    decreases |steps|
  {
    steps == [] || (Allowed(log, steps[0]) && AllowedRun(m, Effect(m, log, steps[0]).log, steps[1..]))
  }

  /** Everything that was appended, in order. */
  function Appended(m: Machine, log: Log, steps: seq<Step>): seq<ChangeRecord>
    decreases |steps|
  {
    if steps == [] then [] else Batch(steps[0]) + Appended(m, Effect(m, log, steps[0]).log, steps[1..])
  }

  /** The run keeps everything in order, and its history is what was appended. */
  ghost predicate Arrives(m: Machine, log: Log, steps: seq<Step>, end: Log) {
    Sane(end) && end.history == log.history + Appended(m, log, steps)
  }

  lemma HistoryFirst(m: Machine, log: Log, steps: seq<Step>, end: Log)
    requires steps != [] && Effect(m, log, steps[0]).log.history == log.history + Batch(steps[0])
    requires end.history == Effect(m, log, steps[0]).log.history + Appended(m, Effect(m, log, steps[0]).log, steps[1..])
    ensures end.history == log.history + Appended(m, log, steps)
  {
    var l, b := Effect(m, log, steps[0]).log, Batch(steps[0]);
    assert (log.history + b) + Appended(m, l, steps[1..]) == log.history + (b + Appended(m, l, steps[1..]));
  }

  lemma {:induction false} RunSane(m: Machine, log: Log, steps: seq<Step>)
    requires Reliable(m) && Sane(log) && AllowedRun(m, log, steps)
    ensures Arrives(m, log, steps, Run(m, log, steps))
    decreases |steps|
  {
    if steps == [] {
      assert log.history + [] == log.history;
    } else {
      StepSane(m, log, steps[0]);
      RunSane(m, Effect(m, log, steps[0]).log, steps[1..]);
      HistoryFirst(m, log, steps, Run(m, log, steps));
    }
  }

  lemma OpensEmpty(o: LogSpec.Options)
    requires Good(o.format) && Representable(o)
    ensures LogSpec.Recover(o, map[]).Some?
    ensures var l := LogSpec.Recover(o, map[]).value; Sane(l) && l.history == []
  {
    RecoverEmptyDirectory(o);
  }

  /** After any run from an empty directory the log can be reopened as exactly what it is in memory; its history is
      what was appended, and its records are the end of that. */
  lemma ReopenAfterRun(o: LogSpec.Options, start: Log, steps: seq<Step>)
    requires Good(o.format) && Representable(o) && LogSpec.Recover(o, map[]) == Some(start)
    requires AllowedRun(ChangeLog(), start, steps)
    ensures var log := Run(ChangeLog(), start, steps);
            && LogSpec.Recover(log.options, log.disk) == Some(log)
            && log.history == Appended(ChangeLog(), start, steps) && Sane(log)
  {
    ChangeLogReliable();
    OpensEmpty(o);
    RunSane(ChangeLog(), start, steps);
    RecoverRoundTrip(Run(ChangeLog(), start, steps));
    assert [] + Appended(ChangeLog(), start, steps) == Appended(ChangeLog(), start, steps);
  }
}
