/** A crash after the frames of a batch, before the manifest lists them. */
module LogLeftovers {
  import opened Bytes
  import opened ChangeRecords
  import opened Framings
  import opened LogFormats
  import opened LogSpec
  import opened LogInvariant
  import opened LogRecovery
  import opened LogCrash
  import opened Wrappers

  // ---------------------------------------------------------------- all frames, but no snapshot

  lemma FramesOthers(log: Log, batch: seq<ChangeRecord>)
    requires Inv(log) && NextBatch(log, batch)
    ensures var d := AppendFrames(log, batch).disk;
            && MANIFEST in d && d[MANIFEST] == log.disk[MANIFEST]
            && ReadHistory(log.options, d, log.records) == Some(log.history)
  {
    AppendFramesOthers(log, batch, MANIFEST);
    AppendFramesOthers(log, batch, SNAPSHOT);
    SameHistory(log, AppendFrames(log, batch).disk);
    HistoryReads(log);
  }

  lemma FramesGrowth(log: Log, batch: seq<ChangeRecord>)
    requires Layout(log) && log.names != [] && NextBatch(log, batch) && batch != []
    ensures var k := Placing(log, batch);
            && k <= |batch| && (k == 0 <==> Opens(log, batch[0]))
            && Grown(log, AppendFrames(log, batch).disk, FrameList(log.options.format.framing, batch[..k]))
  {
    LayoutApart(log);
    GrownBySelf(log);
    Growth(log, batch);
    GrowthStarts(log, batch);
    OpensIsRolls(log, batch[0]);
  }

  /** A process that stops between the last frame and the snapshot file: the same as inside the batch. */
  lemma CrashAfterFrames(log: Log, batch: seq<ChangeRecord>)
    requires Inv(log) && log.records != [] && NextBatch(log, batch) && batch != []
    ensures var d := AppendFrames(log, batch).disk;
            Recover(log.options, d) == if Opens(log, batch[0]) then Some(log.(disk := d)) else None
  {
    var d, k := AppendFrames(log, batch).disk, Placing(log, batch);
    PackedFacts(log);
    FramesOthers(log, batch);
    FramesGrowth(log, batch);
    if Opens(log, batch[0]) {
      assert batch[..0] == [];
      GrownSurvives(log, d, []);
      RecoverSurvivors(log, d, []);
    } else {
      FollowsPrefix(log, batch, k);
      LongerRefused(log, d, batch[..k]);
    }
  }

  // ---------------------------------------------------------------- all frames and the snapshot, but no manifest

  lemma EnteredOthers(log: Log, version: nat, batch: seq<ChangeRecord>)
    requires Inv(log) && NextBatch(log, batch)
    ensures var d := Enter(log, version, batch).disk;
            && MANIFEST in d && d[MANIFEST] == log.disk[MANIFEST]
            && SNAPSHOT in d && d[SNAPSHOT] == FrameList(log.options.format.framing, log.history + batch)
  {
    AppendFramesOthers(log, batch, MANIFEST);
    AppendFramesTracks(log, batch);
  }

  lemma GrownOtherFile(log: Log, d: Disk, frames: Bytes, name: string, b: Bytes)
    requires Layout(log) && log.names != [] && Grown(log, d, frames) && !log.options.format.isSegment(name)
    ensures Grown(log, d[name := b], frames)
  {
    forall i | 0 <= i < |log.names|
      ensures log.names[i] != name
    {
      var n := NameAt(log, i);
    }
  }

  lemma EnteredGrowth(log: Log, version: nat, batch: seq<ChangeRecord>)
    requires Inv(log) && log.names != [] && NextBatch(log, batch) && batch != []
    ensures var k := Placing(log, batch);
            && k <= |batch| && (k == 0 <==> Opens(log, batch[0]))
            && Grown(log, Enter(log, version, batch).disk, FrameList(log.options.format.framing, batch[..k]))
  {
    FramesGrowth(log, batch);
    AppendFramesTracks(log, batch);
    var l := AppendFrames(log, batch);
    GrownOtherFile(log, l.disk, FrameList(log.options.format.framing, batch[..Placing(log, batch)]), SNAPSHOT,
                   FrameList(log.options.format.framing, log.history + batch));
  }

  lemma UntouchedReopens(log: Log, d: Disk, history: seq<ChangeRecord>)
    requires Inv(log) && log.names != [] && Grown(log, d, []) && MANIFEST in d && d[MANIFEST] == log.disk[MANIFEST]
    requires SNAPSHOT in d && d[SNAPSHOT] == FrameList(log.options.format.framing, history)
    requires history != [] && Owned(log.options, history)
    ensures Recover(log.options, d) == Some(log.(disk := d, history := history))
  {
    GrownSurvives(log, d, []);
    SnapshotReads(log.options, d, history, log.records);
    RecoverSurvivors(log, d, []);
  }

  lemma LongerRefused(log: Log, d: Disk, more: seq<ChangeRecord>)
    requires Inv(log) && log.names != [] && Follows(log, more) && MANIFEST in d && d[MANIFEST] == log.disk[MANIFEST]
    requires Grown(log, d, FrameList(log.options.format.framing, more))
    ensures Recover(log.options, d) == None
  {
    assert FrameList(log.options.format.framing, more) + [] == FrameList(log.options.format.framing, more);
    GrownRefused(log, d, more, []);
  }

  lemma EnteredReopens(log: Log, version: nat, batch: seq<ChangeRecord>)
    requires Inv(log) && log.names != [] && NextBatch(log, batch) && batch != [] && Opens(log, batch[0])
    ensures var d := Enter(log, version, batch).disk;
            Recover(log.options, d) == Some(log.(disk := d, history := log.history + batch))
  {
    EnteredOthers(log, version, batch);
    EnteredGrowth(log, version, batch);
    assert batch[..0] == [];
    OwnedConcat(log.options, log.history, batch);
    UntouchedReopens(log, Enter(log, version, batch).disk, log.history + batch);
  }

  lemma EnteredRefused(log: Log, version: nat, batch: seq<ChangeRecord>)
    requires Inv(log) && log.names != [] && NextBatch(log, batch) && batch != [] && !Opens(log, batch[0])
    ensures Recover(log.options, Enter(log, version, batch).disk) == None
  {
    EnteredOthers(log, version, batch);
    EnteredGrowth(log, version, batch);
    FollowsPrefix(log, batch, Placing(log, batch));
    LongerRefused(log, Enter(log, version, batch).disk, batch[..Placing(log, batch)]);
  }

  /** A process that stops after all frames and the snapshot file were written, but before the manifest, leaves a
      directory that reopens if and only if the batch began a new segment; the records are then those before the
      append while the history already holds the batch. */
  lemma CrashBeforeManifest(log: Log, version: nat, batch: seq<ChangeRecord>)
    requires Inv(log) && log.records != [] && NextBatch(log, batch) && batch != []
    ensures var d := Enter(log, version, batch).disk;
            Recover(log.options, d) ==
            if Opens(log, batch[0]) then Some(log.(disk := d, history := log.history + batch)) else None
  {
    PackedFacts(log);
    if Opens(log, batch[0]) { EnteredReopens(log, version, batch); } else { EnteredRefused(log, version, batch); }
  }
}
