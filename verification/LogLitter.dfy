/** Appending to a log over a file that holds anything but whole frames, such as the torn frame of a crash. */
module LogLitter {
  import opened Bytes
  import opened ChangeRecords
  import opened Framings
  import opened LogFormats
  import opened Manifests
  import opened Segments
  import opened LogSpec
  import opened LogInvariant
  import opened LogRecovery
  import opened LogReuse
  import Frames
  import opened Wrappers

  lemma {:induction false} RangesSome(f: Format, d: Disk, names: seq<string>)
    ensures SegmentRanges(f, d, names).Some? <==> forall i :: 0 <= i < |names| ==> SegmentRange(f, d, names[i]).Some?
    decreases |names|
  {
    if names != [] {
      RangesSome(f, d, names[1..]);
      assert forall i :: 0 <= i < |names| - 1 ==> names[1..][i] == names[i + 1];
      assert (forall i :: 0 <= i < |names| ==> SegmentRange(f, d, names[i]).Some?) ==>
             forall i :: 0 <= i < |names[1..]| ==> SegmentRange(f, d, names[1..][i]).Some?;
      if SegmentRange(f, d, names[0]).Some? &&
         forall i :: 0 <= i < |names[1..]| ==> SegmentRange(f, d, names[1..][i]).Some? {
        forall i | 0 <= i < |names|
          ensures SegmentRange(f, d, names[i]).Some?
        {
          if i > 0 { assert names[1..][i - 1] == names[i]; }
        }
      }
    }
  }

  /** Every file that the log uses, after whatever was in a file of that name, still reads as frames. */
  predicate ReadsOver(l: Log, extra: Disk) {
    forall n :: n in l.names && n in extra ==>
      ReadAll(l.options.format.framing, extra[n] + Contents(l.disk, n)).Some?
  }

  lemma StoredRange(l: Log, i: nat)
    requires Layout(l) && i < |l.names|
    ensures l.names[i] in l.disk && SegmentRange(l.options.format, l.disk, l.names[i]).Some?
  {
    PackedFacts(l);
    PackedNoneEmpty(l);
    assert SegmentStored(l.options, l.names, l.disk, Packed(l), i);
    RangeOfStored(l.options, l.disk, l.names[i], Packed(l)[i]);
  }

  /** Only a file that is used again can fail to be read. */
  lemma RangeOver(l: Log, extra: Disk, i: nat)
    requires Layout(l) && i < |l.names|
    ensures var n := l.names[i];
            SegmentRange(l.options.format, Over(extra, l.disk), n).Some? <==>
            (n in extra ==> ReadAll(l.options.format.framing, extra[n] + Contents(l.disk, n)).Some?)
  {
    StoredRange(l, i);
    if l.names[i] !in extra { OverElsewhere(extra, l.disk, l.names[i]); }
  }

  lemma PersistsOver(l: Log, extra: Disk)
    requires Layout(l) && l.names != []
    ensures PersistManifest(Above(l, extra)).ok <==> ReadsOver(l, extra)
  {
    NamesAscend(l);
    RangesSome(l.options.format, Over(extra, l.disk), l.names);
    forall i | 0 <= i < |l.names|
      ensures var n := l.names[i];
              SegmentRange(l.options.format, Over(extra, l.disk), n).Some? <==>
              (n in extra ==> ReadAll(l.options.format.framing, extra[n] + Contents(l.disk, n)).Some?)
    {
      RangeOver(l, extra, i);
    }
  }

  /** The frames are as the append leaves them; what is written after them are other files. */
  lemma ReadsAsEntered(log: Log, extra: Disk, version: nat, batch: seq<ChangeRecord>)
    requires Inv(log) && NextBatch(log, batch) && batch != []
    ensures ReadsOver(Enter(log, version, batch), extra) <==> ReadsOver(AppendFrames(log, batch), extra)
  {
    EnteredNames(log, version, batch);
    forall n | n in AppendFrames(log, batch).names
      ensures Contents(AppendFrames(log, batch).disk, n) == Contents(Enter(log, version, batch).disk, n)
    {
      EnteredContents(log, version, batch, n);
    }
  }

  lemma EnteredContents(log: Log, version: nat, batch: seq<ChangeRecord>, n: string)
    requires Layout(log) && NextBatch(log, batch) && batch != [] && n in AppendFrames(log, batch).names
    ensures Contents(AppendFrames(log, batch).disk, n) == Contents(Enter(log, version, batch).disk, n)
  {
    EnteredNames(log, version, batch);
    NamesApart(Enter(log, version, batch), n);
  }

  lemma NamesApart(l: Log, n: string)
    requires Layout(l) && n in l.names
    ensures n != MANIFEST && n != SNAPSHOT
  {
    var i :| 0 <= i < |l.names| && l.names[i] == n;
    OtherFilesApart(l, i);
  }

  /** Over any files that are in the directory besides those of the log: the append fails exactly if it begins a segment
      in one of them and what that file then holds cannot be read as frames; and if it begins none there, the log opens
      afterwards whatever the files hold. */
  lemma AppendOverJunk(log: Log, extra: Disk, version: nat, batch: seq<ChangeRecord>)
    requires Inv(log) && NextBatch(log, batch) && batch != [] && OneVersion(batch, version) && version <= UINT64_MAX
    requires MANIFEST !in extra && SNAPSHOT !in extra
    ensures var out, l := Append(Above(log, extra), version, batch), AppendFrames(log, batch);
            && (out.ok <==> ReadsOver(l, extra))
            && (Unlisted(l.names, extra) ==> Recover(log.options, out.log.disk) == Some(out.log))
  {
    EnteredNames(log, version, batch);
    EnterAbove(log, extra, version, batch);
    PersistsOver(Enter(log, version, batch), extra);
    ReadsAsEntered(log, extra, version, batch);
    if Unlisted(AppendFrames(log, batch).names, extra) { AppendElsewhere(log, extra, version, batch); }
  }

  // ---------------------------------------------------------------- a frame that was hardly begun

  /** The bytes that a reader checks first: magic and version. */
  const CHECKED: nat := 6

  lemma MagicBytes()
    ensures ToLE(Frames.MAGIC, 4) + ToLE(Frames.VERSION, 2) == [0x31, 0x43, 0x44, 0x43, 1, 0]
  {
    assert ToLE(Frames.MAGIC, 4) == [0x31] + ToLE(0x434443, 3);
    assert ToLE(0x434443, 3) == [0x43] + ToLE(0x4344, 2);
    assert ToLE(0x4344, 2) == [0x44] + ToLE(0x43, 1);
    assert ToLE(0x43, 1) == [0x43] + ToLE(0, 0);
    assert ToLE(1, 2) == [1] + ToLE(0, 1);
    assert ToLE(0, 1) == [0] + ToLE(0, 0);
  }

  /** Where a second frame begins within the first six bytes, one of the two checks fails. */
  lemma MisplacedMagic(part: Bytes, rest: Bytes, n: nat)
    requires 0 < n < CHECKED && |part| == n && |rest| >= CHECKED
    requires forall i :: 0 <= i < n ==> part[i] == [0x31, 0x43, 0x44, 0x43, 1, 0][i]
    requires rest[..CHECKED] == [0x31, 0x43, 0x44, 0x43, 1, 0]
    ensures var b := part + rest; b[0..4] != [0x31, 0x43, 0x44, 0x43] || b[4..6] != [1, 0]
  {
    var b := part + rest;
    assert rest[0] == rest[..CHECKED][0] && rest[1] == rest[..CHECKED][1];
    assert b[n] == 0x31;
    if n < 4 {
      assert b[0..4][n] == 0x31;
    } else {
      assert b[4..6][n - 4] == 0x31;
    }
  }

  lemma {:induction false} FromLEInjective(a: Bytes, b: Bytes)
    requires |a| == |b| && FromLE(a) == FromLE(b)
    ensures a == b
    decreases |a|
  {
    if a != [] {
      assert a[0] == b[0];
      FromLEInjective(a[1..], b[1..]);
      assert a == [a[0]] + a[1..] && b == [b[0]] + b[1..];
    }
  }

  lemma FrameStarts(c: Codec, r: ChangeRecord)
    requires Faithful(c) && c.fits(r)
    ensures |Frames.Frame(c, r)| > CHECKED && Frames.Frame(c, r)[..CHECKED] == [0x31, 0x43, 0x44, 0x43, 1, 0]
  {
    var p := c.encode(r);
    Frames.HeaderSlices(|p|, c.crc(p), p);
    MagicBytes();
    var b := Frames.Frame(c, r);
    assert b[..CHECKED] == b[0..4] + b[4..6];
  }

  lemma ReadMisplaced(c: Codec, b: Bytes)
    requires |b| >= HEADER_BYTES && (b[0..4] != [0x31, 0x43, 0x44, 0x43] || b[4..6] != [1, 0])
    ensures Frames.ReadFrame(c, b) == Damaged
  {
    MagicBytes();
    var m, v := ToLE(Frames.MAGIC, 4), ToLE(Frames.VERSION, 2);
    assert m == (m + v)[0..4] && v == (m + v)[4..6];
    Frames.WordValue(m, Frames.MAGIC);
    Frames.HalfValue(v, Frames.VERSION);
    if FromLE(b[0..4]) == Frames.MAGIC { FromLEInjective(b[0..4], m); }
    if FromLE(b[4..6]) == Frames.VERSION { FromLEInjective(b[4..6], v); }
  }

  /** A frame after less than six bytes of another one is not read. */
  lemma HardlyBegunDamaged(c: Codec, r: ChangeRecord, n: nat, q: ChangeRecord, rest: Bytes)
    requires Faithful(c) && c.fits(r) && c.fits(q) && 0 < n < CHECKED
    ensures n < |Frames.Frame(c, r)|
    ensures Frames.ReadFrame(c, Frames.Frame(c, r)[..n] + (Frames.Frame(c, q) + rest)) == Damaged
  {
    FrameStarts(c, r);
    FrameStarts(c, q);
    var part, more := Frames.Frame(c, r)[..n], Frames.Frame(c, q) + rest;
    assert more[..CHECKED] == Frames.Frame(c, q)[..CHECKED];
    forall i | 0 <= i < n
      ensures part[i] == [0x31, 0x43, 0x44, 0x43, 1, 0][i]
    {
      assert part[i] == Frames.Frame(c, r)[..CHECKED][i];
    }
    MisplacedMagic(part, more, n);
    ReadMisplaced(c, part + more);
  }

  lemma HardlyBegunUnreadable(f: Framing, c: Codec, r: ChangeRecord, n: nat, s: Segment)
    requires Faithful(c) && f == Frames.LogFraming(c) && c.fits(r) && 0 < n < CHECKED && s != [] && c.fits(s[0])
    ensures n < |f.frame(r)| && ReadAll(f, f.frame(r)[..n] + FrameList(f, s)) == None
  {
    HardlyBegunDamaged(c, r, n, s[0], FrameList(f, s[1..]));
  }

  /** The log over a file of any contents where its next segment would begin. */
  function Littered(log: Log, junk: Bytes): Log {
    Above(log, map[log.options.format.name(End(log)) := junk])
  }

  lemma ReadsOverNext(log: Log, junk: Bytes, batch: seq<ChangeRecord>)
    requires Layout(log) && log.records != [] && NextBatch(log, batch) && batch != []
    ensures var f := log.options.format.framing;
            ReadsOver(AppendFrames(log, batch), map[log.options.format.name(End(log)) := junk]) <==>
            (Opens(log, batch[0]) ==> ReadAll(f, junk + FrameList(f, FirstBegun(log, batch))).Some?)
  {
    var l := AppendFrames(log, batch);
    PackedFacts(log);
    AppendFramesTracks(log, batch);
    if Opens(log, batch[0]) {
      EndUsed(log, batch, l);
      assert l.names[|log.names|] in l.names;
    } else {
      EndUnused(log, batch);
    }
  }

  lemma AppendOverNext(log: Log, junk: Bytes, version: nat, batch: seq<ChangeRecord>)
    requires Inv(log) && log.records != [] && NextBatch(log, batch) && batch != []
    requires OneVersion(batch, version) && version <= UINT64_MAX
    ensures var f := log.options.format.framing;
            Append(Littered(log, junk), version, batch).ok <==>
            (Opens(log, batch[0]) ==> ReadAll(f, junk + FrameList(f, FirstBegun(log, batch))).Some?)
  {
    AppendOverJunk(log, map[log.options.format.name(End(log)) := junk], version, batch);
    ReadsOverNext(log, junk, batch);
  }

  /** With the framing that the log writes: over a frame of which less than six bytes were written, the append fails
      if and only if it begins a segment there. */
  lemma AppendOverHardlyBegun(log: Log, c: Codec, r: ChangeRecord, n: nat, version: nat, batch: seq<ChangeRecord>)
    requires Inv(log) && log.records != [] && NextBatch(log, batch) && batch != []
    requires OneVersion(batch, version) && version <= UINT64_MAX
    requires Faithful(c) && log.options.format.framing == Frames.LogFraming(c) && c.fits(r) && 0 < n < CHECKED
    ensures var f := log.options.format.framing;
            n < |f.frame(r)| && (Append(Littered(log, f.frame(r)[..n]), version, batch).ok <==> !Opens(log, batch[0]))
  {
    var f, s := log.options.format.framing, FirstBegun(log, batch);
    assert f.fits(batch[0]);
    HardlyBegunUnreadable(f, c, r, n, s);
    AppendOverNext(log, f.frame(r)[..n], version, batch);
  }
}
