/** Changed bytes: a segment file with a damaged payload is refused. */
module LogFaults {
  import opened Bytes
  import opened ChangeRecords
  import opened Framings
  import opened LogFormats
  import opened Manifests
  import opened Segments
  import opened LogSpec
  import opened LogInvariant
  import opened LogRecovery
  import Frames
  import opened Wrappers

  // ---------------------------------------------------------------- changed bytes

  /** Whole frames and then something the reader recognises as damaged. */
  lemma {:induction false} ScanFileDamaged(o: Options, rs: seq<ChangeRecord>, bad: Bytes, expected: nat, isLast: bool,
                                           promised: Option<nat>)
    requires Sound(o.format.framing) && AllFit(o.format.framing, rs) && o.format.framing.read(bad) == Damaged
    ensures ScanFile(o, FrameList(o.format.framing, rs) + bad, expected, isLast, promised) == None
    decreases |rs|
  {
    var f := o.format.framing;
    if rs == [] {
      assert FrameList(f, rs) + bad == bad;
    } else {
      var rest := FrameList(f, rs[1..]) + bad;
      ScanFileDamaged(o, rs[1..], bad, rs[0].offset + 1, isLast, promised);
      FirstFrame(f, rs, bad);
      assert f.read(f.frame(rs[0]) + rest) == Got(rs[0], |f.frame(rs[0])|);
      assert (f.frame(rs[0]) + rest)[|f.frame(rs[0])|..] == rest;
    }
  }

  lemma ScanOneRefused(o: Options, m: Manifest, names: seq<string>, d: Disk, s: seq<Segment>, k: nat, b: Bytes)
    requires NoneEmpty(s) && k < |s| == |names| == |m.segments| && names[k] in d && d[names[k]] == b
    requires ScanFile(o, b, ScanAt(s, k, d).expected, k + 1 == |names|, Some(m.highWatermark)) == None
    ensures ScanOne(o, Some(m), names, k, ScanAt(s, k, d)) == None
  {
  }

  /** The listed files before the i-th are not touched by a change of the i-th. */
  lemma EarlierFiles(log: Log, i: nat, b: Bytes)
    requires Layout(log) && i < |log.names|
    ensures forall j :: 0 <= j < i ==>
              var n := log.names[j]; n in log.disk && log.disk[log.names[i] := b][n] == log.disk[n]
  {
    forall j | 0 <= j < i
      ensures log.names[j] in log.disk && log.names[j] != log.names[i]
    {
      NamesDistinct(log, j, i);
      assert SegmentStored(log.options, log.names, log.disk, Packed(log), j);
    }
  }

  /** Replacing one listed file by one that the scan refuses makes the scan of the directory fail. */
  lemma RefusedFile(log: Log, i: nat, b: Bytes)
    requires Inv(log) && i < |log.names| == |Packed(log)| && NoneEmpty(Packed(log))
    requires ScanFile(log.options, b, ScanAt(Packed(log), i, log.disk).expected, i + 1 == |log.names|,
             Some(log.highWatermark)) == None
    ensures var m := ManifestOf(log, Infos(log.options, Packed(log)));
            ScanFrom(log.options, Some(m), log.names, 0, Scan([], 0, 1, false, log.disk[log.names[i] := b])) == None
  {
    var o, s, d := log.options, Packed(log), log.disk[log.names[i] := b];
    var m := ManifestOf(log, Infos(o, s));
    PackedFacts(log);
    EarlierFiles(log, i, b);
    WholeBefore(o, m, log.names, log.disk, d, s, i);
    ScanOneRefused(o, m, log.names, d, s, i, b);
    ScanRefused(o, m, log.names, d, s, log.earliest, i);
  }

  /** Recovery of a directory with the manifest of `log` fails if the scan does. */
  lemma RefusedScan(log: Log, d: Disk)
    requires Inv(log) && NoneEmpty(Packed(log)) && MANIFEST in d && d[MANIFEST] == log.disk[MANIFEST]
    requires ScanFrom(log.options, Some(ManifestOf(log, Infos(log.options, Packed(log)))), log.names, 0,
             Scan([], 0, 1, false, d)) == None
    ensures Recover(log.options, d) == None
  {
    ManifestReads(log);
    NamesOfInfos(log);
    NamesAscend(log);
  }

  lemma RefusedDisk(log: Log, i: nat, b: Bytes)
    requires Inv(log) && i < |log.names| == |Packed(log)| && NoneEmpty(Packed(log))
    requires ScanFile(log.options, b, ScanAt(Packed(log), i, log.disk).expected, i + 1 == |log.names|,
             Some(log.highWatermark)) == None
    ensures Recover(log.options, log.disk[log.names[i] := b]) == None
  {
    RefusedFile(log, i, b);
    OtherFilesApart(log, i);
    RefusedScan(log, log.disk[log.names[i] := b]);
  }

  /** The file of segment s with `y` where the payload of record q holds `x`. */
  function DamagedFile(c: Codec, s: Segment, q: nat, pre: Bytes, x: Bytes, y: Bytes, post: Bytes): Bytes
    requires q < |s|
  {
    FrameList(Frames.LogFraming(c), s[..q]) +
    (Frames.Header(|pre + x + post|, c.crc(pre + x + post)) + (pre + y + post)
        + FrameList(Frames.LogFraming(c), s[q + 1..]))
  }

  lemma DamagedFileRefused(o: Options, c: Codec, s: Segment, q: nat, pre: Bytes, x: Bytes, y: Bytes, post: Bytes,
                           expected: nat,
                           isLast: bool, promised: Option<nat>)
    requires Faithful(c) && Frames.UsesCrc32c(c) && o.format.framing == Frames.LogFraming(c)
    requires AllFit(o.format.framing, s) && q < |s| && c.encode(s[q]) == pre + x + post && |x| == |y| <= 4 && x != y
    ensures ScanFile(o, DamagedFile(c, s, q, pre, x, y, post), expected, isLast, promised) == None
  {
    var f, rest := o.format.framing, FrameList(Frames.LogFraming(c), s[q + 1..]);
    var bad := Frames.Header(|pre + x + post|, c.crc(pre + x + post)) + (pre + y + post) + rest;
    assert c.fits(s[q]);
    Frames.ReadDamagedFrame(c, pre, x, y, post, rest);
    assert f.read(bad) == Damaged;
    assert Sound(f) by { Frames.LogFramingSound(c); }
    ScanFileDamaged(o, s[..q], bad, expected, isLast, promised);
  }

  /** Any change of a stored payload within four consecutive bytes, in any record of any segment, is noticed: the
      log does not open. */
  lemma DamagedPayloadRefused(log: Log, c: Codec, i: nat, q: nat, pre: Bytes, x: Bytes, y: Bytes, post: Bytes)
    requires Inv(log) && Faithful(c) && Frames.UsesCrc32c(c) && log.options.format == LogFormat(c)
    requires i < |log.names| == |Packed(log)| && q < |Packed(log)[i]|
    requires c.encode(Packed(log)[i][q]) == pre + x + post && |x| == |y| <= 4 && x != y
    ensures Recover(log.options, log.disk[log.names[i] := DamagedFile(c, Packed(log)[i], q, pre, x, y, post)]) == None
  {
    PackedFacts(log);
    PackedNoneEmpty(log);
    DamagedFileRefused(log.options, c, Packed(log)[i], q, pre, x, y, post, ScanAt(Packed(log), i, log.disk).expected,
                       i + 1 == |log.names|, Some(log.highWatermark));
    RefusedDisk(log, i, DamagedFile(c, Packed(log)[i], q, pre, x, y, post));
  }
}
