// rucelium-store: the segmented observation log with its persistent dedup index,
// opened with fsync on, as a machine over what is on disk.  A segment file is its
// newline-terminated lines plus what follows the last newline.
module Store {
  import opened Common
  import opened Words
  import opened Domain

  // ---------------------------------------------------------------------
  // The disk
  // ---------------------------------------------------------------------

  // A terminated line holds one record, or two run together, which decode to nothing.
  datatype Line = Rec(sample: EnvSample) | Glued

  // After the last newline: nothing, an undecodable rest, or a whole record
  // whose newline never arrived.
  datatype Tail = Clean | Torn | Unterminated(sample: EnvSample)

  datatype SegFile = SegFile(number: nat, lines: seq<Line>, tail: Tail)

  datatype Disk = Disk(segs: seq<SegFile>, idx: seq<Key>, idxTorn: bool)

  const EMPTY_DISK := Disk([], [], false)

  datatype StoreError = Corrupt(segment: nat)

  function LineSamples(lines: seq<Line>): seq<EnvSample> {
    if lines == [] then []
    else LineSamples(lines[..|lines| - 1])
         + (match lines[|lines| - 1] case Rec(s) => [s] case Glued => [])
  }

  function SegSamples(seg: SegFile): seq<EnvSample> {
    LineSamples(seg.lines) + (match seg.tail case Unterminated(s) => [s] case _ => [])
  }

  // Everything stored, in append order.
  function Records(segs: seq<SegFile>): seq<EnvSample> {
    if segs == [] then [] else Records(segs[..|segs| - 1]) + SegSamples(segs[|segs| - 1])
  }

  // ---------------------------------------------------------------------
  // Reading a segment
  // ---------------------------------------------------------------------

  datatype Loaded = Loaded(samples: seq<EnvSample>, file: SegFile)

  // read_segment: a torn rest is cut off only when `repair` is set.
  function ReadSegment(seg: SegFile, repair: bool): Result<Loaded, StoreError> {
    if Glued in seg.lines then Err(Corrupt(seg.number))
    else if seg.tail.Torn? then
      if repair then Ok(Loaded(LineSamples(seg.lines), seg.(tail := Clean))) else Err(Corrupt(seg.number))
    else Ok(Loaded(SegSamples(seg), seg))
  }

  // Only the last segment is repaired.
  function ReadSegments(segs: seq<SegFile>, n: nat): Result<seq<Loaded>, StoreError>
    requires n <= |segs|
  {
    if n == 0 then Ok([])
    else
      var before :- ReadSegments(segs, n - 1);
      var last :- ReadSegment(segs[n - 1], n == |segs|);
      Ok(before + [last])
  }

  function Files(loaded: seq<Loaded>): (files: seq<SegFile>)
    ensures |files| == |loaded|
    ensures forall i :: 0 <= i < |loaded| ==> files[i] == loaded[i].file
  {
    if loaded == [] then [] else Files(loaded[..|loaded| - 1]) + [loaded[|loaded| - 1].file]
  }

  datatype SegInfo = SegInfo(number: nat, records: nat, minNs: U64, maxNs: U64)

  function EmptyInfo(number: nat): SegInfo {
    SegInfo(number, 0, U64_MAX, 0)
  }

  function Note(info: SegInfo, s: EnvSample): SegInfo {
    SegInfo(info.number, info.records + 1,
            if s.measuredNs < info.minNs then s.measuredNs else info.minNs,
            if s.measuredNs > info.maxNs then s.measuredNs else info.maxNs)
  }

  function InfoOf(number: nat, samples: seq<EnvSample>): SegInfo {
    if samples == [] then EmptyInfo(number)
    else Note(InfoOf(number, samples[..|samples| - 1]), samples[|samples| - 1])
  }

  function Infos(loaded: seq<Loaded>): (infos: seq<SegInfo>)
    ensures |infos| == |loaded|
    ensures forall i :: 0 <= i < |loaded| ==> infos[i] == InfoOf(loaded[i].file.number, loaded[i].samples)
  {
    if loaded == [] then []
    else Infos(loaded[..|loaded| - 1])
         + [InfoOf(loaded[|loaded| - 1].file.number, loaded[|loaded| - 1].samples)]
  }

  // The keys found in segments that the index lacks, in scan order.
  function Missing(known: set<Key>, samples: seq<EnvSample>): seq<Key> {
    if samples == [] then []
    else
      var before := Missing(known, samples[..|samples| - 1]);
      var key := samples[|samples| - 1].DedupKey();
      before + (if key in known || key in before then [] else [key])
  }

  // ---------------------------------------------------------------------
  // The open store
  // ---------------------------------------------------------------------

  datatype StoreState = StoreState(
    disk: Disk, seen: set<Key>, infos: seq<SegInfo>, nextNumber: nat, maxRecords: nat,
    appended: nat, duplicates: nat, deleted: nat)

  function OpenDisk(disk: Disk, maxRecords: nat): Result<StoreState, StoreError> {
    var loaded :- ReadSegments(disk.segs, |disk.segs|);
    var files := Files(loaded);
    var idx := disk.idx + Missing(Elements(disk.idx), Records(files));
    Ok(StoreState(Disk(files, idx, false), Elements(idx), Infos(loaded),
                  if files == [] then 0 else files[|files| - 1].number + 1,
                  if maxRecords == 0 then 1 else maxRecords, 0, 0, 0))
  }

  datatype AppendOutcome = Appended | Duplicate | Invalid

  predicate Rolls(st: StoreState) {
    st.infos == [] || st.infos[|st.infos| - 1].records >= st.maxRecords
  }

  // The segments with a fresh one when the current one is full.
  function Rolled(st: StoreState): StoreState {
    if Rolls(st)
    then st.(disk := st.disk.(segs := st.disk.segs + [SegFile(st.nextNumber, [], Clean)]),
             infos := st.infos + [EmptyInfo(st.nextNumber)], nextNumber := st.nextNumber + 1)
    else st
  }

  predicate Fresh(st: StoreState, s: EnvSample) {
    s.Valid() && s.DedupKey() !in st.seen
  }

  // Appending a line and its newline to a file; bytes after an unterminated
  // record join it.
  function AddLine(seg: SegFile, s: EnvSample): SegFile {
    SegFile(seg.number, seg.lines + [if seg.tail.Clean? then Rec(s) else Glued], Clean)
  }

  function SetLast(segs: seq<SegFile>, seg: SegFile): seq<SegFile> {
    if segs == [] then [seg] else segs[..|segs| - 1] + [seg]
  }

  function LastSeg(segs: seq<SegFile>): SegFile {
    if segs == [] then SegFile(0, [], Clean) else segs[|segs| - 1]
  }

  function AppendTo(st: StoreState, s: EnvSample): (StoreState, AppendOutcome) {
    if !s.Valid() then (st, Invalid)
    else if s.DedupKey() in st.seen then (st.(duplicates := st.duplicates + 1), Duplicate)
    else
      var st1 := Rolled(st);
      var segs := SetLast(st1.disk.segs, AddLine(LastSeg(st1.disk.segs), s));
      (st1.(disk := Disk(segs, st.disk.idx + [s.DedupKey()], false),
            seen := st.seen + {s.DedupKey()},
            infos := st1.infos[|st1.infos| - 1 := Note(st1.infos[|st1.infos| - 1], s)],
            appended := st.appended + 1),
       Appended)
  }

  // Where a crash can hit an append: before or after the file exists, within the
  // line, before its newline, before or within the index line.
  datatype AppendCrash = BeforeFile | NoBytes | PartialLine | NoNewline | NoIndex | TornIndex

  // The last file as the crash leaves it.
  function Written(last: SegFile, s: EnvSample, crash: AppendCrash): SegFile {
    match crash
    case PartialLine => last.(tail := Torn)
    case NoNewline => last.(tail := if last.tail.Clean? then Unterminated(s) else Torn)
    case NoIndex => AddLine(last, s)
    case TornIndex => AddLine(last, s)
    case _ => last
  }

  function CrashIn(st: StoreState, s: EnvSample, crash: AppendCrash): Disk {
    if !Fresh(st, s) || crash.BeforeFile? then st.disk
    else
      var segs := Rolled(st).disk.segs;
      var last := LastSeg(segs);
      st.disk.(segs := SetLast(segs, Written(last, s, crash)), idxTorn := crash.TornIndex?)
  }

  // Where a crash can hit an open: nothing done, the torn index line cut off, the
  // torn segment rest cut off too, or part of the missing keys written.
  datatype OpenCrash = Untouched | IndexTrimmed | TailTrimmed | Merging(count: nat, torn: bool)

  function CrashOpening(disk: Disk, crash: OpenCrash): Disk {
    var loaded := ReadSegments(disk.segs, |disk.segs|);
    if crash.Untouched? then disk
    else if crash.IndexTrimmed? || loaded.Err? then disk.(idxTorn := false)
    else
      var files := Files(loaded.value);
      if crash.TailTrimmed? then Disk(files, disk.idx, false)
      else
        var missing := Missing(Elements(disk.idx), Records(files));
        var count := if crash.count < |missing| then crash.count else |missing|;
        Disk(files, disk.idx + missing[..count], crash.torn && count < |missing|)
  }

  predicate Expired(info: SegInfo, nowNs: U64, retentionNs: U64) {
    SaturatingAdd(info.maxNs, retentionNs) <= nowNs
  }

  datatype Retained = Retained(segs: seq<SegFile>, infos: seq<SegInfo>, deleted: nat)

  // Drop expired segments, oldest first and at most `limit` of them; the last one
  // always stays.
  function Retain(segs: seq<SegFile>, infos: seq<SegInfo>, nowNs: U64, retentionNs: U64, limit: nat): Retained
    requires |segs| == |infos|
  {
    if |segs| <= 1 || limit == 0 then Retained(segs, infos, 0)
    else if Expired(infos[0], nowNs, retentionNs) then
      var r := Retain(segs[1..], infos[1..], nowNs, retentionNs, limit - 1);
      r.(deleted := r.deleted + infos[0].records)
    else
      var r := Retain(segs[1..], infos[1..], nowNs, retentionNs, limit);
      r.(segs := [segs[0]] + r.segs, infos := [infos[0]] + r.infos)
  }

  function RetainIn(st: StoreState, nowNs: U64, retentionNs: U64): StoreState
    requires |st.disk.segs| == |st.infos|
  {
    var r := Retain(st.disk.segs, st.infos, nowNs, retentionNs, |st.infos|);
    st.(disk := st.disk.(segs := r.segs), infos := r.infos, deleted := st.deleted + r.deleted)
  }

  // ---------------------------------------------------------------------
  // What an open store keeps
  // ---------------------------------------------------------------------

  // Every line decodes, and only the last file can end in a torn rest.
  ghost predicate Readable(segs: seq<SegFile>) {
    forall i :: 0 <= i < |segs| ==> Glued !in segs[i].lines && (segs[i].tail.Torn? ==> i == |segs| - 1)
  }

  // File numbers go up, so no two segments share a file.
  ghost predicate Numbered(segs: seq<SegFile>) {
    forall i, j :: 0 <= i < j < |segs| ==> segs[i].number < segs[j].number
  }

  ghost predicate GoodDisk(disk: Disk) {
    Readable(disk.segs) && Distinct(KeysOf(Records(disk.segs))) && Numbered(disk.segs)
  }

  ghost predicate GoodStore(st: StoreState) {
    && GoodDisk(st.disk)
    && !st.disk.idxTorn && !LastSeg(st.disk.segs).tail.Torn?
    && st.seen == Elements(st.disk.idx)
    && Elements(KeysOf(Records(st.disk.segs))) <= st.seen
    && |st.infos| == |st.disk.segs|
    && (forall i :: 0 <= i < |st.infos| ==> st.infos[i] == InfoOf(st.disk.segs[i].number, SegSamples(st.disk.segs[i])))
    && st.maxRecords > 0
    && (st.disk.segs != [] ==> LastSeg(st.disk.segs).number < st.nextNumber)
  }

  // The append would run its bytes into an unterminated record.
  predicate Glues(st: StoreState, s: EnvSample) {
    Fresh(st, s) && !Rolls(st) && !LastSeg(st.disk.segs).tail.Clean?
  }

  // A directory opens exactly when it is readable.
  lemma {:induction false} ReadSegmentsSucceeds(segs: seq<SegFile>, n: nat)
    requires n <= |segs|
    ensures ReadSegments(segs, n).Ok?
       <==> forall i :: 0 <= i < n ==> Glued !in segs[i].lines && (segs[i].tail.Torn? ==> i == |segs| - 1)
    ensures ReadSegments(segs, n).Ok? ==>
              var loaded := ReadSegments(segs, n).value;
              |loaded| == n && forall i :: 0 <= i < n ==> ReadSegment(segs[i], i == |segs| - 1) == Ok(loaded[i])
  {
    if n > 0 {
      ReadSegmentsSucceeds(segs, n - 1);
    }
  }

  lemma {:induction false} OpensIffReadable(disk: Disk, maxRecords: nat)
    ensures OpenDisk(disk, maxRecords).Ok? <==> Readable(disk.segs)
  {
    ReadSegmentsSucceeds(disk.segs, |disk.segs|);
  }

  // It fails over the first segment with an undecodable line, or a torn rest before the
  // last segment, and names it.
  ghost function SegmentChecks(segs: seq<SegFile>, n: nat): seq<Check<StoreError>>
    requires n <= |segs|
  {
    seq(n, i requires 0 <= i < n =>
      Check(Glued !in segs[i].lines && (segs[i].tail.Torn? ==> i == |segs| - 1), Corrupt(segs[i].number)))
  }

  lemma {:induction false} OpeningNamesTheFirst(disk: Disk, maxRecords: nat)
    ensures IsFirstFailure(Failure(OpenDisk(disk, maxRecords)), SegmentChecks(disk.segs, |disk.segs|))
  {
    ReadingNamesTheFirst(disk.segs, |disk.segs|);
  }

  lemma {:induction false} ReadingNamesTheFirst(segs: seq<SegFile>, n: nat)
    requires n <= |segs|
    ensures IsFirstFailure(Failure(ReadSegments(segs, n)), SegmentChecks(segs, n))
  {
    if n > 0 {
      ReadingNamesTheFirst(segs, n - 1);
      var checks, before := SegmentChecks(segs, n), SegmentChecks(segs, n - 1);
      assert checks == before + [checks[n - 1]];
      if ReadSegments(segs, n - 1).Err? {
        var k: nat :| FailsFirst(before, k) && before[k].error == ReadSegments(segs, n - 1).error;
        FailsFirstIn(before, [checks[n - 1]], k);
      } else if ReadSegment(segs[n - 1], n == |segs|).Err? {
        assert FailsFirst(checks, n - 1);
      }
    }
  }

  // An opened store has counted nothing, holds one record a segment at least, and will
  // number its next file after its last.
  lemma {:induction false} OpensUncounted(disk: Disk, maxRecords: nat)
    requires OpenDisk(disk, maxRecords).Ok?
    ensures var st := OpenDisk(disk, maxRecords).value;
            && st.appended == st.duplicates == st.deleted == 0
            && st.maxRecords == (if maxRecords == 0 then 1 else maxRecords)
            && st.nextNumber == (if disk.segs == [] then 0 else LastSeg(disk.segs).number + 1)
  {
    hide Records, Missing, InfoOf, SegSamples;
    ReadSegmentsSucceeds(disk.segs, |disk.segs|);
    if disk.segs != [] {
      var n := |disk.segs|;
      assert ReadSegment(disk.segs[n - 1], true) == Ok(ReadSegments(disk.segs, n).value[n - 1]);
    }
  }

  // What each crash in an open leaves of what the open would have left: the torn index
  // line goes first, then the torn rest, then the missing keys come one by one.
  lemma {:induction false} CrashOpeningLeaves(disk: Disk, crash: OpenCrash, maxRecords: nat)
    ensures OpenDisk(disk, maxRecords).Err? ==>
              CrashOpening(disk, crash) == if crash.Untouched? then disk else disk.(idxTorn := false)
    ensures OpenDisk(disk, maxRecords).Ok? ==>
              var whole, left := OpenDisk(disk, maxRecords).value.disk, CrashOpening(disk, crash);
              match crash
              case Untouched => left == disk
              case IndexTrimmed => left == disk.(idxTorn := false)
              case TailTrimmed => left == Disk(whole.segs, disk.idx, false)
              case Merging(count, torn) =>
                && left.segs == whole.segs && left.idx <= whole.idx
                && |left.idx| == (if |disk.idx| + count < |whole.idx| then |disk.idx| + count else |whole.idx|)
                && (left.idxTorn <==> torn && |left.idx| < |whole.idx|)
  {
    hide Records, Missing, ReadSegments, Files, Infos;
  }

  // Repair cuts off torn rests only: no record appears or goes.
  lemma {:induction false} RepairKeepsRecords(segs: seq<SegFile>, files: seq<SegFile>)
    requires |files| == |segs|
    requires forall i :: 0 <= i < |segs| ==>
               files[i] == segs[i] || (segs[i].tail.Torn? && files[i] == segs[i].(tail := Clean))
    ensures Records(files) == Records(segs)
  {
    if segs != [] {
      RepairKeepsRecords(segs[..|segs| - 1], files[..|files| - 1]);
    }
  }

  lemma {:induction false} MissingCompletes(known: set<Key>, samples: seq<EnvSample>)
    ensures Elements(Missing(known, samples)) == Elements(KeysOf(samples)) - known
  {
    if samples != [] {
      var init, key := samples[..|samples| - 1], samples[|samples| - 1].DedupKey();
      MissingCompletes(known, init);
      assert KeysOf(samples) == KeysOf(init) + [key];
      assert Elements(KeysOf(samples)) == Elements(KeysOf(init)) + {key};
      var before := Missing(known, init);
      assert Elements(before + [key]) == Elements(before) + {key};
      assert before + [] == before;
    }
  }

  lemma {:induction false} ReadIsFaithful(seg: SegFile, repair: bool)
    requires ReadSegment(seg, repair).Ok?
    ensures var r := ReadSegment(seg, repair).value;
            && r.samples == SegSamples(r.file) && !r.file.tail.Torn?
            && (r.file == seg || (seg.tail.Torn? && r.file == seg.(tail := Clean)))
  {
    assert LineSamples(seg.lines) + [] == LineSamples(seg.lines);
  }

  lemma {:induction false} LoadedFiles(segs: seq<SegFile>)
    requires ReadSegments(segs, |segs|).Ok?
    ensures var loaded := ReadSegments(segs, |segs|).value;
            && |loaded| == |segs|
            && forall i :: 0 <= i < |segs| ==>
                 && loaded[i].file == segs[i].(tail := if segs[i].tail.Torn? then Clean else segs[i].tail)
                 && loaded[i].samples == SegSamples(loaded[i].file)
  {
    hide SegSamples, ReadSegment, ReadSegments;
    ReadSegmentsSucceeds(segs, |segs|);
    forall i | 0 <= i < |segs|
      ensures ReadSegment(segs[i], i == |segs| - 1).Ok?
    {
      ReadIsFaithful(segs[i], i == |segs| - 1);
    }
    forall i | 0 <= i < |segs| {
      ReadIsFaithful(segs[i], i == |segs| - 1);
    }
  }

  // Whatever disk opens: the records stay, every key of the index and of the segments is
  // known and indexed.
  lemma {:induction false} OpenKnows(disk: Disk, maxRecords: nat)
    requires OpenDisk(disk, maxRecords).Ok?
    ensures var st := OpenDisk(disk, maxRecords).value;
            && Records(st.disk.segs) == Records(disk.segs)
            && disk.idx <= st.disk.idx && st.seen == Elements(st.disk.idx)
            && st.seen == Elements(disk.idx) + Elements(KeysOf(Records(disk.segs)))
            && |st.infos| == |st.disk.segs| == |disk.segs|
            && (forall i :: 0 <= i < |disk.segs| ==>
                  st.disk.segs[i]
                  == disk.segs[i].(tail := if disk.segs[i].tail.Torn? then Clean else disk.segs[i].tail))
  {
    hide Records, SegSamples, InfoOf, KeysOf, Missing, ReadSegment, ReadSegments;
    LoadedFiles(disk.segs);
    var files := Files(ReadSegments(disk.segs, |disk.segs|).value);
    RepairKeepsRecords(disk.segs, files);
    MissingCompletes(Elements(disk.idx), Records(files));
    ElementsOfSum(disk.idx, Missing(Elements(disk.idx), Records(files)));
  }

  // Opening a good disk succeeds and yields a good store over the same records.
  lemma {:induction false} OpenIsGood(disk: Disk, maxRecords: nat)
    requires GoodDisk(disk)
    ensures OpenDisk(disk, maxRecords).Ok?
    ensures var st := OpenDisk(disk, maxRecords).value;
            && GoodStore(st)
            && Records(st.disk.segs) == Records(disk.segs)
            && disk.idx <= st.disk.idx
            && st.seen == Elements(disk.idx) + Elements(KeysOf(Records(disk.segs)))
            && |st.disk.segs| == |disk.segs|
            && (forall i :: 0 <= i < |disk.segs| ==>
                  st.disk.segs[i]
                  == disk.segs[i].(tail := if disk.segs[i].tail.Torn? then Clean else disk.segs[i].tail))
  {
    hide Records, SegSamples, InfoOf, KeysOf, Distinct, Missing, ReadSegment, ReadSegments, Numbered;
    ReadSegmentsSucceeds(disk.segs, |disk.segs|);
    OpenKnows(disk, maxRecords);
    LoadedFiles(disk.segs);
    SameNumbers(disk.segs, OpenDisk(disk, maxRecords).value.disk.segs);
  }

  lemma {:induction false} NumberedThen(segs: seq<SegFile>, seg: SegFile)
    requires Numbered(segs) && (segs != [] ==> LastSeg(segs).number < seg.number)
    ensures Numbered(segs + [seg])
  {
  }

  lemma {:induction false} SameNumbers(a: seq<SegFile>, b: seq<SegFile>)
    requires |a| == |b| && forall i :: 0 <= i < |a| ==> a[i].number == b[i].number
    ensures Numbered(a) <==> Numbered(b)
  {
  }

  // What one line does to the records.
  lemma {:induction false} SetLastRecords(segs: seq<SegFile>, seg: SegFile)
    requires segs != []
    ensures Records(SetLast(segs, seg)) == Records(segs[..|segs| - 1]) + SegSamples(seg)
    ensures Records(segs) == Records(segs[..|segs| - 1]) + SegSamples(LastSeg(segs))
  {
    assert SetLast(segs, seg)[..|segs| - 1] == segs[..|segs| - 1];
  }

  lemma {:induction false} AddLineSamples(seg: SegFile, s: EnvSample)
    requires seg.tail.Clean?
    ensures SegSamples(AddLine(seg, s)) == SegSamples(seg) + [s]
  {
    assert AddLine(seg, s).lines[..|seg.lines|] == seg.lines;
  }

  lemma {:induction false} RolledIsGood(st: StoreState)
    requires GoodStore(st)
    ensures GoodStore(Rolled(st)) && Rolled(st).disk.segs != []
    ensures Records(Rolled(st).disk.segs) == Records(st.disk.segs)
    ensures !Rolls(st) || LastSeg(Rolled(st).disk.segs).tail.Clean?
  {
    hide Numbered, Distinct, KeysOf, Records, SegSamples, InfoOf, Elements;
    if Rolls(st) {
      NewSegment(st.disk.segs, st.nextNumber);
      NumberedThen(st.disk.segs, SegFile(st.nextNumber, [], Clean));
    }
  }

  lemma {:induction false} NewSegment(segs: seq<SegFile>, number: nat)
    ensures var added := SegFile(number, [], Clean);
            && SegSamples(added) == [] && InfoOf(number, []) == EmptyInfo(number)
            && Records(segs + [added]) == Records(segs)
  {
    var added := SegFile(number, [], Clean);
    assert (segs + [added])[..|segs|] == segs;
    assert SegSamples(added) == [] && Records(segs) + [] == Records(segs);
  }

  lemma {:induction false} SetLastReadable(segs: seq<SegFile>, seg: SegFile)
    requires segs != [] && Readable(segs)
    ensures Readable(SetLast(segs, seg)) <==> Glued !in seg.lines
    ensures seg.number == LastSeg(segs).number ==> (Numbered(SetLast(segs, seg)) <==> Numbered(segs))
  {
    hide Numbered;
    if seg.number == LastSeg(segs).number {
      SameNumbers(SetLast(segs, seg), segs);
    }
    var segs' := SetLast(segs, seg);
    assert segs'[|segs| - 1] == seg;
    assert forall i :: 0 <= i < |segs| - 1 ==> segs'[i] == segs[i];
  }

  lemma {:induction false} AppendGlues(st: StoreState, s: EnvSample)
    requires GoodStore(st) && Fresh(st, s)
    ensures LastSeg(Rolled(st).disk.segs).tail.Clean? <==> !Glues(st, s)
    ensures Readable(AppendTo(st, s).0.disk.segs) <==> !Glues(st, s)
  {
    hide Records, KeysOf, InfoOf, SegSamples, Distinct, Numbered, SetLast, EnvSample.Valid;
    RolledIsGood(st);
    var segs := Rolled(st).disk.segs;
    assert segs[|segs| - 1] == LastSeg(segs);
    SetLastReadable(segs, AddLine(LastSeg(segs), s));
  }

  lemma {:induction false} InfoAfterLine(seg: SegFile, s: EnvSample)
    requires seg.tail.Clean?
    ensures InfoOf(seg.number, SegSamples(AddLine(seg, s))) == Note(InfoOf(seg.number, SegSamples(seg)), s)
  {
    AddLineSamples(seg, s);
    assert (SegSamples(seg) + [s])[..|SegSamples(seg)|] == SegSamples(seg);
  }

  // An append lands in order, is known from then on, and keeps the store good,
  // exactly when it does not glue; a glued line makes the directory unreadable.
  lemma {:induction false} AppendIsGood(st: StoreState, s: EnvSample)
    requires GoodStore(st) && Fresh(st, s)
    ensures var st' := AppendTo(st, s).0;
            && AppendTo(st, s).1 == Appended
            && (Readable(st'.disk.segs) <==> !Glues(st, s))
            && (!Glues(st, s) ==> GoodStore(st') && Records(st'.disk.segs) == Records(st.disk.segs) + [s])
            && st'.seen == st.seen + {s.DedupKey()}
            && st'.disk.idx == st.disk.idx + [s.DedupKey()]
  {
    hide Records, SegSamples, InfoOf, KeysOf, Distinct, Readable, Numbered;
    AppendGlues(st, s);
    if !Glues(st, s) {
      RolledIsGood(st);
      var st1, st' := Rolled(st), AppendTo(st, s).0;
      var segs := st1.disk.segs;
      var n, last := |segs|, LastSeg(segs);
      SetLastRecords(segs, AddLine(last, s));
      AddLineSamples(last, s);
      InfoAfterLine(last, s);
      NewKeyStaysDistinct(Records(st.disk.segs), s, st.seen);
      ElementsOfSum(st.disk.idx, [s.DedupKey()]);
      assert Records(st'.disk.segs) == Records(st.disk.segs) + [s];
      SetLastReadable(segs, AddLine(last, s));
      assert st'.disk.segs[n - 1] == AddLine(last, s) && st1.infos[n - 1] == InfoOf(last.number, SegSamples(last));
      assert forall i :: 0 <= i < n - 1 ==> st'.disk.segs[i] == segs[i] && st'.infos[i] == st1.infos[i];
    }
  }

  // A new segment is started exactly when the last one is full, and no append fills
  // one beyond the limit.
  ghost predicate FillsUp(st: StoreState, st': StoreState) {
    var full := st.infos == [] || st.infos[|st.infos| - 1].records >= st.maxRecords;
    && |st'.infos| == |st.infos| + (if full then 1 else 0)
    && st'.nextNumber == st.nextNumber + (if full then 1 else 0)
    && (full ==> st'.infos[|st'.infos| - 1].number == st.nextNumber)
    && 0 < st'.infos[|st'.infos| - 1].records <= st.maxRecords
    && (!full ==> st'.infos[|st'.infos| - 1].records == st.infos[|st.infos| - 1].records + 1)
  }

  lemma {:induction false} SegmentsFillUp(st: StoreState, s: EnvSample)
    requires GoodStore(st) && AppendTo(st, s).1.Appended?
    ensures FillsUp(st, AppendTo(st, s).0)
  {
    hide Records, KeysOf, SegSamples, InfoOf, SetLast, AddLine, LastSeg, EnvSample.Valid;
  }

  // Did the record's bytes reach the disk whole?
  predicate Lands(crash: AppendCrash) {
    crash.NoNewline? || crash.NoIndex? || crash.TornIndex?
  }

  // What one write of a crash leaves of a good list of segments.
  lemma {:induction false} WrittenIsGood(segs: seq<SegFile>, s: EnvSample, crash: AppendCrash, seen: set<Key>)
    requires segs != [] && LastSeg(segs).tail.Clean? && Readable(segs) && Numbered(segs)
    requires Distinct(KeysOf(Records(segs))) && Elements(KeysOf(Records(segs))) <= seen && s.DedupKey() !in seen
    ensures var segs' := SetLast(segs, Written(LastSeg(segs), s, crash));
            && Readable(segs') && Numbered(segs') && Distinct(KeysOf(Records(segs')))
            && Records(segs') == Records(segs) + (if Lands(crash) then [s] else [])
  {
    hide Records, SegSamples, KeysOf, Distinct, Readable, Numbered, Elements, SetLast, LastSeg, Written, Lands;
    var last, written := LastSeg(segs), Written(LastSeg(segs), s, crash);
    SetLastRecords(segs, written);
    SetLastReadable(segs, written);
    NotGlued(segs);
    WrittenSamples(last, s, crash, written);
    NewKeyStaysDistinct(Records(segs), s, seen);
    var before, landed := Records(segs[..|segs| - 1]), if Lands(crash) then [s] else [];
    assert before + (SegSamples(last) + landed) == (before + SegSamples(last)) + landed;
    assert Records(segs) + [] == Records(segs);
  }

  // A crash in a non-gluing append leaves a good disk: the record is there whole
  // or not at all.
  lemma {:induction false} CrashIsGood(st: StoreState, s: EnvSample, crash: AppendCrash)
    requires GoodStore(st) && !Glues(st, s)
    ensures var disk := CrashIn(st, s, crash);
            && GoodDisk(disk) && disk.idx == st.disk.idx
            && Records(disk.segs) == Records(st.disk.segs) + (if Fresh(st, s) && Lands(crash) then [s] else [])
  {
    hide Records, SegSamples, KeysOf, Distinct, Readable, Numbered, InfoOf, Glues, Rolled, EnvSample.Valid,
         SetLast, LastSeg, Written, Elements;
    assert Records(st.disk.segs) + [] == Records(st.disk.segs);
    if Fresh(st, s) && !crash.BeforeFile? {
      RolledIsGood(st);
      AppendGlues(st, s);
      WrittenIsGood(Rolled(st).disk.segs, s, crash, st.seen);
    }
  }

  lemma {:induction false} NotGlued(segs: seq<SegFile>)
    requires Readable(segs) && segs != []
    ensures Glued !in LastSeg(segs).lines
  {
    assert LastSeg(segs) == segs[|segs| - 1];
  }

  lemma {:induction false} WrittenSamples(last: SegFile, s: EnvSample, crash: AppendCrash, written: SegFile)
    requires last.tail.Clean?
    requires written == Written(last, s, crash)
    ensures SegSamples(written) == SegSamples(last) + (if Lands(crash) then [s] else [])
    ensures written.number == last.number
    ensures Glued in written.lines <==> Glued in last.lines
  {
    AddLineSamples(last, s);
    assert LineSamples(last.lines) + [] == LineSamples(last.lines);
    assert SegSamples(last) + [] == SegSamples(last);
  }

  lemma {:induction false} CrashOpeningIsGood(disk: Disk, crash: OpenCrash)
    requires GoodDisk(disk)
    ensures var disk' := CrashOpening(disk, crash);
            GoodDisk(disk') && Records(disk'.segs) == Records(disk.segs) && disk.idx <= disk'.idx
  {
    hide Records, KeysOf, Distinct, Readable, Numbered, Missing, ReadSegments;
    OpenIsGood(disk, 1);
    var files := Files(ReadSegments(disk.segs, |disk.segs|).value);
    assert files == OpenDisk(disk, 1).value.disk.segs;
  }

  // ---------------------------------------------------------------------
  // Retention
  // ---------------------------------------------------------------------

  predicate Subsequence<T(==)>(a: seq<T>, b: seq<T>) {
    if b == [] then a == []
    else (a != [] && a[|a| - 1] == b[|b| - 1] && Subsequence(a[..|a| - 1], b[..|b| - 1]))
         || Subsequence(a, b[..|b| - 1])
  }

  lemma {:induction false} SubsequenceAppend<T>(a: seq<T>, b: seq<T>, x: T)
    requires Subsequence(a, b)
    ensures Subsequence(a + [x], b + [x]) && Subsequence(a, b + [x])
  {
    assert (b + [x])[..|b|] == b && (a + [x])[..|a|] == a;
  }

  lemma {:induction false} SubsequenceExtend<T>(a: seq<T>, b: seq<T>, c: seq<T>)
    requires Subsequence(a, b)
    ensures Subsequence(a + c, b + c) && Subsequence(a, b + c)
  {
    if c == [] {
      assert a + c == a && b + c == b;
    } else {
      var init, x := c[..|c| - 1], c[|c| - 1];
      SubsequenceExtend(a, b, init);
      SubsequenceAppend(a + init, b + init, x);
      SubsequenceAppend(a, b + init, x);
      assert a + c == (a + init) + [x] && b + c == (b + init) + [x];
    }
  }

  lemma {:induction false} SubsequenceTrans<T>(a: seq<T>, b: seq<T>, c: seq<T>)
    requires Subsequence(a, b) && Subsequence(b, c)
    ensures Subsequence(a, c)
    decreases |b| + |c|
  {
    if c != [] {
      var c' := c[..|c| - 1];
      if b != [] && b[|b| - 1] == c[|c| - 1] && Subsequence(b[..|b| - 1], c') {
        var b' := b[..|b| - 1];
        if Subsequence(a, b') {
          SubsequenceTrans(a, b', c');
        } else {
          SubsequenceTrans(a[..|a| - 1], b', c');
        }
      } else {
        SubsequenceTrans(a, b, c');
      }
    }
  }

  lemma {:induction false} SubsequenceRefl<T>(a: seq<T>)
    ensures Subsequence(a, a)
  {
    if a != [] {
      SubsequenceRefl(a[..|a| - 1]);
    }
  }

  lemma {:induction false} SubsequenceIn<T>(a: seq<T>, b: seq<T>)
    requires Subsequence(a, b)
    ensures Elements(a) <= Elements(b)
  {
    if b != [] {
      var b' := b[..|b| - 1];
      assert b == b' + [b[|b| - 1]];
      ElementsOfSum(b', [b[|b| - 1]]);
      if Subsequence(a, b') {
        SubsequenceIn(a, b');
      } else {
        assert a == a[..|a| - 1] + [a[|a| - 1]];
        ElementsOfSum(a[..|a| - 1], [a[|a| - 1]]);
        SubsequenceIn(a[..|a| - 1], b');
      }
    }
  }

  lemma {:induction false} RecordsSplit(a: seq<SegFile>, b: seq<SegFile>)
    ensures Records(a + b) == Records(a) + Records(b)
  {
    hide SegSamples;
    if b == [] {
      assert a + b == a;
    } else {
      RecordsSplit(a, b[..|b| - 1]);
      assert (a + b)[..|a + b| - 1] == a + b[..|b| - 1];
    }
  }

  lemma {:induction false} InfoCounts(number: nat, samples: seq<EnvSample>)
    ensures InfoOf(number, samples).records == |samples| && InfoOf(number, samples).number == number
    ensures forall s :: s in samples ==> InfoOf(number, samples).minNs <= s.measuredNs <= InfoOf(number, samples).maxNs
    ensures samples != [] ==> exists s :: s in samples && s.measuredNs == InfoOf(number, samples).maxNs
    ensures samples != [] ==> exists s :: s in samples && s.measuredNs == InfoOf(number, samples).minNs
  {
    if samples != [] {
      var init, last := samples[..|samples| - 1], samples[|samples| - 1];
      InfoCounts(number, init);
      assert samples == init + [last];
      assert last in samples && forall s :: s in init ==> s in samples;
      assert init == [] ==> InfoOf(number, init) == EmptyInfo(number);
    }
  }

  // A segment with records is expired exactly when every one of them is.
  lemma {:induction false} ExpiredMeansEveryRecord(
      number: nat, samples: seq<EnvSample>, nowNs: U64, retentionNs: U64)
    requires samples != []
    ensures Expired(InfoOf(number, samples), nowNs, retentionNs)
       <==> forall s :: s in samples ==> SaturatingAdd(s.measuredNs, retentionNs) <= nowNs
  {
    hide InfoOf;
    InfoCounts(number, samples);
  }

  ghost predicate Described(segs: seq<SegFile>, infos: seq<SegInfo>) {
    |segs| == |infos| && forall i :: 0 <= i < |infos| ==> infos[i] == InfoOf(segs[i].number, SegSamples(segs[i]))
  }

  // What retention leaves, in order: the last segment and every unexpired one,
  // no record of which is touched; what it counts is what is gone.
  lemma {:induction false} RetainKeeps(
      segs: seq<SegFile>, infos: seq<SegInfo>, nowNs: U64, retentionNs: U64, limit: nat)
    requires Described(segs, infos)
    ensures var r := Retain(segs, infos, nowNs, retentionNs, limit);
            && Described(r.segs, r.infos)
            && LastSeg(r.segs) == LastSeg(segs) && (r.segs == [] <==> segs == [])
            && Subsequence(Records(r.segs), Records(segs))
            && |Records(r.segs)| + r.deleted == |Records(segs)|
            && Elements(r.segs) <= Elements(segs)
            && (Readable(segs) ==> Readable(r.segs))
            && (Numbered(segs) ==> Numbered(r.segs))
  {
    hide Records, SegSamples, InfoOf, Subsequence, Readable, Numbered, Expired;
    if |segs| <= 1 || limit == 0 {
      SubsequenceRefl(Records(segs));
    } else {
      var gone := Expired(infos[0], nowNs, retentionNs);
      var limit' := if gone then limit - 1 else limit;
      DescribedTail(segs, infos);
      RetainKeeps(segs[1..], infos[1..], nowNs, retentionNs, limit');
      var rest := Retain(segs[1..], infos[1..], nowNs, retentionNs, limit');
      assert segs == [segs[0]] + segs[1..];
      RecordsCons(segs[0], segs[1..]);
      RecordsCons(segs[0], rest.segs);
      SubsequenceCons(SegSamples(segs[0]), Records(rest.segs), Records(segs[1..]));
      ReadableCons(segs, rest.segs);
      NumberedCons(segs, rest.segs);
      ElementsOfSum([segs[0]], segs[1..]);
      ElementsOfSum([segs[0]], rest.segs);
      DescribedCons(segs[0], rest.segs, infos[0], rest.infos);
    }
  }

  lemma {:induction false} DescribedTail(segs: seq<SegFile>, infos: seq<SegInfo>)
    requires Described(segs, infos) && segs != []
    ensures Described(segs[1..], infos[1..]) && infos[0].records == |SegSamples(segs[0])|
  {
    hide SegSamples, InfoOf;
    InfoCounts(segs[0].number, SegSamples(segs[0]));
  }

  lemma {:induction false} DescribedCons(seg: SegFile, segs: seq<SegFile>, info: SegInfo, infos: seq<SegInfo>)
    requires Described(segs, infos) && info == InfoOf(seg.number, SegSamples(seg))
    ensures Described([seg] + segs, [info] + infos)
  {
    hide SegSamples, InfoOf;
  }

  lemma {:induction false} RecordsCons(seg: SegFile, segs: seq<SegFile>)
    ensures Records([seg] + segs) == SegSamples(seg) + Records(segs)
  {
    RecordsSplit([seg], segs);
    assert [seg][..0] == [];
    assert Records([seg]) == [] + SegSamples(seg);
  }

  lemma {:induction false} NumberedCons(segs: seq<SegFile>, rest: seq<SegFile>)
    requires segs != [] && Elements(rest) <= Elements(segs[1..])
    ensures Numbered(segs) ==> Numbered(segs[1..])
    ensures Numbered(segs) && Numbered(rest) ==> Numbered([segs[0]] + rest)
  {
    if Numbered(segs) {
      forall seg | seg in rest
        ensures segs[0].number < seg.number
      {
        assert seg in Elements(rest);
        var i :| 0 <= i < |segs[1..]| && segs[1..][i] == seg;
        assert segs[i + 1] == seg;
      }
      assert forall i :: 0 <= i < |rest| ==> rest[i] in rest;
      assert forall i :: 0 <= i < |segs[1..]| ==> segs[1..][i] == segs[i + 1];
    }
  }

  lemma {:induction false} ReadableCons(segs: seq<SegFile>, rest: seq<SegFile>)
    requires |segs| > 1 && rest != []
    ensures Readable(segs) ==> Readable(segs[1..])
    ensures Readable(segs) && Readable(rest) ==> Readable([segs[0]] + rest)
  {
    if Readable(segs) {
      forall i | 0 <= i < |segs[1..]|
        ensures Glued !in segs[1..][i].lines && (segs[1..][i].tail.Torn? ==> i == |segs[1..]| - 1)
      {
        assert segs[1..][i] == segs[i + 1];
      }
    }
  }

  lemma {:induction false} SubsequenceCons<T>(p: seq<T>, a: seq<T>, b: seq<T>)
    requires Subsequence(a, b)
    ensures Subsequence(p + a, p + b) && Subsequence(a, p + b)
    decreases |b|
  {
    if b == [] {
      assert p + a == p && p + b == p;
      SubsequenceRefl(p);
      EmptyIsSubsequence(p);
    } else {
      var b', x := b[..|b| - 1], b[|b| - 1];
      assert (p + b)[..|p + b| - 1] == p + b';
      if Subsequence(a, b') {
        SubsequenceCons(p, a, b');
      } else {
        SubsequenceCons(p, a[..|a| - 1], b');
        assert (p + a)[..|p + a| - 1] == p + a[..|a| - 1];
      }
    }
  }

  lemma {:induction false} EmptyIsSubsequence<T>(b: seq<T>)
    ensures Subsequence([], b)
  {
    if b != [] {
      EmptyIsSubsequence(b[..|b| - 1]);
    }
  }

  // Run to the end, retention removes exactly the expired segments other than the
  // last one.
  lemma {:induction false} RetainRemovesExactlyExpired(
      segs: seq<SegFile>, infos: seq<SegInfo>, nowNs: U64, retentionNs: U64, limit: nat, seg: SegFile)
    requires |segs| == |infos| && |segs| <= limit
    ensures seg in Retain(segs, infos, nowNs, retentionNs, limit).segs
       <==> exists i :: 0 <= i < |segs| && segs[i] == seg && (i == |segs| - 1 || !Expired(infos[i], nowNs, retentionNs))
  {
    if |segs| <= 1 {
      assert seg in segs ==> segs[0] == seg;
    } else {
      var gone := Expired(infos[0], nowNs, retentionNs);
      var rest := Retain(segs[1..], infos[1..], nowNs, retentionNs, if gone then limit - 1 else limit).segs;
      RetainRemovesExactlyExpired(segs[1..], infos[1..], nowNs, retentionNs, if gone then limit - 1 else limit, seg);
      forall i | 0 <= i < |segs[1..]|
        ensures segs[1..][i] == segs[i + 1] && infos[1..][i] == infos[i + 1]
      {
      }
      if seg in rest {
        var j :| 0 <= j < |segs[1..]| && segs[1..][j] == seg
                 && (j == |segs[1..]| - 1 || !Expired(infos[1..][j], nowNs, retentionNs));
        assert segs[j + 1] == seg;
      }
    }
  }

  // ---------------------------------------------------------------------
  // Whole lives of a store directory
  // ---------------------------------------------------------------------

  datatype Machine = Down(at: Disk) | Up(store: StoreState) {
    function Disk(): Disk {
      if Down? then at else store.disk
    }
  }

  datatype Event =
    | Open(maxRecords: nat)
    | CrashOpen(opening: OpenCrash)
    | Append(sample: EnvSample)
    | CrashAppend(sample: EnvSample, crash: AppendCrash)
    | Expire(nowNs: U64, retentionNs: U64)
    | CrashExpire(nowNs: U64, retentionNs: U64, after: nat)
    | Kill

  // The machine with its history: keys acknowledged, records whose bytes reached
  // the disk, and how many retention removed.
  datatype Life = Life(m: Machine, acked: set<Key>, landed: seq<EnvSample>, removed: nat)

  const NEW_LIFE := Life(Down(EMPTY_DISK), {}, [], 0)

  // An event that does not fit (append while closed, open while open) does nothing.
  function Next(r: Life, e: Event): Life
    requires r.m.Up? ==> |r.m.store.infos| == |r.m.store.disk.segs|
  {
    match r.m
    case Down(disk) => (
      match e
      case Open(maxRecords) =>
        var st := OpenDisk(disk, maxRecords);
        r.(m := if st.Ok? then Up(st.value) else Down(disk.(idxTorn := false)))
      case CrashOpen(crash) => r.(m := Down(CrashOpening(disk, crash)))
      case _ => r)
    case Up(st) => (
      match e
      case Append(s) =>
        var (st', outcome) := AppendTo(st, s);
        if outcome.Appended?
        then Life(Up(st'), r.acked + {s.DedupKey()}, r.landed + [s], r.removed)
        else r.(m := Up(st'))
      case CrashAppend(s, crash) =>
        r.(m := Down(CrashIn(st, s, crash)),
           landed := if Fresh(st, s) && Lands(crash) then r.landed + [s] else r.landed)
      case Expire(nowNs, retentionNs) =>
        var st' := RetainIn(st, nowNs, retentionNs);
        r.(m := Up(st'), removed := r.removed + (st'.deleted - st.deleted))
      case CrashExpire(nowNs, retentionNs, after) =>
        var kept := Retain(st.disk.segs, st.infos, nowNs, retentionNs, after);
        r.(m := Down(st.disk.(segs := kept.segs)), removed := r.removed + kept.deleted)
      case Kill => r.(m := Down(st.disk))
      case _ => r)
  }

  // The event appends after an unterminated record.
  predicate GluesIn(r: Life, e: Event) {
    r.m.Up? && (e.Append? || e.CrashAppend?) && Glues(r.m.store, e.sample)
  }

  // No key lands twice; a landed key is indexed or still stored; the stored records
  // are the landed ones in order, less what retention counted.
  ghost predicate History(
      acked: set<Key>, landed: seq<EnvSample>, removed: nat, idx: seq<Key>, stored: seq<EnvSample>)
  {
    && acked <= Elements(idx)
    && Distinct(KeysOf(landed))
    && Elements(KeysOf(landed)) <= Elements(idx) + Elements(KeysOf(stored))
    && Subsequence(stored, landed)
    && |stored| + removed == |landed|
  }

  ghost predicate GoodLife(r: Life) {
    var disk := r.m.Disk();
    && GoodDisk(disk) && (r.m.Up? ==> GoodStore(r.m.store))
    && History(r.acked, r.landed, r.removed, disk.idx, Records(disk.segs))
  }

  lemma {:induction false} HistoryGrows(
      acked: set<Key>, landed: seq<EnvSample>, removed: nat, idx: seq<Key>, stored: seq<EnvSample>, s: EnvSample)
    requires History(acked, landed, removed, idx, stored)
    requires Elements(KeysOf(stored)) <= Elements(idx) && s.DedupKey() !in Elements(idx) && Distinct(KeysOf(stored))
    ensures History(acked, landed + [s], removed, idx, stored + [s])
    ensures History(acked + {s.DedupKey()}, landed + [s], removed, idx + [s.DedupKey()], stored + [s])
  {
    hide KeysOf, Distinct, Subsequence;
    SubsequenceAppend(stored, landed, s);
    NewKeyStaysDistinct(landed, s, Elements(idx) + Elements(KeysOf(stored)));
    NewKeyStaysDistinct(stored, s, Elements(idx));
    ElementsOfSum(idx, [s.DedupKey()]);
  }

  lemma {:induction false} AppendKeepsLife(r: Life, s: EnvSample)
    requires GoodLife(r) && r.m.Up? && !Glues(r.m.store, s)
    ensures GoodLife(Next(r, Append(s)))
  {
    hide Records, KeysOf, Distinct, Readable, Numbered, History, AppendTo, EnvSample.Valid;
    var st := r.m.store;
    if Fresh(st, s) {
      HistoryGrows(r.acked, r.landed, r.removed, st.disk.idx, Records(st.disk.segs), s);
      AppendIsGood(st, s);
    } else {
      StaleAppend(st, s);
    }
  }

  lemma {:induction false} CrashKeepsLife(r: Life, s: EnvSample, crash: AppendCrash)
    requires GoodLife(r) && r.m.Up? && !Glues(r.m.store, s)
    ensures GoodLife(Next(r, CrashAppend(s, crash)))
  {
    hide Records, KeysOf, Distinct, Readable, Numbered, History, CrashIn, Lands, Glues,
         InfoOf, SegSamples, LastSeg, Rolls;
    var st := r.m.store;
    CrashIsGood(st, s, crash);
    if Fresh(st, s) && Lands(crash) {
      HistoryGrows(r.acked, r.landed, r.removed, st.disk.idx, Records(st.disk.segs), s);
    } else {
      assert Records(st.disk.segs) + [] == Records(st.disk.segs);
    }
  }

  lemma {:induction false} StaleAppend(st: StoreState, s: EnvSample)
    requires GoodStore(st) && !Fresh(st, s)
    ensures var st' := AppendTo(st, s).0;
            && st'.disk == st.disk && GoodStore(st') && !AppendTo(st, s).1.Appended?
  {
  }

  lemma {:induction false} ExpireKeepsLife(r: Life, e: Event)
    requires GoodLife(r) && r.m.Up? && (e.Expire? || e.CrashExpire?)
    ensures GoodLife(Next(r, e))
  {
    hide Records, KeysOf, Distinct, Readable, Numbered, Subsequence, InfoOf, SegSamples, Retain;
    var st := r.m.store;
    var limit := if e.Expire? then |st.infos| else e.after;
    var kept := Retain(st.disk.segs, st.infos, e.nowNs, e.retentionNs, limit);
    RetainKeeps(st.disk.segs, st.infos, e.nowNs, e.retentionNs, limit);
    SubsequenceTrans(Records(kept.segs), Records(st.disk.segs), r.landed);
    SubsequenceKeys(Records(kept.segs), Records(st.disk.segs));
  }

  lemma {:induction false} SubsequenceKeys(a: seq<EnvSample>, b: seq<EnvSample>)
    requires Subsequence(a, b)
    ensures Elements(KeysOf(a)) <= Elements(KeysOf(b))
    ensures Distinct(KeysOf(b)) ==> Distinct(KeysOf(a))
  {
    if b != [] {
      var b', last := b[..|b| - 1], b[|b| - 1].DedupKey();
      assert KeysOf(b) == KeysOf(b') + [last];
      ElementsOfSum(KeysOf(b'), [last]);
      KeysPrefix(KeysOf(b'), last);
      if Subsequence(a, b') {
        SubsequenceKeys(a, b');
      } else {
        var a' := a[..|a| - 1];
        SubsequenceKeys(a', b');
        assert KeysOf(a) == KeysOf(a') + [last];
        ElementsOfSum(KeysOf(a'), [last]);
        KeysPrefix(KeysOf(a'), last);
      }
    }
  }

  lemma {:induction false} KeysPrefix(keys: seq<Key>, last: Key)
    ensures Distinct(keys + [last]) <==> Distinct(keys) && last !in Elements(keys)
  {
    var all := keys + [last];
    assert forall i :: 0 <= i < |keys| ==> all[i] == keys[i];
    assert all[|keys|] == last;
  }

  lemma {:induction false} OpenKeepsLife(r: Life, e: Event)
    requires GoodLife(r) && r.m.Down? && (e.Open? || e.CrashOpen?)
    ensures GoodLife(Next(r, e)) && (e.Open? ==> Next(r, e).m.Up?)
  {
    hide Records, KeysOf, Distinct, Readable, Numbered, Subsequence, OpenDisk, CrashOpening;
    var idx := Next(r, e).m.Disk().idx;
    if e.Open? {
      OpenIsGood(r.m.at, e.maxRecords);
    } else {
      CrashOpeningIsGood(r.m.at, e.opening);
    }
    assert r.m.at.idx <= idx;
    assert Elements(r.m.at.idx) <= Elements(idx);
  }

  // One event keeps the whole invariant unless it glues, and an open succeeds.
  lemma {:induction false} NextIsGood(r: Life, e: Event)
    requires GoodLife(r) && !GluesIn(r, e)
    ensures GoodLife(Next(r, e))
    ensures r.m.Down? && e.Open? ==> Next(r, e).m.Up?
  {
    hide Records, KeysOf, Distinct, Readable, Numbered, Subsequence;
    if r.m.Down? && (e.Open? || e.CrashOpen?) {
      OpenKeepsLife(r, e);
    } else if r.m.Up? && e.Append? {
      AppendKeepsLife(r, e.sample);
    } else if r.m.Up? && e.CrashAppend? {
      CrashKeepsLife(r, e.sample, e.crash);
    } else if r.m.Up? && (e.Expire? || e.CrashExpire?) {
      ExpireKeepsLife(r, e);
    }
  }

  // On every run, gluing or not: metadata per segment, the index in memory as on disk,
  // every acknowledged key in it ...
  ghost predicate Indexed(r: Life) {
    && (r.m.Up? ==>
          |r.m.store.infos| == |r.m.store.disk.segs| && r.m.store.seen == Elements(r.m.store.disk.idx))
    && r.acked <= Elements(r.m.Disk().idx)
  }

  // ... and every key on record.
  ghost predicate Knows(r: Life) {
    Indexed(r) && (r.m.Up? ==> Elements(KeysOf(Records(r.m.store.disk.segs))) <= r.m.store.seen)
  }

  lemma {:induction false} RetainKnows(
      segs: seq<SegFile>, infos: seq<SegInfo>, nowNs: U64, retentionNs: U64, limit: nat)
    requires |segs| == |infos|
    ensures var r := Retain(segs, infos, nowNs, retentionNs, limit);
            |r.segs| == |r.infos| && Subsequence(Records(r.segs), Records(segs))
  {
    hide Records, Expired, SegSamples, Subsequence;
    if |segs| <= 1 || limit == 0 {
      SubsequenceRefl(Records(segs));
    } else {
      var gone := Expired(infos[0], nowNs, retentionNs);
      var limit' := if gone then limit - 1 else limit;
      RetainKnows(segs[1..], infos[1..], nowNs, retentionNs, limit');
      var rest := Retain(segs[1..], infos[1..], nowNs, retentionNs, limit').segs;
      assert segs == [segs[0]] + segs[1..];
      RecordsCons(segs[0], segs[1..]);
      RecordsCons(segs[0], rest);
      SubsequenceCons(SegSamples(segs[0]), Records(rest), Records(segs[1..]));
    }
  }

  lemma {:induction false} CrashOpeningKnows(disk: Disk, crash: OpenCrash)
    ensures disk.idx <= CrashOpening(disk, crash).idx
    ensures Records(CrashOpening(disk, crash).segs) == Records(disk.segs)
  {
    hide Records, Missing, ReadSegments;
    if ReadSegments(disk.segs, |disk.segs|).Ok? {
      LoadedFiles(disk.segs);
      RepairKeepsRecords(disk.segs, Files(ReadSegments(disk.segs, |disk.segs|).value));
    }
  }

  lemma {:induction false} AppendKnows(st: StoreState, s: EnvSample)
    requires |st.infos| == |st.disk.segs| && st.seen == Elements(st.disk.idx)
    ensures var st' := AppendTo(st, s).0;
            && |st'.infos| == |st'.disk.segs| && st'.seen == Elements(st'.disk.idx)
            && st.disk.idx <= st'.disk.idx
            && (AppendTo(st, s).1.Appended? ==> s.DedupKey() in st'.seen)
  {
    hide AddLine, LastSeg, Note, EnvSample.Valid;
    ElementsOfSum(st.disk.idx, [s.DedupKey()]);
  }

  // Whatever is written over the last segment, the records change as that segment's do.
  lemma {:induction false} WrittenRecords(segs: seq<SegFile>, written: SegFile, brought: seq<EnvSample>)
    requires segs != [] && Subsequence(SegSamples(written), SegSamples(LastSeg(segs)) + brought)
    ensures Subsequence(Records(SetLast(segs, written)), Records(segs) + brought)
  {
    hide Records, SegSamples, Subsequence, SetLast, LastSeg;
    SetLastRecords(segs, written);
    var before := Records(segs[..|segs| - 1]);
    SubsequenceCons(before, SegSamples(written), SegSamples(LastSeg(segs)) + brought);
    assert before + (SegSamples(LastSeg(segs)) + brought) == (before + SegSamples(LastSeg(segs))) + brought;
  }

  // A line brings its own record, or glued none and takes the one it ran into.
  lemma {:induction false} LineBrings(seg: SegFile, s: EnvSample)
    ensures Subsequence(SegSamples(AddLine(seg, s)), SegSamples(seg) + [s])
  {
    var before := LineSamples(seg.lines);
    if seg.tail.Clean? {
      AddLineSamples(seg, s);
      SubsequenceRefl(SegSamples(seg) + [s]);
    } else {
      assert AddLine(seg, s).lines[..|seg.lines|] == seg.lines;
      assert SegSamples(AddLine(seg, s)) == before;
      SubsequenceRefl(before);
      SubsequenceExtend(before, before, SegSamples(seg)[|before|..] + [s]);
      assert before + (SegSamples(seg)[|before|..] + [s]) == SegSamples(seg) + [s];
    }
  }

  lemma {:induction false} TearTakes(seg: SegFile)
    ensures Subsequence(SegSamples(seg.(tail := Torn)), SegSamples(seg))
  {
    var before := LineSamples(seg.lines);
    assert SegSamples(seg.(tail := Torn)) == before by { assert before + [] == before; }
    SubsequenceRefl(before);
    SubsequenceExtend(before, before, SegSamples(seg)[|before|..]);
    assert before + SegSamples(seg)[|before|..] == SegSamples(seg);
  }

  // Glued or not, an append or a crash in one brings at most its own record, last.
  lemma {:induction false} AppendBrings(st: StoreState, s: EnvSample)
    requires |st.infos| == |st.disk.segs|
    ensures var disk := AppendTo(st, s).0.disk;
            if Fresh(st, s) then Subsequence(Records(disk.segs), Records(st.disk.segs) + [s])
            else disk == st.disk
  {
    hide Records, SegSamples, AddLine, EnvSample.Valid, Note, Subsequence;
    if Fresh(st, s) {
      NewSegment(st.disk.segs, st.nextNumber);
      var segs := Rolled(st).disk.segs;
      LineBrings(LastSeg(segs), s);
      WrittenRecords(segs, AddLine(LastSeg(segs), s), [s]);
    }
  }

  // What an append answers, counts, and adds to index and records.
  ghost predicate Answers(st: StoreState, s: EnvSample, st': StoreState, outcome: AppendOutcome) {
    && (outcome.Invalid? <==>
          !(&& 0.0 <= s.quality <= 1.0 && s.lower <= s.value <= s.upper
            && 0 < s.measuredNs <= s.receivedNs && s.firmwareHash != "" && s.signerKey != []))
    && (outcome.Duplicate? <==> !outcome.Invalid? && Key(s.nodeId, s.sequence) in st.seen)
    && st'.appended == st.appended + (if outcome.Appended? then 1 else 0)
    && st'.duplicates == st.duplicates + (if outcome.Duplicate? then 1 else 0)
    && st'.deleted == st.deleted
    && (!outcome.Appended? ==> st'.disk == st.disk && st'.seen == st.seen)
    && (outcome.Appended? ==>
          && st'.seen == st.seen + {s.DedupKey()} && st'.disk.idx == st.disk.idx + [s.DedupKey()]
          && (!Glues(st, s) ==> Records(st'.disk.segs) == Records(st.disk.segs) + [s]))
  }

  lemma {:induction false} AppendAnswers(st: StoreState, s: EnvSample)
    requires |st.infos| == |st.disk.segs|
    ensures Answers(st, s, AppendTo(st, s).0, AppendTo(st, s).1)
  {
    hide Records, SegSamples, AddLine, Note;
    if Fresh(st, s) && !Glues(st, s) {
      NewSegment(st.disk.segs, st.nextNumber);
      var segs := Rolled(st).disk.segs;
      SetLastRecords(segs, AddLine(LastSeg(segs), s));
      AddLineSamples(LastSeg(segs), s);
      var before := Records(segs[..|segs| - 1]);
      assert before + (SegSamples(LastSeg(segs)) + [s]) == (before + SegSamples(LastSeg(segs))) + [s];
    }
  }

  lemma {:induction false} CrashBrings(st: StoreState, s: EnvSample, crash: AppendCrash)
    requires |st.infos| == |st.disk.segs|
    ensures Subsequence(Records(CrashIn(st, s, crash).segs),
                        Records(st.disk.segs) + (if Fresh(st, s) && Lands(crash) then [s] else []))
  {
    hide Records, SegSamples, AddLine, Fresh, Subsequence;
    assert Records(st.disk.segs) + [] == Records(st.disk.segs);
    if !Fresh(st, s) || crash.BeforeFile? {
      SubsequenceRefl(Records(st.disk.segs));
    } else {
      NewSegment(st.disk.segs, st.nextNumber);
      var segs := Rolled(st).disk.segs;
      var last, disk := LastSeg(segs), CrashIn(st, s, crash);
      WriteBrings(last, LastSeg(disk.segs), s, crash);
      WrittenRecords(segs, LastSeg(disk.segs), if Lands(crash) then [s] else []);
      assert disk.segs == SetLast(segs, LastSeg(disk.segs));
    }
  }

  lemma {:induction false} WriteBrings(last: SegFile, written: SegFile, s: EnvSample, crash: AppendCrash)
    requires !crash.BeforeFile? && written == Written(last, s, crash)
    ensures Subsequence(SegSamples(written), SegSamples(last) + (if Lands(crash) then [s] else []))
  {
    hide SegSamples, AddLine, Subsequence;
    assert SegSamples(last) + [] == SegSamples(last);
    match crash
    case PartialLine => TearTakes(last);
    case NoNewline =>
      if last.tail.Clean? {
        assert SegSamples(written) == SegSamples(last) + [s] by { WholeRest(last, s); }
        SubsequenceRefl(SegSamples(written));
      } else {
        TearTakes(last);
        SubsequenceExtend(SegSamples(written), SegSamples(last), [s]);
      }
    case NoBytes => SubsequenceRefl(SegSamples(last));
    case _ => LineBrings(last, s);
  }

  lemma {:induction false} WholeRest(seg: SegFile, s: EnvSample)
    requires seg.tail.Clean?
    ensures SegSamples(seg.(tail := Unterminated(s))) == SegSamples(seg) + [s]
  {
    assert LineSamples(seg.lines) + [] == LineSamples(seg.lines);
  }

  lemma {:induction false} AppendKnowsRecords(st: StoreState, s: EnvSample)
    requires |st.infos| == |st.disk.segs| && Elements(KeysOf(Records(st.disk.segs))) <= st.seen
    ensures var st' := AppendTo(st, s).0;
            Elements(KeysOf(Records(st'.disk.segs))) <= st'.seen
  {
    hide Records, KeysOf, SetLast, LastSeg, AddLine, EnvSample.Valid, Rolled, Note, Subsequence;
    AppendBrings(st, s);
    if Fresh(st, s) {
      var before := Records(st.disk.segs);
      SubsequenceKeys(Records(AppendTo(st, s).0.disk.segs), before + [s]);
      KeysThen(before, s);
    }
  }

  lemma {:induction false} KeysThen(samples: seq<EnvSample>, s: EnvSample)
    ensures Elements(KeysOf(samples + [s])) == Elements(KeysOf(samples)) + {s.DedupKey()}
  {
    assert (samples + [s])[..|samples|] == samples;
    ElementsOfSum(KeysOf(samples), [s.DedupKey()]);
  }

  lemma {:induction false} CrashInKnows(st: StoreState, s: EnvSample, crash: AppendCrash)
    ensures CrashIn(st, s, crash).idx == st.disk.idx
  {
    hide AddLine, LastSeg, SetLast, Rolled, Fresh;
  }

  // An acknowledged key stays known whatever happens, gluing included.
  lemma {:induction false} AckedStaysKnown(r: Life, e: Event)
    requires Knows(r)
    ensures Knows(Next(r, e)) && r.acked <= Next(r, e).acked
  {
    hide OpenDisk, CrashOpening, AppendTo, CrashIn, Retain, Lands, Fresh, Records, KeysOf;
    match r.m
    case Down(disk) =>
      if e.Open? && OpenDisk(disk, e.maxRecords).Ok? {
        OpenKnows(disk, e.maxRecords);
      } else if e.CrashOpen? {
        CrashOpeningKnows(disk, e.opening);
      }
    case Up(st) =>
      if e.Append? {
        AppendKnows(st, e.sample);
        AppendKnowsRecords(st, e.sample);
      } else if e.CrashAppend? {
        CrashInKnows(st, e.sample, e.crash);
      } else if e.Expire? {
        ExpireKnows(st, e.nowNs, e.retentionNs);
      }
  }

  lemma {:induction false} ExpireKnows(st: StoreState, nowNs: U64, retentionNs: U64)
    requires |st.infos| == |st.disk.segs|
    ensures var st' := RetainIn(st, nowNs, retentionNs);
            && |st'.infos| == |st'.disk.segs| && st'.seen == st.seen && st'.disk.idx == st.disk.idx
            && Elements(KeysOf(Records(st'.disk.segs))) <= Elements(KeysOf(Records(st.disk.segs)))
  {
    hide Retain, Records, KeysOf, Subsequence;
    RetainKnows(st.disk.segs, st.infos, nowNs, retentionNs, |st.infos|);
    SubsequenceKeys(Records(RetainIn(st, nowNs, retentionNs).disk.segs), Records(st.disk.segs));
  }

  // On every run, gluing or not: the stored keys are distinct, and the stored records
  // are landed ones in landing order.
  ghost predicate InOrder(r: Life) {
    var stored := Records(r.m.Disk().segs);
    Distinct(KeysOf(stored)) && Subsequence(stored, r.landed)
  }

  lemma {:induction false} OrderGrows(
      stored: seq<EnvSample>, stored': seq<EnvSample>, landed: seq<EnvSample>, s: EnvSample, seen: set<Key>)
    requires Distinct(KeysOf(stored)) && Subsequence(stored, landed)
    requires Elements(KeysOf(stored)) <= seen && s.DedupKey() !in seen
    requires Subsequence(stored', stored + [s])
    ensures Distinct(KeysOf(stored')) && Subsequence(stored', landed + [s])
  {
    hide KeysOf, Distinct, Subsequence;
    NewKeyStaysDistinct(stored, s, seen);
    SubsequenceKeys(stored', stored + [s]);
    SubsequenceExtend(stored, landed, [s]);
    SubsequenceTrans(stored', stored + [s], landed + [s]);
  }

  lemma {:induction false} OrderShrinks(stored: seq<EnvSample>, stored': seq<EnvSample>, landed: seq<EnvSample>)
    requires Distinct(KeysOf(stored)) && Subsequence(stored, landed) && Subsequence(stored', stored)
    ensures Distinct(KeysOf(stored')) && Subsequence(stored', landed)
  {
    hide KeysOf, Distinct, Subsequence;
    SubsequenceKeys(stored', stored);
    SubsequenceTrans(stored', stored, landed);
  }

  lemma {:induction false} NextKeepsOrder(r: Life, e: Event)
    requires Knows(r) && InOrder(r)
    ensures InOrder(Next(r, e))
  {
    hide OpenDisk, CrashOpening, AppendTo, CrashIn, Retain, Lands, Fresh, Records, KeysOf, Distinct, Subsequence;
    match r.m
    case Down(disk) =>
      if e.Open? && OpenDisk(disk, e.maxRecords).Ok? {
        OpenKnows(disk, e.maxRecords);
      } else if e.CrashOpen? {
        CrashOpeningKnows(disk, e.opening);
      }
    case Up(st) =>
      var stored := Records(st.disk.segs);
      if e.Append? {
        AppendKeepsOrder(r, e.sample);
      } else if e.CrashAppend? {
        CrashKeepsOrder(r, e.sample, e.crash);
      } else if e.Expire? || e.CrashExpire? {
        var limit := if e.Expire? then |st.infos| else e.after;
        RetainKnows(st.disk.segs, st.infos, e.nowNs, e.retentionNs, limit);
        OrderShrinks(stored, Records(Retain(st.disk.segs, st.infos, e.nowNs, e.retentionNs, limit).segs), r.landed);
      }
  }

  lemma {:induction false} AppendKeepsOrder(r: Life, s: EnvSample)
    requires Knows(r) && InOrder(r) && r.m.Up?
    ensures InOrder(Next(r, Append(s)))
  {
    hide AppendTo, Records, KeysOf, Distinct, Subsequence, EnvSample.Valid;
    var st := r.m.store;
    AppendBrings(st, s);
    AppendsIffFresh(st, s);
    if Fresh(st, s) {
      OrderGrows(Records(st.disk.segs), Records(AppendTo(st, s).0.disk.segs), r.landed, s, st.seen);
    }
  }

  lemma {:induction false} AppendsIffFresh(st: StoreState, s: EnvSample)
    ensures AppendTo(st, s).1.Appended? <==> Fresh(st, s)
  {
  }

  lemma {:induction false} CrashKeepsOrder(r: Life, s: EnvSample, crash: AppendCrash)
    requires Knows(r) && InOrder(r) && r.m.Up?
    ensures InOrder(Next(r, CrashAppend(s, crash)))
  {
    hide CrashIn, Records, KeysOf, Distinct, Subsequence, EnvSample.Valid, Lands;
    var st := r.m.store;
    var stored, stored' := Records(st.disk.segs), Records(CrashIn(st, s, crash).segs);
    CrashBrings(st, s, crash);
    if Fresh(st, s) && Lands(crash) {
      OrderGrows(stored, stored', r.landed, s, st.seen);
    } else {
      assert stored + [] == stored;
      OrderShrinks(stored, stored', r.landed);
    }
  }

  ghost function Live(events: seq<Event>): (r: Life)
    ensures Knows(r)
  {
    if events == [] then NEW_LIFE
    else
      var before := Live(events[..|events| - 1]);
      AckedStaysKnown(before, events[|events| - 1]);
      Next(before, events[|events| - 1])
  }

  // ---- Main results over every run from an empty directory ----

  // Whatever the crashes, retention passes and gluing: no two stored records share a
  // key, and they stand in the order in which they landed.
  lemma {:induction false} LivesKeepKeysAndOrder(events: seq<Event>)
    ensures Distinct(KeysOf(Records(Live(events).m.Disk().segs)))
    ensures Subsequence(Records(Live(events).m.Disk().segs), Live(events).landed)
  {
    hide Next, Knows;
    if events == [] {
      assert Records(EMPTY_DISK.segs) == [] && KeysOf([]) == [];
    } else {
      LivesKeepKeysAndOrder(events[..|events| - 1]);
      NextKeepsOrder(Live(events[..|events| - 1]), events[|events| - 1]);
    }
  }

  // The event writes bytes behind an unterminated record.
  predicate Harms(r: Life, e: Event) {
    GluesIn(r, e) && !(e.CrashAppend? && (e.crash.BeforeFile? || e.crash.NoBytes?))
  }

  // A harmful event breaks the invariant, and no other does.
  lemma {:induction false} NextIsGoodIff(r: Life, e: Event)
    requires GoodLife(r)
    ensures GoodLife(Next(r, e)) <==> !Harms(r, e)
  {
    hide History, GoodDisk, GoodStore, Records, Readable;
    if !GluesIn(r, e) {
      NextIsGood(r, e);
    } else {
      assert GoodStore(r.m.store) && Fresh(r.m.store, e.sample);
      if e.Append? {
        GluedAppendHarms(r, e.sample);
      } else {
        GluedCrashHarmsIff(r, e.sample, e.crash);
      }
    }
  }

  lemma {:induction false} GluedAppendHarms(r: Life, s: EnvSample)
    requires GoodLife(r) && r.m.Up? && Glues(r.m.store, s)
    ensures !GoodLife(Next(r, Append(s)))
  {
    hide History, Records, KeysOf, Distinct, Readable, Numbered, AppendTo, EnvSample.Valid;
    AppendIsGood(r.m.store, s);
  }

  lemma {:induction false} GluedCrashHarmsIff(r: Life, s: EnvSample, crash: AppendCrash)
    requires GoodLife(r) && r.m.Up? && Glues(r.m.store, s)
    ensures GoodLife(Next(r, CrashAppend(s, crash))) <==> crash.BeforeFile? || crash.NoBytes?
  {
    hide Records, KeysOf, Distinct, Readable, Numbered, Subsequence, CrashIn, EnvSample.Valid, Glues, Rolls;
    var st := r.m.store;
    GluedCrashLoses(st, s, crash);
    GluedCrashShrinks(st, s, crash);
  }

  lemma {:induction false} GluedCrashShrinks(st: StoreState, s: EnvSample, crash: AppendCrash)
    requires GoodStore(st) && Glues(st, s)
    ensures var disk := CrashIn(st, s, crash);
            if crash.BeforeFile? || crash.NoBytes? then disk == st.disk
            else |Records(disk.segs)| < |Records(st.disk.segs)|
  {
    hide KeysOf, Distinct, InfoOf, Records, SegSamples, Numbered, EnvSample.Valid;
    var segs := st.disk.segs;
    if !crash.BeforeFile? {
      var last, disk := LastSeg(segs), CrashIn(st, s, crash);
      var written := Written(last, s, crash);
      assert disk.segs == SetLast(segs, written);
      SetLastRecords(segs, written);
      if crash.NoBytes? {
        assert SetLast(segs, last) == segs;
      } else {
        GluedWriteLoses(last, s, crash);
      }
    }
  }

  lemma {:induction false} GluedWriteLoses(last: SegFile, s: EnvSample, crash: AppendCrash)
    requires last.tail.Unterminated? && !crash.BeforeFile? && !crash.NoBytes?
    ensures |SegSamples(Written(last, s, crash))| < |SegSamples(last)|
  {
    var lines := last.lines;
    assert (lines + [Glued])[..|lines|] == lines;
  }

  ghost predicate NeverHarms(events: seq<Event>) {
    events != [] ==>
      NeverHarms(events[..|events| - 1]) && !Harms(Live(events[..|events| - 1]), events[|events| - 1])
  }

  // Good after every event of the run.
  ghost predicate AlwaysGood(events: seq<Event>) {
    GoodLife(Live(events)) && (events != [] ==> AlwaysGood(events[..|events| - 1]))
  }

  // Over every run: the directory stays readable, no key ever lands twice and the
  // stored records are the landed ones less those retention counted, exactly if no
  // event writes behind an unterminated record.
  lemma {:induction false} AlwaysGoodIff(events: seq<Event>)
    ensures AlwaysGood(events) <==> NeverHarms(events)
  {
    hide Next, GoodLife, Harms;
    if events == [] {
      NewLifeIsGood();
    } else {
      var init, e := events[..|events| - 1], events[|events| - 1];
      AlwaysGoodIff(init);
      assert AlwaysGood(init) ==> GoodLife(Live(init));
      if GoodLife(Live(init)) {
        NextIsGoodIff(Live(init), e);
      }
    }
  }

  lemma {:induction false} NewLifeIsGood()
    ensures GoodLife(NEW_LIFE)
  {
    assert Records(EMPTY_DISK.segs) == [];
  }

  // Then the directory opens whenever it is tried.
  lemma {:induction false} HarmlessLivesOpen(events: seq<Event>, maxRecords: nat)
    requires NeverHarms(events)
    ensures GoodLife(Live(events))
    ensures OpenDisk(Live(events).m.Disk(), maxRecords).Ok?
  {
    AlwaysGoodIff(events);
    OpensIffReadable(Live(events).m.Disk(), maxRecords);
  }

  // On every run, gluing or not, an acknowledged key is a duplicate ever after.
  lemma {:induction false} AckedGrows(events: seq<Event>, more: seq<Event>)
    ensures Live(events).acked <= Live(events + more).acked
  {
    hide Next;
    if more == [] {
      assert events + more == events;
    } else {
      var n := |more| - 1;
      AckedGrows(events, more[..n]);
      assert (events + more)[..|events| + n] == events + more[..n];
      AckedStaysKnown(Live(events + more[..n]), more[n]);
    }
  }

  lemma {:induction false} AckedIsDuplicateForever(events: seq<Event>, more: seq<Event>, s: EnvSample)
    requires s.DedupKey() in Live(events).acked && s.Valid()
    requires Live(events + more).m.Up?
    ensures AppendTo(Live(events + more).m.store, s).1 == Duplicate
  {
    AckedGrows(events, more);
  }

  // Only a crash between a line and its newline can lead to harm.
  predicate NeverSplits(events: seq<Event>) {
    forall e :: e in events && e.CrashAppend? ==> !e.crash.NoNewline?
  }

  lemma {:induction false} ReadKeepsTails(disk: Disk)
    requires ReadSegments(disk.segs, |disk.segs|).Ok? && !LastSeg(disk.segs).tail.Unterminated?
    ensures !LastSeg(Files(ReadSegments(disk.segs, |disk.segs|).value)).tail.Unterminated?
  {
    ReadSegmentsSucceeds(disk.segs, |disk.segs|);
    if disk.segs != [] {
      assert ReadSegment(disk.segs[|disk.segs| - 1], true)
             == Ok(ReadSegments(disk.segs, |disk.segs|).value[|disk.segs| - 1]);
    }
  }

  lemma {:induction false} AppendKeepsTail(st: StoreState, s: EnvSample, crash: AppendCrash)
    requires !LastSeg(st.disk.segs).tail.Unterminated?
    ensures !LastSeg(AppendTo(st, s).0.disk.segs).tail.Unterminated?
    ensures !crash.NoNewline? ==> !LastSeg(CrashIn(st, s, crash).segs).tail.Unterminated?
  {
    hide EnvSample.Valid, Rolls;
    assert forall segs, seg :: LastSeg(SetLast(segs, seg)) == seg;
  }

  lemma {:induction false} OpenKeepsTail(disk: Disk, maxRecords: nat, crash: OpenCrash)
    requires !LastSeg(disk.segs).tail.Unterminated?
    ensures OpenDisk(disk, maxRecords).Ok? ==>
              !LastSeg(OpenDisk(disk, maxRecords).value.disk.segs).tail.Unterminated?
    ensures !LastSeg(CrashOpening(disk, crash).segs).tail.Unterminated?
  {
    hide Records, Missing, Infos, InfoOf, ReadSegments;
    if ReadSegments(disk.segs, |disk.segs|).Ok? {
      ReadKeepsTails(disk);
    }
  }

  lemma {:induction false} NextKeepsTail(r: Life, e: Event)
    requires GoodLife(r) && !LastSeg(r.m.Disk().segs).tail.Unterminated?
    requires !(e.CrashAppend? && e.crash.NoNewline?)
    ensures !GluesIn(r, e) && !LastSeg(Next(r, e).m.Disk().segs).tail.Unterminated?
  {
    hide GoodDisk, History, Records, InfoOf, SegSamples, KeysOf, LastSeg,
         OpenDisk, CrashOpening, AppendTo, CrashIn, Retain, Fresh, Rolls, Lands;
    match r.m
    case Down(disk) =>
      OpenKeepsTail(disk, if e.Open? then e.maxRecords else 0, if e.CrashOpen? then e.opening else Untouched);
    case Up(st) =>
      if e.Append? || e.CrashAppend? {
        AppendKeepsTail(st, e.sample, if e.CrashAppend? then e.crash else NoBytes);
      } else if e.Expire? || e.CrashExpire? {
        RetainKeeps(st.disk.segs, st.infos, e.nowNs, e.retentionNs, if e.Expire? then |st.infos| else e.after);
      }
  }

  lemma {:induction false} WithoutSplitsNothingHarms(events: seq<Event>)
    requires NeverSplits(events)
    ensures NeverHarms(events)
    ensures !LastSeg(Live(events).m.Disk().segs).tail.Unterminated?
  {
    hide Next;
    if events != [] {
      var init, e := events[..|events| - 1], events[|events| - 1];
      assert e in events && forall x :: x in init ==> x in events;
      WithoutSplitsNothingHarms(init);
      HarmlessLivesOpen(init, 1);
      NextKeepsTail(Live(init), e);
    }
  }

  // A crash while gluing keeps the stored records exactly when no byte was written.
  lemma {:induction false} GluedCrashLoses(st: StoreState, s: EnvSample, crash: AppendCrash)
    requires GoodStore(st) && Glues(st, s)
    ensures var disk := CrashIn(st, s, crash);
            (Readable(disk.segs) && Records(st.disk.segs) <= Records(disk.segs))
            <==> crash.BeforeFile? || crash.NoBytes?
  {
    hide KeysOf, Distinct, InfoOf;
    var segs := st.disk.segs;
    var last := LastSeg(segs);
    assert segs != [];
    assert last == segs[|segs| - 1];
    if !crash.BeforeFile? {
      var disk := CrashIn(st, s, crash);
      var written := LastSeg(disk.segs);
      assert disk.segs == SetLast(segs, written);
      SetLastReadable(segs, written);
      SetLastRecords(segs, written);
      assert LineSamples(last.lines) + [] == LineSamples(last.lines);
      assert written.tail.Torn? ==> |SegSamples(written)| < |SegSamples(last)|;
      if crash.NoBytes? {
        assert disk.segs == segs;
      }
    }
  }

  lemma {:induction false} LiveThen(events: seq<Event>, e: Event)
    ensures Live(events + [e]) == Next(Live(events), e)
  {
    assert (events + [e])[..|events|] == events;
  }

  lemma {:induction false} LiveOfNone()
    ensures Live([]) == NEW_LIFE
  {
  }

  lemma {:induction false} OpenNew(maxRecords: nat)
    ensures OpenDisk(EMPTY_DISK, maxRecords).Ok?
    ensures var st := OpenDisk(EMPTY_DISK, maxRecords).value;
            st.disk.segs == [] && st.disk.idx == [] && st.seen == {} && st.infos == [] && st.nextNumber == 0
  {
    var none := EMPTY_DISK.segs;
    assert Records(none) == [];
    assert Missing({}, []) == [];
    OpenIsGood(EMPTY_DISK, maxRecords);
  }

  lemma {:induction false} SplitRecords(segs: seq<SegFile>, s: EnvSample)
    requires |segs| == 1 && segs[0].lines == [] && segs[0].tail == Unterminated(s)
    ensures SegSamples(segs[0]) == [s] && Records(segs) == [s] && KeysOf([s]) == [s.DedupKey()]
    ensures Readable(segs) && Numbered(segs)
  {
    hide Records, KeysOf, SegSamples;
    OnlySample(segs[0], s);
    OnlySegment(segs);
    KeysOfOne([s]);
  }

  lemma {:induction false} OnlySample(seg: SegFile, s: EnvSample)
    requires seg.lines == [] && seg.tail == Unterminated(s)
    ensures SegSamples(seg) == [s]
  {
    var lines := seg.lines;
    assert LineSamples(lines) == [];
  }

  lemma {:induction false} OnlySegment(segs: seq<SegFile>)
    requires |segs| == 1
    ensures Records(segs) == SegSamples(segs[0])
  {
    hide SegSamples;
    var none := segs[..0];
    assert Records(none) == [];
    assert Records(segs) == Records(none) + SegSamples(segs[0]);
  }

  lemma {:induction false} KeysOfOne(samples: seq<EnvSample>)
    requires |samples| == 1
    ensures KeysOf(samples) == [samples[0].DedupKey()]
  {
    assert KeysOf(samples[..0]) == [];
  }

  lemma {:induction false} OpenSplit(disk: Disk, s: EnvSample, maxRecords: nat)
    requires |disk.segs| == 1 && disk.segs[0].lines == [] && disk.segs[0].tail == Unterminated(s)
    requires disk.idx == []
    ensures GoodDisk(disk) && OpenDisk(disk, maxRecords).Ok?
    ensures var st := OpenDisk(disk, maxRecords).value;
            && GoodStore(st)
            && st.disk.segs == disk.segs && st.seen == {s.DedupKey()}
            && st.infos[0].records == 1
            && st.maxRecords == (if maxRecords == 0 then 1 else maxRecords)
  {
    hide InfoOf, Missing, Records, SegSamples, KeysOf, ReadSegments, Files, Readable, Numbered;
    SplitRecords(disk.segs, s);
    OpenIsGood(disk, maxRecords);
    InfoCounts(disk.segs[0].number, [s]);
  }

  function PoisonRun(s1: EnvSample, s2: EnvSample, maxRecords: nat): seq<Event> {
    (((([] + [Open(maxRecords)]) + [CrashAppend(s1, NoNewline)]) + [Open(maxRecords)]) + [Append(s2)]) + [Kill]
  }

  // The documentation promises that a crash in a write never poisons the store
  // (crates/rucelium-store/src/lib.rs:34-37).  This run does: two valid samples, one
  // crash between the first one's line and its newline, one acknowledged append.
  lemma {:induction false} SplitCrashCanPoisonTheStore(s1: EnvSample, s2: EnvSample, maxRecords: nat)
    requires s1.Valid() && s2.Valid() && s1.DedupKey() != s2.DedupKey() && maxRecords > 1
    ensures var r := Live(PoisonRun(s1, s2, maxRecords));
            r.acked == {s2.DedupKey()} && OpenDisk(r.m.Disk(), maxRecords).Err?
  {
    hide Live, OpenDisk, EnvSample.Valid, AppendTo, CrashIn;
    var e0: seq<Event> := [];
    var e1 := e0 + [Open(maxRecords)];
    var e2 := e1 + [CrashAppend(s1, NoNewline)];
    var e3 := e2 + [Open(maxRecords)];
    var e4 := e3 + [Append(s2)];
    LiveOfNone();
    LiveThen(e0, Open(maxRecords));
    LiveThen(e1, CrashAppend(s1, NoNewline));
    LiveThen(e2, Open(maxRecords));
    LiveThen(e3, Append(s2));
    LiveThen(e4, Kill);
    FirstCrash(s1, maxRecords);
    SecondAppend(Live(e2).m.Disk(), s1, s2, maxRecords);
  }

  lemma {:induction false} FirstCrash(s1: EnvSample, maxRecords: nat)
    requires s1.Valid()
    ensures var r := Next(Next(NEW_LIFE, Open(maxRecords)), CrashAppend(s1, NoNewline));
            && r.m == Down(Disk([SegFile(0, [], Unterminated(s1))], [], false)) && r.acked == {}
  {
    hide OpenDisk, EnvSample.Valid;
    OpenNew(maxRecords);
  }

  lemma {:induction false} SecondAppend(disk: Disk, s1: EnvSample, s2: EnvSample, maxRecords: nat)
    requires s2.Valid() && s1.DedupKey() != s2.DedupKey() && maxRecords > 1
    requires disk == Disk([SegFile(0, [], Unterminated(s1))], [], false)
    ensures OpenDisk(disk, maxRecords).Ok?
    ensures var st := OpenDisk(disk, maxRecords).value;
            && AppendTo(st, s2).1 == Appended
            && OpenDisk(AppendTo(st, s2).0.disk, maxRecords).Err?
  {
    hide OpenDisk, EnvSample.Valid, Readable, Numbered, Records, KeysOf, InfoOf, SegSamples, AppendTo;
    OpenSplit(disk, s1, maxRecords);
    var st := OpenDisk(disk, maxRecords).value;
    assert Glues(st, s2);
    AppendIsGood(st, s2);
    OpensIffReadable(AppendTo(st, s2).0.disk, maxRecords);
  }

  // ---------------------------------------------------------------------
  // The store object
  // ---------------------------------------------------------------------

  lemma {:induction false} MissingThen(known: set<Key>, samples: seq<EnvSample>, s: EnvSample)
    ensures var before, key := Missing(known, samples), s.DedupKey();
            Missing(known, samples + [s]) == before + (if key in known || key in before then [] else [key])
  {
    assert (samples + [s])[..|samples|] == samples;
  }

  lemma {:induction false} InfoThen(number: nat, samples: seq<EnvSample>, s: EnvSample)
    ensures InfoOf(number, samples + [s]) == Note(InfoOf(number, samples), s)
  {
    assert (samples + [s])[..|samples|] == samples;
  }

  lemma {:induction false} LoadedThen(loaded: seq<Loaded>, last: Loaded)
    ensures Files(loaded + [last]) == Files(loaded) + [last.file]
    ensures Infos(loaded + [last]) == Infos(loaded) + [InfoOf(last.file.number, last.samples)]
    ensures Records(Files(loaded + [last])) == Records(Files(loaded)) + SegSamples(last.file)
  {
    hide InfoOf, SegSamples;
    assert (loaded + [last])[..|loaded|] == loaded;
    assert (Files(loaded) + [last.file])[..|loaded|] == Files(loaded);
  }

  lemma {:induction false} FirstErrorStays(segs: seq<SegFile>, i: nat, n: nat)
    requires i < n <= |segs| && ReadSegments(segs, i).Ok? && ReadSegment(segs[i], i + 1 == |segs|).Err?
    ensures ReadSegments(segs, n) == Err(ReadSegment(segs[i], i + 1 == |segs|).error)
  {
    hide ReadSegment;
    if i + 1 < n {
      FirstErrorStays(segs, i, n - 1);
    } else {
      assert ReadSegments(segs, n - 1).Ok?;
    }
  }

  lemma {:induction false} GoodReads(st: StoreState, i: nat)
    requires GoodStore(st) && i < |st.disk.segs|
    ensures ReadSegment(st.disk.segs[i], false).Ok?
  {
  }

  // Where a removal loop at index i, having counted `count`, will end.
  ghost function Finish(
      segs: seq<SegFile>, infos: seq<SegInfo>, nowNs: U64, retentionNs: U64, i: nat, left: nat, count: nat): Retained
    requires |segs| == |infos| && i <= |infos|
  {
    var rest := Retain(segs[i..], infos[i..], nowNs, retentionNs, left);
    Retained(segs[..i] + rest.segs, infos[..i] + rest.infos, count + rest.deleted)
  }

  lemma {:induction false} FinishAll(
      segs: seq<SegFile>, infos: seq<SegInfo>, nowNs: U64, retentionNs: U64, left: nat)
    requires |segs| == |infos|
    ensures Finish(segs, infos, nowNs, retentionNs, 0, left, 0) == Retain(segs, infos, nowNs, retentionNs, left)
  {
    hide Retain;
    assert segs[0..] == segs && infos[0..] == infos;
  }

  lemma {:induction false} FinishEnd(
      segs: seq<SegFile>, infos: seq<SegInfo>, nowNs: U64, retentionNs: U64, i: nat, left: nat, count: nat)
    requires |segs| == |infos| && i <= |infos| <= i + 1
    ensures Finish(segs, infos, nowNs, retentionNs, i, left, count) == Retained(segs, infos, count)
  {
    assert segs[..i] + segs[i..] == segs && infos[..i] + infos[i..] == infos;
  }

  lemma {:induction false} FinishStep(
      segs: seq<SegFile>, infos: seq<SegInfo>, nowNs: U64, retentionNs: U64, i: nat, left: nat, count: nat)
    requires |segs| == |infos| && i + 1 < |infos| && left > 0
    ensures Finish(segs, infos, nowNs, retentionNs, i, left, count)
         == if Expired(infos[i], nowNs, retentionNs)
            then Finish(segs[..i] + segs[i + 1..], infos[..i] + infos[i + 1..], nowNs, retentionNs,
                        i, left - 1, count + infos[i].records)
            else Finish(segs, infos, nowNs, retentionNs, i + 1, left, count)
  {
    hide Expired;
    var segs', infos' := segs[..i] + segs[i + 1..], infos[..i] + infos[i + 1..];
    assert segs[i..][1..] == segs[i + 1..] && infos[i..][1..] == infos[i + 1..];
    assert segs'[i..] == segs[i + 1..] && infos'[i..] == infos[i + 1..];
    assert segs'[..i] == segs[..i] && infos'[..i] == infos[..i];
    var rest := Retain(segs[i + 1..], infos[i + 1..], nowNs, retentionNs, left);
    TakeOneMore(segs, i, rest.segs);
    TakeOneMore(infos, i, rest.infos);
  }

  class ObservationStore {
    var disk: Disk
    var seen: set<Key>
    var infos: seq<SegInfo>
    var nextNumber: nat
    const maxRecords: nat
    var appended: nat
    var duplicates: nat
    var deleted: nat

    ghost function State(): StoreState
      reads this
    {
      StoreState(disk, seen, infos, nextNumber, maxRecords, appended, duplicates, deleted)
    }

    constructor (disk: Disk, seen: set<Key>, infos: seq<SegInfo>, nextNumber: nat, maxRecords: nat)
      ensures State() == StoreState(disk, seen, infos, nextNumber, maxRecords, 0, 0, 0)
    {
      this.disk, this.seen, this.infos := disk, seen, infos;
      this.nextNumber, this.maxRecords := nextNumber, maxRecords;
      appended, duplicates, deleted := 0, 0, 0;
    }

    // The records of one segment: its metadata, and the keys not yet known.
    static method Scan(number: nat, samples: seq<EnvSample>, seen0: set<Key>, missing0: seq<Key>,
                       ghost known: set<Key>, ghost before: seq<EnvSample>)
      returns (info: SegInfo, seen: set<Key>, missing: seq<Key>)
      requires missing0 == Missing(known, before) && seen0 == known + Elements(missing0)
      ensures info == InfoOf(number, samples)
      ensures missing == Missing(known, before + samples) && seen == known + Elements(missing)
    {
      hide InfoOf, Missing, Note;
      info, seen, missing := EmptyInfo(number), seen0, missing0;
      assert before + samples[..0] == before;
      NothingNoted(number);
      var j := 0;
      while j < |samples|
        invariant j <= |samples|
        invariant info == InfoOf(number, samples[..j])
        invariant missing == Missing(known, before + samples[..j]) && seen == known + Elements(missing)
      {
        var key := samples[j].DedupKey();
        MissingThen(known, before + samples[..j], samples[j]);
        InfoThen(number, samples[..j], samples[j]);
        assert samples[..j + 1] == samples[..j] + [samples[j]];
        assert before + samples[..j + 1] == (before + samples[..j]) + [samples[j]];
        assert missing + [] == missing;
        if key !in seen {
          ElementsOfSum(missing, [key]);
          seen, missing := seen + {key}, missing + [key];
        }
        info := Note(info, samples[j]);
        j := j + 1;
      }
      assert samples[..j] == samples;
    }

    static method Open(at: Disk, maxRecords: nat) returns (r: Result<ObservationStore, StoreError>)
      ensures r.Ok? ==> fresh(r.value) && OpenDisk(at, maxRecords) == Ok(r.value.State())
      ensures r.Err? ==> OpenDisk(at, maxRecords) == Err(r.error)
    {
      hide ReadSegment, Records, InfoOf, SegSamples, Missing, ReadSegments, Files, Infos, Elements;
      var known := Elements(at.idx);
      var seen, missing, files, infos, next := known, [], [], [], 0;
      ghost var loaded: seq<Loaded> := [];
      NothingRead(at.segs, known);
      var i := 0;
      while i < |at.segs|
        invariant i <= |at.segs|
        invariant ReadSegments(at.segs, i) == Ok(loaded) && files == Files(loaded) && infos == Infos(loaded)
        invariant missing == Missing(known, Records(files)) && seen == known + Elements(missing)
        invariant next == if files == [] then 0 else files[|files| - 1].number + 1
      {
        var read := ReadSegment(at.segs[i], i + 1 == |at.segs|);
        if read.Err? {
          FirstErrorStays(at.segs, i, |at.segs|);
          return Err(read.error);
        }
        var file := read.value.file;
        var info;
        info, seen, missing := Scan(file.number, read.value.samples, seen, missing, known, Records(files));
        ReadIsFaithful(at.segs[i], i + 1 == |at.segs|);
        LoadedThen(loaded, read.value);
        ReadThen(at.segs, i);
        loaded := loaded + [read.value];
        files, infos, next := files + [file], infos + [info], file.number + 1;
        i := i + 1;
      }
      ElementsOfSum(at.idx, missing);
      var store := new ObservationStore(
        Disk(files, at.idx + missing, false), seen, infos, next, if maxRecords == 0 then 1 else maxRecords);
      r := Ok(store);
    }

    method Append(s: EnvSample) returns (outcome: AppendOutcome)
      requires |infos| == |disk.segs|
      modifies this
      ensures (State(), outcome) == AppendTo(old(State()), s)
      ensures old(GoodStore(State())) && outcome.Appended? ==> FillsUp(old(State()), State())
    {
      hide FillsUp, GoodStore, SetLast, AddLine, LastSeg, Note, EmptyInfo, EnvSample.Valid, EnvSample.DedupKey;
      if !s.Valid() {
        return Invalid;
      }
      var key := s.DedupKey();
      if key in seen {
        duplicates := duplicates + 1;
        return Duplicate;
      }
      if infos == [] || infos[|infos| - 1].records >= maxRecords {
        disk := disk.(segs := disk.segs + [SegFile(nextNumber, [], Clean)]);
        infos := infos + [EmptyInfo(nextNumber)];
        nextNumber := nextNumber + 1;
      }
      assert State() == Rolled(old(State()));
      var last := |infos| - 1;
      disk := Disk(SetLast(disk.segs, AddLine(LastSeg(disk.segs), s)), disk.idx + [key], false);
      seen := seen + {key};
      infos := infos[last := Note(infos[last], s)];
      appended := appended + 1;
      outcome := Appended;
      if old(GoodStore(State())) {
        SegmentsFillUp(old(State()), s);
      }
    }

    method EnforceRetention(nowNs: U64, retentionNs: U64) returns (count: nat)
      requires |infos| == |disk.segs|
      modifies this
      ensures State() == RetainIn(old(State()), nowNs, retentionNs)
      ensures count == deleted - old(deleted)
    {
      hide Retain, Expired, Finish;
      ghost var full := Retain(disk.segs, infos, nowNs, retentionNs, |infos|);
      ghost var left := |infos|;
      FinishAll(disk.segs, infos, nowNs, retentionNs, left);
      count := 0;
      var i := 0;
      while i + 1 < |infos|
        invariant |infos| == |disk.segs| && i <= |infos| && left >= |infos| - i
        invariant State() == old(State()).(disk := old(disk).(segs := disk.segs), infos := infos)
        invariant Finish(disk.segs, infos, nowNs, retentionNs, i, left, count) == full
        decreases |infos| - i
      {
        FinishStep(disk.segs, infos, nowNs, retentionNs, i, left, count);
        if Expired(infos[i], nowNs, retentionNs) {
          count := count + infos[i].records;
          disk := disk.(segs := disk.segs[..i] + disk.segs[i + 1..]);
          infos := infos[..i] + infos[i + 1..];
          left := left - 1;
        } else {
          i := i + 1;
        }
      }
      FinishEnd(disk.segs, infos, nowNs, retentionNs, i, left, count);
      deleted := deleted + count;
    }

    // Replay: every stored sample in append order.
    method Replay() returns (r: Result<seq<EnvSample>, StoreError>)
      ensures r.Ok? ==> r.value == Records(disk.segs)
      ensures GoodStore(State()) ==> r.Ok?
    {
      hide SegSamples, KeysOf, Distinct, InfoOf;
      var out, i := [], 0;
      assert Records(disk.segs[..0]) == [];
      while i < |disk.segs|
        invariant i <= |disk.segs| && out == Records(disk.segs[..i])
      {
        if GoodStore(State()) {
          GoodReads(State(), i);
        }
        var read := ReadSegment(disk.segs[i], false);
        if read.Err? {
          return Err(read.error);
        }
        ReadIsFaithful(disk.segs[i], false);
        assert disk.segs[..i + 1][..i] == disk.segs[..i];
        out := out + read.value.samples;
        i := i + 1;
      }
      assert disk.segs[..i] == disk.segs;
      r := Ok(out);
    }
  }

  lemma {:induction false} TakeOneMore<T>(xs: seq<T>, i: nat, rest: seq<T>)
    requires i < |xs|
    ensures xs[..i] + ([xs[i]] + rest) == xs[..i + 1] + rest
  {
  }

  lemma {:induction false} NothingRead(segs: seq<SegFile>, known: set<Key>)
    ensures ReadSegments(segs, 0) == Ok([]) && Files([]) == [] && Infos([]) == []
    ensures Missing(known, Records([])) == [] && Elements<Key>([]) == {}
  {
  }

  lemma {:induction false} NothingNoted(number: nat)
    ensures InfoOf(number, []) == EmptyInfo(number)
  {
  }

  lemma {:induction false} ReadThen(segs: seq<SegFile>, i: nat)
    requires i < |segs| && ReadSegments(segs, i).Ok? && ReadSegment(segs[i], i + 1 == |segs|).Ok?
    ensures ReadSegments(segs, i + 1)
         == Ok(ReadSegments(segs, i).value + [ReadSegment(segs[i], i + 1 == |segs|).value])
  {
    hide ReadSegment;
  }
}
