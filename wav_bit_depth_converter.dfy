/**
 * The engine of the WAV bit-depth converter window
 * (wav_bit_depth_converter.py): input validation, flat or recursive `.wav`
 * discovery, the subtype to bit-depth classifier, the choice of output
 * subtype, the 32-bit filter, the per-target output paths, the conversion
 * loop with its progress counter, and the re-entry guard of the start
 * button. `soundfile` is represented by what it answers: the subtype
 * `sf.info` reports (or none when the file cannot be read) and whether a
 * read or a write succeeds.
 */
module WavBitDepth {
  import opened Wrappers
  import opened PyStr
  import opened PyPath
  import opened Scan

  // ---------------------------------------------------------------------
  // Validation

  /** The three error dialogs of validate_inputs, in the order it checks. */
  datatype InputError = NoFolder | FolderMissing | NoTarget

  /** validate_inputs, with `folderExists` the answer of `os.path.exists`
      for the folder: the folder must be set, must exist, and at least one
      target must be chosen; the first check that fails is reported. */
  function ValidateInputs(folder: string, folderExists: bool, to24: bool, to16: bool): (r: Option<InputError>)
    ensures r.None? <==> folder != "" && folderExists && (to24 || to16)
    ensures r == Some(NoFolder) <==> folder == ""
    ensures r == Some(FolderMissing) <==> folder != "" && !folderExists
    ensures r == Some(NoTarget) <==> folder != "" && folderExists && !to24 && !to16
  {
    if folder == "" then Some(NoFolder)
    else if !folderExists then Some(FolderMissing)
    else if !to24 && !to16 then Some(NoTarget)
    else None
  }

  // ---------------------------------------------------------------------
  // Classifying a file

  /** get_bit_depth as written: the subtype `sf.info` reports is checked in
      order, the first match wins, anything else is 0, and a file that
      cannot be read (`None`) is 0 as well. */
  function BitDepthAsWritten(subtype: Option<string>): (bits: int)
    ensures bits in {0, 8, 16, 24, 32}
    ensures subtype.None? ==> bits == 0
    ensures bits == 32 <==> subtype.Some? && (Contains(subtype.value, "PCM_32") || Contains(subtype.value, "FLOAT"))
    ensures bits == 24 <==> subtype.Some? && !Contains(subtype.value, "PCM_32") && !Contains(subtype.value, "FLOAT")
                            && Contains(subtype.value, "PCM_24")
    ensures bits == 16 <==> subtype.Some? && !Contains(subtype.value, "PCM_32") && !Contains(subtype.value, "FLOAT")
                            && !Contains(subtype.value, "PCM_24") && Contains(subtype.value, "PCM_16")
    ensures bits == 8 <==> subtype.Some? && !Contains(subtype.value, "PCM_32") && !Contains(subtype.value, "FLOAT")
                           && !Contains(subtype.value, "PCM_24") && !Contains(subtype.value, "PCM_16")
                           && Contains(subtype.value, "PCM_8")
  {
    match subtype
    case None => 0
    case Some(s) =>
      if Contains(s, "PCM_32") || Contains(s, "FLOAT") then 32
      else if Contains(s, "PCM_24") then 24
      else if Contains(s, "PCM_16") then 16
      else if Contains(s, "PCM_8") then 8
      else 0
  }

  /** get_bit_depth as intended: as written, except that the two 8-bit
      subtypes `soundfile` reports, `PCM_S8` and `PCM_U8`, are recognised
      as 8 bits. */
  function BitDepth(subtype: Option<string>): (bits: int)
    ensures bits in {0, 8, 16, 24, 32}
    ensures bits == 32 <==> subtype.Some? && (Contains(subtype.value, "PCM_32") || Contains(subtype.value, "FLOAT"))
    ensures subtype.None? ==> bits == 0
    ensures bits == 32 <==> BitDepthAsWritten(subtype) == 32
    ensures bits == 24 <==> BitDepthAsWritten(subtype) == 24
    ensures bits == 16 <==> BitDepthAsWritten(subtype) == 16
    ensures bits != BitDepthAsWritten(subtype) ==> bits == 8 && BitDepthAsWritten(subtype) == 0
    ensures subtype.Some? && BitDepthAsWritten(subtype) == 0 ==>
      (Contains(subtype.value, "PCM_S8") || Contains(subtype.value, "PCM_U8") ==> bits == 8)
  {
    match subtype
    case None => 0
    case Some(s) =>
      if Contains(s, "PCM_32") || Contains(s, "FLOAT") then 32
      else if Contains(s, "PCM_24") then 24
      else if Contains(s, "PCM_16") then 16
      else if Contains(s, "PCM_8") || Contains(s, "PCM_S8") || Contains(s, "PCM_U8") then 8
      else 0
  }

  /** A text longer than `s` is not in `s`. */
  lemma {:induction false} NotContainsShort(s: string, sub: string)
    requires |s| < |sub|
    ensures !Contains(s, sub)
    decreases |s|
  {
    if |s| > 0 {
      NotContainsShort(s[1..], sub);
    }
  }

  /** `PCM_8` is not in a six-character subtype whose fifth character is
      not `8` and whose second is not `P`. */
  lemma PcmEightMissed(s: string)
    requires |s| == 6 && s[4] != '8' && s[1] != 'P'
    ensures !Contains(s, "PCM_8")
  {
    var sub := "PCM_8";
    assert !StartsWith(s, sub) by { assert s[..5][4] != sub[4]; }
    assert !StartsWith(s[1..], sub) by { assert s[1..][..5][0] != sub[0]; }
    NotContainsShort(s[2..], sub);
    assert s[1..][1..] == s[2..];
  }

  /** The 8-bit subtypes `soundfile` reports, `PCM_S8` and `PCM_U8`, are
      classified as unknown by get_bit_depth as written, and as 8 bits by
      the intended classifier. */
  lemma EightBitMissed()
    ensures BitDepthAsWritten(Some("PCM_S8")) == 0 && BitDepth(Some("PCM_S8")) == 8
    ensures BitDepthAsWritten(Some("PCM_U8")) == 0 && BitDepth(Some("PCM_U8")) == 8
  {
    var s8, u8 := "PCM_S8", "PCM_U8";
    assert StartsWith(s8, "PCM_S8") && StartsWith(u8, "PCM_U8");
    NoSepNoContains(s8, "PCM_32", '3');
    NoSepNoContains(s8, "FLOAT", 'F');
    NoSepNoContains(s8, "PCM_24", '2');
    NoSepNoContains(s8, "PCM_16", '1');
    PcmEightMissed(s8);
    NoSepNoContains(u8, "PCM_32", '3');
    NoSepNoContains(u8, "FLOAT", 'F');
    NoSepNoContains(u8, "PCM_24", '2');
    NoSepNoContains(u8, "PCM_16", '1');
    PcmEightMissed(u8);
  }

  /** The output subtype convert_file asks `sf.write` for: 24 bits is
      `PCM_24`, 16 bits is `PCM_16`, and no other target has one. */
  function TargetSubtype(targetBits: int): (subtype: Option<string>)
    ensures subtype.Some? <==> targetBits == 24 || targetBits == 16
  {
    if targetBits == 24 then Some("PCM_24")
    else if targetBits == 16 then Some("PCM_16")
    else None
  }

  /** A file written with the subtype chosen for a target is classified
      back as that target. */
  lemma TargetSubtypeRoundTrip(targetBits: int)
    requires TargetSubtype(targetBits).Some?
    ensures BitDepthAsWritten(TargetSubtype(targetBits)) == targetBits
  {
    var s := TargetSubtype(targetBits).value;
    assert StartsWith(s, s);
    NoSepNoContains(s, "PCM_32", '3');
    NoSepNoContains(s, "FLOAT", 'F');
    if targetBits == 16 {
      NoSepNoContains(s, "PCM_24", '2');
    }
  }

  /** What `sf.write` is asked to do: write `path` with `subtype`. */
  datatype WriteRequest = WriteRequest(path: string, subtype: string)

  /** convert_file, with `readOk` whether `sf.read` of the input succeeds
      and `writeOk` whether `sf.write` succeeds. The input is read first;
      a target other than 24 or 16 then fails without writing; otherwise
      the output is written with the target's subtype. The result is true
      exactly when that write succeeded. */
  function ConvertFile(outputPath: string, targetBits: int, readOk: bool, writeOk: bool)
    : (r: (bool, Option<WriteRequest>))
    ensures r.1.Some? <==> readOk && (targetBits == 24 || targetBits == 16)
    ensures r.1.Some? ==> r.1.value == WriteRequest(outputPath, TargetSubtype(targetBits).value)
    ensures r.0 <==> r.1.Some? && writeOk
  {
    if !readOk then (false, None)
    else match TargetSubtype(targetBits)
      case None => (false, None)
      case Some(subtype) => (writeOk, Some(WriteRequest(outputPath, subtype)))
  }

  // ---------------------------------------------------------------------
  // Planning the conversions

  /** The files whose reported subtype get_bit_depth (as written)
      classifies as 32 bits, in order. */
  function Select32(files: seq<string>, info: string -> Option<string>): seq<string>
    decreases |files|
  {
    if files == [] then []
    else
      var n := |files| - 1;
      Select32(files[..n], info) + (if BitDepthAsWritten(info(files[n])) == 32 then [files[n]] else [])
  }

  /** The filter keeps exactly the 32-bit files. */
  lemma {:induction false} Select32Members(files: seq<string>, info: string -> Option<string>, f: string)
    ensures f in Select32(files, info) <==> f in files && BitDepthAsWritten(info(f)) == 32
    decreases |files|
  {
    if files != [] {
      var n := |files| - 1;
      Select32Members(files[..n], info, f);
      assert files == files[..n] + [files[n]];
    }
  }

  /** The filter keeps discovery order: filtering a concatenation filters
      each part. */
  lemma {:induction false} Select32Append(a: seq<string>, b: seq<string>, info: string -> Option<string>)
    ensures Select32(a + b, info) == Select32(a, info) + Select32(b, info)
    decreases |b|
  {
    if b == [] {
      assert a + b == a;
    } else {
      var n := |b| - 1;
      var last := if BitDepthAsWritten(info(b[n])) == 32 then [b[n]] else [];
      assert (a + b)[..|a| + n] == a + b[..n];
      assert (a + b)[|a| + n] == b[n];
      assert Select32(a + b, info) == Select32(a + b[..n], info) + last;
      assert Select32(b, info) == Select32(b[..n], info) + last;
      Select32Append(a, b[..n], info);
    }
  }

  /** One conversion: the input, the output path and the target depth. */
  datatype Job = Job(input: string, output: string, bits: int)

  /** `<directory of f>/<sub>/<basename of f>`. */
  function OutputPath(f: string, sub: string): string {
    Join(Join(DirName(f), sub), BaseName(f))
  }

  /** The conversions process_files runs for one file: 24 bits first when
      chosen, then 16 bits when chosen. */
  function JobsFor(f: string, to24: bool, to16: bool): (jobs: seq<Job>)
    ensures |jobs| == Targets(to24, to16)
  {
    (if to24 then [Job(f, OutputPath(f, "24bit"), 24)] else [])
    + (if to16 then [Job(f, OutputPath(f, "16bit"), 16)] else [])
  }

  /** The conversions of a whole run, file by file. */
  function Jobs(files: seq<string>, to24: bool, to16: bool): seq<Job>
    decreases |files|
  {
    if files == [] then []
    else Jobs(files[..|files| - 1], to24, to16) + JobsFor(files[|files| - 1], to24, to16)
  }

  /** One more file adds one more round of targets. */
  lemma MulSucc(n: nat, t: nat)
    ensures (n + 1) * t == n * t + t
  {
  }

  /** total_conversions: the number of files times the number of targets
      chosen. */
  function Total(n: nat, to24: bool, to16: bool): nat {
    n * Targets(to24, to16)
  }

  /** How many targets are chosen. */
  function Targets(to24: bool, to16: bool): nat {
    (if to24 then 1 else 0) + (if to16 then 1 else 0)
  }

  /** The jobs of one more file follow those of the files before it. */
  lemma JobsSnoc(files: seq<string>, i: nat, to24: bool, to16: bool)
    requires i < |files|
    ensures Jobs(files[..i + 1], to24, to16) == Jobs(files[..i], to24, to16) + JobsFor(files[i], to24, to16)
  {
    assert files[..i + 1][..i] == files[..i];
  }

  /** The run does one conversion per file and chosen target. */
  lemma {:induction false} JobsLength(files: seq<string>, to24: bool, to16: bool)
    ensures |Jobs(files, to24, to16)| == Total(|files|, to24, to16)
    decreases |files|
  {
    if files != [] {
      var n, t := |files| - 1, Targets(to24, to16);
      JobsLength(files[..n], to24, to16);
      assert |Jobs(files, to24, to16)| == |Jobs(files[..n], to24, to16)| + t;
      assert |files[..n]| == n && |files| == n + 1;
      MulSucc(n, t);
    }
  }

  /** A file's conversion to a target is in the run exactly when the file
      is and the target is chosen; in particular its 16-bit conversion is
      there whether or not a 24-bit one precedes it. */
  lemma {:induction false} JobsMembers(files: seq<string>, to24: bool, to16: bool, f: string)
    ensures Job(f, OutputPath(f, "24bit"), 24) in Jobs(files, to24, to16) <==> to24 && f in files
    ensures Job(f, OutputPath(f, "16bit"), 16) in Jobs(files, to24, to16) <==> to16 && f in files
    decreases |files|
  {
    if files != [] {
      var n := |files| - 1;
      JobsMembers(files[..n], to24, to16, f);
      assert files == files[..n] + [files[n]];
      assert Jobs(files, to24, to16) == Jobs(files[..n], to24, to16) + JobsFor(files[n], to24, to16);
    }
  }

  /** The output of a file with a name lies in the subdirectory `sub` of
      the file's own directory, under the file's name. */
  lemma OutputInSubfolder(f: string, sub: string)
    requires IsName(sub) && BaseName(f) != ""
    ensures DirName(OutputPath(f, sub)) == Join(DirName(f), sub)
    ensures BaseName(OutputPath(f, sub)) == BaseName(f)
  {
    var dir := Join(DirName(f), sub);
    assert dir[|dir| - 1] == sub[|sub| - 1];
    DirNameJoin(dir, BaseName(f));
    BaseNameJoin(dir, BaseName(f));
  }

  /** Each file is converted into the `24bit` or `16bit` subdirectory of
      its own directory under its own name, so the two outputs of one file
      never coincide. */
  lemma OutputsApart(f: string)
    ensures OutputPath(f, "24bit") != OutputPath(f, "16bit")
    ensures BaseName(f) != "" ==> BaseName(OutputPath(f, "24bit")) == BaseName(f)
    ensures BaseName(f) != "" ==> BaseName(OutputPath(f, "16bit")) == BaseName(f)
  {
    var d, n := DirName(f), BaseName(f);
    var a, b := Join(d, "24bit"), Join(d, "16bit");
    assert |a| == |b| && a[|a| - 5] == '2' && b[|b| - 5] == '1' by {
      assert EndsWith(a, "24bit") && EndsWith(b, "16bit");
    }
    var pa, pb := Join(a, n), Join(b, n);
    assert pa == a + "/" + n && pb == b + "/" + n;
    assert pa[|a| - 5] != pb[|a| - 5];
    if n != "" {
      BaseNameJoin(a, n);
      BaseNameJoin(b, n);
    }
  }

  /** The outcome of one conversion. */
  datatype Done = Done(job: Job, ok: bool)

  /** convert_file applied to a job, with `readable` and `writable` the
      outcomes of `sf.read` and `sf.write` on each path. */
  function Perform(job: Job, readable: string -> bool, writable: string -> bool): Done {
    Done(job, ConvertFile(job.output, job.bits, readable(job.input), writable(job.output)).0)
  }

  /** Every job performed, in order. */
  function PerformAll(jobs: seq<Job>, readable: string -> bool, writable: string -> bool): (done: seq<Done>)
    ensures |done| == |jobs|
    decreases |jobs|
  {
    if jobs == [] then []
    else
      var n := |jobs| - 1;
      PerformAll(jobs[..n], readable, writable) + [Perform(jobs[n], readable, writable)]
  }

  /** Performing two runs of jobs one after the other is performing them
      all. */
  lemma {:induction false} PerformAllAppend(a: seq<Job>, b: seq<Job>, readable: string -> bool, writable: string -> bool)
    ensures PerformAll(a + b, readable, writable) == PerformAll(a, readable, writable) + PerformAll(b, readable, writable)
    decreases |b|
  {
    if b == [] {
      assert a + b == a;
    } else {
      var n := |b| - 1;
      var last := [Perform(b[n], readable, writable)];
      assert (a + b)[..|a| + n] == a + b[..n];
      assert (a + b)[|a| + n] == b[n];
      assert PerformAll(a + b, readable, writable) == PerformAll(a + b[..n], readable, writable) + last;
      assert PerformAll(b, readable, writable) == PerformAll(b[..n], readable, writable) + last;
      PerformAllAppend(a, b[..n], readable, writable);
    }
  }

  /** A conversion's outcome depends on its own job only: a failed 24-bit
      conversion does not stop the 16-bit one, which is performed just the
      same. */
  lemma {:induction false} PerformAllAt(jobs: seq<Job>, readable: string -> bool, writable: string -> bool, k: nat)
    requires k < |jobs|
    ensures PerformAll(jobs, readable, writable)[k] == Perform(jobs[k], readable, writable)
    decreases |jobs|
  {
    var n := |jobs| - 1;
    if k < n {
      PerformAllAt(jobs[..n], readable, writable, k);
    }
  }

  // ---------------------------------------------------------------------
  // The window's state and its operations

  /** What process_files ends with: no `.wav` file, no 32-bit file, or the
      32-bit files, the conversions done and the progress counter with its
      maximum. */
  datatype Outcome =
    | NoWavFiles
    | No32BitFiles
    | Processed(files32: seq<string>, done: seq<Done>, progress: nat, total: nat)

  datatype StartAction = AlreadyProcessing | Rejected(error: InputError) | Started

  class WavConverter {
    var folderPath: string
    var includeSubdirs: bool
    var convertTo24: bool
    var convertTo16: bool
    /** Set while a run is going; guards the start button. */
    var isProcessing: bool

    constructor ()
      ensures folderPath == "" && !includeSubdirs && !convertTo24 && !convertTo16 && !isProcessing
    {
      folderPath := "";
      includeSubdirs := false;
      convertTo24 := false;
      convertTo16 := false;
      isProcessing := false;
    }

    /** find_wav_files. `walk` is what `os.walk` yields for the folder and
        `listing` what `os.listdir` returns for it: recursively, every file
        of the walk whose lower-cased name ends in `.wav`, in walk order;
        otherwise such names of the listing joined onto the folder, in
        listing order. */
    method FindWavFiles(folder: string, recursive: bool, walk: seq<WalkEntry>, listing: seq<string>)
      returns (wavFiles: seq<string>)
      ensures wavFiles == if recursive then WalkMatches(walk, ".wav") else Matches(folder, listing, ".wav")
    {
      wavFiles := [];
      if recursive {
        var i := 0;
        while i < |walk|
          invariant 0 <= i <= |walk|
          invariant wavFiles == WalkMatches(walk[..i], ".wav")
        {
          var root, files := walk[i].root, walk[i].files;
          ghost var before := wavFiles;
          var j := 0;
          while j < |files|
            invariant 0 <= j <= |files|
            invariant wavFiles == before + Matches(root, files[..j], ".wav")
          {
            if HasExt(files[j], ".wav") {
              wavFiles := wavFiles + [Join(root, files[j])];
            }
            assert files[..j + 1][..j] == files[..j];
            j := j + 1;
          }
          assert files[..j] == files;
          assert walk[..i + 1][..i] == walk[..i];
          i := i + 1;
        }
        assert walk[..i] == walk;
      } else {
        var j := 0;
        while j < |listing|
          invariant 0 <= j <= |listing|
          invariant wavFiles == Matches(folder, listing[..j], ".wav")
        {
          if HasExt(listing[j], ".wav") {
            wavFiles := wavFiles + [Join(folder, listing[j])];
          }
          assert listing[..j + 1][..j] == listing[..j];
          j := j + 1;
        }
        assert listing[..j] == listing;
      }
    }

    /** The filtering loop of process_files: the files whose reported
        subtype classifies as 32 bits, in discovery order. */
    method Filter32(wavFiles: seq<string>, info: string -> Option<string>) returns (files32: seq<string>)
      ensures files32 == Select32(wavFiles, info)
    {
      files32 := [];
      var i := 0;
      while i < |wavFiles|
        invariant 0 <= i <= |wavFiles|
        invariant files32 == Select32(wavFiles[..i], info)
      {
        var bitDepth := BitDepthAsWritten(info(wavFiles[i]));
        if bitDepth == 32 {
          files32 := files32 + [wavFiles[i]];
        }
        assert wavFiles[..i + 1][..i] == wavFiles[..i];
        i := i + 1;
      }
      assert wavFiles[..i] == wavFiles;
    }

    /** The body of the conversion loop of process_files for one file: the
        24-bit conversion when chosen and then the 16-bit one when chosen,
        whatever the outcome of the first, the counter going up once per
        conversion. */
    method ConvertOne(wavFile: string, to24: bool, to16: bool, readable: string -> bool, writable: string -> bool,
                      current: nat)
      returns (fileDone: seq<Done>, newCurrent: nat)
      ensures fileDone == PerformAll(JobsFor(wavFile, to24, to16), readable, writable)
      ensures newCurrent == current + |fileDone|
    {
      var fileName := BaseName(wavFile);
      var fileDir := DirName(wavFile);
      fileDone := [];
      newCurrent := current;
      if to24 {
        var outputPath := Join(Join(fileDir, "24bit"), fileName);
        var ok := ConvertFile(outputPath, 24, readable(wavFile), writable(outputPath)).0;
        fileDone := fileDone + [Done(Job(wavFile, outputPath, 24), ok)];
        newCurrent := newCurrent + 1;
      }
      if to16 {
        var outputPath := Join(Join(fileDir, "16bit"), fileName);
        var ok := ConvertFile(outputPath, 16, readable(wavFile), writable(outputPath)).0;
        fileDone := fileDone + [Done(Job(wavFile, outputPath, 16), ok)];
        newCurrent := newCurrent + 1;
      }
    }

    /** The conversion loop of process_files: every 32-bit file in turn,
        with the counter ending at the number of files times the number of
        targets. */
    method ConvertAll(files32: seq<string>, to24: bool, to16: bool, readable: string -> bool, writable: string -> bool)
      returns (done: seq<Done>, current: nat)
      ensures done == PerformAll(Jobs(files32, to24, to16), readable, writable)
      ensures current == |done| == Total(|files32|, to24, to16)
    {
      done := [];
      current := 0;
      var i := 0;
      while i < |files32|
        invariant 0 <= i <= |files32|
        invariant done == PerformAll(Jobs(files32[..i], to24, to16), readable, writable)
        invariant current == |done|
      {
        var fileDone;
        fileDone, current := ConvertOne(files32[i], to24, to16, readable, writable, current);
        JobsSnoc(files32, i, to24, to16);
        PerformAllAppend(Jobs(files32[..i], to24, to16), JobsFor(files32[i], to24, to16), readable, writable);
        done := done + fileDone;
        i := i + 1;
      }
      assert files32[..i] == files32;
      JobsLength(files32, to24, to16);
    }

    /** process_files. `walk`/`listing` are the folder's contents, `info`
        the subtype `sf.info` reports for each file (none when it cannot
        be read), `readable`/`writable` the outcomes of `sf.read` and
        `sf.write`. The run ends with `isProcessing` cleared, whatever
        happened. */
    method ProcessFiles(walk: seq<WalkEntry>, listing: seq<string>, info: string -> Option<string>,
                        readable: string -> bool, writable: string -> bool) returns (outcome: Outcome)
      modifies this`isProcessing
      ensures !isProcessing
      ensures var wavFiles := if includeSubdirs then WalkMatches(walk, ".wav") else Matches(folderPath, listing, ".wav");
        var files32 := Select32(wavFiles, info);
        && (wavFiles == [] ==> outcome == NoWavFiles)
        && (wavFiles != [] && files32 == [] ==> outcome == No32BitFiles)
        && (files32 != [] ==>
              outcome == Processed(files32, PerformAll(Jobs(files32, convertTo24, convertTo16), readable, writable),
                                   Total(|files32|, convertTo24, convertTo16),
                                   Total(|files32|, convertTo24, convertTo16)))
    {
      var folder := folderPath;
      var wavFiles := FindWavFiles(folder, includeSubdirs, walk, listing);
      if wavFiles == [] {
        isProcessing := false;
        return NoWavFiles;
      }
      var files32 := Filter32(wavFiles, info);
      if files32 == [] {
        isProcessing := false;
        return No32BitFiles;
      }
      var totalConversions := Total(|files32|, convertTo24, convertTo16);
      var done, currentConversion := ConvertAll(files32, convertTo24, convertTo16, readable, writable);
      outcome := Processed(files32, done, currentConversion, totalConversions);
      isProcessing := false;
    }

    /** start_conversion: nothing while a run is going; otherwise the
        inputs are validated and only when they pass is `isProcessing` set
        and the run started. `folderExists` is the answer of
        `os.path.exists` for the folder. */
    method StartConversion(folderExists: bool) returns (action: StartAction)
      modifies this`isProcessing
      ensures old(isProcessing) ==> action == AlreadyProcessing && isProcessing
      ensures !old(isProcessing) ==>
        match ValidateInputs(folderPath, folderExists, convertTo24, convertTo16)
        case Some(error) => action == Rejected(error) && !isProcessing
        case None => action == Started && isProcessing
    {
      if isProcessing {
        return AlreadyProcessing;
      }
      var error := ValidateInputs(folderPath, folderExists, convertTo24, convertTo16);
      if error.Some? {
        return Rejected(error.value);
      }
      isProcessing := true;
      action := Started;
    }
  }
}
