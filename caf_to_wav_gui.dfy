/**
 * The batch engine of the CAF to WAV converter window (caf_to_wav_gui.py):
 * the recursive `.caf` scan, the destination planner, the pre-flight
 * checks, the ffmpeg command and the reading of its outcome, the main
 * loop with its three counters and its cancel flag, and the start/cancel
 * button. Widgets, log text and message boxes are not modelled.
 */
module CafToWavGui {
  import opened Wrappers
  import opened PyStr
  import opened PyPath
  import opened Scan
  import opened Ffmpeg

  const SilenceRemove := "silenceremove=start_periods=1:start_duration=0:start_threshold=-50dB"
  const SkippedExists := "skipped (already exists)"
  const NotAvailable := "error: FFmpeg not available"
  const UnknownError := "Unknown error"

  /** `(wav_path, status, info)` as the conversion helpers return it. */
  datatype Reply = Reply(wavPath: Option<string>, status: string, info: string)

  /** The three counters of the main loop. */
  datatype Tally = Converted | Skipped | Errored

  /** How the main loop files a status: `== "success"`, then
      `startswith("skipped")`, then everything else. */
  function Kind(status: string): Tally {
    if status == "success" then Converted
    else if StartsWith(status, "skipped") then Skipped
    else Errored
  }

  /** A Python string is true when it is present and non-empty. */
  predicate Truthy(s: Option<string>) {
    s.Some? && s.value != ""
  }

  // ---------------------------------------------------------------------
  // The ffmpeg command

  function Codec(bitDepth: string): string {
    if bitDepth == "24" then "pcm_s24le" else "pcm_f32le"
  }

  /** The argument list convert_with_ffmpeg builds. */
  function FfmpegCommand(cafPath: string, wavPath: string, bitDepth: string, trim: bool, overwrite: bool): seq<string> {
    var filters := if trim then [SilenceRemove] else [];
    ["ffmpeg", "-i", cafPath]
    + (if filters != [] then ["-af", JoinWith(filters, ",")] else [])
    + ["-acodec", Codec(bitDepth), if overwrite then "-y" else "-n", wavPath]
  }

  /** For every destination, the command starts `ffmpeg -i <caf>`, has
      the filter option right after it exactly when trimming is on, and ends
      with the codec option, the overwrite flag and the destination. */
  lemma CommandShape(cafPath: string, wavPath: string, bitDepth: string, trim: bool, overwrite: bool)
    ensures var cmd := FfmpegCommand(cafPath, wavPath, bitDepth, trim, overwrite);
      && |cmd| == (if trim then 9 else 7)
      && cmd[..3] == ["ffmpeg", "-i", cafPath]
      && (cmd[3] == "-af" <==> trim)
      && (trim ==> cmd[4] == SilenceRemove)
      && cmd[|cmd| - 4..] == ["-acodec", Codec(bitDepth), if overwrite then "-y" else "-n", wavPath]
  {
    if trim {
      assert JoinWith([SilenceRemove], ",") == SilenceRemove;
    }
  }

  /** What ffmpeg is asked to do: read the CAF file, apply the silence
      filter exactly when trimming is on, encode as 24-bit integer PCM for
      bit depth "24" and as 32-bit float PCM otherwise, overwrite exactly
      when the option is on, and write the planned destination. The command
      starts `ffmpeg -i <caf>` and ends with the destination. */
  lemma CommandMeaning(cafPath: string, wavPath: string, bitDepth: string, trim: bool, overwrite: bool)
    requires Positional(wavPath)
    ensures var cmd := FfmpegCommand(cafPath, wavPath, bitDepth, trim, overwrite);
      && cmd[..3] == ["ffmpeg", "-i", cafPath]
      && cmd[|cmd| - 1] == wavPath
      && (cmd[3] == "-af" <==> trim)
      && Read(cmd) == Some(Invocation(
           Some(cafPath),
           if trim then Some(SilenceRemove) else None,
           Some(if bitDepth == "24" then "pcm_s24le" else "pcm_f32le"),
           Some(overwrite),
           Some(wavPath)))
  {
    var flag := if overwrite then "-y" else "-n";
    var tail := ["-acodec", Codec(bitDepth), flag, wavPath];
    var acc := NoOptions.(input := Some(cafPath));
    var cmd := FfmpegCommand(cafPath, wavPath, bitDepth, trim, overwrite);
    CommandShape(cafPath, wavPath, bitDepth, trim, overwrite);
    if trim {
      assert JoinWith([SilenceRemove], ",") == SilenceRemove;
      assert cmd[1..] == ["-i", cafPath] + (["-af", SilenceRemove] + tail);
      ReadValueStep("-i", cafPath, ["-af", SilenceRemove] + tail, NoOptions);
      ReadValueStep("-af", SilenceRemove, tail, acc);
      acc := acc.(filter := Some(SilenceRemove));
    } else {
      assert cmd[1..] == ["-i", cafPath] + tail;
      ReadValueStep("-i", cafPath, tail, NoOptions);
    }
    ReadValueStep("-acodec", Codec(bitDepth), [flag, wavPath], acc);
    acc := acc.(codec := Some(Codec(bitDepth)));
    ReadFlagStep(flag, [wavPath], acc);
    ReadOutputStep(wavPath, acc.(overwrite := Some(overwrite)));
  }

  // ---------------------------------------------------------------------
  // Reading ffmpeg's outcome

  /** The first line that mentions `Duration:`, stripped, or "". */
  function FirstDuration(lines: seq<string>): string
    decreases |lines|
  {
    if lines == [] then ""
    else if Contains(lines[0], "Duration:") then Strip(lines[0])
    else FirstDuration(lines[1..])
  }

  /** The info string of a successful run. The guard on the whole of
      stderr never changes the result: a line mentioning `Duration:` is a
      piece of stderr, so stderr mentions it too. */
  function DurationInfo(stderr: string): (info: string)
    ensures info == FirstDuration(Split(stderr, '\n'))
  {
    if Contains(stderr, "Duration:") then FirstDuration(Split(stderr, '\n'))
    else
      NoDurationLine(stderr);
      ""
  }

  /** Without `Duration:` anywhere in stderr, no line of it mentions it. */
  lemma NoDurationLine(stderr: string)
    requires !Contains(stderr, "Duration:")
    ensures FirstDuration(Split(stderr, '\n')) == ""
  {
    var lines := Split(stderr, '\n');
    forall j | 0 <= j < |lines| ensures !Contains(lines[j], "Duration:") {
      if Contains(lines[j], "Duration:") {
        SplitPieceContains(stderr, '\n', j, "Duration:");
      }
    }
    FirstDurationNone(lines);
  }

  /** The info is the stripped first line mentioning `Duration:`. */
  lemma {:induction false} FirstDurationAt(lines: seq<string>, k: nat)
    requires k < |lines| && Contains(lines[k], "Duration:")
    requires forall j :: 0 <= j < k ==> !Contains(lines[j], "Duration:")
    ensures FirstDuration(lines) == Strip(lines[k])
    decreases k
  {
    if k > 0 {
      assert !Contains(lines[0], "Duration:");
      FirstDurationAt(lines[1..], k - 1);
    }
  }

  /** When no line mentions `Duration:` the info is empty. */
  lemma {:induction false} FirstDurationNone(lines: seq<string>)
    requires forall j :: 0 <= j < |lines| ==> !Contains(lines[j], "Duration:")
    ensures FirstDuration(lines) == ""
    decreases |lines|
  {
    if lines != [] {
      assert !Contains(lines[0], "Duration:");
      FirstDurationNone(lines[1..]);
    }
  }

  /** The last three pieces of `stderr.split('\n')` (all of them if fewer). */
  function ErrorTail(stderr: string): (tail: seq<string>)
    ensures 0 < |tail| <= 3
    ensures tail[|tail| - 1] == Split(stderr, '\n')[|Split(stderr, '\n')| - 1]
    ensures var lines := Split(stderr, '\n');
      && |tail| == (if |lines| > 3 then 3 else |lines|)
      && tail == lines[|lines| - |tail|..]
  {
    var lines := Split(stderr, '\n');
    lines[if |lines| > 3 then |lines| - 3 else 0..]
  }

  /** The tail is the end of stderr: its lines, joined back with newlines,
      are a suffix of stderr, and with fewer than three of them they are the
      whole of stderr. */
  lemma ErrorTailEndsStderr(stderr: string)
    ensures EndsWith(stderr, JoinWith(ErrorTail(stderr), "\n"))
    ensures |ErrorTail(stderr)| < 3 ==> JoinWith(ErrorTail(stderr), "\n") == stderr
  {
    var lines := Split(stderr, '\n');
    var tail := ErrorTail(stderr);
    assert tail == lines[|lines| - |tail|..];
    SplitTailEnds(stderr, '\n', |lines| - |tail|);
    if |tail| < 3 {
      SplitJoinRoundTrip(stderr, '\n');
      assert tail == lines;
    }
  }

  /** Each line of the tail is a whole line: it holds no newline. */
  lemma ErrorTailWholeLines(stderr: string)
    ensures forall k :: 0 <= k < |ErrorTail(stderr)| ==> '\n' !in ErrorTail(stderr)[k]
  {
    var lines := Split(stderr, '\n');
    var tail := ErrorTail(stderr);
    SplitJoinRoundTrip(stderr, '\n');
    forall k | 0 <= k < |tail| ensures '\n' !in tail[k] {
      assert tail[k] == lines[|lines| - |tail| + k];
    }
  }

  /** Iterating over a string yields its characters as one-letter strings. */
  function Letters(s: string): seq<string> {
    seq(|s|, i requires 0 <= i < |s| => [s[i]])
  }

  /** The failure message as the source writes it: with an empty stderr the
      fallback is the string "Unknown error", and `' '.join` over a string
      joins its letters. */
  function FfmpegErrorAsWritten(stderr: string): string {
    "FFmpeg error: " + JoinWith(if stderr != "" then ErrorTail(stderr) else Letters(UnknownError), " ")
  }

  /** The failure message as intended: the last lines of stderr joined by
      spaces, or "Unknown error" verbatim when stderr is empty. */
  function FfmpegError(stderr: string): string {
    "FFmpeg error: " + (if stderr != "" then JoinWith(ErrorTail(stderr), " ") else UnknownError)
  }

  /** Joining the letters of a non-empty string with spaces puts each
      letter at an even position and a space at every odd one. */
  lemma {:induction false} JoinLetters(s: string)
    requires s != ""
    ensures var j := JoinWith(Letters(s), " ");
      && |j| == 2 * |s| - 1
      && forall i :: 0 <= i < |j| ==> j[i] == if i % 2 == 0 then s[i / 2] else ' '
    decreases |s|
  {
    if |s| > 1 {
      var t := s[1..];
      JoinLetters(t);
      assert Letters(s)[1..] == Letters(t);
      var jt := JoinWith(Letters(t), " ");
      var j := JoinWith(Letters(s), " ");
      assert j == [s[0]] + " " + jt;
      forall i | 0 <= i < |j| ensures j[i] == if i % 2 == 0 then s[i / 2] else ' ' {
        if i >= 2 {
          assert j[i] == jt[i - 2];
        }
      }
    }
  }

  /** With a non-zero exit and nothing on stderr the message as written
      comes out letter-spaced ("U n k n o w n   e r r o r"), 39 characters
      instead of the intended 27. */
  lemma EmptyStderrSpelledOut()
    ensures var m := FfmpegErrorAsWritten("");
      && |m| == 39 && m[..14] == "FFmpeg error: " && m[14..17] == "U n"
      && forall i :: 14 <= i < |m| ==> m[i] == if (i - 14) % 2 == 0 then UnknownError[(i - 14) / 2] else ' '
    ensures FfmpegErrorAsWritten("") != FfmpegError("")
  {
    JoinLetters(UnknownError);
    var j := JoinWith(Letters(UnknownError), " ");
    var m := FfmpegErrorAsWritten("");
    assert m == "FFmpeg error: " + j;
    assert j[0] == 'U' && j[1] == ' ' && j[2] == 'n';
    forall i | 14 <= i < |m| ensures m[i] == if (i - 14) % 2 == 0 then UnknownError[(i - 14) / 2] else ' ' {
      assert m[i] == j[i - 14];
    }
    assert |FfmpegError("")| == 27;
  }

  /** The corrected message is an error, carries the fallback text verbatim
      when stderr is empty, and otherwise reports the last three lines of
      stderr (all of them if fewer) joined by spaces. */
  lemma FfmpegErrorReports(stderr: string)
    ensures Kind(FfmpegError(stderr)) == Errored
    ensures stderr == "" ==> FfmpegError(stderr) == "FFmpeg error: Unknown error"
    ensures stderr != "" ==>
      var lines := Split(stderr, '\n'); EndsWith(FfmpegError(stderr), lines[|lines| - 1])
    ensures stderr != "" ==>
      var lines := Split(stderr, '\n'); var n := if |lines| > 3 then 3 else |lines|;
      FfmpegError(stderr) == "FFmpeg error: " + JoinWith(lines[|lines| - n..], " ")
  {
    var detail := if stderr != "" then JoinWith(ErrorTail(stderr), " ") else UnknownError;
    var msg := "FFmpeg error: " + detail;
    assert FfmpegError(stderr) == msg;
    assert msg[0] == 'F';
    assert !StartsWith(msg, "skipped") by {
      if |msg| >= 7 { assert msg[..7][0] == 'F'; }
    }
    if stderr != "" {
      JoinEndsWithLast(ErrorTail(stderr), " ");
      EndsWithAppend("FFmpeg error: ", detail, Split(stderr, '\n')[|Split(stderr, '\n')| - 1]);
    }
  }

  /** The message as written is an error, and with a non-empty stderr it
      is the intended one, reporting the last three lines of stderr joined
      by spaces; only an empty stderr tells the two apart
      (EmptyStderrSpelledOut). */
  lemma FfmpegErrorAsWrittenReports(stderr: string)
    ensures Kind(FfmpegErrorAsWritten(stderr)) == Errored
    ensures stderr != "" ==> FfmpegErrorAsWritten(stderr) == FfmpegError(stderr)
    ensures stderr != "" ==>
      var lines := Split(stderr, '\n'); EndsWith(FfmpegErrorAsWritten(stderr), lines[|lines| - 1])
    ensures stderr != "" ==>
      var lines := Split(stderr, '\n'); var n := if |lines| > 3 then 3 else |lines|;
      FfmpegErrorAsWritten(stderr) == "FFmpeg error: " + JoinWith(lines[|lines| - n..], " ")
  {
    var msg := FfmpegErrorAsWritten(stderr);
    assert msg[0] == 'F';
    assert !StartsWith(msg, "skipped") by {
      if |msg| >= 7 { assert msg[..7][0] == 'F'; }
    }
    if stderr != "" {
      FfmpegErrorReports(stderr);
    }
  }

  /** convert_with_ffmpeg's reading of a run: exit 0 is a success with the
      duration line as info; a failure whose stderr says "already exists"
      is a skip; any other failure, or an exception, is an error, whose
      message is the one the code writes (FfmpegErrorAsWritten). Only a
      success returns the destination. */
  function RunReply(run: Run, wavPath: string): (r: Reply)
    ensures Kind(r.status) == Converted <==> run.Exited? && run.code == 0
    ensures Kind(r.status) == Skipped <==>
      run.Exited? && run.code != 0 && Contains(run.stderr, "already exists")
    ensures r.wavPath == if Kind(r.status) == Converted then Some(wavPath) else None
    ensures Kind(r.status) != Converted ==> r.info == ""
    ensures run.Exited? && run.code == 0 ==> r.info == FirstDuration(Split(run.stderr, '\n'))
    ensures run.Raised? ==> r.status == "Exception: " + run.message
    ensures run.Exited? && run.code != 0 && !Contains(run.stderr, "already exists") ==>
      r.status == FfmpegErrorAsWritten(run.stderr)
  {
    match run
    case Raised(message) =>
      assert ("Exception: " + message)[0] == 'E';
      Reply(None, "Exception: " + message, "")
    case Exited(code, stderr) =>
      if code == 0 then Reply(Some(wavPath), "success", DurationInfo(stderr))
      else if Contains(stderr, "already exists") then Reply(None, SkippedExists, "")
      else
        assert FfmpegErrorAsWritten(stderr)[0] == 'F';
        Reply(None, FfmpegErrorAsWritten(stderr), "")
  }

  // ---------------------------------------------------------------------
  // Planning the destination

  /** The destination of one CAF file: with an output directory, the path
      relative to the source directory, extension swapped for `.wav`, under
      the output directory; without one, beside the source. */
  function PlanDestination(cafPath: string, sourceRoot: string, outputBase: Option<string>): (dest: string)
    requires Truthy(outputBase) ==> Under(cafPath, sourceRoot)
    ensures EndsWith(dest, ".wav")
  {
    var rel := if Truthy(outputBase) then RelPath(cafPath, sourceRoot) else cafPath;
    var wavName := SplitExt(rel).0 + ".wav";
    var dest := if Truthy(outputBase) then Join(outputBase.value, wavName) else wavName;
    assert EndsWith(wavName, ".wav") by {
      assert wavName[|wavName| - 4..] == ".wav";
    }
    EndsWithTrans(dest, wavName, ".wav");
    dest
  }

  /** A planned destination is never read by ffmpeg as an option, as long
      as the output directory (or, without one, the source path) does not
      start with a dash; a path the walk finds below a source directory
      starts as that directory does. */
  lemma DestinationPositional(cafPath: string, sourceRoot: string, outputBase: Option<string>)
    requires Truthy(outputBase) ==> Under(cafPath, sourceRoot) && NotDashed(outputBase.value)
    requires !Truthy(outputBase) ==> NotDashed(cafPath)
    ensures Positional(PlanDestination(cafPath, sourceRoot, outputBase))
  {
    if Truthy(outputBase) {
      var rel := RelPath(cafPath, sourceRoot);
      var wavName := SplitExt(rel).0 + ".wav";
      assert PlanDestination(cafPath, sourceRoot, outputBase) == Join(outputBase.value, wavName);
    } else if cafPath != [] {
      SplitExtStem(cafPath);
      assert PlanDestination(cafPath, sourceRoot, outputBase) == SplitExt(cafPath).0 + ".wav";
    }
  }

  /** With an output directory the destination mirrors the source tree: it
      lies below the output directory, at the source's relative path with
      the extension replaced by `.wav`. */
  lemma PlanMirrors(cafPath: string, sourceRoot: string, outputBase: string)
    requires outputBase != "" && Under(cafPath, sourceRoot)
    ensures var dest := PlanDestination(cafPath, sourceRoot, Some(outputBase));
      && Under(dest, outputBase)
      && RelPath(dest, outputBase) == SplitExt(RelPath(cafPath, sourceRoot)).0 + ".wav"
  {
    var rel := RelPath(cafPath, sourceRoot);
    SplitExtStem(rel);
    RelPathJoin(outputBase, SplitExt(rel).0 + ".wav");
  }

  /** Without an output directory, a file `<stem>.caf` (any letter case,
      stem not only dots) is converted to `<stem>.wav` in the same place. */
  lemma PlanBesideSource(root: string, name: string)
    requires IsName(name) && HasExt(name, ".caf")
    requires exists k :: 0 <= k < |name| - 4 && name[k] != '.'
    ensures var cafPath := Join(root, name);
      PlanDestination(cafPath, root, None) == cafPath[..|cafPath| - 4] + ".wav"
  {
    var low := Lower(name);
    assert low[|low| - 4..] == ".caf";
    assert low[|name| - 4] == '.' && name[|name| - 4] == '.';
    forall k | |name| - 3 <= k < |name| ensures name[k] != '.' {
      assert low[k] != '.';
    }
    SplitExtOfName(root, name, 3);
  }

  /** Two files plan to different destinations whenever their paths with
      the extension removed differ (relative paths, when an output
      directory is set). The converse fails in general: see
      CaseVariantsCollide. */
  lemma DistinctStemsDistinctDestinations(c1: string, c2: string, sourceRoot: string, outputBase: Option<string>)
    requires Truthy(outputBase) ==> Under(c1, sourceRoot) && Under(c2, sourceRoot)
    requires Truthy(outputBase) ==>
      SplitExt(RelPath(c1, sourceRoot)).0 != SplitExt(RelPath(c2, sourceRoot)).0
    requires !Truthy(outputBase) ==> SplitExt(c1).0 != SplitExt(c2).0
    ensures PlanDestination(c1, sourceRoot, outputBase) != PlanDestination(c2, sourceRoot, outputBase)
  {
    if PlanDestination(c1, sourceRoot, outputBase) == PlanDestination(c2, sourceRoot, outputBase) {
      var s1, s2;
      if Truthy(outputBase) {
        var r1, r2 := RelPath(c1, sourceRoot), RelPath(c2, sourceRoot);
        s1, s2 := SplitExt(r1).0, SplitExt(r2).0;
        SplitExtStem(r1);
        SplitExtStem(r2);
        JoinInjective(outputBase.value, s1 + ".wav", s2 + ".wav");
      } else {
        s1, s2 := SplitExt(c1).0, SplitExt(c2).0;
      }
      StripWav(s1, s2);
    }
  }

  lemma StripWav(s1: string, s2: string)
    requires s1 + ".wav" == s2 + ".wav"
    ensures s1 == s2
  {
    assert s1 == (s1 + ".wav")[..|s1|];
  }

  /** `<stem>.caf` and `<stem>.CAF` in one directory both pass the scan and
      both plan to `<stem>.wav` in that directory: destinations are not
      unique in general. */
  lemma CaseVariantsCollide(dir: string, stem: string)
    requires stem != [] && '/' !in stem && '.' !in stem
    ensures HasExt(stem + ".caf", ".caf") && HasExt(stem + ".CAF", ".caf")
    ensures PlanDestination(Join(dir, stem + ".caf"), dir, None) == Join(dir, stem) + ".wav"
    ensures PlanDestination(Join(dir, stem + ".CAF"), dir, None) == Join(dir, stem) + ".wav"
  {
    LowerAppend(stem, ".caf");
    LowerAppend(stem, ".CAF");
    assert Lower(".caf") == ".caf" == Lower(".CAF");
    EndsWithAppend(Lower(stem), ".caf", ".caf");
    PlanOfStem(dir, stem, ".caf");
    PlanOfStem(dir, stem, ".CAF");
  }

  /** Lower-casing works character by character. */
  lemma LowerAppend(s: string, t: string)
    ensures Lower(s + t) == Lower(s) + Lower(t)
  {
    assert forall i :: 0 <= i < |s + t| ==> Lower(s + t)[i] == (Lower(s) + Lower(t))[i];
  }

  /** Neither a dot nor a slash. */
  predicate Plain(c: char) {
    c != '.' && c != '/'
  }

  /** Without an output directory, `<stem><ext>` next to `dir` plans to
      `<stem>.wav` there, for a four-character extension. */
  lemma PlanOfStem(dir: string, stem: string, ext: string)
    requires stem != [] && '/' !in stem && '.' !in stem
    requires |ext| == 4 && ext[0] == '.' && Plain(ext[1]) && Plain(ext[2]) && Plain(ext[3])
    ensures PlanDestination(Join(dir, stem + ext), dir, None) == Join(dir, stem) + ".wav"
  {
    var n := stem + ext;
    StemExtName(stem, ext);
    SplitExtOfName(dir, n, 3);
    JoinAppend(dir, stem, ext);
    var p := Join(dir, n);
    assert p[..|p| - 4] == Join(dir, stem);
  }

  /** `<stem><ext>` is a file name whose extension is `ext`. */
  lemma StemExtName(stem: string, ext: string)
    requires stem != [] && '/' !in stem && '.' !in stem
    requires |ext| == 4 && ext[0] == '.' && Plain(ext[1]) && Plain(ext[2]) && Plain(ext[3])
    ensures var n := stem + ext;
      && IsName(n) && n[|n| - 4] == '.' && n[0] != '.'
      && forall k :: |n| - 3 <= k < |n| ==> n[k] != '.'
  {
    var n := stem + ext;
    assert n[0] == stem[0] && stem[0] in stem;
    forall k | |n| - 3 <= k < |n| ensures n[k] != '.' {
      assert n[k] == ext[k - |stem|];
    }
    forall c | c in ext ensures c != '/' {
      var i :| 0 <= i < 4 && ext[i] == c;
    }
  }

  // ---------------------------------------------------------------------
  // One file

  /** What the conversion of each file reads from the window: the source
      directory, the optional output directory, the bit depth, the trim and
      overwrite options, and whether ffmpeg was found. */
  datatype Settings = Settings(sourceRoot: string, outputBase: Option<string>, bitDepth: string,
                               trim: bool, overwrite: bool, available: bool)

  /** The path planner can place the file: it lies below the source
      directory whenever an output directory is set. */
  predicate Plannable(cafPath: string, cfg: Settings) {
    Truthy(cfg.outputBase) ==> Under(cafPath, cfg.sourceRoot)
  }

  /** What happened to one CAF file: its planned destination, the reply,
      and the ffmpeg command if one was run. */
  datatype Event = Event(cafPath: string, dest: string, reply: Reply, ran: Option<seq<string>>)

  /** What happens to `cafPath` once its destination `dest` is planned:
      the pre-flight checks against `fs`, then ffmpeg through `encoder`. */
  function Outcome(cafPath: string, dest: string, cfg: Settings, fs: set<string>, encoder: seq<string> -> Run): Event {
    if dest in fs && !cfg.overwrite then Event(cafPath, dest, Reply(Some(dest), SkippedExists, ""), None)
    else if !cfg.available then Event(cafPath, dest, Reply(None, NotAvailable, ""), None)
    else
      var cmd := FfmpegCommand(cafPath, dest, cfg.bitDepth, cfg.trim, cfg.overwrite);
      Event(cafPath, dest, RunReply(encoder(cmd), dest), Some(cmd))
  }

  /** convert_caf_to_wav on one file, with `fs` the paths that exist and
      `encoder` the outcome of running a command. */
  function Attempt(cafPath: string, cfg: Settings, fs: set<string>, encoder: seq<string> -> Run): Event
    requires Plannable(cafPath, cfg)
  {
    Outcome(cafPath, PlanDestination(cafPath, cfg.sourceRoot, cfg.outputBase), cfg, fs, encoder)
  }

  /** The pre-flight checks run before ffmpeg: an existing destination with
      overwrite off is skipped (returning the destination), a missing ffmpeg
      is an error, and in neither case is ffmpeg run; otherwise ffmpeg runs
      exactly once, on the planned destination. A file counts as converted
      exactly when ffmpeg exits 0, and only then, or on a skip at
      pre-flight, is a path returned. */
  lemma AttemptOutcome(cafPath: string, cfg: Settings, fs: set<string>, encoder: seq<string> -> Run)
    requires Plannable(cafPath, cfg)
    ensures var e := Attempt(cafPath, cfg, fs, encoder);
      && e.cafPath == cafPath && e.dest == PlanDestination(cafPath, cfg.sourceRoot, cfg.outputBase)
      && (e.ran.Some? <==> cfg.available && (e.dest !in fs || cfg.overwrite))
      && (e.ran.Some? ==> e.ran.value == FfmpegCommand(cafPath, e.dest, cfg.bitDepth, cfg.trim, cfg.overwrite))
      && (e.dest in fs && !cfg.overwrite ==> e.reply == Reply(Some(e.dest), SkippedExists, ""))
      && (Kind(e.reply.status) == Converted <==>
          e.ran.Some? && encoder(e.ran.value).Exited? && encoder(e.ran.value).code == 0)
      && (Kind(e.reply.status) == Skipped <==>
          || (e.dest in fs && !cfg.overwrite)
          || (e.ran.Some? && var run := encoder(e.ran.value);
              run.Exited? && run.code != 0 && Contains(run.stderr, "already exists")))
      && (e.reply.wavPath.Some? ==> e.reply.wavPath == Some(e.dest))
      && (Kind(e.reply.status) == Converted ==> e.reply.wavPath == Some(e.dest))
  {
    var dest := PlanDestination(cafPath, cfg.sourceRoot, cfg.outputBase);
    if dest in fs && !cfg.overwrite {
      assert SkippedExists[..7] == "skipped";
    } else if !cfg.available {
      assert NotAvailable[0] == 'e';
    }
  }

  // ---------------------------------------------------------------------
  // The run as a whole

  /** How many events the main loop filed under `t`. */
  function Count(events: seq<Event>, t: Tally): nat
    decreases |events|
  {
    if events == [] then 0
    else Count(events[..|events| - 1], t) + (if Kind(events[|events| - 1].reply.status) == t then 1 else 0)
  }

  /** The filesystem after a run that started on `fs`: ffmpeg has added
      the destination of each success. */
  function After(fs: set<string>, events: seq<Event>): set<string>
    decreases |events|
  {
    if events == [] then fs
    else
      var e := events[|events| - 1];
      var before := After(fs, events[..|events| - 1]);
      if Kind(e.reply.status) == Converted then before + {e.dest} else before
  }

  /** Recording one more event raises exactly the counter its status falls
      under, checked the way the main loop checks it, and adds its destination
      to the filesystem exactly on success. */
  lemma AppendEvent(events: seq<Event>, e: Event, fs: set<string>)
    ensures var st := e.reply.status;
      && Count(events + [e], Converted) == Count(events, Converted) + (if st == "success" then 1 else 0)
      && Count(events + [e], Skipped) ==
         Count(events, Skipped) + (if st != "success" && StartsWith(st, "skipped") then 1 else 0)
      && Count(events + [e], Errored) ==
         Count(events, Errored) + (if st != "success" && !StartsWith(st, "skipped") then 1 else 0)
      && After(fs, events + [e]) == if st == "success" then After(fs, events) + {e.dest} else After(fs, events)
  {
    assert (events + [e])[..|events|] == events;
  }

  /** Every attempted file is counted exactly once: the three counters add
      up to the number of attempts. */
  lemma {:induction false} CountsPartition(events: seq<Event>)
    ensures Count(events, Converted) + Count(events, Skipped) + Count(events, Errored) == |events|
    decreases |events|
  {
    if events != [] {
      CountsPartition(events[..|events| - 1]);
    }
  }

  /** The destination of every success of a run exists after it, and
      nothing that existed before disappears. */
  lemma {:induction false} SuccessesWritten(fs: set<string>, events: seq<Event>, k: nat)
    requires k < |events| && Kind(events[k].reply.status) == Converted
    ensures events[k].dest in After(fs, events)
    decreases |events|
  {
    if k < |events| - 1 {
      var init := events[..|events| - 1];
      assert init[k] == events[k];
      SuccessesWritten(fs, init, k);
    }
  }

  /** A run only adds files. */
  lemma {:induction false} AfterGrows(fs: set<string>, events: seq<Event>)
    ensures fs <= After(fs, events)
    decreases |events|
  {
    if events != [] {
      AfterGrows(fs, events[..|events| - 1]);
    }
  }

  /** Every discovered file can be planned. */
  predicate AllPlannable(files: seq<string>, cfg: Settings) {
    forall k :: 0 <= k < |files| ==> Plannable(files[k], cfg)
  }

  /** The destinations of a list of files, in order: each file is planned
      on its own. */
  function Plans(files: seq<string>, cfg: Settings): (dests: seq<string>)
    requires AllPlannable(files, cfg)
    ensures |dests| == |files|
  {
    seq(|files|, k requires 0 <= k < |files| => PlanDestination(files[k], cfg.sourceRoot, cfg.outputBase))
  }

  /** The events are the files' conversions, one per file, in discovery
      order, each to its planned destination and each seeing the
      filesystem as the earlier ones left it. */
  predicate Replays(files: seq<string>, dests: seq<string>, cfg: Settings, fs: set<string>,
                    encoder: seq<string> -> Run, events: seq<Event>)
    decreases |events|
  {
    && |events| <= |files| == |dests|
    && (events != [] ==>
         var n := |events| - 1;
         && Replays(files, dests, cfg, fs, encoder, events[..n])
         && events[n] == Outcome(files[n], dests[n], cfg, After(fs, events[..n]), encoder))
  }

  /** The next file's conversion, against the filesystem the earlier
      events left, extends a replay. */
  lemma ReplaysStep(files: seq<string>, dests: seq<string>, cfg: Settings, fs: set<string>,
                    encoder: seq<string> -> Run, events: seq<Event>)
    requires Replays(files, dests, cfg, fs, encoder, events) && |events| < |files|
    ensures Replays(files, dests, cfg, fs, encoder,
                    events + [Outcome(files[|events|], dests[|events|], cfg, After(fs, events), encoder)])
  {
    var e := Outcome(files[|events|], dests[|events|], cfg, After(fs, events), encoder);
    assert (events + [e])[..|events|] == events;
  }

  /** Event `k` of a replay is the conversion of file `k` against the
      filesystem the earlier events left. */
  lemma {:induction false} ReplaysAt(files: seq<string>, dests: seq<string>, cfg: Settings, fs: set<string>,
                                     encoder: seq<string> -> Run, events: seq<Event>, k: nat)
    requires Replays(files, dests, cfg, fs, encoder, events) && k < |events|
    ensures k < |files| == |dests|
    ensures events[k] == Outcome(files[k], dests[k], cfg, After(fs, events[..k]), encoder)
    decreases |events|
  {
    var n := |events| - 1;
    if k < n {
      ReplaysAt(files, dests, cfg, fs, encoder, events[..n], k);
      assert events[..n][..k] == events[..k];
    }
  }

  /** The counters after one more attempt: its status raises exactly one
      of them, and a success adds its destination to the filesystem. */
  method TallyStatus(ghost events: seq<Event>, e: Event, ghost fs: set<string>,
                     converted: nat, skipped: nat, errors: nat, fsNow: set<string>)
    returns (converted': nat, skipped': nat, errors': nat, fsNext: set<string>)
    requires converted == Count(events, Converted) && skipped == Count(events, Skipped)
    requires errors == Count(events, Errored) && fsNow == After(fs, events)
    ensures converted' == Count(events + [e], Converted) && skipped' == Count(events + [e], Skipped)
    ensures errors' == Count(events + [e], Errored) && fsNext == After(fs, events + [e])
    ensures converted' + skipped' + errors' == converted + skipped + errors + 1
  {
    AppendEvent(events, e, fs);
    converted', skipped', errors', fsNext := converted, skipped, errors, fsNow;
    var status := e.reply.status;
    if status == "success" {
      converted' := converted + 1;
      // ffmpeg has written the destination
      fsNext := fsNow + {e.dest};
    } else if StartsWith(status, "skipped") {
      skipped' := skipped + 1;
    } else {
      errors' := errors + 1;
    }
  }

  /** Every poll of the cancel flag before file `n` found it set. */
  predicate PolledSet(running: nat -> bool, n: nat) {
    forall k: nat :: k < n ==> running(k)
  }

  /** A flag read as set at one more index extends the polled prefix. */
  lemma PolledStep(running: nat -> bool, n: nat)
    requires PolledSet(running, n) && running(n)
    ensures PolledSet(running, n + 1)
  {
    forall k: nat | k < n + 1 ensures running(k) {
      if k < n { assert PolledSet(running, n); }
    }
  }

  /** What a run that reached the main loop reports: the number of files
      found, one event per attempted file, the three counters and the final
      value of the progress bar. */
  datatype Summary = Summary(total: nat, events: seq<Event>, converted: nat, skipped: nat, errors: nat, progress: nat)

  datatype ThreadResult = FfmpegRequired | NoCafFiles | Finished(summary: Summary)

  /** The main loop over `files` ended in summary `s` and filesystem
      `fsAfter`: the flag was polled before each file and the loop stopped
      at the first false poll; every attempted file was converted once, in
      order; each attempt raised exactly one counter; the progress bar shows
      the number of attempts. */
  predicate FinishedRun(files: seq<string>, cfg: Settings, fs: set<string>, encoder: seq<string> -> Run,
                        running: nat -> bool, s: Summary, fsAfter: set<string>) {
    && s.total == |files|
    && AllPlannable(files, cfg)
    && Replays(files, Plans(files, cfg), cfg, fs, encoder, s.events)
    && PolledSet(running, |s.events|)
    && (|s.events| < |files| ==> !running(|s.events|))
    && s.converted == Count(s.events, Converted)
    && s.skipped == Count(s.events, Skipped)
    && s.errors == Count(s.events, Errored)
    && s.converted + s.skipped + s.errors == |s.events| == s.progress
    && fsAfter == After(fs, s.events)
  }

  /** Running a batch a second time with overwrite off converts nothing the
      first run converted: each such file is skipped at pre-flight and
      ffmpeg is not run for it. */
  lemma SecondRunSkips(files: seq<string>, cfg: Settings, fs: set<string>, encoder: seq<string> -> Run,
                       events: seq<Event>, k: nat, fs2: set<string>, encoder2: seq<string> -> Run)
    requires AllPlannable(files, cfg) && Replays(files, Plans(files, cfg), cfg, fs, encoder, events)
    requires k < |events| && Kind(events[k].reply.status) == Converted
    requires After(fs, events) <= fs2
    ensures var e := Attempt(files[k], cfg.(overwrite := false), fs2, encoder2);
      Kind(e.reply.status) == Skipped && e.ran.None?
  {
    SuccessesWritten(fs, events, k);
    ReplaysAt(files, Plans(files, cfg), cfg, fs, encoder, events, k);
    AttemptOutcome(files[k], cfg, fs, encoder);
    AttemptOutcome(files[k], cfg.(overwrite := false), fs2, encoder2);
  }

  // ---------------------------------------------------------------------
  // The window's state and its operations

  datatype StartAction = NoDirectoryWarning | CancelRequested | WorkerStarted

  class CafToWavConverter {
    /** Set by the button, polled by the worker before each file. */
    var conversionRunning: bool
    var selectedDirectory: Option<string>
    var outputDirectory: Option<string>
    /** Whether `ffmpeg` was found on the PATH at start-up. */
    var ffmpegAvailable: bool
    /** The radio buttons: "24" or "32". */
    var bitDepth: string
    var overwrite: bool
    var trimSilence: bool

    constructor (ffmpegOnPath: bool)
      ensures !conversionRunning && selectedDirectory.None? && outputDirectory.None?
      ensures ffmpegAvailable == ffmpegOnPath
      ensures bitDepth == "24" && !overwrite && trimSilence
    {
      conversionRunning := false;
      selectedDirectory := None;
      outputDirectory := None;
      ffmpegAvailable := ffmpegOnPath;
      bitDepth := "24";
      overwrite := false;
      trimSilence := true;
    }

    /** The settings a run reads from the window. */
    function RunSettings(): Settings
      reads this`selectedDirectory, this`outputDirectory, this`bitDepth, this`trimSilence
      reads this`overwrite, this`ffmpegAvailable
      requires Truthy(selectedDirectory)
    {
      Settings(selectedDirectory.value, outputDirectory, bitDepth, trimSilence, overwrite, ffmpegAvailable)
    }

    /** find_caf_files: every file of the walk whose lower-cased name ends
        in `.caf`, joined onto its directory, in walk order. */
    method FindCafFiles(walk: seq<WalkEntry>) returns (cafFiles: seq<string>)
      ensures cafFiles == WalkMatches(walk, ".caf")
    {
      cafFiles := [];
      var i := 0;
      while i < |walk|
        invariant 0 <= i <= |walk|
        invariant cafFiles == WalkMatches(walk[..i], ".caf")
      {
        cafFiles := AppendCafFiles(cafFiles, walk[i].root, walk[i].files);
        assert walk[..i + 1][..i] == walk[..i];
        i := i + 1;
      }
      assert walk[..i] == walk;
    }

    /** The inner loop of find_caf_files over the files of one directory:
        appends the `.caf` files, joined onto the directory, in order. */
    method AppendCafFiles(found: seq<string>, root: string, files: seq<string>) returns (cafFiles: seq<string>)
      ensures cafFiles == found + Matches(root, files, ".caf")
    {
      cafFiles := found;
      var j := 0;
      while j < |files|
        invariant 0 <= j <= |files|
        invariant cafFiles == found + Matches(root, files[..j], ".caf")
      {
        if HasExt(files[j], ".caf") {
          cafFiles := cafFiles + [Join(root, files[j])];
        }
        assert files[..j + 1][..j] == files[..j];
        j := j + 1;
      }
      assert files[..j] == files;
    }

    /** convert_with_ffmpeg: builds the command from the arguments and the
        overwrite option, runs it once, and reads the outcome; the duration
        line is searched for line by line. */
    method ConvertWithFfmpeg(cafPath: string, wavPath: string, bitDepth: string, trim: bool,
                             encoder: seq<string> -> Run) returns (reply: Reply, ran: seq<string>)
      ensures ran == FfmpegCommand(cafPath, wavPath, bitDepth, trim, overwrite)
      ensures reply == RunReply(encoder(ran), wavPath)
    {
      var codec := if bitDepth == "24" then "pcm_s24le" else "pcm_f32le";
      var filters: seq<string> := [];
      if trim {
        filters := filters + [SilenceRemove];
      }
      ran := ["ffmpeg", "-i", cafPath];
      if filters != [] {
        ran := ran + ["-af", JoinWith(filters, ",")];
      }
      ran := ran + ["-acodec", codec, if overwrite then "-y" else "-n", wavPath];
      var run := encoder(ran);
      match run {
        case Raised(message) =>
          reply := Reply(None, "Exception: " + message, "");
        case Exited(code, stderr) =>
          if code == 0 {
            var info := "";
            if Contains(stderr, "Duration:") {
              var lines := Split(stderr, '\n');
              var i := 0;
              while i < |lines|
                invariant 0 <= i <= |lines|
                invariant info == ""
                invariant FirstDuration(lines[i..]) == FirstDuration(lines)
              {
                if Contains(lines[i], "Duration:") {
                  info := Strip(lines[i]);
                  break;
                }
                assert lines[i..][1..] == lines[i + 1..];
                i := i + 1;
              }
            }
            reply := Reply(Some(wavPath), "success", info);
          } else if Contains(stderr, "already exists") {
            reply := Reply(None, SkippedExists, "");
          } else {
            var errorMsg := if stderr != "" then ErrorTail(stderr) else Letters(UnknownError);
            reply := Reply(None, "FFmpeg error: " + JoinWith(errorMsg, " "), "");
          }
      }
    }

    /** convert_caf_to_wav: plans the destination, runs the pre-flight
        checks, and otherwise hands over to ffmpeg. */
    method ConvertCafToWav(cafPath: string, bitDepth: string, outputBase: Option<string>, trim: bool,
                           fs: set<string>, encoder: seq<string> -> Run) returns (reply: Reply, ran: Option<seq<string>>)
      requires Truthy(selectedDirectory)
      requires Truthy(outputBase) ==> Under(cafPath, selectedDirectory.value)
      ensures var cfg := Settings(selectedDirectory.value, outputBase, bitDepth, trim, overwrite, ffmpegAvailable);
        Event(cafPath, PlanDestination(cafPath, cfg.sourceRoot, outputBase), reply, ran) == Attempt(cafPath, cfg, fs, encoder)
    {
      var wavPath;
      if Truthy(outputBase) {
        var relPath := RelPath(cafPath, selectedDirectory.value);
        var wavFilename := SplitExt(relPath).0 + ".wav";
        wavPath := Join(outputBase.value, wavFilename);
      } else {
        wavPath := SplitExt(cafPath).0 + ".wav";
      }
      if wavPath in fs && !overwrite {
        return Reply(Some(wavPath), SkippedExists, ""), None;
      }
      if !ffmpegAvailable {
        return Reply(None, NotAvailable, ""), None;
      }
      var cmd;
      reply, cmd := ConvertWithFfmpeg(cafPath, wavPath, bitDepth, trim, encoder);
      ran := Some(cmd);
    }

    /** conversion_thread. `walk` is what `os.walk` yields for the source
        directory, `fs` the paths that exist when the run starts (each
        success adds its destination), `encoder` the outcome of each ffmpeg
        command, and `running(i)` the value of the cancel flag when the
        worker polls it before file `i`. Whatever happens, the flag is
        cleared at the end. */
    method ConversionThread(walk: seq<WalkEntry>, fs: set<string>, encoder: seq<string> -> Run,
                            running: nat -> bool) returns (result: ThreadResult, fsAfter: set<string>)
      requires Truthy(selectedDirectory) && WalkBelow(walk, selectedDirectory.value)
      modifies this`conversionRunning
      ensures !conversionRunning
      ensures !ffmpegAvailable ==> result == FfmpegRequired && fsAfter == fs
      ensures ffmpegAvailable && WalkMatches(walk, ".caf") == [] ==> result == NoCafFiles && fsAfter == fs
      ensures ffmpegAvailable && WalkMatches(walk, ".caf") != [] ==>
        result.Finished? &&
        FinishedRun(WalkMatches(walk, ".caf"), RunSettings(), fs, encoder, running, result.summary, fsAfter)
    {
      if !ffmpegAvailable {
        conversionRunning := false;
        return FfmpegRequired, fs;
      }
      var cafFiles := FindCafFiles(walk);
      if cafFiles == [] {
        conversionRunning := false;
        return NoCafFiles, fs;
      }
      WalkMatchesBelow(walk, selectedDirectory.value, ".caf");
      var summary;
      summary, fsAfter := MainLoop(cafFiles, fs, encoder, running);
      conversionRunning := false;
      result := Finished(summary);
    }

    /** The main loop of conversion_thread: before each file it polls the
        flag and stops at the first false poll; it converts the file,
        raises the counter the status falls under, records the new file on
        success and advances the progress bar. */
    method MainLoop(cafFiles: seq<string>, fs: set<string>, encoder: seq<string> -> Run, running: nat -> bool)
      returns (summary: Summary, fsAfter: set<string>)
      requires Truthy(selectedDirectory) && AllPlannable(cafFiles, RunSettings())
      ensures FinishedRun(cafFiles, RunSettings(), fs, encoder, running, summary, fsAfter)
    {
      var cfg := RunSettings();
      ghost var dests := Plans(cafFiles, cfg);
      var convertedCount, skippedCount, errorCount, progress := 0, 0, 0, 0;
      var events: seq<Event> := [];
      fsAfter := fs;
      var i := 0;
      while i < |cafFiles|
        invariant 0 <= i <= |cafFiles| && |events| == i == progress
        invariant PolledSet(running, i)
        invariant Replays(cafFiles, dests, cfg, fs, encoder, events)
        invariant fsAfter == After(fs, events)
        invariant convertedCount == Count(events, Converted)
        invariant skippedCount == Count(events, Skipped)
        invariant errorCount == Count(events, Errored)
        invariant convertedCount + skippedCount + errorCount == i
      {
        if !running(i) {
          break;
        }
        var cafPath := cafFiles[i];
        var reply, ran := ConvertCafToWav(cafPath, bitDepth, outputDirectory, trimSilence, fsAfter, encoder);
        var e := Event(cafPath, PlanDestination(cafPath, cfg.sourceRoot, outputDirectory), reply, ran);
        assert e == Outcome(cafPath, dests[i], cfg, fsAfter, encoder);
        ReplaysStep(cafFiles, dests, cfg, fs, encoder, events);
        convertedCount, skippedCount, errorCount, fsAfter :=
          TallyStatus(events, e, fs, convertedCount, skippedCount, errorCount, fsAfter);
        events := events + [e];
        PolledStep(running, i);
        progress := i + 1;
        i := i + 1;
      }
      summary := Summary(|cafFiles|, events, convertedCount, skippedCount, errorCount, progress);
    }

    /** start_conversion: without a source directory only a warning; while
        a run is going the button cancels it by clearing the flag; otherwise
        it sets the flag and starts the worker. */
    method StartConversion() returns (action: StartAction)
      modifies this`conversionRunning
      ensures !Truthy(selectedDirectory) ==>
        action == NoDirectoryWarning && conversionRunning == old(conversionRunning)
      ensures Truthy(selectedDirectory) && old(conversionRunning) ==>
        action == CancelRequested && !conversionRunning
      ensures Truthy(selectedDirectory) && !old(conversionRunning) ==>
        action == WorkerStarted && conversionRunning
    {
      if !Truthy(selectedDirectory) {
        return NoDirectoryWarning;
      }
      if conversionRunning {
        conversionRunning := false;
        return CancelRequested;
      }
      conversionRunning := true;
      action := WorkerStarted;
    }
  }
}
