/**
 * The command-line CAF to 32-bit float WAV converter (caf_to_wav32.py).
 * Paths are `pathlib` paths: an anchor (absolute or not) and a sequence of
 * components. Every `.caf` file found below the folder is converted with a
 * fixed ffmpeg command into `<its directory>/32bit_wav/<its stem>.wav`,
 * one file after the other, a failed conversion not stopping the rest.
 */
module CafToWav32 {
  import opened Wrappers
  import opened PyStr
  import opened PyPath
  import opened Ffmpeg

  // ---------------------------------------------------------------------
  // pathlib paths

  /** A `pathlib.PurePosixPath`: whether it is absolute, and its
      components. */
  datatype Path = Path(absolute: bool, parts: seq<string>)

  /** A component as pathlib keeps it: non-empty, no `/`, not `.`. */
  predicate IsPart(n: string) {
    IsName(n) && n != "."
  }

  predicate WellFormed(p: Path) {
    forall k :: 0 <= k < |p.parts| ==> IsPart(p.parts[k])
  }

  /** The components `Path(s)` keeps of the pieces between slashes: empty
      pieces and `.` are dropped. */
  function Components(pieces: seq<string>): (parts: seq<string>)
    requires forall k :: 0 <= k < |pieces| ==> '/' !in pieces[k]
    ensures forall k :: 0 <= k < |parts| ==> IsPart(parts[k])
    decreases |pieces|
  {
    if pieces == [] then []
    else
      var n := |pieces| - 1;
      Components(pieces[..n]) + (if pieces[n] == "" || pieces[n] == "." then [] else [pieces[n]])
  }

  /** `Path(s)`. */
  function ParsePath(s: string): (p: Path)
    ensures WellFormed(p)
  {
    SplitJoinRoundTrip(s, '/');
    Path(StartsWith(s, "/"), Components(Split(s, '/')))
  }

  /** `str(p)`: `/` for the root, `.` for the empty relative path,
      otherwise the components joined with `/`, after a `/` when absolute. */
  function Render(p: Path): string {
    if p.parts == [] then (if p.absolute then "/" else ".")
    else (if p.absolute then "/" else "") + JoinWith(p.parts, "/")
  }

  /** `p.parent`: the path without its last component; the root and the
      empty path are their own parent. */
  function Parent(p: Path): Path {
    if p.parts == [] then p else Path(p.absolute, p.parts[..|p.parts| - 1])
  }

  /** `p.name`: the last component, or empty. */
  function Name(p: Path): string {
    if p.parts == [] then "" else p.parts[|p.parts| - 1]
  }

  /** `p.stem` for a name: without its last suffix, where a suffix starts at
      the last dot, which must be neither the first nor the last character. */
  function Stem(name: string): (stem: string)
    ensures StartsWith(name, stem)
    ensures name != "" ==> stem != ""
  {
    var i := RFind(name, '.');
    if 0 < i < |name| - 1 then name[..i] else name
  }

  /** `p / n` for a single component `n`. */
  function Child(p: Path, n: string): Path {
    Path(p.absolute, p.parts + [n])
  }

  // ---------------------------------------------------------------------
  // Planning and the command

  /** `caf.parent / "32bit_wav" / (caf.stem + ".wav")`. */
  function OutputPath(caf: Path): Path {
    Child(Child(Parent(caf), "32bit_wav"), Stem(Name(caf)) + ".wav")
  }

  /** The command of convert_caf_to_wav: overwrite, the input, 32-bit float
      PCM, the output. */
  function Command(input: Path, output: Path): seq<string> {
    ["ffmpeg", "-y", "-i", Render(input), "-c:a", "pcm_f32le", Render(output)]
  }

  /** What convert_caf_to_wav does with one run: a zero exit is a success
      and any other exit a failure, both reported; an exception other than
      a failed exit (ffmpeg missing, say) is not caught and escapes. */
  datatype Attempt = Done(ok: bool) | Escaped(message: string)

  /** convert_caf_to_wav, with `encoder` the outcome of running each
      command line. */
  function ConvertCafToWav(input: Path, output: Path, encoder: seq<string> -> Run): (r: Attempt)
    ensures r.Escaped? <==> encoder(Command(input, output)).Raised?
    ensures r == Done(true) <==> encoder(Command(input, output)).Exited? && encoder(Command(input, output)).code == 0
  {
    match encoder(Command(input, output))
    case Exited(code, _) => Done(code == 0)
    case Raised(message) => Escaped(message)
  }

  /** The output of a `.caf` file is in the `32bit_wav` subdirectory of the
      file's own directory and is named after the file's stem; for a file
      named by well-formed components, the output is too and its stem is
      the file's stem. */
  lemma OutputPlacement(caf: Path)
    requires caf.parts != []
    ensures Parent(Parent(OutputPath(caf))) == Parent(caf)
    ensures Name(Parent(OutputPath(caf))) == "32bit_wav"
    ensures Name(OutputPath(caf)) == Stem(Name(caf)) + ".wav"
    ensures WellFormed(caf) ==> WellFormed(OutputPath(caf)) && Stem(Name(OutputPath(caf))) == Stem(Name(caf))
  {
    var out := OutputPath(caf);
    assert Parent(out).parts == Parent(caf).parts + ["32bit_wav"];
    assert Parent(out).parts[..|Parent(out).parts| - 1] == Parent(caf).parts;
    if WellFormed(caf) {
      var name := Name(caf);
      var s := Stem(name);
      assert IsPart(name);
      assert '/' !in s by {
        assert forall k :: 0 <= k < |s| ==> s[k] == name[k];
      }
      var w := s + ".wav";
      assert '/' !in w;
      forall k | 0 <= k < |out.parts| ensures IsPart(out.parts[k]) {
        if k < |Parent(caf).parts| {
          assert out.parts[k] == caf.parts[k];
        } else if k == |Parent(caf).parts| {
          assert out.parts[k] == "32bit_wav";
        } else {
          assert out.parts[k] == w;
          assert w[|w| - 1] == 'v';
        }
      }
      RFindAt(w, '.', |s|);
    }
  }

  /** The stem of a name `<x>.caf` with `x` non-empty is `x`. */
  lemma StemOfCaf(name: string)
    requires |name| > 4 && EndsWith(name, ".caf")
    ensures Stem(name) + ".caf" == name
  {
    assert name[|name| - 4..] == ".caf";
    RFindAt(name, '.', |name| - 4);
  }

  /** Two `.caf` files, each with a non-empty stem before `.caf`, share an
      output path only when they are the same file. */
  lemma DistinctOutputs(a: Path, b: Path)
    requires a.parts != [] && b.parts != []
    requires |Name(a)| > 4 && EndsWith(Name(a), ".caf")
    requires |Name(b)| > 4 && EndsWith(Name(b), ".caf")
    requires OutputPath(a) == OutputPath(b)
    ensures a == b
  {
    var pa, pb := Parent(a).parts, Parent(b).parts;
    var oa, ob := OutputPath(a).parts, OutputPath(b).parts;
    assert |pa| == |pb|;
    assert pa == oa[..|pa|] && pb == ob[..|pb|];
    var sa, sb := Stem(Name(a)), Stem(Name(b));
    assert sa + ".wav" == sb + ".wav" by {
      assert oa[|oa| - 1] == sa + ".wav" && ob[|ob| - 1] == sb + ".wav";
    }
    assert sa == (sa + ".wav")[..|sa|] && sb == (sb + ".wav")[..|sb|];
    StemOfCaf(Name(a));
    StemOfCaf(Name(b));
    assert a.parts == pa + [Name(a)] && b.parts == pb + [Name(b)];
  }

  /** The `.caf` files named `.caf` and `.caf.caf` in one directory share
      the output `32bit_wav/.caf.wav`: a name that is only the extension
      keeps it as its stem. */
  lemma BareExtensionCollides()
    ensures OutputPath(Path(false, [".caf"])) == OutputPath(Path(false, [".caf.caf"]))
  {
    RFindAt(".caf", '.', 0);
    RFindAt(".caf.caf", '.', 4);
    assert ".caf.caf"[..4] == ".caf";
  }

  /** ffmpeg reads the command as: this input, no filter, 32-bit float PCM,
      overwrite, this output, as long as a relative input inside a folder
      does not start with a dash. */
  lemma CommandMeaning(caf: Path)
    requires caf.parts != []
    requires caf.absolute || |caf.parts| == 1 || NotDashed(caf.parts[0])
    ensures Read(Command(caf, OutputPath(caf))) ==
      Some(Invocation(Some(Render(caf)), None, Some("pcm_f32le"), Some(true), Some(Render(OutputPath(caf)))))
  {
    var out := OutputPath(caf);
    var o := Render(out);
    assert Positional(o) by {
      var head := out.parts[0];
      assert head == if |caf.parts| == 1 then "32bit_wav" else caf.parts[0];
      if !out.absolute {
        if head != [] {
          JoinHead(out.parts, "/");
        } else {
          assert JoinWith(out.parts, "/") == head + "/" + JoinWith(out.parts[1..], "/");
        }
      }
    }
    var cmd := Command(caf, out);
    var acc := NoOptions.(overwrite := Some(true));
    assert cmd[1..] == ["-y"] + (["-i", Render(caf)] + (["-c:a", "pcm_f32le"] + [o]));
    ReadFlagStep("-y", ["-i", Render(caf)] + (["-c:a", "pcm_f32le"] + [o]), NoOptions);
    ReadValueStep("-i", Render(caf), ["-c:a", "pcm_f32le"] + [o], acc);
    acc := acc.(input := Some(Render(caf)));
    ReadValueStep("-c:a", "pcm_f32le", [o], acc);
    acc := acc.(codec := Some("pcm_f32le"));
    ReadOutputStep(o, acc);
  }

  // ---------------------------------------------------------------------
  // Rendering and parsing

  /** Splitting a text that starts with a separator-free piece. */
  lemma {:induction false} SplitPrefix(a: string, t: string, sep: char)
    requires sep !in a
    ensures Split(a + t, sep) == [a + Split(t, sep)[0]] + Split(t, sep)[1..]
    decreases |a|
  {
    var st := Split(t, sep);
    if a != [] {
      assert a[0] in a;
      assert forall c :: c in a[1..] ==> c in a;
      SplitPrefix(a[1..], t, sep);
      var at := a + t;
      assert at[0] == a[0] && at[1..] == a[1..] + t;
      var rest := Split(at[1..], sep);
      assert rest == [a[1..] + st[0]] + st[1..];
      assert Split(at, sep) == [[a[0]] + rest[0]] + rest[1..];
      assert [a[0]] + (a[1..] + st[0]) == a + st[0];
    } else {
      assert a + t == t;
      assert a + st[0] == st[0];
    }
  }

  /** Splitting what `sep.join` made gives the parts back. */
  lemma {:induction false} SplitJoin(parts: seq<string>, sep: char)
    requires parts != []
    requires forall k :: 0 <= k < |parts| ==> sep !in parts[k]
    ensures Split(JoinWith(parts, [sep]), sep) == parts
    decreases |parts|
  {
    if |parts| == 1 {
      SplitPrefix(parts[0], "", sep);
      assert Split("", sep) == [""];
      assert parts[0] + "" == parts[0];
    } else {
      var rest := JoinWith(parts[1..], [sep]);
      SplitJoin(parts[1..], sep);
      var t := [sep] + rest;
      SplitPrefix(parts[0], t, sep);
      assert t[0] == sep && t[1..] == rest;
      assert Split(t, sep) == [""] + parts[1..];
      assert JoinWith(parts, [sep]) == parts[0] + t;
      assert parts[0] + "" == parts[0];
      assert parts == [parts[0]] + parts[1..];
    }
  }

  /** The components kept of well-formed parts are the parts. */
  lemma {:induction false} ComponentsOfParts(parts: seq<string>)
    requires forall k :: 0 <= k < |parts| ==> '/' !in parts[k] && parts[k] != "" && parts[k] != "."
    ensures Components(parts) == parts
    decreases |parts|
  {
    if parts != [] {
      ComponentsOfParts(parts[..|parts| - 1]);
    }
  }

  /** `Path(str(p)) == p` for a path of well-formed components. */
  lemma ParseRender(p: Path)
    requires WellFormed(p)
    ensures ParsePath(Render(p)) == p
  {
    if p.parts == [] {
      ParseRenderEmpty(p.absolute);
    } else {
      assert forall k :: 0 <= k < |p.parts| ==> IsPart(p.parts[k]);
      ParseJoined(p.absolute, p.parts);
    }
  }

  /** Components joined with `/`, after a `/` when absolute, parse back. */
  lemma ParseJoined(absolute: bool, parts: seq<string>)
    requires parts != []
    requires forall k :: 0 <= k < |parts| ==> '/' !in parts[k] && parts[k] != "" && parts[k] != "."
    ensures ParsePath((if absolute then "/" else "") + JoinWith(parts, "/")) == Path(absolute, parts)
  {
    var j := JoinWith(parts, "/");
    var s := (if absolute then "/" else "") + j;
    assert parts[0] != "" && parts[0][0] in parts[0];
    JoinHead(parts, "/");
    if absolute {
      assert StartsWith(s, "/");
      assert Split(s, '/') == [""] + parts by {
        SplitAfterSlash(j);
        SplitJoin(parts, '/');
      }
      ComponentsPrepend("", parts);
    } else {
      assert s == j && !StartsWith(s, "/");
      SplitJoin(parts, '/');
    }
    ComponentsOfParts(parts);
  }

  /** The root and the empty relative path render and parse back. */
  lemma ParseRenderEmpty(absolute: bool)
    ensures ParsePath(Render(Path(absolute, []))) == Path(absolute, [])
  {
    var s := Render(Path(absolute, []));
    assert Split("", '/') == [""];
    assert s[1..] == "";
    if absolute {
      assert s[0] == '/' && StartsWith(s, "/");
      assert Split(s, '/') == ["", ""];
      assert ["", ""][..1] == [""] && [""][..0] == [];
      assert Components(["", ""]) == [];
    } else {
      assert s[0] == '.' && !StartsWith(s, "/");
      assert [s[0]] + "" == "." && [""][1..] == [];
      assert Split(s, '/') == ["."];
      assert ["."][..0] == [];
      assert Components(["."]) == [];
    }
  }

  /** A leading slash splits off an empty piece. */
  lemma SplitAfterSlash(j: string)
    ensures Split("/" + j, '/') == [""] + Split(j, '/')
  {
    assert ("/" + j)[1..] == j;
  }

  /** `sep.join(parts)` starts with the first character of the first part. */
  lemma JoinHead(parts: seq<string>, sep: string)
    requires parts != [] && parts[0] != []
    ensures JoinWith(parts, sep) != [] && JoinWith(parts, sep)[0] == parts[0][0]
  {
    if |parts| > 1 {
      assert JoinWith(parts, sep) == parts[0] + (sep + JoinWith(parts[1..], sep));
    }
  }

  /** A dropped piece in front does not change the components. */
  lemma {:induction false} ComponentsPrepend(d: string, pieces: seq<string>)
    requires d == "" || d == "."
    requires forall k :: 0 <= k < |pieces| ==> '/' !in pieces[k]
    ensures Components([d] + pieces) == Components(pieces)
    decreases |pieces|
  {
    if pieces == [] {
      assert [d] + pieces == [d];
      assert [d][..0] == [];
    } else {
      var n := |pieces| - 1;
      ComponentsPrepend(d, pieces[..n]);
      assert ([d] + pieces)[..n + 1] == [d] + pieces[..n];
    }
  }

  // ---------------------------------------------------------------------
  // The run

  /** How a run ended: the folder missing, every file attempted, or an
      exception escaping the attempt after the ones listed. `results[k]` is
      whether the `k`-th file was converted. */
  datatype Report =
    | FolderMissing
    | Completed(results: seq<bool>)
    | Aborted(results: seq<bool>, message: string)

  /** The loop of main over the files `rglob` found, in order. */
  function Replay(files: seq<Path>, encoder: seq<string> -> Run): (r: Report)
    ensures r.Completed? || r.Aborted?
    ensures r.Completed? ==> |r.results| == |files|
    ensures r.Aborted? ==> |r.results| < |files|
    decreases |files|
  {
    if files == [] then Completed([])
    else
      var n := |files| - 1;
      var before := Replay(files[..n], encoder);
      if before.Aborted? then before
      else match ConvertCafToWav(files[n], OutputPath(files[n]), encoder)
        case Done(ok) => Completed(before.results + [ok])
        case Escaped(message) => Aborted(before.results, message)
  }

  /** Each file attempted so far was attempted with its own command, and
      reported converted exactly when ffmpeg exited with 0; a failure does
      not end the run. */
  lemma {:induction false} ReplayAt(files: seq<Path>, encoder: seq<string> -> Run, k: nat)
    requires k < |Replay(files, encoder).results|
    ensures encoder(Command(files[k], OutputPath(files[k]))).Exited?
    ensures Replay(files, encoder).results[k] <==> encoder(Command(files[k], OutputPath(files[k]))).code == 0
    decreases |files|
  {
    var n := |files| - 1;
    var before := Replay(files[..n], encoder);
    if k < |before.results| {
      ReplayAt(files[..n], encoder, k);
    }
  }

  /** The run attempts every file exactly when no attempt raises; otherwise
      it stops at the first file whose attempt raises. */
  lemma {:induction false} ReplayCompletes(files: seq<Path>, encoder: seq<string> -> Run)
    ensures Replay(files, encoder).Completed? <==>
      forall k :: 0 <= k < |files| ==> encoder(Command(files[k], OutputPath(files[k]))).Exited?
    ensures Replay(files, encoder).Aborted? ==>
      var i := |Replay(files, encoder).results|;
      encoder(Command(files[i], OutputPath(files[i]))).Raised?
    decreases |files|
  {
    if files != [] {
      var n := |files| - 1;
      ReplayCompletes(files[..n], encoder);
      var r := Replay(files, encoder);
      if r.Completed? {
        forall k | 0 <= k < |files| ensures encoder(Command(files[k], OutputPath(files[k]))).Exited? {
          ReplayAt(files, encoder, k);
        }
      }
    }
  }

  /** main, with `typed` the text typed at the prompt, `pathExists` the answer
      of `Path.exists`, `found` what `root.rglob("*.caf")` lists and
      `encoder` the outcome of each ffmpeg run. A missing folder stops the
      run before any conversion. */
  method ConvertFolder(typed: string, pathExists: Path -> bool, found: seq<Path>, encoder: seq<string> -> Run)
    returns (report: Report)
    ensures report == if !pathExists(ParsePath(Strip(typed))) then FolderMissing else Replay(found, encoder)
  {
    var folder := Strip(typed);
    var root := ParsePath(folder);
    if !pathExists(root) {
      return FolderMissing;
    }
    var results := [];
    var i := 0;
    while i < |found|
      invariant 0 <= i <= |found|
      invariant Replay(found[..i], encoder) == Completed(results)
    {
      var caf := found[i];
      var outDir := Child(Parent(caf), "32bit_wav");
      var outPath := Child(outDir, Stem(Name(caf)) + ".wav");
      var attempt := ConvertCafToWav(caf, outPath, encoder);
      ReplayStep(found, encoder, i);
      if attempt.Escaped? {
        report := Aborted(results, attempt.message);
        assert Replay(found[..i + 1], encoder) == report;
        ReplayPrefixAborted(found, encoder, i + 1);
        return;
      }
      results := results + [attempt.ok];
      i := i + 1;
    }
    assert found[..i] == found;
    report := Completed(results);
  }

  /** One more file extends a completed replay by that file's attempt. */
  lemma ReplayStep(files: seq<Path>, encoder: seq<string> -> Run, i: nat)
    requires i < |files| && Replay(files[..i], encoder).Completed?
    ensures Replay(files[..i + 1], encoder) ==
      match ConvertCafToWav(files[i], OutputPath(files[i]), encoder)
      case Done(ok) => Completed(Replay(files[..i], encoder).results + [ok])
      case Escaped(message) => Aborted(Replay(files[..i], encoder).results, message)
  {
    assert files[..i + 1][..i] == files[..i];
  }

  /** Once a prefix of the run aborts, the whole run ends the same way. */
  lemma {:induction false} ReplayPrefixAborted(files: seq<Path>, encoder: seq<string> -> Run, m: nat)
    requires m <= |files|
    requires Replay(files[..m], encoder).Aborted?
    ensures Replay(files, encoder) == Replay(files[..m], encoder)
    decreases |files| - m
  {
    if m < |files| {
      assert files[..m + 1][..m] == files[..m];
      ReplayPrefixAborted(files, encoder, m + 1);
    } else {
      assert files[..m] == files;
    }
  }
}
