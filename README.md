# Batch audio converters: a verified model

This project models the batch engines of three small Python converters:

- **caf_to_wav_gui.py**, a CAF to WAV converter window. It scans a folder tree for `.caf` files (the suffix test ignores case). Each file gets a destination: either mirrored under an output folder or placed beside the source, always ending in `.wav`. Before calling ffmpeg it checks whether the destination already exists (skipped when overwrite is off) and whether ffmpeg is available. It builds the ffmpeg argument list (codec, optional `silenceremove` filter, `-y`/`-n`) and sorts each run's outcome into success, skipped or error. The main loop polls a cancel flag before each file, raises exactly one of three counters per file and advances a progress bar. The start button toggles between starting and cancelling.
- **wav_bit_depth_converter.py**, a 32-bit WAV downconverter window. It validates its inputs, finds `.wav` files (in one folder, or recursively), classifies each file's subtype as a bit depth and keeps the 32-bit files. It converts each kept file into `<dir>/24bit/<name>` and/or `<dir>/16bit/<name>`, counting progress once per conversion, and a re-entry guard protects the start button.
- **caf_to_wav32.py**, a command-line tool. It converts every `.caf` file under a folder into `<parent>/32bit_wav/<stem>.wav` with the fixed command `ffmpeg -y -i <in> -c:a pcm_f32le <out>`. A failed conversion does not stop the loop.

The outside world is given as data:

- `os.walk`, `os.listdir` and `Path.rglob` are given as the sequences they yield.
- `os.path.exists` is a set of existing paths; in the GUI model it grows with each successful conversion.
- ffmpeg is a function from an argument list to its outcome: an exit code with stderr, or an exception.
- `soundfile` is represented by the subtype `sf.info` reports and by whether a read or a write succeeds.
- The GUI's cancel flag is the value the worker reads before file `i`.

The meaning of a command is fixed independently by `Ffmpeg.Read`, which reads an argument list the way ffmpeg's command line reads the options these tools use: every argument that starts with `-`, other than `-` itself, is an option, and any other option makes the command unreadable.

Modules:

- `Wrappers`: `Option`.
- `PyStr`: the `str` methods the converters use.
- `PyPath`: `os.path` on POSIX.
- `Scan`: the extension filters over a walk or a listing.
- `Ffmpeg`: the ffmpeg outcome and the argument reader.
- `CafToWavGui`: the CAF to WAV window, with class `CafToWavConverter`.
- `WavBitDepth`: the downconverter, with class `WavConverter`.
- `CafToWav32`: the command-line tool, with its pathlib paths.

The models follow the code as written, including its two defects (see "## Findings"): the GUI's run reports the letter-spaced ffmpeg error message, and the downconverter's 32-bit filter uses `get_bit_depth` exactly as written. Two further behaviours worth noting:

- `get_bit_depth` returns a bare bit depth (0 for unknown), not a pair of bits and encoding.
- Destinations are not checked for uniqueness: `CafToWavGui.CaseVariantsCollide` shows two files planned to one destination.

## Model

| member | source | states |
|---|---|---|
| PyStr.Lower | caf_to_wav_gui.py:198 | the model of `lower()` keeps the length and lowers each ASCII capital, position by position, leaving every other character as it is |
| PyStr.Split | caf_to_wav_gui.py:245 | `split('\n')` always returns at least one piece |
| PyStr.StripChars | caf_to_wav_gui.py:247 | `strip()` never lengthens its input |
| PyStr.StripSlice | caf_to_wav_gui.py:247 | `strip()` returns a slice `s[i..j]` of its input that neither starts nor ends with whitespace, and every character outside the slice is whitespace; `Strip` uses the whitespace set of `str.isspace()` |
| PyStr.SkipForwardSkips | caf_to_wav32.py:30 | every character `strip()` skips at the front is whitespace |
| PyStr.SkipBackwardSkips | caf_to_wav32.py:30 | every character `strip()` skips at the back is whitespace |
| PyStr.SplitJoinRoundTrip | caf_to_wav_gui.py:245 | joining the pieces of a split with the separator gives the text back, and no piece holds the separator |
| PyStr.NoSepNoContains | wav_bit_depth_converter.py:157-166 | a text without some character never contains a text holding it; this decides the `in` tests of `get_bit_depth` for the subtypes `soundfile` writes and reports |
| PyStr.SplitPieceContains | caf_to_wav_gui.py:244-246 | text found in a piece of `split(sep)` is found in the whole string |
| PyStr.SplitTailEnds | caf_to_wav_gui.py:253 | the last pieces of `split(sep)`, joined back with the separator, are the end of the string |
| PyStr.JoinEndsWithLast | caf_to_wav_gui.py:254 | `sep.join(parts)` ends with the last part |
| PyPath.Join | caf_to_wav_gui.py:199 | `os.path.join(a, b)` ends with `b` |
| PyPath.SplitExt | caf_to_wav_gui.py:265 | `os.path.splitext` splits the path into two halves that concatenate back to it |
| PyPath.BaseName | wav_bit_depth_converter.py:241 | `basename` has no `/` and is a suffix of the path |
| PyPath.RelPath | caf_to_wav_gui.py:264 | `relpath` of a path below the start is non-empty and relative |
| PyPath.JoinRelPath | caf_to_wav_gui.py:264-266 | joining the start with the relative path gives the path back |
| PyPath.RelPathJoin | caf_to_wav_gui.py:264-266 | a relative remainder joined onto a directory lies below it, and `relpath` recovers it |
| PyPath.JoinInjective | caf_to_wav_gui.py:266 | joining distinct relative remainders onto one directory gives distinct paths |
| PyPath.SplitExtStem | caf_to_wav_gui.py:265 | `splitext` of a non-empty path keeps a non-empty stem with the same first character |
| PyPath.SplitExtOfName | caf_to_wav_gui.py:269 | for a file `<stem>.<ext>` whose stem is not all dots, `splitext` strips exactly the extension |
| PyPath.BaseNameJoin | wav_bit_depth_converter.py:241 | `basename(join(d, n))` is `n` for a plain name |
| PyPath.DirName | wav_bit_depth_converter.py:242 | `dirname(p)` is a prefix of `p` |
| PyPath.DirNameJoin | wav_bit_depth_converter.py:242-248 | `dirname(join(d, n))` is `d` for a plain name `n` and a directory `d` not ending in `/` |
| Scan.MatchesMembers | wav_bit_depth_converter.py:144-147 | a listing filter keeps exactly the names whose lower-cased form ends in the extension, joined onto the folder |
| Scan.MatchesAppend | wav_bit_depth_converter.py:144-147 | the listing filter preserves order: filtering a concatenation concatenates the filtered parts |
| Scan.WalkMatchesAppend | caf_to_wav_gui.py:196-199 | the walk filter preserves walk order across entries |
| Scan.WalkMatchesBelow | caf_to_wav_gui.py:196-199 | every path found in a walk of a folder lies strictly below that folder |
| CafToWavGui.CommandShape | caf_to_wav_gui.py:209-231 | for every destination, the command has 9 arguments with trimming and 7 without, starts `ffmpeg -i <caf>`, has `-af silenceremove=…` right after it iff trimming, and ends `-acodec <codec> -y/-n <destination>` |
| CafToWavGui.CommandMeaning | caf_to_wav_gui.py:209-231 | the command starts `ffmpeg -i <caf>` and ends with the destination; `-af silenceremove=…` is present iff trimming; ffmpeg reads the codec as `pcm_s24le` for "24" and `pcm_f32le` otherwise, overwrite as the option, and the destination as the output |
| CafToWavGui.FirstDurationAt | caf_to_wav_gui.py:244-248 | the info is the first stderr line containing `Duration:`, stripped |
| CafToWavGui.FirstDurationNone | caf_to_wav_gui.py:244-248 | with no such line the info is empty |
| CafToWavGui.DurationInfo | caf_to_wav_gui.py:242-248 | the `"Duration:" in stderr` guard never changes the result: the info is always the first stripped line mentioning `Duration:`, or "" |
| CafToWavGui.NoDurationLine | caf_to_wav_gui.py:244-248 | when stderr does not mention `Duration:`, no line of it does, so the info is "" |
| CafToWavGui.ErrorTail | caf_to_wav_gui.py:253 | the tail is the last three pieces of `stderr.split('\n')`, or all of them when there are fewer |
| CafToWavGui.ErrorTailEndsStderr | caf_to_wav_gui.py:253 | the tail joined with newlines is the end of stderr, and all of stderr when there are fewer than three pieces |
| CafToWavGui.ErrorTailWholeLines | caf_to_wav_gui.py:253 | no line of the tail holds a newline |
| CafToWavGui.JoinLetters | caf_to_wav_gui.py:254 | `' '.join` of a string's letters interleaves the letters with spaces |
| CafToWavGui.EmptyStderrSpelledOut | caf_to_wav_gui.py:253-254 | as written, an empty stderr gives the 39-character message `FFmpeg error: U n k n o w n   e r r o r`, not the intended one |
| CafToWavGui.FfmpegErrorReports | caf_to_wav_gui.py:250-254 | the corrected error message is filed as an error, is `FFmpeg error: Unknown error` for an empty stderr, and otherwise is `FFmpeg error: ` followed by the last three pieces of `stderr.split('\n')` (all of them if fewer) joined by spaces |
| CafToWavGui.FfmpegErrorAsWrittenReports | caf_to_wav_gui.py:250-254 | the message as written is filed as an error; with a non-empty stderr it equals the corrected one, `FFmpeg error: ` followed by the last three pieces of stderr joined by spaces |
| CafToWavGui.RunReply | caf_to_wav_gui.py:241-257 | exit 0 ⇔ success; a non-zero exit with `already exists` in stderr ⇔ skipped; everything else, including an exception, is an error; only a success returns the path; a success carries the first stripped stderr line mentioning `Duration:` (or "") as info and every other reply carries ""; an exception reads `Exception: <message>` and any other failure carries the message as written (letter-spaced for an empty stderr) |
| CafToWavGui.PlanDestination | caf_to_wav_gui.py:263-269 | the destination ends in `.wav` |
| CafToWavGui.DestinationPositional | caf_to_wav_gui.py:263-269 | when the output folder (or, without one, the source path) does not start with `-`, ffmpeg never reads the planned destination as an option, so it is taken as the output |
| CafToWavGui.PlanMirrors | caf_to_wav_gui.py:263-266 | with an output folder the destination lies below it, at the source's relative path with the extension replaced by `.wav` |
| CafToWavGui.PlanBesideSource | caf_to_wav_gui.py:268-269 | without one, `<stem>.caf` (any case) becomes `<stem>.wav` in the same place |
| CafToWavGui.DistinctStemsDistinctDestinations | caf_to_wav_gui.py:263-269 | files whose extension-less (relative) paths differ get different destinations |
| CafToWavGui.CaseVariantsCollide | caf_to_wav_gui.py:269 | for any dot-free stem, `<stem>.caf` and `<stem>.CAF` in one folder both pass the scan and both plan to `<stem>.wav` in that folder |
| CafToWavGui.AttemptOutcome | caf_to_wav_gui.py:259-282 | existing destination with overwrite off ⇒ skipped with the path and ffmpeg not run; ffmpeg missing ⇒ error and ffmpeg not run; otherwise ffmpeg runs once with the planned command; converted ⇔ ffmpeg exits 0 |
| CafToWavGui.AppendEvent | caf_to_wav_gui.py:337-351 | each file raises exactly the counter its status selects (`== "success"`, then `startswith("skipped")`, then the rest), and a success adds its destination to the filesystem |
| CafToWavGui.TallyStatus | caf_to_wav_gui.py:337-351 | after one more attempt the counters are the counts over the longer run, their sum has grown by one, and the filesystem is the one the longer run leaves |
| CafToWavGui.CountsPartition | caf_to_wav_gui.py:337-354 | the three counters add up to the number of attempted files |
| CafToWavGui.SuccessesWritten | caf_to_wav_gui.py:241-249 | the destination of every success exists after the run |
| CafToWavGui.AfterGrows | caf_to_wav_gui.py:241-249 | a run only adds files |
| CafToWavGui.ReplaysAt | caf_to_wav_gui.py:323-357 | attempt `k` is file `k`'s conversion, against the filesystem the earlier attempts left |
| CafToWavGui.SecondRunSkips | caf_to_wav_gui.py:272-273 | a second run with overwrite off skips every file the first run converted, without running ffmpeg |
| CafToWavGui.CafToWavConverter.constructor | caf_to_wav_gui.py:22-128 | not running, no folders chosen and ffmpeg availability from start-up, as `__init__` sets them (lines 22-27); bit depth "24", overwrite off and trimming on, the defaults `setup_ui` gives its controls (lines 105, 122 and 128) |
| CafToWavGui.CafToWavConverter.FindCafFiles | caf_to_wav_gui.py:193-200 | returns exactly the walk's files whose lower-cased name ends in `.caf`, joined onto their directory, in walk order |
| CafToWavGui.CafToWavConverter.AppendCafFiles | caf_to_wav_gui.py:197-199 | appends to the list found so far exactly the files of one directory whose lower-cased name ends in `.caf`, joined onto the directory, in listing order |
| CafToWavGui.CafToWavConverter.ConvertWithFfmpeg | caf_to_wav_gui.py:202-257 | runs exactly the planned command once, and its reply is `RunReply` of that run's outcome, the error message as written included |
| CafToWavGui.CafToWavConverter.ConvertCafToWav | caf_to_wav_gui.py:259-282 | plans the destination and applies the pre-flight checks exactly as the attempt specification says |
| CafToWavGui.CafToWavConverter.ConversionThread | caf_to_wav_gui.py:284-381 | no ffmpeg ⇒ nothing done; no `.caf` file ⇒ nothing done; otherwise the main loop's guarantees; the flag is cleared at the end |
| CafToWavGui.CafToWavConverter.MainLoop | caf_to_wav_gui.py:323-357 | polls the flag before each file and stops at the first false poll (attempted ≤ found); attempts files in order, once each; raises one counter per file; progress = converted + skipped + errors = attempted |
| CafToWavGui.CafToWavConverter.StartConversion | caf_to_wav_gui.py:384-399 | no folder ⇒ warning and nothing changes; running ⇒ the flag is cleared (cancel); otherwise the flag is set and the worker starts |
| WavBitDepth.ValidateInputs | wav_bit_depth_converter.py:119-132 | fails on an empty folder, then a missing folder, then no target chosen, in that order; passes exactly when all three hold |
| WavBitDepth.BitDepthAsWritten | wav_bit_depth_converter.py:150-170 | the depth is one of 0, 8, 16, 24, 32; a read failure is 0; 32 iff the subtype contains `PCM_32` or `FLOAT`; 24 iff not that and it contains `PCM_24`; 16 iff neither and it contains `PCM_16`; 8 iff none of those and it contains `PCM_8` |
| WavBitDepth.BitDepth | wav_bit_depth_converter.py:150-170 | the corrected classifier: a read failure is 0; it agrees with the code on 32, 24 and 16; it differs from the code only by returning 8 where the code returns 0, and it does return 8 for `PCM_S8` and `PCM_U8` |
| WavBitDepth.EightBitMissed | wav_bit_depth_converter.py:163-164 | as written, the 8-bit subtypes `PCM_S8` and `PCM_U8` classify as 0 |
| WavBitDepth.TargetSubtype | wav_bit_depth_converter.py:179-184 | a write subtype exists exactly for targets 24 and 16 |
| WavBitDepth.TargetSubtypeRoundTrip | wav_bit_depth_converter.py:179-184 | a file written with a target's subtype is classified back as that target by `get_bit_depth` as written |
| WavBitDepth.ConvertFile | wav_bit_depth_converter.py:172-194 | the write is attempted iff the read succeeds and the target is 24 or 16, with that target's subtype, to the output path; the result is true iff that write succeeds |
| WavBitDepth.Select32Members | wav_bit_depth_converter.py:216-220 | the filter keeps exactly the discovered files whose depth, by `get_bit_depth` as written, is 32 |
| WavBitDepth.Select32Append | wav_bit_depth_converter.py:216-220 | the filter preserves discovery order |
| WavBitDepth.JobsFor | wav_bit_depth_converter.py:245-276 | a file gets one conversion per chosen target |
| WavBitDepth.JobsLength | wav_bit_depth_converter.py:231-234 | the number of conversions is the number of 32-bit files × the number of chosen targets |
| WavBitDepth.JobsMembers | wav_bit_depth_converter.py:245-276 | a file's 24-bit (16-bit) conversion is in the run iff the file is and that target is chosen |
| WavBitDepth.OutputInSubfolder | wav_bit_depth_converter.py:241-248 | the output of a file lies in the `sub` folder of the file's own folder (`dirname` of the output is `join(dirname(f), sub)`), under the file's name |
| WavBitDepth.OutputsApart | wav_bit_depth_converter.py:247-264 | a file's 24-bit and 16-bit outputs never coincide, and both keep the file's name |
| WavBitDepth.PerformAllAt | wav_bit_depth_converter.py:245-276 | each conversion's outcome depends on its own job only, so a failed 24-bit conversion does not affect the 16-bit one |
| WavBitDepth.WavConverter.constructor | wav_bit_depth_converter.py:18-28 | empty folder, no subfolders, no target, not processing |
| WavBitDepth.WavConverter.FindWavFiles | wav_bit_depth_converter.py:134-148 | recursively: the walk's `.wav` files in walk order; otherwise: the listing's `.wav` names joined onto the folder, in listing order |
| WavBitDepth.WavConverter.Filter32 | wav_bit_depth_converter.py:216-220 | returns the 32-bit files in discovery order |
| WavBitDepth.WavConverter.ConvertOne | wav_bit_depth_converter.py:239-276 | converts one file to each chosen target, 24 before 16, whatever the first outcome, counting once per conversion |
| WavBitDepth.WavConverter.ConvertAll | wav_bit_depth_converter.py:239-276 | performs the run's conversions in order, and the counter ends at files × targets |
| WavBitDepth.WavConverter.ProcessFiles | wav_bit_depth_converter.py:196-292 | no `.wav` file, or no 32-bit file, ends the run with nothing converted; otherwise all conversions are performed with progress = maximum = files × targets; `is_processing` is cleared at the end |
| WavBitDepth.WavConverter.StartConversion | wav_bit_depth_converter.py:294-313 | does nothing while processing; otherwise sets `is_processing` only when validation passes, and reports the first failed check otherwise |
| CafToWav32.Components | caf_to_wav32.py:31 | pathlib keeps only non-empty components other than `.` |
| CafToWav32.ParsePath | caf_to_wav32.py:31 | `Path(s)` has well-formed components |
| CafToWav32.ParseRender | caf_to_wav32.py:16-18 | `Path(str(p)) == p`: the string handed to ffmpeg names the same path |
| CafToWav32.Stem | caf_to_wav32.py:42 | the stem is a prefix of the name, and non-empty for a non-empty name |
| CafToWav32.ConvertCafToWav | caf_to_wav32.py:10-27 | success iff ffmpeg exits 0; any other exit is a failure; any other exception escapes |
| CafToWav32.OutputPlacement | caf_to_wav32.py:41-42 | the output is in the `32bit_wav` subfolder of the source's folder, named `<stem>.wav`, with the source's stem |
| CafToWav32.DistinctOutputs | caf_to_wav32.py:41-42 | two `.caf` files with non-empty stems share an output only if they are the same file |
| CafToWav32.BareExtensionCollides | caf_to_wav32.py:41-42 | `.caf` and `.caf.caf` in one folder share the output `32bit_wav/.caf.wav` |
| CafToWav32.CommandMeaning | caf_to_wav32.py:13-19 | when a relative input inside a folder does not start with `-`, ffmpeg reads the command as: this input, no filter, codec `pcm_f32le`, overwrite, this output |
| CafToWav32.Replay | caf_to_wav32.py:37-43 | a completed run has one result per file; an aborted one has fewer |
| CafToWav32.ReplayAt | caf_to_wav32.py:40-43 | file `k` was attempted with its own command, its result is exit code 0, and a failure does not end the loop |
| CafToWav32.ReplayCompletes | caf_to_wav32.py:37-43 | every file is attempted iff no attempt raises; otherwise the loop stops at the first attempt that raises |
| CafToWav32.ConvertFolder | caf_to_wav32.py:29-45 | a missing folder stops before any conversion; otherwise the files are attempted once each, in discovery order |

## Left out

- The tkinter windows: widgets, labels, log text, message boxes, browse dialogs, shortening of displayed paths and `update_idletasks`. They only display results.
- Threads. The GUI worker's cancel flag is modelled as the value it reads before each file.
- `subprocess.run`, `shutil.which` and ffmpeg itself. An encoder run is given as its outcome.
- CafToWavGui.DestinationPositional: requires that the output folder (or, without one, the source path) does not start with `-`; otherwise ffmpeg would read the destination as an option.
- CafToWav32.CommandMeaning: requires that a relative input inside a folder does not start with `-`; otherwise ffmpeg would read the output as an option.
- PyStr.Lower: lowers ASCII capitals only. Python's `lower()` also lowers other capitals (`'É'` becomes `'é'`) and can lengthen a string (`'İ'` lowers to two characters). The model uses `lower()` only for the `.caf` and `.wav` suffix tests, and no non-ASCII character lowers to `.`, `c`, `a`, `f`, `w` or `v`, so those tests decide the same way.
- PyPath: models `os.path` as `posixpath`, with `/` as the only separator and no drives. On Windows, where the GUI is meant to run, `ntpath` also accepts `\`, keeps drive letters in `join` and `relpath`, and compares paths in `relpath` without regard to case; those behaviours are not modelled.
- PyPath.RelPath: covers only the paths `os.walk(start)` yields below `start`, whose remainders hold no `.` or `..` component. `os.path.relpath` normalises such components, and the model does not.
- CafToWavGui.After: assumes a failed or skipped ffmpeg run leaves no file at the destination. A real ffmpeg run can leave a partial output after a failure. This matters to `ReplaysAt` only when two files share a destination, where the later file's pre-flight check could then see the earlier file's partial output.
- The audio data and floating-point samples of `sf.read`/`sf.write`. Only success or failure of each call is modelled.
- `os.makedirs` and `Path.mkdir`. Their failure is part of the write's outcome in the downconverter. In the command-line tool, directory creation is assumed to succeed.
- Filesystem traversal. `os.walk`, `os.listdir` and `rglob` are given as their results.
- `rglob("*.caf")` itself. Its letter-case behaviour differs by platform, and the list of found files is given as input.
- CafToWav32.ParsePath: treats the `//` anchor, which pathlib keeps at the start of a POSIX path, like `/`.
- The `silenceremove` thresholds. Only the presence of the filter is modelled.
- The relative path `process_files` computes at wav_bit_depth_converter.py:240. It is used only for logging.
- CafToWavGui.CafToWavConverter.MainLoop: reads the overwrite option, the output folder and the source folder once per run. The source re-reads `overwrite_var` (caf_to_wav_gui.py:229, 272), `output_directory` (caf_to_wav_gui.py:334) and `selected_directory` (caf_to_wav_gui.py:264, 328) for each file, and the Browse buttons stay enabled during a run, so a change made mid-run is not modelled.
- WavBitDepth.WavConverter.ConvertAll: reads the two target check boxes once per run. The source re-reads them for each file, so a change made mid-run is not modelled.
- Exceptions inside `process_files` other than those of `sf.info`, `sf.read`, `sf.write` and `os.makedirs` are not modelled. Those four are modelled as a failed read or write.
- Exceptions inside `convert_caf_to_wav` in the GUI other than an exception starting ffmpeg are not modelled.
- The completion dialogs and "COMPLETE" log lines after a cancelled run.

## Findings

| source | as written | input that shows it | evidently intended | confidence | as-written member | corrected member |
|---|---|---|---|---|---|---|
| caf_to_wav_gui.py:253-254 | with an empty stderr the fallback string `"Unknown error"` itself is passed to `' '.join`, which joins its characters | ffmpeg exits with code 1 and writes nothing to stderr | the message `FFmpeg error: Unknown error` | not executed; high | CafToWavGui.EmptyStderrSpelledOut | CafToWavGui.FfmpegErrorReports |
| wav_bit_depth_converter.py:163-164 | the 8-bit case checks for `PCM_8`, a subtype name `soundfile` does not use; its 8-bit subtypes are `PCM_S8` and `PCM_U8` | an 8-bit WAV file, reported with subtype `PCM_U8` | depth 8; the 32-bit filter is the same either way | not executed; medium | WavBitDepth.EightBitMissed | WavBitDepth.BitDepth |
