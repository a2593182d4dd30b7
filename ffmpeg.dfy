/**
 * The external encoder. Running ffmpeg is not modelled: a run is given as
 * its outcome (exit status and captured standard error, or an exception
 * raised while starting it). What a command asks ffmpeg to do is given
 * meaning by `Read`, which reads an argument list the way ffmpeg's command
 * line does for the options the converters use.
 */
module Ffmpeg {
  import opened Wrappers
  import opened PyStr

  /** The outcome of `subprocess.run(cmd, ...)`. */
  datatype Run = Exited(code: int, stderr: string) | Raised(message: string)

  /** What ffmpeg takes from its command line: input file (`-i`), audio
      filter graph (`-af`), audio codec (`-acodec`/`-c:a`), overwrite policy
      (`-y` yes, `-n` never) and the output file (the positional argument). */
  datatype Invocation = Invocation(
    input: Option<string>,
    filter: Option<string>,
    codec: Option<string>,
    overwrite: Option<bool>,
    output: Option<string>)

  const NoOptions := Invocation(None, None, None, None, None)

  /** Options that consume the argument after them. */
  predicate TakesValue(a: string) {
    a == "-i" || a == "-af" || a == "-acodec" || a == "-c:a"
  }

  /** Options that stand alone. */
  predicate IsFlag(a: string) {
    a == "-y" || a == "-n"
  }

  /** An argument ffmpeg reads as a file name when it is not the value of
      an option: every argument that starts with `-`, except `-` itself,
      is read as an option. */
  predicate Positional(a: string) {
    |a| <= 1 || a[0] != '-'
  }

  /** A text that does not start with a dash. */
  predicate NotDashed(a: string) {
    a == [] || a[0] != '-'
  }

  function WithValue(acc: Invocation, opt: string, v: string): Invocation
    requires TakesValue(opt)
  {
    if opt == "-i" then acc.(input := Some(v))
    else if opt == "-af" then acc.(filter := Some(v))
    else acc.(codec := Some(v))
  }

  /** Reads the arguments after the program name from left to right; an
      option missing its value, or an option other than the known ones,
      makes the command unreadable (`None`). */
  function ReadArgs(args: seq<string>, acc: Invocation): Option<Invocation>
    decreases |args|
  {
    if args == [] then Some(acc)
    else if IsFlag(args[0]) then ReadArgs(args[1..], acc.(overwrite := Some(args[0] == "-y")))
    else if TakesValue(args[0]) then
      if |args| == 1 then None else ReadArgs(args[2..], WithValue(acc, args[0], args[1]))
    else if !Positional(args[0]) then None
    else ReadArgs(args[1..], acc.(output := Some(args[0])))
  }

  /** The meaning of a whole command line, which must start with `ffmpeg`. */
  function Read(cmd: seq<string>): Option<Invocation> {
    if cmd != [] && cmd[0] == "ffmpeg" then ReadArgs(cmd[1..], NoOptions) else None
  }

  lemma ReadValueStep(opt: string, v: string, rest: seq<string>, acc: Invocation)
    requires TakesValue(opt)
    ensures ReadArgs([opt, v] + rest, acc) == ReadArgs(rest, WithValue(acc, opt, v))
  {
    assert ([opt, v] + rest)[2..] == rest;
  }

  lemma ReadFlagStep(flag: string, rest: seq<string>, acc: Invocation)
    requires IsFlag(flag)
    ensures ReadArgs([flag] + rest, acc) == ReadArgs(rest, acc.(overwrite := Some(flag == "-y")))
  {
    assert ([flag] + rest)[1..] == rest;
  }

  lemma ReadOutputStep(out: string, acc: Invocation)
    requires Positional(out)
    ensures ReadArgs([out], acc) == Some(acc.(output := Some(out)))
  {
    assert [out][1..] == [];
  }
}
