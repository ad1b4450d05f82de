/**
  The command builder of the docling front end: the platform default output
  directory, the recovery of the uploaded file's name from its staging name,
  the argument list handed to the external `docling` tool together with the
  output paths it is asked to write, and the classification of the process
  result into an outcome.
 */
module DoclingUi {
  import opened Options
  import opened PathText

  /** Default output directory on Windows hosts. */
  const WindowsDefault: string := "C:\\"

  /** Default output directory on every other host (Linux, macOS). */
  const PosixDefault: string := "/root"

  /** The platform name the default directory is keyed on, in lower case. */
  const WindowsName: string := "windows"

  /** The flag that turns OCR off. */
  const NoOcrFlag: string := "--no-ocr"

  /** One element of the command line: plain text, or a path written out by `str(path)`. */
  datatype Arg = Word(text: string) | PathArg(path: FsPath)

  /** What launching the tool gave back: an exit with captured text, or an exception with its message. */
  datatype ProcessResult =
    | Exited(code: int, stdout: string, stderr: string)
    | LaunchFailed(message: string)

  /** The triple the source returns: success flag, message, reported output files. */
  datatype Outcome = Outcome(success: bool, message: string, files: seq<FsPath>)

  /** ASCII lower-casing of one character. */
  function LowerChar(c: char): char
  {
    if 'A' <= c <= 'Z' then (c as int + 32) as char else c
  }

  /**
    `s.lower()` on ASCII letters: no upper-case letter is left, and the only
    characters that change are upper-case letters, each to its lower-case form.
   */
  function Lower(s: string): (r: string)
    ensures |r| == |s|
    ensures forall i :: 0 <= i < |r| ==> !('A' <= r[i] <= 'Z')
    ensures forall i :: 0 <= i < |s| && r[i] != s[i] ==> 'A' <= s[i] <= 'Z' && r[i] as int == s[i] as int + 32
  {
    seq(|s|, i requires 0 <= i < |s| => LowerChar(s[i]))
  }

  /**
    `get_default_output_dir`, with the result of `platform.system()` passed
    in as `system`: the Windows root for any capitalisation of "windows",
    `/root` for every other platform name.
   */
  function DefaultOutputDir(system: string): (r: string)
    ensures r == WindowsDefault || r == PosixDefault
    ensures r == WindowsDefault <==>
              |system| == |WindowsName| &&
              forall i :: 0 <= i < |system| ==>
                system[i] == WindowsName[i] || system[i] as int == WindowsName[i] as int - 32
  {
    if Lower(system) == WindowsName then WindowsDefault else PosixDefault
  }

  /** The directory every output path is placed under: the caller's when it is given and non-empty. */
  function ResolveOutputDir(outputDir: Option<string>, system: string): string
  {
    if outputDir.Some? && outputDir.value != "" then outputDir.value else DefaultOutputDir(system)
  }

  /** The separator between the staging prefix and the original file name. */
  const StagingSeparator: char := '_'

  /** The original file name recovered from a staging name: `name.split('_', 1)[1]`, or `name` without `_`. */
  function RecoverOriginalName(name: string): string
  {
    match IndexOf(name, StagingSeparator)
    case None => name
    case Some(i) => name[i + 1..]
  }

  /**
    The recovered name is all of a name without `_`; otherwise the name
    splits as `p + "_" + r` with no `_` in `p`, and `r` is what is recovered.
   */
  lemma RecoverOriginalNameSpec(name: string)
    ensures StagingSeparator !in name ==> RecoverOriginalName(name) == name
    ensures StagingSeparator in name ==>
              var r := RecoverOriginalName(name);
              var p := name[..|name| - |r| - 1];
              |r| < |name| && name == p + [StagingSeparator] + r && StagingSeparator !in p
  {
  }

  /** The stem that names every output: that of the original name recovered from the input path. */
  function OriginalStem(inputPath: string): string
  {
    Stem(RecoverOriginalName(BaseName(inputPath)))
  }

  /** The output path for one format: `dir / (stem + "." + fmt)`. */
  function OutputPath(dir: string, stem: string, fmt: string): FsPath
  {
    FsPath(dir, stem + "." + fmt)
  }

  /** The expected output files: one per requested format, in request order. */
  function OutputFiles(dir: string, stem: string, formats: seq<string>): (r: seq<FsPath>)
    ensures |r| == |formats|
  {
    seq(|formats|, k requires 0 <= k < |formats| => OutputPath(dir, stem, formats[k]))
  }

  /** Requesting one more format appends its path: the loop's step for `output_files`. */
  lemma OutputFilesSnoc(dir: string, stem: string, formats: seq<string>, fmt: string)
    ensures OutputFiles(dir, stem, formats + [fmt]) == OutputFiles(dir, stem, formats) + [OutputPath(dir, stem, fmt)]
  {
  }

  /** The `--to fmt --output path` groups for the formats, in request order. */
  function FormatArgs(dir: string, stem: string, formats: seq<string>): seq<Arg>
  {
    if |formats| == 0 then []
    else
      var n := |formats| - 1;
      FormatArgs(dir, stem, formats[..n])
        + [Word("--to"), Word(formats[n]), Word("--output"), PathArg(OutputPath(dir, stem, formats[n]))]
  }

  /** Requesting one more format appends its group: the loop's step for `cmd`. */
  lemma FormatArgsSnoc(dir: string, stem: string, formats: seq<string>, fmt: string)
    ensures FormatArgs(dir, stem, formats + [fmt])
            == FormatArgs(dir, stem, formats)
               + [Word("--to"), Word(fmt), Word("--output"), PathArg(OutputPath(dir, stem, fmt))]
  {
  }

  /** The whole argument list: tool name, input path, the format groups, and the OCR flag when OCR is off. */
  function DoclingCommand(inputPath: string, formats: seq<string>, useOcr: bool, dir: string, stem: string): seq<Arg>
  {
    [Word("docling"), Word(inputPath)]
      + FormatArgs(dir, stem, formats)
      + (if useOcr then [] else [Word(NoOcrFlag)])
  }

  /** Each requested format contributes exactly four arguments. */
  lemma {:induction false} FormatArgsLength(dir: string, stem: string, formats: seq<string>)
    ensures |FormatArgs(dir, stem, formats)| == 4 * |formats|
  {
    if |formats| > 0 {
      FormatArgsLength(dir, stem, formats[..|formats| - 1]);
    }
  }

  /** Group `k` of the format arguments is `--to formats[k] --output files[k]`. */
  lemma {:induction false} FormatArgsAt(dir: string, stem: string, formats: seq<string>, k: nat)
    requires k < |formats|
    ensures |FormatArgs(dir, stem, formats)| == 4 * |formats|
    ensures FormatArgs(dir, stem, formats)[4 * k] == Word("--to")
    ensures FormatArgs(dir, stem, formats)[4 * k + 1] == Word(formats[k])
    ensures FormatArgs(dir, stem, formats)[4 * k + 2] == Word("--output")
    ensures FormatArgs(dir, stem, formats)[4 * k + 3] == PathArg(OutputFiles(dir, stem, formats)[k])
  {
    FormatArgsLength(dir, stem, formats);
    var n := |formats| - 1;
    FormatArgsLength(dir, stem, formats[..n]);
    if k < n {
      FormatArgsAt(dir, stem, formats[..n], k);
    }
  }

  /**
    The shape of the command line: `docling`, the input path, one
    `--to fmt --output path` group per requested format in request order
    (repeated formats repeated), and `--no-ocr` last exactly when OCR is off.
   */
  lemma CommandShape(inputPath: string, formats: seq<string>, useOcr: bool, dir: string, stem: string)
    ensures var cmd := DoclingCommand(inputPath, formats, useOcr, dir, stem);
            |cmd| == 2 + 4 * |formats| + (if useOcr then 0 else 1) &&
            cmd[0] == Word("docling") && cmd[1] == Word(inputPath) &&
            (!useOcr ==> cmd[|cmd| - 1] == Word(NoOcrFlag))
    ensures forall k :: 0 <= k < |formats| ==>
              var cmd := DoclingCommand(inputPath, formats, useOcr, dir, stem);
              cmd[2 + 4 * k] == Word("--to") && cmd[3 + 4 * k] == Word(formats[k]) &&
              cmd[4 + 4 * k] == Word("--output") &&
              cmd[5 + 4 * k] == PathArg(OutputFiles(dir, stem, formats)[k])
  {
    FormatArgsLength(dir, stem, formats);
    var cmd := DoclingCommand(inputPath, formats, useOcr, dir, stem);
    var args := FormatArgs(dir, stem, formats);
    forall k | 0 <= k < |formats|
      ensures cmd[2 + 4 * k] == Word("--to") && cmd[3 + 4 * k] == Word(formats[k]) &&
              cmd[4 + 4 * k] == Word("--output") &&
              cmd[5 + 4 * k] == PathArg(OutputFiles(dir, stem, formats)[k])
    {
      FormatArgsAt(dir, stem, formats, k);
      assert cmd[2 + 4 * k] == args[4 * k];
      assert cmd[5 + 4 * k] == args[4 * k + 3];
    }
  }

  /**
    When neither the input path nor a format is itself `--no-ocr`, the flag
    occurs in the command line only as its last element, and only when OCR is
    off: together with `CommandShape`, it occurs exactly once iff OCR is off.
   */
  lemma NoOcrFlagOnlyLast(inputPath: string, formats: seq<string>, useOcr: bool, dir: string, stem: string)
    requires inputPath != NoOcrFlag
    requires forall k :: 0 <= k < |formats| ==> formats[k] != NoOcrFlag
    ensures var cmd := DoclingCommand(inputPath, formats, useOcr, dir, stem);
            Word(NoOcrFlag) in cmd <==> !useOcr
    ensures var cmd := DoclingCommand(inputPath, formats, useOcr, dir, stem);
            forall j :: 0 <= j < |cmd| && cmd[j] == Word(NoOcrFlag) ==> j == |cmd| - 1
  {
    var cmd := DoclingCommand(inputPath, formats, useOcr, dir, stem);
    var args := FormatArgs(dir, stem, formats);
    FormatArgsLength(dir, stem, formats);
    forall j | 0 <= j < |args| ensures args[j] != Word(NoOcrFlag) {
      var k := j / 4;
      FormatArgsAt(dir, stem, formats, k);
      assert j == 4 * k + j % 4;
    }
    forall j | 0 <= j < |cmd| && cmd[j] == Word(NoOcrFlag) ensures j == |cmd| - 1 {
      if 2 <= j < 2 + |args| {
        assert cmd[j] == args[j - 2];
      }
    }
    if !useOcr {
      assert cmd[|cmd| - 1] == Word(NoOcrFlag);
    }
  }

  /**
    Two output paths coincide exactly when their formats do: a repeated
    format names the same file twice, distinct formats never collide.
   */
  lemma OutputPathsCoincide(dir: string, stem: string, formats: seq<string>, i: nat, j: nat)
    requires i < |formats| && j < |formats|
    ensures OutputFiles(dir, stem, formats)[i] == OutputFiles(dir, stem, formats)[j] <==> formats[i] == formats[j]
  {
    var a := stem + "." + formats[i];
    var b := stem + "." + formats[j];
    assert a[|stem| + 1..] == formats[i];
    assert b[|stem| + 1..] == formats[j];
  }

  /** With no directory, or an empty one, every output path lies in the platform default directory. */
  lemma DefaultDirectoryUsed(outputDir: Option<string>, system: string, stem: string, formats: seq<string>)
    requires outputDir == None || outputDir == Some("")
    ensures forall f :: f in OutputFiles(ResolveOutputDir(outputDir, system), stem, formats) ==>
              f.dir == DefaultOutputDir(system)
  {
  }

  /** A caller-given, non-empty directory holds every output path. */
  lemma GivenDirectoryUsed(dir: string, system: string, stem: string, formats: seq<string>)
    requires dir != ""
    ensures forall f :: f in OutputFiles(ResolveOutputDir(Some(dir), system), stem, formats) ==> f.dir == dir
  {
  }

  /**
    Staging round trip: the recovered name of `prefix + "_" + original` is
    `original` exactly when `prefix` holds no `_` of its own.
   */
  lemma StagingRoundTrip(prefix: string, original: string)
    ensures RecoverOriginalName(prefix + [StagingSeparator] + original) == original <==>
              StagingSeparator !in prefix
  {
    var name := prefix + [StagingSeparator] + original;
    assert name[|prefix|] == StagingSeparator;
    RecoverOriginalNameSpec(name);
    var r := RecoverOriginalName(name);
    var p := name[..|name| - |r| - 1];
    if StagingSeparator !in prefix {
      assert forall t :: 0 <= t < |prefix| ==> name[t] != StagingSeparator;
      assert name[|p|] == StagingSeparator;
      assert name[|prefix| + 1..] == original;
    } else {
      var u :| 0 <= u < |prefix| && prefix[u] == StagingSeparator;
      assert name[u] == StagingSeparator;
      assert forall t :: 0 <= t < |p| ==> name[t] == p[t];
    }
  }

  /**
    A staging name whose generated part `a + "_" + b` holds a `_` of its own
    (no `_` in `a`): the recovered name keeps `b`, so the outputs are named
    after `b + "_" + original` instead of `original`.
   */
  lemma StagingPrefixWithSeparator(a: string, b: string, original: string)
    requires StagingSeparator !in a
    ensures RecoverOriginalName(a + [StagingSeparator] + b + [StagingSeparator] + original)
            == b + [StagingSeparator] + original
  {
    assert a + [StagingSeparator] + b + [StagingSeparator] + original
           == a + [StagingSeparator] + (b + [StagingSeparator] + original);
    StagingRoundTrip(a, b + [StagingSeparator] + original);
  }

  /**
    Outputs are named after the uploaded file, not its staging name: for an
    input staged as `dir/prefix_original`, with no `/` in `prefix` or
    `original` and no `_` in `prefix`, the stem is that of `original`.
   */
  lemma StagedInputNamesOutputs(tmpDir: string, prefix: string, original: string)
    requires Separator !in prefix && Separator !in original && StagingSeparator !in prefix
    ensures OriginalStem(tmpDir + [Separator] + prefix + [StagingSeparator] + original) == Stem(original)
  {
    var staged := prefix + [StagingSeparator] + original;
    assert tmpDir + [Separator] + prefix + [StagingSeparator] + original == tmpDir + [Separator] + staged;
    BaseNameOfJoin(tmpDir, staged);
    StagingRoundTrip(prefix, original);
  }

  /**
    docling_ui.py:19, 26-38, inside `run_docling_command`: the argument list and the
    expected output files, built by one pass over the requested formats,
    for the stem already recovered from the input path.
   */
  method BuildCommand(inputPath: string, originalStem: string, outputFormats: seq<string>, system: string,
                      useOcr: bool := true, outputDir: Option<string> := None)
    returns (cmd: seq<Arg>, outputFiles: seq<FsPath>)
    ensures cmd == DoclingCommand(inputPath, outputFormats, useOcr, ResolveOutputDir(outputDir, system), originalStem)
    ensures outputFiles == OutputFiles(ResolveOutputDir(outputDir, system), originalStem, outputFormats)
  {
    cmd := [Word("docling"), Word(inputPath)];
    outputFiles := [];
    var dir := outputDir;
    ghost var resolved := ResolveOutputDir(outputDir, system);
    for i := 0 to |outputFormats|
      invariant dir == outputDir || dir == Some(resolved)
      invariant cmd == [Word("docling"), Word(inputPath)] + FormatArgs(resolved, originalStem, outputFormats[..i])
      invariant outputFiles == OutputFiles(resolved, originalStem, outputFormats[..i])
    {
      var fmt := outputFormats[i];
      dir := if dir.Some? && dir.value != "" then dir else Some(DefaultOutputDir(system));
      var outputPath := FsPath(dir.value, originalStem + "." + fmt);
      ghost var before := cmd;
      cmd := cmd + [Word("--to"), Word(fmt)];
      cmd := cmd + [Word("--output"), PathArg(outputPath)];
      outputFiles := outputFiles + [outputPath];
      assert cmd == before + [Word("--to"), Word(fmt), Word("--output"), PathArg(outputPath)];
      assert outputFormats[..i + 1] == outputFormats[..i] + [fmt];
      FormatArgsSnoc(resolved, originalStem, outputFormats[..i], fmt);
      OutputFilesSnoc(resolved, originalStem, outputFormats[..i], fmt);
    }
    assert outputFormats[..|outputFormats|] == outputFormats;
    if !useOcr {
      cmd := cmd + [Word(NoOcrFlag)];
    }
  }

  /**
    `run_docling_command`. The process run is the parameter `run`, the
    platform name the parameter `system`; `cmd` is the argument list
    handed to the process.
   */
  method RunDoclingCommand(inputPath: string, outputFormats: seq<string>, system: string, run: ProcessResult,
                           useOcr: bool := true, outputDir: Option<string> := None)
    returns (cmd: seq<Arg>, outcome: Outcome)
    ensures cmd == DoclingCommand(inputPath, outputFormats, useOcr,
                                  ResolveOutputDir(outputDir, system), OriginalStem(inputPath))
    ensures outcome.success <==> run.Exited? && run.code == 0
    ensures outcome.success ==>
              outcome.message == run.stdout &&
              outcome.files == OutputFiles(ResolveOutputDir(outputDir, system), OriginalStem(inputPath), outputFormats)
    ensures !outcome.success ==>
              outcome.files == [] &&
              outcome.message == (if run.Exited? then run.stderr else run.message)
  {
    var originalFilename := RecoverOriginalName(BaseName(inputPath));
    var originalStem := Stem(originalFilename);
    var outputFiles;
    cmd, outputFiles := BuildCommand(inputPath, originalStem, outputFormats, system, useOcr, outputDir);
    match run
    case Exited(code, stdout, stderr) =>
      if code == 0 {
        outcome := Outcome(true, stdout, outputFiles);
      } else {
        outcome := Outcome(false, stderr, []);
      }
    case LaunchFailed(message) =>
      outcome := Outcome(false, message, []);
  }
}
