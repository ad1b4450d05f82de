# docling_ui: the conversion command builder

A Dafny model of the one piece of logic in the docling Streamlit front end:
`run_docling_command` in `docling_ui.py` and its platform default directory
`get_default_output_dir`. Given the path of a staged upload, the requested
output formats, the OCR switch and an optional output directory, the builder

1. recovers the uploaded file's original name from the staging name (everything
   after the first `_` of the last path component, or the whole component);
2. takes that name's stem (`Path.stem`);
3. builds the argument list of the external `docling` tool:
   `docling <input> [--to <fmt> --output <dir>/<stem>.<fmt>]... [--no-ocr]`,
   one group per requested format in request order, and the list of expected
   output files, one per format;
4. classifies the process result: exit status 0 gives success with the captured
   standard output and all expected files; any other status gives failure with
   the captured standard error and no files; a launch that raises gives failure
   with the exception text and no files.

The output directory is the caller's when given and non-empty, otherwise the
platform default: `C:\` when the platform name is `windows` in any
capitalisation, `/root` for every other platform.

Files:

- `options.dfy` — module `Options`: the `Option` type standing for Python's `None`.
- `path_text.dfy` — module `PathText`: `Path.name` (`BaseName`), `Path.stem`
  (`Stem`), the joined path `Path(dir) / name` kept as the pair `FsPath(dir, name)`,
  and the first/last-occurrence searches they rest on.
- `docling_ui.dfy` — module `DoclingUi`: `DefaultOutputDir`, the name recovery,
  the specification functions `OutputFiles` and `DoclingCommand`, the loop that
  builds them (`BuildCommand`), and `RunDoclingCommand`, which recovers the stem,
  calls the loop and classifies the process result.

Command-line arguments are the datatype `Arg`: `Word(text)` for the literal
strings and `PathArg(path)` for `str(output_path)`, so "the `--output` argument
of group k is the path reported as output file k" is an equality of values.
The process run is the input `ProcessResult` (`Exited(code, stdout, stderr)` or
`LaunchFailed(message)`); the result of `platform.system()` is the input `system`.

The staging round trip (`StagingRoundTrip`) holds in both directions: recovering
from `prefix + "_" + f` gives back `f` exactly when `prefix` has no `_` of its
own. The caller builds the staging name by appending `_<original name>` to a
generated temporary name, and Python's temporary names are drawn from an
alphabet that includes `_` (lower-case letters, digits and `_`). When the
generated part is `a_b` (no `_` in `a`), the recovered name is `b_<original name>`
(`StagingPrefixWithSeparator`), and every output file is named after that
instead of the upload.

Two behaviours of the code worth noting: a successful exit reports standard
output as the message even when it is empty; and an empty list of formats is
accepted, giving the command `docling <input>` (plus `--no-ocr` when OCR is
off) and no output files. As in the source, `useOcr` defaults to `true` and
`outputDir` to `None`.

## Model

| member | source | states |
|---|---|---|
| `PathText.IndexOf` | docling_ui.py:22 | the first position of a character: absent iff the character does not occur; otherwise it holds the character and nothing before it does |
| `PathText.LastIndexOf` | docling_ui.py:22-23 | the last position of a character: absent iff it does not occur; otherwise it holds the character and nothing after it does |
| `PathText.BaseNameSpec` | docling_ui.py:18-22 | `Path.name` is the longest separator-free suffix of the path: it has no `/`, it is preceded by `/` when shorter than the path, and it is the whole path when the path has no `/` |
| `PathText.BaseNameOfJoin` | docling_ui.py:18-22 | the base name of `dir + "/" + name`, for a name without `/`, is `name` |
| `PathText.StemSpec` | docling_ui.py:23 | `Path.stem` is a prefix of the name; it is shorter exactly when there is a dot that is neither first nor last with no dot after it, and then the cut is at that dot |
| `PathText.StemOfDotted` | docling_ui.py:23 | the stem of `s + "." + e`, for non-empty `s` and a non-empty dot-free `e`, is `s` |
| `DoclingUi.Lower` | docling_ui.py:10 | lower-casing keeps the length, leaves no upper-case ASCII letter, and changes only upper-case letters, each to the letter 32 code points above |
| `DoclingUi.DefaultOutputDir` | docling_ui.py:8-14 | the default is `C:\` or `/root`, and it is `C:\` exactly when the platform name has seven characters, each the letter of `windows` or its upper-case form |
| `DoclingUi.RecoverOriginalNameSpec` | docling_ui.py:22 | without `_` the recovered name is the whole name; otherwise the name is `p + "_" + r` with no `_` in `p`, and `r` is recovered |
| `DoclingUi.GivenDirectoryUsed` | docling_ui.py:30 | with a given non-empty output directory, every output file lies in that directory |
| `DoclingUi.StagingPrefixWithSeparator` | docling_ui.py:22 | when the generated part of the staging name is `a_b` with no `_` in `a`, the recovered name is `b_original`, not `original` |
| `DoclingUi.StagingRoundTrip` | docling_ui.py:132 | recovering from `prefix + "_" + f` gives exactly `f` if and only if `prefix` contains no `_` |
| `DoclingUi.StagedInputNamesOutputs` | docling_ui.py:132-137 | for an input staged as `dir/prefix_original` (no `/` in prefix or original, no `_` in prefix), the output stem is the stem of `original`, not of the staging name |
| `DoclingUi.OutputFiles` | docling_ui.py:26-34 | one expected output file per requested format, duplicates kept |
| `DoclingUi.OutputFilesSnoc` | docling_ui.py:34 | one more format appends exactly its path `dir / (stem + "." + fmt)` to the output files |
| `DoclingUi.OutputPathsCoincide` | docling_ui.py:29-34 | output files k and j are the same path if and only if formats k and j are equal |
| `DoclingUi.DefaultDirectoryUsed` | docling_ui.py:30 | with no output directory or an empty one, every output file lies in the platform default directory |
| `DoclingUi.FormatArgsSnoc` | docling_ui.py:32-33 | one more format appends exactly `--to fmt --output path` to the format arguments |
| `DoclingUi.FormatArgsLength` | docling_ui.py:29-33 | the format arguments are four per requested format |
| `DoclingUi.FormatArgsAt` | docling_ui.py:29-34 | group k of the format arguments is `--to`, format k, `--output`, output file k |
| `DoclingUi.CommandShape` | docling_ui.py:19-38 | the command has length 2 + 4·n (+1 without OCR), starts with `docling` and the input path, holds group k at positions 2+4k..5+4k with output file k as its `--output` value, and ends with `--no-ocr` when OCR is off |
| `DoclingUi.NoOcrFlagOnlyLast` | docling_ui.py:37-38 | when neither the input nor a format is literally `--no-ocr`, the flag occurs iff OCR is off, and only as the last element |
| `DoclingUi.BuildCommand` | docling_ui.py:19-38 | the loop builds exactly the specified command and the specified output files, with the directory reassigned to the default inside the loop when none was given |
| `DoclingUi.RunDoclingCommand` | docling_ui.py:16-47 | the command is the specified one for the stem recovered from the input path; success iff the process exited 0; on success the message is stdout and the files are all expected outputs; on failure (non-zero exit or launch exception) the files are empty and the message is stderr or the exception text |

## Left out

- `subprocess.run` (docling_ui.py:41) is a foreign process call: its result is the input `ProcessResult`, independent of the command; no timeout, no output capture mechanics.
- `platform.system()` (docling_ui.py:10) is an environment query: its value is the parameter `system`.
- `DoclingUi.Lower` lowers ASCII letters only; Python's `str.lower` also maps other Unicode characters, but no string other than the capitalisations of `windows` lowers to exactly `windows`, so `DefaultOutputDir` is unaffected.
- `PathText.BaseNameSpec` and `PathText.StemSpec` describe POSIX paths as text: Windows path flavour (backslash separators, drives), trailing separators, and pathlib's normalisation of `.` and repeated separators are not modelled; `str(Path(input_path))` is taken to be the input path as given.
- `Path(dir) / name` is the pair `FsPath(dir, name)`; how pathlib joins and prints it is not modelled. Paths are compared as pairs, so `OutputPathsCoincide`'s "distinct formats never collide" does not cover formats that pathlib would normalise to the same path (such as `md` and `md/`).
- `main()` (docling_ui.py:81-160) is Streamlit widgets, temporary-file writing and deletion, and progress-bar updates; only the staging name it builds is used, in `StagingRoundTrip` and `StagedInputNamesOutputs`.
- `convert_file` (docling_ui.py:49-79) creates directories and maps OS errors to UI messages; its conversion body is empty.
- The launch-port default (docling_ui.py:162-166) is launch plumbing.
- Reconciling a directory written in place of an output file, and presenting downloads, do not occur in `docling_ui.py` and are not modelled.
