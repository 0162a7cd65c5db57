# auto-slice-video: a Dafny model of `autosv/slice/slice_video.py`

The module does three things with an external media tool (`ffmpeg`). It
renders a seconds offset as `HH:MM:SS` (`format_time`). It cuts a time range
out of a video (`slice_video`). It writes a generated title into a video's
`generate` metadata field (`add_mllm_title_to_metadata`). The title writer
has the tool write `<video>.temp`. On success that file is renamed over the
video. On failure it is removed.

The model has six modules:

- `Digits` (digits.dfy): the decimal text of a natural number, as Python's
  `str` and the `{n:02}` field produce it, and its reading back (`Value`).
- `TimeFormat` (time_format.dfy): `format_time` twice over.
  - `FormatTime` works on whole seconds. It is the reference definition.
  - `FormatSeconds` works on a non-negative real. It is written with Python's
    own `//`, `%` and `int()`, and is proved equal to `FormatTime` of the
    truncated value.
  - `ParseTime` reads the text back and is a left inverse of `FormatTime`.
- `ArgList` (arglist.dfy): the layout both command lines share. That is the
  program, `-y`, option/value pairs, and the output path last. It also gives
  the view the tool reads: `Options`, `ValuesOf`, `Output`.
- `Commands` (commands.dfy): the two argument lists as pure functions, and
  the temporary path.
- `FileSystem` (filesystem.dfy): files as a `map<Path, seq<byte>>`, with
  `os.replace`, `os.remove` and the effect of one tool run. A run is given
  from outside as an exit status plus what the tool left at its output path.
- `Slice` (slice_video.dfy): a `Workspace` class. Its fields are the
  filesystem and the record of command lines handed to the tool.
  `SliceVideo` and `AddMllmTitleToMetadata` are its methods.
  `AddMllmTitleToMetadata` is proved against the state-machine function
  `AddTitleOutcome`, and the file-replacement guarantees are lemmas about
  that function.

The slicing command's builder renders its offsets with `FormatTime` of the
truncated value. `FormatSeconds`'s contract proves that this is what the
source's `format_time` computes for a non-negative offset.

The code does not check that the slicer's output path differs from its
input. `SliceCommandRoles` therefore states that the input is a write target
exactly when the caller passes the same path for both.

## Model

| member | source | states |
|---|---|---|
| `TimeFormat.Split` | autosv/slice/slice_video.py:10-12 | minutes and seconds are below 60, and hours·3600 + minutes·60 + seconds is the input |
| `TimeFormat.SplitUnique` | autosv/slice/slice_video.py:10-12 | the split is the only reading with minutes and seconds below 60 that adds up to the input |
| `TimeFormat.FloorDivFloor` | autosv/slice/slice_video.py:10-12 | for non-negative x, `x // d` is floor(x) div d, and `x % d` is non-negative with floor(x) mod d as its floor |
| `TimeFormat.FormatSeconds` | autosv/slice/slice_video.py:8-13 | `format_time`, written with Python's `//`, `%` and `int()` on a non-negative real, equals `FormatTime` of the truncated seconds (truncation, not rounding) |
| `TimeFormat.FieldShape` | autosv/slice/slice_video.py:13 | a `{n:02}` field is all digits, reads back as n, is at least two wide, and is exactly two wide iff n < 100; from 10 on it is the plain decimal text, with no leading '0' |
| `TimeFormat.FieldTwoDigits` | autosv/slice/slice_video.py:13 | below 100 a field is the tens digit then the units digit, with a leading '0' under 10 |
| `TimeFormat.FormatTimeShape` | autosv/slice/slice_video.py:10-13 | the text has at least 8 characters with ':' 6th and 3rd from the end and digits elsewhere; it has exactly 8, with ':' at positions 2 and 5, iff the offset is under 100 hours; from 100 hours on it does not start with '0' |
| `TimeFormat.ParseFormatTime` | autosv/slice/slice_video.py:10-13 | reading the formatted text back gives the whole seconds that were formatted |
| `TimeFormat.FormatTimeInjective` | autosv/slice/slice_video.py:8-13 | different whole offsets never format to the same text |
| `TimeFormat.FormatTimeZero` | autosv/slice/slice_video.py:8-13 | 0 seconds is `00:00:00` |
| `TimeFormat.FormatTimeHourMinuteSecond` | autosv/slice/slice_video.py:8-13 | 3661 seconds is `01:01:01` |
| `TimeFormat.FormatTimeOneDay` | autosv/slice/slice_video.py:8-13 | 86400 seconds is `24:00:00`: hours are not wrapped at 24 |
| `TimeFormat.FormatTimeHundredHours` | autosv/slice/slice_video.py:8-13 | 360000 seconds is `100:00:00`: three hour digits, not `0100:00:00` |
| `TimeFormat.FormatTimeUnderMinute` | autosv/slice/slice_video.py:8-13 | under a minute the text is `00:00:` and then the tens and units digit of the seconds |
| `TimeFormat.FormatSecondsTruncates` | autosv/slice/slice_video.py:8-13 | 59.9 seconds is `00:00:59` |
| `Digits.Decimal` | autosv/slice/slice_video.py:13 | the decimal text is non-empty, all digits, and from 10 on does not start with '0' |
| `Digits.ValueOfDecimal` | autosv/slice/slice_video.py:13 | the decimal text of n reads back as n |
| `Digits.DecimalLength` | autosv/slice/slice_video.py:13 | the decimal text has one digit below 10, two below 100, more from 100 on |
| `Digits.ZeroPad` | autosv/slice/slice_video.py:13 | zero fill to a width: the result is max(width, length) long, ends with the text, and has only '0' before it |
| `Digits.ZeroPadValue` | autosv/slice/slice_video.py:13 | zero fill keeps the text all digits and keeps its value |
| `ArgList.OptionAt` | autosv/slice/slice_video.py:19-35 | the k-th option of a command sits at positions 2k+2 and 2k+3, so each value immediately follows its option |
| `ArgList.ValuesOfUnique` | autosv/slice/slice_video.py:19-35 | a flag named by exactly one option has exactly that option's value |
| `Commands.SliceCommand` | autosv/slice/slice_video.py:18-35 | 15 arguments starting `ffmpeg -y`; the options are `-ss` start, `-i` input, `-t` duration, `-map_metadata 0`, `-c:v copy`, `-c:a copy`, in that order; the output path is last |
| `Commands.SliceCommandExample` | autosv/slice/slice_video.py:16-35 | start 10 s and duration 5 s give `ffmpeg -y -ss 00:00:10 -i <video> -t 00:00:05 -map_metadata 0 -c:v copy -c:a copy <output>` |
| `Commands.SliceCommandRoles` | autosv/slice/slice_video.py:19-35 | the only input is the video path, `-ss` and `-t` carry the truncated offsets, and the write target is an input iff the output path equals the video path |
| `Commands.TempPath` | autosv/slice/slice_video.py:55 | the temporary path is the video path with `.temp` appended, so it is never the video path |
| `Commands.MetadataCommand` | autosv/slice/slice_video.py:58-68 | 9 arguments starting `ffmpeg -y`; the options are `-i` video, `-c copy`, `-metadata generate=<title>`; the temporary path is last |
| `Commands.MetadataCommandRoles` | autosv/slice/slice_video.py:58-68 | the only input is the video, `-metadata` gets `generate=` + title, and the write target is never the input |
| `FileSystem.Replace` | autosv/slice/slice_video.py:74 | `os.replace`: the destination holds the source's content, the source is gone, and no other path changes |
| `FileSystem.Remove` | autosv/slice/slice_video.py:82 | `os.remove`: the path is gone, and no other path changes |
| `FileSystem.AfterRun` | autosv/slice/slice_video.py:37 | one tool run changes at most its output path, which afterwards holds what the tool wrote |
| `Slice.AddTitleOutcome` | autosv/slice/slice_video.py:44-83 | true iff the video exists, the title is truthy and the tool exits 0; a missing video or an empty/`None` title runs nothing and changes nothing; otherwise exactly the metadata command runs; on exit 0 a file at the temporary path is required, whether the tool wrote it or it was left there earlier |
| `Slice.AddTitleLeavesNoTemp` | autosv/slice/slice_video.py:70-83 | once the tool has run, no file remains at the temporary path, on success or on failure |
| `Slice.AddTitleOriginal` | autosv/slice/slice_video.py:71-83 | the video still exists afterwards; when the call returns true it holds the tool's output, or, if the tool wrote nothing, the `.temp` file left from an earlier call; otherwise it holds its old content |
| `Slice.AddTitleFrame` | autosv/slice/slice_video.py:55-83 | no path other than the video and its temporary sibling changes |
| `Slice.Workspace.Run` | autosv/slice/slice_video.py:37 | one tool run: the command is recorded, only its output path changes, and its exit status is returned |
| `Slice.Workspace.SliceVideo` | autosv/slice/slice_video.py:16-41 | runs exactly the slicing command, returns true iff the tool exits 0, changes only the output path, and leaves the input untouched when it is not the output |
| `Slice.Workspace.AddMllmTitleToMetadata` | autosv/slice/slice_video.py:44-83 | the early returns, the run, the rename on success and the cleanup on failure leave exactly the files, command record and result of `AddTitleOutcome` |

## Left out

- Floating point: `FormatSeconds` uses exact reals. It does not capture IEEE rounding of `//` and `%` on very large or inexact floats.
- Negative, NaN and infinite offsets: `FormatSeconds`, `SliceCommand` and `Slice.Workspace.SliceVideo` require non-negative offsets. Python formats a negative offset rather than refusing it (`format_time(-1)` is `"-1:59:59"`, with a signed hour field). NaN and infinity make `int()` raise `ValueError` at line 10, because `inf // 3600` is NaN. The model promises nothing about either case.
- The media tool itself (decoding, stream copy, metadata writing). It is a foreign process. Each run is a parameter: an exit status and what it left at its output path.
- Slice.Workspace.AddMllmTitleToMetadata and Slice.AddTitleOutcome: require that on exit status 0 a file sits at `<video>.temp`, written by the tool or left there earlier. The excluded case is exit 0 with no such file. The tool run with `-y` writes its output whenever it exits 0, so this should not arise; if it did, `os.replace` at line 74 would raise `FileNotFoundError`, which nothing catches. A stale `.temp` with nothing new written is modelled: line 74 promotes it over the video, and the call returns true.
- Other uncaught errors are not modelled either: a failed rename or remove (permissions), or a tool that cannot be started.
- Printed diagnostics and captured stderr text (lines 40, 47, 51, 75, 79). They are console output with no effect on results or files.
- `os.path.exists` is also true for directories. The model's filesystem holds only files.
- The title argument is modelled as an optional string. `None` and `""` are the falsy values. Other Python types are out of scope.
- Atomicity of `os.replace`, and races between concurrent callers on the shared `.temp` path. These are operating-system and concurrency concerns.
