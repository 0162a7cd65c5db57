/**
 * The argument lists the slicer and the metadata title writer hand to the
 * media tool, `ffmpeg`, and the layout the tool reads them by.
 */
module Commands {
  import opened Digits
  import opened TimeFormat
  import opened ArgList

  const Program := "ffmpeg"
  const TempSuffix := ".temp"

  /** The sibling path the title writer has the tool write to. */
  function TempPath(videoPath: string): (t: string)
    ensures |t| == |videoPath| + |TempSuffix| && t[..|videoPath|] == videoPath
    ensures t != videoPath
  {
    videoPath + TempSuffix
  }

  /**
   * `slice_video`'s command: seek to the start, read the input, stop after
   * the duration, keep the input's metadata, copy video and audio without
   * re-encoding, and overwrite the output. Both offsets are rendered by
   * `format_time`, which on a non-negative offset is `FormatTime` of its
   * truncation (`FormatSeconds`).
   */
  function SliceCommand(videoPath: string, outputPath: string, startTime: real, duration: real)
    : (cmd: seq<string>)
    requires startTime >= 0.0 && duration >= 0.0
    ensures WellFormed(cmd) && cmd[0] == Program && |cmd| == 15
    ensures Options(cmd) == [("-ss", FormatTime(startTime.Floor)), ("-i", videoPath),
                             ("-t", FormatTime(duration.Floor)), ("-map_metadata", "0"),
                             ("-c:v", "copy"), ("-c:a", "copy")]
    ensures Output(cmd) == outputPath
  {
    var start, length := FormatTime(startTime.Floor), FormatTime(duration.Floor);
    var cmd := [Program, "-y", "-ss", start, "-i", videoPath, "-t", length,
                "-map_metadata", "0", "-c:v", "copy", "-c:a", "copy", outputPath];
    SixOptions(cmd);
    cmd
  }

  /**
   * The slicer reads exactly one input, the video path, seeks to and stops
   * after the truncated offsets, and writes the input only when the caller
   * names it as the output.
   */
  lemma SliceCommandRoles(videoPath: string, outputPath: string, startTime: real, duration: real)
    requires startTime >= 0.0 && duration >= 0.0
    ensures var cmd := SliceCommand(videoPath, outputPath, startTime, duration);
      && ValuesOf(Options(cmd), "-i") == [videoPath]
      && ValuesOf(Options(cmd), "-ss") == [FormatTime(startTime.Floor)]
      && ValuesOf(Options(cmd), "-t") == [FormatTime(duration.Floor)]
      && (Output(cmd) in ValuesOf(Options(cmd), "-i") <==> outputPath == videoPath)
  {
    var o := Options(SliceCommand(videoPath, outputPath, startTime, duration));
    ValuesOfUnique(o, "-i", 1);
    ValuesOfUnique(o, "-ss", 0);
    ValuesOfUnique(o, "-t", 2);
  }

  /** Ten seconds in, five seconds long: `-ss 00:00:10` and `-t 00:00:05`. */
  lemma SliceCommandExample()
    ensures SliceCommand("in.mp4", "out.mp4", 10.0, 5.0)
         == ["ffmpeg", "-y", "-ss", "00:00:10", "-i", "in.mp4", "-t", "00:00:05",
             "-map_metadata", "0", "-c:v", "copy", "-c:a", "copy", "out.mp4"]
  {
    assert FormatTime(10) == "00:00:10" by {
      FormatTimeUnderMinute(10);
      assert DigitChar(1) == '1' && DigitChar(0) == '0';
    }
    assert FormatTime(5) == "00:00:05" by {
      FormatTimeUnderMinute(5);
      assert DigitChar(0) == '0' && DigitChar(5) == '5';
    }
    assert (10.0).Floor == 10 && (5.0).Floor == 5;
  }

  /**
   * `add_mllm_title_to_metadata`'s command: copy every stream of the video
   * unchanged into the temporary path, setting the `generate` metadata
   * field to the title.
   */
  function MetadataCommand(videoPath: string, title: string): (cmd: seq<string>)
    ensures WellFormed(cmd) && cmd[0] == Program && |cmd| == 9
    ensures Options(cmd) == [("-i", videoPath), ("-c", "copy"), ("-metadata", "generate=" + title)]
    ensures Output(cmd) == TempPath(videoPath)
  {
    var cmd := [Program, "-y", "-i", videoPath, "-c", "copy", "-metadata", "generate=" + title,
                TempPath(videoPath)];
    ThreeOptions(cmd);
    cmd
  }

  /** The title writer never has the tool write over the file it reads. */
  lemma MetadataCommandRoles(videoPath: string, title: string)
    ensures var cmd := MetadataCommand(videoPath, title);
      && ValuesOf(Options(cmd), "-i") == [videoPath]
      && ValuesOf(Options(cmd), "-metadata") == ["generate=" + title]
      && Output(cmd) !in ValuesOf(Options(cmd), "-i")
  {
    var o := Options(MetadataCommand(videoPath, title));
    ValuesOfUnique(o, "-i", 0);
    ValuesOfUnique(o, "-metadata", 2);
  }
}
