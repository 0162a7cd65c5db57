/**
 * The two operations of `autosv/slice/slice_video.py` over an abstract
 * filesystem: slicing a time range out of a video, and writing a generated
 * title into a video's metadata through a temporary file that either
 * replaces the original or is cleaned up.
 */
module Slice {
  import opened Wrappers
  import opened FileSystem
  import opened ArgList
  import opened Commands

  /** Python truthiness of the title argument: `None` and `""` are false. */
  predicate Truthy(title: Option<string>) {
    title.Some? && title.value != ""
  }

  /** What one call of the title writer leaves behind. */
  datatype TitleWrite = TitleWrite(files: Files, launched: seq<seq<string>>, ok: bool)

  /**
   * The title writer as a state machine over the filesystem: the two
   * early exits, then one run of the tool writing the temporary path, then
   * either the rename over the original or the removal of the temporary file.
   * On exit status 0 a file must sit at the temporary path, either the one
   * the tool wrote or one left there earlier, for the rename to succeed.
   */
  function AddTitleOutcome(fs: Files, videoPath: Path, title: Option<string>, run: ToolRun)
    : (e: TitleWrite)
    requires run.status == 0 ==> run.output.Some? || TempPath(videoPath) in fs
    ensures e.ok <==> videoPath in fs && Truthy(title) && run.status == 0
    ensures !(videoPath in fs && Truthy(title)) ==> e.launched == [] && e.files == fs
    ensures videoPath in fs && Truthy(title) ==> e.launched == [MetadataCommand(videoPath, title.value)]
  {
    if videoPath !in fs then TitleWrite(fs, [], false)
    else if !Truthy(title) then TitleWrite(fs, [], false)
    else
      var temp := TempPath(videoPath);
      var command := MetadataCommand(videoPath, title.value);
      var written := AfterRun(fs, Output(command), run);
      if run.status == 0 then
        TitleWrite(Replace(written, temp, videoPath), [command], true)
      else if temp in written then
        TitleWrite(Remove(written, temp), [command], false)
      else
        TitleWrite(written, [command], false)
  }

  /** Once the tool has run, no file is left at the temporary path, on success or on failure. */
  lemma AddTitleLeavesNoTemp(fs: Files, videoPath: Path, title: Option<string>, run: ToolRun)
    requires run.status == 0 ==> run.output.Some? || TempPath(videoPath) in fs
    requires videoPath in fs && Truthy(title)
    ensures TempPath(videoPath) !in AddTitleOutcome(fs, videoPath, title, run).files
  {
  }

  /**
   * The video is never lost and never partly written. When the call returns
   * true it holds what sat at the temporary path after the run: the tool's
   * output, or, if the tool wrote nothing there, a file left from an earlier
   * call. Otherwise it holds what it held before.
   */
  lemma AddTitleOriginal(fs: Files, videoPath: Path, title: Option<string>, run: ToolRun)
    requires run.status == 0 ==> run.output.Some? || TempPath(videoPath) in fs
    requires videoPath in fs
    ensures var e := AddTitleOutcome(fs, videoPath, title, run);
      && videoPath in e.files
      && e.files[videoPath] ==
           if !e.ok then fs[videoPath]
           else if run.output.Some? then run.output.value
           else fs[TempPath(videoPath)]
  {
  }

  /** No path other than the video and its temporary sibling changes. */
  lemma AddTitleFrame(fs: Files, videoPath: Path, title: Option<string>, run: ToolRun)
    requires run.status == 0 ==> run.output.Some? || TempPath(videoPath) in fs
    ensures var e, temp := AddTitleOutcome(fs, videoPath, title, run), TempPath(videoPath);
      e.files - {videoPath, temp} == fs - {videoPath, temp}
  {
    var temp := TempPath(videoPath);
    if videoPath in fs && Truthy(title) {
      var written := AfterRun(fs, temp, run);
      assert written - {temp} == fs - {temp};
      assert written - {videoPath, temp} == fs - {videoPath, temp};
    }
  }

  /**
   * The working directory the two operations act on, and the record of the
   * command lines handed to the media tool.
   */
  class Workspace {
    var files: Files
    var launched: seq<seq<string>>

    constructor (initial: Files)
      ensures files == initial && launched == []
    {
      files := initial;
      launched := [];
    }

    /**
     * `subprocess.run(command, check=True)`: the tool runs once on `command`,
     * whose last argument is the only path it writes, and its exit status is
     * returned (the caller turns a non-zero status into its failure branch).
     */
    method Run(command: seq<string>, run: ToolRun) returns (status: int)
      requires WellFormed(command)
      modifies this
      ensures launched == old(launched) + [command]
      ensures files == AfterRun(old(files), Output(command), run)
      ensures status == run.status
    {
      launched := launched + [command];
      files := AfterRun(files, Output(command), run);
      status := run.status;
    }

    /**
     * `slice_video`: one run of the tool on the slicing command; true exactly
     * when it exits with status 0. Only the output path can change, so the
     * input is untouched unless the caller names it as the output.
     */
    method SliceVideo(videoPath: Path, outputPath: Path, startTime: real, duration: real, run: ToolRun)
      returns (ok: bool)
      requires startTime >= 0.0 && duration >= 0.0
      modifies this
      ensures launched == old(launched) + [SliceCommand(videoPath, outputPath, startTime, duration)]
      ensures files == AfterRun(old(files), outputPath, run)
      ensures ok <==> run.status == 0
      ensures videoPath != outputPath ==>
                (videoPath in files <==> videoPath in old(files))
                && (videoPath in files ==> files[videoPath] == old(files)[videoPath])
    {
      var command := SliceCommand(videoPath, outputPath, startTime, duration);
      var status := Run(command, run);
      ok := status == 0;
      assert files - {outputPath} == old(files) - {outputPath};
      if videoPath != outputPath && videoPath in old(files) {
        assert videoPath in old(files) - {outputPath};
      }
      if videoPath != outputPath && videoPath in files {
        assert videoPath in files - {outputPath};
      }
    }

    /**
     * `add_mllm_title_to_metadata`: a missing video and then an empty title
     * return false before the tool runs; otherwise the tool copies the video
     * with the title into `videoPath + ".temp"`, which on success replaces
     * the video and on failure is removed if it exists.
     */
    method AddMllmTitleToMetadata(videoPath: Path, mllmTitle: Option<string>, run: ToolRun)
      returns (ok: bool)
      requires run.status == 0 ==> run.output.Some? || TempPath(videoPath) in files
      modifies this
      ensures var e := AddTitleOutcome(old(files), videoPath, mllmTitle, run);
        files == e.files && launched == old(launched) + e.launched && ok == e.ok
    {
      if videoPath !in files {
        return false;
      }
      if !Truthy(mllmTitle) {
        return false;
      }
      var tempPath := TempPath(videoPath);
      var command := MetadataCommand(videoPath, mllmTitle.value);
      var status := Run(command, run);
      if status == 0 {
        files := Replace(files, tempPath, videoPath);
        return true;
      }
      if tempPath in files {
        files := Remove(files, tempPath);
      }
      return false;
    }
  }
}
