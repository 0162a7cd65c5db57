/**
 * An abstract filesystem: files by path, each an opaque byte string, and
 * the two operations the title writer applies to it, `os.replace` and
 * `os.remove`. One run of the media tool is an outcome given from outside.
 */
module FileSystem {
  import opened Wrappers

  newtype byte = x: int | 0 <= x < 256

  type Path = string
  type Content = seq<byte>
  type Files = map<Path, Content>

  /** `os.replace(src, dst)`: `dst` now holds what `src` held, `src` is gone, and no other path changes. */
  function Replace(fs: Files, src: Path, dst: Path): (r: Files)
    requires src in fs
    ensures dst in r && r[dst] == fs[src]
    ensures src != dst ==> src !in r
    ensures r - {src, dst} == fs - {src, dst}
  {
    (fs - {src})[dst := fs[src]]
  }

  /** `os.remove(p)` on a path that exists: `p` is gone and no other path changes. */
  function Remove(fs: Files, p: Path): (r: Files)
    requires p in fs
    ensures p !in r && r - {p} == fs - {p}
    ensures |r| == |fs| - 1
  {
    fs - {p}
  }

  /**
   * What one run of the media tool did: its exit status, and what it left at
   * its output path (`None` when it did not touch that path).
   */
  datatype ToolRun = ToolRun(status: int, output: Option<Content>)

  /** The filesystem after a run of the tool that writes `out`: only `out` can have changed. */
  function AfterRun(fs: Files, out: Path, run: ToolRun): (r: Files)
    ensures r - {out} == fs - {out}
    ensures out in r <==> out in fs || run.output.Some?
    ensures run.output.Some? ==> r[out] == run.output.value
    ensures run.output.None? ==> r == fs
  {
    match run.output
    case Some(c) => fs[out := c]
    case None => fs
  }
}
