/**
 * A directory as the services see it: file names mapped to their size and
 * modification time. The services' upload and output folders are values of
 * this shape; `Moved` is `os.rename` (or the copy-then-delete fallback, which
 * keeps the modification time), `-` is `os.remove`.
 */
module Files {

  /** Size in bytes and modification time in whole seconds. */
  datatype FileInfo = FileInfo(size: nat, mtime: int)

  type Dir = map<string, FileInfo>

  /**
   * The directory after moving `src` to `dst`: `dst` now holds what `src`
   * held (replacing any previous `dst`), `src` is gone, and no other entry
   * changes. Moving a file onto itself changes nothing.
   */
  function Moved(files: Dir, src: string, dst: string): (r: Dir)
    requires src in files
    ensures dst in r && r[dst] == files[src]
    ensures src != dst ==> src !in r
    ensures forall n :: n != src && n != dst ==> (n in r <==> n in files)
    ensures forall n :: n != src && n != dst && n in r ==> r[n] == files[n]
    ensures r.Keys == files.Keys - {src} + {dst}
  {
    if src == dst then files else (files - {src})[dst := files[src]]
  }

  /** A directory whose entries other than `keep` are exactly those of `before`. */
  ghost predicate SameExcept(before: Dir, after: Dir, keep: set<string>) {
    forall n :: n !in keep ==> (n in before <==> n in after) && (n in before ==> before[n] == after[n])
  }
}
