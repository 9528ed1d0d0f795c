/**
 * Where the hybrid service looks for the file LibreOffice wrote
 * (`convert_file`, after a successful LibreOffice run): three expected
 * names, then a scan of the output folder for a recent file with the right
 * extension. The folder is a map from names to size and modification time;
 * `now` is the clock reading the scan compares against.
 */
module OutputResolution {
  import opened Text
  import opened Files

  /** The text form of a version-4 UUID: 8-4-4-4-12 hexadecimal digits. */
  predicate IsUuidText(u: string) {
    && |u| == 36
    && forall i :: 0 <= i < 36 ==>
         if i == 8 || i == 13 || i == 18 || i == 23 then u[i] == '-'
         else '0' <= u[i] <= '9' || 'a' <= u[i] <= 'f'
  }

  /** The name test the service applies before stripping a prefix. */
  predicate LooksPrefixed(base: string) {
    |base| > 36 && base[8] == '-' && base[13] == '-'
  }

  /**
   * The base name with its UUID prefix removed: for a name that looks
   * prefixed, everything after its first '_' (nothing, if it has none);
   * any other name is returned unchanged.
   */
  function StripUuidPrefix(base: string): (r: string)
    ensures !LooksPrefixed(base) ==> r == base
    ensures LooksPrefixed(base) && '_' !in base ==> r == ""
    ensures LooksPrefixed(base) ==> |r| < |base|
    ensures LooksPrefixed(base) ==> forall i :: 0 <= i < |base| && base[i] == '_' && '_' !in base[..i] ==> r == base[i + 1..]
  {
    if LooksPrefixed(base) then
      var pieces := SplitOn(base, '_');
      JoinSplitOn(base, '_');
      if |pieces| == 1 then ""
      else
        JoinLength("_", pieces);
        JoinLength("_", pieces[1..]);
        assert SumLen(pieces) == |pieces[0]| + SumLen(pieces[1..]);
        AfterFirstUnderscore(base);
        Join("_", pieces[1..])
    else base
  }

  /** Joining the pieces after the first of a split on '_' gives the text after the first '_'. */
  lemma {:induction false} AfterFirstUnderscore(base: string)
    requires |SplitOn(base, '_')| > 1
    ensures forall i :: 0 <= i < |base| && base[i] == '_' && '_' !in base[..i] ==> Join("_", SplitOn(base, '_')[1..]) == base[i + 1..]
  {
    var j := IndexOf(base, '_').value;
    assert SplitOn(base, '_')[1..] == SplitOn(base[j + 1..], '_');
    JoinSplitOn(base[j + 1..], '_');
  }

  /** Splitting a name at a first '_' that follows a part without '_'. */
  lemma SplitOnAfterPart(u: string, rest: string)
    requires '_' !in u
    ensures SplitOn(u + "_" + rest, '_') == [u] + SplitOn(rest, '_')
  {
    var s := u + "_" + rest;
    assert s[|u|] == '_';
    assert s[..|u|] == u;
    assert s[|u| + 1..] == rest;
  }

  /** The stripping undoes the upload's naming: `uuid + "_" + rest` gives back `rest`. */
  lemma StripUndoesPrefix(u: string, rest: string)
    requires IsUuidText(u)
    ensures StripUuidPrefix(u + "_" + rest) == rest
  {
    var s := u + "_" + rest;
    assert s[8] == u[8] && s[13] == u[13];
    assert '_' !in u by {
      forall i | 0 <= i < |u| ensures u[i] != '_' { }
    }
    SplitOnAfterPart(u, rest);
    var pieces := SplitOn(s, '_');
    assert pieces[1..] == SplitOn(rest, '_');
    JoinSplitOn(rest, '_');
  }

  /**
   * The three names tried in order: `<base>.<fmt>` (which is the output
   * path's own name), `<stripped>.<fmt>`, and `<stem of the original>.<fmt>`.
   */
  function Candidates(base: string, original: string, fmt: string): (r: seq<string>)
    ensures |r| == 3 && r[0] == base + "." + fmt
  {
    [base + "." + fmt, StripUuidPrefix(base) + "." + fmt, Stem(original) + "." + fmt]
  }

  /**
   * For an upload stored as `uuid + "_" + original`, where the original is
   * `stem.ext`, the second candidate is the third: both are `<stem>.<fmt>`.
   */
  lemma StrippedCandidateIsOriginalStem(u: string, stem: string, ext: string, fmt: string, i: nat)
    requires IsUuidText(u)
    requires '.' !in ext && i < |stem| && stem[i] != '.'
    ensures var base := Stem(u + "_" + (stem + "." + ext));
      base == u + "_" + stem && Candidates(base, stem + "." + ext, fmt)[1] == Candidates(base, stem + "." + ext, fmt)[2]
  {
    SplitExtOfJoined(stem, ext, i);
    UploadStem(u, stem, ext);
    StripUndoesPrefix(u, stem);
  }

  /** The stem of the stored upload `uuid + "_" + stem.ext` is `uuid + "_" + stem`. */
  lemma {:induction false} UploadStem(u: string, stem: string, ext: string)
    requires IsUuidText(u)
    requires '.' !in ext
    ensures Stem(u + "_" + (stem + "." + ext)) == u + "_" + stem
  {
    var stored := u + "_" + stem;
    assert u + "_" + (stem + "." + ext) == stored + "." + ext;
    assert stored[0] == u[0];
    SplitExtOfJoined(stored, ext, 0);
  }

  /** A file that exists and is not empty. */
  predicate Usable(files: Dir, n: string) {
    n in files && files[n].size > 0
  }

  /** A file the scan accepts: the right extension, modified within the last 120 s, not empty. */
  predicate RecentOutput(files: Dir, n: string, fmt: string, now: int) {
    EndsWith(n, "." + fmt) && n in files && files[n].mtime > now - 120 && files[n].size > 0
  }

  /** The index of the first usable name in a list. */
  function FirstUsable(names: seq<string>, files: Dir): (r: Option<nat>)
    ensures r.Some? ==> r.value < |names| && Usable(files, names[r.value])
    ensures r.Some? ==> forall j :: 0 <= j < r.value ==> !Usable(files, names[j])
    ensures r.None? ==> forall j :: 0 <= j < |names| ==> !Usable(files, names[j])
  {
    if names == [] then None
    else if Usable(files, names[0]) then Some(0)
    else match FirstUsable(names[1..], files)
      case None => None
      case Some(k) => Some(k + 1)
  }

  /** The index of the first entry of the listing the scan accepts. */
  function FirstRecent(listing: seq<string>, files: Dir, fmt: string, now: int): (r: Option<nat>)
    ensures r.Some? ==> r.value < |listing| && RecentOutput(files, listing[r.value], fmt, now)
    ensures r.Some? ==> forall j :: 0 <= j < r.value ==> !RecentOutput(files, listing[j], fmt, now)
    ensures r.None? ==> forall j :: 0 <= j < |listing| ==> !RecentOutput(files, listing[j], fmt, now)
  {
    if listing == [] then None
    else if RecentOutput(files, listing[0], fmt, now) then Some(0)
    else match FirstRecent(listing[1..], files, fmt, now)
      case None => None
      case Some(k) => Some(k + 1)
  }

  /**
   * The file that ends up at the output name: the first usable candidate,
   * else the first entry of the listing (`os.listdir` order) the scan
   * accepts, else none.
   */
  function ChooseOutput(files: Dir, listing: seq<string>, base: string, original: string, fmt: string, now: int): (r: Option<string>)
    ensures r.Some? ==> Usable(files, r.value)
    ensures var cands := Candidates(base, original, fmt);
      (exists k :: 0 <= k < 3 && Usable(files, cands[k])) ==>
        exists k :: 0 <= k < 3 && r == Some(cands[k]) && forall j :: 0 <= j < k ==> !Usable(files, cands[j])
    ensures var cands := Candidates(base, original, fmt);
      (forall k :: 0 <= k < 3 ==> !Usable(files, cands[k])) ==>
        && (r.Some? <==> exists k :: 0 <= k < |listing| && RecentOutput(files, listing[k], fmt, now))
        && (r.Some? ==> exists k :: 0 <= k < |listing| && r.value == listing[k] && RecentOutput(files, listing[k], fmt, now)
                          && forall j :: 0 <= j < k ==> !RecentOutput(files, listing[j], fmt, now))
  {
    var cands := Candidates(base, original, fmt);
    match FirstUsable(cands, files)
    case Some(k) => Some(cands[k])
    case None =>
      match FirstRecent(listing, files, fmt, now)
      case Some(k) => Some(listing[k])
      case None => None
  }

  /** When the output name itself is usable it is the one chosen, and nothing moves. */
  lemma OutputNameFirst(files: Dir, listing: seq<string>, base: string, original: string, fmt: string, now: int)
    requires Usable(files, base + "." + fmt)
    ensures ChooseOutput(files, listing, base, original, fmt, now) == Some(base + "." + fmt)
    ensures Moved(files, base + "." + fmt, base + "." + fmt) == files
  {
  }

  /**
   * After a successful resolution, exactly the chosen file sits under the
   * output name, and every other entry except the chosen file's old name is
   * as it was.
   */
  lemma ResolutionMovesOneFile(files: Dir, listing: seq<string>, base: string, original: string, fmt: string, now: int)
    requires ChooseOutput(files, listing, base, original, fmt, now).Some?
    ensures var src := ChooseOutput(files, listing, base, original, fmt, now).value;
      var after := Moved(files, src, base + "." + fmt);
      && after[base + "." + fmt] == files[src] && after[base + "." + fmt].size > 0
      && SameExcept(files, after, {src, base + "." + fmt})
      && after.Keys == files.Keys - {src} + {base + "." + fmt}
  {
  }

  /** The output folder, whose entries the resolution renames in place. */
  class OutputFolder {
    var files: Dir

    constructor (files: Dir)
      ensures this.files == files
    {
      this.files := files;
    }

    /**
     * The resolution step: try the candidates in order, then scan the
     * listing; rename the first acceptable file to `<base>.<fmt>` and report
     * whether one was found ("output file not found" otherwise).
     */
    method Resolve(listing: seq<string>, base: string, original: string, fmt: string, now: int) returns (found: bool)
      modifies this
      ensures var choice := ChooseOutput(old(files), listing, base, original, fmt, now);
        && (found <==> choice.Some?)
        && (found ==> files == Moved(old(files), choice.value, base + "." + fmt))
        && (!found ==> files == old(files))
    {
      var outputName := base + "." + fmt;
      var cands := Candidates(base, original, fmt);
      var i := 0;
      while i < |cands|
        invariant 0 <= i <= |cands|
        invariant files == old(files)
        invariant forall j :: 0 <= j < i ==> !Usable(files, cands[j])
      {
        var name := cands[i];
        if name in files && files[name].size > 0 {
          assert FirstUsable(cands, files) == Some(i) by {
            FirstUsableIs(cands, files, i);
          }
          files := Moved(files, name, outputName);
          return true;
        }
        i := i + 1;
      }
      var k := 0;
      while k < |listing|
        invariant 0 <= k <= |listing|
        invariant files == old(files)
        invariant forall j :: 0 <= j < k ==> !RecentOutput(files, listing[j], fmt, now)
      {
        var name := listing[k];
        if EndsWith(name, "." + fmt) && name in files && files[name].mtime > now - 120 && files[name].size > 0 {
          assert FirstRecent(listing, files, fmt, now) == Some(k) by {
            FirstRecentIs(listing, files, fmt, now, k);
          }
          files := Moved(files, name, outputName);
          return true;
        }
        k := k + 1;
      }
      return false;
    }
  }

  /** The first usable index is the one before which nothing is usable. */
  lemma FirstUsableIs(names: seq<string>, files: Dir, i: nat)
    requires i < |names| && Usable(files, names[i])
    requires forall j :: 0 <= j < i ==> !Usable(files, names[j])
    ensures FirstUsable(names, files) == Some(i)
  {
    var r := FirstUsable(names, files);
    assert r.Some?;
  }

  lemma FirstRecentIs(listing: seq<string>, files: Dir, fmt: string, now: int, k: nat)
    requires k < |listing| && RecentOutput(files, listing[k], fmt, now)
    requires forall j :: 0 <= j < k ==> !RecentOutput(files, listing[j], fmt, now)
    ensures FirstRecent(listing, files, fmt, now) == Some(k)
  {
    var r := FirstRecent(listing, files, fmt, now);
    assert r.Some?;
  }
}
