/**
 * The upload-name test the three services share (`allowed_file`): each
 * service passes its own set of allowed extensions.
 */
module Uploads {
  import opened Text

  /** The longest file name a service accepts. */
  const MaxNameLength := 255

  /**
   * A non-empty name with a dot, whose text after the last dot, lower-cased,
   * is an allowed extension, and at most 255 characters long.
   */
  predicate AllowedFile(name: string, allowed: set<string>) {
    && name != []
    && '.' in name
    && Lower(AfterLastDot(name)) in allowed
    && |name| <= MaxNameLength
  }

  /** Any short enough `stem.ext` whose extension is allowed in some letter case is accepted. */
  lemma AllowedJoined(stem: string, ext: string, allowed: set<string>)
    requires '.' !in ext && Lower(ext) in allowed
    requires |stem| + 1 + |ext| <= MaxNameLength
    ensures AllowedFile(stem + "." + ext, allowed)
  {
    AfterLastDotOfJoined(stem, ext);
    assert (stem + "." + ext)[|stem|] == '.';
  }

  /** And every accepted name is of that shape: a last dot followed by an allowed extension in some case. */
  lemma AllowedIsJoined(name: string, allowed: set<string>)
    requires AllowedFile(name, allowed)
    ensures |name| <= MaxNameLength
    ensures exists k :: 0 <= k < |name| && name[k] == '.' && '.' !in name[k + 1..] && Lower(name[k + 1..]) in allowed
  {
    var k :| 0 <= k < |name| && name[k] == '.' && AfterLastDot(name) == name[k + 1..];
  }

  /**
   * A conversion request as the services read it: whether a 'file' part came
   * and its file name, the name `secure_filename` made of that file name,
   * and the 'output_format' form field.
   */
  datatype Request = Request(file: Option<string>, secured: string, outputFormat: Option<string>)

  /** The name an upload is saved under: the text of a fresh UUID, '_', the secured name. */
  function InputName(uuid: string, original: string): (r: string)
    ensures |r| == |uuid| + 1 + |original|
  {
    uuid + "_" + original
  }

  /** The saved name reads back as its parts: the UUID, then '_', then the secured name. */
  lemma InputNameParts(uuid: string, original: string)
    ensures var r := InputName(uuid, original);
      r[..|uuid|] == uuid && r[|uuid|] == '_' && r[|uuid| + 1..] == original
  {
    var r := InputName(uuid, original);
    assert r[..|uuid|] == uuid;
    assert r[|uuid| + 1..] == original;
  }

  /**
   * For an original `stem.ext`, the saved upload's stem is `<uuid>_<stem>`, so
   * the services' output file is `<uuid>_<stem>.<fmt>`, and the original's
   * stem, which names the download, is `stem`.
   */
  lemma DownloadNames(uuid: string, stem: string, ext: string, i: nat)
    requires '.' !in ext && i < |stem| && stem[i] != '.'
    ensures Stem(stem + "." + ext) == stem
    ensures Stem(InputName(uuid, stem + "." + ext)) == uuid + "_" + stem
  {
    SplitExtOfJoined(stem, ext, i);
    PrefixedStem(uuid, stem, ext, i);
  }

  /** The saved upload's stem keeps the UUID prefix. */
  lemma PrefixedStem(uuid: string, stem: string, ext: string, i: nat)
    requires '.' !in ext && i < |stem| && stem[i] != '.'
    ensures Stem(InputName(uuid, stem + "." + ext)) == uuid + "_" + stem
  {
    var prefixed := uuid + "_" + stem;
    assert InputName(uuid, stem + "." + ext) == prefixed + "." + ext;
    assert prefixed[|uuid| + 1 + i] == stem[i];
    SplitExtOfJoined(prefixed, ext, |uuid| + 1 + i);
  }
}
