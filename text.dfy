/**
 * String helpers with the meaning the Python standard library gives them:
 * `str.lower`, `in` on strings, `str.startswith`/`endswith`, `str.split`,
 * `str.join`, `str.strip`, `str.rsplit('.', 1)`, `os.path.splitext`, and the
 * ordering `sorted` uses on strings. Only the ASCII part of Unicode case
 * mapping and of Unicode white space is modelled.
 */
module Text {

  datatype Option<+T> = None | Some(value: T)

  // ---------------------------------------------------------------------------
  // Characters

  /** The characters `str.isspace` accepts in the ASCII range. */
  predicate IsSpace(c: char) {
    c == ' ' || c == '\t' || c == '\n' || c == '\r' || c == '\U{B}' || c == '\U{C}'
    || c == '\U{1C}' || c == '\U{1D}' || c == '\U{1E}' || c == '\U{1F}'
  }

  function LowerChar(c: char): (r: char)
    ensures 'A' <= c <= 'Z' ==> 'a' <= r <= 'z' && r as int - c as int == 32
    ensures !('A' <= c <= 'Z') ==> r == c
  {
    if 'A' <= c <= 'Z' then (c as int + 32) as char else c
  }

  /** `s.lower()` restricted to ASCII letters. */
  function Lower(s: string): (r: string)
    ensures |r| == |s|
    ensures forall i :: 0 <= i < |s| ==> r[i] == LowerChar(s[i])
  {
    if s == [] then [] else [LowerChar(s[0])] + Lower(s[1..])
  }

  function UpperChar(c: char): (r: char)
    ensures 'a' <= c <= 'z' ==> 'A' <= r <= 'Z' && c as int - r as int == 32
    ensures !('a' <= c <= 'z') ==> r == c
  {
    if 'a' <= c <= 'z' then (c as int - 32) as char else c
  }

  /** `s.upper()` restricted to ASCII letters. */
  function Upper(s: string): (r: string)
    ensures |r| == |s|
    ensures forall i :: 0 <= i < |s| ==> r[i] == UpperChar(s[i])
  {
    if s == [] then [] else [UpperChar(s[0])] + Upper(s[1..])
  }

  // ---------------------------------------------------------------------------
  // Searching

  function EndsWith(s: string, suffix: string): bool {
    |suffix| <= |s| && s[|s| - |suffix|..] == suffix
  }

  /** `sub` occurs in `s` starting at index `i`. */
  predicate OccursAt(s: string, sub: string, i: nat) {
    i + |sub| <= |s| && s[i..i + |sub|] == sub
  }

  /** Python's `sub in s`. */
  predicate Contains(s: string, sub: string) {
    exists i: nat :: i <= |s| && OccursAt(s, sub, i)
  }

  /** A concatenation contains each of its parts. */
  lemma ContainsPart(s: string, a: string, b: string, c: string)
    requires s == a + b + c
    ensures Contains(s, b)
  {
    assert s[|a|..|a| + |b|] == b;
    assert OccursAt(s, b, |a|);
  }

  /** A concatenation starts with its first part. */
  lemma AppendPrefix(a: string, b: string)
    ensures |a| <= |a + b| && (a + b)[..|a|] == a
  {
  }

  /** `a + x + b + y + c`, which contains both `x` and `y`. */
  function Fill(a: string, x: string, b: string, y: string, c: string): (r: string)
    ensures Contains(r, x) && Contains(r, y)
  {
    ContainsPart(a + x + b + y + c, a, x, b + y + c);
    ContainsPart(a + x + b + y + c, a + x + b, y, c);
    a + x + b + y + c
  }

  /** A string that contains `mid`, where `mid` contains `sub`, contains `sub`. */
  lemma ContainsTransitive(s: string, mid: string, sub: string)
    requires Contains(s, mid) && Contains(mid, sub)
    ensures Contains(s, sub)
  {
    var i: nat :| i <= |s| && OccursAt(s, mid, i);
    var j: nat :| j <= |mid| && OccursAt(mid, sub, j);
    forall t | 0 <= t < |sub|
      ensures s[i + j + t] == sub[t]
    {
      assert sub[t] == mid[j..j + |sub|][t] == mid[j + t];
      assert mid[j + t] == s[i..i + |mid|][j + t];
    }
    assert s[i + j..i + j + |sub|] == sub;
    assert OccursAt(s, sub, i + j);
  }

  /** The first index of `c` in `s`, if any. */
  function IndexOf(s: string, c: char): (r: Option<nat>)
    ensures r.None? <==> c !in s
    ensures r.Some? ==> r.value < |s| && s[r.value] == c && c !in s[..r.value]
  {
    if s == [] then None
    else if s[0] == c then Some(0)
    else match IndexOf(s[1..], c)
      case None => None
      case Some(i) => assert s[..i + 1] == [s[0]] + s[1..][..i]; Some(i + 1)
  }

  /** The last index of `c` in `s`, if any (`str.rfind`). */
  function LastIndexOf(s: string, c: char): (r: Option<nat>)
    ensures r.None? <==> c !in s
    ensures r.Some? ==> r.value < |s| && s[r.value] == c && c !in s[r.value + 1..]
  {
    if s == [] then None
    else if s[|s| - 1] == c then Some(|s| - 1)
    else match LastIndexOf(s[..|s| - 1], c)
      case None => None
      case Some(i) =>
        assert s[i + 1..] == s[..|s| - 1][i + 1..] + [s[|s| - 1]];
        Some(i)
  }

  // ---------------------------------------------------------------------------
  // Splitting and joining

  /** `sep.join(parts)`. */
  function Join(sep: string, parts: seq<string>): string {
    if parts == [] then ""
    else if |parts| == 1 then parts[0]
    else parts[0] + sep + Join(sep, parts[1..])
  }

  /** `s.split(c)` for a one-character separator: one more piece than there are separators. */
  function SplitOn(s: string, c: char): (r: seq<string>)
    ensures |r| >= 1
    ensures forall k :: 0 <= k < |r| ==> c !in r[k]
    decreases |s|
  {
    match IndexOf(s, c)
    case None => [s]
    case Some(i) => [s[..i]] + SplitOn(s[i + 1..], c)
  }

  /** Splitting on `c` and joining with `c` gives back the string. */
  lemma {:induction false} JoinSplitOn(s: string, c: char)
    ensures Join([c], SplitOn(s, c)) == s
    decreases |s|
  {
    match IndexOf(s, c)
    case None =>
    case Some(i) =>
      var rest := SplitOn(s[i + 1..], c);
      assert SplitOn(s, c) == [s[..i]] + rest;
      assert ([s[..i]] + rest)[1..] == rest;
      JoinSplitOn(s[i + 1..], c);
      assert Join([c], SplitOn(s, c)) == s[..i] + [c] + Join([c], rest);
      assert s == s[..i] + [c] + s[i + 1..];
  }

  /** The length of `' '.join(g)` etc.: the parts plus one separator between each two. */
  function SumLen(parts: seq<string>): nat {
    if parts == [] then 0 else |parts[0]| + SumLen(parts[1..])
  }

  lemma {:induction false} SumLenAppend(parts: seq<string>, x: string)
    ensures SumLen(parts + [x]) == SumLen(parts) + |x|
  {
    if parts != [] {
      assert (parts + [x])[1..] == parts[1..] + [x];
      SumLenAppend(parts[1..], x);
    }
  }

  lemma {:induction false} JoinLength(sep: string, parts: seq<string>)
    requires parts != []
    ensures |Join(sep, parts)| == SumLen(parts) + |sep| * (|parts| - 1)
  {
    if |parts| > 1 {
      JoinLength(sep, parts[1..]);
    }
  }

  // ---------------------------------------------------------------------------
  // Numbers

  predicate IsDigit(c: char) {
    '0' <= c <= '9'
  }

  /** `str(n)` for a natural number: decimal digits, no leading zero. */
  function NatToString(n: nat): (r: string)
    ensures r != [] && (r[0] == '0' ==> n == 0)
    ensures forall i :: 0 <= i < |r| ==> IsDigit(r[i])
  {
    var d := ['0' + (n % 10) as char];
    if n < 10 then d else NatToString(n / 10) + d
  }

  /** `str(i)` for an integer: a minus sign before the digits of a negative number. */
  function IntToString(i: int): (r: string)
    ensures r != []
    ensures r[0] == '-' <==> i < 0
  {
    if i < 0 then "-" + NatToString(-i) else NatToString(i)
  }

  // ---------------------------------------------------------------------------
  // White space

  function TrimLeft(s: string): (r: string)
    ensures |r| <= |s|
    ensures r != [] ==> !IsSpace(r[0])
    ensures forall i :: 0 <= i < |s| - |r| ==> IsSpace(s[i])
  {
    if s != [] && IsSpace(s[0]) then TrimLeft(s[1..]) else s
  }

  function TrimRight(s: string): (r: string)
    ensures |r| <= |s|
    ensures r != [] ==> !IsSpace(r[|r| - 1])
    ensures forall i :: |r| <= i < |s| ==> IsSpace(s[i])
  {
    if s != [] && IsSpace(s[|s| - 1]) then TrimRight(s[..|s| - 1]) else s
  }

  /** What `TrimLeft` leaves is a suffix of its input. */
  lemma TrimLeftSuffix(s: string)
    ensures TrimLeft(s) == s[|s| - |TrimLeft(s)|..]
  {
  }

  /** What `TrimRight` leaves is a prefix of its input. */
  lemma TrimRightPrefix(s: string)
    ensures TrimRight(s) == s[..|TrimRight(s)|]
  {
  }

  /** `s.strip()`: the result neither starts nor ends with white space. */
  function Strip(s: string): string {
    TrimRight(TrimLeft(s))
  }

  predicate IsStripped(s: string) {
    s == [] || (!IsSpace(s[0]) && !IsSpace(s[|s| - 1]))
  }

  lemma StripIsStripped(s: string)
    ensures IsStripped(Strip(s))
  {
    var l := TrimLeft(s);
    var r := TrimRight(l);
    TrimRightPrefix(l);
    if r != [] {
      assert r[0] == l[0];
    }
  }

  /** A stripped string is left alone by `strip`. */
  lemma StripStripped(s: string)
    requires IsStripped(s)
    ensures Strip(s) == s
  {
  }

  /** `s.split()` with no argument: the maximal runs of non-space characters. */
  function Words(s: string): (r: seq<string>)
    ensures forall k :: 0 <= k < |r| ==> IsWord(r[k])
    decreases |s|
  {
    if s == [] then []
    else if IsSpace(s[0]) then Words(s[1..])
    else
      var n := WordLength(s);
      FirstWord(s);
      var rest := Words(s[n..]);
      assert forall k :: 1 <= k < |[s[..n]] + rest| ==> ([s[..n]] + rest)[k] == rest[k - 1];
      [s[..n]] + rest
  }

  /** A non-empty run of non-space characters. */
  predicate IsWord(w: string) {
    w != [] && forall i :: 0 <= i < |w| ==> !IsSpace(w[i])
  }

  /** A string that starts with a non-space character starts with a word. */
  lemma FirstWord(t: string)
    requires t != [] && !IsSpace(t[0])
    ensures 0 < WordLength(t) && IsWord(t[..WordLength(t)])
  {
    var n := WordLength(t);
    forall i | 0 <= i < n ensures !IsSpace(t[..n][i]) {
      assert t[..n][i] == t[i];
    }
  }

  /** The length of the run of non-space characters that starts `s`. */
  function WordLength(s: string): (n: nat)
    ensures n <= |s|
    ensures forall i :: 0 <= i < n ==> !IsSpace(s[i])
    ensures n < |s| ==> IsSpace(s[n])
  {
    if s == [] || IsSpace(s[0]) then 0 else 1 + WordLength(s[1..])
  }

  /** A string with a non-space character has at least one word. */
  lemma {:induction false} WordsNonEmpty(s: string, i: nat)
    requires i < |s| && !IsSpace(s[i])
    ensures Words(s) != []
  {
    if IsSpace(s[0]) {
      WordsNonEmpty(s[1..], i - 1);
    }
  }

  /** Two strings meet at a word boundary: one is empty, or white space is on either side of the seam. */
  predicate Separated(a: string, b: string) {
    a == [] || b == [] || IsSpace(a[|a| - 1]) || IsSpace(b[0])
  }

  /** The word that starts `a` is not lengthened by what follows, once it has ended or `b` starts with space. */
  lemma {:induction false} WordLengthAppend(a: string, b: string)
    requires WordLength(a) < |a| || b == [] || IsSpace(b[0])
    ensures WordLength(a + b) == WordLength(a)
    decreases |a|
  {
    if a == [] {
      assert a + b == b;
    } else if !IsSpace(a[0]) {
      assert (a + b)[1..] == a[1..] + b;
      WordLengthAppend(a[1..], b);
    }
  }

  /** The words of two strings that meet at a word boundary are the words of each, in order. */
  lemma {:induction false} WordsAppend(a: string, b: string)
    requires Separated(a, b)
    ensures Words(a + b) == Words(a) + Words(b)
    decreases |a|
  {
    if a == [] {
      assert a + b == b;
    } else if IsSpace(a[0]) {
      assert (a + b)[1..] == a[1..] + b;
      WordsAppend(a[1..], b);
    } else {
      var n := WordLength(a);
      if n < |a| {
        assert a[n..][|a[n..]| - 1] == a[|a| - 1];
        WordsAppend(a[n..], b);
      }
      WordsAppendStep(a, b);
    }
  }

  /** One step of `WordsAppend`: the first word of `a` is the first word of `a + b`. */
  lemma {:induction false} WordsAppendStep(a: string, b: string)
    requires a != [] && !IsSpace(a[0]) && Separated(a, b)
    requires WordLength(a) < |a| ==> Words(a[WordLength(a)..] + b) == Words(a[WordLength(a)..]) + Words(b)
    ensures Words(a + b) == Words(a) + Words(b)
  {
    var n := WordLength(a);
    WordLengthAppend(a, b);
    AppendSlices(a, b, n);
    WordsUnfold(a);
    WordsUnfold(a + b);
    if n < |a| {
      calc {
        Words(a + b);
        [a[..n]] + Words(a[n..] + b);
        [a[..n]] + (Words(a[n..]) + Words(b));
        ([a[..n]] + Words(a[n..])) + Words(b);
      }
    } else {
      assert a[n..] == [];
      assert Words(a) == [a[..n]];
    }
  }

  /** Cutting `a + b` inside `a`. */
  lemma AppendSlices(a: string, b: string, n: nat)
    requires n <= |a|
    ensures (a + b)[..n] == a[..n] && (a + b)[n..] == a[n..] + b
    ensures n == |a| ==> a[n..] + b == b
  {
    if n == |a| {
      assert a[n..] == [];
    }
  }

  /** `split()` of a text that starts with a word: that word, then the words of the rest. */
  lemma {:induction false} WordsUnfold(s: string)
    requires s != [] && !IsSpace(s[0])
    ensures Words(s) == [s[..WordLength(s)]] + Words(s[WordLength(s)..])
  {
  }

  /** White space holds no words. */
  lemma {:induction false} WordsOfSpace(s: string)
    requires forall i :: 0 <= i < |s| ==> IsSpace(s[i])
    ensures Words(s) == []
    decreases |s|
  {
    if s != [] {
      WordsOfSpace(s[1..]);
    }
  }

  /** White space in front of a text does not change its words. */
  lemma SpaceThenWords(sp: string, t: string)
    requires forall i :: 0 <= i < |sp| ==> IsSpace(sp[i])
    ensures Words(sp + t) == Words(t)
  {
    WordsAppend(sp, t);
    WordsOfSpace(sp);
  }

  /** A word is its own only word. */
  lemma WordsOfWord(w: string)
    requires IsWord(w)
    ensures Words(w) == [w]
  {
    assert WordLength(w) == |w|;
    assert w[..|w|] == w && w[|w|..] == [];
  }

  /** Words joined by single spaces split back into the same words. */
  lemma {:induction false} WordsOfJoin(ws: seq<string>)
    requires forall k :: 0 <= k < |ws| ==> IsWord(ws[k])
    ensures Words(Join(" ", ws)) == ws
  {
    if |ws| == 1 {
      WordsOfWord(ws[0]);
    } else if |ws| > 1 {
      var rest := Join(" ", ws[1..]);
      assert Join(" ", ws) == ws[0] + (" " + rest);
      WordsAppend(ws[0], " " + rest);
      WordsOfWord(ws[0]);
      assert (" " + rest)[1..] == rest;
      WordsOfJoin(ws[1..]);
      assert ws == [ws[0]] + ws[1..];
    }
  }

  /** Stripping leaves the words alone. */
  lemma WordsStrip(s: string)
    ensures Words(Strip(s)) == Words(s)
  {
    WordsTrimLeft(s);
    WordsTrimRight(TrimLeft(s));
  }

  lemma WordsTrimLeft(s: string)
    ensures Words(TrimLeft(s)) == Words(s)
  {
    var l := TrimLeft(s);
    TrimLeftSuffix(s);
    var sp := s[..|s| - |l|];
    assert s == sp + l;
    SpaceThenWords(sp, l);
  }

  lemma WordsTrimRight(s: string)
    ensures Words(TrimRight(s)) == Words(s)
  {
    var r := TrimRight(s);
    TrimRightPrefix(s);
    var sp := s[|r|..];
    assert s == r + sp;
    assert forall i :: 0 <= i < |sp| ==> IsSpace(sp[i]);
    WordsAppend(r, sp);
    WordsOfSpace(sp);
  }

  // ---------------------------------------------------------------------------
  // File names

  /** `name.rsplit('.', 1)[-1]`: the text after the last dot, or the whole name. */
  function AfterLastDot(name: string): (r: string)
    ensures '.' !in r
    ensures '.' !in name ==> r == name
    ensures '.' in name ==> exists k :: 0 <= k < |name| && name[k] == '.' && r == name[k + 1..]
  {
    match LastIndexOf(name, '.')
    case None => name
    case Some(k) => name[k + 1..]
  }

  /**
   * `os.path.splitext` on a base name (no directory part): the extension starts at
   * the last dot, provided some character before that dot is not a dot; otherwise
   * the extension is empty.
   */
  function SplitExt(name: string): (r: (string, string))
    ensures r.0 + r.1 == name
    ensures r.1 == [] || (r.1[0] == '.' && '.' !in r.1[1..])
  {
    match LastIndexOf(name, '.')
    case None => (name, "")
    case Some(k) =>
      if exists i :: 0 <= i < k && name[i] != '.' then
        assert name[..k] + name[k..] == name;
        assert name[k..][1..] == name[k + 1..];
        (name[..k], name[k..])
      else (name, "")
  }

  /** Position `k` holds the last dot of `name`. */
  predicate LastDot(name: string, k: nat) {
    k < |name| && name[k] == '.' && '.' !in name[k + 1..]
  }

  /**
   * A name has an extension exactly when its last dot has a character other
   * than a dot somewhere before it: ".bashrc" and "..x" have none, "a.b" has.
   */
  lemma SplitExtHasExtension(name: string)
    ensures SplitExt(name).1 != [] <==> exists i, k :: 0 <= i < k < |name| && name[i] != '.' && LastDot(name, k)
  {
    match LastIndexOf(name, '.')
    case None =>
    case Some(k) =>
      LastDotUnique(name, k);
      if exists i :: 0 <= i < k && name[i] != '.' {
        assert LastDot(name, k);
      }
  }

  lemma LastDotUnique(name: string, k: nat)
    requires LastDot(name, k)
    ensures forall j: nat :: LastDot(name, j) ==> j == k
  {
  }

  /** The text after the last dot of `stem + "." + ext` is `ext`, when `ext` has no dot. */
  lemma AfterLastDotOfJoined(stem: string, ext: string)
    requires '.' !in ext
    ensures AfterLastDot(stem + "." + ext) == ext
  {
    var name := stem + "." + ext;
    var k := |stem|;
    assert name[k] == '.';
    var j := LastIndexOf(name, '.').value;
    forall t | j < t < |name|
      ensures name[t] != '.'
    {
      assert name[j + 1..][t - j - 1] == name[t];
    }
    assert j == k;
    assert name[k + 1..] == ext;
  }

  function Stem(name: string): string {
    SplitExt(name).0
  }

  /**
   * The name `stem + "." + ext`, for an extension without dots and a stem that is
   * not all dots, splits back into that stem and `"." + ext`.
   */
  lemma SplitExtOfJoined(stem: string, ext: string, i: nat)
    requires '.' !in ext
    requires i < |stem| && stem[i] != '.'
    ensures SplitExt(stem + "." + ext) == (stem, "." + ext)
  {
    var name := stem + "." + ext;
    var k := |stem|;
    assert name[k] == '.';
    var j := LastIndexOf(name, '.').value;
    forall t | j < t < |name|
      ensures name[t] != '.'
    {
      assert name[j + 1..][t - j - 1] == name[t];
    }
    assert j == k;
    assert name[i] == stem[i];
    assert name[..k] == stem;
    assert name[k..] == "." + ext;
  }

  // ---------------------------------------------------------------------------
  // Ordering (`sorted` on str compares code points lexicographically)

  predicate Less(a: string, b: string) {
    if a == [] then b != []
    else if b == [] then false
    else if a[0] != b[0] then a[0] < b[0]
    else Less(a[1..], b[1..])
  }

  lemma {:induction false} LessIrreflexive(a: string)
    ensures !Less(a, a)
  {
    if a != [] {
      LessIrreflexive(a[1..]);
    }
  }

  lemma {:induction false} LessTransitive(a: string, b: string, c: string)
    requires Less(a, b) && Less(b, c)
    ensures Less(a, c)
  {
    if a != [] && b != [] && c != [] && a[0] == b[0] && b[0] == c[0] {
      LessTransitive(a[1..], b[1..], c[1..]);
    }
  }

  lemma {:induction false} LessTotal(a: string, b: string)
    requires a != b
    ensures Less(a, b) || Less(b, a)
  {
    if a != [] && b != [] && a[0] == b[0] {
      assert a == [a[0]] + a[1..] && b == [b[0]] + b[1..];
      LessTotal(a[1..], b[1..]);
    }
  }

  function Elems(s: seq<string>): set<string> {
    set x | x in s
  }

  predicate StrictlySorted(s: seq<string>) {
    forall i, j :: 0 <= i < j < |s| ==> Less(s[i], s[j])
  }

  /** A strictly sorted list holds no element twice. */
  lemma SortedNoDuplicates(s: seq<string>, i: nat, j: nat)
    requires StrictlySorted(s)
    requires i < j < |s|
    ensures s[i] != s[j]
  {
    LessIrreflexive(s[i]);
  }

  lemma LessAsymmetric(a: string, b: string)
    ensures !(Less(a, b) && Less(b, a))
  {
    if Less(a, b) && Less(b, a) {
      LessTransitive(a, b, a);
      LessIrreflexive(a);
    }
  }

  /** The head of a strictly sorted list is below every other element. */
  lemma SortedHead(s: seq<string>, x: string)
    requires StrictlySorted(s) && x in s
    ensures x == s[0] || Less(s[0], x)
  {
  }

  /** Two strictly sorted lists with the same elements are the same list. */
  lemma {:induction false} SortedUnique(s: seq<string>, t: seq<string>)
    requires StrictlySorted(s) && StrictlySorted(t)
    requires Elems(s) == Elems(t)
    ensures s == t
    decreases |s|
  {
    if s != [] {
      assert s[0] in Elems(s);
      assert t != [];
    }
    if t != [] {
      assert t[0] in Elems(t);
      assert s != [];
    }
    if s != [] && t != [] {
      SortedHead(s, t[0]);
      SortedHead(t, s[0]);
      LessAsymmetric(s[0], t[0]);
      assert s[0] == t[0];
      forall x | x in s[1..]
        ensures x in t[1..]
      {
        assert x in Elems(s);
        SortedHead(s[1..], x);
        assert Less(s[0], x) by {
          if x != s[1] { LessTransitive(s[0], s[1], x); }
        }
        LessIrreflexive(x);
      }
      forall x | x in t[1..]
        ensures x in s[1..]
      {
        assert x in Elems(t);
        SortedHead(t[1..], x);
        assert Less(t[0], x) by {
          if x != t[1] { LessTransitive(t[0], t[1], x); }
        }
        LessIrreflexive(x);
      }
      assert Elems(s[1..]) == Elems(t[1..]);
      SortedUnique(s[1..], t[1..]);
      assert s == [s[0]] + s[1..] && t == [t[0]] + t[1..];
    }
  }
}
