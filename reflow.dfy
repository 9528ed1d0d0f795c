/**
 * The text re-flow helpers of the hybrid service's direct transcoders:
 * splitting a long PDF page into word chunks (PDF to PPTX), packing
 * paragraphs into slides (DOCX and TXT to PPTX), choosing slide titles, and
 * the clean-up of extracted text (HTML to TXT). The presentation libraries
 * are not modelled: a slide is its title and its body text.
 */
module Reflow {
  import opened Text

  // ---------------------------------------------------------------------------
  // Greedy packing

  /** The groups laid end to end. */
  function Concat(gs: seq<seq<string>>): seq<string> {
    if gs == [] then [] else gs[0] + Concat(gs[1..])
  }

  lemma {:induction false} ConcatAppend(gs: seq<seq<string>>, g: seq<string>)
    ensures Concat(gs + [g]) == Concat(gs) + g
  {
    if gs != [] {
      assert (gs + [g])[1..] == gs[1..] + [g];
      ConcatAppend(gs[1..], g);
    }
  }

  /**
   * The running count the packing loops keep for a group: every item adds
   * its length plus `step`, except the item that restarts the group after a
   * break, which adds its length alone. Every group but the first is
   * restarted that way.
   */
  function Tally(g: seq<string>, step: nat, restarted: bool): int {
    SumLen(g) + step * |g| - (if restarted && g != [] then step else 0)
  }

  /**
   * The test that ends the current group before `x`: the group holds
   * something and the count, plus `x`'s length and `extra`, passes `limit`.
   */
  predicate Breaks(g: seq<string>, x: string, limit: int, step: nat, extra: nat, restarted: bool) {
    g != [] && Tally(g, step, restarted) + |x| + extra > limit
  }

  /**
   * A packing the greedy loop produces: non-empty groups that lay out the
   * items in order, a break between two groups only where the test demands
   * one, and none inside a group.
   */
  ghost predicate GreedyPacking(items: seq<string>, gs: seq<seq<string>>, limit: int, step: nat, extra: nat) {
    Concat(gs) == items && Packed(gs, limit, step, extra)
  }

  ghost predicate Packed(gs: seq<seq<string>>, limit: int, step: nat, extra: nat) {
    && (forall k :: 0 <= k < |gs| ==> gs[k] != [])
    && (forall k :: 0 <= k < |gs| - 1 ==> Breaks(gs[k], gs[k + 1][0], limit, step, extra, k > 0))
    && (forall k :: 0 <= k < |gs| ==> Unbroken(gs[k], limit, step, extra, k > 0))
  }

  /** No break inside group `g`: each item fitted after the ones before it. */
  ghost predicate Unbroken(g: seq<string>, limit: int, step: nat, extra: nat, restarted: bool) {
    forall j :: 0 < j < |g| ==> !Breaks(g[..j], g[j], limit, step, extra, restarted)
  }

  /** The group the loop is filling, after the closed groups `gs`. */
  ghost predicate Filling(gs: seq<seq<string>>, current: seq<string>, limit: int, step: nat, extra: nat) {
    && Unbroken(current, limit, step, extra, gs != [])
    && (gs != [] ==> current != [] && Breaks(gs[|gs| - 1], current[0], limit, step, extra, |gs| > 1))
  }

  /** Closing the current group when the next item does not fit. */
  lemma CloseGroup(gs: seq<seq<string>>, current: seq<string>, x: string, limit: int, step: nat, extra: nat)
    requires Packed(gs, limit, step, extra) && Filling(gs, current, limit, step, extra)
    requires Breaks(current, x, limit, step, extra, gs != [])
    ensures Packed(gs + [current], limit, step, extra) && Filling(gs + [current], [x], limit, step, extra)
  {
    var gs' := gs + [current];
    assert gs'[|gs|] == current;
    assert forall k :: 0 <= k < |gs| ==> gs'[k] == gs[k];
  }

  /** Adding the next item to the current group when it fits. */
  lemma ExtendGroup(gs: seq<seq<string>>, current: seq<string>, x: string, limit: int, step: nat, extra: nat)
    requires Filling(gs, current, limit, step, extra)
    requires !Breaks(current, x, limit, step, extra, gs != [])
    requires current == [] ==> gs == []
    ensures Filling(gs, current + [x], limit, step, extra)
  {
    var c := current + [x];
    assert c[..|current|] == current;
    forall j | 0 < j < |c| ensures !Breaks(c[..j], c[j], limit, step, extra, gs != []) {
      if j < |current| {
        assert c[..j] == current[..j];
      }
    }
  }

  /** Closing the last group at the end of the items. */
  lemma CloseLast(gs: seq<seq<string>>, current: seq<string>, limit: int, step: nat, extra: nat)
    requires Packed(gs, limit, step, extra) && Filling(gs, current, limit, step, extra) && current != []
    ensures Packed(gs + [current], limit, step, extra)
  {
    var gs' := gs + [current];
    assert gs'[|gs|] == current;
    assert forall k :: 0 <= k < |gs| ==> gs'[k] == gs[k];
  }

  /** Appending one item to a group adds its length and `step` to the count, unless it opens the group. */
  lemma TallyAppend(g: seq<string>, x: string, step: nat, restarted: bool)
    ensures Tally(g + [x], step, restarted) == Tally(g, step, restarted) + |x| + (if restarted && g == [] then 0 else step)
  {
    SumLenAppend(g, x);
  }

  /** Adding the next item to a split of the first `i` items gives a split of the first `i + 1`. */
  lemma PrefixStep(items: seq<string>, i: nat, done: seq<string>, current: seq<string>)
    requires i < |items| && done + current == items[..i]
    ensures done + current + [items[i]] == items[..i + 1]
    ensures done + (current + [items[i]]) == items[..i + 1]
  {
    assert items[..i + 1] == items[..i] + [items[i]];
  }

  /**
   * The loop shared by the three packers: keep adding items to the current
   * group; when the test says the next item does not fit, close the group
   * and open a new one with that item.
   */
  method Pack(items: seq<string>, limit: int, step: nat, extra: nat) returns (groups: seq<seq<string>>)
    ensures GreedyPacking(items, groups, limit, step, extra)
    ensures |groups| <= |items| && (groups == [] <==> items == [])
  {
    groups := [];
    var current: seq<string> := [];
    var count := 0;
    for i := 0 to |items|
      invariant Concat(groups) + current == items[..i]
      invariant i == 0 ==> groups == [] && current == []
      invariant i > 0 ==> current != []
      invariant |groups| < i || (i == 0 && groups == [])
      invariant count == Tally(current, step, groups != [])
      invariant Packed(groups, limit, step, extra) && Filling(groups, current, limit, step, extra)
    {
      var x := items[i];
      PrefixStep(items, i, Concat(groups), current);
      if count + |x| + extra > limit && current != [] {
        CloseGroup(groups, current, x, limit, step, extra);
        ConcatAppend(groups, current);
        assert SumLen([x]) == |x| + SumLen([]);
        groups := groups + [current];
        current := [x];
        count := |x|;
      } else {
        ExtendGroup(groups, current, x, limit, step, extra);
        TallyAppend(current, x, step, groups != []);
        current := current + [x];
        count := count + |x| + step;
      }
    }
    assert items[..|items|] == items;
    if current != [] {
      CloseLast(groups, current, limit, step, extra);
      ConcatAppend(groups, current);
      groups := groups + [current];
    }
  }

  // ---------------------------------------------------------------------------
  // Slides

  /** A slide as the transcoders fill it: the title and the body text. */
  datatype Slide = Slide(title: string, body: string)

  /** Every text of `xs` is a slide's title or occurs in some slide's body. */
  ghost predicate KeepsText(deck: seq<Slide>, xs: seq<string>) {
    forall x :: x in xs ==> exists k :: 0 <= k < |deck| && (deck[k].title == x || Contains(deck[k].body, x))
  }

  /** `sep.join(parts)` contains each of the parts. */
  lemma {:induction false} JoinContains(sep: string, parts: seq<string>, i: nat)
    requires i < |parts|
    ensures Contains(Join(sep, parts), parts[i])
  {
    var s := Join(sep, parts);
    if |parts| == 1 {
      ContainsPart(s, [], parts[0], []);
    } else if i == 0 {
      ContainsPart(s, [], parts[0], sep + Join(sep, parts[1..]));
    } else {
      JoinContains(sep, parts[1..], i - 1);
      ContainsPart(s, parts[0] + sep, Join(sep, parts[1..]), []);
      ContainsTransitive(s, Join(sep, parts[1..]), parts[i]);
    }
  }

  lemma ContainsItself(s: string)
    ensures Contains(s, s)
  {
    ContainsPart(s, [], s, []);
  }

  // ---------------------------------------------------------------------------
  // PDF to PPTX: one page's slides

  const PageLimit: nat := 1000

  /** Within a word chunk the packing did not break, the chunk's text fits on the slide. */
  lemma ChunkFits(g: seq<string>, restarted: bool)
    requires g != [] && Unbroken(g, PageLimit, 1, 1, restarted)
    ensures |g| == 1 || |Join(" ", g)| <= (if restarted then PageLimit else PageLimit - 1)
  {
    if |g| > 1 {
      var k := |g| - 1;
      assert !Breaks(g[..k], g[k], PageLimit, 1, 1, restarted);
      assert g == g[..k] + [g[k]];
      SumLenAppend(g[..k], g[k]);
      JoinLength(" ", g);
    }
  }

  /** Slide `i` of a page: the page's own title for the first, a part number after it for the others. */
  function PartTitle(pageNum: nat, i: nat): (r: string)
    ensures i == 0 ==> r == "Page " + NatToString(pageNum)
    ensures i > 0 ==> r == "Page " + NatToString(pageNum) + " (Part " + NatToString(i + 1) + ")"
  {
    if i == 0 then "Page " + NatToString(pageNum)
    else "Page " + NatToString(pageNum) + " (Part " + NatToString(i + 1) + ")"
  }

  /**
   * The slides of one page (`convert_pdf_to_pptx`): a page of at most 1000
   * characters is one slide; a longer one is split into its words, packed
   * greedily into chunks of at most 1000 characters, one slide per chunk.
   * The page is stripped and not blank, as the extraction keeps only such pages.
   */
  method PageSlides(pageNum: nat, page: string) returns (slides: seq<Slide>)
    requires page != [] && IsStripped(page)
    ensures |page| <= PageLimit ==> slides == [Slide(PartTitle(pageNum, 0), page)]
    ensures |page| > PageLimit ==>
      exists gs :: GreedyPacking(Words(page), gs, PageLimit, 1, 1) && |gs| == |slides|
        && forall k :: 0 <= k < |gs| ==> slides[k] == Slide(PartTitle(pageNum, k), Join(" ", gs[k]))
    ensures slides != [] && forall k :: 0 <= k < |slides| ==> slides[k].title == PartTitle(pageNum, k)
  {
    if |page| <= PageLimit {
      slides := [Slide(PartTitle(pageNum, 0), page)];
    } else {
      WordsNonEmpty(page, 0);
      var gs := Pack(Words(page), PageLimit, 1, 1);
      slides := seq(|gs|, k requires 0 <= k < |gs| => Slide(PartTitle(pageNum, k), Join(" ", gs[k])));
    }
  }

  /**
   * What the page split promises: the chunks lay out the page's words in
   * order; a chunk of several words is at most 1000 characters long (999 for
   * the first, whose count starts one higher); a new chunk starts only when
   * the next word would not fit.
   */
  lemma PageChunksFit(page: string, gs: seq<seq<string>>)
    requires GreedyPacking(Words(page), gs, PageLimit, 1, 1)
    ensures Concat(gs) == Words(page)
    ensures forall k :: 0 <= k < |gs| ==> |gs[k]| == 1 || |Join(" ", gs[k])| <= (if k == 0 then PageLimit - 1 else PageLimit)
    ensures forall k :: 0 <= k < |gs| - 1 ==> Tally(gs[k], 1, k > 0) + |gs[k + 1][0]| + 1 > PageLimit
  {
    forall k | 0 <= k < |gs|
      ensures |gs[k]| == 1 || |Join(" ", gs[k])| <= (if k == 0 then PageLimit - 1 else PageLimit)
    {
      ChunkFits(gs[k], k > 0);
    }
  }

  /** The text of each page that has some, stripped, with its page number (pages count from `first`). */
  function PageTexts(pages: seq<Option<string>>, first: nat): (r: seq<(nat, string)>)
    ensures forall k :: 0 <= k < |r| ==> r[k].1 != [] && IsStripped(r[k].1)
    ensures |r| <= |pages|
  {
    if pages == [] then []
    else
      var rest := PageTexts(pages[1..], first + 1);
      StripIsStripped(if pages[0].Some? then pages[0].value else "");
      if pages[0].Some? && Strip(pages[0].value) != [] then [(first, Strip(pages[0].value))] + rest
      else rest
  }

  /** Page `n` is listed with text `t` exactly when it exists, has text, and `t` is that text stripped and not blank. */
  lemma {:induction false} PageTextsMember(pages: seq<Option<string>>, first: nat, n: nat, t: string)
    ensures (n, t) in PageTexts(pages, first) <==>
      first <= n < first + |pages| && pages[n - first].Some? && t == Strip(pages[n - first].value) && t != []
  {
    if pages != [] {
      PageTextsMember(pages[1..], first + 1, n, t);
      PageTextsCons(pages, first, (n, t));
      if first < n < first + |pages| {
        assert pages[1..][n - (first + 1)] == pages[n - first];
      }
    }
  }

  /** The listing of a non-empty run of pages: the first page's entry, if it has text, then the rest's. */
  lemma {:induction false} PageTextsCons(pages: seq<Option<string>>, first: nat, e: (nat, string))
    requires pages != []
    ensures e in PageTexts(pages, first) <==>
      (pages[0].Some? && Strip(pages[0].value) != [] && e == (first, Strip(pages[0].value)))
      || e in PageTexts(pages[1..], first + 1)
  {
    var rest := PageTexts(pages[1..], first + 1);
    if pages[0].Some? && Strip(pages[0].value) != [] {
      var head := (first, Strip(pages[0].value));
      assert PageTexts(pages, first) == [head] + rest;
      assert e in [head] + rest <==> e == head || e in rest;
    } else {
      assert PageTexts(pages, first) == rest;
    }
  }

  /** The pages are listed in increasing page order, from `first` on. */
  lemma {:induction false} PageTextsOrdered(pages: seq<Option<string>>, first: nat)
    ensures forall k :: 0 <= k < |PageTexts(pages, first)| ==> PageTexts(pages, first)[k].0 >= first
    ensures forall i, j :: 0 <= i < j < |PageTexts(pages, first)| ==> PageTexts(pages, first)[i].0 < PageTexts(pages, first)[j].0
  {
    if pages != [] {
      var rest := PageTexts(pages[1..], first + 1);
      PageTextsOrdered(pages[1..], first + 1);
      if pages[0].Some? && Strip(pages[0].value) != [] {
        assert PageTexts(pages, first) == [(first, Strip(pages[0].value))] + rest;
        ConsNumbered(first, Strip(pages[0].value), rest);
      } else {
        assert PageTexts(pages, first) == rest;
      }
    }
  }

  /** Page `first` in front of pages numbered above it, in increasing order, keeps the order. */
  lemma ConsNumbered(first: nat, t: string, rest: seq<(nat, string)>)
    requires forall k :: 0 <= k < |rest| ==> rest[k].0 >= first + 1
    requires forall i, j :: 0 <= i < j < |rest| ==> rest[i].0 < rest[j].0
    ensures var r := [(first, t)] + rest;
      && (forall k :: 0 <= k < |r| ==> r[k].0 >= first)
      && (forall i, j :: 0 <= i < j < |r| ==> r[i].0 < r[j].0)
  {
    var r := [(first, t)] + rest;
    forall i, j | 0 <= i < j < |r| ensures r[i].0 < r[j].0 {
      assert r[j] == rest[j - 1];
      if i > 0 {
        assert r[i] == rest[i - 1];
      }
    }
    forall k | 1 <= k < |r| ensures r[k].0 >= first {
      assert r[k] == rest[k - 1];
    }
  }
  /** Some page has text exactly when the list of page texts is not empty. */
  lemma {:induction false} PageTextsEmpty(pages: seq<Option<string>>, first: nat)
    ensures PageTexts(pages, first) == [] <==> forall k :: 0 <= k < |pages| ==> pages[k].None? || Strip(pages[k].value) == []
  {
    if pages != [] {
      PageTextsEmpty(pages[1..], first + 1);
      assert forall k :: 1 <= k < |pages| ==> pages[k] == pages[1..][k - 1];
    }
  }

  /**
   * `convert_pdf_to_pptx` on the extracted text of each page (none where
   * the extraction found nothing): no deck when no page has text (the
   * transcoder returns False); otherwise a title slide giving the number of
   * pages with text, then each such page's slides in page order.
   */
  method PdfDeck(pages: seq<Option<string>>) returns (deck: Option<seq<Slide>>)
    ensures deck.None? <==> forall k :: 0 <= k < |pages| ==> pages[k].None? || Strip(pages[k].value) == []
    ensures deck.Some? ==>
      && |deck.value| >= 1 + |PageTexts(pages, 1)|
      && deck.value[0] == Slide("PDF Content", "Converted from PDF (" + NatToString(|PageTexts(pages, 1)|) + " pages)")
  {
    var texts := PageTexts(pages, 1);
    PageTextsEmpty(pages, 1);
    if texts == [] {
      return None;
    }
    var slides := [Slide("PDF Content", "Converted from PDF (" + NatToString(|texts|) + " pages)")];
    for i := 0 to |texts|
      invariant |slides| >= 1 + i
      invariant slides[0] == Slide("PDF Content", "Converted from PDF (" + NatToString(|texts|) + " pages)")
    {
      var more := PageSlides(texts[i].0, texts[i].1);
      slides := slides + more;
    }
    deck := Some(slides);
  }

  // ---------------------------------------------------------------------------
  // DOCX to PPTX

  const DocxTitleLimit: nat := 100
  const DocxSlideLimit: nat := 800

  /** The non-blank paragraphs, stripped. */
  function NonBlank(ps: seq<string>): (r: seq<string>)
    ensures forall k :: 0 <= k < |r| ==> r[k] != [] && IsStripped(r[k])
    ensures |r| <= |ps|
  {
    if ps == [] then []
    else
      var rest := NonBlank(ps[1..]);
      StripIsStripped(ps[0]);
      if Strip(ps[0]) != [] then
        ConsStrippedTexts(Strip(ps[0]), rest);
        [Strip(ps[0])] + rest
      else rest
  }

  /** Putting a stripped, non-blank text in front of a list of such texts keeps the list so. */
  lemma ConsStrippedTexts(h: string, rest: seq<string>)
    requires h != [] && IsStripped(h)
    requires forall k :: 0 <= k < |rest| ==> rest[k] != [] && IsStripped(rest[k])
    ensures forall k :: 0 <= k < |[h] + rest| ==> ([h] + rest)[k] != [] && IsStripped(([h] + rest)[k])
  {
    forall k | 1 <= k < |[h] + rest|
      ensures ([h] + rest)[k] == rest[k - 1]
    {
    }
  }

  /** A text is kept exactly when it is not empty and some element strips to it. */
  lemma {:induction false} NonBlankMember(ps: seq<string>, x: string)
    ensures x in NonBlank(ps) <==> x != [] && exists k :: 0 <= k < |ps| && Strip(ps[k]) == x
  {
    if ps != [] {
      var h := Strip(ps[0]);
      var rest := NonBlank(ps[1..]);
      NonBlankMember(ps[1..], x);
      StripsToCons(ps, x);
      if h != [] {
        assert NonBlank(ps) == [h] + rest;
        assert x in [h] + rest <==> x == h || x in rest;
      } else {
        assert NonBlank(ps) == rest;
      }
    }
  }

  /** Some element of a non-empty list strips to `x` exactly when the first does or one of the rest does. */
  lemma {:induction false} StripsToCons(ps: seq<string>, x: string)
    requires ps != []
    ensures (exists k :: 0 <= k < |ps| && Strip(ps[k]) == x) <==>
      Strip(ps[0]) == x || exists k :: 0 <= k < |ps[1..]| && Strip(ps[1..][k]) == x
  {
    if exists k :: 0 <= k < |ps[1..]| && Strip(ps[1..][k]) == x {
      var k :| 0 <= k < |ps[1..]| && Strip(ps[1..][k]) == x;
      assert ps[1..][k] == ps[k + 1];
    }
    if exists k :: 0 <= k < |ps| && Strip(ps[k]) == x {
      var k :| 0 <= k < |ps| && Strip(ps[k]) == x;
      if k > 0 {
        assert ps[1..][k - 1] == ps[k];
      }
    }
  }

  /** When no element is blank, every element is kept, stripped, in place. */
  lemma {:induction false} NonBlankKeepsAll(ps: seq<string>)
    requires forall k :: 0 <= k < |ps| ==> Strip(ps[k]) != []
    ensures |NonBlank(ps)| == |ps| && forall k :: 0 <= k < |ps| ==> NonBlank(ps)[k] == Strip(ps[k])
  {
    if ps != [] {
      NonBlankKeepsAll(ps[1..]);
      var r := NonBlank(ps);
      assert r == [Strip(ps[0])] + NonBlank(ps[1..]);
      forall k | 1 <= k < |ps|
        ensures r[k] == Strip(ps[k])
      {
        assert r[k] == NonBlank(ps[1..])[k - 1];
        assert ps[1..][k - 1] == ps[k];
      }
    }
  }

  /** The filter keeps the order of the list: filtering two lists end to end filters each in turn. */
  lemma {:induction false} NonBlankAppend(a: seq<string>, b: seq<string>)
    ensures NonBlank(a + b) == NonBlank(a) + NonBlank(b)
  {
    if a == [] {
      assert a + b == b;
    } else {
      assert (a + b)[1..] == a[1..] + b;
      NonBlankAppend(a[1..], b);
    }
  }

  /**
   * A content slide (`_create_content_slide`): a first paragraph under 60
   * characters becomes the title and the rest the body; otherwise the title
   * is "Content" and every paragraph goes in the body.
   */
  function DocxContentSlide(g: seq<string>): (s: Slide)
    ensures g != [] && |g[0]| < 60 ==> s.title == g[0]
    ensures g != [] && |g[0]| >= 60 ==> s.title == "Content"
  {
    var first := if g != [] then g[0] else "Content";
    var (title, rest) := if |first| < 60 then (first, if |g| > 1 then g[1..] else []) else ("Content", g);
    Slide(title, if rest != [] then Join("\n\n", rest) else if |first| >= 60 then first else "[Content slide]")
  }

  /** A content slide keeps every paragraph of its group, as the title or in the body. */
  lemma DocxContentSlideKeepsText(g: seq<string>)
    ensures KeepsText([DocxContentSlide(g)], g)
  {
    var s := DocxContentSlide(g);
    forall x | x in g ensures exists k :: 0 <= k < 1 && ([s][k].title == x || Contains([s][k].body, x)) {
      var i :| 0 <= i < |g| && g[i] == x;
      if |g[0]| < 60 && i > 0 {
        JoinContains("\n\n", g[1..], i - 1);
      } else if |g[0]| >= 60 {
        JoinContains("\n\n", g, i);
      }
      assert [s][0] == s;
    }
  }

  lemma {:induction false} InConcat(gs: seq<seq<string>>, x: string)
    requires x in Concat(gs)
    ensures exists k :: 0 <= k < |gs| && x in gs[k]
  {
    if x !in gs[0] {
      InConcat(gs[1..], x);
      var k :| 0 <= k < |gs[1..]| && x in gs[1..][k];
      assert x in gs[k + 1];
    }
  }

  /** Slides that each keep their own group keep every item of the packing. */
  lemma SlidesKeepGroups(gs: seq<seq<string>>, slides: seq<Slide>)
    requires |slides| == |gs|
    requires forall k :: 0 <= k < |gs| ==> KeepsText([slides[k]], gs[k])
    ensures KeepsText(slides, Concat(gs))
  {
    forall x | x in Concat(gs)
      ensures exists k :: 0 <= k < |slides| && (slides[k].title == x || Contains(slides[k].body, x))
    {
      InConcat(gs, x);
      var k :| 0 <= k < |gs| && x in gs[k];
      assert exists j :: 0 <= j < 1 && ([slides[k]][j].title == x || Contains([slides[k]][j].body, x));
    }
  }

  /** The title slide of a Word document and the paragraphs left for the content slides. */
  function DocxTitleSlide(paragraphs: seq<string>): (r: (Slide, seq<string>))
    requires paragraphs != []
    ensures |r.1| < |paragraphs| ==> r.1 == paragraphs[1..] && r.0.title == paragraphs[0] && |r.0.title| < DocxTitleLimit
    ensures |r.1| == |paragraphs| ==> r.1 == paragraphs && |paragraphs[0]| >= DocxTitleLimit
  {
    if |paragraphs[0]| < DocxTitleLimit then (Slide(paragraphs[0], "Converted from Word Document"), paragraphs[1..])
    else (Slide("Word Document Content", "Converted from DOCX"), paragraphs)
  }

  const EmptyDocxDeck: seq<Slide> := [
    Slide("Empty Document", "No text content found in the Word document"),
    Slide("No Content", "The Word document appears to be empty or contains only formatting without readable text.")]

  const NoDocxContent: Slide := Slide("Content", "[No content paragraphs found in the Word document]")

  /** The slides for a Word document, given the packing of the paragraphs after the title slide. */
  function DocxSlides(paragraphs: seq<string>, gs: seq<seq<string>>): (deck: seq<Slide>)
    requires paragraphs != []
    ensures |deck| >= 2 && deck[0] == DocxTitleSlide(paragraphs).0
    ensures gs == [] ==> deck == [deck[0], NoDocxContent]
    ensures gs != [] ==> |deck| == |gs| + 1 && forall k :: 0 <= k < |gs| ==> deck[k + 1] == DocxContentSlide(gs[k])
  {
    var title := DocxTitleSlide(paragraphs).0;
    var slides := seq(|gs|, k requires 0 <= k < |gs| => DocxContentSlide(gs[k]));
    var deck := [title] + slides;
    if |deck| == 1 then deck + [NoDocxContent] else deck
  }

  /** Packing what the title slide leaves and filling the slides keeps every paragraph. */
  lemma DocxSlidesKeepText(paragraphs: seq<string>, gs: seq<seq<string>>)
    requires paragraphs != [] && Concat(gs) == DocxTitleSlide(paragraphs).1
    ensures KeepsText(DocxSlides(paragraphs, gs), paragraphs)
  {
    var deck := DocxSlides(paragraphs, gs);
    var slides := deck[1..|gs| + 1];
    forall k | 0 <= k < |gs| ensures KeepsText([slides[k]], gs[k]) {
      DocxContentSlideKeepsText(gs[k]);
    }
    SlidesKeepGroups(gs, slides);
    forall x | x in paragraphs ensures exists k :: 0 <= k < |deck| && (deck[k].title == x || Contains(deck[k].body, x)) {
      if x in Concat(gs) {
        var k :| 0 <= k < |slides| && (slides[k].title == x || Contains(slides[k].body, x));
        assert deck[k + 1] == slides[k];
      } else {
        assert x == paragraphs[0] && deck[0].title == x;
      }
    }
  }

  /**
   * `convert_docx_to_pptx` on the document's paragraphs: the title slide,
   * then the stripped non-blank paragraphs after it packed greedily into
   * slides of about 800 characters, with a placeholder slide if none was
   * made; a document without text gets a placeholder deck.
   */
  method DocxDeck(docParagraphs: seq<string>) returns (deck: seq<Slide>)
    ensures |deck| >= 2
    ensures NonBlank(docParagraphs) == [] ==> deck == EmptyDocxDeck
    ensures NonBlank(docParagraphs) != [] ==>
      exists gs :: GreedyPacking(DocxTitleSlide(NonBlank(docParagraphs)).1, gs, DocxSlideLimit, 1, 0)
        && deck == DocxSlides(NonBlank(docParagraphs), gs)
    ensures NonBlank(docParagraphs) != [] ==> KeepsText(deck, NonBlank(docParagraphs))
  {
    var paragraphs := NonBlank(docParagraphs);
    if paragraphs == [] {
      return EmptyDocxDeck;
    }
    var gs := Pack(DocxTitleSlide(paragraphs).1, DocxSlideLimit, 1, 0);
    deck := DocxSlides(paragraphs, gs);
    DocxSlidesKeepText(paragraphs, gs);
  }

  // ---------------------------------------------------------------------------
  // TXT to PPTX

  const TxtSlideLimit: nat := 800
  const TxtTitleLimit: nat := 50

  /** The first index at which `c` follows `c`. */
  function IndexOfPair(s: string, c: char): (r: Option<nat>)
    ensures r.Some? ==> r.value + 1 < |s| && s[r.value] == c && s[r.value + 1] == c
    ensures r.Some? ==> forall j :: 0 <= j < r.value ==> !(s[j] == c && s[j + 1] == c)
    ensures r.None? ==> forall j :: 0 <= j < |s| - 1 ==> !(s[j] == c && s[j + 1] == c)
  {
    if |s| < 2 then None
    else if s[0] == c && s[1] == c then Some(0)
    else match IndexOfPair(s[1..], c)
      case None => None
      case Some(i) => Some(i + 1)
  }

  /** `s.split(c + c)`: cut at each leftmost pair, dropping the pair. */
  function SplitOnPair(s: string, c: char): (r: seq<string>)
    ensures |r| >= 1
    ensures Join([c, c], r) == s
    decreases |s|
  {
    match IndexOfPair(s, c)
    case None => [s]
    case Some(i) =>
      var rest := SplitOnPair(s[i + 2..], c);
      assert s == s[..i] + [c, c] + s[i + 2..];
      assert ([s[..i]] + rest)[1..] == rest;
      [s[..i]] + rest
  }

  /** The paragraphs of a text file: its blocks between blank lines, or failing that its lines, stripped and not blank. */
  function TxtParagraphs(content: string): (r: seq<string>)
    ensures forall k :: 0 <= k < |r| ==> r[k] != [] && IsStripped(r[k])
  {
    var ps := NonBlank(SplitOnPair(content, '\n'));
    if ps != [] then ps else NonBlank(SplitOn(content, '\n'))
  }

  /**
   * The paragraphs are the file's blocks between blank lines, stripped, when
   * some block is not blank; otherwise its lines, stripped. Blank ones are
   * dropped.
   */
  lemma {:induction false} TxtParagraphsMember(content: string, x: string)
    ensures x in TxtParagraphs(content) <==>
      x != [] &&
      if exists k :: 0 <= k < |SplitOnPair(content, '\n')| && Strip(SplitOnPair(content, '\n')[k]) != []
      then exists k :: 0 <= k < |SplitOnPair(content, '\n')| && Strip(SplitOnPair(content, '\n')[k]) == x
      else exists k :: 0 <= k < |SplitOn(content, '\n')| && Strip(SplitOn(content, '\n')[k]) == x
  {
    var blocks := SplitOnPair(content, '\n');
    if NonBlank(blocks) != [] {
      var y := NonBlank(blocks)[0];
      NonBlankMember(blocks, y);
      var k :| 0 <= k < |blocks| && Strip(blocks[k]) == y;
      assert Strip(blocks[k]) != [];
      assert exists j :: 0 <= j < |SplitOnPair(content, '\n')| && Strip(SplitOnPair(content, '\n')[j]) != [];
      TxtParagraphsOfBlocks(content, x);
    } else {
      forall k | 0 <= k < |blocks|
        ensures Strip(blocks[k]) == []
      {
        NonBlankMember(blocks, Strip(blocks[k]));
      }
      TxtParagraphsOfLines(content, x);
    }
  }

  /** When some block between blank lines is not blank, the paragraphs are the non-blank blocks. */
  lemma {:induction false} TxtParagraphsOfBlocks(content: string, x: string)
    requires exists k :: 0 <= k < |SplitOnPair(content, '\n')| && Strip(SplitOnPair(content, '\n')[k]) != []
    ensures x in TxtParagraphs(content) <==>
      x != [] && exists k :: 0 <= k < |SplitOnPair(content, '\n')| && Strip(SplitOnPair(content, '\n')[k]) == x
  {
    var blocks := SplitOnPair(content, '\n');
    var k :| 0 <= k < |blocks| && Strip(blocks[k]) != [];
    NonBlankMember(blocks, Strip(blocks[k]));
    assert TxtParagraphs(content) == NonBlank(blocks);
    NonBlankMember(blocks, x);
    assert x in TxtParagraphs(content) <==> x in NonBlank(blocks);
  }

  /** When no block survives the filter, the paragraphs are the non-blank lines. */
  lemma {:induction false} TxtParagraphsOfLines(content: string, x: string)
    requires NonBlank(SplitOnPair(content, '\n')) == []
    ensures x in TxtParagraphs(content) <==>
      x != [] && exists k :: 0 <= k < |SplitOn(content, '\n')| && Strip(SplitOn(content, '\n')[k]) == x
  {
    assert TxtParagraphs(content) == NonBlank(SplitOn(content, '\n'));
    NonBlankMember(SplitOn(content, '\n'), x);
    assert x in TxtParagraphs(content) <==> x in NonBlank(SplitOn(content, '\n'));
  }

  /** A string with a character that is not white space does not strip to nothing. */
  lemma StripNotBlank(s: string, i: nat)
    requires i < |s| && !IsSpace(s[i])
    ensures Strip(s) != []
  {
    var l := TrimLeft(s);
    TrimLeftSuffix(s);
    var d := |s| - |l|;
    assert i >= d;
    assert l[i - d] == s[i];
  }

  /** A string that strips to nothing is all white space. */
  lemma BlankIsSpace(s: string, i: nat)
    requires i < |s| && Strip(s) == []
    ensures IsSpace(s[i])
  {
    if !IsSpace(s[i]) {
      StripNotBlank(s, i);
    }
  }

  /** A character that is not white space lies in one of the pieces of a split on a blank line. */
  lemma {:induction false} SplitOnPairKeeps(s: string, i: nat)
    requires i < |s| && !IsSpace(s[i])
    ensures exists k, j :: 0 <= k < |SplitOnPair(s, '\n')| && 0 <= j < |SplitOnPair(s, '\n')[k]| && !IsSpace(SplitOnPair(s, '\n')[k][j])
    decreases |s|
  {
    var r := SplitOnPair(s, '\n');
    match IndexOfPair(s, '\n')
    case None =>
      assert r[0] == s;
    case Some(p) =>
      if i < p {
        assert r[0] == s[..p] && r[0][i] == s[i];
      } else {
        assert i != p && i != p + 1;
        var t := s[p + 2..];
        assert t[i - p - 2] == s[i];
        SplitOnPairKeeps(t, i - p - 2);
        var k, j :| 0 <= k < |SplitOnPair(t, '\n')| && 0 <= j < |SplitOnPair(t, '\n')[k]| && !IsSpace(SplitOnPair(t, '\n')[k][j]);
        assert r[k + 1] == SplitOnPair(t, '\n')[k];
      }
  }

  /** A list with an element that is not all white space keeps something after stripping and filtering. */
  lemma {:induction false} NonBlankKeeps(ps: seq<string>, k: nat, j: nat)
    requires k < |ps| && j < |ps[k]| && !IsSpace(ps[k][j])
    ensures NonBlank(ps) != []
  {
    if k == 0 {
      StripNotBlank(ps[0], j);
    } else if Strip(ps[0]) == [] {
      NonBlankKeeps(ps[1..], k - 1, j);
    }
  }

  /** A text file that is not blank has paragraphs. */
  lemma TxtHasParagraphs(content: string)
    requires Strip(content) != []
    ensures TxtParagraphs(content) != []
  {
    var i :| 0 <= i < |content| && !IsSpace(content[i]) by {
      if forall i :: 0 <= i < |content| ==> IsSpace(content[i]) {
        TrimLeftSuffix(content);
        assert false;
      }
    }
    SplitOnPairKeeps(content, i);
    var k, j :| 0 <= k < |SplitOnPair(content, '\n')| && 0 <= j < |SplitOnPair(content, '\n')[k]| && !IsSpace(SplitOnPair(content, '\n')[k][j]);
    NonBlankKeeps(SplitOnPair(content, '\n'), k, j);
  }

  /**
   * A content slide of a text file (`_create_txt_content_slide`): a first
   * paragraph under 50 characters without '=' or '-' becomes the title and
   * the rest the body (the title again, when nothing is left); otherwise the
   * title is "Content" and every paragraph goes in the body.
   */
  function TxtContentSlide(g: seq<string>): (s: Slide)
    ensures g != [] && |g[0]| < TxtTitleLimit && '=' !in g[0] && '-' !in g[0] ==> s.title == g[0]
    ensures g != [] && !(|g[0]| < TxtTitleLimit && '=' !in g[0] && '-' !in g[0]) ==> s.title == "Content"
  {
    var first := if g != [] then g[0] else "Content";
    var (title, rest) :=
      if |first| < TxtTitleLimit && '=' !in first && '-' !in first then (first, if |g| > 1 then g[1..] else [])
      else ("Content", g);
    Slide(title, if rest != [] then Join("\n\n", rest) else first)
  }

  lemma TxtContentSlideKeepsText(g: seq<string>)
    ensures KeepsText([TxtContentSlide(g)], g)
  {
    var s := TxtContentSlide(g);
    forall x | x in g ensures exists k :: 0 <= k < 1 && ([s][k].title == x || Contains([s][k].body, x)) {
      var i :| 0 <= i < |g| && g[i] == x;
      assert [s][0] == s;
      if |g[0]| < TxtTitleLimit && '=' !in g[0] && '-' !in g[0] {
        if i > 0 {
          assert s.body == Join("\n\n", g[1..]) && g[1..][i - 1] == x;
          JoinContains("\n\n", g[1..], i - 1);
        }
      } else {
        assert s.body == Join("\n\n", g);
        JoinContains("\n\n", g, i);
      }
    }
  }

  const TxtTitle: Slide := Slide("Text Document", "Converted from TXT file")

  /** The slide for a text file that produced no content slide: its first 1000 characters. */
  function TxtFallback(content: string): Slide {
    if |content| > 1000 then Slide("Content", content[..1000] + "...") else Slide("Content", content)
  }

  /** The slides for a text file, given the packing of its paragraphs. */
  function TxtSlides(content: string, gs: seq<seq<string>>): (deck: seq<Slide>)
    ensures |deck| >= 2 && deck[0] == TxtTitle
    ensures gs == [] ==> deck == [TxtTitle, TxtFallback(content)]
    ensures gs != [] ==> |deck| == |gs| + 1 && forall k :: 0 <= k < |gs| ==> deck[k + 1] == TxtContentSlide(gs[k])
  {
    var slides := seq(|gs|, k requires 0 <= k < |gs| => TxtContentSlide(gs[k]));
    var deck := [TxtTitle] + slides;
    if |deck| == 1 then deck + [TxtFallback(content)] else deck
  }

  /**
   * `convert_txt_to_pptx` on the file's content: nothing for a blank file
   * (the transcoder returns False), otherwise the title slide and the
   * paragraphs packed greedily into slides of about 800 characters, counting
   * two characters for each paragraph break. A file that is not blank always
   * has paragraphs, so the fallback slide is never used and every paragraph
   * reaches a slide.
   */
  method TxtDeck(content: string) returns (deck: Option<seq<Slide>>)
    ensures deck.None? <==> Strip(content) == []
    ensures deck.Some? ==>
      exists gs :: GreedyPacking(TxtParagraphs(content), gs, TxtSlideLimit, 2, 0) && gs != []
        && deck.value == TxtSlides(content, gs)
    ensures deck.Some? ==> KeepsText(deck.value, TxtParagraphs(content))
  {
    if Strip(content) == [] {
      return None;
    }
    var paragraphs := TxtParagraphs(content);
    var gs := Pack(paragraphs, TxtSlideLimit, 2, 0);
    TxtHasParagraphs(content);
    var slides := TxtSlides(content, gs);
    TxtSlidesKeepText(content, gs);
    deck := Some(slides);
  }

  lemma TxtSlidesKeepText(content: string, gs: seq<seq<string>>)
    requires gs != []
    ensures KeepsText(TxtSlides(content, gs), Concat(gs))
  {
    var deck := TxtSlides(content, gs);
    var slides := deck[1..];
    forall k | 0 <= k < |gs| ensures KeepsText([slides[k]], gs[k]) {
      TxtContentSlideKeepsText(gs[k]);
    }
    SlidesKeepGroups(gs, slides);
    forall x | x in Concat(gs) ensures exists k :: 0 <= k < |deck| && (deck[k].title == x || Contains(deck[k].body, x)) {
      var k :| 0 <= k < |slides| && (slides[k].title == x || Contains(slides[k].body, x));
      assert deck[k + 1] == slides[k];
    }
  }

  // ---------------------------------------------------------------------------
  // HTML to PPTX

  const HtmlSlideLimit: nat := 800
  const HtmlHeadingLimit: nat := 100

  /** An element of the page that has text, in document order: a heading (`h1` to `h6`) or a paragraph-like element. */
  datatype Section = Heading(text: string) | Paragraph(text: string)

  /** A heading short enough to open a slide of its own. */
  predicate OpensSlide(s: Section) {
    s.Heading? && |s.text| < HtmlHeadingLimit
  }

  const HtmlPlaceholder: Slide := Slide("Content", "[No content extracted from HTML]")

  /**
   * A content slide of an HTML page (`_create_html_content_slide`): the
   * title, and the texts with a blank line between them, or "[No content]"
   * when there are none. Every text is in the body.
   */
  function HtmlContentSlide(title: string, content: seq<string>): (s: Slide)
    ensures s.title == title
    ensures content == [] ==> s.body == "[No content]"
    ensures forall k :: 0 <= k < |content| ==> Contains(s.body, content[k])
  {
    JoinContainsAll("\n\n", content);
    Slide(title, if content != [] then Join("\n\n", content) else "[No content]")
  }

  lemma JoinContainsAll(sep: string, parts: seq<string>)
    ensures forall k :: 0 <= k < |parts| ==> Contains(Join(sep, parts), parts[k])
  {
    forall k | 0 <= k < |parts| ensures Contains(Join(sep, parts), parts[k]) {
      JoinContains(sep, parts, k);
    }
  }

  /** Some content slide of the deck (any slide after the first) holds `x` in its body. */
  ghost predicate InSomeBody(deck: seq<Slide>, x: string) {
    exists j :: 1 <= j < |deck| && Contains(deck[j].body, x)
  }

  /** A slide title the HTML packing may choose: "Content", or the text of one of the page's headings. */
  predicate HtmlTitle(t: string, sections: seq<Section>) {
    t == "Content" || exists k :: 0 <= k < |sections| && sections[k].Heading? && sections[k].text == t
  }

  /** `x` is in the slide being filled or in the body of a slide already closed. */
  ghost predicate Placed(x: string, content: seq<string>, slides: seq<Slide>) {
    x in content || InSomeBody(slides, x)
  }

  /** Closing a slide keeps every placed text placed, whatever the next slide starts with. */
  lemma {:induction false} CloseHtmlSlide(slides: seq<Slide>, title: string, content: seq<string>, next: seq<string>)
    requires |slides| >= 1
    ensures forall x :: Placed(x, content, slides) ==> Placed(x, next, slides + [HtmlContentSlide(title, content)])
  {
    var more := slides + [HtmlContentSlide(title, content)];
    forall x | Placed(x, content, slides) ensures InSomeBody(more, x) {
      if x in content {
        var i :| 0 <= i < |content| && content[i] == x;
        assert more[|slides|] == HtmlContentSlide(title, content);
        assert Contains(more[|slides|].body, x);
      } else {
        var j :| 1 <= j < |slides| && Contains(slides[j].body, x);
        assert more[j] == slides[j];
      }
    }
  }

  /** Adding a text to the slide being filled keeps every placed text placed, and places it. */
  lemma {:induction false} AddToHtmlSlide(slides: seq<Slide>, content: seq<string>, t: string)
    ensures forall x :: Placed(x, content, slides) ==> Placed(x, content + [t], slides)
    ensures Placed(t, content + [t], slides)
  {
    assert (content + [t])[|content|] == t;
    forall x | Placed(x, content, slides) ensures Placed(x, content + [t], slides) {
      if x in content {
        var i :| 0 <= i < |content| && content[i] == x;
        assert (content + [t])[i] == x;
      }
    }
  }

  /** A heading too long to open a slide: the packing treats its text as content. */
  predicate LongHeading(s: Section) {
    s.Heading? && !OpensSlide(s)
  }

  /** Some content slide of the deck (any slide after the first) is titled `x`. */
  ghost predicate TitlesSome(deck: seq<Slide>, x: string) {
    exists j :: 1 <= j < |deck| && deck[j].title == x
  }

  /**
   * A content slide within the 800-character rule: its body holds at most
   * 802 characters, or it is one text of the page on its own. The running
   * count adds two characters for each text it appends but none for the
   * first text of a slide opened by overflow, so two texts of 400 and 400
   * characters can share a slide and its 802-character body.
   */
  ghost predicate HtmlFits(s: Slide, sections: seq<Section>) {
    || |s.body| <= HtmlSlideLimit + 2
    || exists k :: 0 <= k < |sections| && !OpensSlide(sections[k]) && s.body == sections[k].text
  }

  /**
   * The running count of the slide being filled (`current_chars`): zero when
   * it holds nothing; otherwise its body's length, plus two unless the slide
   * was opened by a text that did not fit. A slide holding two or more texts
   * keeps to 802 characters, and a slide holding one holds a text of the page.
   */
  ghost predicate HtmlFilling(sections: seq<Section>, i: nat, content: seq<string>, count: int) {
    && (content == [] ==> count == 0)
    && (content != [] ==> count == |Join("\n\n", content)| || count == |Join("\n\n", content)| + 2)
    && (|content| >= 2 ==> |Join("\n\n", content)| <= HtmlSlideLimit + 2)
    && (|content| == 1 ==> exists k :: 0 <= k < i && k < |sections| && !OpensSlide(sections[k]) && sections[k].text == content[0])
  }

  /**
   * After the first `i` sections, a long heading that is the latest section
   * or is followed by a section that does not open a slide is placed, titles
   * a closed slide, or titles the slide being filled, which holds something
   * unless the heading is the latest section.
   */
  ghost predicate LongHeadingsKept(sections: seq<Section>, i: nat, slides: seq<Slide>, slideTitle: string, content: seq<string>) {
    && i <= |sections|
    && forall k :: 0 <= k < i && LongHeading(sections[k]) && (k + 1 < i ==> !OpensSlide(sections[k + 1])) ==>
      || Placed(sections[k].text, content, slides)
      || TitlesSome(slides, sections[k].text)
      || (slideTitle == sections[k].text && (content != [] || k == i - 1))
  }

  /** Appending a text to a non-empty list adds the separator and the text to the joined length. */
  lemma JoinSnocLength(sep: string, parts: seq<string>, t: string)
    requires parts != []
    ensures |Join(sep, parts + [t])| == |Join(sep, parts)| + |sep| + |t|
  {
    JoinLength(sep, parts);
    JoinLength(sep, parts + [t]);
    SumLenAppend(parts, t);
  }

  /** Closing a non-empty slide that keeps to the count gives a slide within the rule. */
  lemma CloseFits(sections: seq<Section>, i: nat, title: string, content: seq<string>, count: int)
    requires content != [] && HtmlFilling(sections, i, content, count)
    ensures HtmlFits(HtmlContentSlide(title, content), sections)
  {
    if |content| == 1 {
      var k :| 0 <= k < i && k < |sections| && !OpensSlide(sections[k]) && sections[k].text == content[0];
      assert HtmlContentSlide(title, content).body == sections[k].text;
    }
  }

  /** Appending a text the count allows (or to an empty slide) keeps the count. */
  lemma AppendFilling(sections: seq<Section>, i: nat, content: seq<string>, count: int)
    requires i < |sections| && !OpensSlide(sections[i]) && HtmlFilling(sections, i, content, count)
    requires content == [] || count + |sections[i].text| <= HtmlSlideLimit
    ensures HtmlFilling(sections, i + 1, content + [sections[i].text], count + |sections[i].text| + 2)
  {
    var t := sections[i].text;
    if content == [] {
      assert [] + [t] == [t];
    } else {
      JoinSnocLength("\n\n", content, t);
    }
  }

  /**
   * Closing the slide being filled keeps the long headings: what was placed
   * or titled stays so, and the closed slide carries its title.
   */
  lemma {:induction false} CloseKeepsHeadings(sections: seq<Section>, i: nat, slides: seq<Slide>, slideTitle: string, content: seq<string>, next: seq<string>)
    requires |slides| >= 1 && content != [] && i <= |sections|
    requires LongHeadingsKept(sections, i, slides, slideTitle, content)
    ensures forall k :: 0 <= k < i && LongHeading(sections[k]) && (k + 1 < i ==> !OpensSlide(sections[k + 1])) ==>
      Placed(sections[k].text, next, slides + [HtmlContentSlide(slideTitle, content)])
      || TitlesSome(slides + [HtmlContentSlide(slideTitle, content)], sections[k].text)
  {
    var more := slides + [HtmlContentSlide(slideTitle, content)];
    CloseHtmlSlide(slides, slideTitle, content, next);
    forall k | 0 <= k < i && LongHeading(sections[k]) && (k + 1 < i ==> !OpensSlide(sections[k + 1]))
      ensures Placed(sections[k].text, next, more) || TitlesSome(more, sections[k].text)
    {
      var x := sections[k].text;
      if TitlesSome(slides, x) {
        var j :| 1 <= j < |slides| && slides[j].title == x;
        assert more[j] == slides[j];
      } else if !Placed(x, content, slides) {
        assert slideTitle == x;
        assert more[|slides|].title == x;
      }
    }
  }

  /**
   * What holds after the first `i` sections have been packed: the title
   * slide comes first; every title is a heading or "Content"; every
   * paragraph so far is placed; and nothing is open or closed exactly when
   * every section so far was a heading that opens a slide.
   */
  ghost predicate HtmlPacking(title: string, sections: seq<Section>, i: nat, slides: seq<Slide>, slideTitle: string, content: seq<string>) {
    && i <= |sections|
    && |slides| >= 1 && slides[0] == Slide(title, "Converted from HTML")
    && HtmlTitle(slideTitle, sections)
    && (forall j :: 1 <= j < |slides| ==> HtmlTitle(slides[j].title, sections))
    && (forall k :: 0 <= k < i && sections[k].Paragraph? ==> Placed(sections[k].text, content, slides))
    && ((|slides| == 1 && content == []) <==> forall k :: 0 <= k < i ==> OpensSlide(sections[k]))
    && (forall j :: 1 <= j < |slides| ==> HtmlFits(slides[j], sections))
  }

  /** A closed slide with a heading's or "Content" title, within the rule, keeps the deck's titles and fit. */
  lemma SlidesSnoc(sections: seq<Section>, slides: seq<Slide>, last: Slide)
    requires forall j :: 1 <= j < |slides| ==> HtmlTitle(slides[j].title, sections) && HtmlFits(slides[j], sections)
    requires HtmlTitle(last.title, sections) && HtmlFits(last, sections)
    ensures forall j :: 1 <= j < |slides + [last]| ==>
      HtmlTitle((slides + [last])[j].title, sections) && HtmlFits((slides + [last])[j], sections)
  {
    forall j | 1 <= j < |slides + [last]|
      ensures HtmlTitle((slides + [last])[j].title, sections) && HtmlFits((slides + [last])[j], sections)
    {
      if j < |slides| {
        assert (slides + [last])[j] == slides[j];
      }
    }
  }

  /** A heading that opens a slide while the one being filled holds nothing. */
  lemma PackOpenEmpty(title: string, sections: seq<Section>, i: nat, slides: seq<Slide>, slideTitle: string)
    requires i < |sections| && OpensSlide(sections[i]) && HtmlPacking(title, sections, i, slides, slideTitle, [])
    ensures HtmlPacking(title, sections, i + 1, slides, sections[i].text, [])
  {
    assert HtmlTitle(sections[i].text, sections) by {
      assert sections[i].Heading?;
    }
  }

  /** A heading that opens a slide closes the one being filled, which holds something. */
  lemma PackOpenClose(title: string, sections: seq<Section>, i: nat, slides: seq<Slide>, slideTitle: string, content: seq<string>, count: int)
    requires i < |sections| && OpensSlide(sections[i]) && content != []
    requires HtmlPacking(title, sections, i, slides, slideTitle, content) && HtmlFilling(sections, i, content, count)
    ensures HtmlPacking(title, sections, i + 1, slides + [HtmlContentSlide(slideTitle, content)], sections[i].text, [])
  {
    var more := slides + [HtmlContentSlide(slideTitle, content)];
    CloseHtmlSlide(slides, slideTitle, content, []);
    CloseFits(sections, i, slideTitle, content, count);
    SlidesSnoc(sections, slides, HtmlContentSlide(slideTitle, content));
    assert more[0] == slides[0];
    assert HtmlTitle(sections[i].text, sections) by {
      assert sections[i].Heading?;
    }
    forall k | 0 <= k < i + 1 && sections[k].Paragraph? ensures Placed(sections[k].text, [], more) {
      assert k < i;
    }
    var k0 :| 0 <= k0 < i && !OpensSlide(sections[k0]);
    assert !(forall k :: 0 <= k < i + 1 ==> OpensSlide(sections[k]));
  }

  /** A text that does not fit closes the slide being filled and opens the next. */
  lemma PackOverflow(title: string, sections: seq<Section>, i: nat, slides: seq<Slide>, slideTitle: string, content: seq<string>, count: int)
    requires i < |sections| && !OpensSlide(sections[i]) && content != []
    requires HtmlPacking(title, sections, i, slides, slideTitle, content) && HtmlFilling(sections, i, content, count)
    ensures var s := sections[i];
      HtmlPacking(title, sections, i + 1, slides + [HtmlContentSlide(slideTitle, content)],
        if s.Heading? then s.text else "Content", if s.Heading? then [] else [s.text])
  {
    var s := sections[i];
    CloseHtmlSlide(slides, slideTitle, content, if s.Heading? then [] else [s.text]);
    CloseFits(sections, i, slideTitle, content, count);
    SlidesSnoc(sections, slides, HtmlContentSlide(slideTitle, content));
    if !s.Heading? {
      assert s.text in [s.text];
    }
  }

  /** A text that fits joins the slide being filled. */
  lemma PackAppend(title: string, sections: seq<Section>, i: nat, slides: seq<Slide>, slideTitle: string, content: seq<string>)
    requires i < |sections| && !OpensSlide(sections[i]) && HtmlPacking(title, sections, i, slides, slideTitle, content)
    ensures HtmlPacking(title, sections, i + 1, slides, slideTitle, content + [sections[i].text])
  {
    AddToHtmlSlide(slides, content, sections[i].text);
  }

  /** The long headings after a heading that opens a slide. */
  lemma HeadingsOpen(sections: seq<Section>, i: nat, slides: seq<Slide>, slideTitle: string, content: seq<string>)
    requires i < |sections| && OpensSlide(sections[i]) && |slides| >= 1
    requires LongHeadingsKept(sections, i, slides, slideTitle, content)
    ensures var slides' := if content != [] then slides + [HtmlContentSlide(slideTitle, content)] else slides;
      LongHeadingsKept(sections, i + 1, slides', sections[i].text, [])
  {
    if content != [] {
      CloseKeepsHeadings(sections, i, slides, slideTitle, content, []);
    }
  }

  /** The long headings after a text that does not fit. */
  lemma HeadingsOverflow(sections: seq<Section>, i: nat, slides: seq<Slide>, slideTitle: string, content: seq<string>)
    requires i < |sections| && !OpensSlide(sections[i]) && content != [] && |slides| >= 1
    requires LongHeadingsKept(sections, i, slides, slideTitle, content)
    ensures var s := sections[i];
      LongHeadingsKept(sections, i + 1, slides + [HtmlContentSlide(slideTitle, content)],
        if s.Heading? then s.text else "Content", if s.Heading? then [] else [s.text])
  {
    var s := sections[i];
    CloseKeepsHeadings(sections, i, slides, slideTitle, content, if s.Heading? then [] else [s.text]);
  }

  /** The long headings after a text that joins the slide being filled. */
  lemma HeadingsAppend(sections: seq<Section>, i: nat, slides: seq<Slide>, slideTitle: string, content: seq<string>)
    requires i < |sections| && !OpensSlide(sections[i])
    requires LongHeadingsKept(sections, i, slides, slideTitle, content)
    ensures LongHeadingsKept(sections, i + 1, slides, slideTitle, content + [sections[i].text])
  {
    AddToHtmlSlide(slides, content, sections[i].text);
  }

  /**
   * A title a content slide can carry: "Content", a heading of 100
   * characters or more, or a shorter heading followed by a section that
   * does not open a slide. A short heading followed by another one, or last
   * on the page, opens a slide that is never closed, so it titles nothing.
   */
  ghost predicate ShownTitle(x: string, sections: seq<Section>) {
    || x == "Content"
    || exists k :: 0 <= k < |sections| && sections[k].Heading? && sections[k].text == x &&
         (OpensSlide(sections[k]) ==> k + 1 < |sections| && !OpensSlide(sections[k + 1]))
  }

  /**
   * The titles through section `i`: every closed slide's title can be shown;
   * so can the open slide's once it holds a text, and until then it is
   * "Content" or the heading just passed.
   */
  ghost predicate TitlesShown(sections: seq<Section>, i: nat, slides: seq<Slide>, slideTitle: string, content: seq<string>) {
    && i <= |sections|
    && (forall j :: 1 <= j < |slides| ==> ShownTitle(slides[j].title, sections))
    && (content != [] ==> ShownTitle(slideTitle, sections))
    && (content == [] ==> slideTitle == "Content" || (0 < i && sections[i - 1].Heading? && sections[i - 1].text == slideTitle))
  }

  /** Closing a slide whose title can be shown keeps every title shown. */
  lemma TitlesSnoc(sections: seq<Section>, slides: seq<Slide>, last: Slide)
    requires forall j :: 1 <= j < |slides| ==> ShownTitle(slides[j].title, sections)
    requires ShownTitle(last.title, sections)
    ensures forall j :: 1 <= j < |slides + [last]| ==> ShownTitle((slides + [last])[j].title, sections)
  {
    forall j | 1 <= j < |slides + [last]| ensures ShownTitle((slides + [last])[j].title, sections) {
      if j < |slides| {
        assert (slides + [last])[j] == slides[j];
      }
    }
  }

  /** The titles after a heading that opens a slide. */
  lemma TitlesOpen(sections: seq<Section>, i: nat, slides: seq<Slide>, slideTitle: string, content: seq<string>)
    requires i < |sections| && OpensSlide(sections[i]) && TitlesShown(sections, i, slides, slideTitle, content)
    ensures var slides' := if content != [] then slides + [HtmlContentSlide(slideTitle, content)] else slides;
      TitlesShown(sections, i + 1, slides', sections[i].text, [])
  {
    if content != [] {
      TitlesSnoc(sections, slides, HtmlContentSlide(slideTitle, content));
    }
  }

  /** The titles after a text that does not fit. */
  lemma TitlesOverflow(sections: seq<Section>, i: nat, slides: seq<Slide>, slideTitle: string, content: seq<string>)
    requires i < |sections| && !OpensSlide(sections[i]) && content != []
    requires TitlesShown(sections, i, slides, slideTitle, content)
    ensures var s := sections[i];
      TitlesShown(sections, i + 1, slides + [HtmlContentSlide(slideTitle, content)],
        if s.Heading? then s.text else "Content", if s.Heading? then [] else [s.text])
  {
    TitlesSnoc(sections, slides, HtmlContentSlide(slideTitle, content));
  }

  /** The titles after a text that fits: the open slide's title now shows. */
  lemma TitlesAppend(sections: seq<Section>, i: nat, slides: seq<Slide>, slideTitle: string, content: seq<string>)
    requires i < |sections| && !OpensSlide(sections[i]) && TitlesShown(sections, i, slides, slideTitle, content)
    ensures TitlesShown(sections, i + 1, slides, slideTitle, content + [sections[i].text])
  {
    if content == [] && slideTitle != "Content" {
      var k := i - 1;
      assert sections[k].Heading? && sections[k].text == slideTitle;
      assert OpensSlide(sections[k]) ==> k + 1 < |sections| && !OpensSlide(sections[k + 1]);
    }
  }

  /** One pass of the packing loop of `convert_html_to_pptx`, on section `i`. */
  method HtmlPackStep(title: string, sections: seq<Section>, i: nat, slides: seq<Slide>, slideTitle: string, content: seq<string>, count: int)
    returns (slides': seq<Slide>, slideTitle': string, content': seq<string>, count': int)
    requires i < |sections| && HtmlPacking(title, sections, i, slides, slideTitle, content)
    requires HtmlFilling(sections, i, content, count)
    requires LongHeadingsKept(sections, i, slides, slideTitle, content)
    requires TitlesShown(sections, i, slides, slideTitle, content)
    ensures HtmlPacking(title, sections, i + 1, slides', slideTitle', content')
    ensures HtmlFilling(sections, i + 1, content', count')
    ensures LongHeadingsKept(sections, i + 1, slides', slideTitle', content')
    ensures TitlesShown(sections, i + 1, slides', slideTitle', content')
    ensures slides' == slides || slides' == slides + [HtmlContentSlide(slideTitle, content)]
  {
    var s := sections[i];
    slides', slideTitle', content', count' := slides, slideTitle, content, count;
    if OpensSlide(s) {
      HeadingsOpen(sections, i, slides, slideTitle, content);
      TitlesOpen(sections, i, slides, slideTitle, content);
      if content != [] {
        PackOpenClose(title, sections, i, slides, slideTitle, content, count);
        slides' := slides + [HtmlContentSlide(slideTitle, content)];
      } else {
        PackOpenEmpty(title, sections, i, slides, slideTitle);
      }
      slideTitle' := s.text;
      content' := [];
      count' := 0;
    } else if count + |s.text| > HtmlSlideLimit && content != [] {
      PackOverflow(title, sections, i, slides, slideTitle, content, count);
      HeadingsOverflow(sections, i, slides, slideTitle, content);
      TitlesOverflow(sections, i, slides, slideTitle, content);
      slides' := slides + [HtmlContentSlide(slideTitle, content)];
      if s.Heading? {
        slideTitle' := s.text;
        content' := [];
        count' := 0;
      } else {
        slideTitle' := "Content";
        content' := [s.text];
        count' := |s.text|;
      }
    } else {
      PackAppend(title, sections, i, slides, slideTitle, content);
      HeadingsAppend(sections, i, slides, slideTitle, content);
      TitlesAppend(sections, i, slides, slideTitle, content);
      AppendFilling(sections, i, content, count);
      content' := content + [s.text];
      count' := count + |s.text| + 2;
    }
  }

  /**
   * `convert_html_to_pptx` on the page's title and its sections: no deck
   * when there are none (the transcoder returns False); otherwise the title
   * slide, then the sections packed into slides. A heading under 100
   * characters closes the slide being filled and titles the next one; any
   * other text joins the current slide unless the running count (each text's
   * length plus two) would pass 800 and the slide holds something, in which
   * case the slide is closed and a new one opened, titled "Content" and
   * holding the text, or, for a long heading, titled with that heading and
   * empty. A slide is closed only when it holds something; a deck with no
   * content slide gets a placeholder.
   */
  method HtmlDeck(title: string, sections: seq<Section>) returns (deck: Option<seq<Slide>>)
    ensures deck.None? <==> sections == []
    ensures deck.Some? ==> |deck.value| >= 2 && deck.value[0] == Slide(title, "Converted from HTML")
    ensures deck.Some? && (forall k :: 0 <= k < |sections| ==> OpensSlide(sections[k])) ==>
      deck.value == [deck.value[0], HtmlPlaceholder]
    ensures deck.Some? && (exists k :: 0 <= k < |sections| && !OpensSlide(sections[k])) ==>
      forall j :: 1 <= j < |deck.value| ==> HtmlTitle(deck.value[j].title, sections)
    ensures deck.Some? ==> forall k :: 0 <= k < |sections| && sections[k].Paragraph? ==> InSomeBody(deck.value, sections[k].text)
    ensures deck.Some? ==> forall j :: 1 <= j < |deck.value| ==> HtmlFits(deck.value[j], sections)
    ensures deck.Some? ==> forall k :: 0 <= k < |sections| - 1 && LongHeading(sections[k]) && !OpensSlide(sections[k + 1]) ==>
      InSomeBody(deck.value, sections[k].text) || TitlesSome(deck.value, sections[k].text)
    ensures deck.Some? ==> forall j :: 1 <= j < |deck.value| ==> ShownTitle(deck.value[j].title, sections)
  {
    if sections == [] {
      return None;
    }
    var slides := [Slide(title, "Converted from HTML")];
    var slideTitle := "Content";
    var content: seq<string> := [];
    var count := 0;
    for i := 0 to |sections|
      invariant HtmlPacking(title, sections, i, slides, slideTitle, content)
      invariant HtmlFilling(sections, i, content, count)
      invariant LongHeadingsKept(sections, i, slides, slideTitle, content)
      invariant TitlesShown(sections, i, slides, slideTitle, content)
    {
      slides, slideTitle, content, count := HtmlPackStep(title, sections, i, slides, slideTitle, content, count);
    }
    if content != [] {
      CloseHtmlSlide(slides, slideTitle, content, []);
      CloseFits(sections, |sections|, slideTitle, content, count);
      CloseKeepsHeadings(sections, |sections|, slides, slideTitle, content, []);
      TitlesSnoc(sections, slides, HtmlContentSlide(slideTitle, content));
      slides := slides + [HtmlContentSlide(slideTitle, content)];
    }
    if |slides| == 1 {
      TitlesSnoc(sections, slides, HtmlPlaceholder);
      slides := slides + [HtmlPlaceholder];
    }
    deck := Some(slides);
  }

  // ---------------------------------------------------------------------------
  // HTML to TXT: clean-up of the extracted text

  /** The number of '\n' at the start of `s`. */
  function NewlineRun(s: string): (n: nat)
    ensures n <= |s| && (forall i :: 0 <= i < n ==> s[i] == '\n') && (n < |s| ==> s[n] != '\n')
  {
    if s != [] && s[0] == '\n' then 1 + NewlineRun(s[1..]) else 0
  }

  predicate NoTripleNewline(s: string) {
    forall i :: 0 <= i < |s| - 2 ==> !(s[i] == '\n' && s[i + 1] == '\n' && s[i + 2] == '\n')
  }

  /**
   * `re.sub(r'\n{3,}', '\n\n', s)`: every maximal run of three or more
   * newlines becomes two; shorter runs are left alone.
   */
  function CollapseNewlines(s: string): (r: string)
    ensures NoTripleNewline(r)
    ensures (r == []) == (s == []) && (r != [] ==> r[0] == s[0])
    decreases |s|
  {
    if s == [] then []
    else if s[0] == '\n' then
      var n := NewlineRun(s);
      var run := if n >= 3 then "\n\n" else s[..n];
      var rest := CollapseNewlines(s[n..]);
      assert forall i :: 0 <= i < |run| ==> run[i] == '\n';
      assert forall i :: |run| <= i < |run + rest| ==> (run + rest)[i] == rest[i - |run|];
      run + rest
    else
      var rest := CollapseNewlines(s[1..]);
      assert forall i :: 1 <= i < |[s[0]] + rest| ==> ([s[0]] + rest)[i] == rest[i - 1];
      [s[0]] + rest
  }

  /** Text without three newlines in a row is left unchanged by the collapse. */
  lemma {:induction false} CollapseKeepsShortRuns(s: string)
    requires NoTripleNewline(s)
    ensures CollapseNewlines(s) == s
    decreases |s|
  {
    if s != [] {
      if s[0] == '\n' {
        var n := NewlineRun(s);
        if |s| > 2 {
          assert !(s[0] == '\n' && s[1] == '\n' && s[2] == '\n');
        }
        NoTripleSlice(s, n, |s|);
        CollapseKeepsShortRuns(s[n..]);
        assert s[..n] + s[n..] == s;
      } else {
        NoTripleSlice(s, 1, |s|);
        CollapseKeepsShortRuns(s[1..]);
        assert [s[0]] + s[1..] == s;
      }
    }
  }

  /** A slice of text without three newlines in a row has none either. */
  lemma {:induction false} NoTripleSlice(s: string, a: nat, b: nat)
    requires NoTripleNewline(s) && a <= b <= |s|
    ensures NoTripleNewline(s[a..b])
  {
    forall i | 0 <= i < |s[a..b]| - 2 ensures !(s[a..b][i] == '\n' && s[a..b][i + 1] == '\n' && s[a..b][i + 2] == '\n') {
      assert s[a..b][i] == s[a + i] && s[a..b][i + 1] == s[a + i + 1] && s[a..b][i + 2] == s[a + i + 2];
    }
  }

  lemma {:induction false} StripKeepsNoTriple(s: string)
    requires NoTripleNewline(s)
    ensures NoTripleNewline(Strip(s))
  {
    var left := TrimLeft(s);
    TrimLeftSuffix(s);
    NoTripleSlice(s, |s| - |left|, |s|);
    assert NoTripleNewline(left);
    var right := TrimRight(left);
    TrimRightPrefix(left);
    NoTripleSlice(left, 0, |right|);
    assert Strip(s) == right;
  }

  /** Each line stripped. */
  function StripLines(lines: seq<string>): (r: seq<string>)
    ensures |r| == |lines|
  {
    seq(|lines|, k requires 0 <= k < |lines| => Strip(lines[k]))
  }

  lemma {:induction false} StripLinesAt(ls: seq<string>, k: nat)
    requires k < |ls|
    ensures StripLines(ls)[k] == Strip(ls[k])
  {
  }
  /** The collapse leaves the words alone, whatever text comes before. */
  lemma {:induction false} CollapseKeepsWords(p: string, s: string)
    ensures Words(p + CollapseNewlines(s)) == Words(p + s)
    decreases |s|
  {
    if s != [] && s[0] == '\n' {
      var n := NewlineRun(s);
      CollapseKeepsWords([], s[n..]);
      assert [] + CollapseNewlines(s[n..]) == CollapseNewlines(s[n..]) && [] + s[n..] == s[n..];
      CollapseRunKeepsWords(p, s);
    } else if s != [] {
      CollapseCharStep(p, s);
      CollapseKeepsWords(p + [s[0]], s[1..]);
    }
  }

  /** The collapse passes a character that is not a newline through unchanged. */
  lemma {:induction false} CollapseCharStep(p: string, s: string)
    requires s != [] && s[0] != '\n'
    ensures p + CollapseNewlines(s) == (p + [s[0]]) + CollapseNewlines(s[1..])
    ensures p + s == (p + [s[0]]) + s[1..]
  {
    var rest := CollapseNewlines(s[1..]);
    assert CollapseNewlines(s) == [s[0]] + rest;
    assert s == [s[0]] + s[1..];
    SeqAssoc(p, [s[0]], rest);
    SeqAssoc(p, [s[0]], s[1..]);
  }

  lemma SeqAssoc(a: string, b: string, c: string)
    ensures a + (b + c) == (a + b) + c
  {
  }

  /** One step of the collapse: a run of newlines is white space whatever its new length. */
  lemma {:induction false} CollapseRunKeepsWords(p: string, s: string)
    requires s != [] && s[0] == '\n'
    requires Words(CollapseNewlines(s[NewlineRun(s)..])) == Words(s[NewlineRun(s)..])
    ensures Words(p + CollapseNewlines(s)) == Words(p + s)
  {
    var n := NewlineRun(s);
    var run := if n >= 3 then "\n\n" else s[..n];
    var rest := CollapseNewlines(s[n..]);
    assert CollapseNewlines(s) == run + rest;
    SpaceSeam(p, run, rest);
    SplitAt(s, n);
    SpaceSeam(p, s[..n], s[n..]);
  }

  lemma SplitAt(s: string, n: nat)
    requires n <= |s|
    ensures s[..n] + s[n..] == s
  {
  }

  /** White space between two texts holds no words and separates theirs. */
  lemma {:induction false} SpaceSeam(p: string, sp: string, t: string)
    requires sp != [] && forall i :: 0 <= i < |sp| ==> IsSpace(sp[i])
    ensures Words(p + (sp + t)) == Words(p) + Words(t)
  {
    WordsAppend(p, sp + t);
    SpaceThenWords(sp, t);
  }

  /** The words of each line, one line after another. */
  function LineWords(ls: seq<string>): seq<string> {
    if ls == [] then [] else Words(ls[0]) + LineWords(ls[1..])
  }

  /** A newline between two texts separates their words. */
  lemma NewlineSeam(a: string, b: string)
    ensures Words(a + ("\n" + b)) == Words(a) + Words(b)
  {
    WordsAppend(a, "\n" + b);
    SpaceThenWords("\n", b);
  }

  /** The words of lines joined by newlines are the words of each line in turn. */
  lemma {:induction false} WordsOfLines(ls: seq<string>)
    ensures Words(Join("\n", ls)) == LineWords(ls)
  {
    if |ls| == 1 {
      assert LineWords(ls) == Words(ls[0]) + LineWords([]);
    } else if |ls| > 1 {
      var rest := Join("\n", ls[1..]);
      WordsOfLines(ls[1..]);
      SeqAssoc(ls[0], "\n", rest);
      NewlineSeam(ls[0], rest);
    }
  }

  /** Stripping every line leaves each line's words alone. */
  lemma {:induction false} StripLinesKeepLineWords(ls: seq<string>)
    ensures LineWords(StripLines(ls)) == LineWords(ls)
  {
    forall k | 0 <= k < |ls|
      ensures Words(StripLines(ls)[k]) == Words(ls[k])
    {
      StripLinesAt(ls, k);
      WordsStrip(ls[k]);
    }
    LineWordsAgree(StripLines(ls), ls);
  }

  /** Lists whose lines have the same words, line by line, have the same words. */
  lemma {:induction false} LineWordsAgree(a: seq<string>, b: seq<string>)
    requires |a| == |b| && forall k :: 0 <= k < |a| ==> Words(a[k]) == Words(b[k])
    ensures LineWords(a) == LineWords(b)
  {
    if a != [] {
      forall k | 0 <= k < |a| - 1
        ensures Words(a[1..][k]) == Words(b[1..][k])
      {
        assert a[1..][k] == a[k + 1] && b[1..][k] == b[k + 1];
      }
      LineWordsAgree(a[1..], b[1..]);
    }
  }

  /** Stripping every line leaves the words of the joined text alone. */
  lemma StripLinesKeepWords(ls: seq<string>)
    ensures Words(Join("\n", StripLines(ls))) == Words(Join("\n", ls))
  {
    WordsOfLines(StripLines(ls));
    WordsOfLines(ls);
    StripLinesKeepLineWords(ls);
  }

  /** No white space but a newline touches a newline: `x` followed by `y`. */
  predicate CleanPair(x: char, y: char) {
    (x == '\n' ==> y == '\n' || !IsSpace(y)) && (y == '\n' ==> x == '\n' || !IsSpace(x))
  }

  /** Every line of `s` is stripped where it meets a newline. */
  predicate LinesClean(s: string) {
    forall i :: 0 < i < |s| ==> CleanPair(s[i - 1], s[i])
  }

  /** Each end of `s` is a newline or a character that is not white space. */
  predicate CleanEnds(s: string) {
    s == [] || ((s[0] == '\n' || !IsSpace(s[0])) && (s[|s| - 1] == '\n' || !IsSpace(s[|s| - 1])))
  }

  lemma LinesCleanAppend(a: string, b: string)
    requires LinesClean(a) && LinesClean(b)
    requires a == [] || b == [] || CleanPair(a[|a| - 1], b[0])
    ensures LinesClean(a + b)
  {
    var s := a + b;
    forall i | 0 < i < |s| ensures CleanPair(s[i - 1], s[i]) {
      if i < |a| {
        assert s[i - 1] == a[i - 1] && s[i] == a[i];
      } else if i > |a| {
        assert s[i - 1] == b[i - 1 - |a|] && s[i] == b[i - |a|];
      }
    }
  }

  lemma LinesCleanSlice(s: string, a: nat, b: nat)
    requires LinesClean(s) && a <= b <= |s|
    ensures LinesClean(s[a..b])
  {
    forall i | 0 < i < b - a ensures CleanPair(s[a..b][i - 1], s[a..b][i]) {
      assert s[a..b][i - 1] == s[a + i - 1] && s[a..b][i] == s[a + i];
    }
  }

  /** Stripping a line without `c` leaves none. */
  lemma StripKeepsOut(s: string, c: char)
    requires c !in s
    ensures c !in Strip(s)
  {
    var l := TrimLeft(s);
    var r := TrimRight(l);
    TrimLeftSuffix(s);
    TrimRightPrefix(l);
    assert forall i :: 0 <= i < |r| ==> r[i] == l[i] == s[|s| - |l| + i];
  }

  /** Stripped lines without newlines, joined by newlines, give clean lines and clean ends. */
  lemma {:induction false} JoinLinesClean(ls: seq<string>)
    requires forall k :: 0 <= k < |ls| ==> IsStripped(ls[k]) && '\n' !in ls[k]
    ensures LinesClean(Join("\n", ls)) && CleanEnds(Join("\n", ls))
  {
    if |ls| == 1 {
      assert forall i :: 0 <= i < |ls[0]| ==> ls[0][i] != '\n';
    } else if |ls| > 1 {
      var a := ls[0];
      var rest := Join("\n", ls[1..]);
      JoinLinesClean(ls[1..]);
      assert forall i :: 0 <= i < |a| ==> a[i] != '\n';
      LinesCleanAppend("\n", rest);
      LinesCleanAppend(a, "\n" + rest);
      assert Join("\n", ls) == a + ("\n" + rest);
    }
  }

  /** The collapse keeps every line clean. */
  lemma {:induction false} CollapseLinesClean(s: string)
    requires LinesClean(s)
    ensures LinesClean(CollapseNewlines(s))
    decreases |s|
  {
    if s != [] && s[0] == '\n' {
      var n := NewlineRun(s);
      var run := if n >= 3 then "\n\n" else s[..n];
      var rest := CollapseNewlines(s[n..]);
      LinesCleanSlice(s, n, |s|);
      CollapseLinesClean(s[n..]);
      assert forall i :: 0 <= i < |run| ==> run[i] == '\n';
      if rest != [] {
        assert rest[0] == s[n] && CleanPair(s[n - 1], s[n]);
      }
      LinesCleanAppend(run, rest);
    } else if s != [] {
      var rest := CollapseNewlines(s[1..]);
      LinesCleanSlice(s, 1, |s|);
      CollapseLinesClean(s[1..]);
      if rest != [] {
        assert rest[0] == s[1] && CleanPair(s[0], s[1]);
      }
      LinesCleanAppend([s[0]], rest);
    }
  }

  /** A text with clean lines and clean ends splits into stripped lines. */
  lemma {:induction false} CleanLinesStripped(s: string)
    requires LinesClean(s) && CleanEnds(s)
    ensures forall k :: 0 <= k < |SplitOn(s, '\n')| ==> IsStripped(SplitOn(s, '\n')[k])
    decreases |s|
  {
    match IndexOf(s, '\n') {
      case None =>
      case Some(i) =>
        FirstLineStripped(s, i);
        CleanLinesStripped(s[i + 1..]);
        assert SplitOn(s, '\n') == [s[..i]] + SplitOn(s[i + 1..], '\n');
    }
  }

  /** The line before the first newline is stripped, and what follows that newline is clean. */
  lemma FirstLineStripped(s: string, i: nat)
    requires LinesClean(s) && CleanEnds(s)
    requires i < |s| && s[i] == '\n' && '\n' !in s[..i]
    ensures IsStripped(s[..i]) && LinesClean(s[i + 1..]) && CleanEnds(s[i + 1..])
  {
    var t := s[i + 1..];
    LinesCleanSlice(s, i + 1, |s|);
    if t != [] {
      assert CleanPair(s[i], s[i + 1]) && t[0] == s[i + 1] && t[|t| - 1] == s[|s| - 1];
    }
    if i > 0 {
      assert s[..i][0] == s[0] && s[..i][i - 1] == s[i - 1];
      assert CleanPair(s[i - 1], s[i]);
    }
  }

  /** Stripping a text with clean lines leaves clean lines and clean ends. */
  lemma StripLinesClean(s: string)
    requires LinesClean(s)
    ensures LinesClean(Strip(s)) && CleanEnds(Strip(s))
  {
    var l := TrimLeft(s);
    TrimLeftSuffix(s);
    TrimRightPrefix(l);
    LinesCleanSlice(s, |s| - |l|, |s|);
    LinesCleanSlice(l, 0, |TrimRight(l)|);
    StripIsStripped(s);
  }

  /** The clean-up keeps the words of the text, in order. */
  lemma NormalizeKeepsWords(text: string)
    ensures var collapsed := CollapseNewlines(Join("\n", StripLines(SplitOn(text, '\n'))));
      Words(Strip(collapsed)) == Words(text)
  {
    var lines := SplitOn(text, '\n');
    var joined := Join("\n", StripLines(lines));
    JoinSplitOn(text, '\n');
    StripLinesKeepWords(lines);
    CollapseKeepsWords([], joined);
    assert [] + joined == joined && [] + CollapseNewlines(joined) == CollapseNewlines(joined);
    WordsStrip(CollapseNewlines(joined));
  }

  /** Stripped lines split from a text, joined again by newlines, are clean. */
  lemma StrippedLinesClean(text: string)
    ensures LinesClean(Join("\n", StripLines(SplitOn(text, '\n'))))
  {
    var lines := SplitOn(text, '\n');
    var stripped := StripLines(lines);
    forall k | 0 <= k < |stripped| ensures IsStripped(stripped[k]) && '\n' !in stripped[k] {
      StripIsStripped(lines[k]);
      StripKeepsOut(lines[k], '\n');
    }
    JoinLinesClean(stripped);
  }

  /** After the clean-up every line is stripped. */
  lemma NormalizeLinesStripped(text: string)
    ensures var r := Strip(CollapseNewlines(Join("\n", StripLines(SplitOn(text, '\n')))));
      forall k :: 0 <= k < |SplitOn(r, '\n')| ==> IsStripped(SplitOn(r, '\n')[k])
  {
    var joined := Join("\n", StripLines(SplitOn(text, '\n')));
    StrippedLinesClean(text);
    CollapseLinesClean(joined);
    StripLinesClean(CollapseNewlines(joined));
    CleanLinesStripped(Strip(CollapseNewlines(joined)));
  }

  /**
   * The clean-up `convert_html_to_txt` applies to the extracted text: strip
   * every line, collapse runs of three or more newlines to two, strip the
   * whole. The result neither starts nor ends with white space, never
   * holds three newlines in a row, has every line stripped, and keeps the
   * words of the text in order.
   */
  function NormalizeText(text: string): (r: string)
    ensures IsStripped(r) && NoTripleNewline(r)
    ensures Words(r) == Words(text)
    ensures forall k :: 0 <= k < |SplitOn(r, '\n')| ==> IsStripped(SplitOn(r, '\n')[k])
  {
    var collapsed := CollapseNewlines(Join("\n", StripLines(SplitOn(text, '\n'))));
    StripKeepsNoTriple(collapsed);
    StripIsStripped(collapsed);
    NormalizeKeepsWords(text);
    NormalizeLinesStripped(text);
    Strip(collapsed)
  }
}
