/** A normalized page cut into line-aligned blocks, and the blocks of a whole document with their offsets and their
    sections. */
module TextSpans {
  import opened Basics
  import opened PageText

  // The heading and sentence-end patterns are arbitrary tests.

  datatype Span = Span(start: nat, end: nat)

  const BLOCK_LIMIT := 1800

  // ---------------------------------------------------------------- offsets of lines

  /** Where line `i` starts when the lines are joined by line breaks. */
  function StartOf(lines: seq<string>, i: nat): nat
    requires i <= |lines|
  {
    if i == 0 then 0 else StartOf(lines, i - 1) + |lines[i - 1]| + 1
  }

  function EndOf(lines: seq<string>, i: nat): nat
    requires i < |lines|
  {
    StartOf(lines, i) + |lines[i]|
  }

  lemma {:induction false} JoinAppend(a: seq<string>, b: seq<string>)
    requires a != [] && b != []
    ensures Join(a + b) == Join(a) + "\n" + Join(b)
  {
    if |a| == 1 {
      assert (a + b)[1..] == b;
    } else {
      JoinAppend(a[1..], b);
      assert (a + b)[1..] == a[1..] + b;
    }
  }

  lemma {:induction false} PrefixLength(lines: seq<string>, i: nat)
    requires 1 <= i <= |lines|
    ensures |Join(lines[..i])| + 1 == StartOf(lines, i)
  {
    if i == 1 {
      assert lines[..1] == [lines[0]];
    } else {
      PrefixLength(lines, i - 1);
      assert lines[..i] == lines[..i - 1] + [lines[i - 1]];
      JoinAppend(lines[..i - 1], [lines[i - 1]]);
    }
  }

  lemma StartOfNext(lines: seq<string>, i: nat)
    requires i < |lines|
    ensures StartOf(lines, i + 1) == StartOf(lines, i) + |lines[i]| + 1 &&
      EndOf(lines, i) == StartOf(lines, i) + |lines[i]|
  {
  }

  /** What precedes line `a`, with the line break that ends it. */
  function TextBefore(lines: seq<string>, a: nat): string
    requires a <= |lines|
  {
    if a == 0 then "" else Join(lines[..a]) + "\n"
  }

  lemma JoinBefore(lines: seq<string>, a: nat, b: nat)
    requires a < b <= |lines|
    ensures Join(lines[..b]) == TextBefore(lines, a) + Join(lines[a..b])
    ensures |TextBefore(lines, a)| == StartOf(lines, a) && |Join(lines[..b])| == EndOf(lines, b - 1)
  {
    hide Join, StartOf;
    PrefixLength(lines, b);
    StartOfNext(lines, b - 1);
    if a > 0 {
      PrefixLength(lines, a);
      JoinAppend(lines[..a], lines[a..b]);
      assert lines[..b] == lines[..a] + lines[a..b];
    } else {
      assert lines[..b] == lines[a..b];
      assert StartOf(lines, 0) == 0 by { FirstStart(lines); }
    }
  }

  lemma FirstStart(lines: seq<string>)
    ensures StartOf(lines, 0) == 0
  {
  }

  lemma JoinStartsWith(lines: seq<string>, b: nat)
    requires 1 <= b <= |lines|
    ensures Join(lines[..b]) <= Join(lines)
  {
    if b < |lines| {
      JoinAppend(lines[..b], lines[b..]);
      assert lines == lines[..b] + lines[b..];
    } else {
      assert lines[..b] == lines;
    }
  }

  /** The text between two line boundaries is those lines joined. */
  lemma JoinSlice(lines: seq<string>, a: nat, b: nat)
    requires a < b <= |lines|
    ensures StartOf(lines, a) <= EndOf(lines, b - 1) <= |Join(lines)|
    ensures Join(lines)[StartOf(lines, a)..EndOf(lines, b - 1)] == Join(lines[a..b])
  {
    hide Join, StartOf, EndOf, TextBefore;
    JoinBefore(lines, a, b);
    JoinStartsWith(lines, b);
    var whole, upTo := Join(lines), Join(lines[..b]);
    assert upTo == whole[..|upTo|];
    assert whole[StartOf(lines, a)..EndOf(lines, b - 1)] == upTo[StartOf(lines, a)..];
  }

  // ---------------------------------------------------------------- blocks

  /** Consecutive cuts through the first `n` lines. */
  ghost predicate Cuts(cuts: seq<nat>, n: nat) {
    cuts != [] && cuts[0] == 0 && cuts[|cuts| - 1] == n && forall k :: 0 <= k < |cuts| - 1 ==> cuts[k] < cuts[k + 1]
  }

  /** A heading is a block of its own; without its last line a block is below the limit and meets no paragraph end
      inside. */
  ghost predicate GoodBlock(lines: seq<string>, a: nat, b: nat, heading: string -> bool,
                            paragraphEnd: (string, string) -> bool) {
    a < b <= |lines| && (forall i :: a <= i < b && heading(lines[i]) ==> b == a + 1) &&
    (forall i :: a <= i < b - 1 ==> EndOf(lines, i) - StartOf(lines, a) < 1800 && !paragraphEnd(lines[i], lines[i + 1]))
  }

  /** Between two lines that are not headings a block ends only at the limit or at a paragraph end. */
  ghost predicate CutForReason(lines: seq<string>, a: nat, b: nat, heading: string -> bool,
                               paragraphEnd: (string, string) -> bool) {
    a < b < |lines| && !heading(lines[b - 1]) && !heading(lines[b]) ==>
      EndOf(lines, b - 1) - StartOf(lines, a) >= 1800 || paragraphEnd(lines[b - 1], lines[b])
  }

  /** The span of lines `a..b` as one block. */
  ghost predicate BlockIs(lines: seq<string>, a: nat, b: nat, span: Span, heading: string -> bool,
                          paragraphEnd: (string, string) -> bool) {
    GoodBlock(lines, a, b, heading, paragraphEnd) && span == Span(StartOf(lines, a), EndOf(lines, b - 1)) &&
    CutForReason(lines, a, b, heading, paragraphEnd)
  }

  ghost predicate BlocksAt(lines: seq<string>, cuts: seq<nat>, spans: seq<Span>, heading: string -> bool,
                           paragraphEnd: (string, string) -> bool) {
    |spans| == |cuts| - 1 &&
    forall k {:trigger spans[k]} :: 0 <= k < |spans| ==>
      BlockIs(lines, cuts[k], cuts[k + 1], spans[k], heading, paragraphEnd)
  }

  lemma MoreBlocks(lines: seq<string>, cuts: seq<nat>, spans: seq<Span>, n: nat, m: nat, span: Span,
                   heading: string -> bool,
                   paragraphEnd: (string, string) -> bool)
    requires Cuts(cuts, n) && BlocksAt(lines, cuts, spans, heading, paragraphEnd) && n < m
    requires BlockIs(lines, n, m, span, heading, paragraphEnd)
    ensures Cuts(cuts + [m], m) && BlocksAt(lines, cuts + [m], spans + [span], heading, paragraphEnd)
  {
    hide BlockIs;
    var all, more := cuts + [m], spans + [span];
    forall k {:trigger more[k]} | 0 <= k < |more|
      ensures BlockIs(lines, all[k], all[k + 1], more[k], heading, paragraphEnd)
    {
      if k < |spans| {
        assert all[k] == cuts[k] && all[k + 1] == cuts[k + 1] && more[k] == spans[k];
      }
    }
  }

  /** The runs of characters other than line breaks. */
  function Runs(t: string): seq<string> {
    if t == "" then [] else Split(t)
  }

  lemma RunsOfNormalized(t: string)
    requires IsNormalized(t)
    ensures Join(Runs(t)) == t
    ensures forall i :: 0 <= i < |Runs(t)| ==> CleanLine(Runs(t)[i]) && Strip(Runs(t)[i]) == Runs(t)[i]
  {
    JoinSplit(t);
  }

  /** The loop's pending block: lines `first..i`, none a heading, not yet cut. */
  ghost predicate Pending(lines: seq<string>, first: nat, i: nat, heading: string -> bool,
                          paragraphEnd: (string, string) -> bool) {
    first < i <= |lines| && (forall k :: first <= k < i ==> !heading(lines[k])) &&
    (forall k :: first <= k < i ==>
      EndOf(lines, k) - StartOf(lines, first) < BLOCK_LIMIT &&
      (k + 1 < |lines| ==> !paragraphEnd(lines[k], lines[k + 1])))
  }

  lemma PendingIsBlock(lines: seq<string>, first: nat, i: nat, heading: string -> bool,
                       paragraphEnd: (string, string) -> bool)
    requires Pending(lines, first, i, heading, paragraphEnd) && (i < |lines| ==> heading(lines[i]))
    ensures BlockIs(lines, first, i, Span(StartOf(lines, first), EndOf(lines, i - 1)), heading, paragraphEnd)
  {
  }

  lemma HeadingIsBlock(lines: seq<string>, i: nat, heading: string -> bool, paragraphEnd: (string, string) -> bool)
    requires i < |lines| && heading(lines[i])
    ensures BlockIs(lines, i, i + 1, Span(StartOf(lines, i), EndOf(lines, i)), heading, paragraphEnd)
  {
  }

  /** Line `i` joins the pending block that starts at `first`, or starts one. */
  lemma GrownPending(lines: seq<string>, first: nat, i: nat, heading: string -> bool,
                     paragraphEnd: (string, string) -> bool)
    requires i < |lines| && !heading(lines[i]) && (first == i || Pending(lines, first, i, heading, paragraphEnd))
    requires EndOf(lines, i) - StartOf(lines, first) < BLOCK_LIMIT &&
      (i + 1 < |lines| ==> !paragraphEnd(lines[i], lines[i + 1]))
    ensures Pending(lines, first, i + 1, heading, paragraphEnd)
  {
  }

  lemma CutPending(lines: seq<string>, first: nat, i: nat, heading: string -> bool,
                   paragraphEnd: (string, string) -> bool)
    requires i < |lines| && !heading(lines[i]) && (first == i || Pending(lines, first, i, heading, paragraphEnd))
    requires EndOf(lines, i) - StartOf(lines, first) >= BLOCK_LIMIT ||
      (i + 1 < |lines| && paragraphEnd(lines[i], lines[i + 1])) ||
             i + 1 == |lines|
    ensures BlockIs(lines, first, i + 1, Span(StartOf(lines, first), EndOf(lines, i)), heading, paragraphEnd)
  {
  }

  /** `paragraphEnd` never holds before the end of the page: an empty next line starts no sentence. */
  ghost predicate StopsAtEnd(paragraphEnd: (string, string) -> bool) {
    forall line :: !paragraphEnd(line, "")
  }

  method TextBlockSpans(t: string, heading: string -> bool, paragraphEnd: (string, string) -> bool)
    returns (spans: seq<Span>, ghost cuts: seq<nat>)
    requires IsNormalized(t) && StopsAtEnd(paragraphEnd)
    ensures Cuts(cuts, |Runs(t)|) && BlocksAt(Runs(t), cuts, spans, heading, paragraphEnd)
    ensures Join(Texts(t, spans)) == t
    ensures forall k {:trigger spans[k]} :: 0 <= k < |spans| - 1 ==>
      spans[k].start <= spans[k].end && spans[k].end + 1 == spans[k + 1].start
  {
    hide BlocksAt, BlockIs, Pending, StartOf, IsNormalized, Runs, Strip, StopsAtEnd, Texts, Join;
    var lines := Runs(t);
    RunsOfNormalized(t);
    spans, cuts := [], [0];
    NoBlocks(lines, heading, paragraphEnd);
    var active: Option<Span> := None;
    ghost var first: nat := 0;
    var start := 0;
    for i := 0 to |lines|
      invariant start == StartOf(lines, i)
      invariant BlocksAt(lines, cuts, spans, heading, paragraphEnd)
      invariant active.None? ==> Cuts(cuts, i)
      invariant active.Some? ==> Cuts(cuts, first) && first < i && Pending(lines, first, i, heading, paragraphEnd)
      invariant active.Some? ==> active.value == Span(StartOf(lines, first), EndOf(lines, i - 1))
    {
      var value := Strip(lines[i]);
      assert value == lines[i] && value != "";
      var end := start + |lines[i]|;
      StartOfNext(lines, i);
      if heading(value) {
        if active.Some? {
          PendingIsBlock(lines, first, i, heading, paragraphEnd);
          MoreBlocks(lines, cuts, spans, first, i, active.value, heading, paragraphEnd);
          spans, cuts := spans + [active.value], cuts + [i];
        }
        HeadingIsBlock(lines, i, heading, paragraphEnd);
        MoreBlocks(lines, cuts, spans, i, i + 1, Span(start, end), heading, paragraphEnd);
        spans, cuts := spans + [Span(start, end)], cuts + [i + 1];
        active := None;
      } else {
        if active.None? {
          first := i;
        }
        var grown := Span(if active.Some? then active.value.start else start, end);
        var next := if i + 1 < |lines| then Strip(lines[i + 1]) else "";
        NoParagraphAtEnd(paragraphEnd, value);
        if grown.end - grown.start >= BLOCK_LIMIT || paragraphEnd(value, next) {
          CutPending(lines, first, i, heading, paragraphEnd);
          MoreBlocks(lines, cuts, spans, first, i + 1, grown, heading, paragraphEnd);
          spans, cuts := spans + [grown], cuts + [i + 1];
          active := None;
        } else {
          GrownPending(lines, first, i, heading, paragraphEnd);
          active := Some(grown);
        }
      }
      start := end + 1;
    }
    if active.Some? {
      PendingIsBlock(lines, first, |lines|, heading, paragraphEnd);
      MoreBlocks(lines, cuts, spans, first, |lines|, active.value, heading, paragraphEnd);
      spans, cuts := spans + [active.value], cuts + [|lines|];
    }
    BlocksRebuildPage(t, cuts, spans, heading, paragraphEnd);
    forall k {:trigger spans[k]} | 0 <= k < |spans| - 1
      ensures spans[k].start <= spans[k].end && spans[k].end + 1 == spans[k + 1].start
    {
      SpansAreAdjacent(t, cuts, spans, heading, paragraphEnd, k);
    }
  }

  lemma NoBlocks(lines: seq<string>, heading: string -> bool, paragraphEnd: (string, string) -> bool)
    ensures Cuts([0], 0) && BlocksAt(lines, [0], [], heading, paragraphEnd) && StartOf(lines, 0) == 0
  {
  }

  lemma NoParagraphAtEnd(paragraphEnd: (string, string) -> bool, line: string)
    requires StopsAtEnd(paragraphEnd)
    ensures !paragraphEnd(line, "")
  {
  }

  // ---------------------------------------------------------------- blocks rebuild the page

  function Slice(t: string, span: Span): string {
    if span.start <= span.end <= |t| then t[span.start..span.end] else ""
  }

  function Texts(t: string, spans: seq<Span>): (r: seq<string>)
    ensures |r| == |spans|
  {
    seq(|spans|, k requires 0 <= k < |spans| => Slice(t, spans[k]))
  }

  /** A block's text is its lines joined. */
  lemma BlockText(lines: seq<string>, a: nat, b: nat, span: Span, heading: string -> bool,
                  paragraphEnd: (string, string) -> bool)
    requires BlockIs(lines, a, b, span, heading, paragraphEnd)
    ensures a < b <= |lines| && span.start <= span.end <= |Join(lines)| && Slice(Join(lines), span) == Join(lines[a..b])
  {
    JoinSlice(lines, a, b);
  }

  lemma {:induction false} CutsJoin(lines: seq<string>, cuts: seq<nat>, spans: seq<Span>, heading: string -> bool,
                                    paragraphEnd: (string, string) -> bool, k: nat)
    requires BlocksAt(lines, cuts, spans, heading, paragraphEnd) && Cuts(cuts, |lines|) && 1 <= k <= |spans|
    ensures cuts[k] <= |lines| && Join(Texts(Join(lines), spans)[..k]) == Join(lines[..cuts[k]])
  {
    hide BlockIs, Join, Slice;
    var texts := Texts(Join(lines), spans);
    assert BlockIs(lines, cuts[k - 1], cuts[k], spans[k - 1], heading, paragraphEnd);
    BlockText(lines, cuts[k - 1], cuts[k], spans[k - 1], heading, paragraphEnd);
    var last := Join(lines[cuts[k - 1]..cuts[k]]);
    JoinOne(last);
    if k == 1 {
      assert texts[..1] == [last];
      assert lines[..cuts[1]] == lines[cuts[0]..cuts[1]];
    } else {
      CutsJoin(lines, cuts, spans, heading, paragraphEnd, k - 1);
      CutsRise(cuts, k - 1);
      assert texts[..k] == texts[..k - 1] + [last];
      JoinAppend(texts[..k - 1], [last]);
      assert lines[..cuts[k]] == lines[..cuts[k - 1]] + lines[cuts[k - 1]..cuts[k]];
      JoinAppend(lines[..cuts[k - 1]], lines[cuts[k - 1]..cuts[k]]);
    }
  }

  lemma JoinOne(s: string)
    ensures Join([s]) == s
  {
  }

  lemma {:induction false} CutsRise(cuts: seq<nat>, k: nat)
    requires cuts != [] && cuts[0] == 0 && (forall i :: 0 <= i < |cuts| - 1 ==> cuts[i] < cuts[i + 1]) &&
      1 <= k < |cuts|
    ensures cuts[k] > 0
  {
    if k > 1 {
      CutsRise(cuts, k - 1);
    }
  }

  /** Joining a page's block texts by line breaks gives the page back. */
  lemma BlocksRebuildPage(t: string, cuts: seq<nat>, spans: seq<Span>, heading: string -> bool,
                          paragraphEnd: (string, string) -> bool)
    requires IsNormalized(t) && Cuts(cuts, |Runs(t)|) && BlocksAt(Runs(t), cuts, spans, heading, paragraphEnd)
    ensures Join(Texts(t, spans)) == t
  {
    hide BlocksAt, Slice, IsNormalized, Join;
    RunsOfNormalized(t);
    SpanCount(Runs(t), cuts, spans, heading, paragraphEnd);
    if spans != [] {
      CutsJoin(Runs(t), cuts, spans, heading, paragraphEnd, |spans|);
      assert Texts(t, spans)[..|spans|] == Texts(t, spans);
      assert Runs(t)[..|Runs(t)|] == Runs(t);
    } else {
      assert Runs(t) == [] && Texts(t, spans) == [];
    }
  }

  lemma SpanCount(lines: seq<string>, cuts: seq<nat>, spans: seq<Span>, heading: string -> bool,
                  paragraphEnd: (string, string) -> bool)
    requires BlocksAt(lines, cuts, spans, heading, paragraphEnd)
    ensures |spans| == |cuts| - 1
  {
  }

  /** Spans are ordered and disjoint, one line break apart. */
  lemma SpansAreAdjacent(t: string, cuts: seq<nat>, spans: seq<Span>, heading: string -> bool,
                         paragraphEnd: (string, string) -> bool, k: nat)
    requires Cuts(cuts, |Runs(t)|) && BlocksAt(Runs(t), cuts, spans, heading, paragraphEnd) && k + 1 < |spans|
    ensures spans[k].start <= spans[k].end && spans[k].end + 1 == spans[k + 1].start
  {
    var lines := Runs(t);
    assert BlockIs(lines, cuts[k], cuts[k + 1], spans[k], heading, paragraphEnd);
    assert BlockIs(lines, cuts[k + 1], cuts[k + 2], spans[k + 1], heading, paragraphEnd);
    StartOfNext(lines, cuts[k + 1] - 1);
    JoinSlice(lines, cuts[k], cuts[k + 1]);
  }

  /** No text with a line break is a heading. */
  ghost predicate OneLineHeadings(heading: string -> bool) {
    forall s :: '\n' in s ==> !heading(s)
  }

  /** The second heading test, on the whole block, agrees with the splitter's, on its lines. */
  lemma SecondHeadingTestAgrees(t: string, a: nat, b: nat, span: Span, heading: string -> bool,
                                paragraphEnd: (string, string) -> bool)
    requires IsNormalized(t) && OneLineHeadings(heading) && BlockIs(Runs(t), a, b, span, heading, paragraphEnd)
    ensures heading(Strip(Slice(t, span))) <==> b == a + 1 && heading(Runs(t)[a])
  {
    hide IsNormalized, Slice;
    var lines := Runs(t);
    RunsOfNormalized(t);
    BlockText(lines, a, b, span, heading, paragraphEnd);
    if b == a + 1 {
      assert lines[a..b] == [lines[a]];
    } else {
      assert forall line :: line in lines[a..b] ==> CleanLine(line);
      JoinEnds(lines[a..b]);
      assert Strip(Join(lines[a..b])) == Join(lines[a..b]);
      assert '\n' in Join(lines[a..b]) by {
        assert Join(lines[a..b]) == lines[a] + "\n" + Join(lines[a..b][1..]);
        assert Join(lines[a..b])[|lines[a]|] == '\n';
      }
    }
  }

  // ---------------------------------------------------------------- only one way to cut

  /** Two blocks that start at the same line end at the same line. */
  lemma SameEnd(lines: seq<string>, a: nat, b: nat, c: nat, heading: string -> bool,
                paragraphEnd: (string, string) -> bool)
    requires GoodBlock(lines, a, b, heading, paragraphEnd) && CutForReason(lines, a, b, heading, paragraphEnd)
    requires GoodBlock(lines, a, c, heading, paragraphEnd) && CutForReason(lines, a, c, heading, paragraphEnd)
    ensures b == c
  {
  }

  /** The rules determine the blocks: there is no other sequence of cuts that follows them. */
  lemma {:induction false} CutsAreUnique(lines: seq<string>, cuts: seq<nat>, spans: seq<Span>, cuts': seq<nat>,
                                         spans': seq<Span>,
                                         heading: string -> bool, paragraphEnd: (string, string) -> bool, k: nat)
    requires Cuts(cuts, |lines|) && BlocksAt(lines, cuts, spans, heading, paragraphEnd)
    requires Cuts(cuts', |lines|) && BlocksAt(lines, cuts', spans', heading, paragraphEnd)
    requires k < |cuts|
    ensures k < |cuts'| && cuts'[k] == cuts[k]
  {
    hide GoodBlock, CutForReason, StartOf;
    if k > 0 {
      CutsAreUnique(lines, cuts, spans, cuts', spans', heading, paragraphEnd, k - 1);
      assert BlockIs(lines, cuts[k - 1], cuts[k], spans[k - 1], heading, paragraphEnd);
      BlockBounds(lines, cuts[k - 1], cuts[k], heading, paragraphEnd);
      assert cuts'[k - 1] < |lines|;
      assert k < |cuts'|;
      assert BlockIs(lines, cuts'[k - 1], cuts'[k], spans'[k - 1], heading, paragraphEnd);
      SameEnd(lines, cuts[k - 1], cuts[k], cuts'[k], heading, paragraphEnd);
    }
  }

  lemma BlockBounds(lines: seq<string>, a: nat, b: nat, heading: string -> bool, paragraphEnd: (string, string) -> bool)
    requires GoodBlock(lines, a, b, heading, paragraphEnd)
    ensures a < b <= |lines|
  {
  }

  // ---------------------------------------------------------------- the whole document

  datatype Block = Block(page: nat, section: seq<string>, start: nat, end: nat, text: string)

  function CleanText(pages: seq<string>): string {
    if pages == [] then "" else if |pages| == 1 then pages[0] else CleanText(pages[..|pages| - 1]) + "\n\n" + pages[|pages| - 1]
  }

  function PageStart(pages: seq<string>, p: nat): nat
    requires p <= |pages|
  {
    if p == 0 then 0 else PageStart(pages, p - 1) + |pages[p - 1]| + 2
  }

  lemma {:induction false} PageStartOfPrefix(pages: seq<string>, n: nat, p: nat)
    requires p <= n <= |pages|
    ensures PageStart(pages[..n], p) == PageStart(pages, p)
  {
    if p > 0 {
      PageStartOfPrefix(pages, n, p - 1);
    }
  }

  lemma {:induction false} CleanTextLength(pages: seq<string>)
    requires pages != []
    ensures |CleanText(pages)| + 2 == PageStart(pages, |pages|)
  {
    if |pages| > 1 {
      var n := |pages| - 1;
      CleanTextLength(pages[..n]);
      PageStartOfPrefix(pages, n, n);
    }
  }

  /** Each page stands in the clean text at its offset. */
  lemma {:induction false} PageSlice(pages: seq<string>, p: nat)
    requires p < |pages|
    ensures PageStart(pages, p) + |pages[p]| <= |CleanText(pages)|
    ensures CleanText(pages)[PageStart(pages, p)..PageStart(pages, p) + |pages[p]|] == pages[p]
  {
    var n := |pages| - 1;
    if n > 0 {
      var front := pages[..n];
      CleanTextLength(front);
      PageStartOfPrefix(pages, n, n);
      if p < n {
        PageSlice(front, p);
        PageStartOfPrefix(pages, n, p);
      }
    }
  }

  function SectionPath(current: seq<string>, heading: string, level: string -> nat): (r: seq<string>)
    ensures r != [] && r[|r| - 1] == heading
  {
    var l := level(heading);
    if l <= 1 then [heading] else (if l - 1 <= |current| then current[..l - 1] else current) + [heading]
  }

  /** A heading block opens the section its level gives it; any other block stays in the section before it. */
  function NextSection(current: seq<string>, text: string, heading: string -> bool, level: string -> nat): seq<string> {
    if heading(Strip(text)) then SectionPath(current, Strip(text), level) else current
  }

  function SectionAfter(blocks: seq<Block>): seq<string> {
    if blocks == [] then ["Document"] else blocks[|blocks| - 1].section
  }

  ghost predicate SectionsFollow(blocks: seq<Block>, heading: string -> bool, level: string -> nat) {
    forall k {:trigger blocks[k]} :: 0 <= k < |blocks| ==>
      blocks[k].section == NextSection(SectionAfter(blocks[..k]), blocks[k].text, heading, level)
  }

  /** A section path ends with its heading, keeps at most its level's number of steps, and above it the path before. */
  lemma SectionPathIsNested(current: seq<string>, heading: string, level: string -> nat)
    ensures var r := SectionPath(current, heading, level);
      |r| <= (if level(heading) <= 1 then 1 else level(heading)) && r[..|r| - 1] <= current && r[|r| - 1] == heading
    ensures level(heading) >= 1 ==>
      |SectionPath(current, heading, level)| == if level(heading) <= |current| + 1 then level(heading) else |current| + 1
  {
  }

  ghost predicate Located(b: Block, cleanText: string) {
    b.start <= b.end <= |cleanText| && cleanText[b.start..b.end] == b.text
  }

  function BlockTexts(blocks: seq<Block>): seq<string> {
    seq(|blocks|, k requires 0 <= k < |blocks| => blocks[k].text)
  }

  lemma SliceOfPage(pages: seq<string>, p: nat, span: Span)
    requires p < |pages| && span.start <= span.end <= |pages[p]|
    ensures PageStart(pages, p) + span.end <= |CleanText(pages)|
    ensures CleanText(pages)[PageStart(pages, p) + span.start..PageStart(pages, p) + span.end] == Slice(pages[p], span)
  {
    hide CleanText, PageStart;
    PageSlice(pages, p);
    var page := CleanText(pages)[PageStart(pages, p)..PageStart(pages, p) + |pages[p]|];
    assert page[span.start..span.end] == CleanText(pages)[PageStart(pages, p) + span.start..PageStart(pages, p) + span.end];
  }

  lemma SpanInPage(t: string, cuts: seq<nat>, spans: seq<Span>, heading: string -> bool,
                   paragraphEnd: (string, string) -> bool, k: nat)
    requires IsNormalized(t) && BlocksAt(Runs(t), cuts, spans, heading, paragraphEnd) && k < |spans|
    ensures spans[k].start <= spans[k].end <= |t|
  {
    hide BlockIs;
    RunsOfNormalized(t);
    assert BlockIs(Runs(t), cuts[k], cuts[k + 1], spans[k], heading, paragraphEnd);
    BlockText(Runs(t), cuts[k], cuts[k + 1], spans[k], heading, paragraphEnd);
  }

  lemma OneMoreSection(blocks: seq<Block>, b: Block, heading: string -> bool, level: string -> nat)
    requires SectionsFollow(blocks, heading, level) && b.section == NextSection(SectionAfter(blocks), b.text, heading, level)
    ensures SectionsFollow(blocks + [b], heading, level)
  {
    hide NextSection;
    var more := blocks + [b];
    forall k {:trigger more[k]} | 0 <= k < |more|
      ensures more[k].section == NextSection(SectionAfter(more[..k]), more[k].text, heading, level)
    {
      if k < |blocks| {
        assert more[k] == blocks[k] && more[..k] == blocks[..k];
      } else {
        assert more[..k] == blocks;
      }
    }
  }

  lemma BlockIsLocated(pages: seq<string>, p: nat, span: Span, b: Block)
    requires p < |pages| && span.start <= span.end <= |pages[p]|
    requires b.start == PageStart(pages, p) + span.start && b.end == PageStart(pages, p) + span.end &&
      b.text == Slice(pages[p], span)
    ensures Located(b, CleanText(pages))
  {
    hide CleanText, PageStart, Slice;
    SliceOfPage(pages, p, span);
  }

  /** The blocks of one page, appended to those before it. */
  method ParsePage(pages: seq<string>, p: nat, offset: nat, before: seq<Block>, heading: string -> bool,
                   level: string -> nat,
                   paragraphEnd: (string, string) -> bool)
    returns (blocks: seq<Block>, ghost own: seq<Block>)
    requires p < |pages| && IsNormalized(pages[p]) && StopsAtEnd(paragraphEnd) && offset == PageStart(pages, p)
    requires SectionsFollow(before, heading, level)
    ensures blocks == before + own && SectionsFollow(blocks, heading, level)
    ensures forall b :: b in own ==> b.page == p + 1 && Located(b, CleanText(pages))
    ensures Join(BlockTexts(own)) == pages[p]
  {
    hide BlocksAt, IsNormalized, SectionsFollow, SectionPath, CleanText, Cuts, Slice, PageStart, StopsAtEnd,
      Runs, Strip, Join, Located;
    var t := pages[p];
    var spans;
    ghost var cuts;
    spans, cuts := TextBlockSpans(t, heading, paragraphEnd);
    BlocksRebuildPage(t, cuts, spans, heading, paragraphEnd);
    blocks, own := before, [];
    var section := SectionAfter(before);
    for k := 0 to |spans|
      invariant blocks == before + own && |own| == k && SectionsFollow(blocks, heading, level) &&
        section == SectionAfter(blocks)
      invariant forall b :: b in own ==> b.page == p + 1 && Located(b, CleanText(pages))
      invariant BlockTexts(own) == Texts(t, spans)[..k]
    {
      SpanInPage(t, cuts, spans, heading, paragraphEnd, k);
      var text := t[spans[k].start..spans[k].end];
      SliceIs(t, spans[k]);
      if heading(Strip(text)) {
        section := SectionPath(section, Strip(text), level);
      }
      var block := Block(p + 1, section, offset + spans[k].start, offset + spans[k].end, text);
      BlockIsLocated(pages, p, spans[k], block);
      OneMoreSection(blocks, block, heading, level);
      blocks, own := blocks + [block], own + [block];
    }
    assert Texts(t, spans)[..|spans|] == Texts(t, spans);
  }

  lemma SliceIs(t: string, span: Span)
    requires span.start <= span.end <= |t|
    ensures Slice(t, span) == t[span.start..span.end]
  {
  }

  function Flatten(perPage: seq<seq<Block>>): seq<Block> {
    if perPage == [] then [] else Flatten(perPage[..|perPage| - 1]) + perPage[|perPage| - 1]
  }

  lemma {:induction false} AllLocated(perPage: seq<seq<Block>>, cleanText: string)
    requires forall p, b :: 0 <= p < |perPage| && b in perPage[p] ==> Located(b, cleanText)
    ensures forall b :: b in Flatten(perPage) ==> Located(b, cleanText)
  {
    hide Located;
    if perPage != [] {
      AllLocated(perPage[..|perPage| - 1], cleanText);
    }
  }

  /** The document: every block is a slice of the clean text, each page's blocks rebuild it, and sections follow the
      headings. */
  method ParsePages(pages: seq<string>, heading: string -> bool, level: string -> nat,
                    paragraphEnd: (string, string) -> bool)
    returns (cleanText: string, blocks: seq<Block>, ghost perPage: seq<seq<Block>>)
    requires (forall t :: t in pages ==> IsNormalized(t)) && StopsAtEnd(paragraphEnd)
    ensures cleanText == CleanText(pages)
    ensures forall b :: b in blocks ==> Located(b, cleanText)
    ensures |perPage| == |pages| && blocks == Flatten(perPage)
    ensures forall p :: 0 <= p < |pages| ==> Join(BlockTexts(perPage[p])) == pages[p] && forall b :: b in perPage[p] ==>
      b.page == p + 1
    ensures SectionsFollow(blocks, heading, level)
  {
    hide IsNormalized, SectionsFollow, CleanText, PageStart, StopsAtEnd, Join, BlockTexts, Located;
    cleanText, blocks, perPage := CleanText(pages), [], [];
    NoSections(heading, level);
    FirstPageStart(pages);
    var cursor := 0;
    for p := 0 to |pages|
      invariant cursor == PageStart(pages, p)
      invariant |perPage| == p && blocks == Flatten(perPage) && SectionsFollow(blocks, heading, level)
      invariant forall q, b :: 0 <= q < p && b in perPage[q] ==> Located(b, cleanText)
      invariant forall q :: 0 <= q < p ==> Join(BlockTexts(perPage[q])) == pages[q] && forall b :: b in perPage[q] ==>
        b.page == q + 1
    {
      ghost var own;
      blocks, own := ParsePage(pages, p, cursor, blocks, heading, level, paragraphEnd);
      assert (perPage + [own])[..p] == perPage;
      perPage := perPage + [own];
      NextPageStart(pages, p);
      cursor := cursor + |pages[p]| + 2;
    }
    AllLocated(perPage, cleanText);
  }

  lemma NoSections(heading: string -> bool, level: string -> nat)
    ensures SectionsFollow([], heading, level)
  {
  }

  lemma FirstPageStart(pages: seq<string>)
    ensures PageStart(pages, 0) == 0
  {
  }

  lemma NextPageStart(pages: seq<string>, p: nat)
    requires p < |pages|
    ensures PageStart(pages, p + 1) == PageStart(pages, p) + |pages[p]| + 2
  {
  }
}
