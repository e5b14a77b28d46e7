/**
 Rewriting raw links as markdown links (packages/ui/markdown/linkify.ts:89-94,
 182-198 and 294-333).
 */
module LinkPreprocessor {
  import opened LinkBrackets
  import opened LinkDetection

  // ------------------------------------------------------ which links to write

  predicate IsInsideCode(pos: nat, ranges: seq<Range>) {
    exists k :: 0 <= k < |ranges| && ranges[k].start <= pos < ranges[k].end
  }

  predicate OverlapsAny(r: Range, ranges: seq<Range>) {
    exists k :: 0 <= k < |ranges| && RangesOverlap(r, ranges[k])
  }

  /** The span is the destination or the reference of a link, or a whole label. */
  predicate IsAlreadyLinked(text: string, linkStart: nat, linkEnd: nat)
    requires linkStart <= |text|
  {
    var before := text[if linkStart < 2 then 0 else linkStart - 2..linkStart];
    || EndsWith(before, "](")
    || EndsWith(before, "][")
    || (linkStart > 0 && text[linkStart - 1] == '[' && linkEnd < |text| && text[linkEnd] == ']')
  }

  predicate ToWrite(text: string, code: seq<Range>, existing: seq<Range>, link: Link) {
    && !IsInsideCode(link.start, code)
    && !OverlapsAny(link.Span(), existing)
    && link.start <= |text| && !IsAlreadyLinked(text, link.start, link.end)
  }

  /** The links to write, in order. */
  function Kept(text: string, code: seq<Range>, existing: seq<Range>, links: seq<Link>): (kept: seq<Link>)
    ensures forall l :: l in kept ==> l in links
  {
    if links == [] then []
    else
      var front, last := Kept(text, code, existing, links[..|links| - 1]), links[|links| - 1];
      if ToWrite(text, code, existing, last) then front + [last] else front
  }

  // -------------------------------------------------------------- the splice

  /** `slice`: nothing when the bounds cross, and never past the end. */
  function Slice(s: string, from: nat, to: nat): string {
    var end := if to < |s| then to else |s|;
    if from < end then s[from..end] else ""
  }

  /** Where the slice before link `k` begins, or the last one. */
  function GapFrom(kept: seq<Link>, k: nat): nat
    requires k <= |kept|
  {
    if k == 0 then 0 else kept[k - 1].end
  }

  function GapEnd(text: string, kept: seq<Link>, k: nat): nat
    requires k <= |kept|
  {
    if k < |kept| then kept[k].start else |text|
  }

  /** The untouched slice of the text before link `k`, or the last one. */
  function Gap(text: string, kept: seq<Link>, k: nat): string
    requires k <= |kept|
  {
    Slice(text, GapFrom(kept, k), GapEnd(text, kept, k))
  }

  function RenderLink(t: string, u: string): string {
    "[" + t + "](" + u + ")"
  }

  function LinkPiece(kept: seq<Link>, k: nat): string
    requires k < |kept|
  {
    RenderLink(kept[k].text, kept[k].url)
  }

  function Concat(parts: seq<string>): string {
    if parts == [] then "" else Concat(parts[..|parts| - 1]) + parts[|parts| - 1]
  }

  /** Each slice with the written link behind it. */
  function Pieces(text: string, kept: seq<Link>): seq<string> {
    seq(|kept|, k requires 0 <= k < |kept| => Gap(text, kept, k) + LinkPiece(kept, k))
  }

  /** The output: untouched slices and written links in turn, and the last slice. */
  function Output(text: string, kept: seq<Link>): string {
    Concat(Pieces(text, kept)) + Gap(text, kept, |kept|)
  }

  /** The slices with each written link set back to its text. */
  function Originals(text: string, kept: seq<Link>): seq<string> {
    seq(|kept|, k requires 0 <= k < |kept| => Gap(text, kept, k) + kept[k].text)
  }

  /** The output with each written link set back to its text. */
  function Erased(text: string, kept: seq<Link>): string {
    Concat(Originals(text, kept)) + Gap(text, kept, |kept|)
  }

  /** `[~/.]\/`: what a file path cannot do without. */
  predicate MayHavePath(text: string) {
    exists i :: 0 <= i < |text| - 1 && text[i] in {'~', '/', '.'} && text[i + 1] == '/'
  }

  /** The links that a run on `text` writes. */
  ghost function Written(sc: Scanners, text: string): seq<Link>
    requires ValidScanners(sc)
  {
    if !sc.pretest(text) && !MayHavePath(text) then []
    else Kept(text, sc.code(text), LinkRanges(text, 0), Detected(sc, text))
  }

  ghost function Preprocessed(sc: Scanners, text: string): string
    requires ValidScanners(sc)
  {
    Output(text, Written(sc, text))
  }

  lemma ConcatSnoc(parts: seq<string>, part: string)
    ensures Concat(parts + [part]) == Concat(parts) + part
  {
    assert (parts + [part])[..|parts|] == parts;
  }

  lemma PiecesSnoc(text: string, kept: seq<Link>, link: Link)
    ensures Pieces(text, kept + [link]) ==
            Pieces(text, kept) + [Slice(text, GapFrom(kept, |kept|), link.start) + RenderLink(link.text, link.url)]
  {
    forall k | 0 <= k < |kept| ensures Pieces(text, kept + [link])[k] == Pieces(text, kept)[k] {
      assert (kept + [link])[k] == kept[k] && GapFrom(kept + [link], k) == GapFrom(kept, k);
    }
  }

  lemma OutputSnoc(text: string, kept: seq<Link>, link: Link)
    ensures Concat(Pieces(text, kept + [link])) ==
            Concat(Pieces(text, kept)) + (Slice(text, GapFrom(kept, |kept|), link.start) + RenderLink(link.text, link.url))
  {
    PiecesSnoc(text, kept, link);
    ConcatSnoc(Pieces(text, kept), Slice(text, GapFrom(kept, |kept|), link.start) + RenderLink(link.text, link.url));
  }

  lemma Associate(a: string, b: string, c: string)
    ensures a + b + c == a + (b + c)
  {
  }

  lemma NothingWritten(text: string)
    ensures Output(text, []) == text
  {
    assert Pieces(text, []) == [] && Slice(text, 0, |text|) == text;
    assert "" + text == text;
  }

  /** The loop of `preprocessLinks`. */
  method Splice(text: string, codeRanges: seq<Range>, markdownLinkRanges: seq<Range>, links: seq<Link>)
      returns (result: string)
    ensures result == Output(text, Kept(text, codeRanges, markdownLinkRanges, links))
  {
    result := "";
    var lastIndex := 0;
    ghost var kept := [];
    for i := 0 to |links|
      invariant kept == Kept(text, codeRanges, markdownLinkRanges, links[..i])
      invariant lastIndex == GapFrom(kept, |kept|)
      invariant result == Concat(Pieces(text, kept))
    {
      var link := links[i];
      assert links[..i + 1][..i] == links[..i];
      if ToWrite(text, codeRanges, markdownLinkRanges, link) {
        OutputSnoc(text, kept, link);
        Associate(result, Slice(text, lastIndex, link.start), RenderLink(link.text, link.url));
        kept := kept + [link];
        result := result + Slice(text, lastIndex, link.start);
        result := result + RenderLink(link.text, link.url);
        lastIndex := link.end;
      }
    }
    assert links[..|links|] == links;
    result := result + Slice(text, lastIndex, |text|);
  }

  method PreprocessLinks(sc: Scanners, text: string) returns (result: string)
    requires ValidScanners(sc)
    ensures result == Preprocessed(sc, text)
  {
    NothingWritten(text);
    if !sc.pretest(text) && !MayHavePath(text) {
      return text;
    }
    var codeRanges := sc.code(text);
    var markdownLinkRanges := FindMarkdownLinkRanges(text);
    var links := DetectLinks(sc, text);
    if |links| == 0 {
      return text;
    }
    result := Splice(text, codeRanges, markdownLinkRanges, links);
  }

  // ----------------------------------------------------------- the main laws

  /** Slices of the text, in order. */
  predicate Spliceable(text: string, kept: seq<Link>) {
    (forall k :: 0 <= k < |kept| ==> IsSlice(text, kept[k])) && InOrder(kept)
  }

  lemma SpliceableFront(text: string, links: seq<Link>)
    requires Spliceable(text, links) && links != []
    ensures Spliceable(text, links[..|links| - 1]) && IsSlice(text, links[|links| - 1])
    ensures forall l :: l in links[..|links| - 1] ==> l.end <= links[|links| - 1].start
  {
    var front, last := links[..|links| - 1], links[|links| - 1];
    forall l | l in front ensures l.end <= last.start {
      var k :| 0 <= k < |front| && front[k] == l;
      assert links[k] == l;
    }
  }

  lemma SpliceableSnoc(text: string, kept: seq<Link>, link: Link)
    requires Spliceable(text, kept) && IsSlice(text, link)
    requires forall l :: l in kept ==> l.end <= link.start
    ensures Spliceable(text, kept + [link])
  {
    var more := kept + [link];
    forall j, k | 0 <= j < k < |more| ensures more[j].end <= more[k].start {
      assert more[j] in kept;
    }
  }

  lemma {:induction false} KeptInOrder(text: string, code: seq<Range>, existing: seq<Range>, links: seq<Link>)
    requires Spliceable(text, links)
    ensures Spliceable(text, Kept(text, code, existing, links))
  {
    if links != [] {
      SpliceableFront(text, links);
      KeptInOrder(text, code, existing, links[..|links| - 1]);
      if ToWrite(text, code, existing, links[|links| - 1]) {
        SpliceableSnoc(text, Kept(text, code, existing, links[..|links| - 1]), links[|links| - 1]);
      }
    }
  }

  lemma WrittenIsSpliceable(sc: Scanners, text: string)
    requires ValidScanners(sc)
    ensures Spliceable(text, Written(sc, text))
  {
    DetectedAreGood(sc, text);
    KeptInOrder(text, sc.code(text), LinkRanges(text, 0), Detected(sc, text));
  }

  lemma LinkBounds(text: string, kept: seq<Link>, k: nat)
    requires Spliceable(text, kept) && k < |kept|
    ensures GapFrom(kept, k) <= kept[k].start < kept[k].end <= |text| && |kept[k].text| == kept[k].end - kept[k].start
  {
    assert IsSlice(text, kept[k]);
  }

  lemma GlueSlices(text: string, a: nat, b: nat, c: nat)
    requires a <= b <= c <= |text|
    ensures Slice(text, a, b) + text[b..c] == text[a..c]
    ensures text[..a] + text[a..c] == text[..c]
  {
  }

  lemma ConcatTake(parts: seq<string>, k: nat)
    requires k < |parts|
    ensures Concat(parts[..k + 1]) == Concat(parts[..k]) + parts[k]
  {
    assert parts[..k + 1] == parts[..k] + [parts[k]];
    ConcatSnoc(parts[..k], parts[k]);
  }

  /** Together a slice and the link's text are the text from the end of one link to the end of the next. */
  lemma OriginalIsSlice(text: string, kept: seq<Link>, k: nat)
    requires Spliceable(text, kept) && k < |kept|
    ensures GapFrom(kept, k) <= GapFrom(kept, k + 1) <= |text|
    ensures Originals(text, kept)[k] == text[GapFrom(kept, k)..GapFrom(kept, k + 1)]
  {
    LinkBounds(text, kept, k);
    assert IsSlice(text, kept[k]);
    GlueSlices(text, GapFrom(kept, k), kept[k].start, kept[k].end);
  }

  lemma {:induction false} OriginalsJoin(text: string, kept: seq<Link>, k: nat)
    requires Spliceable(text, kept) && k <= |kept|
    ensures GapFrom(kept, k) <= |text| && Concat(Originals(text, kept)[..k]) == text[..GapFrom(kept, k)]
  {
    if k > 0 {
      OriginalsJoin(text, kept, k - 1);
      ConcatTake(Originals(text, kept), k - 1);
      OriginalIsSlice(text, kept, k - 1);
      GlueSlices(text, GapFrom(kept, k - 1), GapFrom(kept, k - 1), GapFrom(kept, k));
    }
  }

  /** Setting each written link back to its text gives exactly the input. */
  lemma EraseIsInput(text: string, kept: seq<Link>)
    requires Spliceable(text, kept)
    ensures Erased(text, kept) == text
  {
    var n := |kept|;
    OriginalsJoin(text, kept, n);
    assert Originals(text, kept)[..n] == Originals(text, kept);
    RestOfText(text, GapFrom(kept, n));
  }

  lemma RestOfText(text: string, a: nat)
    requires a <= |text|
    ensures text[..a] + Slice(text, a, |text|) == text
  {
  }

  // ------------------------------------------------- where the pieces stand

  /** What the first `k` written links add to the length. */
  function Added(kept: seq<Link>, k: nat): nat
    requires k <= |kept|
  {
    if k == 0 then 0 else Added(kept, k - 1) + |kept[k - 1].url| + 4
  }

  /** What those of the first `k` links add that end at or before `pos`. */
  function AddedBefore(kept: seq<Link>, pos: nat, k: nat): nat
    requires k <= |kept|
  {
    if k == 0 then 0
    else AddedBefore(kept, pos, k - 1) + if kept[k - 1].end <= pos then |kept[k - 1].url| + 4 else 0
  }

  /** Where the output has what stood at `pos`: moved by what the links that end before it add. */
  function Moved(kept: seq<Link>, pos: nat): nat {
    pos + AddedBefore(kept, pos, |kept|)
  }

  /** Where the output has the slice before link `k`, or the last one. */
  function GapStart(kept: seq<Link>, k: nat): nat
    requires k <= |kept|
  {
    GapFrom(kept, k) + Added(kept, k)
  }

  lemma {:induction false} AddedBeforeAll(kept: seq<Link>, pos: nat, k: nat)
    requires k <= |kept| && forall i :: 0 <= i < k ==> kept[i].end <= pos
    ensures AddedBefore(kept, pos, k) == Added(kept, k)
  {
    if k > 0 {
      AddedBeforeAll(kept, pos, k - 1);
    }
  }

  lemma {:induction false} AddedBeforeSome(kept: seq<Link>, pos: nat, k: nat, n: nat)
    requires k <= n <= |kept| && forall i :: k <= i < n ==> pos < kept[i].end
    ensures AddedBefore(kept, pos, n) == AddedBefore(kept, pos, k)
  {
    if k < n {
      AddedBeforeSome(kept, pos, k, n - 1);
    }
  }

  lemma EndsAround(text: string, kept: seq<Link>, k: nat, pos: nat)
    requires Spliceable(text, kept) && k <= |kept|
    requires GapFrom(kept, k) <= pos && (k < |kept| ==> pos < kept[k].end)
    ensures forall i :: 0 <= i < k ==> kept[i].end <= pos
    ensures forall i :: k <= i < |kept| ==> pos < kept[i].end
  {
    forall i | 0 <= i < k ensures kept[i].end <= pos {
      assert i < k - 1 ==> IsSlice(text, kept[k - 1]) && kept[i].end <= kept[k - 1].start;
    }
    forall i | k <= i < |kept| ensures pos < kept[i].end {
      assert k < i ==> IsSlice(text, kept[i]) && kept[k].end <= kept[i].start;
    }
  }

  /** Between link `k - 1` and the end of link `k` positions move by what the first `k` links add. */
  lemma MovedBetween(text: string, kept: seq<Link>, k: nat, pos: nat)
    requires Spliceable(text, kept) && k <= |kept|
    requires GapFrom(kept, k) <= pos && (k < |kept| ==> pos < kept[k].end)
    ensures Moved(kept, pos) == GapStart(kept, k) + pos - GapFrom(kept, k)
  {
    EndsAround(text, kept, k, pos);
    AddedBeforeSome(kept, pos, k, |kept|);
    AddedBeforeAll(kept, pos, k);
  }

  lemma GapLength(text: string, kept: seq<Link>, k: nat)
    requires Spliceable(text, kept) && k < |kept|
    ensures Moved(kept, kept[k].start) == GapStart(kept, k) + |Gap(text, kept, k)|
  {
    LinkBounds(text, kept, k);
    MovedBetween(text, kept, k, kept[k].start);
  }

  function LengthTo(parts: seq<string>, k: nat): nat
    requires k <= |parts|
  {
    if k == 0 then 0 else LengthTo(parts, k - 1) + |parts[k - 1]|
  }

  lemma {:induction false} LengthOfPrefix(parts: seq<string>, n: nat, k: nat)
    requires k <= n <= |parts|
    ensures LengthTo(parts[..n], k) == LengthTo(parts, k)
  {
    if k > 0 {
      LengthOfPrefix(parts, n, k - 1);
    }
  }

  lemma {:induction false} ConcatLength(parts: seq<string>)
    ensures |Concat(parts)| == LengthTo(parts, |parts|)
  {
    if parts != [] {
      ConcatLength(parts[..|parts| - 1]);
      LengthOfPrefix(parts, |parts| - 1, |parts| - 1);
    }
  }

  /** What stands around part `k`. */
  lemma {:induction false} ConcatAround(parts: seq<string>, k: nat) returns (before: string, behind: string)
    requires k < |parts|
    ensures Concat(parts) == before + parts[k] + behind && |before| == LengthTo(parts, k)
  {
    var n := |parts| - 1;
    if k == n {
      before, behind := Concat(parts[..n]), "";
      ConcatLength(parts[..n]);
      LengthOfPrefix(parts, n, n);
      NothingBehind(before + parts[k]);
    } else {
      before, behind := ConcatAround(parts[..n], k);
      LengthOfPrefix(parts, n, k);
      Associate(before + parts[k], behind, parts[n]);
      behind := behind + parts[n];
    }
  }

  predicate SizeFits(parts: seq<string>, kept: seq<Link>, k: nat)
    requires k < |kept| == |parts|
  {
    GapStart(kept, k + 1) == GapStart(kept, k) + |parts[k]|
  }

  lemma PieceFits(text: string, kept: seq<Link>, k: nat)
    requires Spliceable(text, kept) && k < |kept|
    ensures SizeFits(Pieces(text, kept), kept, k)
  {
    LinkBounds(text, kept, k);
  }

  lemma {:induction false} LengthsFit(parts: seq<string>, kept: seq<Link>, k: nat)
    requires k <= |kept| == |parts| && forall i: nat :: i < |kept| ==> SizeFits(parts, kept, i)
    ensures LengthTo(parts, k) == GapStart(kept, k)
  {
    if k > 0 {
      LengthsFit(parts, kept, k - 1);
      assert SizeFits(parts, kept, k - 1);
    }
  }

  lemma PiecesLength(text: string, kept: seq<Link>, k: nat)
    requires Spliceable(text, kept) && k <= |kept|
    ensures LengthTo(Pieces(text, kept), k) == GapStart(kept, k)
  {
    var parts := Pieces(text, kept);
    forall i: nat | i < |kept| ensures SizeFits(parts, kept, i) {
      PieceFits(text, kept, i);
    }
    LengthsFit(parts, kept, k);
  }

  /** The slice before link `k`, or the last one, stands in `out` behind the links before it. */
  predicate GapStands(out: string, text: string, kept: seq<Link>, k: nat)
    requires k <= |kept|
  {
    OccursAt(out, Gap(text, kept, k), GapStart(kept, k))
  }

  /** Link `k` stands in `out` at its own place, moved by the links before it. */
  predicate LinkStands(out: string, kept: seq<Link>, k: nat)
    requires k < |kept|
  {
    OccursAt(out, LinkPiece(kept, k), Moved(kept, kept[k].start))
  }

  predicate LaidOut(out: string, text: string, kept: seq<Link>) {
    && (forall k: nat :: k <= |kept| ==> GapStands(out, text, kept, k))
    && (forall k: nat :: k < |kept| ==> LinkStands(out, kept, k))
  }

  lemma OccursBehind(out: string, a: string, part: string, b: string, at: nat)
    requires out == a + part + b && at == |a|
    ensures OccursAt(out, part, at)
  {
    forall k | 0 <= k < |part| ensures SameChar(out, part, at, k) {
      assert (a + part + b)[at + k] == part[k];
    }
  }

  lemma BehindBoth(out: string, body: string, gap: string, piece: string, rest: string, low: nat, at: nat)
    requires out == body + (gap + piece) + rest && low == |body| && at == low + |gap|
    ensures OccursAt(out, gap, low) && OccursAt(out, piece, at)
  {
    assert out == body + gap + (piece + rest);
    OccursBehind(out, body, gap, piece + rest, low);
    assert out == body + gap + piece + rest;
    OccursBehind(out, body + gap, piece, rest, at);
  }

  lemma NothingBehind(s: string)
    ensures s + "" == s
  {
  }

  lemma LinkAndGapStand(text: string, kept: seq<Link>, k: nat)
    requires Spliceable(text, kept) && k < |kept|
    ensures GapStands(Output(text, kept), text, kept, k) && LinkStands(Output(text, kept), kept, k)
  {
    var last := Gap(text, kept, |kept|);
    var before, behind := ConcatAround(Pieces(text, kept), k);
    PiecesLength(text, kept, k);
    GapLength(text, kept, k);
    Associate(before + (Gap(text, kept, k) + LinkPiece(kept, k)), behind, last);
    BehindBoth(Output(text, kept), before, Gap(text, kept, k), LinkPiece(kept, k), behind + last,
      GapStart(kept, k), Moved(kept, kept[k].start));
  }

  lemma LastGapStands(text: string, kept: seq<Link>)
    requires Spliceable(text, kept)
    ensures GapStands(Output(text, kept), text, kept, |kept|)
  {
    ConcatLength(Pieces(text, kept));
    PiecesLength(text, kept, |kept|);
    var gap := Gap(text, kept, |kept|);
    NothingBehind(Concat(Pieces(text, kept)) + gap);
    OccursBehind(Output(text, kept), Concat(Pieces(text, kept)), gap, "", GapStart(kept, |kept|));
  }

  /** The output has every slice and every link where they belong. */
  lemma OutputIsLaidOut(text: string, kept: seq<Link>)
    requires Spliceable(text, kept)
    ensures LaidOut(Output(text, kept), text, kept)
  {
    forall k: nat | k < |kept| ensures GapStands(Output(text, kept), text, kept, k) && LinkStands(Output(text, kept), kept, k) {
      LinkAndGapStand(text, kept, k);
    }
    LastGapStands(text, kept);
  }

  /** The brackets of a written link, its label and its destination, where the link stands. */
  lemma PieceLayout(out: string, t: string, u: string, p: nat)
    requires OccursAt(out, RenderLink(t, u), p)
    ensures p + |t| + |u| + 4 <= |out|
    ensures out[p] == '[' && out[p + 1 + |t|] == ']' && out[p + 2 + |t|] == '(' && out[p + 3 + |t| + |u|] == ')'
    ensures OccursAt(out, t, p + 1) && OccursAt(out, u, p + 3 + |t|)
  {
    var piece := RenderLink(t, u);
    assert piece == "[" + t + "](" + u + ")";
    assert SameChar(out, piece, p, 0) && SameChar(out, piece, p, 1 + |t|);
    assert SameChar(out, piece, p, 2 + |t|) && SameChar(out, piece, p, 3 + |t| + |u|);
    var at, behind := p + 1, p + 3 + |t|;
    forall k | 0 <= k < |t| ensures SameChar(out, t, at, k) {
      assert SameChar(out, piece, p, 1 + k);
    }
    forall k | 0 <= k < |u| ensures SameChar(out, u, behind, k) {
      assert SameChar(out, piece, p, 3 + |t| + k);
    }
  }

  /** The stretch stands behind `](` or `][`, or fills a pair of square brackets. */
  predicate Linked(text: string, from: nat, to: nat) {
    || (1 < from <= |text| && text[from - 2] == ']' && text[from - 1] in "([")
    || (0 < from <= |text| && text[from - 1] == '[' && to < |text| && text[to] == ']')
  }

  lemma LinkedAlreadyWhen(text: string, from: nat, to: nat)
    requires from <= |text|
    ensures IsAlreadyLinked(text, from, to) <==> Linked(text, from, to)
  {
    if from > 1 {
      assert text[from - 2..from] == [text[from - 2], text[from - 1]];
      assert "](" == [']', '('] && "][" == [']', '['];
      assert text[from - 2..from][0..] == text[from - 2..from];
    }
  }

  /** The brackets of a link with label `t` and destination `u`, and both between them, where they would be skipped as linked. */
  predicate StandsLinkedAt(out: string, t: string, u: string, p: nat) {
    && OccursAt(out, t, p + 1) && OccursAt(out, u, p + 3 + |t|) && p + |t| + |u| + 4 <= |out|
    && out[p] == '[' && out[p + 1 + |t|] == ']' && out[p + 2 + |t|] == '(' && out[p + 3 + |t| + |u|] == ')'
    && Linked(out, p + 1, p + 1 + |t|) && Linked(out, p + 3 + |t|, p + 3 + |t| + |u|)
  }

  /**
   Each written link stands in the output at its own place, moved by what the links
   before it add, and there both its label and its destination read as already linked.
   */
  lemma WrittenLinksAreLinked(text: string, kept: seq<Link>, k: nat)
    requires Spliceable(text, kept) && k < |kept|
    ensures StandsLinkedAt(Output(text, kept), kept[k].text, kept[k].url, Moved(kept, kept[k].start))
  {
    OutputIsLaidOut(text, kept);
    assert LinkStands(Output(text, kept), kept, k);
    PieceLayout(Output(text, kept), kept[k].text, kept[k].url, Moved(kept, kept[k].start));
  }

  /** A range that no written link overlaps lies inside one untouched slice. */
  lemma RangeInGap(text: string, kept: seq<Link>, r: Range) returns (k: nat)
    requires Spliceable(text, kept) && InBounds(r, |text|)
    requires forall j :: 0 <= j < |kept| ==> !RangesOverlap(kept[j].Span(), r)
    ensures k <= |kept| && GapFrom(kept, k) <= r.start && r.end <= GapEnd(text, kept, k)
  {
    k := |kept|;
    while k > 0 && r.start < kept[k - 1].end
      invariant k <= |kept| && r.end <= GapEnd(text, kept, k)
    {
      k := k - 1;
      assert IsSlice(text, kept[k]) && !RangesOverlap(kept[k].Span(), r);
    }
  }

  lemma SliceOfSlice(text: string, a: nat, z: nat, r: Range)
    requires a <= r.start < r.end <= z <= |text|
    ensures |Slice(text, a, z)| == z - a && Slice(text, a, z)[r.start - a..r.end - a] == text[r.start..r.end]
  {
  }

  lemma RangeOfGap(text: string, kept: seq<Link>, k: nat, r: Range)
    requires Spliceable(text, kept) && InBounds(r, |text|) && k <= |kept|
    requires GapFrom(kept, k) <= r.start && r.end <= GapEnd(text, kept, k)
    ensures var a, gap := GapFrom(kept, k), Gap(text, kept, k);
            r.end - a <= |gap| && gap[r.start - a..r.end - a] == text[r.start..r.end]
  {
    if k < |kept| {
      LinkBounds(text, kept, k);
    }
    SliceOfSlice(text, GapFrom(kept, k), GapEnd(text, kept, k), r);
  }

  /** A part of a part, at a place of the whole that is given by the sum. */
  lemma PartOccursAt(out: string, gap: string, low: nat, i: nat, j: nat, part: string, at: nat)
    requires OccursAt(out, gap, low) && at == low + i
    requires i <= j <= |gap| && gap[i..j] == part
    ensures OccursAt(out, part, at)
  {
    PartOccurs(out, gap, low, i, j);
  }

  /** The slice that holds the range, where it is, and where it has the range. */
  lemma GapOfRange(out: string, text: string, kept: seq<Link>, k: nat, r: Range)
      returns (gap: string, low: nat, i: nat, j: nat)
    requires Spliceable(text, kept) && LaidOut(out, text, kept) && InBounds(r, |text|) && k <= |kept|
    requires GapFrom(kept, k) <= r.start && r.end <= GapEnd(text, kept, k)
    ensures OccursAt(out, gap, low) && Moved(kept, r.start) == low + i
    ensures i <= j <= |gap| && gap[i..j] == text[r.start..r.end]
  {
    gap, low := Gap(text, kept, k), GapStart(kept, k);
    i, j := r.start - GapFrom(kept, k), r.end - GapFrom(kept, k);
    assert k < |kept| ==> r.start < kept[k].end by {
      if k < |kept| {
        LinkBounds(text, kept, k);
      }
    }
    MovedBetween(text, kept, k, r.start);
    RangeOfGap(text, kept, k, r);
    assert GapStands(out, text, kept, k);
  }

  lemma RangeMoved(out: string, text: string, kept: seq<Link>, k: nat, r: Range)
    requires Spliceable(text, kept) && LaidOut(out, text, kept) && InBounds(r, |text|) && k <= |kept|
    requires GapFrom(kept, k) <= r.start && r.end <= GapEnd(text, kept, k)
    ensures OccursAt(out, text[r.start..r.end], Moved(kept, r.start))
  {
    var gap, low, i, j := GapOfRange(out, text, kept, k, r);
    PartOccursAt(out, gap, low, i, j, text[r.start..r.end], Moved(kept, r.start));
  }

  /** A stretch of the text that no written link overlaps is in the output unchanged, moved by the links before it. */
  lemma UntouchedSurvives(text: string, kept: seq<Link>, r: Range)
    requires Spliceable(text, kept) && InBounds(r, |text|)
    requires forall j :: 0 <= j < |kept| ==> !RangesOverlap(kept[j].Span(), r)
    ensures OccursAt(Output(text, kept), text[r.start..r.end], Moved(kept, r.start))
  {
    OutputIsLaidOut(text, kept);
    var k := RangeInGap(text, kept, r);
    RangeMoved(Output(text, kept), text, kept, k, r);
  }

  lemma {:induction false} KeptAreToWrite(text: string, code: seq<Range>, existing: seq<Range>, links: seq<Link>, l: Link)
    ensures l in Kept(text, code, existing, links) <==> l in links && ToWrite(text, code, existing, l)
  {
    if links != [] {
      var front, last := links[..|links| - 1], links[|links| - 1];
      assert front + [last] == links;
      KeptAreToWrite(text, code, existing, front, l);
    }
  }

  /** Where a detected link is to be written: outside code, apart from every markdown link, and not linked yet. */
  ghost predicate MayBeWritten(sc: Scanners, text: string, l: Link) {
    && (forall r :: r in sc.code(text) ==> !(r.start <= l.start < r.end))
    && (forall r :: r in LinkRanges(text, 0) ==> r.end <= l.start || l.end <= r.start)
    && l.start < l.end <= |text|
    && !Linked(text, l.start, l.end)
  }

  lemma ToWriteWhen(sc: Scanners, text: string, l: Link)
    requires IsSlice(text, l)
    ensures ToWrite(text, sc.code(text), LinkRanges(text, 0), l) <==> MayBeWritten(sc, text, l)
  {
    LinkedAlreadyWhen(text, l.start, l.end);
    LinkRangesApart(text, 0);
    var code, existing := sc.code(text), LinkRanges(text, 0);
    assert IsInsideCode(l.start, code) <==> exists r :: r in code && r.start <= l.start < r.end;
    assert OverlapsAny(l.Span(), existing) <==> exists r :: r in existing && !(r.end <= l.start || l.end <= r.start);
  }

  /**
   What a run writes: exactly the detected links that start outside code, overlap
   no markdown link and are not linked yet; setting them back gives the input; and
   the output holds nothing more.
   */
  lemma OutputEncodesInput(sc: Scanners, text: string)
    requires ValidScanners(sc)
    ensures Erased(text, Written(sc, text)) == text
    ensures forall l :: l in Written(sc, text) <==>
              && (sc.pretest(text) || exists i :: 0 <= i < |text| - 1 && text[i] in "~/." && text[i + 1] == '/')
              && l in Detected(sc, text) && MayBeWritten(sc, text, l)
    ensures |Preprocessed(sc, text)| == |text| + Added(Written(sc, text), |Written(sc, text)|)
  {
    WrittenIsSpliceable(sc, text);
    EraseIsInput(text, Written(sc, text));
    OutputLength(text, Written(sc, text));
    DetectedAreGood(sc, text);
    forall l ensures l in Written(sc, text) <==>
              (sc.pretest(text) || MayHavePath(text)) && l in Detected(sc, text) && MayBeWritten(sc, text, l)
    {
      KeptAreToWrite(text, sc.code(text), LinkRanges(text, 0), Detected(sc, text), l);
      if l in Detected(sc, text) {
        ToWriteWhen(sc, text, l);
      }
    }
  }

  /** The output is longer than the text by what the written links add, and holds nothing else. */
  lemma OutputLength(text: string, kept: seq<Link>)
    requires Spliceable(text, kept)
    ensures |Output(text, kept)| == |text| + Added(kept, |kept|)
  {
    ConcatLength(Pieces(text, kept));
    PiecesLength(text, kept, |kept|);
    if kept != [] {
      LinkBounds(text, kept, |kept| - 1);
    }
  }

  lemma RangesSurvive(sc: Scanners, text: string, i: nat)
    requires ValidScanners(sc) && i < |LinkRanges(text, 0)|
    ensures InBounds(LinkRanges(text, 0)[i], |text|)
    ensures var r := LinkRanges(text, 0)[i];
            OccursAt(Preprocessed(sc, text), text[r.start..r.end], Moved(Written(sc, text), r.start))
  {
    var kept, r := Written(sc, text), LinkRanges(text, 0)[i];
    LinkRangesApart(text, 0);
    assert InBounds(r, |text|);
    WrittenIsSpliceable(sc, text);
    forall j | 0 <= j < |kept| ensures !RangesOverlap(kept[j].Span(), r) {
      KeptAreToWrite(text, sc.code(text), LinkRanges(text, 0), Detected(sc, text), kept[j]);
    }
    UntouchedSurvives(text, kept, r);
  }

  /** A link lies in a range: in its own, or in that of a link that opens before it. */
  lemma LinkInRange(out: string, p: nat, end: nat) returns (r: Range, j: nat)
    requires IsLink(out, p, end)
    ensures r in LinkRanges(out, 0) && IsRangeOf(out, r, j) && j <= p < r.end
  {
    LinkRangesCoverLinks(out, 0, p, end);
    r :| r in LinkRanges(out, 0) && r.start <= p < r.end;
    LinkRangesAreLinks(out, 0, r);
    j :| j < |out| && IsRangeOf(out, r, j);
  }

  /**
   Every markdown link of the input, or a longer one that its label opens in, is in
   the output, character for character, moved by the links written before it.
   */
  lemma ExistingLinksSurvive(sc: Scanners, text: string, j: nat, end: nat) returns (r: Range, i: nat)
    requires ValidScanners(sc) && IsLink(text, j, end)
    ensures r.start <= j < r.end <= |text| && IsRangeOf(text, r, i)
    ensures OccursAt(Preprocessed(sc, text), text[r.start..r.end], Moved(Written(sc, text), r.start))
  {
    r, i := LinkInRange(text, j, end);
    var k: nat :| k < |LinkRanges(text, 0)| && LinkRanges(text, 0)[k] == r;
    RangesSurvive(sc, text, k);
  }

  // ------------------------------------------- written links that are links

  /** Between a pair of brackets `s` neither closes it early nor leaves it open. */
  predicate Closes(s: string, open: char, close: char) {
    && (forall j :: 0 <= j <= |s| ==> Depth(s, open, close, 0, j) >= 0)
    && Depth(s, open, close, 0, |s|) == 0
    && !Escaped(s, |s|)
  }

  /** Inside a part of the output that no backslash precedes, escapes are those of the part. */
  lemma {:induction false} BackslashesWithin(out: string, s: string, q: nat, j: nat)
    requires OccursAt(out, s, q) && j <= |s| && (q == 0 || out[q - 1] != '\\')
    ensures Backslashes(out, q + j) == Backslashes(s, j)
  {
    if j > 0 {
      assert SameChar(out, s, q, j - 1);
      BackslashesWithin(out, s, q, j - 1);
    }
  }

  lemma {:induction false} DepthWithin(out: string, s: string, q: nat, open: char, close: char, j: nat)
    requires OccursAt(out, s, q) && j <= |s| && (q == 0 || out[q - 1] != '\\')
    ensures Depth(out, open, close, q, q + j) == Depth(s, open, close, 0, j)
  {
    if j > 0 {
      assert SameChar(out, s, q, j - 1);
      BackslashesWithin(out, s, q, j - 1);
      DepthWithin(out, s, q, open, close, j - 1);
    }
  }

  lemma {:induction false} DepthSplit(text: string, open: char, close: char, a: nat, b: nat, z: nat)
    requires a <= b <= z <= |text|
    ensures Depth(text, open, close, a, z) == Depth(text, open, close, a, b) + Depth(text, open, close, b, z)
  {
    if b < z {
      DepthSplit(text, open, close, a, b, z - 1);
    }
  }

  /** The depth behind the opening bracket at `p` is one more than that of the part between. */
  lemma DepthBehind(out: string, s: string, p: nat, open: char, close: char, j: nat)
    requires open != close && open != '\\' && p < |out| && out[p] == open && !Escaped(out, p)
    requires OccursAt(out, s, p + 1) && j <= |s|
    ensures Depth(out, open, close, p, p + 1 + j) == 1 + Depth(s, open, close, 0, j)
  {
    DepthWithin(out, s, p + 1, open, close, j);
    DepthSplit(out, open, close, p, p + 1, p + 1 + j);
    assert Depth(out, open, close, p, p + 1) == Depth(out, open, close, p, p) + Delta(out, open, close, p);
  }

  /** An opening bracket finds the closing one behind `s` exactly when `s` closes. */
  lemma MatchBehind(out: string, s: string, p: nat, open: char, close: char)
    requires open != close && open != '\\' && p < |out| && out[p] == open && !Escaped(out, p)
    requires OccursAt(out, s, p + 1) && p + 1 + |s| < |out| && out[p + 1 + |s|] == close
    ensures Match(out, open, close, p, 0) == p + 1 + |s| <==> Closes(s, open, close)
  {
    var r, n := Match(out, open, close, p, 0), p + 1 + |s|;
    MatchIsFirstReturn(out, open, close, p);
    BackslashesWithin(out, s, p + 1, |s|);
    forall j | 0 <= j <= |s| ensures Depth(out, open, close, p, p + 1 + j) == 1 + Depth(s, open, close, 0, j) {
      DepthBehind(out, s, p, open, close, j);
    }
    assert Depth(out, open, close, p, n + 1) == Depth(out, open, close, p, n) + Delta(out, open, close, n);
    if Closes(s, open, close) {
      assert Depth(out, open, close, p, n + 1) == 0;
      forall j | p < j <= n ensures Depth(out, open, close, p, j) > 0 {
        assert Depth(s, open, close, 0, j - p - 1) >= 0 && j == p + 1 + (j - p - 1);
      }
    } else if r == n {
      forall j | 0 <= j <= |s| ensures Depth(s, open, close, 0, j) >= 0 {
        assert Depth(out, open, close, p, p + 1 + j) > 0;
      }
    }
  }

  /** At `p` stands a link with label `t` and destination `u`. */
  predicate IsLinkAt(out: string, p: nat, t: string, u: string) {
    p + 2 + |t| < |out| && out[p + 2 + |t|] == '(' && IsLinkWith(out, p, p + 1 + |t|, p + 4 + |t| + |u|)
  }

  /** The label half: the brackets pair up exactly when the text closes. */
  lemma LabelClosesWhen(out: string, t: string, p: nat)
    requires p + 1 + |t| < |out| && out[p] == '[' && !Escaped(out, p) && out[p + 1 + |t|] == ']' && OccursAt(out, t, p + 1)
    ensures Match(out, '[', ']', p, 0) == p + 1 + |t| <==> Closes(t, '[', ']')
  {
    MatchBehind(out, t, p, '[', ']');
  }

  /** The destination half: behind a bracket, the parentheses pair up exactly when the URL closes. */
  lemma DestinationClosesWhen(out: string, u: string, b: nat)
    requires 0 < b && b + 1 + |u| < |out| && out[b - 1] == ']' && out[b] == '(' && out[b + 1 + |u|] == ')'
    requires OccursAt(out, u, b + 1)
    ensures Match(out, '(', ')', b, 0) == b + 1 + |u| <==> Closes(u, '(', ')')
  {
    assert Backslashes(out, b) == 0;
    MatchBehind(out, u, b, '(', ')');
  }

  /** With brackets where a written link has them, it is a link exactly when both halves pair up. */
  lemma LinkHalves(out: string, t: string, u: string, p: nat)
    requires p + 3 + |t| + |u| < |out| && out[p] == '[' && out[p + 1 + |t|] == ']' && out[p + 2 + |t|] == '('
    ensures IsLinkAt(out, p, t, u) <==>
              !Escaped(out, p) && Match(out, '[', ']', p, 0) == p + 1 + |t|
              && Match(out, '(', ')', p + 2 + |t|, 0) == p + 3 + |t| + |u|
  {
    NextUnescaped(out, p + 1 + |t|);
    MatchWhen(out, '(', ')', p + 2 + |t|, p + 3 + |t| + |u|);
    if !Escaped(out, p) {
      MatchWhen(out, '[', ']', p, p + 1 + |t|);
    }
  }

  lemma PieceIsLinkWhen(out: string, t: string, u: string, p: nat)
    requires OccursAt(out, RenderLink(t, u), p)
    ensures IsLinkAt(out, p, t, u) <==> !Escaped(out, p) && Closes(t, '[', ']') && Closes(u, '(', ')')
  {
    PieceLayout(out, t, u, p);
    LinkHalves(out, t, u, p);
    DestinationClosesWhen(out, u, p + 2 + |t|);
    if !Escaped(out, p) {
      LabelClosesWhen(out, t, p);
    }
  }

  /** Before a slice of the output there is nothing, or no backslash. */
  predicate NoBackslashBefore(out: string, q: nat) {
    q == 0 || (q <= |out| && out[q - 1] != '\\')
  }

  lemma PieceEnds(out: string, t: string, u: string, p: nat, q: nat)
    requires OccursAt(out, RenderLink(t, u), p) && q == p + |t| + |u| + 4
    ensures NoBackslashBefore(out, q)
  {
    PieceLayout(out, t, u, p);
  }

  lemma AfterLink(text: string, kept: seq<Link>, k: nat)
    requires Spliceable(text, kept) && 0 < k <= |kept|
    ensures GapStart(kept, k) == Moved(kept, kept[k - 1].start) + |kept[k - 1].text| + |kept[k - 1].url| + 4
  {
    LinkBounds(text, kept, k - 1);
    MovedBetween(text, kept, k - 1, kept[k - 1].start);
  }

  /** Before a slice stands the end of a written link, if anything. */
  lemma GapStartsFresh(out: string, text: string, kept: seq<Link>, k: nat)
    requires Spliceable(text, kept) && LaidOut(out, text, kept) && k <= |kept|
    ensures NoBackslashBefore(out, GapStart(kept, k))
  {
    if k > 0 {
      AfterLink(text, kept, k);
      assert LinkStands(out, kept, k - 1);
      PieceEnds(out, kept[k - 1].text, kept[k - 1].url, Moved(kept, kept[k - 1].start), GapStart(kept, k));
    }
  }

  lemma EscapedWithin(out: string, gap: string, q: nat, end: nat)
    requires OccursAt(out, gap, q) && NoBackslashBefore(out, q) && end == q + |gap|
    ensures Escaped(out, end) <==> Escaped(gap, |gap|)
  {
    BackslashesWithin(out, gap, q, |gap|);
  }

  /** What stands before a written link escapes it exactly as in the slice of the input before it. */
  lemma EscapedBefore(out: string, text: string, kept: seq<Link>, k: nat)
    requires Spliceable(text, kept) && LaidOut(out, text, kept) && k < |kept|
    ensures Moved(kept, kept[k].start) <= |out|
    ensures Escaped(out, Moved(kept, kept[k].start)) <==> Escaped(Gap(text, kept, k), |Gap(text, kept, k)|)
  {
    GapLength(text, kept, k);
    GapStartsFresh(out, text, kept, k);
    assert GapStands(out, text, kept, k);
    EscapedWithin(out, Gap(text, kept, k), GapStart(kept, k), Moved(kept, kept[k].start));
  }

  lemma LinkIsLinkWhen(out: string, text: string, kept: seq<Link>, k: nat)
    requires Spliceable(text, kept) && LaidOut(out, text, kept) && k < |kept|
    ensures IsLinkAt(out, Moved(kept, kept[k].start), kept[k].text, kept[k].url) <==>
              && !Escaped(Gap(text, kept, k), |Gap(text, kept, k)|)
              && Closes(kept[k].text, '[', ']') && Closes(kept[k].url, '(', ')')
  {
    assert LinkStands(out, kept, k);
    EscapedBefore(out, text, kept, k);
    PieceIsLinkWhen(out, kept[k].text, kept[k].url, Moved(kept, kept[k].start));
  }

  /**
   A written link is a link of the output, with its own label and destination, if
   and only if an even number of backslashes stands before it, its text closes
   between square brackets and its URL between round ones.
   */
  lemma WrittenLinkIsLinkWhen(text: string, kept: seq<Link>, k: nat)
    requires Spliceable(text, kept) && k < |kept|
    ensures IsLinkAt(Output(text, kept), Moved(kept, kept[k].start), kept[k].text, kept[k].url) <==>
              && !Escaped(Gap(text, kept, k), |Gap(text, kept, k)|)
              && Closes(kept[k].text, '[', ']') && Closes(kept[k].url, '(', ')')
  {
    OutputIsLaidOut(text, kept);
    LinkIsLinkWhen(Output(text, kept), text, kept, k);
  }

  /** Such a link is one of the link ranges, unless a link that opens before it reaches over it. */
  lemma LinkIsRangeUnless(out: string, p: nat, t: string, u: string)
    requires IsLinkAt(out, p, t, u)
    ensures (exists r :: r in LinkRanges(out, 0) && IsRangeOf(out, r, p) && r.end == p + 4 + |t| + |u|)
            || exists j: nat, end: nat :: j < p < end && IsLink(out, j, end)
  {
    assert IsLink(out, p, p + 4 + |t| + |u|);
    var r, j := LinkInRange(out, p, p + 4 + |t| + |u|);
    if j == p {
      LinkEndIsOne(out, p, r.end, p + 4 + |t| + |u|);
    }
  }

  lemma {:induction false} NoLabelNoRange(text: string, i: nat)
    requires i <= |text| && forall j :: i <= j < |text| ==> !OpensLabel(text, j)
    ensures LinkRanges(text, i) == []
    decreases |text| - i
  {
    if i < |text| {
      NoLabelNoRange(text, i + 1);
    }
  }

  lemma EscapedLinkOutput(text: string, link: Link)
    requires link.start == 1 && link.end == |text| && text != "" && text[0] == '\\'
    ensures Output(text, [link]) == "\\" + RenderLink(link.text, link.url)
  {
    var piece := RenderLink(link.text, link.url);
    assert Slice(text, 0, 1) == "\\" && Pieces(text, [link]) == ["\\" + piece];
    ConcatSnoc([], "\\" + piece);
    assert [] + ["\\" + piece] == ["\\" + piece] && "" + ("\\" + piece) == "\\" + piece;
    NothingBehind("\\" + piece);
  }

  lemma EscapedOpensNothing(t: string, u: string)
    requires '[' !in t && '[' !in u
    ensures LinkRanges("\\" + RenderLink(t, u), 0) == []
  {
    var piece := RenderLink(t, u);
    var out := "\\" + piece;
    assert Backslashes(out, 0) == 0 && Backslashes(out, 1) == 1;
    forall j | 1 <= j < |piece| ensures piece[j] != '[' {
      assert piece == "[" + t + "](" + u + ")";
      assert piece[j] in t || piece[j] in u || piece[j] in "]()";
    }
    NoLabelNoRange(out, 0);
  }

  /**
   Behind a backslash the written link is none: a URL without brackets, as in
   `\http://a.com`, leaves an output with no link at all.
   */
  lemma EscapedLinkIsNone(link: Link, u: string)
    requires u != "" && '[' !in u
    requires link.text == link.url == u && link.start == 1 && link.end == 1 + |u|
    ensures Spliceable("\\" + u, [link])
    ensures LinkRanges(Output("\\" + u, [link]), 0) == []
  {
    assert ("\\" + u)[1..1 + |u|] == u;
    EscapedLinkOutput("\\" + u, link);
    EscapedOpensNothing(u, u);
  }
}
