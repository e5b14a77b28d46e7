/**
 Finding raw URLs, e-mail addresses and file paths in text
 (packages/ui/markdown/linkify.ts:24-33 and 203-288).

 The third-party URL scanner, the file-path pattern and the code-span patterns
 enter as functions; what is asked of the first two is `ValidScanners`.
 */
module LinkDetection {
  import opened LinkBrackets
  import opened Sorting

  datatype LinkKind = Url | Email | File

  datatype Link = Link(kind: LinkKind, text: string, url: string, start: nat, end: nat) {
    function Span(): Range { Range(start, end) }
  }

  /** One match of the URL scanner. */
  datatype UrlMatch = UrlMatch(schema: string, text: string, url: string, index: nat, lastIndex: nat)

  /** One match of the file-path pattern and the path it captured. */
  datatype PathMatch = PathMatch(full: string, path: string, index: nat)

  datatype Scanners = Scanners(
    pretest: string -> bool,
    urls: string -> seq<UrlMatch>,
    paths: string -> seq<PathMatch>,
    code: string -> seq<Range>)

  predicate EndsWith(s: string, tail: string) {
    |tail| <= |s| && s[|s| - |tail|..] == tail
  }

  /** A URL match is a nonempty slice behind the match before it; `url` is `text` with a scheme before it. */
  predicate ValidUrl(text: string, ms: seq<UrlMatch>, k: nat)
    requires k < |ms|
  {
    var m := ms[k];
    && (if k == 0 then 0 else ms[k - 1].lastIndex) <= m.index < m.lastIndex <= |text|
    && m.text == text[m.index..m.lastIndex]
    && EndsWith(m.url, m.text)
  }

  predicate ValidUrls(text: string, ms: seq<UrlMatch>) {
    forall k :: 0 <= k < |ms| ==> ValidUrl(text, ms, k)
  }

  predicate SameChar(s: string, part: string, i: nat, k: nat)
    requires i + |part| <= |s| && k < |part|
  {
    s[i + k] == part[k]
  }

  predicate OccursAt(s: string, part: string, i: nat) {
    i + |part| <= |s| && forall k :: 0 <= k < |part| ==> SameChar(s, part, i, k)
  }

  lemma OccursSlice(s: string, part: string, i: nat)
    ensures OccursAt(s, part, i) <==> i + |part| <= |s| && s[i..i + |part|] == part
  {
    if i + |part| <= |s| {
      if OccursAt(s, part, i) {
        forall k | 0 <= k < |part| ensures s[i..i + |part|][k] == part[k] {
          assert SameChar(s, part, i, k);
        }
      } else {
        var k: nat :| k < |part| && !SameChar(s, part, i, k);
        assert s[i..i + |part|][k] != part[k];
      }
    }
  }

  ghost predicate Contains(s: string, part: string) {
    exists i: nat :: OccursAt(s, part, i)
  }

  lemma PartOccurs(out: string, whole: string, p: nat, i: nat, j: nat)
    requires OccursAt(out, whole, p) && i <= j <= |whole|
    ensures OccursAt(out, whole[i..j], p + i)
  {
    var part, at := whole[i..j], p + i;
    forall k | 0 <= k < j - i ensures SameChar(out, part, at, k) {
      assert SameChar(out, whole, p, i + k);
    }
  }

  /** A path match is a slice of the text and contains the path it captured. */
  ghost predicate ValidPath(text: string, m: PathMatch) {
    OccursAt(text, m.full, m.index) && Contains(m.full, m.path)
  }

  ghost predicate ValidPaths(text: string, ms: seq<PathMatch>) {
    forall k :: 0 <= k < |ms| ==> ValidPath(text, ms[k])
  }

  ghost predicate ValidUrlScanner(urls: string -> seq<UrlMatch>) {
    forall text :: ValidUrls(text, urls(text))
  }

  ghost predicate ValidScanners(sc: Scanners) {
    ValidUrlScanner(sc.urls) && forall text :: ValidPaths(text, sc.paths(text))
  }

  // ------------------------------------------------ URLs and CJK boundaries

  /** The full-width punctuation that ends a URL. */
  predicate IsCjkTerminator(c: char) {
    var n := c as int;
    || 0xFF01 <= n <= 0xFF0F || 0xFF1A <= n <= 0xFF20 || 0xFF3B <= n <= 0xFF40 || 0xFF5B <= n <= 0xFF5E
    || n == 0x3001 || n == 0x3002 || 0x300C <= n <= 0x3011
  }

  /** `search`: the first terminator, or -1. */
  function TerminatorIndex(s: string): (r: int)
    ensures -1 <= r < |s|
  {
    if s == "" then -1
    else if IsCjkTerminator(s[0]) then 0
    else
      var r := TerminatorIndex(s[1..]);
      if r == -1 then -1 else r + 1
  }

  lemma {:induction false} TerminatorIndexIsFirst(s: string)
    ensures var r := TerminatorIndex(s);
            && (r >= 0 ==> IsCjkTerminator(s[r]))
            && forall i :: 0 <= i < (if r == -1 then |s| else r) ==> !IsCjkTerminator(s[i])
  {
    if s != "" && !IsCjkTerminator(s[0]) {
      TerminatorIndexIsFirst(s[1..]);
    }
  }

  /** The link for match `m`, kept up to the terminator at `cut` when there is one. */
  function LinkOf(m: UrlMatch, cut: int, offset: nat): Link
    requires -1 <= cut < |m.text| <= |m.url|
  {
    var kind := if m.schema == "mailto:" then Email else Url;
    if cut > 0 then
      Link(kind, m.text[..cut], m.url[..|m.url| - |m.text|] + m.text[..cut], m.index + offset, m.index + cut + offset)
    else
      Link(kind, m.text, m.url, m.index + offset, m.lastIndex + offset)
  }

  /** The links of `text` from its match number `k` on; a cut match has its tail scanned again. */
  ghost function Collect(urls: string -> seq<UrlMatch>, text: string, offset: nat, k: nat): seq<Link>
    requires ValidUrlScanner(urls) && k <= |urls(text)|
    decreases |text|, |urls(text)| - k
  {
    var ms := urls(text);
    if k == |ms| then []
    else
      var cut := TerminatorIndex(ms[k].text);
      assert ValidUrls(text, ms) && ValidUrl(text, ms, k);
      if cut == 0 then Collect(urls, text, offset, k + 1)
      else if cut == -1 then [LinkOf(ms[k], cut, offset)] + Collect(urls, text, offset, k + 1)
      else
        var tail := ms[k].index + cut + 1;
        [LinkOf(ms[k], cut, offset)] + Collect(urls, text[tail..], offset + tail, 0)
  }

  /** The list that the scan pushes into. */
  class LinkList {
    var items: seq<Link>

    constructor ()
      ensures items == []
    {
      items := [];
    }
  }

  /** Moving the first link of the rest to the end of what is there already. */
  lemma PushFirst(done: seq<Link>, link: Link, rest: seq<Link>)
    ensures done + ([link] + rest) == (done + [link]) + rest
  {
  }

  method CollectLinkifyMatches(urls: string -> seq<UrlMatch>, text: string, offset: nat, out: LinkList)
    requires ValidUrlScanner(urls)
    modifies out
    ensures out.items == old(out.items) + Collect(urls, text, offset, 0)
    decreases |text|
  {
    var matches := urls(text);
    assert ValidUrls(text, matches);
    ghost var goal := old(out.items) + Collect(urls, text, offset, 0);
    for k := 0 to |matches|
      invariant out.items + Collect(urls, text, offset, k) == goal
    {
      assert ValidUrl(text, matches, k);
      var m := matches[k];
      var cjkIdx := TerminatorIndex(m.text);
      if cjkIdx != 0 {
        var link := LinkOf(m, cjkIdx, offset);
        PushFirst(out.items, link, Collect(urls, text, offset, k)[1..]);
        out.items := out.items + [link];
        if cjkIdx > 0 {
          var tailStart := m.index + cjkIdx + 1;
          CollectLinkifyMatches(urls, text[tailStart..], offset + tailStart, out);
          return;
        }
      }
    }
  }

  // ------------------------------------------------------ what links are like

  /** A link is a nonempty slice of the text it was found in. */
  predicate IsSlice(text: string, link: Link) {
    link.start < link.end <= |text| && link.text == text[link.start..link.end]
  }

  predicate InOrder(links: seq<Link>) {
    forall j, k :: 0 <= j < k < |links| ==> links[j].end <= links[k].start
  }

  /** No terminator in the text, and a URL that ends with it. */
  predicate CleanUrl(link: Link) {
    EndsWith(link.url, link.text) && forall i :: 0 <= i < |link.text| ==> !IsCjkTerminator(link.text[i])
  }

  predicate GoodUrls(text: string, links: seq<Link>, low: nat) {
    && (forall k :: 0 <= k < |links| ==> low <= links[k].start && IsSlice(text, links[k]) && CleanUrl(links[k]))
    && InOrder(links)
  }

  lemma CutSlice(text: string, from: nat, i: nat, j: nat, k: nat)
    requires from + j <= |text| && i <= i + k <= j
    ensures text[from..][i..j][..k] == text[from + i..from + i + k]
  {
    var part := text[from..][i..j];
    forall x | 0 <= x < k ensures part[x] == text[from + i + x] {
      assert part[x] == text[from..][i + x];
    }
  }

  lemma LinkOfIsGood(text: string, offset: nat, m: UrlMatch)
    requires offset <= |text| && m.index < m.lastIndex <= |text| - offset
    requires m.text == text[offset..][m.index..m.lastIndex] && EndsWith(m.url, m.text)
    requires TerminatorIndex(m.text) != 0
    ensures var l := LinkOf(m, TerminatorIndex(m.text), offset);
            && IsSlice(text, l) && CleanUrl(l) && l.start == m.index + offset
            && l.end == offset + if TerminatorIndex(m.text) == -1 then m.lastIndex else m.index + TerminatorIndex(m.text)
  {
    var cut := TerminatorIndex(m.text);
    TerminatorIndexIsFirst(m.text);
    if cut > 0 {
      CutSlice(text, offset, m.index, m.lastIndex, cut);
    } else {
      CutSlice(text, offset, m.index, m.lastIndex, |m.text|);
      assert m.text[..|m.text|] == m.text;
    }
  }

  lemma GoodUrlsCons(text: string, link: Link, rest: seq<Link>, low: nat, next: nat)
    requires GoodUrls(text, rest, next) && link.end <= next
    requires low <= link.start && IsSlice(text, link) && CleanUrl(link)
    ensures GoodUrls(text, [link] + rest, low)
  {
  }

  lemma GoodUrlsLower(text: string, links: seq<Link>, low: nat, lower: nat)
    requires GoodUrls(text, links, low) && lower <= low
    ensures GoodUrls(text, links, lower)
  {
  }

  /** From where in the whole text the matches from number `k` on come. */
  function CollectFrom(ms: seq<UrlMatch>, offset: nat, k: nat): nat
    requires k <= |ms|
  {
    offset + if k == 0 then 0 else ms[k - 1].lastIndex
  }

  /** The link of one match, whether cut or whole. */
  lemma CollectLink(urls: string -> seq<UrlMatch>, text: string, offset: nat, k: nat)
    requires offset <= |text| && ValidUrls(text[offset..], urls(text[offset..])) && k < |urls(text[offset..])|
    requires TerminatorIndex(urls(text[offset..])[k].text) != 0
    ensures var ms := urls(text[offset..]);
            var cut := TerminatorIndex(ms[k].text);
            var tail := ms[k].index + cut + 1;
            && EndsWith(ms[k].url, ms[k].text)
            && var link := LinkOf(ms[k], cut, offset);
            && IsSlice(text, link) && CleanUrl(link) && CollectFrom(ms, offset, k) <= link.start
            && (cut == -1 ==> link.end == CollectFrom(ms, offset, k + 1))
            && (cut > 0 ==> link.end < offset + tail <= |text| && text[offset..][tail..] == text[offset + tail..])
  {
    var ms := urls(text[offset..]);
    assert ValidUrl(text[offset..], ms, k);
    LinkOfIsGood(text, offset, ms[k]);
  }

  /** A match's link goes in front of what comes of the rest. */
  lemma CollectCons(urls: string -> seq<UrlMatch>, text: string, offset: nat, k: nat, rest: seq<Link>)
    requires offset <= |text| && ValidUrls(text[offset..], urls(text[offset..])) && k < |urls(text[offset..])|
    requires var ms := urls(text[offset..]);
             var cut := TerminatorIndex(ms[k].text);
             cut != 0 && GoodUrls(text, rest, if cut == -1 then CollectFrom(ms, offset, k + 1) else offset + ms[k].index + cut + 1)
    ensures var ms := urls(text[offset..]);
            var cut := TerminatorIndex(ms[k].text);
            && EndsWith(ms[k].url, ms[k].text)
            && GoodUrls(text, [LinkOf(ms[k], cut, offset)] + rest, CollectFrom(ms, offset, k))
  {
    var ms := urls(text[offset..]);
    var cut := TerminatorIndex(ms[k].text);
    CollectLink(urls, text, offset, k);
    var next := if cut == -1 then CollectFrom(ms, offset, k + 1) else offset + ms[k].index + cut + 1;
    GoodUrlsCons(text, LinkOf(ms[k], cut, offset), rest, CollectFrom(ms, offset, k), next);
  }

  lemma CollectWhole(urls: string -> seq<UrlMatch>, part: string, offset: nat, k: nat)
    requires ValidUrlScanner(urls) && k < |urls(part)| && ValidUrl(part, urls(part), k)
    requires TerminatorIndex(urls(part)[k].text) == -1
    ensures Collect(urls, part, offset, k) == [LinkOf(urls(part)[k], -1, offset)] + Collect(urls, part, offset, k + 1)
  {
  }

  lemma CollectCut(urls: string -> seq<UrlMatch>, part: string, offset: nat, k: nat)
    requires ValidUrlScanner(urls) && k < |urls(part)| && ValidUrl(part, urls(part), k)
    requires TerminatorIndex(urls(part)[k].text) > 0
    ensures var cut := TerminatorIndex(urls(part)[k].text);
            var tail := urls(part)[k].index + cut + 1;
            && tail <= |part|
            && Collect(urls, part, offset, k) == [LinkOf(urls(part)[k], cut, offset)] + Collect(urls, part[tail..], offset + tail, 0)
  {
  }

  /** A match that begins with a terminator gives no link. */
  lemma SkippedGood(urls: string -> seq<UrlMatch>, text: string, offset: nat, k: nat, part: string, rest: seq<Link>)
    requires ValidUrlScanner(urls) && offset <= |text| && part == text[offset..] && k < |urls(part)|
    requires ValidUrl(part, urls(part), k) && TerminatorIndex(urls(part)[k].text) == 0
    requires rest == Collect(urls, part, offset, k + 1) && GoodUrls(text, rest, CollectFrom(urls(part), offset, k + 1))
    ensures GoodUrls(text, Collect(urls, part, offset, k), CollectFrom(urls(part), offset, k))
  {
    assert Collect(urls, part, offset, k) == rest;
    GoodUrlsLower(text, rest, CollectFrom(urls(part), offset, k + 1), CollectFrom(urls(part), offset, k));
  }

  /** A match without a terminator is a link in front of what comes of the next matches. */
  lemma WholeGood(urls: string -> seq<UrlMatch>, text: string, offset: nat, k: nat, part: string, rest: seq<Link>)
    requires ValidUrlScanner(urls) && offset <= |text| && part == text[offset..] && k < |urls(part)|
    requires ValidUrls(part, urls(part)) && ValidUrl(part, urls(part), k) && TerminatorIndex(urls(part)[k].text) == -1
    requires rest == Collect(urls, part, offset, k + 1) && GoodUrls(text, rest, CollectFrom(urls(part), offset, k + 1))
    ensures GoodUrls(text, Collect(urls, part, offset, k), CollectFrom(urls(part), offset, k))
  {
    CollectWhole(urls, part, offset, k);
    CollectCons(urls, text, offset, k, rest);
  }

  /** A match that is cut is a link in front of what comes of the tail. */
  lemma CutGood(urls: string -> seq<UrlMatch>, text: string, offset: nat, k: nat, part: string, tail: nat, rest: seq<Link>)
    requires ValidUrlScanner(urls) && offset <= |text| && part == text[offset..] && k < |urls(part)|
    requires ValidUrls(part, urls(part)) && ValidUrl(part, urls(part), k) && TerminatorIndex(urls(part)[k].text) > 0
    requires tail == urls(part)[k].index + TerminatorIndex(urls(part)[k].text) + 1
    requires rest == Collect(urls, part[tail..], offset + tail, 0) && GoodUrls(text, rest, offset + tail)
    ensures GoodUrls(text, Collect(urls, part, offset, k), CollectFrom(urls(part), offset, k))
  {
    var link := LinkOf(urls(part)[k], TerminatorIndex(urls(part)[k].text), offset);
    assert Collect(urls, part, offset, k) == [link] + rest by {
      CollectCut(urls, part, offset, k);
    }
    CollectCons(urls, text, offset, k, rest);
  }

  lemma {:induction false} CollectGood(urls: string -> seq<UrlMatch>, text: string, offset: nat, k: nat)
    requires ValidUrlScanner(urls) && offset <= |text| && k <= |urls(text[offset..])|
    ensures GoodUrls(text, Collect(urls, text[offset..], offset, k), CollectFrom(urls(text[offset..]), offset, k))
    decreases |text| - offset, |urls(text[offset..])| - k
  {
    var part := text[offset..];
    var ms := urls(part);
    if k < |ms| {
      assert ValidUrls(part, ms) && ValidUrl(part, ms, k);
      var cut := TerminatorIndex(ms[k].text);
      if cut > 0 {
        var tail := ms[k].index + cut + 1;
        assert part[tail..] == text[offset + tail..];
        CollectGood(urls, text, offset + tail, 0);
        CutGood(urls, text, offset, k, part, tail, Collect(urls, part[tail..], offset + tail, 0));
      } else {
        CollectGood(urls, text, offset, k + 1);
        if cut == 0 {
          SkippedGood(urls, text, offset, k, part, Collect(urls, part, offset, k + 1));
        } else {
          WholeGood(urls, text, offset, k, part, Collect(urls, part, offset, k + 1));
        }
      }
    }
  }

  predicate NoCutBetween(ms: seq<UrlMatch>, k: nat, j: nat)
    requires j <= |ms|
  {
    forall i :: k <= i < j ==> TerminatorIndex(ms[i].text) <= 0
  }

  /** Up to the first match that is cut, what comes from a later match on is part of the whole. */
  lemma {:induction false} CollectReaches(urls: string -> seq<UrlMatch>, text: string, offset: nat, k: nat, j: nat, l: Link)
    requires ValidUrlScanner(urls) && k <= j <= |urls(text)| && NoCutBetween(urls(text), k, j)
    requires l in Collect(urls, text, offset, j)
    ensures l in Collect(urls, text, offset, k)
    decreases j - k
  {
    if k < j {
      CollectReaches(urls, text, offset, k + 1, j, l);
      assert ValidUrls(text, urls(text)) && ValidUrl(text, urls(text), k);
      if TerminatorIndex(urls(text)[k].text) == -1 {
        CollectWhole(urls, text, offset, k);
      }
    }
  }

  lemma EmitsLink(urls: string -> seq<UrlMatch>, text: string, offset: nat, j: nat)
    requires ValidUrlScanner(urls) && j < |urls(text)| && ValidUrl(text, urls(text), j)
    requires TerminatorIndex(urls(text)[j].text) != 0
    ensures LinkOf(urls(text)[j], TerminatorIndex(urls(text)[j].text), offset) in Collect(urls, text, offset, j)
  {
    if TerminatorIndex(urls(text)[j].text) == -1 {
      CollectWhole(urls, text, offset, j);
    } else {
      CollectCut(urls, text, offset, j);
    }
  }

  lemma EmitsTail(urls: string -> seq<UrlMatch>, text: string, offset: nat, j: nat, tail: nat, l: Link)
    requires ValidUrlScanner(urls) && j < |urls(text)| && ValidUrl(text, urls(text), j)
    requires TerminatorIndex(urls(text)[j].text) > 0
    requires tail == urls(text)[j].index + TerminatorIndex(urls(text)[j].text) + 1 <= |text|
    requires l in Collect(urls, text[tail..], offset + tail, 0)
    ensures l in Collect(urls, text, offset, j)
  {
    CollectCut(urls, text, offset, j);
  }

  /**
   A link for the match: its text up to the first terminator, or all of it, at the
   same place of the whole text, with the same scheme before it in the URL.
   */
  predicate IsLinkOf(m: UrlMatch, offset: nat, l: Link) {
    && l.kind == (if m.schema == "mailto:" then Email else Url)
    && l.start == m.index + offset && l.end == l.start + |l.text|
    && l.text <= m.text && (forall i :: 0 <= i < |l.text| ==> !IsCjkTerminator(m.text[i]))
    && (|l.text| < |m.text| ==> IsCjkTerminator(m.text[|l.text|]))
    && EndsWith(m.url, m.text) && l.url == m.url[..|m.url| - |m.text|] + l.text
  }

  lemma LinkOfIs(m: UrlMatch, offset: nat)
    requires EndsWith(m.url, m.text) && m.lastIndex == m.index + |m.text| && TerminatorIndex(m.text) != 0
    ensures IsLinkOf(m, offset, LinkOf(m, TerminatorIndex(m.text), offset))
  {
    TerminatorIndexIsFirst(m.text);
    if TerminatorIndex(m.text) == -1 {
      assert m.url == m.url[..|m.url| - |m.text|] + m.text;
    }
  }

  lemma LinkEmitted(urls: string -> seq<UrlMatch>, text: string, offset: nat, k: nat, j: nat)
    requires ValidUrlScanner(urls) && k <= j < |urls(text)| && NoCutBetween(urls(text), k, j) && ValidUrl(text, urls(text), j)
    requires TerminatorIndex(urls(text)[j].text) != 0
    ensures exists l :: l in Collect(urls, text, offset, k) && IsLinkOf(urls(text)[j], offset, l)
  {
    EmitsLink(urls, text, offset, j);
    LinkOfIs(urls(text)[j], offset);
    CollectReaches(urls, text, offset, k, j, LinkOf(urls(text)[j], TerminatorIndex(urls(text)[j].text), offset));
  }

  lemma TailEmitted(urls: string -> seq<UrlMatch>, text: string, offset: nat, k: nat, j: nat, tail: nat)
    requires ValidUrlScanner(urls) && k <= j < |urls(text)| && NoCutBetween(urls(text), k, j) && ValidUrl(text, urls(text), j)
    requires TerminatorIndex(urls(text)[j].text) > 0
    requires tail == urls(text)[j].index + TerminatorIndex(urls(text)[j].text) + 1 <= |text|
    ensures forall l :: l in Collect(urls, text[tail..], offset + tail, 0) ==> l in Collect(urls, text, offset, k)
  {
    forall l | l in Collect(urls, text[tail..], offset + tail, 0) ensures l in Collect(urls, text, offset, k) {
      EmitsTail(urls, text, offset, j, tail, l);
      CollectReaches(urls, text, offset, k, j, l);
    }
  }

  /**
   No match is lost: up to the first one that is cut, every match that does not
   begin with a terminator is emitted, and behind a cut so is everything that a
   new scan of the tail finds.
   */
  lemma CollectEmits(urls: string -> seq<UrlMatch>, text: string, offset: nat, k: nat, j: nat)
    requires ValidUrlScanner(urls) && k <= j < |urls(text)| && NoCutBetween(urls(text), k, j)
    ensures var m := urls(text)[j];
            var cut := TerminatorIndex(m.text);
            && ValidUrls(text, urls(text)) && ValidUrl(text, urls(text), j)
            && (cut != 0 ==> exists l :: l in Collect(urls, text, offset, k) && IsLinkOf(m, offset, l))
            && (cut > 0 ==> var tail := m.index + cut + 1;
                            forall l :: l in Collect(urls, text[tail..], offset + tail, 0) ==>
                                          l in Collect(urls, text, offset, k))
  {
    assert ValidUrls(text, urls(text)) && ValidUrl(text, urls(text), j);
    var cut := TerminatorIndex(urls(text)[j].text);
    if cut != 0 {
      LinkEmitted(urls, text, offset, k, j);
    }
    if cut > 0 {
      TailEmitted(urls, text, offset, k, j, urls(text)[j].index + cut + 1);
    }
  }

  // ------------------------------------------------------------- file paths

  /** `indexOf`: the first occurrence at `from` or behind it, or -1. */
  function IndexOf(s: string, part: string, from: nat): (i: int)
    requires from <= |s|
    ensures i == -1 || (from <= i && OccursAt(s, part, i))
    ensures forall j: nat :: from <= j < (if i == -1 then |s| + 1 else i) ==> !OccursAt(s, part, j)
    decreases |s| - from
  {
    if OccursAt(s, part, from) then from
    else if from == |s| then -1
    else IndexOf(s, part, from + 1)
  }

  function PathLink(m: PathMatch): Link
    requires Contains(m.full, m.path)
  {
    var start := m.index + IndexOf(m.full, m.path, 0);
    Link(File, m.path, m.path, start, start + |m.path|)
  }

  predicate Covered(link: Link, links: seq<Link>) {
    exists k :: 0 <= k < |links| && RangesOverlap(link.Span(), links[k].Span())
  }

  /** The links after the first `n` path matches: a path over a link already there is dropped. */
  ghost function WithPaths(text: string, links: seq<Link>, ms: seq<PathMatch>, n: nat): seq<Link>
    requires n <= |ms| && ValidPaths(text, ms)
  {
    if n == 0 then links
    else
      var before := WithPaths(text, links, ms, n - 1);
      assert ValidPath(text, ms[n - 1]);
      if ms[n - 1].path == "" || Covered(PathLink(ms[n - 1]), before) then before
      else before + [PathLink(ms[n - 1])]
  }

  const START: Link -> int := (link: Link) => link.start

  ghost function Detected(sc: Scanners, text: string): seq<Link>
    requires ValidScanners(sc)
  {
    assert ValidPaths(text, sc.paths(text));
    StableSort(WithPaths(text, Collect(sc.urls, text, 0, 0), sc.paths(text), |sc.paths(text)|), START)
  }

  method AddFilePaths(text: string, fileMatches: seq<PathMatch>, urlLinks: seq<Link>) returns (links: seq<Link>)
    requires ValidPaths(text, fileMatches)
    ensures links == WithPaths(text, urlLinks, fileMatches, |fileMatches|)
  {
    links := urlLinks;
    for n := 0 to |fileMatches|
      invariant links == WithPaths(text, urlLinks, fileMatches, n)
    {
      assert ValidPath(text, fileMatches[n]);
      if fileMatches[n].path != "" {
        var link := PathLink(fileMatches[n]);
        if !Covered(link, links) {
          links := links + [link];
        }
      }
    }
  }

  method DetectLinks(sc: Scanners, text: string) returns (links: seq<Link>)
    requires ValidScanners(sc)
    ensures links == Detected(sc, text)
  {
    var out := new LinkList();
    CollectLinkifyMatches(sc.urls, text, 0, out);
    assert out.items == Collect(sc.urls, text, 0, 0);
    assert ValidPaths(text, sc.paths(text));
    links := AddFilePaths(text, sc.paths(text), out.items);
    links := StableSort(links, START);
  }

  /** Nonempty slices, no two of which overlap. */
  predicate Separate(text: string, links: seq<Link>) {
    && (forall k :: 0 <= k < |links| ==> IsSlice(text, links[k]))
    && (forall j, k :: 0 <= j < k < |links| ==> !RangesOverlap(links[j].Span(), links[k].Span()))
  }

  predicate UrlsClean(links: seq<Link>) {
    forall k :: 0 <= k < |links| ==> links[k].kind == File || CleanUrl(links[k])
  }

  lemma PathLinkIsSlice(text: string, m: PathMatch)
    requires ValidPath(text, m) && m.path != ""
    ensures IsSlice(text, PathLink(m))
  {
    var i := IndexOf(m.full, m.path, 0);
    OccursSlice(m.full, m.path, i);
    PartOccurs(text, m.full, m.index, i, i + |m.path|);
    OccursSlice(text, m.path, m.index + i);
  }

  lemma AddSeparate(text: string, links: seq<Link>, link: Link)
    requires Separate(text, links) && IsSlice(text, link) && !Covered(link, links)
    ensures Separate(text, links + [link])
  {
  }

  lemma {:induction false} WithPathsSeparate(text: string, links: seq<Link>, ms: seq<PathMatch>, n: nat)
    requires ValidPaths(text, ms) && n <= |ms| && Separate(text, links) && UrlsClean(links)
    ensures Separate(text, WithPaths(text, links, ms, n)) && UrlsClean(WithPaths(text, links, ms, n))
  {
    if n > 0 {
      WithPathsSeparate(text, links, ms, n - 1);
      var m := ms[n - 1];
      assert ValidPath(text, m);
      var before := WithPaths(text, links, ms, n - 1);
      if m.path != "" && !Covered(PathLink(m), before) {
        PathLinkIsSlice(text, m);
        AddSeparate(text, before, PathLink(m));
      }
    }
  }

  /** In order, and the next one apart from each. */
  predicate FitsInto(links: seq<Link>, link: Link) {
    && InOrder(links) && link.start < link.end
    && forall k :: 0 <= k < |links| ==> links[k].start < links[k].end && !RangesOverlap(link.Span(), links[k].Span())
  }

  lemma {:induction false} InsertInOrder(links: seq<Link>, link: Link)
    requires FitsInto(links, link)
    ensures InOrder(Insert(links, link, START))
    ensures forall l :: l in Insert(links, link, START) <==> l in links || l == link
  {
    InsertPermutes(links, link, START);
    if links != [] && link.start < links[|links| - 1].start {
      var front, last := links[..|links| - 1], links[|links| - 1];
      InsertInOrder(front, link);
      EndBefore(links, link);
      var r := Insert(front, link, START);
      forall j | 0 <= j < |r| ensures r[j].end <= last.start {
        assert r[j] in r;
      }
    }
  }

  /** The last of the links begins where all others, and a link that begins before it, have ended. */
  lemma EndBefore(links: seq<Link>, link: Link)
    requires links != [] && FitsInto(links, link) && link.start < links[|links| - 1].start
    ensures forall l :: l in links[..|links| - 1] || l == link ==> l.end <= links[|links| - 1].start
  {
  }

  lemma {:induction false} SortInOrder(text: string, links: seq<Link>)
    requires Separate(text, links)
    ensures InOrder(StableSort(links, START))
    ensures forall l :: l in StableSort(links, START) <==> l in links
  {
    SortAscending(links, START);
    if links != [] {
      var front, last := links[..|links| - 1], links[|links| - 1];
      SortInOrder(text, front);
      var sorted := StableSort(front, START);
      forall k | 0 <= k < |sorted| ensures IsSlice(text, sorted[k]) && !RangesOverlap(last.Span(), sorted[k].Span()) {
        assert sorted[k] in sorted;
      }
      InsertInOrder(sorted, last);
    }
  }

  predicate GoodLinks(text: string, links: seq<Link>) {
    && (forall k :: 0 <= k < |links| ==> IsSlice(text, links[k]))
    && InOrder(links)
    && UrlsClean(links)
  }

  /**
   Detected links are in order and disjoint, each is the slice of the original
   text at its offsets, and no URL runs over full-width punctuation.
   */
  lemma DetectedAreGood(sc: Scanners, text: string)
    requires ValidScanners(sc)
    ensures GoodLinks(text, Detected(sc, text))
  {
    assert text[0..] == text;
    CollectGood(sc.urls, text, 0, 0);
    var urls := Collect(sc.urls, text, 0, 0);
    var ms := sc.paths(text);
    assert ValidPaths(text, ms);
    WithPathsSeparate(text, urls, ms, |ms|);
    var all := WithPaths(text, urls, ms, |ms|);
    SortInOrder(text, all);
    var links := Detected(sc, text);
    forall k | 0 <= k < |links| ensures IsSlice(text, links[k]) && (links[k].kind == File || CleanUrl(links[k])) {
      assert links[k] in links;
    }
  }

  /** The path is among the links, or gave way to one of them. */
  ghost predicate Considered(text: string, m: PathMatch, links: seq<Link>)
    requires ValidPath(text, m)
  {
    m.path != "" ==> PathLink(m) in links || Covered(PathLink(m), links)
  }

  lemma ConsideredGrows(text: string, m: PathMatch, links: seq<Link>, more: seq<Link>)
    requires ValidPath(text, m) && Considered(text, m, links)
    requires forall l :: l in links ==> l in more
    ensures Considered(text, m, more)
  {
    if m.path != "" && PathLink(m) !in links {
      var k :| 0 <= k < |links| && RangesOverlap(PathLink(m).Span(), links[k].Span());
      assert links[k] in more;
    }
  }

  lemma {:induction false} WithPathsKeeps(text: string, links: seq<Link>, ms: seq<PathMatch>, n: nat)
    requires ValidPaths(text, ms) && n <= |ms|
    ensures forall l :: l in links ==> l in WithPaths(text, links, ms, n)
    ensures forall l :: l in WithPaths(text, links, ms, n) ==>
              l in links || exists m :: m in ms && m.path != "" && ValidPath(text, m) && l == PathLink(m)
  {
    if n > 0 {
      WithPathsKeeps(text, links, ms, n - 1);
      assert ValidPath(text, ms[n - 1]) && ms[n - 1] in ms;
    }
  }

  lemma {:induction false} WithPathsConsiders(text: string, links: seq<Link>, ms: seq<PathMatch>, n: nat, k: nat)
    requires ValidPaths(text, ms) && k < n <= |ms|
    ensures ValidPath(text, ms[k]) && Considered(text, ms[k], WithPaths(text, links, ms, n))
  {
    assert ValidPath(text, ms[k]) && ValidPath(text, ms[n - 1]);
    var before := WithPaths(text, links, ms, n - 1);
    if k < n - 1 {
      WithPathsConsiders(text, links, ms, n - 1, k);
      ConsideredGrows(text, ms[k], before, WithPaths(text, links, ms, n));
    }
  }

  /** A file link for the captured path, where the match first has it; the path is its own destination. */
  predicate IsPathLink(m: PathMatch, l: Link) {
    && l.kind == File && l.text == l.url == m.path && l.end == l.start + |m.path|
    && m.index <= l.start && OccursAt(m.full, m.path, l.start - m.index)
    && forall i: nat :: i < l.start - m.index ==> !OccursAt(m.full, m.path, i)
  }

  lemma PathLinkIs(text: string, m: PathMatch)
    requires ValidPath(text, m)
    ensures IsPathLink(m, PathLink(m))
  {
  }

  /** A captured path is a link unless it overlaps one. */
  ghost predicate PathDetected(m: PathMatch, links: seq<Link>) {
    exists l :: IsPathLink(m, l) && (l in links || exists other :: other in links && RangesOverlap(l.Span(), other.Span()))
  }

  lemma ConsideredIsDetected(text: string, m: PathMatch, links: seq<Link>)
    requires ValidPath(text, m) && m.path != "" && Considered(text, m, links)
    ensures PathDetected(m, links)
  {
    PathLinkIs(text, m);
    assert PathLink(m) !in links ==> exists other :: other in links && RangesOverlap(PathLink(m).Span(), other.Span());
  }

  /**
   The links are the URLs and the paths and nothing else: every URL is kept, and
   a path is given up only for a link that it overlaps.
   */
  lemma DetectedAreComplete(sc: Scanners, text: string)
    requires ValidScanners(sc)
    ensures forall l :: l in Collect(sc.urls, text, 0, 0) ==> l in Detected(sc, text)
    ensures forall m :: m in sc.paths(text) && m.path != "" ==> PathDetected(m, Detected(sc, text))
    ensures forall l :: l in Detected(sc, text) ==>
              l in Collect(sc.urls, text, 0, 0) || exists m :: m in sc.paths(text) && m.path != "" && IsPathLink(m, l)
  {
    var urls, ms := Collect(sc.urls, text, 0, 0), sc.paths(text);
    assert ValidPaths(text, ms);
    var all := WithPaths(text, urls, ms, |ms|);
    SortAscending(all, START);
    WithPathsKeeps(text, urls, ms, |ms|);
    forall m | m in ms && m.path != "" ensures PathDetected(m, Detected(sc, text)) {
      var k :| 0 <= k < |ms| && ms[k] == m;
      WithPathsConsiders(text, urls, ms, |ms|, k);
      ConsideredGrows(text, m, all, Detected(sc, text));
      ConsideredIsDetected(text, m, Detected(sc, text));
    }
    forall m | m in ms ensures ValidPath(text, m) && IsPathLink(m, PathLink(m)) {
      PathLinkIs(text, m);
    }
  }
}
