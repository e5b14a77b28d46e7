/**
 Escape-aware bracket matching and the search for existing markdown links
 (packages/ui/markdown/linkify.ts:96-176).
 */
module LinkBrackets {

  /** The half-open interval from `start` to `end`. */
  datatype Range = Range(start: nat, end: nat)

  // --------------------------------------------------------------- escaping

  /** The length of the run of backslashes that ends just before `index`. */
  function Backslashes(text: string, index: nat): (n: nat)
    requires index <= |text|
    ensures n <= index
  {
    if index > 0 && text[index - 1] == '\\' then Backslashes(text, index - 1) + 1 else 0
  }

  predicate Escaped(text: string, index: nat)
    requires index <= |text|
  {
    Backslashes(text, index) % 2 == 1
  }

  method IsEscaped(text: string, index: nat) returns (escaped: bool)
    requires index <= |text|
    ensures escaped == Escaped(text, index)
  {
    var slashCount := 0;
    var i := index - 1;
    while i >= 0 && text[i] == '\\'
      invariant -1 <= i < index
      invariant slashCount + Backslashes(text, i + 1) == Backslashes(text, index)
    {
      slashCount := slashCount + 1;
      i := i - 1;
    }
    escaped := slashCount % 2 == 1;
  }

  /** A character is escaped exactly by a backslash that is not itself escaped. */
  lemma EscapedByBackslash(text: string, index: nat)
    requires index <= |text|
    ensures Escaped(text, index) <==> index > 0 && text[index - 1] == '\\' && !Escaped(text, index - 1)
  {
    if index > 0 && text[index - 1] == '\\' {
      assert Backslashes(text, index) == Backslashes(text, index - 1) + 1;
    }
  }

  // --------------------------------------------------------------- matching

  function Delta(text: string, open: char, close: char, i: nat): int
    requires i < |text|
  {
    if Escaped(text, i) then 0 else if text[i] == open then 1 else if text[i] == close then -1 else 0
  }

  /** Unescaped openings minus unescaped closings from `from` up to `to`. */
  function Depth(text: string, open: char, close: char, from: nat, to: nat): int
    requires from <= to <= |text|
  {
    if from == to then 0 else Depth(text, open, close, from, to - 1) + Delta(text, open, close, to - 1)
  }

  /** The scan from `i` on, already `depth` deep: the closing position or -1. */
  function Match(text: string, open: char, close: char, i: nat, depth: int): (r: int)
    requires i <= |text|
    ensures -1 <= r < |text|
    decreases |text| - i
  {
    if i == |text| then -1
    else if Escaped(text, i) then Match(text, open, close, i + 1, depth)
    else if text[i] == open then Match(text, open, close, i + 1, depth + 1)
    else if text[i] == close then
      if depth - 1 == 0 then i else Match(text, open, close, i + 1, depth - 1)
    else Match(text, open, close, i + 1, depth)
  }

  method FindMatchingBracket(text: string, openIndex: nat) returns (r: int)
    requires openIndex <= |text|
    ensures r == Match(text, '[', ']', openIndex, 0)
  {
    var depth := 0;
    var i := openIndex;
    while i < |text|
      invariant openIndex <= i <= |text|
      invariant Match(text, '[', ']', openIndex, 0) == Match(text, '[', ']', i, depth)
    {
      var escaped := IsEscaped(text, i);
      if !escaped {
        var c := text[i];
        if c == '[' {
          depth := depth + 1;
        } else if c == ']' {
          depth := depth - 1;
          if depth == 0 {
            return i;
          }
        }
      }
      i := i + 1;
    }
    return -1;
  }

  method FindInlineLinkEnd(text: string, openParenIndex: nat) returns (r: int)
    requires openParenIndex <= |text|
    ensures r == var m := Match(text, '(', ')', openParenIndex, 0); if m == -1 then -1 else m + 1
  {
    var depth := 0;
    var i := openParenIndex;
    while i < |text|
      invariant openParenIndex <= i <= |text|
      invariant Match(text, '(', ')', openParenIndex, 0) == Match(text, '(', ')', i, depth)
    {
      var escaped := IsEscaped(text, i);
      if !escaped {
        var c := text[i];
        if c == '(' {
          depth := depth + 1;
        } else if c == ')' {
          depth := depth - 1;
          if depth == 0 {
            return i + 1;
          }
        }
      }
      i := i + 1;
    }
    return -1;
  }

  lemma {:induction false} MatchFrom(text: string, open: char, close: char, from: nat, i: nat)
    requires open != close && from < i <= |text|
    requires forall j :: from < j <= i ==> Depth(text, open, close, from, j) > 0
    ensures var r := Match(text, open, close, i, Depth(text, open, close, from, i));
            if r == -1 then forall j :: from < j <= |text| ==> Depth(text, open, close, from, j) > 0
            else && i <= r && text[r] == close && !Escaped(text, r)
                 && Depth(text, open, close, from, r + 1) == 0
                 && forall j :: from < j <= r ==> Depth(text, open, close, from, j) > 0
    decreases |text| - i
  {
    if i < |text| {
      var d := Depth(text, open, close, from, i);
      var d' := Depth(text, open, close, from, i + 1);
      assert d' == d + Delta(text, open, close, i);
      if d' > 0 {
        MatchFrom(text, open, close, from, i + 1);
      }
    }
  }

  /**
   From an unescaped opening bracket the scan returns the first position at which
   the unescaped depth is back to zero, which holds an unescaped closing bracket;
   it returns -1 exactly when the depth never gets back.
   */
  lemma MatchIsFirstReturn(text: string, open: char, close: char, from: nat)
    requires open != close && from < |text| && text[from] == open && !Escaped(text, from)
    ensures var r := Match(text, open, close, from, 0);
            if r == -1 then forall j :: from < j <= |text| ==> Depth(text, open, close, from, j) > 0
            else && from < r && text[r] == close && !Escaped(text, r)
                 && Depth(text, open, close, from, r + 1) == 0
                 && forall j :: from < j <= r ==> Depth(text, open, close, from, j) > 0
  {
    assert Depth(text, open, close, from, from + 1) == Depth(text, open, close, from, from) + 1;
    MatchFrom(text, open, close, from, from + 1);
  }

  /** The first position behind `from` where the unescaped depth is back to zero. */
  predicate FirstReturn(text: string, open: char, close: char, from: nat, r: nat) {
    && from < r < |text| && Depth(text, open, close, from, r + 1) == 0
    && forall j :: from < j <= r ==> Depth(text, open, close, from, j) > 0
  }

  lemma FirstReturnIsOne(text: string, open: char, close: char, from: nat, r: nat, s: nat)
    requires FirstReturn(text, open, close, from, r) && FirstReturn(text, open, close, from, s)
    ensures r == s
  {
  }

  lemma MatchWhen(text: string, open: char, close: char, from: nat, r: nat)
    requires open != close && from < |text| && text[from] == open && !Escaped(text, from)
    ensures Match(text, open, close, from, 0) == r <==> FirstReturn(text, open, close, from, r)
  {
    MatchIsFirstReturn(text, open, close, from);
    var m := Match(text, open, close, from, 0);
    if m != -1 && FirstReturn(text, open, close, from, r) {
      FirstReturnIsOne(text, open, close, from, m, r);
    }
  }

  // ---------------------------------------------------------- link ranges

  predicate OpensLabel(text: string, i: nat)
    requires i < |text|
  {
    text[i] == '[' && !Escaped(text, i)
  }

  /** The end of the inline or reference link whose label opens at `i`, or -1. */
  function LinkEnd(text: string, i: nat): (end: int)
    requires i < |text|
    ensures end <= |text|
  {
    var labelEnd := Match(text, '[', ']', i, 0);
    if labelEnd == -1 || labelEnd + 1 == |text| then -1
    else if text[labelEnd + 1] == '(' then
      var close := Match(text, '(', ')', labelEnd + 1, 0);
      if close == -1 then -1 else close + 1
    else if text[labelEnd + 1] == '[' then
      var close := Match(text, '[', ']', labelEnd + 1, 0);
      if close == -1 then -1 else close + 1
    else -1
  }

  /**
   What a link is: an unescaped `[` at `i`, the first return of its depth at `l`, an
   opening bracket of either kind next to it, and the first return of that kind's
   depth just before `end`.
   */
  predicate IsLinkWith(text: string, i: nat, l: nat, end: nat) {
    && i < |text| && OpensLabel(text, i) && FirstReturn(text, '[', ']', i, l)
    && l + 1 < |text| && end > 0
    && ((text[l + 1] == '(' && FirstReturn(text, '(', ')', l + 1, end - 1))
        || (text[l + 1] == '[' && FirstReturn(text, '[', ']', l + 1, end - 1)))
  }

  ghost predicate IsLink(text: string, i: nat, end: nat) {
    exists l: nat :: IsLinkWith(text, i, l, end)
  }

  /** The bracket behind a label is not escaped. */
  lemma NextUnescaped(text: string, l: nat)
    requires l + 1 < |text| && text[l] == ']'
    ensures !Escaped(text, l + 1)
  {
    EscapedByBackslash(text, l + 1);
  }

  lemma LinkEndHas(text: string, i: nat)
    requires i < |text| && OpensLabel(text, i) && LinkEnd(text, i) != -1
    ensures IsLink(text, i, LinkEnd(text, i))
  {
    var l, end := Match(text, '[', ']', i, 0), LinkEnd(text, i);
    MatchIsFirstReturn(text, '[', ']', i);
    NextUnescaped(text, l);
    if text[l + 1] == '(' {
      MatchIsFirstReturn(text, '(', ')', l + 1);
    } else {
      MatchIsFirstReturn(text, '[', ']', l + 1);
    }
    assert IsLinkWith(text, i, l, end);
  }

  lemma LinkHasEnd(text: string, i: nat, l: nat, end: nat)
    requires IsLinkWith(text, i, l, end)
    ensures LinkEnd(text, i) == end
  {
    MatchIsFirstReturn(text, '[', ']', i);
    MatchWhen(text, '[', ']', i, l);
    NextUnescaped(text, l);
    if text[l + 1] == '(' {
      MatchWhen(text, '(', ')', l + 1, end - 1);
    } else {
      MatchWhen(text, '[', ']', l + 1, end - 1);
    }
  }

  /** The search behind a label finds a link's end exactly when there is a link. */
  lemma LinkEndWhen(text: string, i: nat, end: nat)
    requires i < |text| && OpensLabel(text, i)
    ensures LinkEnd(text, i) == end <==> IsLink(text, i, end)
  {
    if LinkEnd(text, i) == end {
      LinkEndHas(text, i);
    }
    if IsLink(text, i, end) {
      var l: nat :| IsLinkWith(text, i, l, end);
      LinkHasEnd(text, i, l, end);
    }
  }

  lemma LinkEndIsOne(text: string, i: nat, end: nat, other: nat)
    requires IsLink(text, i, end) && IsLink(text, i, other)
    ensures end == other
  {
    LinkEndWhen(text, i, end);
    LinkEndWhen(text, i, other);
  }

  /** One step back when an unescaped `!` makes the link an image. */
  function LinkStart(text: string, i: nat): (start: nat)
    requires i < |text|
    ensures start <= i
  {
    if i > 0 && text[i - 1] == '!' && !Escaped(text, i - 1) then i - 1 else i
  }

  lemma LinkEndBounds(text: string, i: nat)
    requires i < |text| && OpensLabel(text, i)
    ensures LinkEnd(text, i) != -1 ==> i + 2 < LinkEnd(text, i) && text[LinkEnd(text, i) - 1] in {')', ']'}
  {
    MatchIsFirstReturn(text, '[', ']', i);
    var labelEnd := Match(text, '[', ']', i, 0);
    if labelEnd != -1 && labelEnd + 1 < |text| {
      EscapedByBackslash(text, labelEnd + 1);
      if text[labelEnd + 1] == '(' {
        MatchIsFirstReturn(text, '(', ')', labelEnd + 1);
      } else if text[labelEnd + 1] == '[' {
        MatchIsFirstReturn(text, '[', ']', labelEnd + 1);
      }
    }
  }

  /** The links found by scanning from `i` on and jumping over each one found. */
  function LinkRanges(text: string, i: nat): seq<Range>
    requires i <= |text|
    decreases |text| - i
  {
    if i == |text| then []
    else if !OpensLabel(text, i) || LinkEnd(text, i) == -1 then LinkRanges(text, i + 1)
    else
      LinkEndBounds(text, i);
      [Range(LinkStart(text, i), LinkEnd(text, i))] + LinkRanges(text, LinkEnd(text, i))
  }

  lemma LinkRangesSkip(ranges: seq<Range>, text: string, i: nat)
    requires i < |text| && (!OpensLabel(text, i) || LinkEnd(text, i) == -1)
    ensures ranges + LinkRanges(text, i) == ranges + LinkRanges(text, i + 1)
  {
  }

  lemma LinkRangesTake(ranges: seq<Range>, text: string, i: nat)
    requires i < |text| && OpensLabel(text, i) && LinkEnd(text, i) != -1
    ensures i + 2 < LinkEnd(text, i)
    ensures ranges + LinkRanges(text, i) ==
            ranges + [Range(LinkStart(text, i), LinkEnd(text, i))] + LinkRanges(text, LinkEnd(text, i))
  {
    LinkEndBounds(text, i);
  }

  /** The part of the loop's body that looks behind a label. */
  method FindLinkEnd(text: string, i: nat) returns (end: int)
    requires i < |text|
    ensures end == LinkEnd(text, i)
    ensures OpensLabel(text, i) ==> forall e: nat :: end == e <==> IsLink(text, i, e)
  {
    if OpensLabel(text, i) {
      forall e: nat {
        LinkEndWhen(text, i, e);
      }
    }
    var labelEnd := FindMatchingBracket(text, i);
    if labelEnd == -1 || labelEnd + 1 == |text| {
      return -1;
    }
    if text[labelEnd + 1] == '(' {
      end := FindInlineLinkEnd(text, labelEnd + 1);
    } else if text[labelEnd + 1] == '[' {
      var referenceEnd := FindMatchingBracket(text, labelEnd + 1);
      end := if referenceEnd == -1 then -1 else referenceEnd + 1;
    } else {
      end := -1;
    }
  }

  method FindMarkdownLinkRanges(text: string) returns (ranges: seq<Range>)
    ensures ranges == LinkRanges(text, 0)
    ensures forall r :: r in ranges ==> exists j: nat :: IsRangeOf(text, r, j)
    ensures forall j: nat, end: nat :: IsLink(text, j, end) ==> exists r :: r in ranges && r.start <= j < r.end
  {
    ranges := [];
    var i := 0;
    while i < |text|
      invariant i <= |text|
      invariant ranges + LinkRanges(text, i) == LinkRanges(text, 0)
      invariant forall k :: 0 <= k < |ranges| ==> ranges[k].end <= i
    {
      var escaped := IsEscaped(text, i);
      var end := -1;
      if text[i] == '[' && !escaped && !exists k :: 0 <= k < |ranges| && ranges[k].start <= i < ranges[k].end {
        end := FindLinkEnd(text, i);
      }
      if end != -1 {
        LinkRangesTake(ranges, text, i);
        var bangEscaped := false;
        if i > 0 {
          bangEscaped := IsEscaped(text, i - 1);
        }
        ranges := ranges + [Range(if i > 0 && text[i - 1] == '!' && !bangEscaped then i - 1 else i, end)];
        i := end;
      } else {
        LinkRangesSkip(ranges, text, i);
        i := i + 1;
      }
    }
    RangesAreLinks(text, ranges);
  }

  predicate InBounds(r: Range, n: nat) {
    r.start < r.end <= n
  }

  predicate RangesOverlap(a: Range, b: Range) {
    a.start < b.end && b.start < a.end
  }

  /** A scan that begins at `i` reaches back behind `i` only to an image's `!`. */
  function ReachBack(text: string, i: nat): nat
    requires i <= |text|
  {
    if i > 0 && text[i - 1] == '!' then i - 1 else i
  }

  /** In bounds, at `low` or behind it, in order and apart. */
  predicate Apart(rs: seq<Range>, low: nat, high: nat) {
    && (forall k :: 0 <= k < |rs| ==> low <= rs[k].start && InBounds(rs[k], high))
    && (forall j, k :: 0 <= j < k < |rs| ==> rs[j].end <= rs[k].start)
  }

  /** Ranges are in bounds, in order and apart, even with the step back to `!`. */
  lemma {:induction false} LinkRangesApart(text: string, i: nat)
    requires i <= |text|
    ensures Apart(LinkRanges(text, i), ReachBack(text, i), |text|)
    decreases |text| - i
  {
    if i < |text| {
      if !OpensLabel(text, i) || LinkEnd(text, i) == -1 {
        LinkRangesApart(text, i + 1);
      } else {
        var end := LinkEnd(text, i);
        LinkEndBounds(text, i);
        LinkRangesApart(text, end);
        assert ReachBack(text, end) == end;
        assert ReachBack(text, i) <= LinkStart(text, i);
      }
    }
  }

  /** The range of the link whose label opens at `j`: from its `[`, or from an unescaped `!` before it. */
  ghost predicate IsRangeOf(text: string, r: Range, j: nat) {
    && IsLink(text, j, r.end)
    && r.start == if j > 0 && text[j - 1] == '!' && !Escaped(text, j - 1) then j - 1 else j
  }

  /** The ranges are exactly links: each one is a link of the text ... */
  lemma {:induction false} LinkRangesAreLinks(text: string, i: nat, r: Range)
    requires i <= |text| && r in LinkRanges(text, i)
    ensures exists j :: i <= j < |text| && IsRangeOf(text, r, j)
    decreases |text| - i
  {
    if !OpensLabel(text, i) || LinkEnd(text, i) == -1 {
      LinkRangesAreLinks(text, i + 1, r);
    } else if r == Range(LinkStart(text, i), LinkEnd(text, i)) {
      LinkEndHas(text, i);
      assert IsRangeOf(text, r, i);
    } else {
      LinkEndBounds(text, i);
      LinkRangesAreLinks(text, LinkEnd(text, i), r);
    }
  }

  /** ... and the label of every link of the text opens inside one of them. */
  lemma {:induction false} LinkRangesCoverLinks(text: string, i: nat, j: nat, end: nat)
    requires i <= j < |text| && IsLink(text, j, end)
    ensures exists r :: r in LinkRanges(text, i) && r.start <= j < r.end
    decreases |text| - i
  {
    LinkEndWhen(text, j, end);
    if !OpensLabel(text, i) || LinkEnd(text, i) == -1 {
      LinkRangesCoverLinks(text, i + 1, j, end);
      var r :| r in LinkRanges(text, i + 1) && r.start <= j < r.end;
      assert r in LinkRanges(text, i);
    } else {
      LinkEndBounds(text, i);
      var first := Range(LinkStart(text, i), LinkEnd(text, i));
      assert LinkRanges(text, i)[0] == first;
      if LinkEnd(text, i) <= j {
        LinkRangesCoverLinks(text, LinkEnd(text, i), j, end);
        var r :| r in LinkRanges(text, LinkEnd(text, i)) && r.start <= j < r.end;
        assert r in LinkRanges(text, i);
      }
    }
  }

  lemma RangesAreLinks(text: string, ranges: seq<Range>)
    requires ranges == LinkRanges(text, 0)
    ensures forall r :: r in ranges ==> exists j: nat :: IsRangeOf(text, r, j)
    ensures forall j: nat, end: nat :: IsLink(text, j, end) ==> exists r :: r in ranges && r.start <= j < r.end
  {
    forall r | r in ranges ensures exists j: nat :: IsRangeOf(text, r, j) {
      LinkRangesAreLinks(text, 0, r);
    }
    forall j: nat, end: nat | IsLink(text, j, end) ensures exists r :: r in ranges && r.start <= j < r.end {
      LinkRangesCoverLinks(text, 0, j, end);
    }
  }
}
