/**
 The streaming markdown splitter (packages/ui/markdown/StreamingMarkdown.tsx).

 Text arrives a piece at a time and is split again from the start each time. What
 the component promises is that every block but the last is finished: more text
 leaves its content, its place and its React key alone.
 */
module StreamingBlocks {

  datatype Block = Block(content: string, isCodeBlock: bool)

  /** The locals of the splitter's loop. */
  datatype State = State(blocks: seq<Block>, current: string, inCode: bool, inMath: bool)

  const INITIAL := State([], "", false, false)

  // ---------------------------------------------------------------- strings

  /** The characters `String.prototype.trim` removes. */
  predicate IsSpace(c: char) {
    var n := c as int;
    || 0x9 <= n <= 0xD || n == 0x20 || n == 0xA0 || n == 0x1680
    || 0x2000 <= n <= 0x200A || n == 0x2028 || n == 0x2029
    || n == 0x202F || n == 0x205F || n == 0x3000 || n == 0xFEFF
  }

  function TrimStart(s: string): string {
    if s != "" && IsSpace(s[0]) then TrimStart(s[1..]) else s
  }

  function TrimEnd(s: string): string {
    if s != "" && IsSpace(s[|s| - 1]) then TrimEnd(s[..|s| - 1]) else s
  }

  function Trim(s: string): string {
    TrimEnd(TrimStart(s))
  }

  function SplitLines(s: string): (lines: seq<string>)
    ensures |lines| >= 1
  {
    if s == "" then [""]
    else
      var front := SplitLines(s[..|s| - 1]);
      var n := |front| - 1;
      if s[|s| - 1] == '\n' then front + [""] else front[..n] + [front[n] + [s[|s| - 1]]]
  }

  function JoinLines(lines: seq<string>): string
    requires |lines| >= 1
  {
    if |lines| == 1 then lines[0] else JoinLines(lines[..|lines| - 1]) + "\n" + lines[|lines| - 1]
  }

  /** The lines with a line break behind each. */
  function Terminated(lines: seq<string>): string {
    if lines == [] then "" else Terminated(lines[..|lines| - 1]) + lines[|lines| - 1] + "\n"
  }

  /** The visible characters of `s`, in order. */
  function Ink(s: string): string {
    if s == "" then ""
    else if IsSpace(s[|s| - 1]) then Ink(s[..|s| - 1])
    else Ink(s[..|s| - 1]) + [s[|s| - 1]]
  }

  // --------------------------------------------------------- the loop's step

  predicate IsFence(line: string) {
    "```" <= line
  }

  /** Pushes the pending paragraph, if it has visible text. */
  function Flush(s: State): State {
    if Trim(s.current) != "" then s.(blocks := s.blocks + [Block(Trim(s.current), false)], current := "") else s
  }

  function Step(s: State, line: string): State {
    if IsFence(line) then
      if !s.inCode then Flush(s).(inCode := true, current := line + "\n")
      else State(s.blocks + [Block(s.current + line, true)], "", false, s.inMath)
    else if s.inCode then s.(current := s.current + line + "\n")
    else if Trim(line) == "$$" then
      if !s.inMath then Flush(s).(inMath := true, current := line + "\n")
      else State(s.blocks + [Block(s.current + line, false)], "", s.inCode, false)
    else if s.inMath then s.(current := s.current + line + "\n")
    else if line == "" then Flush(s)
    else s.(current := if s.current != "" then s.current + "\n" + line else line)
  }

  function Scan(lines: seq<string>): State {
    if lines == [] then INITIAL else Step(Scan(lines[..|lines| - 1]), lines[|lines| - 1])
  }

  function Finish(s: State): seq<Block> {
    if s.current != "" then
      s.blocks + [Block(if s.inCode || s.inMath then s.current else Trim(s.current), s.inCode)]
    else s.blocks
  }

  function Split(content: string): seq<Block> {
    Finish(Scan(SplitLines(content)))
  }

  method SplitIntoBlocks(content: string) returns (blocks: seq<Block>)
    ensures blocks == Split(content)
  {
    blocks := [];
    var lines := SplitLines(content);
    var currentBlock := "";
    var inCodeBlock := false;
    var inMathBlock := false;
    for i := 0 to |lines|
      invariant State(blocks, currentBlock, inCodeBlock, inMathBlock) == Scan(lines[..i])
    {
      var line := lines[i];
      assert lines[..i + 1][..i] == lines[..i];
      if IsFence(line) {
        if !inCodeBlock {
          if Trim(currentBlock) != "" {
            blocks := blocks + [Block(Trim(currentBlock), false)];
            currentBlock := "";
          }
          inCodeBlock := true;
          currentBlock := line + "\n";
        } else {
          currentBlock := currentBlock + line;
          blocks := blocks + [Block(currentBlock, true)];
          currentBlock := "";
          inCodeBlock := false;
        }
      } else if inCodeBlock {
        currentBlock := currentBlock + line + "\n";
      } else if Trim(line) == "$$" {
        if !inMathBlock {
          if Trim(currentBlock) != "" {
            blocks := blocks + [Block(Trim(currentBlock), false)];
            currentBlock := "";
          }
          inMathBlock := true;
          currentBlock := line + "\n";
        } else {
          currentBlock := currentBlock + line;
          blocks := blocks + [Block(currentBlock, false)];
          currentBlock := "";
          inMathBlock := false;
        }
      } else if inMathBlock {
        currentBlock := currentBlock + line + "\n";
      } else if line == "" {
        if Trim(currentBlock) != "" {
          blocks := blocks + [Block(Trim(currentBlock), false)];
          currentBlock := "";
        }
      } else {
        if currentBlock != "" {
          currentBlock := currentBlock + "\n" + line;
        } else {
          currentBlock := line;
        }
      }
    }
    assert lines[..|lines|] == lines;
    if currentBlock != "" {
      blocks := blocks + [Block(if inCodeBlock || inMathBlock then currentBlock else Trim(currentBlock), inCodeBlock)];
    }
  }

  // --------------------------------------------------------------- React keys

  /** `active-i` for the last block, `block-i-hash` for every other one. */
  datatype Key = Active(index: nat) | Finished(index: nat, hash: bv32)

  function HashStep(hash: bv32, c: char): bv32 {
    ((hash << 5) + hash) ^ (c as int as bv32)
  }

  /** djb2 with XOR on 32-bit integers, before it is written in base 36. */
  function SimpleHash(s: string): bv32 {
    if s == "" then 5381 else HashStep(SimpleHash(s[..|s| - 1]), s[|s| - 1])
  }

  function Keys(blocks: seq<Block>): (keys: seq<Key>)
    ensures |keys| == |blocks|
  {
    seq(|blocks|, i requires 0 <= i < |blocks| =>
      if i == |blocks| - 1 then Active(i) else Finished(i, SimpleHash(blocks[i].content)))
  }

  /** Some hashes by hand. */
  lemma HashExamples()
    ensures SimpleHash("") == 5381 && SimpleHash("a") == 177604 && SimpleHash("ab") == 5860902
  {
    assert "a"[..0] == "" && "ab"[..1] == "a";
  }

  /** Two keys at one place are equal if both blocks are last, or neither is and their contents hash alike. */
  lemma KeysTell(a: seq<Block>, b: seq<Block>, i: nat)
    requires i < |a| && i < |b|
    ensures Keys(a)[i] == Keys(b)[i] <==>
              if i == |a| - 1 then i == |b| - 1 else i < |b| - 1 && SimpleHash(a[i].content) == SimpleHash(b[i].content)
  {
  }

  method HashOf(str: string) returns (hash: bv32)
    ensures hash == SimpleHash(str)
  {
    hash := 5381;
    for i := 0 to |str|
      invariant hash == SimpleHash(str[..i])
    {
      assert str[..i + 1][..i] == str[..i];
      hash := HashStep(hash, str[i]);
    }
    assert str[..|str|] == str;
  }

  // ------------------------------------------------------------- stability

  /** All but the last. */
  function Init<T>(s: seq<T>): seq<T> {
    if s == [] then [] else s[..|s| - 1]
  }

  /** More text `d` leaves every finished block of `c`, and its key, in place. */
  predicate StaysFinished(c: string, d: string) {
    && Init(Split(c)) <= Split(c + d)
    && Init(Keys(Split(c))) <= Keys(Split(c + d))
  }

  /**
   The last line of `c` reads `$$`, stands outside code and math, and ends a
   paragraph with visible text.
   */
  predicate EndsParagraphWithDollars(c: string) {
    var last := SplitLines(c)[|SplitLines(c)| - 1];
    Trim(last) == "$$" && !Before(c).inCode && !Before(c).inMath && Trim(Before(c).current) != ""
  }

  /** `lines` with `more` written behind its last line. */
  function ExtendLast(lines: seq<string>, more: string): (r: seq<string>)
    requires lines != []
  {
    lines[..|lines| - 1] + [lines[|lines| - 1] + more]
  }

  lemma SplitLinesSnoc(s: string, c: char)
    ensures SplitLines(s + [c]) == if c == '\n' then SplitLines(s) + [""] else ExtendLast(SplitLines(s), [c])
  {
    assert (s + [c])[..|s|] == s;
  }

  /** `a` with the lines `b` behind it; the last of `a` and the first of `b` are one line. */
  function Glue(a: seq<string>, b: seq<string>): seq<string>
    requires a != [] && b != []
  {
    ExtendLast(a, b[0]) + b[1..]
  }

  lemma GlueNewLine(a: seq<string>, b: seq<string>)
    requires a != [] && b != []
    ensures Glue(a, b + [""]) == Glue(a, b) + [""]
  {
    assert (b + [""])[1..] == b[1..] + [""];
  }

  lemma GlueExtendLast(a: seq<string>, b: seq<string>, more: string)
    requires a != [] && b != []
    ensures Glue(a, ExtendLast(b, more)) == ExtendLast(Glue(a, b), more)
  {
    var n := |a| - 1;
    if |b| == 1 {
      assert a[n] + b[0] + more == a[n] + (b[0] + more);
      assert Glue(a, b) == ExtendLast(a, b[0]);
    } else {
      assert Glue(a, b)[..|Glue(a, b)| - 1] == ExtendLast(a, b[0]) + b[1..|b| - 1];
      assert ExtendLast(b, more)[1..] == b[1..|b| - 1] + [b[|b| - 1] + more];
    }
  }

  lemma GlueNothing(a: seq<string>)
    requires a != []
    ensures Glue(a, [""]) == a
  {
    assert a[|a| - 1] + "" == a[|a| - 1];
  }

  lemma SplitLinesAppendOne(c: string, d: string, last: char)
    requires SplitLines(c + d) == Glue(SplitLines(c), SplitLines(d))
    ensures SplitLines(c + d + [last]) == Glue(SplitLines(c), SplitLines(d + [last]))
  {
    SplitLinesSnoc(c + d, last);
    SplitLinesSnoc(d, last);
    GlueNewLine(SplitLines(c), SplitLines(d));
    GlueExtendLast(SplitLines(c), SplitLines(d), [last]);
  }

  lemma {:induction false} SplitLinesAppend(c: string, d: string)
    ensures SplitLines(c + d) == Glue(SplitLines(c), SplitLines(d))
  {
    if d == "" {
      assert c + d == c && SplitLines(d) == [""];
      GlueNothing(SplitLines(c));
    } else {
      var d', last := d[..|d| - 1], d[|d| - 1];
      assert d == d' + [last] && c + d == c + d' + [last];
      SplitLinesAppend(c, d');
      SplitLinesAppendOne(c, d', last);
    }
  }

  /** How many blocks the state would show if the text ended here. */
  function Shown(s: State): nat {
    |s.blocks| + if s.current != "" then 1 else 0
  }

  lemma StepGrows(s: State, line: string)
    ensures s.blocks <= Step(s, line).blocks
    ensures Shown(s) <= Shown(Step(s, line))
  {
  }

  lemma {:induction false} ScanGrows(lines: seq<string>, n: nat)
    requires n <= |lines|
    ensures Scan(lines[..n]).blocks <= Scan(lines).blocks
    ensures Shown(Scan(lines[..n])) <= Shown(Scan(lines))
    decreases |lines|
  {
    if n == |lines| {
      assert lines[..n] == lines;
    } else {
      var front := lines[..|lines| - 1];
      ScanGrows(front, n);
      assert front[..n] == lines[..n];
      StepGrows(Scan(front), lines[|lines| - 1]);
    }
  }

  /** The heart of stability: what a longer last line does to one step. */
  lemma LongerLine(s: State, line: string, more: string)
    requires Trim(line) == "$$" ==> s.inCode || s.inMath || Trim(s.current) == ""
    ensures Init(Finish(Step(s, line))) <= Step(s, line + more).blocks
    ensures Shown(Step(s, line)) <= Shown(Step(s, line + more))
  {
    StepGrows(s, line + more);
    if IsFence(line) {
      assert IsFence(line + more);
    }
  }

  lemma KeysStay(shown: seq<Block>, grown: seq<Block>)
    requires |shown| <= |grown| && Init(shown) <= grown
    ensures Init(Keys(shown)) <= Keys(grown)
  {
    forall i | 0 <= i < |shown| - 1 ensures Keys(shown)[i] == Keys(grown)[i] {
      assert shown[i] == Init(shown)[i] == grown[i];
    }
  }

  /** The state after all lines but the last. */
  function Before(c: string): State {
    Scan(SplitLines(c)[..|SplitLines(c)| - 1])
  }

  /** How the state at the last line of `c` goes on when `d` arrives. */
  lemma LastLineGrows(c: string, d: string)
    ensures var last := SplitLines(c)[|SplitLines(c)| - 1];
            var next := Step(Before(c), last + SplitLines(d)[0]);
            && Scan(SplitLines(c)) == Step(Before(c), last)
            && next.blocks <= Scan(SplitLines(c + d)).blocks && Shown(next) <= Shown(Scan(SplitLines(c + d)))
  {
    var a, b, r := SplitLines(c), SplitLines(d), SplitLines(c + d);
    var n := |a| - 1;
    SplitLinesAppend(c, d);
    assert r[..n + 1] == ExtendLast(a, b[0]);
    assert r[..n + 1][..n] == a[..n];
    ScanGrows(r, n + 1);
  }

  lemma FinishGrows(shown: State, next: State, grown: State)
    requires Init(Finish(shown)) <= next.blocks <= grown.blocks && Shown(shown) <= Shown(next) <= Shown(grown)
    ensures |Finish(shown)| <= |Finish(grown)| && Init(Finish(shown)) <= Finish(grown)
  {
  }

  lemma StaysFinishedWhen(c: string, d: string)
    requires !EndsParagraphWithDollars(c)
    ensures StaysFinished(c, d)
  {
    var last := SplitLines(c)[|SplitLines(c)| - 1];
    assert |Split(c)| <= |Split(c + d)| && Init(Split(c)) <= Split(c + d) by {
      LastLineGrows(c, d);
      LongerLine(Before(c), last, SplitLines(d)[0]);
      FinishGrows(Step(Before(c), last), Step(Before(c), last + SplitLines(d)[0]), Scan(SplitLines(c + d)));
    }
    KeysStay(Split(c), Split(c + d));
  }

  lemma {:induction false} TrimEndKeepsInk(s: string, c: char)
    requires !IsSpace(c)
    ensures Trim(s + [c]) != "" && Trim(s + [c])[|Trim(s + [c])| - 1] == c
    decreases |s|
  {
    if s != "" && IsSpace(s[0]) {
      assert (s + [c])[1..] == s[1..] + [c];
      TrimEndKeepsInk(s[1..], c);
    }
  }

  lemma {:induction false} TrimFirst(s: string)
    requires s != "" && !IsSpace(s[0])
    ensures Trim(s) != "" && Trim(s)[0] == s[0]
  {
    TrimEndFirst(s);
  }

  lemma {:induction false} TrimEndFirst(s: string)
    requires s != "" && !IsSpace(s[0])
    ensures TrimEnd(s) != "" && TrimEnd(s)[0] == s[0]
  {
    if IsSpace(s[|s| - 1]) {
      TrimEndFirst(s[..|s| - 1]);
    }
  }

  lemma DollarsThenLetter(s: State, line: string)
    requires Trim(line) == "$$" && !s.inCode && !s.inMath && Trim(s.current) != ""
    ensures Step(s, line).blocks == s.blocks + [Block(Trim(s.current), false)]
    ensures Step(s, line).current != ""
    ensures Step(s, line + "x").blocks == s.blocks
    ensures Step(s, line + "x").current != ""
  {
    TrimEndKeepsInk(line, 'x');
    if line != "" && !IsSpace(line[0]) {
      TrimFirst(line);
    }
    assert !IsSpace('`');
    assert !IsFence(line) && !IsFence(line + "x");
  }

  lemma UnstableWhen(c: string)
    requires EndsParagraphWithDollars(c)
    ensures !StaysFinished(c, "x")
  {
    var a := SplitLines(c);
    var n := |a| - 1;
    var before := Scan(a[..n]);
    SplitLinesSnoc(c, 'x');
    assert ExtendLast(a, "x")[..n] == a[..n];
    DollarsThenLetter(before, a[n]);
    var k := |before.blocks|;
    assert |Split(c)| == k + 2 && |Split(c + "x")| == k + 1;
    assert Keys(Split(c))[k].Finished? && Keys(Split(c + "x"))[k].Active?;
  }

  /**
   Finished blocks and their keys survive whatever arrives, from every code and
   math state, exactly when the text does not end in a `$$` line that closes a
   paragraph.
   */
  lemma StreamingStability(c: string)
    ensures (forall d :: StaysFinished(c, d)) <==> !EndsParagraphWithDollars(c)
  {
    if EndsParagraphWithDollars(c) {
      UnstableWhen(c);
    } else {
      forall d ensures StaysFinished(c, d) {
        StaysFinishedWhen(c, d);
      }
    }
  }

  lemma SecondLineGrows(s: string, first: string, second: string, c: char)
    requires SplitLines(s) == [first, second] && c != '\n'
    ensures SplitLines(s + [c]) == [first, second + [c]]
  {
    SplitLinesSnoc(s, c);
    assert [first, second][..1] == [first];
  }

  lemma DollarsExampleLines()
    ensures SplitLines("a\n$$") == ["a", "$$"]
  {
    SplitLinesSnoc("", 'a');
    assert "" + ['a'] == "a";
    SplitLinesSnoc("a", '\n');
    SecondLineGrows("a" + ['\n'], "a", "", '$');
    SecondLineGrows("a" + ['\n'] + ['$'], "a", "" + ['$'], '$');
    assert "a" + ['\n'] + ['$'] + ['$'] == "a\n$$";
    assert "" + ['$'] + ['$'] == "$$";
  }

  /** The one family of texts that does take a finished block back, by example. */
  lemma DollarsTakeABlockBack()
    ensures !StaysFinished("a\n$$", "x")
  {
    DollarsExampleLines();
    assert ["a", "$$"][..1] == ["a"];
    assert Scan(["a"]).current == "a";
    TrimEndKeepsInk("", 'a');
    assert "" + ['a'] == "a";
    UnstableWhen("a\n$$");
  }

  // ----------------------------------------------------------- conservation

  lemma JoinSnoc(lines: seq<string>, line: string)
    requires lines != []
    ensures JoinLines(lines + [line]) == JoinLines(lines) + "\n" + line
  {
    assert (lines + [line])[..|lines|] == lines;
  }

  lemma JoinExtendLast(lines: seq<string>, more: string)
    requires lines != []
    ensures JoinLines(ExtendLast(lines, more)) == JoinLines(lines) + more
  {
    var n := |lines| - 1;
    assert ExtendLast(lines, more)[..n] == lines[..n];
    if n > 0 {
      assert JoinLines(lines[..n]) + "\n" + (lines[n] + more) == JoinLines(lines[..n]) + "\n" + lines[n] + more;
    }
  }

  lemma {:induction false} JoinSplit(s: string)
    ensures JoinLines(SplitLines(s)) == s
  {
    if s != "" {
      var front := SplitLines(s[..|s| - 1]);
      JoinSplit(s[..|s| - 1]);
      JoinSnoc(front, "");
      JoinExtendLast(front, [s[|s| - 1]]);
      assert s == s[..|s| - 1] + [s[|s| - 1]];
    }
  }

  lemma {:induction false} NoBreakInLines(s: string)
    ensures forall line :: line in SplitLines(s) ==> '\n' !in line
  {
    if s != "" {
      NoBreakInLines(s[..|s| - 1]);
    }
  }

  /** The lines hold no line break, and joined by line breaks they are the text. */
  lemma LinesAreText(s: string)
    ensures JoinLines(SplitLines(s)) == s
    ensures forall line :: line in SplitLines(s) ==> '\n' !in line
  {
    JoinSplit(s);
    NoBreakInLines(s);
  }

  lemma {:induction false} InkConcat(a: string, b: string)
    ensures Ink(a + b) == Ink(a) + Ink(b)
  {
    if b == "" {
      assert a + b == a;
    } else {
      assert (a + b)[..|a + b| - 1] == a + b[..|b| - 1];
      InkConcat(a, b[..|b| - 1]);
    }
  }

  lemma {:induction false} InkTrimStart(s: string)
    ensures Ink(TrimStart(s)) == Ink(s)
  {
    if s != "" && IsSpace(s[0]) {
      InkTrimStart(s[1..]);
      assert s == [s[0]] + s[1..];
      InkConcat([s[0]], s[1..]);
    }
  }

  lemma {:induction false} InkTrimEnd(s: string)
    ensures Ink(TrimEnd(s)) == Ink(s)
  {
    if s != "" && IsSpace(s[|s| - 1]) {
      InkTrimEnd(s[..|s| - 1]);
    }
  }

  lemma InkTrim(s: string)
    ensures Ink(Trim(s)) == Ink(s)
  {
    InkTrimStart(s);
    InkTrimEnd(TrimStart(s));
  }

  lemma InkLine(s: string, line: string)
    ensures Ink(s + line + "\n") == Ink(s) + Ink(line)
  {
    InkConcat(s, line);
    InkConcat(s + line, "\n");
    assert Ink("\n") == "";
  }

  lemma InkBreak(line: string)
    ensures Ink(line + "\n") == Ink(line)
  {
    InkConcat(line, "\n");
    assert Ink("\n") == "";
  }

  lemma InkBehindBreak(s: string, line: string)
    ensures Ink(s + "\n" + line) == Ink(s) + Ink(line)
  {
    InkConcat(s, "\n");
    InkConcat(s + "\n", line);
    assert Ink("\n") == "";
  }

  /** The contents of the blocks, one behind the other. */
  function Contents(blocks: seq<Block>): string {
    if blocks == [] then "" else Contents(blocks[..|blocks| - 1]) + blocks[|blocks| - 1].content
  }

  function InkOf(s: State): string {
    Ink(Contents(s.blocks)) + Ink(s.current)
  }

  lemma ContentsPush(blocks: seq<Block>, b: Block)
    ensures Ink(Contents(blocks + [b])) == Ink(Contents(blocks)) + Ink(b.content)
  {
    assert (blocks + [b])[..|blocks|] == blocks;
    InkConcat(Contents(blocks), b.content);
  }

  lemma FlushInk(s: State)
    ensures InkOf(Flush(s)) == InkOf(s)
    ensures Ink(Flush(s).current) == ""
  {
    InkTrim(s.current);
    ContentsPush(s.blocks, Block(Trim(s.current), false));
    assert Ink("") == "";
  }

  lemma Associate(a: string, b: string, c: string)
    ensures a + (b + c) == a + b + c
  {
  }

  /** A block that ends with `line` takes the pending text with it. */
  lemma CloseInk(s: State, line: string, isCode: bool)
    ensures Ink(Contents(s.blocks + [Block(s.current + line, isCode)])) == InkOf(s) + Ink(line)
  {
    ContentsPush(s.blocks, Block(s.current + line, isCode));
    InkConcat(s.current, line);
    Associate(Ink(Contents(s.blocks)), Ink(s.current), Ink(line));
  }

  lemma NothingPending(blocks: seq<Block>, inCode: bool, inMath: bool)
    ensures InkOf(State(blocks, "", inCode, inMath)) == Ink(Contents(blocks))
  {
    assert Ink("") == "";
  }

  lemma OpenInk(s: State, line: string)
    ensures Ink(Contents(Flush(s).blocks)) + Ink(line + "\n") == InkOf(s) + Ink(line)
  {
    FlushInk(s);
    assert InkOf(Flush(s)) == Ink(Contents(Flush(s).blocks)) + "";
    InkBreak(line);
  }

  lemma AppendInk(s: State, line: string)
    ensures Ink(Contents(s.blocks)) + Ink(s.current + line + "\n") == InkOf(s) + Ink(line)
    ensures Ink(Contents(s.blocks)) + Ink(s.current + "\n" + line) == InkOf(s) + Ink(line)
  {
    InkLine(s.current, line);
    InkBehindBreak(s.current, line);
  }

  lemma StepInk(s: State, line: string)
    ensures InkOf(Step(s, line)) == InkOf(s) + Ink(line)
  {
    if IsFence(line) {
      if s.inCode {
        CloseInk(s, line, true);
        NothingPending(s.blocks + [Block(s.current + line, true)], false, s.inMath);
      } else { OpenInk(s, line); }
    } else if s.inCode {
      AppendInk(s, line);
    } else if Trim(line) == "$$" {
      if s.inMath {
        CloseInk(s, line, false);
        NothingPending(s.blocks + [Block(s.current + line, false)], s.inCode, false);
      } else { OpenInk(s, line); }
    } else if s.inMath {
      AppendInk(s, line);
    } else if line == "" {
      FlushInk(s);
      assert Ink("") == "";
    } else {
      AppendInk(s, line);
      assert Ink("") == "";
    }
  }

  lemma {:induction false} ScanInk(lines: seq<string>)
    requires lines != []
    ensures InkOf(Scan(lines)) == Ink(JoinLines(lines))
  {
    var n := |lines| - 1;
    var front := lines[..n];
    StepInk(Scan(front), lines[n]);
    if n == 0 {
      assert InkOf(INITIAL) == "" by { assert Ink("") == ""; }
    } else {
      ScanInk(front);
      InkBehindBreak(JoinLines(front), lines[n]);
    }
  }

  /** Nothing visible is lost, added or reordered. */
  lemma Conservation(content: string)
    ensures Ink(Contents(Split(content))) == Ink(content)
  {
    var lines := SplitLines(content);
    var s := Scan(lines);
    JoinSplit(content);
    ScanInk(lines);
    InkTrim(s.current);
    ContentsPush(s.blocks, Block(s.current, s.inCode));
    ContentsPush(s.blocks, Block(Trim(s.current), s.inCode));
    assert Ink("") == "";
  }

  // ------------------------------------------- every block, line for line

  function Fences(lines: seq<string>): nat {
    if lines == [] then 0 else Fences(lines[..|lines| - 1]) + if IsFence(lines[|lines| - 1]) then 1 else 0
  }

  /** The lines `$$` outside code. */
  function Dollars(lines: seq<string>): nat {
    if lines == [] then 0
    else
      var front, last := lines[..|lines| - 1], lines[|lines| - 1];
      Dollars(front) + if !IsFence(last) && Fences(front) % 2 == 0 && Trim(last) == "$$" then 1 else 0
  }

  /** Whether line `k` stands in code: behind an odd number of fences. */
  predicate InCode(lines: seq<string>, k: nat) {
    k <= |lines| && Fences(lines[..k]) % 2 == 1
  }

  predicate InMath(lines: seq<string>, k: nat) {
    k <= |lines| && Dollars(lines[..k]) % 2 == 1
  }

  predicate Visible(line: string) {
    Trim(line) != ""
  }

  /** Line `k` opens code or math. */
  predicate Opens(lines: seq<string>, k: nat) {
    k < |lines| && !InCode(lines, k) && (IsFence(lines[k]) || (Trim(lines[k]) == "$$" && !InMath(lines, k)))
  }

  /** Line `k` closes code or math. */
  predicate Closes(lines: seq<string>, k: nat) {
    k < |lines| && if InCode(lines, k) then IsFence(lines[k]) else !IsFence(lines[k]) && Trim(lines[k]) == "$$" && InMath(lines, k)
  }

  /** Line `k` is empty, outside code and math. */
  predicate Parts(lines: seq<string>, k: nat) {
    k < |lines| && lines[k] == "" && !InCode(lines, k) && !InMath(lines, k)
  }

  /** The text is cut before line `k`: it opens something or is empty, or the line above closes something. */
  predicate CutAt(lines: seq<string>, k: nat) {
    (k > 0 && Closes(lines, k - 1)) || Opens(lines, k) || Parts(lines, k)
  }

  predicate NoFence(lines: seq<string>, a: nat, z: nat) {
    forall i :: a <= i < z <= |lines| ==> !IsFence(lines[i])
  }

  predicate NothingVisible(lines: seq<string>, a: nat, z: nat) {
    forall i :: a <= i < z <= |lines| ==> !Visible(lines[i])
  }

  /** Nothing visible stands before a cut between the lines `a` and `z`. */
  predicate Unbroken(lines: seq<string>, a: nat, z: nat) {
    forall k :: a < k < z && CutAt(lines, k) ==> NothingVisible(lines, a, k)
  }

  /** Line `a` is an opening fence, and no fence follows before `z`. */
  predicate OpensCode(lines: seq<string>, a: nat, z: nat) {
    a < z <= |lines| && IsFence(lines[a]) && !InCode(lines, a) && NoFence(lines, a + 1, z)
  }

  /** The lines from `start` up to `end`. */
  datatype Span = Span(start: nat, end: nat)

  function SpanText(lines: seq<string>, r: Span): string
    requires r.start <= r.end <= |lines|
  {
    Terminated(lines[r.start..r.end])
  }

  /** The lines of the span with a line break between them. */
  function Closed(lines: seq<string>, r: Span): string
    requires r.start < r.end <= |lines|
  {
    Terminated(lines[r.start..r.end - 1]) + lines[r.end - 1]
  }

  /** A code block is the lines from an opening fence to the next fence, unchanged. */
  predicate CodeIs(lines: seq<string>, text: string, r: Span) {
    && r.start + 1 < r.end <= |lines| && OpensCode(lines, r.start, r.end - 1) && IsFence(lines[r.end - 1])
    && text == Closed(lines, r)
  }

  /** Any other block has no fence: it is its lines, unchanged when the last one closes math, else trimmed. */
  predicate ProseIs(lines: seq<string>, text: string, r: Span) {
    && r.start < r.end <= |lines| && NoFence(lines, r.start, r.end)
    && text == if Closes(lines, r.end - 1) then Closed(lines, r) else Trim(SpanText(lines, r))
  }

  predicate BlockIs(lines: seq<string>, b: Block, r: Span) {
    if b.isCodeBlock then CodeIs(lines, b.content, r) else ProseIs(lines, b.content, r)
  }

  /** The span begins with no empty line, and has a cut behind it and none inside. */
  predicate CutOut(lines: seq<string>, r: Span) {
    !Parts(lines, r.start) && Unbroken(lines, r.start, r.end) && CutAt(lines, r.end)
  }

  predicate FinishedOn(lines: seq<string>, b: Block, r: Span) {
    BlockIs(lines, b, r) && Visible(b.content) && CutOut(lines, r)
  }

  /** The last block, when nothing has closed it: its lines up to the last, trimmed outside code and math. */
  predicate OpenOn(lines: seq<string>, b: Block, r: Span) {
    && r.start < r.end == |lines| && Unbroken(lines, r.start, r.end) && !Parts(lines, r.start)
    && b.isCodeBlock == InCode(lines, |lines|)
    && (if b.isCodeBlock then OpensCode(lines, r.start, r.end) else NoFence(lines, r.start, r.end))
    && b.content == if InCode(lines, |lines|) || InMath(lines, |lines|) then SpanText(lines, r) else Trim(SpanText(lines, r))
  }

  predicate InOrder(runs: seq<Span>) {
    forall i, j :: 0 <= i < j < |runs| ==> runs[i].end <= runs[j].start
  }

  predicate InRun(runs: seq<Span>, i: nat) {
    exists p :: 0 <= p < |runs| && runs[p].start <= i < runs[p].end
  }

  /** Every visible line before `a` is on one of the spans. */
  predicate Covered(lines: seq<string>, runs: seq<Span>, a: nat) {
    forall i :: 0 <= i < a <= |lines| && Visible(lines[i]) ==> InRun(runs, i)
  }

  /** The first blocks lie on spans of lines, in order and apart, that end at or before line `a`. */
  predicate LaidOut(lines: seq<string>, blocks: seq<Block>, runs: seq<Span>, a: nat) {
    && |runs| == |blocks| && InOrder(runs) && Covered(lines, runs, a)
    && forall i :: 0 <= i < |runs| ==> FinishedOn(lines, blocks[i], runs[i]) && runs[i].end <= a
  }

  /** Inside a fence the pending text is the lines since `a`; outside it is, but for leading space. */
  predicate PendingText(lines: seq<string>, s: State, a: nat)
    requires a <= |lines|
  {
    if s.inCode || s.inMath then s.current == Terminated(lines[a..])
    else TrimStart(s.current + "\n") == TrimStart(Terminated(lines[a..]))
  }

  predicate PendingFrom(lines: seq<string>, s: State, a: nat) {
    && a <= |lines| && PendingText(lines, s, a)
    && (s.current == "" <==> a == |lines|)
    && (if s.inCode then OpensCode(lines, a, |lines|) else NoFence(lines, a, |lines|))
    && (if a < |lines| then !Closes(lines, |lines| - 1) && !Parts(lines, a) else LeavesNothing(lines))
    && Unbroken(lines, a, |lines|)
  }

  /** There is no line, or the last one is empty or closes something. */
  predicate LeavesNothing(lines: seq<string>) {
    lines == [] || lines[|lines| - 1] == "" || Closes(lines, |lines| - 1)
  }

  predicate Layout(lines: seq<string>, s: State, runs: seq<Span>, a: nat) {
    && (s.inCode <==> InCode(lines, |lines|)) && (s.inMath <==> InMath(lines, |lines|))
    && LaidOut(lines, s.blocks, runs, a) && PendingFrom(lines, s, a)
  }

  // -------------------------------------------------- blank and trimmed text

  predicate AllSpace(s: string) {
    forall c :: c in s ==> IsSpace(c)
  }

  lemma {:induction false} TrimStartIs(s: string) returns (a: nat)
    ensures a <= |s| && TrimStart(s) == s[a..] && AllSpace(s[..a])
    ensures a < |s| ==> !IsSpace(s[a])
  {
    a := 0;
    if s != "" && IsSpace(s[0]) {
      a := TrimStartIs(s[1..]);
      a := a + 1;
      assert s[..a] == [s[0]] + s[1..][..a - 1];
    }
  }

  lemma {:induction false} TrimEndIs(s: string) returns (z: nat)
    ensures z <= |s| && TrimEnd(s) == s[..z] && AllSpace(s[z..])
    ensures z > 0 ==> !IsSpace(s[z - 1])
  {
    z := |s|;
    if s != "" && IsSpace(s[|s| - 1]) {
      var front := s[..|s| - 1];
      z := TrimEndIs(front);
      assert s[..z] == front[..z] && s[z..] == front[z..] + [s[|s| - 1]];
    }
  }

  /** `Trim` takes away just the white space at both ends. */
  lemma TrimIs(s: string) returns (a: nat, z: nat)
    ensures a <= z <= |s| && Trim(s) == s[a..z] && AllSpace(s[..a]) && AllSpace(s[z..])
    ensures a < z ==> !IsSpace(s[a]) && !IsSpace(s[z - 1])
  {
    a := TrimStartIs(s);
    z := TrimEndIs(s[a..]);
    z := a + z;
    assert s[a..][..z - a] == s[a..z] && s[a..][z - a..] == s[z..];
  }

  lemma {:induction false} TrimStartAppend(x: string, y: string)
    ensures TrimStart(x + y) == if TrimStart(x) != "" then TrimStart(x) + y else TrimStart(y)
  {
    if x == "" {
      assert x + y == y;
    } else if IsSpace(x[0]) {
      assert (x + y)[1..] == x[1..] + y;
      TrimStartAppend(x[1..], y);
    }
  }

  lemma TrimEndLine(x: string)
    ensures TrimEnd(x + "\n") == TrimEnd(x)
  {
    assert (x + "\n")[..|x|] == x;
  }

  lemma LineBreakIsSpace()
    ensures TrimStart("\n") == "" && TrimEnd("") == ""
  {
    assert "\n"[1..] == "";
  }

  lemma TrimLine(s: string, t: string)
    requires TrimStart(s + "\n") == TrimStart(t)
    ensures Trim(s) == Trim(t)
  {
    TrimStartAppend(s, "\n");
    TrimEndLine(TrimStart(s));
    LineBreakIsSpace();
  }

  lemma {:induction false} BlankStart(s: string)
    ensures Trim(s) == "" <==> TrimStart(s) == ""
  {
    if s != "" {
      if IsSpace(s[0]) {
        BlankStart(s[1..]);
      } else {
        TrimFirst(s);
      }
    }
  }

  /** A text is visible exactly if it has a visible character. */
  lemma {:induction false} VisibleInk(s: string)
    ensures Visible(s) <==> Ink(s) != ""
  {
    InkTrim(s);
    var t := TrimStart(s);
    InkTrimStart(s);
    BlankStart(s);
    if t != "" {
      StartsVisible(s);
      assert t == [t[0]] + t[1..];
      InkConcat([t[0]], t[1..]);
      assert [t[0]][..0] == "";
    } else {
      assert Ink("") == "";
    }
  }

  lemma {:induction false} StartsVisible(s: string)
    ensures TrimStart(s) != "" ==> !IsSpace(TrimStart(s)[0])
  {
    if s != "" && IsSpace(s[0]) {
      StartsVisible(s[1..]);
    }
  }

  lemma VisibleConcat(x: string, y: string)
    ensures Visible(x + y) <==> Visible(x) || Visible(y)
  {
    InkConcat(x, y);
    VisibleInk(x);
    VisibleInk(y);
    VisibleInk(x + y);
  }

  /** If the lines run together are blank, so is each of them. */
  lemma {:induction false} BlankLines(lines: seq<string>)
    requires !Visible(Terminated(lines))
    ensures NothingVisible(lines, 0, |lines|)
  {
    if lines != [] {
      var front, last := lines[..|lines| - 1], lines[|lines| - 1];
      VisibleConcat(Terminated(front) + last, "\n");
      VisibleConcat(Terminated(front), last);
      BlankLines(front);
      assert forall i :: 0 <= i < |front| ==> front[i] == lines[i];
    }
  }

  // --------------------------------------------------------- one line more

  lemma TerminatedSnoc(lines: seq<string>, line: string, a: nat)
    requires a <= |lines|
    ensures Terminated((lines + [line])[a..]) == Terminated(lines[a..]) + line + "\n"
    ensures (lines + [line])[a..|lines|] == lines[a..]
  {
    var part := (lines + [line])[a..];
    assert part[..|part| - 1] == lines[a..];
  }

  lemma OneLine(lines: seq<string>, line: string)
    ensures Terminated((lines + [line])[|lines|..]) == line + "\n"
    ensures Terminated((lines + [line])[|lines| + 1..]) == ""
  {
    TerminatedSnoc(lines, line, |lines|);
    assert lines[|lines|..] == [] && "" + line + "\n" == line + "\n";
    assert (lines + [line])[|lines| + 1..] == [];
  }

  /** What stands before a line is as it was. */
  lemma ModesStay(lines: seq<string>, line: string, k: nat)
    requires k <= |lines|
    ensures InCode(lines + [line], k) == InCode(lines, k) && InMath(lines + [line], k) == InMath(lines, k)
  {
    assert (lines + [line])[..k] == lines[..k];
  }

  /** The modes behind the new line. */
  lemma ModesAfter(lines: seq<string>, line: string)
    ensures var more, n := lines + [line], |lines|;
            && (InCode(more, n + 1) <==> if IsFence(line) then !InCode(lines, n) else InCode(lines, n))
            && (InMath(more, n + 1) <==>
                  if !IsFence(line) && !InCode(lines, n) && Trim(line) == "$$" then !InMath(lines, n) else InMath(lines, n))
  {
    var more := lines + [line];
    assert more[..|more|] == more && more[..|lines|] == lines && lines[..|lines|] == lines;
  }

  lemma CutsStay(lines: seq<string>, line: string, k: nat)
    ensures k < |lines| ==> Closes(lines + [line], k) == Closes(lines, k) && Parts(lines + [line], k) == Parts(lines, k)
    ensures k < |lines| ==> CutAt(lines + [line], k) == CutAt(lines, k)
    ensures k == |lines| && CutAt(lines, k) ==> CutAt(lines + [line], k)
    ensures k == |lines| && CutAt(lines + [line], k) ==> CutAt(lines, k) || Opens(lines + [line], k) || Parts(lines + [line], k)
  {
    if k <= |lines| {
      ModesStay(lines, line, k);
      if k > 0 {
        ModesStay(lines, line, k - 1);
      }
    }
  }

  lemma UnbrokenStays(lines: seq<string>, line: string, a: nat, z: nat)
    requires Unbroken(lines, a, z) && z <= |lines|
    ensures Unbroken(lines + [line], a, z)
  {
    forall k | a < k < z && CutAt(lines + [line], k) ensures NothingVisible(lines + [line], a, k) {
      CutsStay(lines, line, k);
      assert NothingVisible(lines, a, k);
    }
  }

  /** The pending lines take one more, that opens nothing and parts nothing visible. */
  lemma UnbrokenGrows(lines: seq<string>, line: string, a: nat)
    requires Unbroken(lines, a, |lines|) && a <= |lines| && (a < |lines| ==> !Closes(lines, |lines| - 1))
    requires !Opens(lines + [line], |lines|)
    requires Parts(lines + [line], |lines|) ==> NothingVisible(lines, a, |lines|)
    ensures Unbroken(lines + [line], a, |lines| + 1)
  {
    var more := lines + [line];
    UnbrokenStays(lines, line, a, |lines|);
    if a < |lines| && CutAt(more, |lines|) {
      CutsStay(lines, line, |lines|);
      assert !CutAt(lines, |lines|);
      assert NothingVisible(more, a, |lines|);
    }
  }

  lemma OpensCodeGrows(lines: seq<string>, line: string, a: nat, z: nat)
    requires OpensCode(lines, a, z)
    ensures OpensCode(lines + [line], a, z)
    ensures z == |lines| && !IsFence(line) ==> OpensCode(lines + [line], a, z + 1)
  {
    ModesStay(lines, line, a);
  }

  lemma SliceStays(lines: seq<string>, line: string, a: nat, z: nat)
    requires a <= z <= |lines|
    ensures (lines + [line])[a..z] == lines[a..z]
  {
  }

  lemma CodeGrows(lines: seq<string>, line: string, text: string, r: Span)
    requires CodeIs(lines, text, r)
    ensures CodeIs(lines + [line], text, r)
  {
    SliceStays(lines, line, r.start, r.end - 1);
    OpensCodeGrows(lines, line, r.start, r.end - 1);
  }

  lemma ProseGrows(lines: seq<string>, line: string, text: string, r: Span)
    requires ProseIs(lines, text, r)
    ensures ProseIs(lines + [line], text, r)
  {
    SliceStays(lines, line, r.start, r.end - 1);
    SliceStays(lines, line, r.start, r.end);
    CutsStay(lines, line, r.end - 1);
  }

  lemma CutOutGrows(lines: seq<string>, line: string, r: Span)
    requires CutOut(lines, r) && r.start < r.end <= |lines|
    ensures CutOut(lines + [line], r)
  {
    CutsStay(lines, line, r.start);
    CutsStay(lines, line, r.end);
    UnbrokenStays(lines, line, r.start, r.end);
  }

  lemma FinishedGrows(lines: seq<string>, line: string, b: Block, r: Span)
    requires FinishedOn(lines, b, r)
    ensures FinishedOn(lines + [line], b, r)
  {
    if b.isCodeBlock {
      CodeGrows(lines, line, b.content, r);
    } else {
      ProseGrows(lines, line, b.content, r);
    }
    CutOutGrows(lines, line, r);
  }

  lemma LaidOutGrows(lines: seq<string>, line: string, blocks: seq<Block>, runs: seq<Span>, a: nat)
    requires LaidOut(lines, blocks, runs, a) && a <= |lines|
    ensures LaidOut(lines + [line], blocks, runs, a)
  {
    forall i | 0 <= i < |runs| ensures FinishedOn(lines + [line], blocks[i], runs[i]) {
      FinishedGrows(lines, line, blocks[i], runs[i]);
    }
  }

  /** Lines without visible text need no span. */
  lemma LaidOutSkips(lines: seq<string>, blocks: seq<Block>, runs: seq<Span>, a: nat, a': nat)
    requires LaidOut(lines, blocks, runs, a) && a <= a' <= |lines| && NothingVisible(lines, a, a')
    ensures LaidOut(lines, blocks, runs, a')
  {
  }

  lemma RunsGrow(runs: seq<Span>, r: Span, i: nat)
    ensures InRun(runs + [r], i) <==> InRun(runs, i) || r.start <= i < r.end
  {
    var more := runs + [r];
    if InRun(runs, i) {
      var p :| 0 <= p < |runs| && runs[p].start <= i < runs[p].end;
      assert more[p] == runs[p];
    }
    assert more[|runs|] == r;
  }

  /** One block more, behind those already laid out. */
  lemma LaidOutSnoc(lines: seq<string>, blocks: seq<Block>, runs: seq<Span>, a: nat, b: Block, z: nat)
    requires LaidOut(lines, blocks, runs, a) && FinishedOn(lines, b, Span(a, z))
    ensures LaidOut(lines, blocks + [b], runs + [Span(a, z)], z)
  {
    CoveredSnoc(lines, runs, a, z);
  }

  lemma CoveredSnoc(lines: seq<string>, runs: seq<Span>, a: nat, z: nat)
    requires Covered(lines, runs, a) && a <= z <= |lines|
    ensures Covered(lines, runs + [Span(a, z)], z)
  {
    forall i | 0 <= i < z && Visible(lines[i]) ensures InRun(runs + [Span(a, z)], i) {
      RunsGrow(runs, Span(a, z), i);
    }
  }

  // ------------------------------------------------------ the pending lines

  /** Pending text outside code lies on its lines, trimmed. */
  lemma PendingIsTrimmed(lines: seq<string>, s: State, a: nat)
    requires a <= |lines| && PendingText(lines, s, a)
    ensures Trim(s.current) == Trim(Terminated(lines[a..]))
  {
    if !s.inCode && !s.inMath {
      TrimLine(s.current, Terminated(lines[a..]));
    }
  }

  /** Blank pending text comes from blank lines. */
  lemma PendingIsBlank(lines: seq<string>, s: State, a: nat)
    requires PendingFrom(lines, s, a) && !Visible(s.current)
    ensures NothingVisible(lines, a, |lines|)
  {
    PendingIsTrimmed(lines, s, a);
    BlankLines(lines[a..]);
    forall i | a <= i < |lines| ensures !Visible(lines[i]) {
      assert lines[i] == lines[a..][i - a];
    }
  }

  lemma ClosingText(lines: seq<string>, line: string, s: State, a: nat)
    requires a <= |lines| && s.current == Terminated(lines[a..])
    ensures s.current + line == Closed(lines + [line], Span(a, |lines| + 1))
  {
    assert (lines + [line])[a..|lines|] == lines[a..];
  }

  /** Pushing the pending paragraph before a line that cuts the text lays it out. */
  lemma FlushLaidOut(lines: seq<string>, line: string, s: State, runs: seq<Span>, a: nat) returns (runs': seq<Span>)
    requires LaidOut(lines, s.blocks, runs, a) && PendingFrom(lines, s, a) && !s.inCode
    requires CutAt(lines + [line], |lines|)
    ensures LaidOut(lines + [line], Flush(s).blocks, runs', |lines|)
  {
    var more, r := lines + [line], Span(a, |lines|);
    LaidOutGrows(lines, line, s.blocks, runs, a);
    if Visible(s.current) {
      FlushedBlock(lines, line, s, a);
      LaidOutSnoc(more, s.blocks, runs, a, Block(Trim(s.current), false), |lines|);
      runs' := runs + [r];
    } else {
      PendingIsBlank(lines, s, a);
      LaidOutSkips(more, s.blocks, runs, a, |lines|);
      runs' := runs;
    }
  }

  lemma TrimTwice(s: string)
    ensures Visible(Trim(s)) <==> Visible(s)
  {
    VisibleInk(s);
    VisibleInk(Trim(s));
    InkTrim(s);
  }

  lemma TrimmedIsProse(lines: seq<string>, line: string, a: nat)
    requires a < |lines| && NoFence(lines, a, |lines|) && !Closes(lines, |lines| - 1)
    ensures ProseIs(lines + [line], Trim(Terminated(lines[a..])), Span(a, |lines|))
  {
    assert (lines + [line])[a..|lines|] == lines[a..];
    CutsStay(lines, line, |lines| - 1);
  }

  lemma FlushedBlock(lines: seq<string>, line: string, s: State, a: nat)
    requires PendingFrom(lines, s, a) && !s.inCode && Visible(s.current)
    requires CutAt(lines + [line], |lines|)
    ensures FinishedOn(lines + [line], Block(Trim(s.current), false), Span(a, |lines|))
  {
    UnbrokenStays(lines, line, a, |lines|);
    CutsStay(lines, line, a);
    PendingIsTrimmed(lines, s, a);
    TrimmedIsProse(lines, line, a);
    TrimTwice(s.current);
  }

  /** The block that a new line finishes, laid out with it. */
  lemma CloseLaidOut(lines: seq<string>, line: string, blocks: seq<Block>, runs: seq<Span>, a: nat, b: Block)
    requires LaidOut(lines, blocks, runs, a) && FinishedOn(lines + [line], b, Span(a, |lines| + 1)) && a <= |lines|
    ensures LaidOut(lines + [line], blocks + [b], runs + [Span(a, |lines| + 1)], |lines| + 1)
  {
    LaidOutGrows(lines, line, blocks, runs, a);
    LaidOutSnoc(lines + [line], blocks, runs, a, b, |lines| + 1);
  }

  /** A line that closes code or math takes the pending lines with it. */
  lemma ClosedBlock(lines: seq<string>, line: string, s: State, a: nat, b: Block)
    requires PendingFrom(lines, s, a) && (s.inCode || s.inMath)
    requires Closes(lines + [line], |lines|) && Visible(line)
    requires b == Block(s.current + line, s.inCode) && (s.inCode <==> InCode(lines, |lines|))
    ensures FinishedOn(lines + [line], b, Span(a, |lines| + 1))
  {
    var more := lines + [line];
    ModesStay(lines, line, |lines|);
    CutsStay(lines, line, a);
    ClosingText(lines, line, s, a);
    VisibleConcat(s.current, line);
    UnbrokenGrows(lines, line, a);
    if s.inCode {
      OpensCodeGrows(lines, line, a, |lines|);
    }
    assert CutAt(more, |more|);
  }

  /** A line that opens code or math is what is pending behind it. */
  lemma OpenPending(lines: seq<string>, line: string, s: State)
    requires s.current == line + "\n" && (s.inCode || s.inMath)
    requires Opens(lines + [line], |lines|) && (s.inCode <==> IsFence(line))
    ensures PendingFrom(lines + [line], s, |lines|)
  {
    OneLine(lines, line);
    ModesStay(lines, line, |lines|);
  }

  /** Nothing is pending at the end. */
  lemma NonePending(lines: seq<string>, s: State)
    requires s.current == "" && !s.inCode && LeavesNothing(lines)
    ensures PendingFrom(lines, s, |lines|)
  {
    assert lines[|lines|..] == [];
    LineBreakIsSpace();
    assert "" + "\n" == "\n" && Terminated([]) == "";
  }

  lemma FenceVisible(line: string)
    requires IsFence(line) || Trim(line) == "$$"
    ensures Visible(line)
  {
    if IsFence(line) {
      assert line[0] == '`';
      TrimFirst(line);
    }
  }

  lemma FenceLayout(lines: seq<string>, line: string, s: State, runs: seq<Span>, a: nat) returns (runs': seq<Span>, a': nat)
    requires Layout(lines, s, runs, a) && IsFence(line)
    ensures Layout(lines + [line], Step(s, line), runs', a')
  {
    var more := lines + [line];
    ModesAfter(lines, line);
    ModesStay(lines, line, |lines|);
    FenceVisible(line);
    if s.inCode {
      runs', a' := runs + [Span(a, |more|)], |more|;
      ClosedBlock(lines, line, s, a, Block(s.current + line, true));
      CloseLaidOut(lines, line, s.blocks, runs, a, Block(s.current + line, true));
      NonePending(more, Step(s, line));
    } else {
      a' := |lines|;
      runs' := FlushLaidOut(lines, line, s, runs, a);
      OpenPending(lines, line, Step(s, line));
    }
  }

  lemma DollarsLayout(lines: seq<string>, line: string, s: State, runs: seq<Span>, a: nat) returns (runs': seq<Span>, a': nat)
    requires Layout(lines, s, runs, a) && !IsFence(line) && !s.inCode && Trim(line) == "$$"
    ensures Layout(lines + [line], Step(s, line), runs', a')
  {
    var more := lines + [line];
    ModesAfter(lines, line);
    ModesStay(lines, line, |lines|);
    FenceVisible(line);
    if s.inMath {
      runs', a' := runs + [Span(a, |more|)], |more|;
      ClosedBlock(lines, line, s, a, Block(s.current + line, false));
      CloseLaidOut(lines, line, s.blocks, runs, a, Block(s.current + line, false));
      NonePending(more, Step(s, line));
    } else {
      a' := |lines|;
      runs' := FlushLaidOut(lines, line, s, runs, a);
      OpenPending(lines, line, Step(s, line));
    }
  }

  /** The pending lines with one more that cuts nothing visible off. */
  lemma PendingGrows(lines: seq<string>, line: string, s: State, s': State, a: nat)
    requires PendingFrom(lines, s, a) && PendingText(lines + [line], s', a) && s'.current != ""
    requires s'.inCode == s.inCode && !IsFence(line)
    requires !Opens(lines + [line], |lines|) && !Closes(lines + [line], |lines|)
    requires Parts(lines + [line], |lines|) ==> a < |lines| && NothingVisible(lines, a, |lines|)
    ensures PendingFrom(lines + [line], s', a)
  {
    CutsStay(lines, line, a);
    UnbrokenGrows(lines, line, a);
    if s.inCode {
      OpensCodeGrows(lines, line, a, |lines|);
    }
  }

  /** Inside code or math a line is appended. */
  lemma InsideLayout(lines: seq<string>, line: string, s: State, runs: seq<Span>, a: nat)
    requires Layout(lines, s, runs, a) && !IsFence(line) && (s.inCode || (s.inMath && Trim(line) != "$$"))
    ensures Layout(lines + [line], Step(s, line), runs, a)
  {
    var more, after := lines + [line], Step(s, line);
    assert (after.inCode <==> InCode(more, |more|)) && (after.inMath <==> InMath(more, |more|)) by {
      ModesAfter(lines, line);
    }
    assert LaidOut(more, after.blocks, runs, a) by {
      LaidOutGrows(lines, line, s.blocks, runs, a);
    }
    InsidePending(lines, line, s, a);
  }

  lemma InsidePending(lines: seq<string>, line: string, s: State, a: nat)
    requires PendingFrom(lines, s, a) && (s.inCode <==> InCode(lines, |lines|)) && (s.inMath <==> InMath(lines, |lines|))
    requires !IsFence(line) && (s.inCode || (s.inMath && Trim(line) != "$$"))
    ensures PendingFrom(lines + [line], Step(s, line), a)
  {
    ModesStay(lines, line, |lines|);
    TerminatedSnoc(lines, line, a);
    PendingGrows(lines, line, s, Step(s, line), a);
  }

  lemma AppendedText(lines: seq<string>, line: string, s: State, a: nat)
    requires a <= |lines| && PendingText(lines, s, a) && !s.inCode && !s.inMath && !IsFence(line) && Trim(line) != "$$"
    requires Step(s, line).current != "" && s.current != ""
    ensures PendingText(lines + [line], Step(s, line), a)
  {
    TerminatedSnoc(lines, line, a);
    var t := Terminated(lines[a..]);
    var w := line + "\n";
    assert t + line + "\n" == t + w;
    TrimStartAppend(s.current + "\n", w);
    TrimStartAppend(t, w);
    if line == "" {
      BlankStart(s.current);
      TrimStartAppend(s.current, "\n");
      LineBreakIsSpace();
      assert w == "\n";
    } else {
      assert s.current + "\n" + line + "\n" == s.current + "\n" + w;
    }
  }

  /** Outside code and math a line that pushes nothing is pending behind the others. */
  lemma AppendPending(lines: seq<string>, line: string, s: State, a: nat)
    requires PendingFrom(lines, s, a) && !InCode(lines, |lines|) && !InMath(lines, |lines|)
    requires !IsFence(line) && !s.inCode && !s.inMath && Trim(line) != "$$"
    requires line == "" ==> s.current != "" && !Visible(s.current)
    ensures PendingFrom(lines + [line], Step(s, line), a)
  {
    ModesStay(lines, line, |lines|);
    if line == "" {
      PendingIsBlank(lines, s, a);
    }
    if s.current == "" {
      OneLine(lines, line);
    } else {
      AppendedText(lines, line, s, a);
    }
    PendingGrows(lines, line, s, Step(s, line), a);
  }

  lemma TextLayout(lines: seq<string>, line: string, s: State, runs: seq<Span>, a: nat) returns (runs': seq<Span>, a': nat)
    requires Layout(lines, s, runs, a) && !IsFence(line) && !s.inCode && !s.inMath && Trim(line) != "$$"
    ensures Layout(lines + [line], Step(s, line), runs', a')
  {
    var more := lines + [line];
    ModesAfter(lines, line);
    ModesStay(lines, line, |lines|);
    if line == "" && (Visible(s.current) || s.current == "") {
      a' := |more|;
      runs' := FlushLaidOut(lines, line, s, runs, a);
      assert !Visible(line);
      LaidOutSkips(more, Flush(s).blocks, runs', |lines|, |more|);
      NonePending(more, Step(s, line));
    } else {
      runs', a' := runs, a;
      LaidOutGrows(lines, line, s.blocks, runs, a);
      AppendPending(lines, line, s, a);
    }
  }

  /** A line more keeps the layout. */
  lemma StepLayout(lines: seq<string>, line: string, s: State, runs: seq<Span>, a: nat) returns (runs': seq<Span>, a': nat)
    requires Layout(lines, s, runs, a)
    ensures Layout(lines + [line], Step(s, line), runs', a')
  {
    if IsFence(line) {
      runs', a' := FenceLayout(lines, line, s, runs, a);
    } else if s.inCode || (s.inMath && Trim(line) != "$$") {
      runs', a' := runs, a;
      InsideLayout(lines, line, s, runs, a);
    } else if Trim(line) == "$$" {
      runs', a' := DollarsLayout(lines, line, s, runs, a);
    } else {
      runs', a' := TextLayout(lines, line, s, runs, a);
    }
  }

  lemma {:induction false} ScanLayout(lines: seq<string>) returns (runs: seq<Span>, a: nat)
    ensures Layout(lines, Scan(lines), runs, a)
  {
    runs, a := [], 0;
    if lines == [] {
      NonePending(lines, INITIAL);
    } else {
      var front, line := lines[..|lines| - 1], lines[|lines| - 1];
      runs, a := ScanLayout(front);
      assert front + [line] == lines;
      runs, a := StepLayout(front, line, Scan(front), runs, a);
    }
  }

  // ------------------------------------------------------------ the theorems

  /** The spans of the text's blocks: in order and apart, only the last one perhaps not closed. */
  predicate BlocksOn(lines: seq<string>, blocks: seq<Block>, runs: seq<Span>) {
    && |runs| == |blocks| && InOrder(runs)
    && forall i :: 0 <= i < |runs| ==>
         FinishedOn(lines, blocks[i], runs[i]) || (i == |runs| - 1 && OpenOn(lines, blocks[i], runs[i]))
  }

  predicate SameRun(runs: seq<Span>, i: nat, j: nat) {
    exists p :: 0 <= p < |runs| && runs[p].start <= i < runs[p].end && runs[p].start <= j < runs[p].end
  }

  predicate NoCutBetween(lines: seq<string>, i: nat, j: nat) {
    forall k :: i < k <= j ==> !CutAt(lines, k)
  }

  /** Behind a block that does not reach line `j` the text is cut. */
  lemma CutBehindBlock(lines: seq<string>, blocks: seq<Block>, runs: seq<Span>, i: nat, j: nat)
    requires BlocksOn(lines, blocks, runs) && i < j < |lines| && InRun(runs, i)
    ensures SameRun(runs, i, j) || !NoCutBetween(lines, i, j)
  {
    var p :| 0 <= p < |runs| && runs[p].start <= i < runs[p].end;
    if runs[p].end <= j {
      assert CutAt(lines, runs[p].end);
    }
  }

  lemma NoCutInside(lines: seq<string>, r: Span, i: nat, k: nat)
    requires Unbroken(lines, r.start, r.end) && r.start <= i < k < r.end <= |lines| && Visible(lines[i])
    ensures !CutAt(lines, k)
  {
  }

  lemma NoCutInBlock(lines: seq<string>, blocks: seq<Block>, runs: seq<Span>, i: nat, j: nat)
    requires BlocksOn(lines, blocks, runs) && i < j < |lines| && Visible(lines[i]) && SameRun(runs, i, j)
    ensures NoCutBetween(lines, i, j)
  {
    var p :| 0 <= p < |runs| && runs[p].start <= i < runs[p].end && runs[p].start <= j < runs[p].end;
    forall k | i < k <= j ensures !CutAt(lines, k) {
      NoCutInside(lines, runs[p], i, k);
    }
  }

  /**
   The blocks lie on spans of the text's lines, in order and apart: a code block on
   those from an opening fence to the next fence, unchanged; any other on lines
   without a fence, unchanged when they end by closing math and trimmed otherwise.
   Every block but an unclosed last one has visible text, every visible line is in a
   block, and a last line that is not empty and closes nothing is in the last one.
   */
  lemma BlocksAreLines(content: string) returns (runs: seq<Span>)
    ensures BlocksOn(SplitLines(content), Split(content), runs)
    ensures Covered(SplitLines(content), runs, |SplitLines(content)|)
    ensures LeavesNothing(SplitLines(content)) || (runs != [] && runs[|runs| - 1].end == |SplitLines(content)|)
  {
    var lines := SplitLines(content);
    var s, a := Scan(lines), 0;
    runs, a := ScanLayout(lines);
    assert lines[a..|lines|] == lines[a..];
    if s.current != "" {
      PendingIsTrimmed(lines, s, a);
      CoveredSnoc(lines, runs, a, |lines|);
      runs := runs + [Span(a, |lines|)];
    }
  }

  /**
   Where the blocks end: two visible lines are in one block exactly if no line
   between them, the second included, opens code or math, comes behind one that
   closes them, or is empty outside both.
   */
  lemma SameBlockWhen(content: string, runs: seq<Span>, i: nat, j: nat)
    requires BlocksOn(SplitLines(content), Split(content), runs)
    requires Covered(SplitLines(content), runs, |SplitLines(content)|)
    requires i < j < |SplitLines(content)| && Visible(SplitLines(content)[i]) && Visible(SplitLines(content)[j])
    ensures SameRun(runs, i, j) <==> NoCutBetween(SplitLines(content), i, j)
  {
    var lines, blocks := SplitLines(content), Split(content);
    CutBehindBlock(lines, blocks, runs, i, j);
    if SameRun(runs, i, j) {
      NoCutInBlock(lines, blocks, runs, i, j);
    }
  }

  /** Every code block is source lines joined unchanged, from an opening fence to the next fence or to the end. */
  lemma CodeIsVerbatim(content: string, i: nat)
    requires i < |Split(content)| && Split(content)[i].isCodeBlock
    ensures exists r: Span :: CodeIs(SplitLines(content), Split(content)[i].content, r)
                              || (i == |Split(content)| - 1 && OpenOn(SplitLines(content), Split(content)[i], r))
  {
    var runs := BlocksAreLines(content);
    assert CodeIs(SplitLines(content), Split(content)[i].content, runs[i])
        || (i == |Split(content)| - 1 && OpenOn(SplitLines(content), Split(content)[i], runs[i]));
  }
}
