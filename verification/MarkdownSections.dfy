/**
 The fence-aware Markdown section parser of `runtime/src/project-doc.ts`.
 `ExtractMarkdownSections` is the line loop, `Sections` says what it computes in terms of
 fence parity, `Render` prints sections back, and `Canonical` describes what extraction produces.
 */
module MarkdownSections {
  import opened Outcomes
  import opened Text
  import opened SectionBlocks

  datatype Section = Section(level: nat, heading: string, body: string)
  datatype Heading = Heading(level: nat, text: string)
  datatype Pending = Pending(level: nat, heading: string, lines: seq<string>)

  // ---------------------------------------------------------------- headings and fences

  predicate IsDot(c: char) {
    c != '\n' && c != '\r' && c != '\U{2028}' && c != '\U{2029}'
  }

  predicate AllDot(s: string) { forall c :: c in s ==> IsDot(c) }

  predicate AllSpace(s: string) { forall c :: c in s ==> IsSpace(c) }

  function Hashes(n: nat): (s: string)
    ensures |s| == n && forall i :: 0 <= i < n ==> s[i] == '#'
  {
    seq(n, _ => '#')
  }

  function HashRun(s: string): (n: nat)
    ensures n <= |s| && forall i :: 0 <= i < n ==> s[i] == '#'
    ensures n < |s| ==> s[n] != '#'
  {
    if s != "" && s[0] == '#' then 1 + HashRun(s[1..]) else 0
  }

  /** The match of `/^(#{1,6})\s+(.+?)\s*$/` on a trimmed line. */
  function ParseHeading(trimmed: string): Option<Heading> {
    var n := HashRun(trimmed);
    var rest := trimmed[n..];
    var text := TrimStart(rest);
    if 1 <= n <= 6 && |text| < |rest| && text != "" && AllDot(text) then Some(Heading(n, text)) else None
  }

  predicate IsFence(trimmed: string) {
    "```" <= trimmed
  }

  function KindOf(trimmed: string): Kind {
    if IsFence(trimmed) then Fence
    else match ParseHeading(trimmed)
         case Some(h) => Head(h.level, Trim(h.text))
         case None => Plain
  }

  function Classify(text: string): Line {
    Line(text, KindOf(Trim(text)))
  }

  function ClassifyAll(texts: seq<string>): (lines: seq<Line>)
    ensures |lines| == |texts| && forall i :: 0 <= i < |texts| ==> lines[i] == Classify(texts[i])
  {
    seq(|texts|, i requires 0 <= i < |texts| => Classify(texts[i]))
  }

  /** The parts of a string that the heading pattern allows. */
  predicate MatchesPattern(s: string, level: nat, gap: string, text: string, tail: string) {
    && s == Hashes(level) + gap + text + tail && 1 <= level <= 6
    && gap != "" && AllSpace(gap) && text != "" && AllDot(text) && AllSpace(tail)
  }

  lemma HashRunIs(s: string, n: nat)
    requires n < |s| && s[n] != '#' && forall i :: 0 <= i < n ==> s[i] == '#'
    ensures HashRun(s) == n
  {}

  lemma ParseHeadingIs(level: nat, gap: string, text: string)
    requires 1 <= level <= 6 && gap != "" && AllSpace(gap)
    requires text != "" && !IsSpace(text[0]) && AllDot(text)
    ensures ParseHeading(Hashes(level) + gap + text) == Some(Heading(level, text))
  {
    var s := Hashes(level) + gap + text;
    assert s[level] == gap[0] && gap[0] in gap;
    HashRunIs(s, level);
    assert s[level..] == gap + text;
    TrimStartUnique(gap + text, |gap|);
  }

  /** Every way of matching the pattern on a trimmed line gives the same level and the same trimmed text. */
  lemma PatternIsUnambiguous(s: string, level: nat, gap: string, text: string, tail: string)
    requires Trim(s) == s && MatchesPattern(s, level, gap, text, tail)
    ensures ParseHeading(s) == Some(Heading(level, Trim(text)))
  {
    hide ParseHeading, TrimStart, Hashes;
    if tail != "" {
      assert s[|s| - 1] == tail[|tail| - 1] && tail[|tail| - 1] in tail;
    }
    TrimShape(s);
    var visible := TrimStart(text);
    var gap' := gap + text[..|text| - |visible|];
    TrimStartShape(text);
    assert s[|s| - 1] == text[|text| - 1];
    assert TrimEnd(visible) == visible;
    ParseHeadingIs(level, gap', visible);
    assert s == Hashes(level) + gap' + visible;
  }

  /** What `ParseHeading` answers is a match of the pattern. */
  lemma PatternIsMatched(s: string)
    requires ParseHeading(s).Some?
    ensures exists gap :: MatchesPattern(s, ParseHeading(s).value.level, gap, ParseHeading(s).value.text, "")
  {
    hide TrimStart, IsSpace;
    var Heading(n, text) := ParseHeading(s).value;
    TrimStartShape(s[n..]);
    var gap := s[n..|s| - |text|];
    assert forall i :: 0 <= i < |gap| ==> gap[i] == s[n..][i];
    assert s == Hashes(n) + gap + text + "";
    assert MatchesPattern(s, n, gap, text, "");
  }

  predicate IsTitle(level: nat, title: string) {
    1 <= level <= 6 && title != "" && Trim(title) == title && AllDot(title)
  }

  lemma HeadIsTitle(text: string)
    requires Classify(text).kind.Head?
    ensures IsTitle(Classify(text).kind.level, Classify(text).kind.title)
  {
    hide HashRun, TrimStart;
    TrimShape(text);
    var s := Trim(text);
    var title := ParseHeading(s).value.text;
    TrimStartShape(s[HashRun(s)..]);
    assert title[|title| - 1] == s[|s| - 1];
    TrimFixed(title);
  }

  // ---------------------------------------------------------------- lines

  function DropCarriageReturn(l: string): string {
    if l != "" && l[|l| - 1] == '\r' then l[..|l| - 1] else l
  }

  /** `content.split(/\r?\n/)`: a carriage return goes with the newline that follows it. */
  function SplitLines(content: string): (lines: seq<string>) {
    var ls := Split(content);
    seq(|ls|, i requires 0 <= i < |ls| => if i < |ls| - 1 then DropCarriageReturn(ls[i]) else ls[i])
  }

  /** The lines of `content` as the loop sees them, after `trimEnd`. */
  function TrimmedLines(content: string): (lines: seq<string>) {
    var ls := SplitLines(content);
    seq(|ls|, i requires 0 <= i < |ls| => TrimEnd(ls[i]))
  }

  /** No newline inside and no white space at the end. */
  predicate Tidy(line: string) {
    '\n' !in line && (line != "" ==> !IsSpace(line[|line| - 1]))
  }

  predicate AllTidy(lines: seq<string>) {
    forall i :: 0 <= i < |lines| ==> Tidy(lines[i])
  }

  lemma TrimmedLinesAreTidy(content: string)
    ensures AllTidy(TrimmedLines(content))
  {
    var lines := TrimmedLines(content);
    forall i | 0 <= i < |lines| ensures Tidy(lines[i]) {
      assert Split(content)[i] in Split(content);
      TrimEndShape(SplitLines(content)[i]);
      assert forall c :: c in lines[i] ==> c in Split(content)[i];
    }
  }

  /** Tidy lines survive joining and reading back. */
  lemma TidyLinesReadBack(lines: seq<string>)
    requires lines != [] && AllTidy(lines)
    ensures Split(Join(lines)) == lines && TrimmedLines(Join(lines)) == lines
  {
    SplitJoin(lines);
    forall i | 0 <= i < |lines| ensures TrimmedLines(Join(lines))[i] == lines[i] {
      assert Tidy(lines[i]) && TrimEnd(lines[i]) == lines[i];
    }
  }

  // ---------------------------------------------------------------- what the loop computes

  function Body(lines: seq<string>): string {
    Trim(Join(lines))
  }

  function Texts(lines: seq<Line>): (texts: seq<string>)
    ensures |texts| == |lines| && forall i :: 0 <= i < |lines| ==> texts[i] == lines[i].text
  {
    seq(|lines|, i requires 0 <= i < |lines| => lines[i].text)
  }

  function ToSection(b: Block): Section {
    Section(b.level, b.title, Body(Texts(b.lines)))
  }

  function ToSections(blocks: seq<Block>): (sections: seq<Section>)
    ensures |sections| == |blocks| && forall k :: 0 <= k < |blocks| ==> sections[k] == ToSection(blocks[k])
  {
    seq(|blocks|, k requires 0 <= k < |blocks| => ToSection(blocks[k]))
  }

  /** One section for each block that the starts of `content` delimit. */
  function Sections(content: string): seq<Section> {
    ToSections(Blocks(ClassifyAll(TrimmedLines(content))))
  }

  function Flush(sections: seq<Section>, current: Option<Pending>): seq<Section> {
    match current
    case None => sections
    case Some(p) => sections + [Section(p.level, p.heading, Body(p.lines))]
  }

  function Push(current: Option<Pending>, line: string): Option<Pending> {
    match current
    case None => None
    case Some(p) => Some(p.(lines := p.lines + [line]))
  }

  datatype LoopState = LoopState(sections: seq<Section>, current: Option<Pending>)

  /** The loop variables that hold `blocks`: all but the last flushed, the last one pending. */
  function Holding(blocks: seq<Block>): LoopState {
    if blocks == [] then LoopState([], None)
    else
      var last := blocks[|blocks| - 1];
      LoopState(ToSections(blocks[..|blocks| - 1]), Some(Pending(last.level, last.title, Texts(last.lines))))
  }

  lemma PushHeld(blocks: seq<Block>, line: Line)
    ensures Holding(AppendToLast(blocks, [line]))
            == LoopState(Holding(blocks).sections, Push(Holding(blocks).current, line.text))
  {
    if blocks != [] {
      var last := blocks[|blocks| - 1];
      assert Texts(last.lines + [line]) == Texts(last.lines) + [line.text];
      assert AppendToLast(blocks, [line])[..|blocks| - 1] == blocks[..|blocks| - 1];
    }
  }

  lemma FlushHeld(blocks: seq<Block>)
    ensures Flush(Holding(blocks).sections, Holding(blocks).current) == ToSections(blocks)
  {}

  lemma StartHeld(blocks: seq<Block>, level: nat, title: string)
    ensures Holding(blocks + [Block(level, title, [])])
            == LoopState(Flush(Holding(blocks).sections, Holding(blocks).current), Some(Pending(level, title, [])))
  {}

  /** The blocks after one more line. */
  function NextBlocks(blocks: seq<Block>, inFence: bool, line: Line): seq<Block> {
    if line.kind.Head? && !inFence then blocks + [Block(line.kind.level, line.kind.title, [])]
    else AppendToLast(blocks, [line])
  }

  lemma ReadPrefix(lines: seq<Line>, i: nat)
    requires i < |lines|
    ensures Open(lines[..i + 1]) == (Open(lines[..i]) != lines[i].kind.Fence?)
    ensures Blocks(lines[..i + 1]) == NextBlocks(Blocks(lines[..i]), Open(lines[..i]), lines[i])
  {
    assert lines[..i + 1] == lines[..i] + [lines[i]];
    FencesConcat(lines[..i], [lines[i]]);
    if lines[i].kind.Head? && !Open(lines[..i]) {
      AppendStart(lines[..i], lines[i]);
    } else {
      AppendBodyLine(lines[..i], lines[i]);
    }
  }

  /** The body of the line loop. */
  method ReadLine(line: string, inFence: bool, sections: seq<Section>, current: Option<Pending>, ghost blocks: seq<Block>)
    returns (inFence': bool, sections': seq<Section>, current': Option<Pending>)
    requires LoopState(sections, current) == Holding(blocks)
    ensures inFence' == (inFence != Classify(line).kind.Fence?)
    ensures LoopState(sections', current') == Holding(NextBlocks(blocks, inFence, Classify(line)))
  {
    inFence', sections', current' := inFence, sections, current;
    var trimmed := Trim(line);
    if IsFence(trimmed) {
      inFence' := !inFence;
      PushHeld(blocks, Classify(line));
      current' := Push(current, line);
      return;
    }
    if !inFence {
      var match' := ParseHeading(trimmed);
      if match'.Some? {
        var level, heading := match'.value.level, Trim(match'.value.text);
        StartHeld(blocks, level, heading);
        sections' := Flush(sections, current);
        current' := Some(Pending(level, heading, []));
        return;
      }
    }
    PushHeld(blocks, Classify(line));
    current' := Push(current, line);
  }

  /** `extractMarkdownSections`. */
  method ExtractMarkdownSections(content: string) returns (sections: seq<Section>)
    ensures sections == Sections(content)
  {
    var rawLines := SplitLines(content);
    ghost var lines := ClassifyAll(TrimmedLines(content));
    sections := [];
    var inFence := false;
    var current: Option<Pending> := None;
    for i := 0 to |rawLines|
      invariant inFence == Open(lines[..i])
      invariant LoopState(sections, current) == Holding(Blocks(lines[..i]))
    {
      ReadPrefix(lines, i);
      var line := TrimEnd(rawLines[i]);
      inFence, sections, current := ReadLine(line, inFence, sections, current, Blocks(lines[..i]));
    }
    assert lines[..|rawLines|] == lines;
    FlushHeld(Blocks(lines));
    sections := Flush(sections, current);
  }

  /** What `.` does not match: the four line terminators. */
  lemma DotsAre(c: char)
    ensures IsDot(c) <==> c as int !in {10, 13, 8232, 8233}
  {}
}
