/**
 What extraction does, stated on the lines of a text alone: which lines start a section, what a
 section holds, and that fenced lines at the head of a text do not matter.
 */
module MarkdownLaws {
  import opened Outcomes
  import opened Text
  import opened SectionBlocks
  import opened MarkdownSections

  predicate AreLines(lines: seq<string>) {
    lines != [] && forall l :: l in lines ==> '\n' !in l
  }

  /** White space and then three backquotes. */
  predicate IsQuoted(line: string) {
    var t := Trim(line);
    |t| >= 3 && t[0] == t[1] == t[2] == '`'
  }

  function CountQuoted(lines: seq<string>): nat {
    if lines == [] then 0
    else CountQuoted(lines[..|lines| - 1]) + if IsQuoted(lines[|lines| - 1]) then 1 else 0
  }

  /** The line, up to white space around it, matches the heading pattern with this level and title. */
  ghost predicate IsHeading(line: string, level: nat, title: string) {
    exists gap, text, tail :: MatchesPattern(Trim(line), level, gap, text, tail) && Trim(text) == title
  }

  function TrimEnds(lines: seq<string>): (r: seq<string>)
    ensures |r| == |lines| && forall i :: 0 <= i < |lines| ==> r[i] == TrimEnd(lines[i])
  {
    seq(|lines|, i requires 0 <= i < |lines| => TrimEnd(lines[i]))
  }

  // ---------------------------------------------------------------- reading lines

  lemma TrimmedLinesAre(lines: seq<string>)
    requires AreLines(lines)
    ensures TrimmedLines(Join(lines)) == TrimEnds(lines)
  {
    hide Split, Join, TrimEnd;
    SplitJoin(lines);
    forall i | 0 <= i < |lines| ensures TrimEnd(SplitLines(Join(lines))[i]) == TrimEnd(lines[i]) {
      DropTrims(lines[i]);
    }
  }

  lemma DropTrims(l: string)
    ensures TrimEnd(DropCarriageReturn(l)) == TrimEnd(l)
  {}

  /** The lines of a text, classified as the loop sees them. */
  function Read(lines: seq<string>): (r: seq<Line>)
    ensures |r| == |lines|
  {
    ClassifyAll(TrimEnds(lines))
  }

  lemma FenceIsQuoted(line: string)
    ensures Classify(TrimEnd(line)).kind.Fence? <==> IsQuoted(line)
  {
    hide ParseHeading, Trim;
    TrimOfTrimEnd(line);
    var t := Trim(line);
    assert "```" <= t <==> |t| >= 3 && t[0] == t[1] == t[2] == '`';
  }

  lemma HeadIsHeading(line: string, level: nat, title: string)
    ensures Classify(TrimEnd(line)).kind == Head(level, title) <==> IsHeading(line, level, title)
  {
    hide ParseHeading, Trim, MatchesPattern;
    TrimOfTrimEnd(line);
    var t := Trim(line);
    TrimTwice(line);
    if Classify(TrimEnd(line)).kind == Head(level, title) {
      PatternIsMatched(t);
    }
    if IsHeading(line, level, title) {
      var gap, text, tail :| MatchesPattern(t, level, gap, text, tail) && Trim(text) == title;
      PatternIsUnambiguous(t, level, gap, text, tail);
      HeadingIsNoFence(t, level, gap, text, tail);
      TrimTwice(text);
    }
  }

  lemma HeadingIsNoFence(t: string, level: nat, gap: string, text: string, tail: string)
    requires MatchesPattern(t, level, gap, text, tail)
    ensures !IsFence(t)
  {
    assert t[0] == '#';
  }

  lemma {:induction false} FencesAreQuoted(lines: seq<string>)
    ensures Fences(Read(lines)) == CountQuoted(lines)
  {
    hide IsQuoted, Classify;
    if lines != [] {
      var n := |lines| - 1;
      FencesAreQuoted(lines[..n]);
      assert Read(lines)[..n] == Read(lines[..n]);
      FenceIsQuoted(lines[n]);
    }
  }

  // ---------------------------------------------------------------- the sections of a text

  /** Line `i` starts a section: it is a heading behind an even number of quoted lines. */
  ghost predicate StartsSection(lines: seq<string>, i: nat)
    requires i < |lines|
  {
    CountQuoted(lines[..i]) % 2 == 0 && exists level, title :: IsHeading(lines[i], level, title)
  }

  /** The section that line `from` starts and that ends before line `to`. */
  ghost predicate IsSectionOf(s: Section, lines: seq<string>, from: nat, to: nat)
    requires from < to <= |lines|
  {
    IsHeading(lines[from], s.level, s.heading) && s.body == Trim(Join(TrimEnds(lines[from + 1..to])))
  }

  lemma StartIsStart(lines: seq<string>, i: nat)
    requires i < |lines|
    ensures IsStart(Read(lines), i) <==> StartsSection(lines, i)
  {
    hide Classify, IsHeading, Fences, CountQuoted;
    FencesAreQuoted(lines[..i]);
    assert Read(lines)[..i] == Read(lines[..i]);
    var kind := Classify(TrimEnd(lines[i])).kind;
    if kind.Head? { HeadIsHeading(lines[i], kind.level, kind.title); }
    if level, title :| IsHeading(lines[i], level, title) { HeadIsHeading(lines[i], level, title); }
  }

  /** The sections of a text are those that its starting lines head, in order, each reaching to the next start or to the end. */
  lemma SectionsOfLines(lines: seq<string>) returns (at: seq<nat>)
    requires AreLines(lines)
    ensures |Sections(Join(lines))| == |at|
    ensures forall k :: 0 <= k < |at| ==> at[k] < |lines|
    ensures forall j, k :: 0 <= j < k < |at| ==> at[j] < at[k]
    ensures forall i :: 0 <= i < |lines| ==> (i in at <==> StartsSection(lines, i))
    ensures forall k :: 0 <= k < |at| ==>
                          IsSectionOf(Sections(Join(lines))[k], lines, at[k], if k + 1 < |at| then at[k + 1] else |lines|)
  {
    hide Classify, StartsSection, IsSectionOf, Starts;
    TrimmedLinesAre(lines);
    var read := Read(lines);
    at := Starts(read);
    forall i | 0 <= i < |lines| ensures i in at <==> StartsSection(lines, i) {
      StartsAreExact(read, i);
      StartIsStart(lines, i);
    }
    forall k | 0 <= k < |at|
      ensures IsSectionOf(Sections(Join(lines))[k], lines, at[k], if k + 1 < |at| then at[k + 1] else |lines|)
    {
      BlockIsSection(lines, at[k], EndOf(read, k));
    }
  }

  lemma BlockIsSection(lines: seq<string>, from: nat, to: nat)
    requires from < to <= |lines| && Read(lines)[from].kind.Head?
    ensures IsSectionOf(ToSection(BlockAt(Read(lines), from, to)), lines, from, to)
  {
    hide Classify, IsHeading;
    var kind := Classify(TrimEnd(lines[from])).kind;
    HeadIsHeading(lines[from], kind.level, kind.title);
    assert forall i :: 0 <= i < |lines| ==> Read(lines)[i].text == TrimEnd(lines[i]) by {
      forall i | 0 <= i < |lines| ensures Read(lines)[i].text == TrimEnd(lines[i]) { ClassifyKeeps(TrimEnd(lines[i])); }
    }
    assert Texts(Read(lines)[from + 1..to]) == TrimEnds(lines[from + 1..to]);
  }

  lemma ClassifyKeeps(text: string)
    ensures Classify(text).text == text
  {}

  // ---------------------------------------------------------------- fenced lines at the head of a text

  lemma {:induction false} BlocksBehind(quiet: seq<Line>, lines: seq<Line>)
    requires NoStart(quiet) && !Open(quiet)
    ensures Blocks(quiet + lines) == Blocks(lines) && Open(quiet + lines) == Open(lines)
  {
    hide Blocks, Fences, NoStart, NextBlocks;
    if lines == [] {
      assert quiet + lines == quiet;
      NoStartNoBlocks(quiet);
      NoStartNoBlocks([]);
      NothingOpen();
    } else {
      var n := |lines| - 1;
      BlocksBehind(quiet, lines[..n]);
      var all := quiet + lines;
      ReadPrefix(lines, n);
      ReadPrefix(all, |all| - 1);
      assert all[..|all| - 1] == quiet + lines[..n] && lines[..n + 1] == lines && all[..|all|] == all;
    }
  }

  lemma NothingOpen()
    ensures !Open([])
  {}

  lemma NoStartNoBlocks(lines: seq<Line>)
    requires NoStart(lines) || lines == []
    ensures Blocks(lines) == []
  {
    if Starts(lines) != [] {
      var i := Starts(lines)[0];
      assert i in Starts(lines);
      StartsAreExact(lines, i);
    }
  }

  /** Lines between two quoted lines, none of them quoted, hold no start and leave no fence open. */
  lemma FencedIsQuiet(open: string, fenced: seq<string>, close: string)
    requires IsQuoted(open) && IsQuoted(close) && forall l :: l in fenced ==> !IsQuoted(l)
    ensures NoStart(Read([open] + fenced + [close])) && !Open(Read([open] + fenced + [close]))
  {
    hide IsQuoted, IsStart, Read, Fences, CountQuoted;
    var all := [open] + fenced + [close];
    forall i | 0 <= i < |Read(all)| ensures !IsStart(Read(all), i) {
      StartIsStart(all, i);
      if i == 0 { QuotedIsNoStart(all, 0); } else { OneQuoted(open, fenced, close, i); }
    }
    FencesAreQuoted(all);
    OneQuoted(open, fenced, close, |all| - 1);
    CountLast(all);
  }

  lemma QuotedIsNoStart(lines: seq<string>, i: nat)
    requires i < |lines| && IsQuoted(lines[i])
    ensures !StartsSection(lines, i)
  {
    hide IsQuoted, Classify, CountQuoted, IsHeading;
    FenceIsQuoted(lines[i]);
    if level, title :| IsHeading(lines[i], level, title) { HeadIsHeading(lines[i], level, title); }
  }

  lemma CountLast(lines: seq<string>)
    requires lines != []
    ensures CountQuoted(lines) == CountQuoted(lines[..|lines| - 1]) + if IsQuoted(lines[|lines| - 1]) then 1 else 0
  {}

  lemma {:induction false} OneQuoted(open: string, fenced: seq<string>, close: string, i: nat)
    requires IsQuoted(open) && (forall l :: l in fenced ==> !IsQuoted(l)) && 0 < i <= |fenced| + 1
    ensures CountQuoted(([open] + fenced + [close])[..i]) == 1
  {
    hide IsQuoted;
    var all := [open] + fenced + [close];
    if i == 1 {
      assert all[..1] == [open] && [open][..0] == [];
    } else {
      OneQuoted(open, fenced, close, i - 1);
      assert all[..i][..i - 1] == all[..i - 1];
      assert all[i - 1] == fenced[i - 2] && fenced[i - 2] in fenced;
    }
  }

  /** Fenced lines at the head of a text add no section, whatever they look like, and do not change what follows. */
  lemma FencedIsSkipped(open: string, fenced: seq<string>, close: string, rest: seq<string>)
    requires AreLines([open] + fenced + [close]) && AreLines(rest)
    requires IsQuoted(open) && IsQuoted(close) && forall l :: l in fenced ==> !IsQuoted(l)
    ensures Sections(Join([open] + fenced + [close] + rest)) == Sections(Join(rest))
  {
    hide IsQuoted, Classify, Blocks, Join, NoStart, Open;
    var head := [open] + fenced + [close];
    TrimmedLinesAre(head + rest);
    TrimmedLinesAre(rest);
    assert Read(head + rest) == Read(head) + Read(rest);
    FencedIsQuiet(open, fenced, close);
    BlocksBehind(Read(head), Read(rest));
  }

  /** Without quoted lines every heading starts a section. */
  lemma HeadingsStart(lines: seq<string>, i: nat)
    requires (forall l :: l in lines ==> !IsQuoted(l)) && i < |lines|
    ensures StartsSection(lines, i) <==> exists level, title :: IsHeading(lines[i], level, title)
  {
    NoneQuoted(lines[..i]);
  }

  lemma {:induction false} NoneQuoted(lines: seq<string>)
    requires forall l :: l in lines ==> !IsQuoted(l)
    ensures CountQuoted(lines) == 0
  {
    hide IsQuoted;
    if lines != [] {
      assert lines[|lines| - 1] in lines;
      NoneQuoted(lines[..|lines| - 1]);
    }
  }
}
