/**
 Printing sections back to Markdown. Extraction produces canonical section lists only, and
 a section list survives printing and extraction exactly when it is canonical; so extraction
 is a fixed point of print-and-extract on every text.
 */
module MarkdownRoundTrip {
  import opened Text
  import opened SectionBlocks
  import opened MarkdownSections

  function HeadingLine(s: Section): string {
    Hashes(s.level) + " " + s.heading
  }

  function Print(s: Section): string {
    HeadingLine(s) + "\n" + s.body
  }

  function Prints(sections: seq<Section>): seq<string> {
    if sections == [] then []
    else Prints(sections[..|sections| - 1]) + [Print(sections[|sections| - 1])]
  }

  /** The sections as one Markdown text, one after the other. */
  function Render(sections: seq<Section>): string {
    Join(Prints(sections))
  }

  function BodyLines(s: Section): seq<Line> {
    ClassifyAll(Split(s.body))
  }

  /** A section that extraction can produce. */
  predicate CanonicalSection(s: Section) {
    && IsTitle(s.level, s.heading)
    && Trim(s.body) == s.body && AllTidy(Split(s.body))
    && NoStart(BodyLines(s))
  }

  /** Sections that extraction can produce, in one document: only the last may leave a fence open. */
  predicate Canonical(sections: seq<Section>) {
    forall k :: 0 <= k < |sections| ==>
                  CanonicalSection(sections[k]) && (k + 1 < |sections| ==> !Open(BodyLines(sections[k])))
  }

  // ---------------------------------------------------------------- canonical sections survive

  function RenderedLines(sections: seq<Section>): seq<string> {
    if sections == [] then []
    else
      var last := sections[|sections| - 1];
      RenderedLines(sections[..|sections| - 1]) + ([HeadingLine(last)] + Split(last.body))
  }

  lemma PrintJoins(s: Section)
    ensures Join([HeadingLine(s)] + Split(s.body)) == Print(s)
  {
    JoinConcat([HeadingLine(s)], Split(s.body));
  }

  lemma {:induction false} RenderJoins(sections: seq<Section>)
    requires sections != []
    ensures RenderedLines(sections) != [] && Join(RenderedLines(sections)) == Render(sections)
  {
    var front, last := sections[..|sections| - 1], sections[|sections| - 1];
    PrintJoins(last);
    if front == [] {
      assert RenderedLines(sections) == [HeadingLine(last)] + Split(last.body);
      assert Prints(sections) == [Print(last)];
    } else {
      RenderJoins(front);
      JoinConcat(RenderedLines(front), [HeadingLine(last)] + Split(last.body));
      JoinConcat(Prints(front), [Print(last)]);
    }
  }

  lemma HeadingLineIsTidy(s: Section)
    requires IsTitle(s.level, s.heading)
    ensures Tidy(HeadingLine(s)) && Trim(HeadingLine(s)) == HeadingLine(s)
  {}

  lemma HeadingLineIsHead(s: Section)
    requires IsTitle(s.level, s.heading)
    ensures Classify(HeadingLine(s)).kind == Head(s.level, s.heading)
  {
    HeadingLineIsTidy(s);
    TrimShape(s.heading);
    ParseHeadingIs(s.level, " ", s.heading);
    assert HeadingLine(s)[0] == '#';
  }

  lemma {:induction false} RenderedLinesAreTidy(sections: seq<Section>)
    requires Canonical(sections)
    ensures AllTidy(RenderedLines(sections))
  {
    if sections != [] {
      var last := sections[|sections| - 1];
      assert CanonicalSection(last);
      HeadingLineIsTidy(last);
      CanonicalFront(sections);
      RenderedLinesAreTidy(sections[..|sections| - 1]);
      TidyConcat([HeadingLine(last)], Split(last.body));
      TidyConcat(RenderedLines(sections[..|sections| - 1]), [HeadingLine(last)] + Split(last.body));
    }
  }

  lemma TidyConcat(a: seq<string>, b: seq<string>)
    requires AllTidy(a) && AllTidy(b)
    ensures AllTidy(a + b)
  {}

  predicate AllBalanced(sections: seq<Section>) {
    forall k :: 0 <= k < |sections| ==> !Open(BodyLines(sections[k]))
  }

  lemma CanonicalFront(sections: seq<Section>)
    requires sections != [] && Canonical(sections)
    ensures Canonical(sections[..|sections| - 1]) && AllBalanced(sections[..|sections| - 1])
  {}

  function ClassifiedLines(sections: seq<Section>): seq<Line> {
    ClassifyAll(RenderedLines(sections))
  }

  lemma SplitLast(sections: seq<Section>)
    requires sections != []
    ensures var front, last := sections[..|sections| - 1], sections[|sections| - 1];
            ClassifiedLines(sections) == ClassifiedLines(front) + [Classify(HeadingLine(last))] + BodyLines(last)
  {}

  lemma {:induction false} BalancedLines(sections: seq<Section>)
    requires Canonical(sections) && AllBalanced(sections)
    ensures !Open(ClassifiedLines(sections))
  {
    if sections != [] {
      var front, last := sections[..|sections| - 1], sections[|sections| - 1];
      CanonicalFront(sections);
      BalancedLines(front);
      assert CanonicalSection(last) && !Open(BodyLines(last));
      HeadingLineIsHead(last);
      SplitLast(sections);
      BalancedConcat(ClassifiedLines(front), Classify(HeadingLine(last)), BodyLines(last));
    }
  }

  lemma BodyReadsBack(s: Section)
    requires CanonicalSection(s)
    ensures ToSection(Block(s.level, s.heading, BodyLines(s))) == s
  {
    assert Texts(BodyLines(s)) == Split(s.body);
  }

  lemma {:induction false} CanonicalBlocks(sections: seq<Section>)
    requires Canonical(sections)
    ensures ToSections(Blocks(ClassifiedLines(sections))) == sections
  {
    hide Classify, Blocks, Open, NoStart, ToSection;
    if sections == [] {
      NoBlocks();
    } else {
      var front, last := sections[..|sections| - 1], sections[|sections| - 1];
      CanonicalFront(sections);
      CanonicalBlocks(front);
      BalancedLines(front);
      assert CanonicalSection(last);
      HeadingLineIsHead(last);
      BodyReadsBack(last);
      SplitLast(sections);
      AppendBlock(ClassifiedLines(front), Classify(HeadingLine(last)), BodyLines(last));
    }
  }

  lemma NoBlocks()
    ensures Blocks(ClassifiedLines([])) == []
  {}

  /** A canonical section list comes back unchanged from its own rendering. */
  lemma CanonicalSurvives(sections: seq<Section>)
    requires Canonical(sections)
    ensures Sections(Render(sections)) == sections
  {
    CanonicalBlocks(sections);
    if sections == [] {
      TidyLinesReadBack([""]);
      assert Blocks(ClassifyAll([""])) == [];
    } else {
      RenderJoins(sections);
      RenderedLinesAreTidy(sections);
      TidyLinesReadBack(RenderedLines(sections));
    }
  }

  // ---------------------------------------------------------------- extraction is canonical

  /** No start inside `us` if there is none inside `ts`, and equally many fences up to parity. */
  ghost predicate KeepsShape(ts: seq<string>, us: seq<string>) {
    && (NoStart(ClassifyAll(ts)) ==> NoStart(ClassifyAll(us)))
    && Open(ClassifyAll(ts)) == Open(ClassifyAll(us))
  }

  lemma TrimFirstKeepsShape(ts: seq<string>)
    requires ts != []
    ensures KeepsShape(ts, [TrimStart(ts[0])] + ts[1..])
  {
    TrimOfTrimStart(ts[0]);
    SameShape(ClassifyAll(ts), ClassifyAll([TrimStart(ts[0])] + ts[1..]));
  }

  lemma BlankIsPlain()
    ensures Classify("").kind == Plain
  {}

  lemma DropFirstKeepsShape(ts: seq<string>)
    requires ts != [] && ts[0] == ""
    ensures KeepsShape(ts, ts[1..])
  {
    hide KindOf, Trim;
    BlankIsPlain();
    var lines := ClassifyAll(ts);
    assert ClassifyAll(ts[1..]) == lines[1..|ts|] && lines[..|ts|] == lines;
    assert Fences(lines[..1]) == 0;
    FencesSlice(lines, 1, |ts|);
    if NoStart(lines) { QuietSlice(lines, 1, |ts|); }
  }

  lemma DropLastKeepsShape(ts: seq<string>)
    requires ts != [] && ts[|ts| - 1] == ""
    ensures KeepsShape(ts, ts[..|ts| - 1])
  {
    BlankIsPlain();
    var lines, n := ClassifyAll(ts), |ts| - 1;
    assert ClassifyAll(ts[..n]) == lines[0..n] && lines[..n] == lines[0..n];
    if NoStart(lines) { QuietSlice(lines, 0, n); }
  }

  lemma JoinEndsVisibly(lines: seq<string>)
    requires lines != [] && AllTidy(lines) && lines[|lines| - 1] != ""
    ensures var j := Join(lines); j != "" && !IsSpace(j[|j| - 1])
  {}

  /** When neither the first nor the last of several lines is blank, only the first line's front is trimmed. */
  lemma TrimmedJoinOfVisible(ts: seq<string>)
    requires |ts| > 1 && AllTidy(ts) && ts[0] != "" && ts[|ts| - 1] != ""
    ensures Trim(Join(ts)) == Join([TrimStart(ts[0])] + ts[1..])
  {
    hide TrimStart, Trim;
    assert Tidy(ts[0]) && AllTidy(ts[1..]);
    JoinEndsVisibly(ts[1..]);
    var rest := "\n" + Join(ts[1..]);
    TrimInside(ts[0], rest);
    assert ts[0] + "\n" + Join(ts[1..]) == ts[0] + rest;
    assert TrimStart(ts[0]) + "\n" + Join(ts[1..]) == TrimStart(ts[0]) + rest;
    assert ([TrimStart(ts[0])] + ts[1..])[1..] == ts[1..];
  }

  lemma TrimStartKeepsTidy(line: string)
    requires Tidy(line)
    ensures Tidy(TrimStart(line)) && Trim(line) == TrimStart(line)
  {}

  lemma DropFirstKeepsJoin(ts: seq<string>)
    requires |ts| > 1 && ts[0] == ""
    ensures Trim(Join(ts)) == Trim(Join(ts[1..]))
  {}

  lemma JoinBlank()
    ensures Join([""]) == ""
  {}

  lemma DropLastKeepsJoin(ts: seq<string>)
    requires |ts| > 1 && ts[|ts| - 1] == ""
    ensures Trim(Join(ts)) == Trim(Join(ts[..|ts| - 1]))
  {
    hide Join, Trim;
    var front := ts[..|ts| - 1];
    JoinConcat(front, [""]);
    JoinBlank();
    assert ts == front + [""] && Join(ts) == Join(front) + "\n";
    TrimNewlines(Join(front));
  }

  /** `us` are tidy lines that join to the trimmed join of `ts`, with the same starts and fence parity. */
  ghost predicate TrimsTo(ts: seq<string>, us: seq<string>) {
    us != [] && AllTidy(us) && Join(us) == Trim(Join(ts)) && KeepsShape(ts, us)
  }

  lemma TrimOneOrVisible(ts: seq<string>)
    requires ts != [] && AllTidy(ts) && (|ts| > 1 ==> ts[0] != "" && ts[|ts| - 1] != "")
    ensures TrimsTo(ts, [TrimStart(ts[0])] + ts[1..])
  {
    TrimFirstKeepsShape(ts);
    assert Tidy(ts[0]);
    TrimStartKeepsTidy(ts[0]);
    TidyConcat([TrimStart(ts[0])], ts[1..]);
    if |ts| > 1 { TrimmedJoinOfVisible(ts); }
  }

  lemma {:induction false} TrimmedJoin(ts: seq<string>) returns (us: seq<string>)
    requires ts != [] && AllTidy(ts)
    ensures TrimsTo(ts, us)
    decreases |ts|
  {
    var n := |ts| - 1;
    if n > 0 && ts[0] == "" {
      us := TrimmedJoin(ts[1..]);
      DropFirstKeepsShape(ts);
      DropFirstKeepsJoin(ts);
    } else if n > 0 && ts[n] == "" {
      us := TrimmedJoin(ts[..n]);
      DropLastKeepsShape(ts);
      DropLastKeepsJoin(ts);
    } else {
      us := [TrimStart(ts[0])] + ts[1..];
      TrimOneOrVisible(ts);
    }
  }

  lemma EmptyBody(b: Block)
    requires b.lines == []
    ensures BodyLines(ToSection(b)) == [Line("", Plain)] && AllTidy(Split(ToSection(b).body))
  {}

  lemma BlockBecomesCanonical(b: Block)
    requires IsTitle(b.level, b.title) && NoStart(b.lines)
    requires AllTidy(Texts(b.lines)) && b.lines == ClassifyAll(Texts(b.lines))
    ensures CanonicalSection(ToSection(b))
    ensures Open(BodyLines(ToSection(b))) == Open(b.lines)
  {
    TrimShape(Join(Texts(b.lines)));
    TrimFixed(Body(Texts(b.lines)));
    if b.lines == [] {
      EmptyBody(b);
    } else {
      var us := TrimmedJoin(Texts(b.lines));
      TidyLinesReadBack(us);
    }
  }

  lemma SliceOfClassified(texts: seq<string>, from: nat, to: nat)
    requires AllTidy(texts) && from <= to <= |texts|
    ensures var slice := ClassifyAll(texts)[from..to];
            AllTidy(Texts(slice)) && slice == ClassifyAll(Texts(slice))
  {
    assert Texts(ClassifyAll(texts)[from..to]) == texts[from..to];
  }

  lemma BlocksComeFromLines(texts: seq<string>, k: nat)
    requires AllTidy(texts) && k < |Blocks(ClassifyAll(texts))|
    ensures var b := Blocks(ClassifyAll(texts))[k];
            IsTitle(b.level, b.title) && AllTidy(Texts(b.lines)) && b.lines == ClassifyAll(Texts(b.lines))
  {
    var lines := ClassifyAll(texts);
    var from, to := Starts(lines)[k], EndOf(lines, k);
    HeadIsTitle(texts[from]);
    SliceOfClassified(texts, from + 1, to);
  }

  /** Whatever the text, what extraction returns is canonical. */
  lemma ExtractionIsCanonical(content: string)
    ensures Canonical(Sections(content))
  {
    var texts := TrimmedLines(content);
    var blocks := Blocks(ClassifyAll(texts));
    TrimmedLinesAreTidy(content);
    forall k | 0 <= k < |blocks|
      ensures CanonicalSection(ToSection(blocks[k]))
      ensures k + 1 < |blocks| ==> !Open(BodyLines(ToSection(blocks[k])))
    {
      BlocksComeFromLines(texts, k);
      BlocksAreQuiet(ClassifyAll(texts), k);
      BlockBecomesCanonical(blocks[k]);
    }
  }

  // ---------------------------------------------------------------- main results

  /** Extracting, rendering and extracting again changes nothing, for every text. */
  lemma ExtractionIsFixedPoint(content: string)
    ensures Sections(Render(Sections(content))) == Sections(content)
  {
    ExtractionIsCanonical(content);
    CanonicalSurvives(Sections(content));
  }

  /** The section lists that survive rendering and extraction are the canonical ones. */
  lemma SurvivesIffCanonical(sections: seq<Section>)
    ensures Sections(Render(sections)) == sections <==> Canonical(sections)
  {
    ExtractionIsCanonical(Render(sections));
    if Canonical(sections) { CanonicalSurvives(sections); }
  }
}
