/**
 The prompt-driven line feeder inside `runTuiSession` of `scripts/marketplace-tui-devnet-smoke.ts`.
 Output chunks and timer callbacks may come in any order.
 */
module LineFeeder {

  datatype Event = Data(chunk: string) | Timer

  /** The closure's variables, the timers not yet fired, and what went through the two streams. */
  datatype Feed = Feed(lineIndex: nat, feedScheduled: bool, timers: nat, text: string, written: string)

  const INITIAL := Feed(0, false, 0, "", "")

  predicate EndsWith(s: string, end: string) {
    |end| <= |s| && s[|s| - |end|..] == end
  }

  /** `text.slice(-256)`. */
  function Tail(text: string): string {
    if |text| <= 256 then text else text[|text| - 256..]
  }

  /** `/(?:^|\n)([^\n]*(?:> |: ))$/` matches. */
  predicate MatchesPrompt(tail: string) {
    exists k :: 0 <= k <= |tail| && (k == 0 || tail[k - 1] == '\n') && '\n' !in tail[k..]
                && (EndsWith(tail[k..], "> ") || EndsWith(tail[k..], ": "))
  }

  predicate ShowsPrompt(text: string) {
    MatchesPrompt(Tail(text))
  }

  /** `maybeFeedNextLine`. */
  function MaybeFeed(lines: seq<string>, f: Feed): Feed {
    if f.feedScheduled || f.lineIndex >= |lines| || !ShowsPrompt(f.text) then f
    else f.(feedScheduled := true, timers := f.timers + 1)
  }

  /** The effect of one event; a timer event without a pending timer does nothing. */
  function Next(lines: seq<string>, f: Feed, e: Event): Feed {
    match e
    case Data(chunk) => MaybeFeed(lines, f.(text := f.text + chunk))
    case Timer =>
      if f.timers == 0 then f
      else
        var line := if f.lineIndex < |lines| then lines[f.lineIndex] else "";
        f.(feedScheduled := false, timers := f.timers - 1, written := f.written + line + "\n", lineIndex := f.lineIndex + 1)
  }

  function Run(lines: seq<string>, events: seq<Event>): Feed {
    if events == [] then INITIAL
    else Next(lines, Run(lines, events[..|events| - 1]), events[|events| - 1])
  }

  /** What typing these lines sends. */
  function Typed(lines: seq<string>): string {
    if lines == [] then "" else Typed(lines[..|lines| - 1]) + lines[|lines| - 1] + "\n"
  }

  /** At most one feed is pending, it has a line to feed, and exactly the first lines have been typed, each once. */
  predicate InStep(lines: seq<string>, f: Feed) {
    && f.timers == (if f.feedScheduled then 1 else 0)
    && f.lineIndex + f.timers <= |lines|
    && f.written == Typed(lines[..f.lineIndex])
  }

  /** The number of output events that left a prompt at the end of the output. */
  function Prompts(lines: seq<string>, events: seq<Event>): nat {
    if events == [] then 0
    else Prompts(lines, events[..|events| - 1])
         + if events[|events| - 1].Data? && ShowsPrompt(Run(lines, events).text) then 1 else 0
  }

  lemma StaysInStep(lines: seq<string>, f: Feed, e: Event)
    requires InStep(lines, f)
    ensures InStep(lines, Next(lines, f, e))
  {
    hide ShowsPrompt;
    if e.Timer? && f.timers > 0 {
      assert lines[..f.lineIndex + 1][..f.lineIndex] == lines[..f.lineIndex];
    }
  }

  /** In every interleaving of output and timer events the feeder stays in step. */
  lemma {:induction false} AlwaysInStep(lines: seq<string>, events: seq<Event>)
    ensures InStep(lines, Run(lines, events))
  {
    if events == [] {
      assert lines[..0] == [];
    } else {
      AlwaysInStep(lines, events[..|events| - 1]);
      StaysInStep(lines, Run(lines, events[..|events| - 1]), events[|events| - 1]);
    }
  }

  /** No line is fed unasked: every line fed or about to be fed answers its own prompt. */
  lemma {:induction false} FedOnlyOnPrompt(lines: seq<string>, events: seq<Event>)
    ensures var f := Run(lines, events); f.lineIndex + f.timers <= Prompts(lines, events)
  {
    hide ShowsPrompt;
    if events != [] {
      FedOnlyOnPrompt(lines, events[..|events| - 1]);
    }
  }

  /** This output event leaves a prompt at the end of the output, while no feed is pending and a line is left. */
  predicate Asks(lines: seq<string>, f: Feed, e: Event) {
    e.Data? && ShowsPrompt(f.text + e.chunk) && !f.feedScheduled && f.lineIndex < |lines|
  }

  /** The number of events that ask for a line. */
  function Asked(lines: seq<string>, events: seq<Event>): nat {
    if events == [] then 0
    else
      var n := |events| - 1;
      Asked(lines, events[..n]) + if Asks(lines, Run(lines, events[..n]), events[n]) then 1 else 0
  }

  /** The lines fed or about to be fed are exactly as many as the events that asked for one. */
  lemma {:induction false} FedExactly(lines: seq<string>, events: seq<Event>)
    ensures var f := Run(lines, events); f.lineIndex + f.timers == Asked(lines, events)
  {
    hide ShowsPrompt;
    if events != [] {
      FedExactly(lines, events[..|events| - 1]);
    }
  }

  function Timers(n: nat): seq<Event> {
    seq(n, _ => Timer)
  }

  lemma {:induction false} TimersDoNothing(lines: seq<string>, events: seq<Event>, n: nat)
    requires Run(lines, events).timers == 0
    ensures Run(lines, events + Timers(n)) == Run(lines, events)
  {
    hide ShowsPrompt;
    var all := events + Timers(n);
    if n == 0 {
      assert all == events;
    } else {
      TimersDoNothing(lines, events, n - 1);
      assert all[..|all| - 1] == events + Timers(n - 1);
    }
  }

  lemma RunAppend(lines: seq<string>, events: seq<Event>, e: Event)
    ensures Run(lines, events + [e]) == Next(lines, Run(lines, events), e)
  {
    assert (events + [e])[..|events|] == events;
  }

  /**
   A prompt that arrives while a feed is pending asks for nothing: the pending feed writes its line, and then
   no number of timers writes another, until more output comes.
   */
  lemma PromptWhileFeedPends(lines: seq<string>, events: seq<Event>, chunk: string, n: nat)
    requires Run(lines, events).feedScheduled
    ensures var f := Run(lines, events);
            && f.lineIndex < |lines|
            && Run(lines, events + [Data(chunk)] + [Timer] + Timers(n))
               == Feed(f.lineIndex + 1, false, 0, f.text + chunk, f.written + lines[f.lineIndex] + "\n")
  {
    hide ShowsPrompt, Run;
    var f := Run(lines, events);
    AlwaysInStep(lines, events);
    RunAppend(lines, events, Data(chunk));
    RunAppend(lines, events + [Data(chunk)], Timer);
    TimersDoNothing(lines, events + [Data(chunk)] + [Timer], n);
  }

  /** Such a prompt can stand unanswered with a line left: two prompts in a row, and the second line is never typed. */
  lemma PromptGoesUnanswered(n: nat)
    ensures var f := Run(["a", "b"], [Data("> ")] + [Data("> ")] + [Timer] + Timers(n));
            ShowsPrompt(f.text) && !f.feedScheduled && f.written == "a\n"
  {
    hide ShowsPrompt, Run;
    PromptIsSuffix("> ");
    PromptIsSuffix("> > ");
    RunAppend(["a", "b"], [], Data("> "));
    assert Run(["a", "b"], []) == INITIAL by { RunNothing(["a", "b"]); }
    assert [] + [Data("> ")] == [Data("> ")] && "" + "> " == "> " && "> " + "> " == "> > ";
    PromptWhileFeedPends(["a", "b"], [Data("> ")], "> ", n);
  }

  lemma RunNothing(lines: seq<string>)
    ensures Run(lines, []) == INITIAL
  {}

  /** A prompt that finds lines left leads to exactly the next line, however much output comes before the timer. */
  lemma {:induction false} PromptIsAnswered(lines: seq<string>, f: Feed, chunks: seq<string>)
    requires InStep(lines, f) && f.lineIndex < |lines| && f.feedScheduled
    ensures var g := Next(lines, AfterChunks(lines, f, chunks), Timer);
            && g.lineIndex == f.lineIndex + 1 && g.written == f.written + lines[f.lineIndex] + "\n" && !g.feedScheduled
  {}

  function AfterChunks(lines: seq<string>, f: Feed, chunks: seq<string>): (g: Feed)
    ensures f.feedScheduled ==> g == f.(text := g.text)
  {
    if chunks == [] then f
    else Next(lines, AfterChunks(lines, f, chunks[..|chunks| - 1]), Data(chunks[|chunks| - 1]))
  }

  /** What was written stays written. */
  lemma {:induction false} WrittenGrows(lines: seq<string>, events: seq<Event>, more: seq<Event>)
    ensures Run(lines, events).written <= Run(lines, events + more).written
  {
    hide ShowsPrompt;
    if more == [] {
      assert events + more == events;
    } else {
      WrittenGrows(lines, events, more[..|more| - 1]);
      assert (events + more)[..|events + more| - 1] == events + more[..|more| - 1];
    }
  }

  lemma LastLineStart(tail: string) returns (k: nat)
    ensures k <= |tail| && (k == 0 || tail[k - 1] == '\n') && '\n' !in tail[k..]
  {
    k := |tail|;
    while k > 0 && tail[k - 1] != '\n'
      invariant k <= |tail| && '\n' !in tail[k..]
    {
      assert tail[k - 1..] == [tail[k - 1]] + tail[k..];
      k := k - 1;
    }
  }

  lemma EndsWithSuffix(s: string, k: nat, end: string)
    requires k <= |s|
    ensures EndsWith(s[k..], end) <==> k <= |s| - |end| && EndsWith(s, end)
  {}

  /** The pattern asks how the text ends: the last line always reaches back far enough. */
  lemma MatchesPromptIsSuffix(tail: string)
    ensures MatchesPrompt(tail) <==> EndsWith(tail, "> ") || EndsWith(tail, ": ")
  {
    forall k | 0 <= k <= |tail|
      ensures EndsWith(tail[k..], "> ") ==> EndsWith(tail, "> ")
      ensures EndsWith(tail[k..], ": ") ==> EndsWith(tail, ": ")
    {
      EndsWithSuffix(tail, k, "> ");
      EndsWithSuffix(tail, k, ": ");
    }
    if EndsWith(tail, "> ") || EndsWith(tail, ": ") {
      var k := LastLineStart(tail);
      var n := |tail| - 2;
      assert tail[n..][0] == tail[n] && tail[n..][1] == tail[n + 1];
      EndsWithSuffix(tail, k, "> ");
      EndsWithSuffix(tail, k, ": ");
    }
  }

  /** Looking at the last 256 characters is looking at the whole output. */
  lemma PromptIsSuffix(text: string)
    ensures ShowsPrompt(text) <==> EndsWith(text, "> ") || EndsWith(text, ": ")
  {
    hide MatchesPrompt;
    MatchesPromptIsSuffix(Tail(text));
    if |text| > 256 {
      EndsWithSuffix(text, |text| - 256, "> ");
      EndsWithSuffix(text, |text| - 256, ": ");
    }
  }

  /** The closure itself, over the two streams. */
  class Feeder {
    const lines: seq<string>
    var lineIndex: nat
    var feedScheduled: bool
    var timers: nat
    var text: string
    var written: string

    function State(): Feed
      reads this
    {
      Feed(lineIndex, feedScheduled, timers, text, written)
    }

    constructor (lines: seq<string>)
      ensures this.lines == lines && State() == INITIAL
    {
      this.lines := lines;
      lineIndex, feedScheduled, timers, text, written := 0, false, 0, "", "";
    }

    method MaybeFeedNextLine()
      modifies this
      ensures State() == MaybeFeed(lines, old(State()))
    {
      hide ShowsPrompt;
      if feedScheduled || lineIndex >= |lines| { return; }
      if !ShowsPrompt(text) { return; }
      feedScheduled := true;
      timers := timers + 1;
    }

    method OnData(chunk: string)
      modifies this
      ensures State() == Next(lines, old(State()), Data(chunk))
    {
      hide ShowsPrompt;
      text := text + chunk;
      MaybeFeedNextLine();
    }

    method OnTimer()
      requires timers > 0
      modifies this
      ensures State() == Next(lines, old(State()), Timer)
    {
      timers := timers - 1;
      feedScheduled := false;
      var line := if lineIndex < |lines| then lines[lineIndex] else "";
      lineIndex := lineIndex + 1;
      written := written + line + "\n";
    }

    /** Any interleaving of events, from a fresh feeder. */
    method Drive(events: seq<Event>)
      requires State() == INITIAL
      modifies this
      ensures State() == Run(lines, events) && InStep(lines, State())
    {
      for i := 0 to |events|
        invariant State() == Run(lines, events[..i])
      {
        assert events[..i + 1][..i] == events[..i];
        match events[i]
        case Data(chunk) => OnData(chunk);
        case Timer => if timers > 0 { OnTimer(); }
      }
      assert events[..|events|] == events;
      AlwaysInStep(lines, events);
    }
  }
}
