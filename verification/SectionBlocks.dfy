/**
 How a list of classified lines falls into blocks, one block per section start.
 A heading starts a section when an even number of fence lines precedes it.
 */
module SectionBlocks {

  datatype Kind = Fence | Head(level: nat, title: string) | Plain
  datatype Line = Line(text: string, kind: Kind)
  datatype Block = Block(level: nat, title: string, lines: seq<Line>)

  function Fences(lines: seq<Line>): nat {
    if lines == [] then 0
    else Fences(lines[..|lines| - 1]) + if lines[|lines| - 1].kind.Fence? then 1 else 0
  }

  /** An odd number of fence lines leaves a fence open. */
  predicate Open(lines: seq<Line>) { Fences(lines) % 2 == 1 }

  /** Line `i` starts a section: it is a heading with an even number of fence lines before it. */
  predicate IsStart(lines: seq<Line>, i: nat)
    requires i < |lines|
  {
    lines[i].kind.Head? && !Open(lines[..i])
  }

  predicate NoStart(lines: seq<Line>) {
    forall i :: 0 <= i < |lines| ==> !IsStart(lines, i)
  }

  /** The section starts among `lines`, in order. */
  function Starts(lines: seq<Line>): (starts: seq<nat>)
    ensures forall k :: 0 <= k < |starts| ==> starts[k] < |lines| && lines[starts[k]].kind.Head?
    ensures forall j, k :: 0 <= j < k < |starts| ==> starts[j] < starts[k]
  {
    if lines == [] then []
    else
      var n := |lines| - 1;
      Starts(lines[..n]) + if IsStart(lines, n) then [n] else []
  }

  function EndOf(lines: seq<Line>, k: nat): (end: nat)
    requires k < |Starts(lines)|
    ensures Starts(lines)[k] < end <= |lines|
  {
    var starts := Starts(lines);
    if k + 1 < |starts| then starts[k + 1] else |lines|
  }

  /** The block headed by line `from` that ends before line `to`. */
  function BlockAt(lines: seq<Line>, from: nat, to: nat): Block
    requires from < to <= |lines| && lines[from].kind.Head?
  {
    Block(lines[from].kind.level, lines[from].kind.title, lines[from + 1..to])
  }

  /** One block per start, reaching to the next start or to the end. */
  function Blocks(lines: seq<Line>): seq<Block> {
    seq(|Starts(lines)|, k requires 0 <= k < |Starts(lines)| => BlockAt(lines, Starts(lines)[k], EndOf(lines, k)))
  }

  function AppendToLast(blocks: seq<Block>, more: seq<Line>): seq<Block> {
    if blocks == [] then []
    else
      var last := blocks[|blocks| - 1];
      blocks[..|blocks| - 1] + [last.(lines := last.lines + more)]
  }

  lemma {:induction false} FencesConcat(a: seq<Line>, b: seq<Line>)
    ensures Fences(a + b) == Fences(a) + Fences(b)
  {
    if b == [] {
      assert a + b == a;
    } else {
      var n := |b| - 1;
      FencesConcat(a, b[..n]);
      assert (a + b)[..|a + b| - 1] == a + b[..n];
    }
  }

  lemma BalancedConcat(lines: seq<Line>, head: Line, body: seq<Line>)
    requires !Open(lines) && head.kind.Head? && !Open(body)
    ensures !Open(lines + [head] + body)
  {
    FencesConcat(lines + [head], body);
    FencesConcat(lines, [head]);
  }

  lemma {:induction false} SameFences(a: seq<Line>, b: seq<Line>)
    requires |a| == |b| && forall i :: 0 <= i < |a| ==> a[i].kind == b[i].kind
    ensures Fences(a) == Fences(b)
  {
    if a != [] {
      SameFences(a[..|a| - 1], b[..|b| - 1]);
    }
  }

  /** Lines of equal kinds have the same fences and the same starts. */
  lemma SameShape(a: seq<Line>, b: seq<Line>)
    requires |a| == |b| && forall i :: 0 <= i < |a| ==> a[i].kind == b[i].kind
    ensures Fences(a) == Fences(b) && (NoStart(a) ==> NoStart(b))
  {
    SameFences(a, b);
    if NoStart(a) {
      forall i | 0 <= i < |b| ensures !IsStart(b, i) {
        SameFences(a[..i], b[..i]);
        assert !IsStart(a, i);
      }
    }
  }

  /** `Starts` misses no start and lists nothing else. */
  lemma {:induction false} StartsAreExact(lines: seq<Line>, i: nat)
    requires i < |lines|
    ensures i in Starts(lines) <==> IsStart(lines, i)
  {
    var n := |lines| - 1;
    var front := lines[..n];
    if i < n {
      StartsAreExact(front, i);
      assert front[..i] == lines[..i];
    } else {
      assert i !in Starts(front);
    }
  }

  lemma StartsAppend(lines: seq<Line>, line: Line)
    ensures Starts(lines + [line]) == Starts(lines) + if line.kind.Head? && !Open(lines) then [|lines|] else []
  {
    assert (lines + [line])[..|lines|] == lines;
  }

  lemma BlockAtPrefix(a: seq<Line>, b: seq<Line>, from: nat, to: nat)
    requires from < to <= |a| && a[from].kind.Head?
    ensures BlockAt(a + b, from, to) == BlockAt(a, from, to)
  {
    assert (a + b)[from + 1..to] == a[from + 1..to];
  }

  /** A line that starts no section goes to the last block, if there is one. */
  lemma AppendBodyLine(lines: seq<Line>, line: Line)
    requires line.kind.Head? ==> Open(lines)
    ensures Blocks(lines + [line]) == AppendToLast(Blocks(lines), [line])
  {
    hide Starts, Fences;
    StartsAppend(lines, line);
    var starts, n := Starts(lines), |Starts(lines)|;
    if n > 0 {
      assert (lines + [line])[starts[n - 1] + 1..|lines| + 1] == lines[starts[n - 1] + 1..|lines|] + [line];
    }
    forall k | 0 <= k < n - 1
      ensures Blocks(lines + [line])[k] == Blocks(lines)[k]
    {
      BlockAtPrefix(lines, [line], starts[k], starts[k + 1]);
    }
  }

  /** A start closes the last block and opens an empty one. */
  lemma AppendStart(lines: seq<Line>, line: Line)
    requires line.kind.Head? && !Open(lines)
    ensures Blocks(lines + [line]) == Blocks(lines) + [Block(line.kind.level, line.kind.title, [])]
  {
    hide Starts, Fences;
    StartsAppend(lines, line);
    assert (lines + [line])[|lines| + 1..|lines| + 1] == [];
    forall k | 0 <= k < |Starts(lines)|
      ensures Blocks(lines + [line])[k] == Blocks(lines)[k]
    {
      BlockAtPrefix(lines, [line], Starts(lines)[k], EndOf(lines, k));
    }
  }

  /** A heading line and a body without starts add exactly one block to balanced lines. */
  lemma {:induction false} AppendBlock(lines: seq<Line>, head: Line, body: seq<Line>)
    requires head.kind.Head? && !Open(lines) && NoStart(body)
    ensures Blocks(lines + [head] + body) == Blocks(lines) + [Block(head.kind.level, head.kind.title, body)]
  {
    hide Blocks, Fences, NoStart;
    var base := lines + [head];
    if body == [] {
      AppendStart(lines, head);
      assert base + body == base;
    } else {
      var n := |body| - 1;
      NoStartFront(body);
      AppendBlock(lines, head, body[..n]);
      LastIsNoStart(lines, head, body);
      assert base + body == base + body[..n] + [body[n]];
      AppendBodyLine(base + body[..n], body[n]);
      assert body[..n] + [body[n]] == body;
    }
  }

  lemma NoStartFront(body: seq<Line>)
    requires body != [] && NoStart(body)
    ensures NoStart(body[..|body| - 1])
  {
    hide Fences;
    var front := body[..|body| - 1];
    forall i | 0 <= i < |front| ensures !IsStart(front, i) {
      assert front[..i] == body[..i];
      assert !IsStart(body, i);
    }
  }

  /** The last line of such a body is no heading outside fences, also when read behind the lines and the heading. */
  lemma LastIsNoStart(lines: seq<Line>, head: Line, body: seq<Line>)
    requires head.kind.Head? && !Open(lines) && body != [] && NoStart(body)
    ensures body[|body| - 1].kind.Head? ==> Open(lines + [head] + body[..|body| - 1])
  {
    var n := |body| - 1;
    FencesConcat(lines, [head]);
    FencesConcat(lines + [head], body[..n]);
    assert !IsStart(body, n);
  }

  lemma OpenBefore(lines: seq<Line>, i: nat)
    requires i < |lines| && i in Starts(lines)
    ensures !Open(lines[..i]) && !Open(lines[..i + 1])
  {
    hide Starts;
    StartsAreExact(lines, i);
    FencesConcat(lines[..i], [lines[i]]);
    assert lines[..i + 1] == lines[..i] + [lines[i]];
  }

  /** A line strictly between two neighbouring starts is no start. */
  lemma BetweenStarts(lines: seq<Line>, k: nat, i: nat)
    requires k < |Starts(lines)| && Starts(lines)[k] < i < EndOf(lines, k)
    ensures !IsStart(lines, i)
  {
    StartsAreExact(lines, i);
  }

  lemma FencesSlice(lines: seq<Line>, from: nat, to: nat)
    requires from <= to <= |lines|
    ensures Fences(lines[..to]) == Fences(lines[..from]) + Fences(lines[from..to])
  {
    FencesConcat(lines[..from], lines[from..to]);
    assert lines[..to] == lines[..from] + lines[from..to];
  }

  lemma BalancedSlice(lines: seq<Line>, from: nat, to: nat)
    requires from <= to <= |lines| && !Open(lines[..from]) && !Open(lines[..to])
    ensures !Open(lines[from..to])
  {
    hide Fences;
    FencesSlice(lines, from, to);
  }

  /** In a slice behind balanced lines, the same lines are starts. */
  lemma SliceStart(lines: seq<Line>, from: nat, to: nat, i: nat)
    requires from + i < to <= |lines| && !Open(lines[..from])
    ensures IsStart(lines[from..to], i) == IsStart(lines, from + i)
  {
    hide Fences;
    assert lines[from..to][..i] == lines[from..from + i];
    assert lines[from..to][i] == lines[from + i];
    FencesSlice(lines, from, from + i);
  }

  lemma QuietSlice(lines: seq<Line>, from: nat, to: nat)
    requires from <= to <= |lines| && !Open(lines[..from])
    requires forall i :: from <= i < to ==> !IsStart(lines, i)
    ensures NoStart(lines[from..to])
  {
    hide IsStart;
    forall i | 0 <= i < |lines[from..to]| ensures !IsStart(lines[from..to], i) {
      SliceStart(lines, from, to, i);
      assert !IsStart(lines, from + i);
    }
  }

  lemma BlockLines(lines: seq<Line>, k: nat)
    requires k < |Blocks(lines)|
    ensures |Blocks(lines)| == |Starts(lines)|
    ensures Blocks(lines)[k].lines == lines[Starts(lines)[k] + 1..EndOf(lines, k)]
  {
    hide Starts;
  }

  lemma QuietBetween(lines: seq<Line>, k: nat)
    requires k < |Starts(lines)|
    ensures NoStart(lines[Starts(lines)[k] + 1..EndOf(lines, k)])
  {
    hide Starts, Fences, NoStart, EndOf;
    var from, to := Starts(lines)[k], EndOf(lines, k);
    OpenBefore(lines, from);
    forall i | from < i < to ensures !IsStart(lines, i) {
      BetweenStarts(lines, k, i);
    }
    QuietSlice(lines, from + 1, to);
  }

  lemma BalancedBetween(lines: seq<Line>, k: nat)
    requires k + 1 < |Starts(lines)|
    ensures !Open(lines[Starts(lines)[k] + 1..EndOf(lines, k)])
  {
    hide Starts, Open;
    OpenBefore(lines, Starts(lines)[k]);
    OpenBefore(lines, Starts(lines)[k + 1]);
    BalancedSlice(lines, Starts(lines)[k] + 1, Starts(lines)[k + 1]);
  }

  /** What every block looks like: no start inside, and fences balanced in all but the last. */
  lemma BlocksAreQuiet(lines: seq<Line>, k: nat)
    requires k < |Blocks(lines)|
    ensures NoStart(Blocks(lines)[k].lines)
    ensures k + 1 < |Blocks(lines)| ==> !Open(Blocks(lines)[k].lines)
  {
    hide Blocks, Open, NoStart;
    BlockLines(lines, k);
    QuietBetween(lines, k);
    if k + 1 < |Blocks(lines)| { BalancedBetween(lines, k); }
  }
}
