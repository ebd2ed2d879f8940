/**
 The world that the TUI driver of `scripts/marketplace-tui-devnet-smoke.ts` acts on. The chain,
 the CLI and the TUI are an oracle: the reply to the n-th action is an arbitrary function of n,
 so a statement about every world is a statement about every behaviour, adaptive ones included.
 The clock never runs backwards and a sleep is never shorter than asked.
 */
module TuiWorld {
  import opened Outcomes

  /** The fields of a task detail that the driver reads; `None` where they are missing or invalid. */
  datatype Task = Task(
    status: Option<string>, taskTypeKey: Option<string>, currentWorkers: Option<int>,
    deadline: Option<int>, creator: Option<string>)

  datatype Kind = SessionKind | FetchKind | ProbeKind | EscrowKind | CliKind | SleepKind

  /** What a task detail is fetched for: to see the claim usable, to see the task settle, or to decide what to do next. */
  datatype Purpose = ClaimWait | Settlement | Decide

  /** An action of the driver, with the reply it got. */
  datatype Step =
    | Session(text: Result<string>)
    | Fetch(task: Result<Task>, why: Purpose)
    | Probe(claimOwned: Result<bool>)
    | Escrow(escrowOwned: Result<bool>)
    | Cli(output: Result<Option<string>>)
    | Sleep(ms: nat)
  {
    function Kind(): Kind {
      match this
      case Session(_) => SessionKind
      case Fetch(_, _) => FetchKind
      case Probe(_) => ProbeKind
      case Escrow(_) => EscrowKind
      case Cli(_) => CliKind
      case Sleep(_) => SleepKind
    }
  }

  datatype World = World(
    session: nat -> Result<string>,
    fetch: nat -> Result<Task>,
    probe: nat -> Result<bool>,
    escrow: nat -> Result<bool>,
    cli: nat -> Result<Option<string>>,
    latency: nat -> nat,
    extract: string -> Result<string>,
    show: int -> string)

  /** The task, and where its escrow and the claim account of this worker are, if the program id is known. */
  datatype Site = Site(hasProgram: bool, taskPda: string, escrowPda: string, claimPda: string)

  /** The step is the world's own reply to the action taken at this position. */
  predicate IsReply(w: World, position: nat, step: Step) {
    match step
    case Session(text) => text == w.session(position)
    case Fetch(task, _) => task == w.fetch(position)
    case Probe(owned) => owned == w.probe(position)
    case Escrow(owned) => owned == w.escrow(position)
    case Cli(output) => output == w.cli(position)
    case Sleep(_) => true
  }

  /** The steps, taken from position `base` on, are actions with the world's replies. */
  predicate Genuine(w: World, base: nat, steps: seq<Step>) {
    forall i :: 0 <= i < |steps| ==> IsReply(w, base + i, steps[i])
  }

  /** How long an action at this position takes. */
  function Duration(w: World, position: nat, step: Step): nat {
    w.latency(position) + if step.Sleep? then step.ms else 0
  }

  function Elapsed(w: World, base: nat, steps: seq<Step>): nat {
    if steps == [] then 0
    else
      var n := |steps| - 1;
      Elapsed(w, base, steps[..n]) + Duration(w, base + n, steps[n])
  }

  /** Starting at time `start` and position `base`, the world answers these actions and the clock then shows `now`. */
  ghost predicate Follows(w: World, base: nat, start: nat, steps: seq<Step>, now: nat) {
    Genuine(w, base, steps) && now == start + Elapsed(w, base, steps)
  }

  predicate Only(steps: seq<Step>, kinds: set<Kind>) {
    forall i :: 0 <= i < |steps| ==> steps[i].Kind() in kinds
  }

  /** A claim account owned by the program was seen. */
  predicate IsVisible(step: Step) {
    step == Probe(Ok(true))
  }

  predicate NoneVisible(steps: seq<Step>) {
    forall i :: 0 <= i < |steps| ==> !IsVisible(steps[i])
  }

  predicate EndsVisible(steps: seq<Step>) {
    steps != [] && IsVisible(steps[|steps| - 1])
  }

  function Count(steps: seq<Step>, kind: Kind): nat {
    if steps == [] then 0
    else Count(steps[..|steps| - 1], kind) + if steps[|steps| - 1].Kind() == kind then 1 else 0
  }

  /** The latest task detail that was fetched. */
  function LastFetch(steps: seq<Step>): Option<Result<Task>> {
    if steps == [] then None
    else match steps[|steps| - 1]
         case Fetch(task, _) => Some(task)
         case _ => LastFetch(steps[..|steps| - 1])
  }

  /** The latest fetch succeeded and showed this status. */
  predicate LastStatusIs(steps: seq<Step>, status: string) {
    match LastFetch(steps)
    case Some(Ok(task)) => task.status == Some(status)
    case _ => false
  }

  /** The task has left the open state, or somebody works on it. */
  predicate Advanced(task: Task) {
    task.status == Some("in_progress") || task.status == Some("completed")
    || (task.currentWorkers.Some? && task.currentWorkers.value > 0)
  }

  predicate LastFetchAdvanced(steps: seq<Step>) {
    match LastFetch(steps)
    case Some(Ok(task)) => Advanced(task)
    case _ => false
  }

  lemma {:induction false} ElapsedConcat(w: World, base: nat, a: seq<Step>, b: seq<Step>)
    ensures Elapsed(w, base, a + b) == Elapsed(w, base, a) + Elapsed(w, base + |a|, b)
  {
    if b == [] {
      assert a + b == a;
    } else {
      var n := |b| - 1;
      ElapsedConcat(w, base, a, b[..n]);
      assert (a + b)[..|a + b| - 1] == a + b[..n];
    }
  }

  lemma FollowsNothing(w: World, base: nat, start: nat)
    ensures Follows(w, base, start, [], start)
  {}

  lemma FollowsStep(w: World, base: nat, start: nat, steps: seq<Step>, now: nat, step: Step)
    requires Follows(w, base, start, steps, now) && IsReply(w, base + |steps|, step)
    ensures Follows(w, base, start, steps + [step], now + Duration(w, base + |steps|, step))
  {
    assert (steps + [step])[..|steps|] == steps;
  }

  lemma FollowsGenuinely(w: World, base: nat, start: nat, steps: seq<Step>, now: nat)
    requires Follows(w, base, start, steps, now)
    ensures Genuine(w, base, steps) && now == start + Elapsed(w, base, steps)
  {}

  lemma FollowsConcat(w: World, base: nat, start: nat, a: seq<Step>, mid: nat, b: seq<Step>, now: nat)
    requires Follows(w, base, start, a, mid) && Follows(w, base + |a|, mid, b, now)
    ensures Follows(w, base, start, a + b, now)
  {
    ElapsedConcat(w, base, a, b);
  }

  /** No action of this kind was begun later than this. */
  ghost predicate InTime(w: World, base: nat, steps: seq<Step>, kind: Kind, limitMs: nat) {
    forall i :: 0 <= i < |steps| && steps[i].Kind() == kind ==> Elapsed(w, base, steps[..i]) <= limitMs
  }

  lemma InTimeNothing(w: World, base: nat, kind: Kind, limitMs: nat)
    ensures InTime(w, base, [], kind, limitMs)
  {}

  lemma InTimeBehind(w: World, base: nat, start: nat, steps: seq<Step>, now: nat, more: seq<Step>, kind: Kind, limitMs: nat)
    requires Follows(w, base, start, steps, now) && InTime(w, base, steps, kind, limitMs)
    requires more == [] || (NoneOf(more[1..], kind) && (more[0].Kind() == kind ==> now <= start + limitMs))
    ensures InTime(w, base, steps + more, kind, limitMs)
  {
    hide Elapsed, Genuine;
    var all := steps + more;
    assert more != [] ==> forall i :: 0 < i < |more| ==> more[i] == more[1..][i - 1];
    forall i | 0 <= i < |all| && all[i].Kind() == kind ensures Elapsed(w, base, all[..i]) <= limitMs {
      if i < |steps| {
        assert all[..i] == steps[..i];
      } else {
        assert i == |steps| && all[..i] == steps;
      }
    }
  }

  /** Every sleep lasts a second and a half. */
  predicate Paced(steps: seq<Step>) {
    forall i :: 0 <= i < |steps| && steps[i].Sleep? ==> steps[i].ms == 1500
  }

  lemma {:induction false} CountConcat(a: seq<Step>, b: seq<Step>, kind: Kind)
    ensures Count(a + b, kind) == Count(a, kind) + Count(b, kind)
  {
    if b == [] {
      assert a + b == a;
    } else {
      var n := |b| - 1;
      CountConcat(a, b[..n], kind);
      assert (a + b)[..|a + b| - 1] == a + b[..n];
    }
  }

  lemma CountBoth(a: seq<Step>, b: seq<Step>)
    ensures Count(a + b, SessionKind) == Count(a, SessionKind) + Count(b, SessionKind)
    ensures Count(a + b, CliKind) == Count(a, CliKind) + Count(b, CliKind)
  {
    CountConcat(a, b, SessionKind);
    CountConcat(a, b, CliKind);
  }

  predicate NoneOf(steps: seq<Step>, kind: Kind) {
    forall i :: 0 <= i < |steps| ==> steps[i].Kind() != kind
  }

  lemma {:induction false} CountAbsent(steps: seq<Step>, kind: Kind)
    requires NoneOf(steps, kind)
    ensures Count(steps, kind) == 0
  {
    if steps != [] {
      CountAbsent(steps[..|steps| - 1], kind);
    }
  }

  lemma CountOne(step: Step, kind: Kind)
    ensures Count([step], kind) == if step.Kind() == kind then 1 else 0
  {
    assert [step][..0] == [];
  }

  lemma CountAround(a: seq<Step>, step: Step, b: seq<Step>, kind: Kind)
    requires NoneOf(a, kind) && NoneOf(b, kind)
    ensures Count(a + [step] + b, kind) == if step.Kind() == kind then 1 else 0
  {
    CountConcat(a + [step], b, kind);
    CountConcat(a, [step], kind);
    CountAbsent(a, kind);
    CountAbsent(b, kind);
    CountOne(step, kind);
  }

  /** The latest reply about the claim account. */
  function LastProbe(steps: seq<Step>): Option<Result<bool>> {
    if steps == [] then None
    else match steps[|steps| - 1]
         case Probe(owned) => Some(owned)
         case _ => LastProbe(steps[..|steps| - 1])
  }

  lemma LastProbeAppend(steps: seq<Step>, step: Step)
    ensures LastProbe(steps + [step]) == if step.Probe? then Some(step.claimOwned) else LastProbe(steps)
  {
    assert (steps + [step])[..|steps|] == steps;
  }

  lemma {:induction false} LastProbeConcat(a: seq<Step>, b: seq<Step>)
    ensures LastProbe(a + b) == if LastProbe(b).Some? then LastProbe(b) else LastProbe(a)
  {
    if b == [] {
      assert a + b == a;
    } else {
      var n := |b| - 1;
      LastProbeConcat(a, b[..n]);
      assert (a + b)[..|a + b| - 1] == a + b[..n];
    }
  }

  lemma {:induction false} LastFetchConcat(a: seq<Step>, b: seq<Step>)
    ensures LastFetch(a + b) == if LastFetch(b).Some? then LastFetch(b) else LastFetch(a)
  {
    if b == [] {
      assert a + b == a;
    } else {
      var n := |b| - 1;
      LastFetchConcat(a, b[..n]);
      assert (a + b)[..|a + b| - 1] == a + b[..n];
    }
  }

  lemma LastFetchAppend(steps: seq<Step>, step: Step)
    ensures LastFetch(steps + [step]) == if step.Fetch? then Some(step.task) else LastFetch(steps)
  {
    assert (steps + [step])[..|steps|] == steps;
  }
}
