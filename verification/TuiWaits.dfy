/** The polling loops of `scripts/marketplace-tui-devnet-smoke.ts`, and how session output is judged. */
module TuiWaits {
  import opened Outcomes
  import opened Text
  import opened TuiWorld

  // ---------------------------------------------------------------- session output

  /** `assertTuiSuccess`: the error it throws, if any. */
  function TuiFailure(text: string, title: string): Option<string> {
    if Contains(text, title + " failed") then Some("TUI " + title + " failed:\n" + text)
    else if !Contains(text, title) then Some("TUI output did not include " + title + ":\n" + text)
    else None
  }

  /** `assertTuiSuccess`. */
  method AssertTuiSuccess(text: string, title: string) returns (error: Option<string>)
    ensures error == TuiFailure(text, title)
  {
    hide Contains;
    if Contains(text, title + " failed") { return Some("TUI " + title + " failed:\n" + text); }
    if !Contains(text, title) { return Some("TUI output did not include " + title + ":\n" + text); }
    error := None;
  }

  /** The session and the judgement of its output. */
  method RunSession(w: World, base: nat, title: string) returns (text: Result<string>, error: Option<string>)
    ensures text == w.session(base) && error == SessionError(title, text)
  {
    text := w.session(base);
    if text.Err? { return text, Some(text.message); }
    error := AssertTuiSuccess(text.value, title);
  }

  /** The error that running a session and judging its output throws, if any. */
  function SessionError(title: string, session: Result<string>): (error: Option<string>)
    ensures error.None? ==> session.Ok?
  {
    match session
    case Err(message) => Some(message)
    case Ok(text) => TuiFailure(text, title)
  }

  // ---------------------------------------------------------------- attempts

  /** What the driver does after an attempt. */
  datatype Decision<T> = Return(value: T) | Throw(message: string) | Break(error: string) | Retry(error: string)

  /** What the driver answers when a decision ends the matter. */
  function Outcome<T>(d: Decision<T>): Option<Result<T>> {
    match d
    case Return(value) => Some(Ok(value))
    case Throw(message) => Some(Err(message))
    case _ => None
  }

  function OrElse(error: Option<string>, fallback: string): string {
    match error
    case None => fallback
    case Some(message) => message
  }

  // ---------------------------------------------------------------- waiting for accounts

  const PROBES: set<Kind> := {ProbeKind, SleepKind}

  lemma NothingSeen(kinds: set<Kind>)
    ensures Only([], kinds) && NoneVisible([])
  {}

  /** Looks of one kind, none begun later than this, with a second and a half between them. */
  ghost predicate Looking(w: World, base: nat, start: nat, steps: seq<Step>, now: nat, kind: Kind, limitMs: nat) {
    && Follows(w, base, start, steps, now) && Only(steps, {kind, SleepKind})
    && InTime(w, base, steps, kind, limitMs) && Paced(steps)
  }

  lemma LookingNowhere(w: World, base: nat, start: nat, kind: Kind, limitMs: nat)
    ensures Looking(w, base, start, [], start, kind, limitMs)
  {}

  lemma LookingOn(w: World, base: nat, start: nat, steps: seq<Step>, now: nat, step: Step, kind: Kind, limitMs: nat)
    requires Looking(w, base, start, steps, now, kind, limitMs) && IsReply(w, base + |steps|, step)
    requires kind != SleepKind && (step == Sleep(1500) || (step.Kind() == kind && now <= start + limitMs))
    ensures Looking(w, base, start, steps + [step], now + Duration(w, base + |steps|, step), kind, limitMs)
  {
    hide Follows, InTime;
    FollowsStep(w, base, start, steps, now, step);
    InTimeBehind(w, base, start, steps, now, [step], kind, limitMs);
  }

  const NO_PROGRAM := "Missing programId while waiting for task claim readiness"

  /** What the steps of `waitForTaskClaimReady` answer. */
  function ReadyResult(site: Site, steps: seq<Step>): Result<Option<string>> {
    if !site.hasProgram then Err(NO_PROGRAM)
    else
      match LastProbe(steps)
      case Some(Ok(owned)) => Ok(if owned then Some(site.claimPda) else None)
      case Some(Err(message)) => Err(message)
      case None => Ok(None)
  }

  /** `waitForTaskClaimReady`: an answer names the claim account, seen by the last action. */
  method WaitForTaskClaimReady(w: World, base: nat, start: nat, site: Site, waitSeconds: nat)
    returns (claim: Result<Option<string>>, now: nat, steps: seq<Step>)
    ensures Follows(w, base, start, steps, now) && Only(steps, PROBES)
    ensures claim.Ok? && claim.value.Some? ==> claim.value == Some(site.claimPda) && EndsVisible(steps)
    ensures claim.Err? || claim.value.None? ==> NoneVisible(steps)
    ensures claim.Ok? ==> site.hasProgram
    ensures claim == Ok(None) ==> now > start + waitSeconds * 1000
    ensures claim.Err? && site.hasProgram ==> steps != [] && steps[|steps| - 1] == Probe(Err(claim.message))
    ensures site.hasProgram && w.probe(base) == Ok(true) ==> claim.Ok? && steps == [Probe(Ok(true))]
    ensures !site.hasProgram ==> claim == Err(NO_PROGRAM) && steps == []
    ensures claim == ReadyResult(site, steps) && InTime(w, base, steps, ProbeKind, waitSeconds * 1000) && Paced(steps)
    ensures site.hasProgram ==> steps != [] && LastProbe(steps).Some?
    ensures claim == Ok(None) ==> steps != [] && steps[|steps| - 1].Sleep?
  {
    hide Looking, Follows, InTime, Only, Paced, LastProbe;
    now, steps := start, [];
    NothingProbed();
    LookingNowhere(w, base, start, ProbeKind, waitSeconds * 1000);
    if !site.hasProgram {
      Looked(w, base, start, steps, now, ProbeKind, waitSeconds * 1000);
      return Err(NO_PROGRAM), now, steps;
    }
    var deadline := now + waitSeconds * 1000;
    while now <= deadline
      invariant Looking(w, base, start, steps, now, ProbeKind, waitSeconds * 1000) && NoneVisible(steps)
      invariant if steps == [] then now == start else w.probe(base) != Ok(true) && steps[|steps| - 1].Sleep?
      invariant LastProbe(steps) == if steps == [] then None else Some(Ok(false))
      decreases deadline - now
    {
      var owned := w.probe(base + |steps|);
      LookingOn(w, base, start, steps, now, Probe(owned), ProbeKind, waitSeconds * 1000);
      LastProbeAppend(steps, Probe(owned));
      now, steps := now + Duration(w, base + |steps|, Probe(owned)), steps + [Probe(owned)];
      Looked(w, base, start, steps, now, ProbeKind, waitSeconds * 1000);
      if owned.Err? { return Err(owned.message), now, steps; }
      if owned.value { return Ok(Some(site.claimPda)), now, steps; }
      LookingOn(w, base, start, steps, now, Sleep(1500), ProbeKind, waitSeconds * 1000);
      LastProbeAppend(steps, Sleep(1500));
      now, steps := now + Duration(w, base + |steps|, Sleep(1500)), steps + [Sleep(1500)];
    }
    Looked(w, base, start, steps, now, ProbeKind, waitSeconds * 1000);
    claim := Ok(None);
  }

  lemma NothingProbed()
    ensures LastProbe([]) == None
  {}

  lemma Looked(w: World, base: nat, start: nat, steps: seq<Step>, now: nat, kind: Kind, limitMs: nat)
    requires Looking(w, base, start, steps, now, kind, limitMs)
    ensures Follows(w, base, start, steps, now) && Only(steps, {kind, SleepKind})
    ensures InTime(w, base, steps, kind, limitMs) && Paced(steps)
  {}

  /** What the steps of `waitForTaskEscrowReady` answer. */
  function EscrowResult(site: Site, steps: seq<Step>): Result<bool> {
    if !site.hasProgram then Err("Missing programId while waiting for task escrow readiness")
    else if Escrow(Ok(true)) in steps then Ok(true)
    else if steps != [] && steps[|steps| - 1].Escrow? && steps[|steps| - 1].escrowOwned.Err? then
      Err(steps[|steps| - 1].escrowOwned.message)
    else Err("Timed out waiting for escrow " + site.escrowPda + " to become visible for task " + site.taskPda)
  }

  /** `waitForTaskEscrowReady`: ready right after the escrow was seen; an error is a failed read or the deadline. */
  method WaitForTaskEscrowReady(w: World, base: nat, start: nat, site: Site, waitSeconds: nat)
    returns (ready: Result<bool>, now: nat, steps: seq<Step>)
    ensures Follows(w, base, start, steps, now) && Only(steps, {EscrowKind, SleepKind})
    ensures ready.Ok? ==> steps != [] && steps[|steps| - 1] == Escrow(Ok(true))
    ensures ready.Err? ==> Escrow(Ok(true)) !in steps
    ensures ready.Err? && site.hasProgram ==>
              || (steps != [] && steps[|steps| - 1] == Escrow(Err(ready.message)))
              || now > start + waitSeconds * 1000
    ensures !site.hasProgram ==> ready.Err? && steps == []
    ensures ready == EscrowResult(site, steps) && InTime(w, base, steps, EscrowKind, waitSeconds * 1000) && Paced(steps)
  {
    hide Looking, Follows, InTime, Only, Paced;
    now, steps := start, [];
    LookingNowhere(w, base, start, EscrowKind, waitSeconds * 1000);
    if !site.hasProgram {
      Looked(w, base, start, steps, now, EscrowKind, waitSeconds * 1000);
      return Err("Missing programId while waiting for task escrow readiness"), now, steps;
    }
    var deadline := now + waitSeconds * 1000;
    while now <= deadline
      invariant Looking(w, base, start, steps, now, EscrowKind, waitSeconds * 1000) && Escrow(Ok(true)) !in steps
      invariant steps != [] ==> steps[|steps| - 1].Sleep?
      decreases deadline - now
    {
      var owned := w.escrow(base + |steps|);
      LookingOn(w, base, start, steps, now, Escrow(owned), EscrowKind, waitSeconds * 1000);
      now, steps := now + Duration(w, base + |steps|, Escrow(owned)), steps + [Escrow(owned)];
      Looked(w, base, start, steps, now, EscrowKind, waitSeconds * 1000);
      if owned.Err? { return Err(owned.message), now, steps; }
      if owned.value { return Ok(true), now, steps; }
      LookingOn(w, base, start, steps, now, Sleep(1500), EscrowKind, waitSeconds * 1000);
      now, steps := now + Duration(w, base + |steps|, Sleep(1500)), steps + [Sleep(1500)];
    }
    Looked(w, base, start, steps, now, EscrowKind, waitSeconds * 1000);
    ready := Err("Timed out waiting for escrow " + site.escrowPda + " to become visible for task " + site.taskPda);
  }

  // ---------------------------------------------------------------- waiting for a usable claim

  function MissingField(title: string, field: string): string {
    title + "." + field + " is missing or invalid"
  }

  /** How `waitFor` prints its last error. */
  function MessageOrNull(error: Option<string>): string {
    OrElse(error, "null")
  }

  /** The actions show that the claim is usable: its account is visible, or the task advanced. */
  predicate Usable(steps: seq<Step>) {
    EndsVisible(steps) || LastFetchAdvanced(steps)
  }

  const POLLS: set<Kind> := {FetchKind, ProbeKind, SleepKind}

  /** Polls whose fetches are all made to see the claim usable. */
  predicate ClaimPolls(steps: seq<Step>) {
    Only(steps, POLLS) && forall i :: 0 <= i < |steps| && steps[i].Fetch? ==> steps[i].why == ClaimWait
  }

  /** The first fetch can be read and the first look at the claim account finds it. */
  predicate VisibleAtOnce(w: World, base: nat, site: Site) {
    && site.hasProgram && w.probe(base + 1) == Ok(true) && w.fetch(base).Ok?
    && w.fetch(base).value.status.Some? && w.fetch(base).value.currentWorkers.Some? && w.fetch(base).value.deadline.Some?
  }

  /** A fetch, made to see the claim usable, that shows the task advanced, or completed, and can be read in full. */
  predicate DoneInWait(step: Step) {
    && step.Fetch? && step.why == ClaimWait && step.task.Ok? && step.task.value.status.Some?
    && step.task.value.currentWorkers.Some? && step.task.value.deadline.Some? && Advanced(step.task.value)
  }

  /** Behind step `i` come probes, up to one that cannot be read or to a session or command. */
  ghost predicate LeadsOn(steps: seq<Step>, i: nat)
    requires i < |steps|
  {
    exists j :: i < j < |steps| && EndsProbes(steps, i, j)
  }

  predicate EndsProbes(steps: seq<Step>, i: nat, j: nat)
    requires i < j < |steps|
  {
    && Only(steps[i + 1..j], PROBES)
    && (steps[j].Session? || steps[j].Cli? || (steps[j].Probe? && steps[j].claimOwned.Err?))
  }

  /** Every advanced task that a wait for the claim sees leads on to a session or command, unless a probe cannot be read. */
  ghost predicate GoesOnWhenDone(steps: seq<Step>) {
    forall i :: 0 <= i < |steps| && DoneInWait(steps[i]) ==> LeadsOn(steps, i)
  }

  /** As above, once a session or command follows. */
  ghost predicate AboutToGoOn(steps: seq<Step>) {
    forall i :: 0 <= i < |steps| && DoneInWait(steps[i]) ==> LeadsOn(steps, i) || Only(steps[i + 1..], PROBES)
  }

  lemma LeadsOnConcat(a: seq<Step>, b: seq<Step>, c: seq<Step>, i: nat)
    requires i < |b| && LeadsOn(b, i)
    ensures LeadsOn(a + b + c, |a| + i)
  {
    var j :| i < j < |b| && EndsProbes(b, i, j);
    var all := a + b + c;
    assert all[|a| + i + 1..|a| + j] == b[i + 1..j];
    assert EndsProbes(all, |a| + i, |a| + j);
  }

  lemma GoesOnNothing()
    ensures GoesOnWhenDone([])
  {}

  lemma GoesOnConcat(a: seq<Step>, b: seq<Step>)
    requires GoesOnWhenDone(a) && GoesOnWhenDone(b)
    ensures GoesOnWhenDone(a + b)
  {
    hide LeadsOn, DoneInWait;
    forall i | 0 <= i < |a + b| && DoneInWait((a + b)[i]) ensures LeadsOn(a + b, i) {
      if i < |a| {
        LeadsOnConcat([], a, b, i);
        assert [] + a + b == a + b;
      } else {
        LeadsOnConcat(a, b, [], i - |a|);
        assert a + b + [] == a + b;
      }
    }
  }

  lemma AboutConcat(a: seq<Step>, b: seq<Step>)
    requires GoesOnWhenDone(a) && AboutToGoOn(b)
    ensures AboutToGoOn(a + b)
  {
    hide LeadsOn, DoneInWait, Only;
    var all := a + b;
    forall i | 0 <= i < |all| && DoneInWait(all[i]) ensures LeadsOn(all, i) || Only(all[i + 1..], PROBES) {
      if i < |a| {
        LeadsOnConcat([], a, b, i);
        assert [] + a + b == all;
      } else {
        assert all[i + 1..] == b[i - |a| + 1..];
        if LeadsOn(b, i - |a|) { LeadsOnConcat(a, b, [], i - |a|); }
        assert a + b + [] == all;
      }
    }
  }

  /** A session or command behind the wait completes what it was about. */
  lemma NowGoesOn(waits: seq<Step>, action: Step)
    requires AboutToGoOn(waits) && (action.Session? || action.Cli?)
    ensures GoesOnWhenDone(waits + [action])
  {
    hide LeadsOn, DoneInWait, Only;
    var all, n := waits + [action], |waits|;
    forall i | 0 <= i < |all| && DoneInWait(all[i]) ensures LeadsOn(all, i) {
      assert i < n by { IsNoFetch(action); }
      if LeadsOn(waits, i) {
        LeadsOnConcat([], waits, [action], i);
        assert [] + waits + [action] == all;
      } else {
        assert all[i + 1..n] == waits[i + 1..];
        LeadsOnTo(all, i, n);
      }
    }
  }

  lemma IsNoFetch(step: Step)
    requires !step.Fetch?
    ensures !DoneInWait(step)
  {}

  lemma LeadsOnTo(steps: seq<Step>, i: nat, j: nat)
    requires i < j < |steps| && EndsProbes(steps, i, j)
    ensures LeadsOn(steps, i)
  {}

  lemma NothingToHeed(steps: seq<Step>)
    requires forall i :: 0 <= i < |steps| && steps[i].Fetch? ==> steps[i].why != ClaimWait
    ensures GoesOnWhenDone(steps)
  {}

  /** A round: a fetch and probes. It is about to go on if it found the claim usable, and else a probe failed. */
  lemma RoundGoesOn(fetch: Step, more: seq<Step>, usable: bool)
    requires fetch.Fetch? && Only(more, PROBES)
    requires DoneInWait(fetch) && !usable ==> more != [] && more[|more| - 1].Probe? && more[|more| - 1].claimOwned.Err?
    ensures if usable then AboutToGoOn([fetch] + more) else GoesOnWhenDone([fetch] + more)
  {
    hide LeadsOn;
    var all := [fetch] + more;
    assert all[1..] == more;
    assert forall i :: 0 < i < |all| ==> all[i] == more[i - 1];
    if DoneInWait(fetch) && !usable {
      var n := |all| - 1;
      assert all[1..n] == more[..n - 1];
      LeadsOnTo(all, 0, n);
    }
  }

  /** Why a task without a visible claim is not usable. */
  function NotUsable(w: World, t: Task, now: nat): string
    requires t.status.Some? && t.currentWorkers.Some? && t.deadline.Some?
  {
    if t.status.value == "open" && (t.deadline.value == 0 || t.deadline.value > now / 1000 + 5) then
      "task is still open without a visible claim (workers=" + w.show(t.currentWorkers.value) + ")"
    else
      "task is not claim-usable yet (status=" + t.status.value + ", workers=" + w.show(t.currentWorkers.value)
      + ", deadline=" + w.show(t.deadline.value) + ")"
  }

  /** Why a fetched task cannot be read as the wait for the claim needs it. */
  function ReadError(task: Result<Task>): Option<string> {
    match task
    case Err(message) => Some(message)
    case Ok(t) =>
      if t.status.None? then Some(MissingField("taskClaimUsableTask", "status"))
      else if t.currentWorkers.None? then Some(MissingField("taskClaimUsableTask", "currentWorkers"))
      else if t.deadline.None? then Some(MissingField("taskClaimUsableTask", "deadline"))
      else None
  }

  /** The error of a round, a fetch and probes that ended at time `now`; none if it found the claim usable. */
  function RoundError(w: World, site: Site, round: seq<Step>, now: nat): Option<string> {
    if round == [] || !round[0].Fetch? then None
    else if ReadError(round[0].task).Some? then ReadError(round[0].task)
    else
      match ReadyResult(site, round[1..])
      case Err(message) => Some(message)
      case Ok(claim) =>
        if claim.Some? || Advanced(round[0].task.value) then None else Some(NotUsable(w, round[0].task.value, now))
  }

  /** The steps from the last fetch on. */
  function LastRound(steps: seq<Step>): seq<Step> {
    if steps == [] then []
    else
      var n := |steps| - 1;
      if steps[n].Fetch? then [steps[n]] else LastRound(steps[..n]) + [steps[n]]
  }

  /** The error of the last round of a wait, behind which the wait slept once more. */
  function LastRoundError(w: World, base: nat, start: nat, site: Site, waits: seq<Step>): Option<string> {
    if waits == [] then None
    else
      var rounds := waits[..|waits| - 1];
      RoundError(w, site, LastRound(rounds), start + Elapsed(w, base, rounds))
  }

  /** The last round of the wait found the claim usable. */
  predicate FoundUsable(w: World, site: Site, waits: seq<Step>) {
    var round := LastRound(waits);
    round != [] && round[0].Fetch? && RoundError(w, site, round, 0).None?
  }

  /** A fetch and probes behind it. */
  predicate IsRound(steps: seq<Step>) {
    steps != [] && steps[0].Fetch? && Only(steps[1..], PROBES)
  }

  lemma {:induction false} LastRoundIs(before: seq<Step>, round: seq<Step>)
    requires IsRound(round)
    ensures LastRound(before + round) == round
  {
    var all, n := before + round, |round| - 1;
    assert all[|all| - 1] == round[n] && all[..|all| - 1] == before + round[..n];
    if n > 0 {
      assert round[n] == round[1..][n - 1];
      assert round[..n][1..] == round[1..][..n - 1];
      LastRoundIs(before, round[..n]);
    }
  }

  lemma LastRoundErrorIs(
    w: World, base: nat, start: nat, site: Site, before: seq<Step>, round: seq<Step>, now: nat, pause: Step)
    requires IsRound(round) && Follows(w, base, start, before + round, now)
    ensures LastRoundError(w, base, start, site, before + round + [pause]) == RoundError(w, site, round, now)
  {
    hide RoundError, LastRound, IsRound;
    LastRoundIs(before, round);
    var all := before + round + [pause];
    assert all[..|all| - 1] == before + round;
  }

  /** Polls that began with a fetch and did not find the claim usable for this long; no round was begun later. */
  ghost predicate NeverUsable(w: World, base: nat, waits: seq<Step>, seconds: nat) {
    && waits != [] && waits[0].Fetch? && ClaimPolls(waits) && NoneVisible(waits) && Paced(waits)
    && InTime(w, base, waits, FetchKind, seconds * 1000) && Elapsed(w, base, waits) > seconds * 1000
  }

  /** Polls that began with a fetch and ended with the claim usable. */
  predicate SawUsable(steps: seq<Step>) {
    steps != [] && steps[0].Fetch? && ClaimPolls(steps) && Usable(steps)
  }

  /** One round of `waitForTaskClaimUsable`: usable, or the error of this round. */
  method CheckClaimUsable(w: World, base: nat, start: nat, site: Site)
    returns (usable: Result<bool>, now: nat, steps: seq<Step>)
    ensures Follows(w, base, start, steps, now) && ClaimPolls(steps) && IsRound(steps)
    ensures usable.Ok? ==> Usable(steps)
    ensures usable.Err? ==> NoneVisible(steps)
    ensures RoundError(w, site, steps, now) == if usable.Ok? then None else Some(usable.message)
    ensures InTime(w, base + 1, steps[1..], ProbeKind, 2000) && Paced(steps)
    ensures site.hasProgram ==> if usable.Ok? then AboutToGoOn(steps) else GoesOnWhenDone(steps)
    ensures VisibleAtOnce(w, base, site) ==>
              usable.Ok? && steps == [Fetch(w.fetch(base), ClaimWait), Probe(Ok(true))]
  {
    hide Follows, Advanced, LastFetch, Only, NoneVisible, ClaimPolls, AboutToGoOn, GoesOnWhenDone, InTime, ReadyResult;
    InTimeNothing(w, base + 1, ProbeKind, 2000);
    var task := w.fetch(base);
    var first := Fetch(task, ClaimWait);
    FollowsNothing(w, base, start);
    FollowsStep(w, base, start, [], start, first);
    now, steps := start + Duration(w, base, first), [first];
    assert [] + [first] == steps;
    NothingSeen(PROBES);
    FetchIsPoll(first, []);
    assert [first] + [] == steps && steps[1..] == [];
    if !DoneInWait(first) { RoundGoesOn(first, [], false); }
    assert steps[1..] == [];
    if task.Err? { return Err(task.message), now, steps; }
    var t := task.value;
    if t.status.None? { return Err(MissingField("taskClaimUsableTask", "status")), now, steps; }
    if t.currentWorkers.None? { return Err(MissingField("taskClaimUsableTask", "currentWorkers")), now, steps; }
    if t.deadline.None? { return Err(MissingField("taskClaimUsableTask", "deadline")), now, steps; }
    var claim, now', more := WaitForTaskClaimReady(w, base + 1, now, site, 2);
    FollowsConcat(w, base, start, steps, now, more, now');
    FetchThenPolls(first, more);
    FetchIsPoll(first, more);
    assert ([first] + more)[1..] == more;
    now, steps := now', [first] + more;
    DoneIsAdvanced(first);
    if claim.Ok? && (claim.value.Some? || Advanced(t)) { RoundGoesOn(first, more, true); }
    else if site.hasProgram { RoundGoesOn(first, more, false); }
    var status, workers, taskDeadline := t.status.value, t.currentWorkers.value, t.deadline.value;
    assert (status == "in_progress" || status == "completed" || workers > 0) == Advanced(t) by { AdvancedIs(t); }
    if claim.Err? { return Err(claim.message), now, steps; }
    if claim.value.Some? { return Ok(true), now, steps; }
    if status == "in_progress" || status == "completed" || workers > 0 { return Ok(true), now, steps; }
    if status == "open" && (taskDeadline == 0 || taskDeadline > now / 1000 + 5) {
      usable := Err("task is still open without a visible claim (workers=" + w.show(workers) + ")");
    } else {
      usable := Err("task is not claim-usable yet (status=" + status + ", workers=" + w.show(workers)
                    + ", deadline=" + w.show(taskDeadline) + ")");
    }
  }

  lemma AdvancedIs(t: Task)
    requires t.status.Some? && t.currentWorkers.Some?
    ensures Advanced(t) <==> t.status.value == "in_progress" || t.status.value == "completed" || t.currentWorkers.value > 0
  {}

  lemma {:induction false} NoFetch(steps: seq<Step>)
    requires Only(steps, PROBES)
    ensures LastFetch(steps).None?
  {
    if steps != [] {
      NoFetch(steps[..|steps| - 1]);
    }
  }

  lemma DoneIsAdvanced(step: Step)
    ensures DoneInWait(step) ==> Advanced(step.task.value)
  {}

  lemma FetchIsPoll(fetch: Step, more: seq<Step>)
    requires fetch.Fetch? && fetch.why == ClaimWait && Only(more, PROBES)
    ensures ClaimPolls([fetch] + more)
    ensures NoneVisible(more) ==> NoneVisible([fetch] + more)
    ensures EndsVisible(more) ==> EndsVisible([fetch] + more)
  {}

  lemma FetchThenPolls(fetch: Step, more: seq<Step>)
    requires fetch.Fetch? && Only(more, PROBES)
    ensures LastFetch([fetch] + more) == Some(fetch.task)
  {
    assert LastFetch([fetch]) == Some(fetch.task);
    LastFetchConcat([fetch], more);
    NoFetch(more);
  }

  lemma UsableConcat(a: seq<Step>, b: seq<Step>)
    requires Usable(b)
    ensures Usable(a + b)
  {
    LastFetchConcat(a, b);
    if EndsVisible(b) { assert (a + b)[|a + b| - 1] == b[|b| - 1]; }
  }

  const CLAIM_TIMEOUT := "task claim usable timed out: "

  /** `waitForTaskClaimUsable`. */
  method WaitForTaskClaimUsable(w: World, base: nat, start: nat, site: Site, waitSeconds: nat)
    returns (usable: Result<bool>, now: nat, steps: seq<Step>)
    ensures Follows(w, base, start, steps, now) && ClaimPolls(steps)
    ensures usable.Ok? ==> SawUsable(steps)
    ensures usable.Ok? <==> FoundUsable(w, site, steps)
    ensures InTime(w, base, steps, FetchKind, waitSeconds * 1000) && Paced(steps)
    ensures usable.Err? ==>
              && NeverUsable(w, base, steps, waitSeconds) && LastRoundError(w, base, start, site, steps).Some?
              && usable.message == CLAIM_TIMEOUT + MessageOrNull(LastRoundError(w, base, start, site, steps))
    ensures site.hasProgram ==> if usable.Ok? then AboutToGoOn(steps) else GoesOnWhenDone(steps)
    ensures VisibleAtOnce(w, base, site) ==>
              usable.Ok? && steps == [Fetch(w.fetch(base), ClaimWait), Probe(Ok(true))]
  {
    hide Follows, Genuine, Elapsed, Usable, VisibleAtOnce;
    hide AboutToGoOn, GoesOnWhenDone, LastRoundError, RoundError, LastRound;
    hide InTime, IsRound, FoundUsable;
    InTimeNothing(w, base, FetchKind, waitSeconds * 1000);
    assert !FoundUsable(w, site, []) by { NothingFound(w, site); }
    now, steps := start, [];
    FollowsNothing(w, base, start);
    GoesOnNothing();
    assert LastRoundError(w, base, start, site, []) == None by { NoRound(w, base, start, site); }
    var deadline, lastError := now + waitSeconds * 1000, None;
    while now <= deadline
      invariant Follows(w, base, start, steps, now) && ClaimPolls(steps) && NoneVisible(steps)
      invariant lastError == LastRoundError(w, base, start, site, steps)
      invariant (steps != [] ==> steps[0].Fetch? && lastError.Some?) && !FoundUsable(w, site, steps)
      invariant InTime(w, base, steps, FetchKind, waitSeconds * 1000) && Paced(steps)
      invariant site.hasProgram ==> GoesOnWhenDone(steps)
      invariant now >= start && (steps == [] ==> now == start) && (steps != [] ==> !VisibleAtOnce(w, base, site))
      decreases deadline - now
    {
      var round, now', more := CheckClaimUsable(w, base + |steps|, now, site);
      FollowsConcat(w, base, start, steps, now, more, now');
      FollowsGenuinely(w, base + |steps|, now, more, now');
      if round.Ok? { UsableConcat(steps, more); }
      if site.hasProgram {
        if round.Ok? { AboutConcat(steps, more); } else { GoesOnConcat(steps, more); }
      }
      if steps == [] { assert steps + more == more; }
      RoundStarts(more);
      InTimeBehind(w, base, start, steps, now, more, FetchKind, waitSeconds * 1000);
      LastRoundIs(steps, more);
      RoundIsFound(w, site, steps, more, now', Sleep(1500));
      LastRoundErrorIs(w, base, start, site, steps, more, now', Sleep(1500));
      now, steps := now', steps + more;
      if round.Ok? { return Ok(true), now, steps; }
      lastError := Some(round.message);
      FollowsStep(w, base, start, steps, now, Sleep(1500));
      InTimeBehind(w, base, start, steps, now, [Sleep(1500)], FetchKind, waitSeconds * 1000);
      NothingToHeed([Sleep(1500)]);
      if site.hasProgram { GoesOnConcat(steps, [Sleep(1500)]); }
      now, steps := now + Duration(w, base + |steps|, Sleep(1500)), steps + [Sleep(1500)];
    }
    FollowsGenuinely(w, base, start, steps, now);
    usable := Err(CLAIM_TIMEOUT + MessageOrNull(lastError));
  }

  lemma NothingFound(w: World, site: Site)
    ensures !FoundUsable(w, site, [])
  {}

  /** A round decides whether the wait found the claim usable, also when a sleep follows it. */
  lemma RoundIsFound(w: World, site: Site, before: seq<Step>, round: seq<Step>, now: nat, pause: Step)
    requires IsRound(round) && pause.Sleep?
    ensures FoundUsable(w, site, before + round) <==> RoundError(w, site, round, now).None?
    ensures FoundUsable(w, site, before + round + [pause]) <==> RoundError(w, site, round, now).None?
  {
    hide LastProbe, LastRound, Only, Advanced;
    LastRoundIs(before, round);
    RoundAndPause(round, pause);
    LastRoundIs(before, round + [pause]);
    assert before + (round + [pause]) == before + round + [pause];
    assert (round + [pause])[1..] == round[1..] + [pause];
    LastProbeAppend(round[1..], pause);
  }

  lemma RoundAndPause(round: seq<Step>, pause: Step)
    requires IsRound(round) && pause.Sleep?
    ensures IsRound(round + [pause])
  {
    assert (round + [pause])[1..] == round[1..] + [pause];
  }

  lemma NoRound(w: World, base: nat, start: nat, site: Site)
    ensures LastRoundError(w, base, start, site, []) == None
  {}

  lemma RoundStarts(steps: seq<Step>)
    requires IsRound(steps)
    ensures steps != [] && steps[0].Fetch? && NoneOf(steps[1..], FetchKind)
  {}

  // ---------------------------------------------------------------- waiting for a status

  /** A fetch that shows this status. */
  predicate IsStatus(step: Step, status: string) {
    step.Fetch? && step.task.Ok? && step.task.value.status == Some(status)
  }

  /** No fetch showed this status. */
  predicate Unseen(steps: seq<Step>, status: string) {
    forall i :: 0 <= i < |steps| ==> !IsStatus(steps[i], status)
  }

  /** Only the last action showed this status. */
  predicate SeenLast(steps: seq<Step>, status: string) {
    steps != [] && IsStatus(steps[|steps| - 1], status) && Unseen(steps[..|steps| - 1], status)
  }

  lemma SeenLastIsLast(steps: seq<Step>, status: string)
    requires SeenLast(steps, status)
    ensures LastStatusIs(steps, status)
  {}

  lemma LastStatusConcat(a: seq<Step>, b: seq<Step>, status: string)
    requires LastStatusIs(b, status)
    ensures LastStatusIs(a + b, status)
  {
    LastFetchConcat(a, b);
  }

  /** The error of the loader that insists on a task status, for a fetch that does not show it. */
  function StatusError(context: string, task: Result<Task>): string {
    match task
    case Err(message) => message
    case Ok(t) => if t.status.None? then MissingField(context, "status") else "task status is " + t.status.value
  }

  function LastStatusError(context: string, steps: seq<Step>): Option<string> {
    match LastFetch(steps)
    case None => None
    case Some(task) => Some(StatusError(context, task))
  }

  /** Fetches, at least one, that did not show this status for this long; none was begun later. */
  ghost predicate NotSettled(w: World, base: nat, steps: seq<Step>, status: string, seconds: nat) {
    && Settling(steps) && Paced(steps) && LastFetch(steps).Some? && Unseen(steps, status)
    && InTime(w, base, steps, FetchKind, seconds * 1000) && Elapsed(w, base, steps) > seconds * 1000
  }

  /** Fetches made to see a task settle, and sleeps. */
  predicate Settling(steps: seq<Step>) {
    Only(steps, {FetchKind, SleepKind}) && forall i :: 0 <= i < |steps| && steps[i].Fetch? ==> steps[i].why == Settlement
  }

  /** `waitFor` with the loader that insists on a task status: it returns right after first seeing that status. */
  method WaitForStatus(w: World, base: nat, start: nat, title: string, context: string, status: string, timeoutSeconds: nat)
    returns (reached: Result<bool>, now: nat, steps: seq<Step>)
    ensures Follows(w, base, start, steps, now) && Settling(steps)
    ensures steps != [] && steps[0] == Fetch(w.fetch(base), Settlement)
    ensures reached.Ok? ==> SeenLast(steps, status)
    ensures reached.Err? ==>
              && NotSettled(w, base, steps, status, timeoutSeconds)
              && reached.message == title + " timed out: " + MessageOrNull(LastStatusError(context, steps))
  {
    hide Follows, Genuine, Elapsed, LastFetch, InTime;
    now, steps := start, [];
    FollowsNothing(w, base, start);
    NothingFetched();
    InTimeNothing(w, base, FetchKind, timeoutSeconds * 1000);
    var deadline, lastError := now + timeoutSeconds * 1000, None;
    while now <= deadline
      invariant Follows(w, base, start, steps, now) && Settling(steps) && Unseen(steps, status)
      invariant if steps == [] then now == start else steps[0] == Fetch(w.fetch(base), Settlement)
      invariant lastError == LastStatusError(context, steps) && (lastError.None? ==> now == start)
      invariant InTime(w, base, steps, FetchKind, timeoutSeconds * 1000) && Paced(steps)
      decreases deadline - now
    {
      var task := w.fetch(base + |steps|);
      var fetch := Fetch(task, Settlement);
      FollowsStep(w, base, start, steps, now, fetch);
      LastFetchAppend(steps, fetch);
      InTimeBehind(w, base, start, steps, now, [fetch], FetchKind, timeoutSeconds * 1000);
      assert (steps + [fetch])[..|steps|] == steps;
      now, steps := now + Duration(w, base + |steps|, fetch), steps + [fetch];
      if task.Ok? && task.value.status == Some(status) { return Ok(true), now, steps; }
      lastError := Some(if task.Err? then task.message
                        else if task.value.status.None? then MissingField(context, "status")
                        else "task status is " + task.value.status.value);
      FollowsStep(w, base, start, steps, now, Sleep(1500));
      LastFetchAppend(steps, Sleep(1500));
      InTimeBehind(w, base, start, steps, now, [Sleep(1500)], FetchKind, timeoutSeconds * 1000);
      now, steps := now + Duration(w, base + |steps|, Sleep(1500)), steps + [Sleep(1500)];
    }
    FollowsGenuinely(w, base, start, steps, now);
    reached := Err(title + " timed out: " + MessageOrNull(lastError));
  }

  lemma NothingFetched()
    ensures LastFetch([]) == None
  {}
}
