/** `claimTaskViaTui` of `scripts/marketplace-tui-devnet-smoke.ts`. */
module TuiClaim {
  import opened Outcomes
  import opened Text
  import opened TuiWorld
  import opened TuiWaits

  datatype Confirmation = Payload | Visible | Derived
  datatype Claim = Claim(text: string, claimPda: string, confirmation: Confirmation)

  predicate IsRetriable(message: string) {
    || Contains(message, "Task is not open for claims")
    || Contains(message, "Too Many Requests")
    || Contains(message, "BidTaskRequiresAcceptance")
    || Contains(message, "AlreadyClaimed")
    || Contains(message, "Task not found")
    || Contains(message, "Task has expired")
  }

  /** The claim account that a session's output reports, or the error of the attempt. */
  function Reported(w: World, title: string, session: Result<string>): (reported: Result<string>)
    ensures reported.Ok? ==> session.Ok?
  {
    match SessionError(title, session)
    case Some(message) => Err(message)
    case None => w.extract(session.value)
  }

  /** The task could not be read, or was seen open with nobody working on it. */
  predicate OpenOrUnreadable(task: Result<Task>) {
    task.Ok? ==> task.value.status == Some("open") && !Advanced(task.value)
  }

  /** The chain itself confirms the claim: its account was seen last, or the latest fetch shows the task advanced. */
  predicate ChainConfirms(site: Site, steps: seq<Step>, claim: Claim) {
    && claim.claimPda == site.claimPda && claim.confirmation != Payload
    && (EndsVisible(steps) || (claim.confirmation == Derived && LastFetchAdvanced(steps)))
  }

  predicate HasClaimFields(t: Task) {
    t.status.Some? && t.taskTypeKey.Some? && t.currentWorkers.Some? && t.deadline.Some?
  }

  function MissingClaimField(t: Task): string {
    if t.status.None? then "status" else if t.taskTypeKey.None? then "taskTypeKey"
    else if t.currentWorkers.None? then "currentWorkers" else "deadline"
  }

  /** Why the handler gives up on further attempts. */
  predicate StopsRetrying(message: string, t: Task, last: bool, now: nat) {
    || t.status != Some("open")
    || (Contains(message, "Task has expired") && t.deadline.Some? && 0 < t.deadline.value <= now / 1000)
    || (Contains(message, "BidTaskRequiresAcceptance") && t.taskTypeKey == Some("bid-exclusive"))
    || !IsRetriable(message) || last
  }

  /** What the probes of the handler settle, if anything: a visible account, a failed probe, or a task that has advanced. */
  function ProbeEvidence(
    w: World, base: nat, title: string, site: Site, message: string, t: Task, probes: seq<Step>): Option<Decision<Claim>>
  {
    match ReadyResult(site, probes)
    case Err(error) => Some(Throw(error))
    case Ok(Some(claimPda)) =>
      var early := probes != [] && Elapsed(w, base, probes[..|probes| - 1]) <= 5000;
      Some(Return(Claim(message, claimPda, if Contains(message, "AlreadyClaimed") && early then Derived else Visible)))
    case Ok(None) =>
      if !Advanced(t) then None
      else if Contains(message, "AlreadyClaimed") then
        Some(Throw(title + " was claimed by another worker before our claim settled"))
      else Some(Return(Claim(message, site.claimPda, Derived)))
  }

  /** What the steps of the handler settle, if anything; otherwise the attempts end or go on. */
  function Evidence(
    w: World, base: nat, title: string, site: Site, message: string, last: bool, steps: seq<Step>): Option<Decision<Claim>>
  {
    if !site.hasProgram then Some(Throw("Missing programId while handling claim retries"))
    else if steps == [] || !steps[0].Fetch? then None
    else
      match steps[0].task
      case Err(error) => if IsRetriable(message) && !last then None else Some(Throw(error))
      case Ok(t) =>
        if HasClaimFields(t) then ProbeEvidence(w, base + 1, title, site, message, t, steps[1..])
        else Some(Throw(MissingField(title + ".retryTaskDetail", MissingClaimField(t))))
  }

  /** The `catch` block of one attempt. */
  method HandleFailure(
    w: World, base: nat, start: nat, title: string, site: Site, message: string, attempt: nat, last: bool)
    returns (d: Decision<Claim>, now: nat, steps: seq<Step>)
    ensures Follows(w, base, start, steps, now) && Only(steps, POLLS)
    ensures d.Return? ==> d.value.text == message && ChainConfirms(site, steps, d.value)
    ensures Evidence(w, base, title, site, message, last, steps) == if d.Return? || d.Throw? then Some(d) else None
    ensures d.Break? ==>
              && d.error == message && steps != [] && steps[0].Fetch? && steps[0].task.Ok? && !Advanced(steps[0].task.value)
              && StopsRetrying(message, steps[0].task.value, last, now) && NoneVisible(steps)
    ensures d.Retry? ==>
              && d.error == message && !last && steps != [] && steps[0].Fetch? && steps[0].why == Decide && NoneVisible(steps)
              && Excused(message, steps[0].task, start + Elapsed(w, base, steps[..|steps| - 1]))
              && steps[|steps| - 1] == Sleep((if steps[0].task.Err? then 2000 else 4000) * attempt)
  {
    hide Follows, Elapsed, Contains, ChainConfirms, Advanced, ProbeEvidence;
    now, steps := start, [];
    FollowsNothing(w, base, start);
    if !site.hasProgram {
      return Throw("Missing programId while handling claim retries"), now, steps;
    }
    var isRetriable := Contains(message, "Task is not open for claims") || Contains(message, "Too Many Requests")
                       || Contains(message, "BidTaskRequiresAcceptance") || Contains(message, "AlreadyClaimed")
                       || Contains(message, "Task not found") || Contains(message, "Task has expired");
    var task := w.fetch(base);
    var first := Fetch(task, Decide);
    FollowsStep(w, base, start, [], start, first);
    now, steps := start + Duration(w, base, first), [first];
    assert [] + [first] == steps;
    if task.Err? {
      if !isRetriable || last { return Throw(task.message), now, steps; }
      var pause := Sleep(2000 * attempt);
      FollowsStep(w, base, start, steps, now, pause);
      now, steps := now + Duration(w, base + 1, pause), steps + [pause];
      return Retry(message), now, steps;
    }
    var context := title + ".retryTaskDetail";
    if task.value.status.None? { return Throw(MissingField(context, "status")), now, steps; }
    if task.value.taskTypeKey.None? { return Throw(MissingField(context, "taskTypeKey")), now, steps; }
    if task.value.currentWorkers.None? { return Throw(MissingField(context, "currentWorkers")), now, steps; }
    if task.value.deadline.None? { return Throw(MissingField(context, "deadline")), now, steps; }
    d, now, steps := JudgeTask(w, base, start, title, site, message, isRetriable, attempt, last, task.value);
  }

  /** The part of the `catch` block that looks for the claim on chain; `None` when nothing settles the matter. */
  method ConfirmOrDeny(w: World, base: nat, start: nat, title: string, site: Site, message: string, t: Task)
    returns (d: Option<Decision<Claim>>, now: nat, steps: seq<Step>)
    requires site.hasProgram && HasClaimFields(t)
    ensures Follows(w, base, start, steps, now) && Only(steps, PROBES)
    ensures d == ProbeEvidence(w, base, title, site, message, t, steps)
    ensures d.None? ==> !Advanced(t) && NoneVisible(steps)
    ensures d.Some? ==> d.value.Return? || d.value.Throw?
    ensures d.Some? && d.value.Return? ==>
              && d.value.value.text == message && d.value.value.claimPda == site.claimPda && d.value.value.confirmation != Payload
              && (EndsVisible(steps) || (d.value.value.confirmation == Derived && Advanced(t)))
  {
    hide Contains, Follows, Elapsed, LastProbe, InTime, Genuine;
    now, steps := start, [];
    FollowsNothing(w, base, start);
    var status, workers := t.status.value, t.currentWorkers.value;
    AdvancedIs(t);
    if Contains(message, "AlreadyClaimed") {
      var visible, now', probes := WaitForTaskClaimReady(w, base, now, site, 5);
      FollowsGenuinely(w, base, start, probes, now');
      now, steps := now', probes;
      if visible.Err? { return Some(Throw(visible.message)), now, steps; }
      if visible.value == Some(site.claimPda) {
        BegunInTime(w, base, probes, 5000);
        return Some(Return(Claim(message, site.claimPda, Derived))), now, steps;
      }
      if workers > 0 || status == "in_progress" || status == "completed" {
        return Some(Throw(title + " was claimed by another worker before our claim settled")), now, steps;
      }
    }
    var claim, now', probes := WaitForTaskClaimReady(w, base + |steps|, now, site, 10);
    FollowsConcat(w, base, start, steps, now, probes, now');
    SecondWait(w, base, steps, probes);
    now, steps := now', steps + probes;
    if claim.Err? { return Some(Throw(claim.message)), now, steps; }
    if claim.value.Some? { return Some(Return(Claim(message, claim.value.value, Visible))), now, steps; }
    if status == "in_progress" || status == "completed" || workers > 0 {
      return Some(Return(Claim(message, site.claimPda, Derived))), now, steps;
    }
    d := None;
  }

  /** A wait that ends with a visible account looked in time. */
  lemma BegunInTime(w: World, base: nat, probes: seq<Step>, limitMs: nat)
    requires InTime(w, base, probes, ProbeKind, limitMs) && EndsVisible(probes)
    ensures Elapsed(w, base, probes[..|probes| - 1]) <= limitMs
  {}

  /** Behind an earlier wait, the last probe is that of the later one, and all of the earlier wait has passed. */
  lemma SecondWait(w: World, base: nat, first: seq<Step>, second: seq<Step>)
    requires second != [] && LastProbe(second).Some?
    ensures LastProbe(first + second) == LastProbe(second)
    ensures Elapsed(w, base, (first + second)[..|first + second| - 1]) >= Elapsed(w, base, first)
  {
    hide LastProbe, Elapsed;
    LastProbeConcat(first, second);
    var n := |second| - 1;
    assert (first + second)[..|first + second| - 1] == first + second[..n];
    ElapsedConcat(w, base, first, second[..n]);
  }

  /** The rest of the `catch` block, once the task has been read. */
  method JudgeTask(
    w: World, base: nat, start: nat, title: string, site: Site, message: string, isRetriable: bool,
    attempt: nat, last: bool, t: Task)
    returns (d: Decision<Claim>, now: nat, steps: seq<Step>)
    requires site.hasProgram && HasClaimFields(t) && w.fetch(base) == Ok(t) && isRetriable == IsRetriable(message)
    ensures Follows(w, base, start, steps, now) && Only(steps, POLLS) && steps != [] && steps[0] == Fetch(Ok(t), Decide)
    ensures d.Return? ==> d.value.text == message && ChainConfirms(site, steps, d.value)
    ensures Evidence(w, base, title, site, message, last, steps) == if d.Return? || d.Throw? then Some(d) else None
    ensures d.Break? ==> d.error == message && !Advanced(t) && StopsRetrying(message, t, last, now) && NoneVisible(steps)
    ensures d.Retry? ==>
              && d.error == message && !Advanced(t) && NoneVisible(steps)
              && !StopsRetrying(message, t, last, start + Elapsed(w, base, steps[..|steps| - 1]))
              && steps[|steps| - 1] == Sleep(4000 * attempt)
  {
    hide Contains, IsRetriable, Advanced, Follows, Genuine, Elapsed, ProbeEvidence;
    var first := Fetch(Ok(t), Decide);
    FollowsNothing(w, base, start);
    FollowsStep(w, base, start, [], start, first);
    assert [] + [first] == [first];
    now := start + Duration(w, base, first);
    var settled, now', probes := ConfirmOrDeny(w, base + 1, now, title, site, message, t);
    FetchThenPolls(first, probes);
    FollowsConcat(w, base, start, [first], now, probes, now');
    now, steps := now', [first] + probes;
    assert steps[1..] == probes;
    if settled.Some? { return settled.value, now, steps; }
    if t.status.value != "open" { return Break(message), now, steps; }
    if Contains(message, "Task has expired") && 0 < t.deadline.value <= now / 1000 { return Break(message), now, steps; }
    if Contains(message, "BidTaskRequiresAcceptance") && t.taskTypeKey.value == "bid-exclusive" { return Break(message), now, steps; }
    if !isRetriable || last { return Break(message), now, steps; }
    var pause := Sleep(4000 * attempt);
    StillUnsettled(w, base + 1, title, site, message, t, probes, pause);
    assert (steps + [pause])[1..] == probes + [pause];
    FollowsGenuinely(w, base, start, steps, now);
    FollowsStep(w, base, start, steps, now, pause);
    assert (steps + [pause])[..|steps|] == steps;
    now, steps := now + Duration(w, base + |steps|, pause), steps + [pause];
    d := Retry(message);
  }

  lemma StillUnsettled(
    w: World, base: nat, title: string, site: Site, message: string, t: Task, probes: seq<Step>, pause: Step)
    requires ProbeEvidence(w, base, title, site, message, t, probes).None? && pause.Sleep?
    ensures ProbeEvidence(w, base, title, site, message, t, probes + [pause]).None?
  {
    hide LastProbe, Elapsed, Contains;
    LastProbeAppend(probes, pause);
  }

  // ---------------------------------------------------------------- after the attempts

  /** A direct CLI claim reported this account, and afterwards the claim became usable. */
  ghost predicate CliConfirms(steps: seq<Step>, claim: Claim) {
    && claim.confirmation == Visible
    && exists k :: 0 <= k < |steps| && steps[k] == Cli(Ok(Some(claim.claimPda))) && Usable(steps[k + 1..])
  }

  /** The task was seen open and unclaimed, with more than five seconds left at this time. */
  predicate OpenAt(task: Result<Task>, now: nat) {
    && task.Ok? && task.value.status == Some("open") && !Advanced(task.value)
    && task.value.deadline.Some? && (task.value.deadline.value == 0 || task.value.deadline.value > now / 1000 + 5)
  }

  /** The two steps before `k` are a fetch that showed the task open when it arrived, and 30 seconds of sleep. */
  ghost predicate LicensedAt(w: World, base: nat, start: nat, steps: seq<Step>, k: nat)
    requires k <= |steps|
  {
    && k >= 2 && steps[k - 2].Fetch? && steps[k - 1] == Sleep(30000)
    && OpenAt(steps[k - 2].task, start + Elapsed(w, base, steps[..k - 1]))
  }

  const WITH_CLI: set<Kind> := POLLS + {CliKind}

  /** The command of a direct claim reported a claim account. */
  predicate ReportsClaim(direct: seq<Step>) {
    |direct| >= 2 && direct[1].Cli? && direct[1].output.Ok? && direct[1].output.value.Some?
  }

  /** The direct CLI claim: 30 seconds of sleep, one command, and the wait until the claim is usable. */
  method ClaimDirectly(w: World, base: nat, start: nat, title: string, site: Site)
    returns (claimPda: Result<string>, now: nat, steps: seq<Step>)
    ensures Follows(w, base, start, steps, now) && |steps| >= 2 && steps[0] == Sleep(30000) && steps[1].Cli?
    ensures Only(steps[2..], POLLS)
    ensures claimPda.Ok? ==> steps[1] == Cli(Ok(Some(claimPda.value))) && Usable(steps[2..])
    ensures claimPda.Ok? <==> ReportsClaim(steps) && FoundUsable(w, site, steps[2..])
    ensures claimPda.Err? && ReportsClaim(steps) ==> NeverUsable(w, base + 2, steps[2..], 60)
  {
    hide Follows, Usable, FoundUsable, NeverUsable, InTime;
    assert !FoundUsable(w, site, []) by { NothingFound(w, site); }
    var output := w.cli(base + 1);
    FollowsNothing(w, base, start);
    FollowsStep(w, base, start, [], start, Sleep(30000));
    now := start + Duration(w, base, Sleep(30000));
    assert [] + [Sleep(30000)] == [Sleep(30000)];
    FollowsStep(w, base, start, [Sleep(30000)], now, Cli(output));
    now, steps := now + Duration(w, base + 1, Cli(output)), [Sleep(30000)] + [Cli(output)];
    if output.Err? { return Err(output.message), now, steps; }
    if output.value.None? { return Err(MissingField(title + ".fallbackClaimResult", "claimPda")), now, steps; }
    var usable, now', more := WaitForTaskClaimUsable(w, base + 2, now, site, 60);
    assert (steps + more)[2..] == more;
    FollowsConcat(w, base, start, steps, now, more, now');
    now, steps := now', steps + more;
    claimPda := if usable.Err? then Err(usable.message) else Ok(output.value.value);
  }

  /** The task was fetched in full, was open, and not about to expire at this time. */
  predicate StillOpen(t: Task, now: nat) {
    t.status == Some("open") && t.deadline.Some? && (t.deadline.value == 0 || t.deadline.value > now / 1000 + 5)
  }

  /** What a fetch behind the last wait, and the direct claim that may follow it, come to. */
  function DecideResult(
    w: World, base: nat, start: nat, site: Site, text: string, failure: string, steps: seq<Step>): Result<Claim>
  {
    if steps == [] || !steps[0].Fetch? || ReadError(steps[0].task).Some? then Err(failure)
    else if Advanced(steps[0].task.value) then Ok(Claim(text, site.claimPda, Derived))
    else if !StillOpen(steps[0].task.value, start + Duration(w, base, steps[0])) then Err(failure)
    else if ReportsClaim(steps[1..]) && FoundUsable(w, site, steps[3..]) then
      Ok(Claim(text, steps[2].output.value.value, Visible))
    else Err(failure)
  }

  /** A direct claim that reported an account waited a minute for it, unless it was found usable. */
  ghost predicate WaitsItOut(w: World, base: nat, site: Site, steps: seq<Step>) {
    steps != [] && ReportsClaim(steps[1..]) ==> FoundUsable(w, site, steps[3..]) || NeverUsable(w, base + 3, steps[3..], 60)
  }

  /** The position of the first fetch, or the length. */
  function FirstFetch(steps: seq<Step>): (f: nat)
    ensures f <= |steps| && (f < |steps| ==> steps[f].Fetch?)
    ensures forall i :: 0 <= i < f ==> !steps[i].Fetch?
  {
    if steps == [] || steps[0].Fetch? then 0 else 1 + FirstFetch(steps[1..])
  }

  /** What the steps behind the attempts come to: a visible account, a failed probe, or what the fetch decides. */
  function FinishResult(
    w: World, base: nat, start: nat, title: string, site: Site, lastError: Option<string>, steps: seq<Step>): Result<Claim>
  {
    var f := FirstFetch(steps);
    match ReadyResult(site, steps[..f])
    case Err(message) => Err(message)
    case Ok(Some(claimPda)) => Ok(Claim(OrElse(lastError, title), claimPda, Visible))
    case Ok(None) =>
      DecideResult(w, base + f, start + Elapsed(w, base, steps[..f]), site,
        OrElse(lastError, title), OrElse(lastError, title + " failed"), steps[f..])
  }

  /** The part of `claimTaskViaTui` behind the last wait for the claim. */
  method DecideClaim(w: World, base: nat, start: nat, title: string, site: Site, text: string, failure: string)
    returns (r: Result<Claim>, now: nat, steps: seq<Step>)
    requires site.hasProgram
    ensures Follows(w, base, start, steps, now) && Only(steps, WITH_CLI) && Count(steps, CliKind) <= 1
    ensures steps != [] && steps[0].Fetch? && steps[0].why == Decide
    ensures r == DecideResult(w, base, start, site, text, failure, steps) && WaitsItOut(w, base, site, steps)
    ensures r.Ok? ==> ChainConfirms(site, steps, r.value) || CliConfirms(steps, r.value)
    ensures forall k :: 0 <= k < |steps| && steps[k].Cli? ==> k == 2 && LicensedAt(w, base, start, steps, k)
  {
    hide Usable, Advanced, Count, LastFetch, Follows, LicensedAt, FoundUsable, CliConfirms, NeverUsable;
    var task := w.fetch(base);
    var fetch := Fetch(task, Decide);
    FollowsNothing(w, base, start);
    FollowsStep(w, base, start, [], start, fetch);
    now, steps := start + Duration(w, base, fetch), [fetch];
    assert [] + [fetch] == steps;
    LastFetchAppend([], fetch);
    CountOne(fetch, CliKind);
    if task.Err? || task.value.status.None? || task.value.currentWorkers.None? || task.value.deadline.None? {
      return Err(failure), now, steps;
    }
    var status, workers, taskDeadline := task.value.status.value, task.value.currentWorkers.value, task.value.deadline.value;
    AdvancedIs(task.value);
    if status == "in_progress" || status == "completed" || workers > 0 {
      return Ok(Claim(text, site.claimPda, Derived)), now, steps;
    }
    if !(status == "open" && (taskDeadline == 0 || taskDeadline > now / 1000 + 5)) { return Err(failure), now, steps; }
    var claimPda, now', direct := ClaimDirectly(w, base + 1, now, title, site);
    DirectAfter(w, base, start, [fetch], now, direct);
    FollowsConcat(w, base, start, [fetch], now, direct, now');
    if claimPda.Ok? { DirectConfirms([fetch], direct, Claim(text, claimPda.value, Visible)); }
    DirectParts(fetch, direct);
    now, steps := now', [fetch] + direct;
    r := if claimPda.Ok? then Ok(Claim(text, claimPda.value, Visible)) else Err(failure);
  }

  lemma DirectParts(fetch: Step, direct: seq<Step>)
    requires |direct| >= 2
    ensures ([fetch] + direct)[1..] == direct && ([fetch] + direct)[3..] == direct[2..]
    ensures ([fetch] + direct)[0] == fetch && ([fetch] + direct)[2] == direct[1]
  {}

  /** The part of `claimTaskViaTui` behind the loop, up to its final `throw`. */
  method FinishClaim(w: World, base: nat, start: nat, title: string, site: Site, lastError: Option<string>)
    returns (r: Result<Claim>, now: nat, steps: seq<Step>)
    ensures Follows(w, base, start, steps, now) && Only(steps, WITH_CLI) && Count(steps, CliKind) <= 1
    ensures r == FinishResult(w, base, start, title, site, lastError, steps) && Finishing(w, base, site, steps)
    ensures r.Ok? ==> ChainConfirms(site, steps, r.value) || CliConfirms(steps, r.value)
    ensures forall k :: 0 <= k < |steps| && steps[k].Cli? ==> NoneVisible(steps[..k]) && LicensedAt(w, base, start, steps, k)
  {
    hide Count, LastProbe, Follows, Genuine, Elapsed, LicensedAt;
    hide CliConfirms, ChainConfirms, InTime, Finishing, FinishResult, WaitsItOut;
    var text := if lastError.Some? then lastError.value else title;
    var failure := if lastError.Some? then lastError.value else title + " failed";
    var claim, now', probes := WaitForTaskClaimReady(w, base, start, site, 10);
    FollowsGenuinely(w, base, start, probes, now');
    now, steps := now', probes;
    CountAbsent(steps, CliKind);
    if claim.Err? || claim.value.Some? { FinishedWaiting(w, base, start, title, site, lastError, probes); }
    if claim.Err? { return Err(claim.message), now, steps; }
    if claim.value.Some? {
      assert ChainConfirms(site, steps, Claim(text, claim.value.value, Visible)) by { SeenConfirms(site, steps, text); }
      return Ok(Claim(text, claim.value.value, Visible)), now, steps;
    }
    var more;
    r, now', more := DecideClaim(w, base + |probes|, now, title, site, text, failure);
    FollowsConcat(w, base, start, probes, now, more, now');
    FinishedDeciding(w, base, start, title, site, lastError, probes, now, more);
    CountConcat(probes, more, CliKind);
    LicensedBehind(w, base, start, probes, now, more);
    if r.Ok? { ConfirmsConcat(site, probes, more, r.value); }
    now, steps := now', probes + more;
  }

  /** The steps behind the attempts: a wait of ten seconds for the claim, and a fetch to decide if it ended without an answer. */
  ghost predicate Finishing(w: World, base: nat, site: Site, steps: seq<Step>) {
    var f := FirstFetch(steps);
    && Only(steps[..f], PROBES) && InTime(w, base, steps[..f], ProbeKind, 10000)
    && if f == |steps| then ReadyResult(site, steps) != Ok(None)
       else
         && ReadyResult(site, steps[..f]) == Ok(None) && Elapsed(w, base, steps[..f]) > 10000
         && steps[f].why == Decide && WaitsItOut(w, base + f, site, steps[f..])
  }

  lemma FinishedWaiting(
    w: World, base: nat, start: nat, title: string, site: Site, lastError: Option<string>, probes: seq<Step>)
    requires Only(probes, PROBES) && InTime(w, base, probes, ProbeKind, 10000) && ReadyResult(site, probes) != Ok(None)
    ensures Finishing(w, base, site, probes)
    ensures FinishResult(w, base, start, title, site, lastError, probes)
            == match ReadyResult(site, probes)
               case Err(message) => Err(message)
               case Ok(claim) => Ok(Claim(OrElse(lastError, title), claim.value, Visible))
  {
    hide InTime, LastProbe, Elapsed, DecideResult;
    FirstFetchBehind(probes, []);
    assert probes + [] == probes && probes[..|probes|] == probes;
  }

  lemma FinishedDeciding(
    w: World, base: nat, start: nat, title: string, site: Site, lastError: Option<string>, probes: seq<Step>, now: nat, more: seq<Step>)
    requires Follows(w, base, start, probes, now) && now > start + 10000
    requires Only(probes, PROBES) && InTime(w, base, probes, ProbeKind, 10000) && ReadyResult(site, probes) == Ok(None)
    requires more != [] && more[0].Fetch? && more[0].why == Decide && WaitsItOut(w, base + |probes|, site, more)
    ensures Finishing(w, base, site, probes + more)
    ensures FinishResult(w, base, start, title, site, lastError, probes + more)
            == DecideResult(w, base + |probes|, now, site, OrElse(lastError, title), OrElse(lastError, title + " failed"), more)
  {
    hide InTime, LastProbe, Elapsed, Genuine, DecideResult, WaitsItOut;
    FirstFetchBehind(probes, more);
    assert (probes + more)[..|probes|] == probes && (probes + more)[|probes|..] == more;
  }

  lemma SeenConfirms(site: Site, steps: seq<Step>, text: string)
    requires EndsVisible(steps)
    ensures ChainConfirms(site, steps, Claim(text, site.claimPda, Visible))
  {}

  lemma FirstFetchBehind(probes: seq<Step>, more: seq<Step>)
    requires Only(probes, PROBES) && (more == [] || more[0].Fetch?)
    ensures FirstFetch(probes + more) == |probes|
  {
    var all := probes + more;
    assert forall i :: 0 <= i < |probes| ==> all[i].Kind() in PROBES;
    assert more != [] ==> all[|probes|].Fetch?;
  }

  /** Licences behind probes that saw nothing. */
  lemma LicensedBehind(w: World, base: nat, start: nat, probes: seq<Step>, now: nat, more: seq<Step>)
    requires Follows(w, base, start, probes, now) && Only(probes, PROBES) && NoneVisible(probes) && Only(more, WITH_CLI)
    requires more != [] && more[0].Fetch?
    requires forall k :: 0 <= k < |more| && more[k].Cli? ==> k == 2 && LicensedAt(w, base + |probes|, now, more, k)
    ensures var all := probes + more;
            forall k :: 0 <= k < |all| && all[k].Cli? ==> NoneVisible(all[..k]) && LicensedAt(w, base, start, all, k)
  {
    hide OpenAt, Elapsed, Genuine;
    var all := probes + more;
    assert forall i :: 0 <= i < |probes| ==> !probes[i].Cli?;
    forall k | 0 <= k < |all| && all[k].Cli? ensures NoneVisible(all[..k]) && LicensedAt(w, base, start, all, k) {
      var i := k - |probes|;
      assert more[i].Cli? && i == 2;
      ElapsedConcat(w, base, probes, more[..1]);
      assert all[..k - 1] == probes + more[..1] && all[k - 1] == more[1] && all[k - 2] == more[0];
      assert all[..k] == probes + more[..2] && more[..2] == [more[0], more[1]];
    }
  }

  lemma ConfirmsConcat(site: Site, before: seq<Step>, steps: seq<Step>, claim: Claim)
    requires ChainConfirms(site, steps, claim) || CliConfirms(steps, claim)
    ensures ChainConfirms(site, before + steps, claim) || CliConfirms(before + steps, claim)
  {
    hide Usable, LastFetch;
    if CliConfirms(steps, claim) {
      var k :| 0 <= k < |steps| && steps[k] == Cli(Ok(Some(claim.claimPda))) && Usable(steps[k + 1..]);
      assert (before + steps)[|before| + k] == steps[k];
      assert (before + steps)[|before| + k + 1..] == steps[k + 1..];
    } else {
      LastFetchConcat(before, steps);
      if EndsVisible(steps) { assert (before + steps)[|before + steps| - 1] == steps[|steps| - 1]; }
    }
  }

  ghost predicate IsDirect(direct: seq<Step>) {
    |direct| >= 2 && direct[0] == Sleep(30000) && direct[1].Cli? && Only(direct[2..], POLLS)
  }

  /** A direct claim behind polls adds one CLI command, which the last of the polls has licensed. */
  lemma DirectAfter(w: World, base: nat, start: nat, before: seq<Step>, now: nat, direct: seq<Step>)
    requires Follows(w, base, start, before, now) && Only(before, POLLS) && NoneVisible(before) && IsDirect(direct)
    requires before != [] && before[|before| - 1].Fetch? && OpenAt(before[|before| - 1].task, now)
    ensures var all := before + direct;
            && Only(all, WITH_CLI) && Count(all, CliKind) <= 1
            && forall k :: 0 <= k < |all| && all[k].Cli? ==> k == |before| + 1 && LicensedAt(w, base, start, all, k)
  {
    hide Count, OpenAt, Follows, Elapsed, Only, IsDirect;
    var all := before + direct;
    DirectShape(before, direct);
    FollowsGenuinely(w, base, start, before, now);
    assert all[..|before|] == before && all[|before|] == Sleep(30000);
    assert all[..|before| + 1] == before + [Sleep(30000)];
  }

  /** The only CLI command of a direct claim is its second step. */
  lemma DirectShape(before: seq<Step>, direct: seq<Step>)
    requires Only(before, POLLS) && IsDirect(direct)
    ensures |direct| >= 2 && direct[0] == Sleep(30000)
    ensures Only(before + direct, WITH_CLI) && Count(before + direct, CliKind) <= 1
    ensures forall k :: 0 <= k < |before + direct| && (before + direct)[k].Cli? ==> k == |before| + 1
  {
    hide Count;
    var all, early, rest := before + direct, before + [direct[0]], direct[2..];
    assert all == early + [direct[1]] + rest;
    assert forall i :: 0 <= i < |rest| ==> all[|before| + 2 + i] == rest[i];
    CountAround(early, direct[1], rest, CliKind);
  }

  lemma DirectConfirms(before: seq<Step>, direct: seq<Step>, claim: Claim)
    requires IsDirect(direct) && claim.confirmation == Visible
    requires direct[1] == Cli(Ok(Some(claim.claimPda))) && Usable(direct[2..])
    ensures CliConfirms(before + direct, claim)
  {
    hide Usable;
    var k := |before| + 1;
    assert (before + direct)[k + 1..] == direct[2..];
    assert (before + direct)[k] == direct[1];
  }

  // ---------------------------------------------------------------- the whole protocol

  /**
   Another attempt was earned: the last session failed with a retriable error, the task was then unreadable, or open
   and unclaimed with no reason to give up by the clock after the probes, and the driver slept.
   */
  ghost predicate Earned(w: World, start: nat, title: string, before: seq<Step>) {
    exists i :: 0 <= i < |before| - 1 && EarnedAt(w, 0, start, title, before, i, Count(before, SessionKind))
  }

  ghost predicate EarnedAt(w: World, base: nat, start: nat, title: string, before: seq<Step>, i: nat, attempt: nat)
    requires i < |before| - 1
  {
    var n := |before| - 1;
    && before[i].Session? && Reported(w, title, before[i].text).Err?
    && before[i + 1].Fetch? && before[i + 1].why == Decide && Only(before[i + 1..], POLLS) && NoneVisible(before[i + 1..])
    && before[n] == Sleep((if before[i + 1].task.Err? then 2000 else 4000) * attempt)
    && Excused(Reported(w, title, before[i].text).message, before[i + 1].task, start + Elapsed(w, base, before[..n]))
  }

  /** The error is retriable, and what was seen of the task is no reason to give up. */
  predicate Excused(message: string, task: Result<Task>, now: nat) {
    IsRetriable(message) && OpenOrUnreadable(task) && (task.Ok? ==> !StopsRetrying(message, task.value, false, now))
  }

  /** Every session but the first was earned. */
  ghost predicate SafeAttempts(w: World, start: nat, title: string, trace: seq<Step>) {
    forall j :: 0 < j < |trace| && trace[j].Session? ==> Earned(w, start, title, trace[..j])
  }

  /** What a successful return rests on. */
  ghost predicate Confirmed(w: World, title: string, site: Site, trace: seq<Step>, claim: Claim) {
    || (&& claim.confirmation == Payload && trace != [] && trace[|trace| - 1].Session?
        && Reported(w, title, trace[|trace| - 1].text) == Ok(claim.claimPda))
    || ChainConfirms(site, trace, claim)
    || CliConfirms(trace, claim)
  }

  /** Every direct CLI claim comes 30 seconds after a fetch that showed the task open, unclaimed and not about to expire. */
  ghost predicate CliLicensed(w: World, trace: seq<Step>, start: nat) {
    forall k :: 0 <= k < |trace| && trace[k].Cli? ==> LicensedAt(w, 0, start, trace, k)
  }

  lemma LicensedConcat(w: World, before: seq<Step>, steps: seq<Step>, start: nat, now: nat)
    requires Follows(w, 0, start, before, now) && NoneOf(before, CliKind)
    requires forall k :: 0 <= k < |steps| && steps[k].Cli? ==> LicensedAt(w, |before|, now, steps, k)
    ensures CliLicensed(w, before + steps, start)
  {
    hide OpenAt, Elapsed;
    var all := before + steps;
    forall k | 0 <= k < |all| && all[k].Cli? ensures LicensedAt(w, 0, start, all, k) {
      var i := k - |before|;
      assert steps[i].Cli?;
      ElapsedConcat(w, 0, before, steps[..i - 1]);
      assert all[..k - 1] == before + steps[..i - 1];
    }
  }

  lemma SafeExtend(w: World, start: nat, title: string, trace: seq<Step>, steps: seq<Step>)
    requires SafeAttempts(w, start, title, trace) && (trace == [] || Earned(w, start, title, trace))
    requires steps != [] && NoneOf(steps[1..], SessionKind)
    ensures SafeAttempts(w, start, title, trace + steps)
  {
    hide Earned;
    var all, rest := trace + steps, steps[1..];
    assert forall i :: 0 <= i < |rest| ==> all[|trace| + 1 + i] == rest[i];
    forall j | 0 < j < |all| && all[j].Session? ensures Earned(w, start, title, all[..j]) {
      if j < |trace| {
        assert all[..j] == trace[..j];
      } else {
        assert j == |trace|;
        assert all[..j] == trace;
      }
    }
  }

  lemma SafeFinish(w: World, start: nat, title: string, trace: seq<Step>, more: seq<Step>)
    requires SafeAttempts(w, start, title, trace) && NoneOf(more, SessionKind)
    ensures SafeAttempts(w, start, title, trace + more)
  {
    hide Earned;
    var all := trace + more;
    assert forall i :: 0 <= i < |more| ==> more[i].Kind() != SessionKind;
    forall j | 0 < j < |all| && all[j].Session? ensures Earned(w, start, title, all[..j]) {
      assert j < |trace|;
      assert all[..j] == trace[..j];
    }
  }

  lemma ConfirmedBehind(w: World, title: string, site: Site, before: seq<Step>, steps: seq<Step>, claim: Claim)
    requires Confirmed(w, title, site, steps, claim)
    ensures Confirmed(w, title, site, before + steps, claim)
  {
    hide ChainConfirms, CliConfirms, Reported;
    if ChainConfirms(site, steps, claim) || CliConfirms(steps, claim) {
      ConfirmedConcat(w, title, site, before, steps, claim);
    } else {
      assert (before + steps)[|before + steps| - 1] == steps[|steps| - 1];
    }
  }

  lemma ConfirmedConcat(w: World, title: string, site: Site, before: seq<Step>, steps: seq<Step>, claim: Claim)
    requires ChainConfirms(site, steps, claim) || CliConfirms(steps, claim)
    ensures Confirmed(w, title, site, before + steps, claim)
  {
    hide ChainConfirms, CliConfirms;
    ConfirmsConcat(site, before, steps, claim);
  }

  lemma EarnedConcat(w: World, start: nat, title: string, trace: seq<Step>, now: nat, steps: seq<Step>)
    requires Follows(w, 0, start, trace, now) && |steps| >= 2
    requires EarnedAt(w, |trace|, now, title, steps, 0, Count(trace + steps, SessionKind))
    ensures Earned(w, start, title, trace + steps)
  {
    hide Reported, Excused, Elapsed, Genuine, Count;
    var all, n := trace + steps, |steps| - 1;
    assert all[|trace| + 1..] == steps[1..];
    assert all[..|all| - 1] == trace + steps[..n];
    ElapsedConcat(w, 0, trace, steps[..n]);
    assert EarnedAt(w, 0, start, title, all, |trace|, Count(all, SessionKind));
  }

  lemma EarnedBySleep(w: World, base: nat, start: nat, title: string, session: Step, now: nat, more: seq<Step>, attempt: nat)
    requires session.Session? && Follows(w, base, start, [session], now) && Reported(w, title, session.text).Err?
    requires more != [] && more[0].Fetch? && more[0].why == Decide && Only(more, POLLS) && NoneVisible(more)
    requires more[|more| - 1] == Sleep((if more[0].task.Err? then 2000 else 4000) * attempt)
    requires Excused(Reported(w, title, session.text).message, more[0].task, now + Elapsed(w, base + 1, more[..|more| - 1]))
    ensures EarnedAt(w, base, start, title, [session] + more, 0, attempt)
  {
    hide Reported, Excused, Elapsed, Genuine;
    var all, n := [session] + more, |more| - 1;
    assert all[1..] == more && all[..n + 1] == [session] + more[..n];
    ElapsedConcat(w, base, [session], more[..n]);
  }

  /** What the steps of an attempt settle, if anything. */
  function AttemptEvidence(
    w: World, base: nat, title: string, site: Site, last: bool, steps: seq<Step>): Option<Decision<Claim>>
  {
    if steps == [] || !steps[0].Session? then None
    else
      match Reported(w, title, steps[0].text)
      case Ok(claimPda) => Some(Return(Claim(steps[0].text.value, claimPda, Payload)))
      case Err(message) => Evidence(w, base + 1, title, site, message, last, steps[1..])
  }

  /** An attempt behind which the driver gives up: nothing settled it, and there is a reason by the clock after its probes. */
  ghost predicate GaveUp(
    w: World, base: nat, start: nat, title: string, site: Site, last: bool, steps: seq<Step>, error: string)
  {
    && |steps| >= 2 && steps[0].Session? && Reported(w, title, steps[0].text) == Err(error) && NoneOf(steps[1..], SessionKind)
    && AttemptEvidence(w, base, title, site, last, steps).None?
    && steps[1].Fetch? && steps[1].task.Ok?
    && StopsRetrying(error, steps[1].task.value, last, start + Elapsed(w, base, steps))
  }

  /** One attempt: the session, and the handling of whatever went wrong. */
  method TryClaim(w: World, base: nat, start: nat, title: string, site: Site, attempt: nat, last: bool)
    returns (d: Decision<Claim>, now: nat, steps: seq<Step>)
    ensures Follows(w, base, start, steps, now) && steps != [] && steps[0].Session? && Only(steps[1..], POLLS)
    ensures Count(steps, SessionKind) == 1 && Count(steps, CliKind) == 0
    ensures d.Return? ==> Confirmed(w, title, site, steps, d.value)
    ensures d.Retry? ==> !last && |steps| >= 2 && EarnedAt(w, base, start, title, steps, 0, attempt)
    ensures AttemptEvidence(w, base, title, site, last, steps) == if d.Return? || d.Throw? then Some(d) else None
    ensures d.Break? ==> GaveUp(w, base, start, title, site, last, steps, d.error)
    ensures Reported(w, title, w.session(base)).Ok? ==> steps == [Session(w.session(base))]
    ensures d.Retry? ==> Reported(w, title, w.session(base)).Err?
  {
    hide Follows, Genuine, Elapsed, Count, Reported;
    hide ChainConfirms, CliConfirms, Excused, StopsRetrying, Evidence, SessionError;
    var text, error := RunSession(w, base, title);
    var session := Session(text);
    FollowsNothing(w, base, start);
    FollowsStep(w, base, start, [], start, session);
    assert [] + [session] == [session];
    now, steps := start + Duration(w, base, session), [session];
    ReportedIs(w, title, text);
    var message := "";
    if error.Some? {
      message := error.value;
    } else {
      var extracted := w.extract(text.value);
      if extracted.Ok? {
        CountOne(session, SessionKind);
        CountOne(session, CliKind);
        return Return(Claim(text.value, extracted.value, Payload)), now, steps;
      }
      message := extracted.message;
    }
    var d', now', more := HandleFailure(w, base + 1, now, title, site, message, attempt, last);
    assert [session] + more == [] + [session] + more;
    CountAround([], session, more, SessionKind);
    CountAround([], session, more, CliKind);
    if d'.Return? { ConfirmedConcat(w, title, site, [session], more, d'.value); }
    FollowsConcat(w, base, start, [session], now, more, now');
    assert ([session] + more)[1..] == more;
    if d'.Retry? { EarnedBySleep(w, base, start, title, session, now, more, attempt); }
    if d'.Break? {
      FollowsGenuinely(w, base + 1, now, more, now');
      FollowsGenuinely(w, base, start, [session] + more, now');
    }
    d, now, steps := d', now', [session] + more;
  }

  lemma ReportedIs(w: World, title: string, text: Result<string>)
    ensures match SessionError(title, text)
            case Some(message) => Reported(w, title, text) == Err(message)
            case None => text.Ok? && Reported(w, title, text) == w.extract(text.value)
  {}

  /** The last attempt begins at `p` and settles the matter. */
  ghost predicate SettledAt(
    w: World, title: string, site: Site, maxAttempts: int, trace: seq<Step>, p: nat, r: Result<Claim>)
    requires p < |trace|
  {
    var last := Count(trace[..p], SessionKind) + 1 == maxAttempts;
    && trace[p].Session? && NoneOf(trace[p + 1..], SessionKind)
    && AttemptEvidence(w, p, title, site, last, trace[p..]).Some?
    && Outcome(AttemptEvidence(w, p, title, site, last, trace[p..]).value) == Some(r)
  }

  /** The last attempt begins at `q`, and behind it the driver gives up with this error. */
  ghost predicate GivesUpAt(
    w: World, start: nat, title: string, site: Site, maxAttempts: int, before: seq<Step>, q: nat, error: string)
    requires q < |before|
  {
    var last := Count(before[..q], SessionKind) + 1 == maxAttempts;
    GaveUp(w, q, start + Elapsed(w, 0, before[..q]), title, site, last, before[q..], error)
  }

  /** The error with which the attempts ended, if there were any. */
  ghost predicate EndedWith(
    w: World, start: nat, title: string, site: Site, maxAttempts: int, before: seq<Step>, lastError: Option<string>)
  {
    match lastError
    case None => before == [] && maxAttempts <= 0
    case Some(error) => exists q :: 0 <= q < |before| && GivesUpAt(w, start, title, site, maxAttempts, before, q, error)
  }

  /** The attempts end before `p`, and the steps from there on give the result. */
  ghost predicate FinishedAt(
    w: World, start: nat, title: string, site: Site, maxAttempts: int, trace: seq<Step>, p: nat, r: Result<Claim>)
    requires p <= |trace|
  {
    && Finishing(w, p, site, trace[p..])
    && exists lastError :: EndedWith(w, start, title, site, maxAttempts, trace[..p], lastError)
                           && r == FinishResult(w, p, start + Elapsed(w, 0, trace[..p]), title, site, lastError, trace[p..])
  }

  /** The result is the one that the trace gives. */
  ghost predicate Resolved(
    w: World, start: nat, title: string, site: Site, maxAttempts: int, trace: seq<Step>, r: Result<Claim>)
  {
    || (exists p :: 0 <= p < |trace| && SettledAt(w, title, site, maxAttempts, trace, p, r))
    || exists p :: 0 <= p <= |trace| && FinishedAt(w, start, title, site, maxAttempts, trace, p, r)
  }

  lemma SettledBehind(
    w: World, start: nat, title: string, site: Site, maxAttempts: int, trace: seq<Step>, steps: seq<Step>,
    d: Decision<Claim>, r: Result<Claim>)
    requires steps != [] && steps[0].Session? && NoneOf(steps[1..], SessionKind) && Outcome(d) == Some(r)
    requires AttemptEvidence(w, |trace|, title, site, Count(trace, SessionKind) + 1 == maxAttempts, steps) == Some(d)
    ensures Resolved(w, start, title, site, maxAttempts, trace + steps, r)
  {
    hide AttemptEvidence, Count, FinishedAt;
    var all, p := trace + steps, |trace|;
    assert all[..p] == trace && all[p..] == steps && all[p + 1..] == steps[1..];
    assert SettledAt(w, title, site, maxAttempts, all, p, r);
  }

  lemma EndedBehind(
    w: World, start: nat, title: string, site: Site, maxAttempts: int, trace: seq<Step>, now: nat,
    steps: seq<Step>, error: string)
    requires Follows(w, 0, start, trace, now) && steps != []
    requires GaveUp(w, |trace|, now, title, site, Count(trace, SessionKind) + 1 == maxAttempts, steps, error)
    ensures EndedWith(w, start, title, site, maxAttempts, trace + steps, Some(error))
  {
    hide GaveUp, Count, Elapsed, Genuine;
    var all, q := trace + steps, |trace|;
    assert all[..q] == trace && all[q..] == steps;
    assert GivesUpAt(w, start, title, site, maxAttempts, all, q, error);
  }

  lemma FinishedBehind(
    w: World, start: nat, title: string, site: Site, maxAttempts: int, trace: seq<Step>, now: nat, lastError: Option<string>,
    steps: seq<Step>, r: Result<Claim>)
    requires Follows(w, 0, start, trace, now) && EndedWith(w, start, title, site, maxAttempts, trace, lastError)
    requires Finishing(w, |trace|, site, steps) && r == FinishResult(w, |trace|, now, title, site, lastError, steps)
    ensures Resolved(w, start, title, site, maxAttempts, trace + steps, r)
  {
    hide EndedWith, Finishing, FinishResult, Elapsed, Genuine, SettledAt;
    var all, p := trace + steps, |trace|;
    assert all[..p] == trace && all[p..] == steps;
    assert FinishedAt(w, start, title, site, maxAttempts, all, p, r);
  }

  lemma NeverTried(w: World, start: nat, title: string, site: Site, maxAttempts: int)
    requires maxAttempts <= 0
    ensures EndedWith(w, start, title, site, maxAttempts, [], None)
  {}

  /** Behind the attempts the driver fails only without evidence, and says why. */
  lemma FinishFails(w: World, base: nat, start: nat, title: string, site: Site, lastError: Option<string>, steps: seq<Step>)
    requires Finishing(w, base, site, steps) && FinishResult(w, base, start, title, site, lastError, steps).Err?
    ensures var f, message := FirstFetch(steps), FinishResult(w, base, start, title, site, lastError, steps).message;
            if f == |steps| then
              if site.hasProgram then LastProbe(steps) == Some(Err(message)) else message == NO_PROGRAM
            else
              && LastProbe(steps[..f]) != Some(Ok(true)) && message == OrElse(lastError, title + " failed")
              && (ReadError(steps[f].task).Some? || !Advanced(steps[f].task.value))
              && (ReportsClaim(steps[f + 1..]) ==>
                    || !FoundUsable(w, site, steps[f + 3..])
                    || ReadError(steps[f].task).Some?
                    || !StillOpen(steps[f].task.value, start + Elapsed(w, base, steps[..f]) + Duration(w, base + f, steps[f])))
  {
    hide Elapsed, LastProbe, FoundUsable, Advanced, StillOpen;
    var f := FirstFetch(steps);
    assert steps[..|steps|] == steps;
    if f < |steps| {
      assert steps[f..][0] == steps[f] && steps[f..][1..] == steps[f + 1..];
      if |steps| >= f + 3 { assert steps[f..][3..] == steps[f + 3..]; }
    }
  }

  /** What all attempts keep. */
  ghost predicate Sound(w: World, start: nat, title: string, trace: seq<Step>, now: nat) {
    Follows(w, 0, start, trace, now) && NoneOf(trace, CliKind) && SafeAttempts(w, start, title, trace)
  }

  lemma SoundNothing(w: World, start: nat, title: string)
    ensures Sound(w, start, title, [], start)
  {}

  lemma SoundMore(w: World, start: nat, title: string, trace: seq<Step>, now: nat, steps: seq<Step>, now': nat)
    requires Sound(w, start, title, trace, now) && (trace == [] || Earned(w, start, title, trace))
    requires Follows(w, |trace|, now, steps, now') && steps != [] && steps[0].Session? && Only(steps[1..], POLLS)
    ensures Sound(w, start, title, trace + steps, now')
  {
    hide Follows, SafeAttempts, Earned;
    FollowsConcat(w, 0, start, trace, now, steps, now');
    SafeExtend(w, start, title, trace, steps);
    assert steps == [steps[0]] + steps[1..];
  }

  lemma SoundFollows(w: World, start: nat, title: string, trace: seq<Step>, now: nat)
    requires Sound(w, start, title, trace, now)
    ensures Follows(w, 0, start, trace, now)
  {}

  /** The loop of `claimTaskViaTui`; without a result the attempts have ended. */
  method TryAll(w: World, start: nat, title: string, site: Site, maxAttempts: int)
    returns (r: Option<Result<Claim>>, lastError: Option<string>, now: nat, trace: seq<Step>)
    ensures Sound(w, start, title, trace, now)
    ensures Count(trace, SessionKind) <= (if maxAttempts > 0 then maxAttempts else 0)
    ensures r.Some? ==> Resolved(w, start, title, site, maxAttempts, trace, r.value)
    ensures r.Some? && r.value.Ok? ==> Confirmed(w, title, site, trace, r.value.value)
    ensures r.None? ==> EndedWith(w, start, title, site, maxAttempts, trace, lastError)
    ensures maxAttempts > 0 && Reported(w, title, w.session(0)).Ok? ==>
              && r == Some(Ok(Claim(w.session(0).value, Reported(w, title, w.session(0)).value, Payload)))
              && trace == [Session(w.session(0))]
  {
    hide Sound, Follows, Count, Reported, Evidence, Earned;
    hide EarnedAt, Confirmed, Resolved, EndedWith, GaveUp, ChainConfirms, CliConfirms;
    lastError, now, trace := None, start, [];
    CountAbsent([], SessionKind);
    SoundNothing(w, start, title);
    var attempt := 1;
    while attempt <= maxAttempts
      invariant 1 <= attempt && (attempt <= maxAttempts || attempt == 1)
      invariant if attempt == 1 then trace == [] && lastError.None? else Reported(w, title, w.session(0)).Err?
      invariant Sound(w, start, title, trace, now) && (trace == [] || Earned(w, start, title, trace))
      invariant Count(trace, SessionKind) == attempt - 1
      decreases maxAttempts - attempt
    {
      var d, now', steps := TryClaim(w, |trace|, now, title, site, attempt, attempt == maxAttempts);
      CountConcat(trace, steps, SessionKind);
      SoundFollows(w, start, title, trace, now);
      SoundMore(w, start, title, trace, now, steps, now');
      if trace == [] { assert trace + steps == steps; }
      var all := trace + steps;
      match d
      case Return(claim) =>
        ConfirmedBehind(w, title, site, trace, steps, claim);
        SettledBehind(w, start, title, site, maxAttempts, trace, steps, d, Ok(claim));
        return Some(Ok(claim)), lastError, now', all;
      case Throw(message) =>
        SettledBehind(w, start, title, site, maxAttempts, trace, steps, d, Err(message));
        return Some(Err(message)), lastError, now', all;
      case Break(error) =>
        EndedBehind(w, start, title, site, maxAttempts, trace, now, steps, error);
        return None, Some(error), now', all;
      case Retry(error) =>
        EarnedConcat(w, start, title, trace, now, steps);
        lastError, now, trace, attempt := Some(error), now', all, attempt + 1;
    }
    NeverTried(w, start, title, site, maxAttempts);
    r := None;
  }

  /** `claimTaskViaTui`, from an empty trace. */
  method ClaimTaskViaTui(w: World, start: nat, title: string, site: Site, maxAttempts: int := 6)
    returns (r: Result<Claim>, trace: seq<Step>)
    ensures Genuine(w, 0, trace)
    ensures Count(trace, SessionKind) <= (if maxAttempts > 0 then maxAttempts else 0) && Count(trace, CliKind) <= 1
    ensures SafeAttempts(w, start, title, trace) && CliLicensed(w, trace, start)
    ensures r.Ok? ==> Confirmed(w, title, site, trace, r.value)
    ensures Resolved(w, start, title, site, maxAttempts, trace, r)
    ensures maxAttempts > 0 && Reported(w, title, w.session(0)).Ok? ==>
              && r == Ok(Claim(w.session(0).value, Reported(w, title, w.session(0)).value, Payload))
              && trace == [Session(w.session(0))]
  {
    hide Follows, Genuine, Elapsed, LicensedAt, CliLicensed;
    hide Count, Reported, Confirmed, SafeAttempts, ChainConfirms, CliConfirms;
    hide Resolved, EndedWith, Finishing, FinishResult;
    var settled, lastError, now, tried := TryAll(w, start, title, site, maxAttempts);
    CountAbsent(tried, CliKind);
    FollowsGenuinely(w, 0, start, tried, now);
    if settled.Some? {
      LicensedConcat(w, tried, [], start, now);
      assert tried + [] == tried;
      return settled.value, tried;
    }
    var done, now', steps := FinishClaim(w, |tried|, now, title, site, lastError);
    SafeFinish(w, start, title, tried, steps);
    FinishedBehind(w, start, title, site, maxAttempts, tried, now, lastError, steps, done);
    LicensedConcat(w, tried, steps, start, now);
    CountBoth(tried, steps);
    CountAbsent(steps, SessionKind);
    if done.Ok? { ConfirmedConcat(w, title, site, tried, steps, done.value); }
    FollowsConcat(w, 0, start, tried, now, steps, now');
    FollowsGenuinely(w, 0, start, tried + steps, now');
    r, trace := done, tried + steps;
  }
}
