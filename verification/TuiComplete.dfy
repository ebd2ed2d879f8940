/** `completeTaskViaTui` of `scripts/marketplace-tui-devnet-smoke.ts`. */
module TuiComplete {
  import opened Outcomes
  import opened Text
  import opened TuiWorld
  import opened TuiWaits

  /** No session follows a direct command. */
  ghost predicate SessionsFirst(trace: seq<Step>) {
    forall i, j :: 0 <= i < j < |trace| && trace[i].Cli? ==> !trace[j].Session?
  }

  // ---------------------------------------------------------------- what licenses an action

  predicate IsRetriableCompletion(message: string) {
    || Contains(message, "Too Many Requests")
    || Contains(message, "Task not found")
    || Contains(message, "AccountNotInitialized")
    || Contains(message, "Task submission failed")
  }

  /** A fetch that was not made to see the claim usable showed the task completed. */
  predicate ShowsDone(step: Step) {
    IsStatus(step, "completed") && step.why != ClaimWait
  }

  predicate NotDone(steps: seq<Step>) {
    forall i :: 0 <= i < |steps| ==> !ShowsDone(steps[i])
  }

  /** The driver stops at the first such fetch. */
  predicate StopsWhenDone(steps: seq<Step>) {
    forall i :: 0 <= i < |steps| - 1 ==> !ShowsDone(steps[i])
  }

  /** The position of the first session, or the length. */
  function FirstSession(steps: seq<Step>): (s: nat)
    ensures s <= |steps| && (s < |steps| ==> steps[s].Session?)
    ensures forall i :: 0 <= i < s ==> !steps[i].Session?
  {
    if steps == [] || steps[0].Session? then 0 else 1 + FirstSession(steps[1..])
  }

  /** The error of a failed attempt: of the wait for the claim, of the session, or of the wait for settlement. */
  function AttemptError(w: World, base: nat, start: nat, title: string, site: Site, steps: seq<Step>): string {
    var s := FirstSession(steps);
    if s == |steps| then CLAIM_TIMEOUT + MessageOrNull(LastRoundError(w, base, start, site, steps))
    else
      match SessionError(title, steps[s].text)
      case Some(message) => message
      case None =>
        title + " settlement timed out: " + MessageOrNull(LastStatusError(title + ".settlementTaskDetail", steps[s + 1..]))
  }

  /**
   A failed attempt: the claim did not become usable in time, or it did and the session failed,
   or the session succeeded and the task was not seen completed in time.
   */
  ghost predicate FailedAttempt(w: World, base: nat, title: string, steps: seq<Step>) {
    var s := FirstSession(steps);
    if s == |steps| then NeverUsable(w, base, steps, 45)
    else
      && SawUsable(steps[..s])
      && match SessionError(title, steps[s].text)
         case Some(_) => s == |steps| - 1
         case None => NotSettled(w, base + s + 1, steps[s + 1..], "completed", 45)
  }

  /** A successful attempt: the claim was usable, the session succeeded, and then the task was seen completed. */
  predicate SucceededAttempt(title: string, steps: seq<Step>, text: string) {
    var s := FirstSession(steps);
    && s < |steps| && SawUsable(steps[..s]) && steps[s].text == Ok(text) && SessionError(title, steps[s].text).None?
    && Settling(steps[s + 1..]) && SeenLast(steps[s + 1..], "completed")
  }

  /** What the driver does after a failed attempt, when it has fetched the task again. */
  function CompletionVerdict(title: string, message: string, last: bool, task: Result<Task>): Decision<string> {
    var goesOn := if IsRetriableCompletion(message) && !last then Retry(message) else Break(message);
    match task
    case Err(error) => if last then Throw(error) else goesOn
    case Ok(t) =>
      if t.status.None? then Throw(MissingField(title + ".retryTaskDetail", "status"))
      else if t.status.value == "completed" then Return(message)
      else goesOn
  }

  function FetchedBy(step: Step): Result<Task> {
    if step.Fetch? then step.task else Err("")
  }

  /** A failed attempt that earns another one: its error is retriable, a fetch did not show completed, and the driver slept. */
  ghost predicate EarnsRetry(w: World, base: nat, start: nat, title: string, site: Site, steps: seq<Step>, attempt: nat) {
    var n := |steps| - 2;
    && n >= 0 && FailedAttempt(w, base, title, steps[..n])
    && IsRetriableCompletion(AttemptError(w, base, start, title, site, steps[..n]))
    && CompletionVerdict(title, AttemptError(w, base, start, title, site, steps[..n]), false, FetchedBy(steps[n])).Retry?
    && IsPending(steps[n]) && steps[n + 1] == Sleep(3000 * attempt)
  }

  /** The steps are exactly this many attempts, each of which earned the next. */
  ghost predicate Earned(w: World, start: nat, title: string, site: Site, before: seq<Step>, attempts: nat)
    decreases attempts
  {
    if attempts == 0 then before == []
    else
      exists p :: 0 <= p <= |before| && Earned(w, start, title, site, before[..p], attempts - 1)
                  && EarnsRetry(w, p, start + Elapsed(w, 0, before[..p]), title, site, before[p..], attempts)
  }

  /** A session is licensed by a claim seen usable right before it, behind attempts that earned this one. */
  ghost predicate SessionLicensed(w: World, start: nat, title: string, site: Site, before: seq<Step>) {
    exists p, k :: 0 <= p <= |before| && 0 <= k && SawUsable(before[p..]) && Earned(w, start, title, site, before[..p], k)
  }

  ghost predicate SafeSessions(w: World, start: nat, title: string, site: Site, trace: seq<Step>) {
    forall j :: 0 <= j < |trace| && trace[j].Session? ==> SessionLicensed(w, start, title, site, trace[..j])
  }

  /** A direct command is licensed by a usable claim seen right before it, behind a fetch that did not show completed. */
  ghost predicate CommandLicensed(before: seq<Step>) {
    exists p :: 0 < p <= |before| && IsPending(before[p - 1]) && SawUsable(before[p..])
  }

  /** A fetch, made to decide what to do, that did not show the task completed. */
  predicate IsPending(step: Step) {
    step.Fetch? && step.why == Decide && !IsStatus(step, "completed")
  }

  ghost predicate SafeCommands(trace: seq<Step>) {
    forall k :: 0 <= k < |trace| && trace[k].Cli? ==> CommandLicensed(trace[..k])
  }

  /** If the claim can be seen at once, a session is started right away, whatever status the fetch before it showed. */
  ghost predicate StartsAtOnce(w: World, base: nat, site: Site, steps: seq<Step>) {
    VisibleAtOnce(w, base, site) ==>
      |steps| >= 3 && steps[0] == Fetch(w.fetch(base), ClaimWait) && steps[1] == Probe(Ok(true)) && steps[2].Session?
  }

  lemma StartsBehind(w: World, base: nat, site: Site, steps: seq<Step>, more: seq<Step>)
    requires StartsAtOnce(w, base, site, steps)
    ensures StartsAtOnce(w, base, site, steps + more)
  {}

  lemma StartsConcat(w: World, site: Site, trace: seq<Step>, steps: seq<Step>)
    requires if trace == [] then StartsAtOnce(w, 0, site, steps) else StartsAtOnce(w, 0, site, trace)
    ensures StartsAtOnce(w, 0, site, trace + steps)
  {
    if trace == [] {
      assert trace + steps == steps;
    } else {
      StartsBehind(w, 0, site, trace, steps);
    }
  }

  lemma SafeNothing(w: World, start: nat, title: string, site: Site)
    ensures SafeSessions(w, start, title, site, []) && SafeCommands([]) && Earned(w, start, title, site, [], 0)
  {}

  /** An attempt keeps the sessions safe if it was earned and starts its session on a usable claim. */
  lemma SafeAttempt(w: World, start: nat, title: string, site: Site, trace: seq<Step>, k: nat, steps: seq<Step>)
    requires SafeSessions(w, start, title, site, trace) && Earned(w, start, title, site, trace, k)
    requires forall j :: 0 <= j < |steps| && steps[j].Session? ==> SawUsable(steps[..j])
    ensures SafeSessions(w, start, title, site, trace + steps)
  {
    hide Earned, SawUsable;
    var all, p := trace + steps, |trace|;
    forall j | 0 <= j < |all| && all[j].Session? ensures SessionLicensed(w, start, title, site, all[..j]) {
      if j < p {
        assert all[..j] == trace[..j];
      } else {
        assert all[..j][p..] == steps[..j - p];
        assert all[..j][..p] == trace;
        assert SawUsable(all[..j][p..]) && Earned(w, start, title, site, all[..j][..p], k);
      }
    }
  }

  lemma SafeWithoutSession(w: World, start: nat, title: string, site: Site, trace: seq<Step>, steps: seq<Step>)
    requires SafeSessions(w, start, title, site, trace) && NoneOf(steps, SessionKind)
    ensures SafeSessions(w, start, title, site, trace + steps)
  {
    hide SessionLicensed;
    var all := trace + steps;
    assert forall i :: 0 <= i < |steps| ==> steps[i].Kind() != SessionKind;
    forall j | 0 <= j < |all| && all[j].Session? ensures SessionLicensed(w, start, title, site, all[..j]) {
      assert j < |trace|;
      assert all[..j] == trace[..j];
    }
  }

  lemma SafeCommandsBehind(trace: seq<Step>, steps: seq<Step>)
    requires NoneOf(trace, CliKind) && SafeCommands(steps)
    ensures SafeCommands(trace + steps)
  {
    hide SawUsable;
    var all := trace + steps;
    assert forall i :: 0 <= i < |trace| ==> trace[i].Kind() != CliKind;
    forall k | 0 <= k < |all| && all[k].Cli? ensures CommandLicensed(all[..k]) {
      var before := steps[..k - |trace|];
      assert CommandLicensed(before);
      var p :| 0 < p <= |before| && IsPending(before[p - 1]) && SawUsable(before[p..]);
      assert all[..k] == trace + before;
      assert (trace + before)[|trace| + p..] == before[p..];
      assert (trace + before)[|trace| + p - 1] == before[p - 1];
    }
  }

  lemma EarnedConcat(
    w: World, start: nat, title: string, site: Site, trace: seq<Step>, now: nat, steps: seq<Step>, attempt: nat)
    requires Follows(w, 0, start, trace, now) && attempt > 0
    requires Earned(w, start, title, site, trace, attempt - 1) && EarnsRetry(w, |trace|, now, title, site, steps, attempt)
    ensures Earned(w, start, title, site, trace + steps, attempt)
  {
    hide EarnsRetry, Elapsed, Genuine;
    var all, p := trace + steps, |trace|;
    assert all[..p] == trace && all[p..] == steps;
    assert EarnsRetry(w, p, start + Elapsed(w, 0, all[..p]), title, site, all[p..], attempt);
  }

  lemma EarnsByRetry(
    w: World, base: nat, start: nat, title: string, site: Site, steps: seq<Step>, more: seq<Step>, attempt: nat)
    requires FailedAttempt(w, base, title, steps) && IsRetriableCompletion(AttemptError(w, base, start, title, site, steps))
    requires |more| == 2 && IsPending(more[0]) && more[1] == Sleep(3000 * attempt)
    requires CompletionVerdict(title, AttemptError(w, base, start, title, site, steps), false, more[0].task).Retry?
    ensures EarnsRetry(w, base, start, title, site, steps + more, attempt)
  {
    hide FailedAttempt, IsRetriableCompletion, AttemptError, CompletionVerdict;
    assert (steps + more)[..|steps|] == steps;
  }

  /** A failed attempt holds one session at most. */
  lemma OneSessionFails(w: World, base: nat, title: string, steps: seq<Step>, j: nat)
    requires FailedAttempt(w, base, title, steps) && j < |steps| && steps[j].Session?
    ensures j == FirstSession(steps)
    ensures SessionError(title, steps[j].text).Some? ==> j == |steps| - 1
  {
    hide SessionError, NeverUsable, SawUsable, Elapsed, LastFetch;
    var s := FirstSession(steps);
    assert forall i :: s < i < |steps| ==> steps[i] == steps[s + 1..][i - s - 1];
  }

  lemma EarningSession(w: World, base: nat, start: nat, title: string, site: Site, steps: seq<Step>, attempt: nat, j: nat)
    requires EarnsRetry(w, base, start, title, site, steps, attempt) && j < |steps| && steps[j].Session?
    requires SessionError(title, steps[j].text).Some?
    ensures IsRetriableCompletion(SessionError(title, steps[j].text).value)
    ensures j + 2 < |steps| && IsPending(steps[j + 1]) && steps[j + 2].Sleep?
  {
    hide FailedAttempt, SessionError, IsRetriableCompletion;
    var n := |steps| - 2;
    assert steps[..n][j] == steps[j];
    OneSessionFails(w, base, title, steps[..n], j);
  }

  /** In attempts that earned the next, a session that failed did so with a retriable error, and a fetch and a sleep follow. */
  lemma {:induction false} EarnedSessions(w: World, start: nat, title: string, site: Site, before: seq<Step>, k: nat, j: nat)
    requires Earned(w, start, title, site, before, k) && j < |before| && before[j].Session?
    requires SessionError(title, before[j].text).Some?
    ensures IsRetriableCompletion(SessionError(title, before[j].text).value)
    ensures j + 2 < |before| && IsPending(before[j + 1]) && before[j + 2].Sleep?
    decreases k
  {
    hide EarnsRetry, SessionError, IsRetriableCompletion, Elapsed, IsPending;
    var p :| 0 <= p <= |before| && Earned(w, start, title, site, before[..p], k - 1)
             && EarnsRetry(w, p, start + Elapsed(w, 0, before[..p]), title, site, before[p..], k);
    if j < p {
      EarnedSessions(w, start, title, site, before[..p], k - 1, j);
    } else {
      var steps, now := before[p..], start + Elapsed(w, 0, before[..p]);
      assert steps[j - p] == before[j];
      EarningSession(w, p, now, title, site, steps, k, j - p);
      assert before[j + 1] == steps[j - p + 1] && before[j + 2] == steps[j - p + 2];
    }
  }

  /** Another session behind a failed one takes a retriable failure, a fetch that did not show completed, and a sleep. */
  lemma FurtherSessions(w: World, start: nat, title: string, site: Site, trace: seq<Step>, i: nat, j: nat)
    requires SafeSessions(w, start, title, site, trace) && i < j < |trace| && trace[i].Session? && trace[j].Session?
    requires SessionError(title, trace[i].text).Some?
    ensures IsRetriableCompletion(SessionError(title, trace[i].text).value)
    ensures i + 2 < j && IsPending(trace[i + 1]) && trace[i + 2].Sleep?
  {
    hide Earned, SessionError, IsRetriableCompletion, Usable, IsPending;
    var before := trace[..j];
    assert SessionLicensed(w, start, title, site, before);
    var p, k :| 0 <= p <= |before| && 0 <= k && SawUsable(before[p..]) && Earned(w, start, title, site, before[..p], k);
    assert forall m :: p <= m < |before| ==> before[m] == before[p..][m - p];
    EarnedSessions(w, start, title, site, before[..p], k, i);
  }

  // ---------------------------------------------------------------- completing

  /** The `try` block of one completion attempt. */
  method AttemptCompletion(w: World, base: nat, start: nat, title: string, site: Site)
    returns (r: Result<string>, now: nat, steps: seq<Step>)
    ensures Follows(w, base, start, steps, now) && NoneOf(steps, CliKind) && Count(steps, SessionKind) <= 1
    ensures forall j :: 0 <= j < |steps| && steps[j].Session? ==> SawUsable(steps[..j])
    ensures r.Ok? ==> LastStatusIs(steps, "completed") && StopsWhenDone(steps) && SucceededAttempt(title, steps, r.value)
    ensures SettlesAtOnce(w, base, title, site) ==> r == Ok(w.session(base + 2).value)
    ensures r.Err? ==>
              && FailedAttempt(w, base, title, steps) && NotDone(steps)
              && r.message == AttemptError(w, base, start, title, site, steps)
    ensures StartsAtOnce(w, base, site, steps) && (site.hasProgram ==> GoesOnWhenDone(steps))
  {
    hide Follows, Count, LastStatusIs, Usable, SessionError, StartsAtOnce, AboutToGoOn, GoesOnWhenDone;
    hide FailedAttempt, AttemptError, NeverUsable, SawUsable;
    hide LastRoundError, LastStatusError, MessageOrNull, SucceededAttempt;
    hide FoundUsable, VisibleAtOnce, InTime, NotSettled;
    var usable, now', waits := WaitForTaskClaimUsable(w, base, start, site, 45);
    now, steps := now', waits;
    CountAbsent(waits, SessionKind);
    if usable.Err? {
      NeverStarted(w, base, start, title, site, waits);
      return Err(usable.message), now, steps;
    }
    var text, failure := RunSession(w, base + |waits|, title);
    var session := Session(text);
    FollowsStep(w, base, start, waits, now, session);
    now, steps := now + Duration(w, base + |waits|, session), waits + [session];
    AroundSession(waits, session, []);
    StartsWithSession(w, base, site, waits, session);
    if site.hasProgram { NowGoesOn(waits, session); }
    assert waits + [session] + [] == steps;
    if failure.Some? {
      SessionFailed(w, base, start, title, site, waits, session);
      return Err(failure.value), now, steps;
    }
    var settled, now'', fetches := WaitForStatus(
      w, base + |steps|, now, title + " settlement", title + ".settlementTaskDetail", "completed", 45);
    FollowsConcat(w, base, start, steps, now, fetches, now'');
    AroundSession(waits, session, fetches);
    StartsBehind(w, base, site, waits + [session], fetches);
    NothingToHeed(fetches);
    if site.hasProgram { GoesOnConcat(waits + [session], fetches); }
    if settled.Ok? {
      SeenLastIsLast(fetches, "completed");
      LastStatusConcat(waits + [session], fetches, "completed");
      Succeeded(title, waits, session, fetches);
    } else {
      TimedOut(w, base, start, title, site, waits, session, fetches);
    }
    now, steps := now'', waits + [session] + fetches;
    r := if settled.Err? then Err(settled.message) else text;
  }

  /** The claim is visible at once, the session succeeds, and the first fetch behind it shows the task completed. */
  predicate SettlesAtOnce(w: World, base: nat, title: string, site: Site) {
    && VisibleAtOnce(w, base, site) && SessionError(title, w.session(base + 2)).None?
    && w.fetch(base + 3).Ok? && w.fetch(base + 3).value.status == Some("completed")
  }

  lemma Succeeded(title: string, waits: seq<Step>, session: Step, fetches: seq<Step>)
    requires SawUsable(waits) && session.Session? && SessionError(title, session.text).None?
    requires Settling(fetches) && SeenLast(fetches, "completed")
    ensures SucceededAttempt(title, waits + [session] + fetches, session.text.value)
    ensures StopsWhenDone(waits + [session] + fetches)
  {
    hide SessionError, Usable;
    FirstSessionIs(waits, session, fetches);
    var steps, s := waits + [session] + fetches, |waits|;
    assert steps[..s] == waits && steps[s + 1..] == fetches;
    assert forall i :: 0 <= i < |fetches| - 1 ==> fetches[i] == fetches[..|fetches| - 1][i];
  }

  lemma NeverStarted(w: World, base: nat, start: nat, title: string, site: Site, waits: seq<Step>)
    requires NeverUsable(w, base, waits, 45) && !VisibleAtOnce(w, base, site)
    ensures FailedAttempt(w, base, title, waits) && NotDone(waits) && StartsAtOnce(w, base, site, waits)
    ensures AttemptError(w, base, start, title, site, waits)
            == CLAIM_TIMEOUT + MessageOrNull(LastRoundError(w, base, start, site, waits))
    ensures NoneOf(waits, SessionKind) && NoneOf(waits, CliKind)
  {
    hide LastRoundError, MessageOrNull, Elapsed;
  }

  lemma FirstSessionIs(waits: seq<Step>, session: Step, more: seq<Step>)
    requires NoneOf(waits, SessionKind) && session.Session?
    ensures FirstSession(waits + [session] + more) == |waits|
  {
    var all, n := waits + [session] + more, |waits|;
    assert all[n] == session && forall i :: 0 <= i < n ==> all[i].Kind() != SessionKind;
  }

  lemma SessionFailed(w: World, base: nat, start: nat, title: string, site: Site, waits: seq<Step>, session: Step)
    requires SawUsable(waits) && session.Session? && SessionError(title, session.text).Some?
    ensures FailedAttempt(w, base, title, waits + [session]) && NotDone(waits + [session])
    ensures AttemptError(w, base, start, title, site, waits + [session]) == SessionError(title, session.text).value
  {
    hide SessionError, Usable;
    FirstSessionIs(waits, session, []);
    assert waits + [session] + [] == waits + [session];
    assert (waits + [session])[..|waits|] == waits;
  }

  lemma StartsWithSession(w: World, base: nat, site: Site, waits: seq<Step>, session: Step)
    requires VisibleAtOnce(w, base, site) ==> waits == [Fetch(w.fetch(base), ClaimWait), Probe(Ok(true))]
    requires session.Session?
    ensures StartsAtOnce(w, base, site, waits + [session])
  {}

  lemma TimedOut(
    w: World, base: nat, start: nat, title: string, site: Site, waits: seq<Step>, session: Step, fetches: seq<Step>)
    requires SawUsable(waits) && session.Session? && SessionError(title, session.text).None?
    requires NotSettled(w, base + |waits| + 1, fetches, "completed", 45)
    ensures FailedAttempt(w, base, title, waits + [session] + fetches) && NotDone(waits + [session] + fetches)
    ensures Unseen(fetches, "completed")
    ensures AttemptError(w, base, start, title, site, waits + [session] + fetches)
            == title + " settlement timed out: " + MessageOrNull(LastStatusError(title + ".settlementTaskDetail", fetches))
  {
    hide SessionError, Usable, MessageOrNull, LastStatusError, Elapsed, LastFetch;
    FirstSessionIs(waits, session, fetches);
    var steps, s := waits + [session] + fetches, |waits|;
    assert steps[..s] == waits && steps[s + 1..] == fetches;
  }

  /** A session behind polls, and polls behind it. */
  lemma AroundSession(waits: seq<Step>, session: Step, fetches: seq<Step>)
    requires SawUsable(waits) && session.Session? && Settling(fetches)
    ensures var steps := waits + [session] + fetches;
            && NoneOf(steps, CliKind) && Count(steps, SessionKind) == 1
            && forall j :: 0 <= j < |steps| && steps[j].Session? ==> SawUsable(steps[..j])
  {
    hide Usable, Count;
    var steps := waits + [session] + fetches;
    CountAround(waits, session, fetches, SessionKind);
    forall j | 0 <= j < |steps| && steps[j].Session? ensures SawUsable(steps[..j]) {
      assert j == |waits|;
      assert steps[..j] == waits;
    }
  }

  /** The `catch` block of one completion attempt. */
  method HandleCompletionFailure(w: World, base: nat, start: nat, title: string, message: string, attempt: nat, last: bool)
    returns (d: Decision<string>, now: nat, steps: seq<Step>)
    ensures Follows(w, base, start, steps, now) && Only(steps, {FetchKind, SleepKind})
    ensures steps != [] && steps[0] == Fetch(w.fetch(base), Decide) && d == CompletionVerdict(title, message, last, w.fetch(base))
    ensures d.Return? ==> SeenLast(steps, "completed")
    ensures steps[1..] == if d.Retry? then [Sleep(3000 * attempt)] else []
    ensures d.Retry? ==> !last && IsRetriableCompletion(message) && IsPending(steps[0])
    ensures !d.Return? ==> Unseen(steps, "completed")
    ensures GoesOnWhenDone(steps)
  {
    hide Follows, Contains;
    var task := w.fetch(base);
    var fetch := Fetch(task, Decide);
    FollowsNothing(w, base, start);
    FollowsStep(w, base, start, [], start, fetch);
    now, steps := start + Duration(w, base, fetch), [fetch];
    assert [] + [fetch] == steps;
    if task.Err? && last { return Throw(task.message), now, steps; }
    if task.Ok? {
      if task.value.status.None? { return Throw(MissingField(title + ".retryTaskDetail", "status")), now, steps; }
      if task.value.status.value == "completed" { return Return(message), now, steps; }
    }
    var isRetriable := Contains(message, "Too Many Requests") || Contains(message, "Task not found")
                       || Contains(message, "AccountNotInitialized") || Contains(message, "Task submission failed");
    if !isRetriable || last { return Break(message), now, steps; }
    var pause := Sleep(3000 * attempt);
    FollowsStep(w, base, start, steps, now, pause);
    assert (steps + [pause])[1..] == [pause];
    now, steps := now + Duration(w, base + 1, pause), steps + [pause];
    d := Retry(message);
  }

  /** The part of `completeTaskViaTui` behind the loop. */
  method FinishCompletion(w: World, base: nat, start: nat, title: string, site: Site, lastError: Option<string>)
    returns (r: Result<string>, now: nat, steps: seq<Step>)
    ensures Follows(w, base, start, steps, now) && NoneOf(steps, SessionKind) && Count(steps, CliKind) <= 1
    ensures r.Ok? ==> LastStatusIs(steps, "completed")
    ensures SafeCommands(steps) && StopsWhenDone(steps) && (site.hasProgram ==> GoesOnWhenDone(steps))
    ensures FinishesWith(w, base, start, title, site, lastError, steps, r)
  {
    hide Follows, Count, LastStatusIs, SawUsable, GoesOnWhenDone, Directly;
    var task := w.fetch(base);
    var fetch := Fetch(task, Decide);
    FollowsNothing(w, base, start);
    FollowsStep(w, base, start, [], start, fetch);
    now, steps := start + Duration(w, base, fetch), [fetch];
    assert [] + [fetch] == steps;
    CountOne(fetch, CliKind);
    NothingToHeed(steps);
    if task.Ok? && task.value.status == Some("completed") {
      SeenLastIsLast(steps, "completed");
      return Ok(OrElse(lastError, title)), now, steps;
    }
    var done, now', direct := CompleteDirectly(w, base + 1, now, title, site);
    FollowsConcat(w, base, start, [fetch], now, direct, now');
    BehindFetch(fetch, direct);
    if site.hasProgram { GoesOnConcat([fetch], direct); }
    if done.Ok? { LastStatusConcat([fetch], direct, "completed"); }
    assert ([fetch] + direct)[1..] == direct;
    r, now, steps := done, now', [fetch] + direct;
  }

  /** A direct completion behind a fetch that did not show the task completed. */
  lemma BehindFetch(fetch: Step, direct: seq<Step>)
    requires IsPending(fetch) && Count(direct, CliKind) <= 1 && StopsWhenDone(direct)
    requires forall k :: 0 <= k < |direct| && direct[k].Cli? ==> SawUsable(direct[..k])
    ensures Count([fetch] + direct, CliKind) <= 1 && StopsWhenDone([fetch] + direct) && SafeCommands([fetch] + direct)
  {
    hide SawUsable, Count;
    CountConcat([fetch], direct, CliKind);
    CountOne(fetch, CliKind);
    var all := [fetch] + direct;
    forall k | 0 <= k < |all| && all[k].Cli? ensures CommandLicensed(all[..k]) {
      assert all[..k][1..] == direct[..k - 1];
      assert all[..k][0] == fetch;
    }
  }

  /** The position of the first command, or the length. */
  function FirstCommand(steps: seq<Step>): (c: nat)
    ensures c <= |steps| && (c < |steps| ==> steps[c].Cli?)
    ensures forall i :: 0 <= i < c ==> !steps[i].Cli?
  {
    if steps == [] || steps[0].Cli? then 0 else 1 + FirstCommand(steps[1..])
  }

  /** The steps of a direct completion and what they come to: a claim that never became usable, a failed command, or a settlement seen or not. */
  ghost predicate Directly(w: World, base: nat, start: nat, title: string, site: Site, steps: seq<Step>, r: Result<string>) {
    var c := FirstCommand(steps);
    if c == |steps| then
      && NeverUsable(w, base, steps, 60)
      && r == Err(CLAIM_TIMEOUT + MessageOrNull(LastRoundError(w, base, start, site, steps)))
    else
      var fetches := steps[c + 1..];
      && SawUsable(steps[..c])
      && match steps[c].output
         case Err(message) => fetches == [] && r == Err(message)
         case Ok(_) =>
           || (Settling(fetches) && SeenLast(fetches, "completed") && r == Ok("[fallback cli] " + site.taskPda))
           || (&& NotSettled(w, base + c + 1, fetches, "completed", 60)
               && r == Err(title + " fallback settlement timed out: "
                           + MessageOrNull(LastStatusError(title + ".fallbackSettlementTaskDetail", fetches))))
  }

  /** The steps behind the attempts and what they come to: a fetch that shows completed, or else a direct completion. */
  ghost predicate FinishesWith(
    w: World, base: nat, start: nat, title: string, site: Site, lastError: Option<string>, steps: seq<Step>, r: Result<string>)
  {
    && steps != [] && steps[0].Fetch? && steps[0].why == Decide
    && if IsStatus(steps[0], "completed") then |steps| == 1 && r == Ok(OrElse(lastError, title))
       else Directly(w, base + 1, start + Duration(w, base, steps[0]), title, site, steps[1..], r)
  }

  lemma FirstCommandIs(waits: seq<Step>, command: Step, more: seq<Step>)
    requires NoneOf(waits, CliKind) && command.Cli?
    ensures FirstCommand(waits + [command] + more) == |waits|
  {
    var all, n := waits + [command] + more, |waits|;
    assert all[n] == command && forall i :: 0 <= i < n ==> all[i].Kind() != CliKind;
  }

  lemma NoCommand(w: World, base: nat, start: nat, title: string, site: Site, waits: seq<Step>, r: Result<string>)
    requires NeverUsable(w, base, waits, 60)
    requires r == Err(CLAIM_TIMEOUT + MessageOrNull(LastRoundError(w, base, start, site, waits)))
    ensures Directly(w, base, start, title, site, waits, r)
  {
    hide Elapsed, InTime, LastRoundError, MessageOrNull;
  }

  lemma CommandGives(
    w: World, base: nat, start: nat, title: string, site: Site, waits: seq<Step>, command: Step, fetches: seq<Step>, r: Result<string>)
    requires SawUsable(waits) && command.Cli?
    requires match command.output
             case Err(message) => fetches == [] && r == Err(message)
             case Ok(_) =>
               || (Settling(fetches) && SeenLast(fetches, "completed") && r == Ok("[fallback cli] " + site.taskPda))
               || (&& NotSettled(w, base + |waits| + 1, fetches, "completed", 60)
                   && r == Err(title + " fallback settlement timed out: "
                               + MessageOrNull(LastStatusError(title + ".fallbackSettlementTaskDetail", fetches))))
    ensures Directly(w, base, start, title, site, waits + [command] + fetches, r)
    ensures StopsWhenDone(waits + [command] + fetches)
  {
    hide Usable, MessageOrNull, LastStatusError, Elapsed, InTime, LastFetch;
    assert fetches != [] ==> forall i :: 0 <= i < |fetches| - 1 ==> fetches[i] == fetches[..|fetches| - 1][i];
    FirstCommandIs(waits, command, fetches);
    var steps, c := waits + [command] + fetches, |waits|;
    assert steps[..c] == waits && steps[c + 1..] == fetches;
  }

  lemma PollsOnly(waits: seq<Step>)
    requires ClaimPolls(waits)
    ensures NoneOf(waits, CliKind) && NoneOf(waits, SessionKind) && NotDone(waits)
  {}

  lemma SettlingNothing()
    ensures Settling([])
  {}

  lemma SettlingHeeds(fetches: seq<Step>)
    requires Settling(fetches)
    ensures GoesOnWhenDone(fetches)
  {
    NothingToHeed(fetches);
  }

  /** The direct CLI completion. */
  method CompleteDirectly(w: World, base: nat, start: nat, title: string, site: Site)
    returns (r: Result<string>, now: nat, steps: seq<Step>)
    ensures Follows(w, base, start, steps, now) && NoneOf(steps, SessionKind) && Count(steps, CliKind) <= 1
    ensures r.Ok? ==> LastStatusIs(steps, "completed")
    ensures forall k :: 0 <= k < |steps| && steps[k].Cli? ==> SawUsable(steps[..k])
    ensures StopsWhenDone(steps) && (site.hasProgram ==> GoesOnWhenDone(steps))
    ensures Directly(w, base, start, title, site, steps, r)
  {
    hide Follows, Count, LastStatusIs, Usable, AboutToGoOn, GoesOnWhenDone, Directly, NotSettled, InTime, FoundUsable;
    hide LastRoundError, LastStatusError, MessageOrNull, SawUsable, NeverUsable;
    hide ClaimPolls, Settling, SeenLast, Unseen, Paced, ShowsDone;
    var usable, now', waits := WaitForTaskClaimUsable(w, base, start, site, 60);
    PollsOnly(waits);
    now, steps := now', waits;
    CountAbsent(waits, CliKind);
    if usable.Err? {
      NoCommand(w, base, start, title, site, waits, Err(usable.message));
      return Err(usable.message), now, steps;
    }
    var output := w.cli(base + |waits|);
    var command := Cli(output);
    FollowsStep(w, base, start, waits, now, command);
    now, steps := now + Duration(w, base + |waits|, command), waits + [command];
    SettlingNothing();
    AroundCommand(waits, command, []);
    if site.hasProgram { NowGoesOn(waits, command); }
    assert waits + [command] + [] == steps;
    if output.Err? {
      CommandGives(w, base, start, title, site, waits, command, [], Err(output.message));
      return Err(output.message), now, steps;
    }
    var settled, now'', fetches := WaitForStatus(
      w, base + |steps|, now, title + " fallback settlement", title + ".fallbackSettlementTaskDetail", "completed", 60);
    FollowsConcat(w, base, start, steps, now, fetches, now'');
    AroundCommand(waits, command, fetches);
    SettlingHeeds(fetches);
    if site.hasProgram { GoesOnConcat(waits + [command], fetches); }
    if settled.Ok? {
      SeenLastIsLast(fetches, "completed");
      LastStatusConcat(waits + [command], fetches, "completed");
    }
    now, steps := now'', waits + [command] + fetches;
    r := if settled.Err? then Err(settled.message) else Ok("[fallback cli] " + site.taskPda);
    CommandGives(w, base, start, title, site, waits, command, fetches, r);
  }

  lemma AroundCommand(waits: seq<Step>, command: Step, fetches: seq<Step>)
    requires SawUsable(waits) && command.Cli? && Settling(fetches)
    ensures var steps := waits + [command] + fetches;
            && NoneOf(steps, SessionKind) && Count(steps, CliKind) == 1
            && forall k :: 0 <= k < |steps| && steps[k].Cli? ==> SawUsable(steps[..k])
  {
    hide Usable, Count;
    var steps := waits + [command] + fetches;
    CountAround(waits, command, fetches, CliKind);
    forall k | 0 <= k < |steps| && steps[k].Cli? ensures SawUsable(steps[..k]) {
      assert k == |waits|;
      assert steps[..k] == waits;
    }
  }

  /** The steps of an attempt, and what they come to: it succeeds, or it fails and the fetch behind it decides. */
  ghost predicate TryGives(
    w: World, base: nat, start: nat, title: string, site: Site, last: bool, steps: seq<Step>, d: Decision<string>)
  {
    || (d.Return? && SucceededAttempt(title, steps, d.value))
    || (&& steps != [] && steps[|steps| - 1].Fetch? && steps[|steps| - 1].why == Decide
        && var failed, task := steps[..|steps| - 1], steps[|steps| - 1].task;
           && FailedAttempt(w, base, title, failed)
           && d == CompletionVerdict(title, AttemptError(w, base, start, title, site, failed), last, task))
  }

  /** One attempt: the `try` block, and the handling of whatever went wrong. */
  method TryComplete(w: World, base: nat, start: nat, title: string, site: Site, attempt: nat, last: bool)
    returns (d: Decision<string>, now: nat, steps: seq<Step>)
    ensures Follows(w, base, start, steps, now) && NoneOf(steps, CliKind) && Count(steps, SessionKind) <= 1
    ensures forall j :: 0 <= j < |steps| && steps[j].Session? ==> SawUsable(steps[..j])
    ensures d.Return? ==> LastStatusIs(steps, "completed") && StopsWhenDone(steps)
    ensures !d.Return? ==> NotDone(steps)
    ensures d.Retry? ==> !last && EarnsRetry(w, base, start, title, site, steps, attempt)
    ensures !d.Retry? ==> TryGives(w, base, start, title, site, last, steps, d)
    ensures SettlesAtOnce(w, base, title, site) ==> d == Return(w.session(base + 2).value)
    ensures StartsAtOnce(w, base, site, steps) && (site.hasProgram ==> GoesOnWhenDone(steps))
  {
    hide Follows, Count, LastStatusIs, StartsAtOnce, GoesOnWhenDone, SawUsable;
    hide FailedAttempt, AttemptError, IsRetriableCompletion, EarnsRetry, CompletionVerdict, SucceededAttempt, SettlesAtOnce;
    var done, now', first := AttemptCompletion(w, base, start, title, site);
    now, steps := now', first;
    if done.Ok? { return Return(done.value), now, steps; }
    var d', now'', more := HandleCompletionFailure(w, base + |first|, now, title, done.message, attempt, last);
    FollowsConcat(w, base, start, first, now, more, now'');
    CountConcat(first, more, SessionKind);
    CountAbsent(more, SessionKind);
    SessionsOfFirst(first, more);
    StartsBehind(w, base, site, first, more);
    if site.hasProgram { GoesOnConcat(first, more); }
    if d'.Return? {
      SeenLastIsLast(more, "completed");
      LastStatusConcat(first, more, "completed");
    }
    if d'.Retry? {
      EarnsByRetry(w, base, start, title, site, first, more, attempt);
    } else {
      assert more == [more[0]] && (first + more)[..|first|] == first;
    }
    d, now, steps := d', now'', first + more;
  }

  lemma SessionsOfFirst(first: seq<Step>, more: seq<Step>)
    requires forall j :: 0 <= j < |first| && first[j].Session? ==> SawUsable(first[..j])
    requires NoneOf(more, SessionKind)
    ensures forall j :: 0 <= j < |first + more| && (first + more)[j].Session? ==> SawUsable((first + more)[..j])
  {
    hide SawUsable;
    var all := first + more;
    assert forall i :: 0 <= i < |more| ==> more[i].Kind() != SessionKind;
    forall j | 0 <= j < |all| && all[j].Session? ensures SawUsable(all[..j]) {
      assert j < |first|;
      assert all[..j] == first[..j];
    }
  }

  // ---------------------------------------------------------------- the whole protocol

  /** What all attempts keep. */
  ghost predicate Sound(w: World, start: nat, title: string, site: Site, trace: seq<Step>, now: nat) {
    && Follows(w, 0, start, trace, now) && NoneOf(trace, CliKind) && SafeSessions(w, start, title, site, trace)
    && (site.hasProgram ==> GoesOnWhenDone(trace))
  }

  lemma SoundNothing(w: World, start: nat, title: string, site: Site)
    ensures Sound(w, start, title, site, [], start) && Earned(w, start, title, site, [], 0)
  {
    hide Earned;
    SafeNothing(w, start, title, site);
  }

  lemma SoundMore(
    w: World, start: nat, title: string, site: Site, trace: seq<Step>, now: nat, k: nat, steps: seq<Step>, now': nat)
    requires Sound(w, start, title, site, trace, now) && Earned(w, start, title, site, trace, k)
    requires Follows(w, |trace|, now, steps, now') && NoneOf(steps, CliKind) && (site.hasProgram ==> GoesOnWhenDone(steps))
    requires forall j :: 0 <= j < |steps| && steps[j].Session? ==> SawUsable(steps[..j])
    ensures Sound(w, start, title, site, trace + steps, now')
  {
    hide Follows, SafeSessions, GoesOnWhenDone, Earned, SawUsable;
    FollowsConcat(w, 0, start, trace, now, steps, now');
    SafeAttempt(w, start, title, site, trace, k, steps);
    if site.hasProgram { GoesOnConcat(trace, steps); }
  }

  /** The last attempt begins at `p`, behind `k` others, and settles the matter. */
  ghost predicate SettledAt(
    w: World, start: nat, title: string, site: Site, maxAttempts: int, trace: seq<Step>, p: nat, k: nat, d: Decision<string>)
    requires p <= |trace|
  {
    && Earned(w, start, title, site, trace[..p], k)
    && TryGives(w, p, start + Elapsed(w, 0, trace[..p]), title, site, k + 1 == maxAttempts, trace[p..], d)
  }

  /** The error with which the attempts ended, if there were any. */
  ghost predicate EndedWith(
    w: World, start: nat, title: string, site: Site, maxAttempts: int, before: seq<Step>, lastError: Option<string>)
  {
    match lastError
    case None => before == [] && maxAttempts <= 0
    case Some(error) =>
      exists p, k :: 0 <= p <= |before| && 0 <= k && SettledAt(w, start, title, site, maxAttempts, before, p, k, Break(error))
  }

  ghost predicate FinishedAt(
    w: World, start: nat, title: string, site: Site, maxAttempts: int, trace: seq<Step>, p: nat, lastError: Option<string>, r: Result<string>)
    requires p <= |trace|
  {
    && EndedWith(w, start, title, site, maxAttempts, trace[..p], lastError)
    && FinishesWith(w, p, start + Elapsed(w, 0, trace[..p]), title, site, lastError, trace[p..], r)
  }

  /** The result is the one that the trace gives. */
  ghost predicate Resolved(
    w: World, start: nat, title: string, site: Site, maxAttempts: int, trace: seq<Step>, r: Result<string>)
  {
    || (exists p, k, d :: 0 <= p <= |trace| && 0 <= k && SettledAt(w, start, title, site, maxAttempts, trace, p, k, d) && Outcome(d) == Some(r))
    || exists p, lastError :: 0 <= p <= |trace| && FinishedAt(w, start, title, site, maxAttempts, trace, p, lastError, r)
  }

  lemma SettledBehind(
    w: World, start: nat, title: string, site: Site, maxAttempts: int, trace: seq<Step>, now: nat, k: nat, steps: seq<Step>, d: Decision<string>)
    requires Follows(w, 0, start, trace, now) && Earned(w, start, title, site, trace, k)
    requires TryGives(w, |trace|, now, title, site, k + 1 == maxAttempts, steps, d)
    ensures SettledAt(w, start, title, site, maxAttempts, trace + steps, |trace|, k, d)
  {
    hide Earned, TryGives, Elapsed, Genuine;
    assert (trace + steps)[..|trace|] == trace && (trace + steps)[|trace|..] == steps;
  }

  lemma FinishedBehind(
    w: World, start: nat, title: string, site: Site, maxAttempts: int, trace: seq<Step>, now: nat, lastError: Option<string>,
    steps: seq<Step>, r: Result<string>)
    requires Follows(w, 0, start, trace, now) && EndedWith(w, start, title, site, maxAttempts, trace, lastError)
    requires FinishesWith(w, |trace|, now, title, site, lastError, steps, r)
    ensures Resolved(w, start, title, site, maxAttempts, trace + steps, r)
  {
    hide EndedWith, FinishesWith, Elapsed, Genuine, SettledAt;
    var all, p := trace + steps, |trace|;
    assert all[..p] == trace && all[p..] == steps;
    assert FinishedAt(w, start, title, site, maxAttempts, all, p, lastError, r);
  }

  /** The loop of `completeTaskViaTui`; without a result the attempts have ended. */
  method TryAll(w: World, start: nat, title: string, site: Site, maxAttempts: int)
    returns (r: Option<Result<string>>, lastError: Option<string>, now: nat, trace: seq<Step>)
    ensures Sound(w, start, title, site, trace, now)
    ensures Count(trace, SessionKind) <= (if maxAttempts > 0 then maxAttempts else 0)
    ensures r.Some? ==> StopsWhenDone(trace) && Resolved(w, start, title, site, maxAttempts, trace, r.value)
    ensures r.Some? && r.value.Ok? ==> LastStatusIs(trace, "completed")
    ensures r.None? ==> NotDone(trace) && EndedWith(w, start, title, site, maxAttempts, trace, lastError)
    ensures maxAttempts > 0 ==> StartsAtOnce(w, 0, site, trace)
    ensures maxAttempts > 0 && SettlesAtOnce(w, 0, title, site) ==> r == Some(Ok(w.session(2).value))
  {
    hide Sound, Follows, Count, LastStatusIs, StartsAtOnce, GoesOnWhenDone, Earned, EarnsRetry, SawUsable, ShowsDone;
    hide SettlesAtOnce, SettledAt, FinishedAt, TryGives;
    lastError, now, trace := None, start, [];
    CountAbsent([], SessionKind);
    SoundNothing(w, start, title, site);
    var attempt := 1;
    while attempt <= maxAttempts
      invariant 1 <= attempt && (attempt <= maxAttempts || attempt == 1)
      invariant Sound(w, start, title, site, trace, now) && Earned(w, start, title, site, trace, attempt - 1) && NotDone(trace)
      invariant Count(trace, SessionKind) <= attempt - 1
      invariant if attempt == 1 then trace == [] && lastError.None?
                else StartsAtOnce(w, 0, site, trace) && !SettlesAtOnce(w, 0, title, site)
      decreases maxAttempts - attempt
    {
      var d, now', steps := TryComplete(w, |trace|, now, title, site, attempt, attempt == maxAttempts);
      StartsConcat(w, site, trace, steps);
      CountConcat(trace, steps, SessionKind);
      SoundMore(w, start, title, site, trace, now, attempt - 1, steps, now');
      SoundFollows(w, start, title, site, trace, now);
      if d.Retry? {
        EarnedConcat(w, start, title, site, trace, now, steps, attempt);
      } else {
        SettledBehind(w, start, title, site, maxAttempts, trace, now, attempt - 1, steps, d);
      }
      if d.Return? { LastStatusConcat(trace, steps, "completed"); }
      if trace == [] { assert trace + steps == steps; }
      ghost var p := |trace|;
      now, trace := now', trace + steps;
      assert d.Retry? || SettledAt(w, start, title, site, maxAttempts, trace, p, attempt - 1, d);
      match d
      case Return(text) => return Some(Ok(text)), lastError, now, trace;
      case Throw(message) => return Some(Err(message)), lastError, now, trace;
      case Break(error) => return None, Some(error), now, trace;
      case Retry(error) => lastError := Some(error); attempt := attempt + 1;
    }
    r := None;
  }

  lemma SoundFollows(w: World, start: nat, title: string, site: Site, trace: seq<Step>, now: nat)
    requires Sound(w, start, title, site, trace, now)
    ensures Follows(w, 0, start, trace, now)
  {}

  /** `completeTaskViaTui`, from an empty trace. */
  method CompleteTaskViaTui(w: World, start: nat, title: string, site: Site, maxAttempts: int := 6)
    returns (r: Result<string>, trace: seq<Step>)
    ensures Genuine(w, 0, trace) && SessionsFirst(trace)
    ensures Count(trace, SessionKind) <= (if maxAttempts > 0 then maxAttempts else 0) && Count(trace, CliKind) <= 1
    ensures SafeSessions(w, start, title, site, trace) && SafeCommands(trace) && StopsWhenDone(trace)
    ensures r.Ok? ==> LastStatusIs(trace, "completed")
    ensures maxAttempts > 0 ==> StartsAtOnce(w, 0, site, trace)
    ensures site.hasProgram ==> GoesOnWhenDone(trace)
    ensures Resolved(w, start, title, site, maxAttempts, trace, r)
    ensures maxAttempts > 0 && SettlesAtOnce(w, 0, title, site) ==> r == Ok(w.session(2).value)
  {
    hide Follows, Genuine, Elapsed, Count, LastStatusIs;
    hide StartsAtOnce, GoesOnWhenDone, SettlesAtOnce, Resolved, EndedWith, FinishesWith;
    hide SafeSessions, SafeCommands, SawUsable, ShowsDone;
    var settled, lastError, now, tried := TryAll(w, start, title, site, maxAttempts);
    CountAbsent(tried, CliKind);
    FollowsGenuinely(w, 0, start, tried, now);
    if settled.Some? {
      SafeNothing(w, start, title, site);
      SafeCommandsBehind(tried, []);
      assert tried + [] == tried;
      return settled.value, tried;
    }
    var done, now', steps := FinishCompletion(w, |tried|, now, title, site, lastError);
    if maxAttempts > 0 { StartsBehind(w, 0, site, tried, steps); }
    if site.hasProgram { GoesOnConcat(tried, steps); }
    CountBoth(tried, steps);
    CountAbsent(steps, SessionKind);
    FollowsConcat(w, 0, start, tried, now, steps, now');
    FollowsGenuinely(w, 0, start, tried + steps, now');
    SafeWithoutSession(w, start, title, site, tried, steps);
    SafeCommandsBehind(tried, steps);
    FinishedBehind(w, start, title, site, maxAttempts, tried, now, lastError, steps, done);
    if done.Ok? { LastStatusConcat(tried, steps, "completed"); }
    r, trace := done, tried + steps;
  }

  /** A task that is already completed, with the claim of this worker still visible: a session is started all the same. */
  method CompletesAgain(start: nat, title: string, site: Site) returns (trace: seq<Step>)
    requires site.hasProgram
    ensures |trace| >= 3 && IsStatus(trace[0], "completed") && trace[2].Session?
  {
    var done := Task(Some("completed"), Some("exclusive"), Some(1), Some(0), Some("creator"));
    var w := World(_ => Ok(title), _ => Ok(done), _ => Ok(true), _ => Ok(true), _ => Ok(None), _ => 0, _ => Ok(""), _ => "");
    var r;
    r, trace := CompleteTaskViaTui(w, start, title, site);
  }
}
