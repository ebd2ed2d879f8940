/** `cancelTaskViaTui` of `scripts/marketplace-tui-devnet-smoke.ts`. */
module TuiCancel {
  import opened Outcomes
  import opened Text
  import opened TuiWorld
  import opened TuiWaits

  /** Once this status has been seen, neither a session nor a command is started. */
  ghost predicate QuietAfter(trace: seq<Step>, status: string) {
    forall i, j :: 0 <= i < j < |trace| && IsStatus(trace[i], status) ==> !trace[j].Session? && !trace[j].Cli?
  }

  lemma QuietConcat(before: seq<Step>, steps: seq<Step>, status: string)
    requires Unseen(before, status) && QuietAfter(steps, status)
    ensures QuietAfter(before + steps, status)
  {}

  predicate IsRetriableCancel(message: string) {
    || Contains(message, "Too Many Requests")
    || Contains(message, "UnauthorizedTaskAction")
    || Contains(message, "InvalidAccountOwner")
    || Contains(message, "TaskCannotBeCancelled")
  }

  /** The task is open and belongs to the signer. */
  predicate Cancellable(task: Result<Task>, signer: string) {
    task.Ok? && task.value.status == Some("open") && task.value.creator == Some(signer)
  }

  /**
   The steps of an attempt that earns another one. Either its session succeeded and the task was not seen
   cancelled in time, or its session failed with a retriable error and the task was then seen open and owned
   by the signer, and its escrow was seen if the error blamed an account owner. The driver sleeps in between.
   */
  ghost predicate EarnsCancel(w: World, base: nat, title: string, signer: string, steps: seq<Step>, attempt: nat) {
    var n := |steps| - 1;
    && steps != [] && steps[0].Session? && Unseen(steps, "cancelled")
    && steps[n] == Sleep(if SessionError(title, steps[0].text).None? then 10000 * attempt else 10000 + 5000 * attempt)
    && match SessionError(title, steps[0].text)
       case None => NotSettled(w, base + 1, steps[1..n], "cancelled", 60)
       case Some(message) =>
         && IsRetriableCancel(message) && Only(steps[2..], {EscrowKind, SleepKind})
         && steps[1].Fetch? && steps[1].why == Decide && Cancellable(steps[1].task, signer)
         && (Contains(message, "InvalidAccountOwner") ==> Escrow(Ok(true)) in steps)
  }

  /** Every session but the first directly follows an attempt that earned it. */
  ghost predicate SafeCancels(w: World, title: string, signer: string, trace: seq<Step>) {
    forall j :: 0 < j < |trace| && trace[j].Session? ==> CancelEarned(w, title, signer, trace[..j])
  }

  ghost predicate CancelEarned(w: World, title: string, signer: string, before: seq<Step>) {
    exists p :: 0 <= p < |before| && EarnsCancel(w, p, title, signer, before[p..], Count(before, SessionKind))
  }

  lemma EarnedBehind(w: World, title: string, signer: string, trace: seq<Step>, steps: seq<Step>)
    requires steps != [] && EarnsCancel(w, |trace|, title, signer, steps, Count(trace + steps, SessionKind))
    ensures CancelEarned(w, title, signer, trace + steps)
  {
    hide EarnsCancel, Count;
    assert (trace + steps)[|trace|..] == steps;
  }

  lemma SafeExtend(w: World, title: string, signer: string, trace: seq<Step>, steps: seq<Step>)
    requires SafeCancels(w, title, signer, trace)
    requires NoneOf(steps, SessionKind)
             || ((trace == [] || CancelEarned(w, title, signer, trace)) && steps != [] && NoneOf(steps[1..], SessionKind))
    ensures SafeCancels(w, title, signer, trace + steps)
  {
    hide CancelEarned;
    var all := trace + steps;
    assert forall i :: 0 < i < |steps| ==> steps[i] == steps[1..][i - 1];
    assert forall i :: 0 < i < |steps| ==> !steps[i].Session?;
    forall j | 0 < j < |all| && all[j].Session? ensures CancelEarned(w, title, signer, all[..j]) {
      if j < |trace| {
        assert all[..j] == trace[..j];
      } else {
        assert j == |trace|;
        assert all[..j] == trace;
      }
    }
  }

  // ---------------------------------------------------------------- one attempt

  /** What one session led to. */
  datatype Attempt = Settled(text: string) | Unsettled(error: string) | Failed(message: string)

  /** The `try` block of one cancel attempt, up to the end of the wait for settlement. */
  method AttemptCancel(w: World, base: nat, start: nat, title: string)
    returns (a: Attempt, now: nat, steps: seq<Step>)
    ensures Follows(w, base, start, steps, now) && steps != [] && steps[0].Session?
    ensures Settling(steps[1..])
    ensures steps[0] == Session(w.session(base))
    ensures a.Settled? ==> SeenLast(steps, "cancelled") && w.session(base) == Ok(a.text)
    ensures !a.Failed? ==> |steps| >= 2 && steps[1] == Fetch(w.fetch(base + 1), Settlement)
    ensures !a.Settled? ==> Unseen(steps, "cancelled")
    ensures a.Failed? ==> steps[1..] == [] && SessionError(title, steps[0].text) == Some(a.message)
    ensures !a.Failed? ==> SessionError(title, steps[0].text).None?
    ensures a.Unsettled? ==>
              && NotSettled(w, base + 1, steps[1..], "cancelled", 60)
              && a.error == title + " settlement timed out: "
                            + MessageOrNull(LastStatusError(title + ".settlementTaskDetail", steps[1..]))
  {
    hide Follows, SessionError, LastFetch, Elapsed, MessageOrNull, LastStatusError;
    var text, failure := RunSession(w, base, title);
    var session := Session(text);
    FollowsNothing(w, base, start);
    FollowsStep(w, base, start, [], start, session);
    now, steps := start + Duration(w, base, session), [session];
    assert [] + [session] == steps;
    if failure.Some? { return Failed(failure.value), now, steps; }
    var settled, now', fetches := WaitForStatus(
      w, base + 1, now, title + " settlement", title + ".settlementTaskDetail", "cancelled", 60);
    FollowsConcat(w, base, start, steps, now, fetches, now');
    assert (steps + fetches)[1..] == fetches;
    if settled.Ok? { SeenLastBehind(steps, fetches, "cancelled"); }
    now, steps := now', steps + fetches;
    a := if settled.Ok? then Settled(text.value) else Unsettled(settled.message);
  }

  lemma SeenLastBehind(before: seq<Step>, steps: seq<Step>, status: string)
    requires Unseen(before, status) && SeenLast(steps, status)
    ensures SeenLast(before + steps, status)
  {
    assert (before + steps)[..|before + steps| - 1] == before + steps[..|steps| - 1];
  }

  /** What the driver does after a failed session, when it has fetched the task again and looked for its escrow. */
  function CancelVerdict(
    title: string, site: Site, signer: string, message: string, last: bool, task: Result<Task>, looks: seq<Step>): Decision<string>
  {
    match task
    case Err(error) => Throw(error)
    case Ok(t) =>
      if t.status.None? then Throw(MissingField(title + ".retryTaskDetail", "status"))
      else if t.creator.None? then Throw(MissingField(title + ".retryTaskDetail", "creator"))
      else if t.status.value == "cancelled" then Return(message)
      else if !IsRetriableCancel(message) || last || !Cancellable(task, signer) then Break(message)
      else if Contains(message, "InvalidAccountOwner") && EscrowResult(site, looks).Err? then
        Throw(EscrowResult(site, looks).message)
      else Retry(message)
  }

  /** The `catch` block of one cancel attempt. */
  method HandleCancelFailure(
    w: World, base: nat, start: nat, title: string, site: Site, signer: string, message: string, attempt: nat, last: bool)
    returns (d: Decision<string>, now: nat, steps: seq<Step>)
    ensures Follows(w, base, start, steps, now) && steps != [] && steps[0].Fetch? && steps[0].why == Decide
    ensures Only(steps[1..], {EscrowKind, SleepKind}) && InTime(w, base + 1, steps[1..], EscrowKind, 20000)
    ensures steps[0].task == w.fetch(base) && d == CancelVerdict(title, site, signer, message, last, w.fetch(base), steps[1..])
    ensures d.Return? ==> d.value == message && SeenLast(steps, "cancelled") && |steps| == 1
    ensures d.Break? ==>
              && d.error == message
              && (last || !IsRetriableCancel(message) || !Cancellable(steps[0].task, signer))
    ensures d.Retry? ==>
              && d.error == message && !last && IsRetriableCancel(message)
              && Cancellable(steps[0].task, signer)
              && (Contains(message, "InvalidAccountOwner") ==> Escrow(Ok(true)) in steps)
              && steps[|steps| - 1] == Sleep(10000 + 5000 * attempt)
    ensures d.Break? || d.Retry? ==> Unseen(steps, "cancelled")
    ensures SeenLast(steps, "cancelled") || Unseen(steps, "cancelled")
  {
    hide Follows, Contains, InTime, EscrowResult, Elapsed;
    InTimeNothing(w, base + 1, EscrowKind, 20000);
    var task := w.fetch(base);
    var fetch := Fetch(task, Decide);
    FollowsNothing(w, base, start);
    FollowsStep(w, base, start, [], start, fetch);
    now, steps := start + Duration(w, base, fetch), [fetch];
    assert [] + [fetch] == steps && steps[1..] == [];
    if task.Err? { return Throw(task.message), now, steps; }
    if task.value.status.None? { return Throw(MissingField(title + ".retryTaskDetail", "status")), now, steps; }
    if task.value.creator.None? { return Throw(MissingField(title + ".retryTaskDetail", "creator")), now, steps; }
    if task.value.status.value == "cancelled" { return Return(message), now, steps; }
    var isRetriable := Contains(message, "Too Many Requests") || Contains(message, "UnauthorizedTaskAction")
                       || Contains(message, "InvalidAccountOwner") || Contains(message, "TaskCannotBeCancelled");
    if !isRetriable || last { return Break(message), now, steps; }
    if task.value.status.value != "open" || task.value.creator.value != signer { return Break(message), now, steps; }
    var d', now', more := PauseCancel(w, base + 1, now, site, message, attempt);
    FollowsConcat(w, base, start, [fetch], now, more, now');
    assert ([fetch] + more)[1..] == more;
    d, now, steps := d', now', [fetch] + more;
  }

  /** The end of the `catch` block: the escrow is awaited after an owner error, and then the driver pauses. */
  method PauseCancel(w: World, base: nat, start: nat, site: Site, message: string, attempt: nat)
    returns (d: Decision<string>, now: nat, steps: seq<Step>)
    ensures Follows(w, base, start, steps, now) && Only(steps, {EscrowKind, SleepKind})
    ensures d == if Contains(message, "InvalidAccountOwner") && EscrowResult(site, steps).Err?
                 then Throw(EscrowResult(site, steps).message) else Retry(message)
    ensures InTime(w, base, steps, EscrowKind, 20000)
    ensures d.Throw? && site.hasProgram ==>
              || (steps != [] && steps[|steps| - 1] == Escrow(Err(d.message)))
              || Elapsed(w, base, steps) > 20000
    ensures d.Retry? ==>
              && steps != [] && steps[|steps| - 1] == Sleep(10000 + 5000 * attempt)
              && (Contains(message, "InvalidAccountOwner") ==> Escrow(Ok(true)) in steps)
  {
    hide Follows, Contains, InTime, EscrowResult, Genuine, Elapsed;
    now, steps := start, [];
    FollowsNothing(w, base, start);
    InTimeNothing(w, base, EscrowKind, 20000);
    var pause := Sleep(10000 + 5000 * attempt);
    if Contains(message, "InvalidAccountOwner") {
      var ready;
      ready, now, steps := WaitForTaskEscrowReady(w, base, start, site, 20);
      FollowsGenuinely(w, base, start, steps, now);
      if ready.Err? { return Throw(ready.message), now, steps; }
      EscrowStays(site, steps, pause);
    }
    FollowsStep(w, base, start, steps, now, pause);
    InTimeBehind(w, base, start, steps, now, [pause], EscrowKind, 20000);
    now, steps := now + Duration(w, base + |steps|, pause), steps + [pause];
    d := Retry(message);
  }

  lemma EscrowStays(site: Site, looks: seq<Step>, pause: Step)
    requires EscrowResult(site, looks).Ok?
    ensures EscrowResult(site, looks + [pause]).Ok? && Escrow(Ok(true)) in looks
  {}

  /** What the steps of an attempt come to. */
  function CancelGives(title: string, site: Site, signer: string, last: bool, steps: seq<Step>): Decision<string>
    requires steps != [] && steps[0].Session?
  {
    match SessionError(title, steps[0].text)
    case Some(message) =>
      if |steps| >= 2 && steps[1].Fetch? then CancelVerdict(title, site, signer, message, last, steps[1].task, steps[2..])
      else Break(message)
    case None =>
      if IsStatus(steps[|steps| - 1], "cancelled") then Return(steps[0].text.value)
      else
        var error := title + " settlement timed out: "
                     + MessageOrNull(LastStatusError(title + ".settlementTaskDetail", steps[1..]));
        if last then Break(error) else Retry(error)
  }

  /** One attempt: the session, and the handling of whatever went wrong. */
  method TryCancel(
    w: World, base: nat, start: nat, title: string, site: Site, signer: string, attempt: nat, last: bool)
    returns (d: Decision<string>, now: nat, steps: seq<Step>)
    ensures Follows(w, base, start, steps, now) && steps != [] && steps[0].Session? && NoneOf(steps[1..], SessionKind)
    ensures NoneOf(steps, CliKind)
    ensures d.Return? ==> SeenLast(steps, "cancelled")
    ensures d.Break? || d.Retry? ==> Unseen(steps, "cancelled")
    ensures SeenLast(steps, "cancelled") || Unseen(steps, "cancelled")
    ensures d.Retry? ==> !last && EarnsCancel(w, base, title, signer, steps, attempt)
    ensures d == CancelGives(title, site, signer, last, steps) && |steps| >= 2
    ensures CancelsAtOnce(w, base, title) ==>
              d == Return(w.session(base).value) && steps == [Session(w.session(base)), Fetch(w.fetch(base + 1), Settlement)]
  {
    hide Follows, IsRetriableCancel, Contains, Cancellable, SessionError;
    hide EarnsCancel, NotSettled, MessageOrNull, LastStatusError, CancelVerdict;
    var a, now', first := AttemptCancel(w, base, start, title);
    now, steps := now', first;
    match a
    case Settled(text) => d := Return(text);
    case Unsettled(error) =>
      if last { return Break(error), now, steps; }
      var pause := Sleep(10000 * attempt);
      FollowsStep(w, base, start, first, now, pause);
      assert (first + [pause])[1..] == first[1..] + [pause];
      UnsettledEarns(w, base, title, signer, first, attempt);
      SameLastError(title + ".settlementTaskDetail", first[1..], pause);
      now, steps := now + Duration(w, base + |first|, pause), first + [pause];
      d := Retry(error);
    case Failed(message) =>
      assert first == [first[0]];
      var d', now'', more := HandleCancelFailure(w, base + |first|, now, title, site, signer, message, attempt, last);
      FollowsConcat(w, base, start, first, now, more, now'');
      assert (first + more)[1..] == more;
      assert (first + more)[2..] == more[1..];
      if SeenLast(more, "cancelled") { SeenLastBehind(first, more, "cancelled"); }
      if d'.Retry? { EarnedByRetry(w, base, title, signer, first[0], message, more, attempt); }
      d, now, steps := d', now'', first + more;
  }

  /** The session succeeds, and the first fetch behind it shows the task cancelled. */
  predicate CancelsAtOnce(w: World, base: nat, title: string) {
    && SessionError(title, w.session(base)).None?
    && w.fetch(base + 1).Ok? && w.fetch(base + 1).value.status == Some("cancelled")
  }

  lemma SameLastError(context: string, steps: seq<Step>, pause: Step)
    requires pause.Sleep?
    ensures LastStatusError(context, steps + [pause]) == LastStatusError(context, steps)
  {
    LastFetchAppend(steps, pause);
  }

  lemma UnsettledEarns(w: World, base: nat, title: string, signer: string, first: seq<Step>, attempt: nat)
    requires first != [] && first[0].Session? && SessionError(title, first[0].text).None?
    requires NotSettled(w, base + 1, first[1..], "cancelled", 60) && Unseen(first, "cancelled")
    ensures EarnsCancel(w, base, title, signer, first + [Sleep(10000 * attempt)], attempt)
  {
    hide SessionError, NotSettled;
    assert (first + [Sleep(10000 * attempt)])[1..|first|] == first[1..];
  }

  lemma EarnedByRetry(
    w: World, base: nat, title: string, signer: string, session: Step, message: string, more: seq<Step>, attempt: nat)
    requires session.Session? && SessionError(title, session.text) == Some(message) && IsRetriableCancel(message)
    requires more != [] && more[0].Fetch? && more[0].why == Decide && Cancellable(more[0].task, signer)
    requires Only(more[1..], {EscrowKind, SleepKind})
    requires more[|more| - 1] == Sleep(10000 + 5000 * attempt) && Unseen(more, "cancelled")
    requires Contains(message, "InvalidAccountOwner") ==> Escrow(Ok(true)) in more
    ensures EarnsCancel(w, base, title, signer, [session] + more, attempt)
  {
    hide SessionError, IsRetriableCancel, Contains, Cancellable;
    assert ([session] + more)[2..] == more[1..];
  }

  // ---------------------------------------------------------------- after the attempts

  /** The direct CLI cancel: 20 seconds of sleep, one command, and the wait for settlement. */
  method CancelDirectly(w: World, base: nat, start: nat, title: string, site: Site)
    returns (r: Result<string>, now: nat, steps: seq<Step>)
    ensures Follows(w, base, start, steps, now) && |steps| >= 2 && steps[0] == Sleep(20000) && steps[1].Cli?
    ensures Only(steps[2..], {FetchKind, SleepKind})
    ensures r.Ok? ==> LastStatusIs(steps, "cancelled")
    ensures r.Ok? <==> IsStatus(steps[|steps| - 1], "cancelled")
    ensures r.Ok? ==> r.value == "[fallback cli] " + site.taskPda
    ensures if steps[1].output.Err? then |steps| == 2
            else SeenLast(steps[2..], "cancelled") || NotSettled(w, base + 2, steps[2..], "cancelled", 60)
  {
    hide Follows, LastStatusIs, Elapsed, InTime, LastFetch;
    var output := w.cli(base + 1);
    FollowsNothing(w, base, start);
    FollowsStep(w, base, start, [], start, Sleep(20000));
    assert [] + [Sleep(20000)] == [Sleep(20000)];
    now := start + Duration(w, base, Sleep(20000));
    FollowsStep(w, base, start, [Sleep(20000)], now, Cli(output));
    now, steps := now + Duration(w, base + 1, Cli(output)), [Sleep(20000)] + [Cli(output)];
    if output.Err? { return Err(output.message), now, steps; }
    var settled, now', fetches := WaitForStatus(
      w, base + 2, now, title + " fallback settlement", title + ".fallbackSettlementTaskDetail", "cancelled", 60);
    FollowsConcat(w, base, start, steps, now, fetches, now');
    assert (steps + fetches)[2..] == fetches;
    if settled.Ok? {
      SeenLastIsLast(fetches, "cancelled");
      LastStatusConcat(steps, fetches, "cancelled");
    }
    now, steps := now', steps + fetches;
    r := if settled.Err? then Err(settled.message) else Ok("[fallback cli] " + site.taskPda);
  }

  /** The steps behind the attempts and what they come to: a fetch, and a direct command if it shows the task open and owned. */
  ghost predicate CancelFinishes(
    w: World, base: nat, title: string, site: Site, signer: string, lastError: Option<string>, steps: seq<Step>, r: Result<string>)
  {
    var failure := Err(OrElse(lastError, title + " failed"));
    && steps != [] && steps[0].Fetch? && steps[0].why == Decide
    && if Cancellable(steps[0].task, signer) then
         && |steps| >= 3 && steps[1] == Sleep(20000) && steps[2].Cli?
         && (if steps[2].output.Err? then |steps| == 3
             else SeenLast(steps[3..], "cancelled") || NotSettled(w, base + 3, steps[3..], "cancelled", 60))
         && r == if IsStatus(steps[|steps| - 1], "cancelled") then Ok("[fallback cli] " + site.taskPda) else failure
       else
         && |steps| == 1
         && r == if IsStatus(steps[0], "cancelled") && steps[0].task.value.creator.Some? then Ok(OrElse(lastError, title)) else failure
  }

  lemma FinishAlone(w: World, base: nat, title: string, site: Site, signer: string, lastError: Option<string>, fetch: Step)
    requires fetch.Fetch? && fetch.why == Decide
    ensures !Cancellable(fetch.task, signer) ==>
              CancelFinishes(w, base, title, site, signer, lastError, [fetch],
                if IsStatus(fetch, "cancelled") && fetch.task.value.creator.Some? then Ok(OrElse(lastError, title))
                else Err(OrElse(lastError, title + " failed")))
  {}

  lemma FinishDirectly(
    w: World, base: nat, title: string, site: Site, signer: string, lastError: Option<string>, fetch: Step, direct: seq<Step>,
    r: Result<string>)
    requires fetch.Fetch? && fetch.why == Decide && Cancellable(fetch.task, signer)
    requires |direct| >= 2 && direct[0] == Sleep(20000) && direct[1].Cli?
    requires if direct[1].output.Err? then |direct| == 2
             else SeenLast(direct[2..], "cancelled") || NotSettled(w, base + 3, direct[2..], "cancelled", 60)
    requires r == if IsStatus(direct[|direct| - 1], "cancelled") then Ok("[fallback cli] " + site.taskPda)
                  else Err(OrElse(lastError, title + " failed"))
    ensures CancelFinishes(w, base, title, site, signer, lastError, [fetch] + direct, r)
  {
    hide NotSettled, SeenLast, Cancellable;
    var steps := [fetch] + direct;
    assert steps[3..] == direct[2..] && steps[2] == direct[1] && steps[1] == direct[0];
  }

  lemma FetchShows(fetch: Step, status: string)
    requires IsStatus(fetch, status)
    ensures LastStatusIs([fetch], status)
  {
    assert SeenLast([fetch], status);
    SeenLastIsLast([fetch], status);
  }

  lemma QuietAlone(step: Step, status: string)
    ensures QuietAfter([step], status)
  {}

  /** The part of `cancelTaskViaTui` behind the loop: a fetch, and a direct command if that fetch licenses it. */
  method FinishCancel(w: World, base: nat, start: nat, title: string, site: Site, signer: string, lastError: Option<string>)
    returns (r: Result<string>, now: nat, steps: seq<Step>)
    ensures Follows(w, base, start, steps, now) && steps != [] && steps[0].Fetch? && NoneOf(steps, SessionKind)
    ensures forall k :: 0 <= k < |steps| && steps[k].Cli? ==>
                          k == 2 && Cancellable(steps[0].task, signer) && steps[1] == Sleep(20000)
    ensures Count(steps, CliKind) <= 1 && QuietAfter(steps, "cancelled")
    ensures r.Ok? ==> LastStatusIs(steps, "cancelled")
    ensures r.Err? ==> r.message == OrElse(lastError, title + " failed")
    ensures CancelFinishes(w, base, title, site, signer, lastError, steps, r)
  {
    hide Follows, Count, LastStatusIs, QuietAfter, NotSettled, CancelFinishes, Unseen;
    assert QuietAfter([Fetch(w.fetch(base), Decide)], "cancelled") by { QuietAlone(Fetch(w.fetch(base), Decide), "cancelled"); }
    var task := w.fetch(base);
    var fetch := Fetch(task, Decide);
    FollowsNothing(w, base, start);
    FollowsStep(w, base, start, [], start, fetch);
    now, steps := start + Duration(w, base, fetch), [fetch];
    assert [] + [fetch] == steps;
    CountOne(fetch, CliKind);
    var failure := Err(OrElse(lastError, title + " failed"));
    FinishAlone(w, base, title, site, signer, lastError, fetch);
    if task.Err? || task.value.status.None? || task.value.creator.None? { return failure, now, steps; }
    if task.value.status.value == "cancelled" {
      FetchShows(fetch, "cancelled");
      return Ok(OrElse(lastError, title)), now, steps;
    }
    if !(task.value.status.value == "open" && task.value.creator.value == signer) { return failure, now, steps; }
    var done, now', direct := CancelDirectly(w, base + 1, now, title, site);
    FollowsConcat(w, base, start, [fetch], now, direct, now');
    DirectAfterFetch(fetch, direct);
    if done.Ok? { LastStatusConcat([fetch], direct, "cancelled"); }
    now, steps := now', [fetch] + direct;
    r := if done.Ok? then done else failure;
    FinishDirectly(w, base, title, site, signer, lastError, fetch, direct, r);
  }

  /** A direct command behind a fetch that did not show the task cancelled. */
  lemma DirectAfterFetch(fetch: Step, direct: seq<Step>)
    requires fetch.Fetch? && !IsStatus(fetch, "cancelled")
    requires |direct| >= 2 && direct[0].Sleep? && direct[1].Cli? && Only(direct[2..], {FetchKind, SleepKind})
    ensures var steps := [fetch] + direct;
            && NoneOf(steps, SessionKind) && Count(steps, CliKind) <= 1 && QuietAfter(steps, "cancelled")
            && forall k :: 0 <= k < |steps| && steps[k].Cli? ==> k == 2
  {
    hide Count;
    var steps, rest := [fetch] + direct, direct[2..];
    assert forall i :: 0 <= i < |rest| ==> !rest[i].Cli? && !rest[i].Session?;
    assert forall i :: 3 <= i < |steps| ==> steps[i] == rest[i - 3];
    assert steps == [fetch, direct[0]] + [direct[1]] + rest;
    CountAround([fetch, direct[0]], direct[1], rest, CliKind);
  }

  // ---------------------------------------------------------------- the whole protocol

  /** Every direct command comes 20 seconds after a fetch that showed the task open and owned by the signer. */
  ghost predicate CancelLicensed(trace: seq<Step>, signer: string) {
    forall k :: 0 <= k < |trace| && trace[k].Cli? ==>
                  k >= 2 && trace[k - 2].Fetch? && Cancellable(trace[k - 2].task, signer) && trace[k - 1] == Sleep(20000)
  }

  lemma LicensedBehind(trace: seq<Step>, steps: seq<Step>, signer: string)
    requires NoneOf(trace, CliKind) && steps != [] && steps[0].Fetch?
    requires forall k :: 0 <= k < |steps| && steps[k].Cli? ==>
                           k == 2 && Cancellable(steps[0].task, signer) && steps[1] == Sleep(20000)
    ensures CancelLicensed(trace + steps, signer)
  {
    hide Cancellable;
    var all := trace + steps;
    assert forall i :: 0 <= i < |trace| ==> trace[i].Kind() != CliKind;
    forall k | 0 <= k < |all| && all[k].Cli?
      ensures k >= 2 && all[k - 2].Fetch? && Cancellable(all[k - 2].task, signer) && all[k - 1] == Sleep(20000)
    {
      assert steps[k - |trace|].Cli?;
      assert all[k - 2] == steps[0] && all[k - 1] == steps[1];
    }
  }

  /** An attempt adds one session and no command, and stops where the task is seen cancelled. */
  lemma AddsOneSession(trace: seq<Step>, steps: seq<Step>)
    requires steps != [] && steps[0].Session? && NoneOf(steps[1..], SessionKind) && NoneOf(steps, CliKind)
    requires Unseen(trace, "cancelled") && (SeenLast(steps, "cancelled") || Unseen(steps, "cancelled"))
    ensures Count(trace + steps, SessionKind) == Count(trace, SessionKind) + 1
    ensures Count(trace + steps, CliKind) == Count(trace, CliKind)
    ensures QuietAfter(trace + steps, "cancelled")
  {
    hide Count;
    CountBoth(trace, steps);
    assert steps == [] + [steps[0]] + steps[1..];
    CountAround([], steps[0], steps[1..], SessionKind);
    CountAbsent(steps, CliKind);
    assert forall i :: 0 <= i < |steps| - 1 ==> !IsStatus(steps[i], "cancelled") by {
      assert forall i :: 0 <= i < |steps| - 1 ==> steps[i] == steps[..|steps| - 1][i];
    }
  }

  /** The last attempt begins at `p` and comes to this. */
  ghost predicate SettledAt(
    title: string, site: Site, signer: string, maxAttempts: int, trace: seq<Step>, p: nat, d: Decision<string>)
    requires p < |trace|
  {
    && trace[p].Session? && NoneOf(trace[p + 1..], SessionKind)
    && d == CancelGives(title, site, signer, Count(trace[..p], SessionKind) + 1 == maxAttempts, trace[p..])
  }

  /** The error with which the attempts ended, if there were any. */
  ghost predicate EndedWith(
    title: string, site: Site, signer: string, maxAttempts: int, before: seq<Step>, lastError: Option<string>)
  {
    match lastError
    case None => before == [] && maxAttempts <= 0
    case Some(error) =>
      exists p :: 0 <= p < |before| && SettledAt(title, site, signer, maxAttempts, before, p, Break(error))
  }

  ghost predicate FinishedAt(
    w: World, title: string, site: Site, signer: string, maxAttempts: int, trace: seq<Step>, p: nat, lastError: Option<string>, r: Result<string>)
    requires p <= |trace|
  {
    && EndedWith(title, site, signer, maxAttempts, trace[..p], lastError)
    && CancelFinishes(w, p, title, site, signer, lastError, trace[p..], r)
  }

  /** The result is the one that the trace gives. */
  ghost predicate Resolved(
    w: World, title: string, site: Site, signer: string, maxAttempts: int, trace: seq<Step>, r: Result<string>)
  {
    || (exists p, d :: 0 <= p < |trace| && SettledAt(title, site, signer, maxAttempts, trace, p, d) && Outcome(d) == Some(r))
    || exists p, lastError :: 0 <= p <= |trace| && FinishedAt(w, title, site, signer, maxAttempts, trace, p, lastError, r)
  }

  lemma SettledBehind(
    title: string, site: Site, signer: string, maxAttempts: int, trace: seq<Step>, steps: seq<Step>, d: Decision<string>)
    requires steps != [] && steps[0].Session? && NoneOf(steps[1..], SessionKind)
    requires d == CancelGives(title, site, signer, Count(trace, SessionKind) + 1 == maxAttempts, steps)
    ensures SettledAt(title, site, signer, maxAttempts, trace + steps, |trace|, d)
  {
    hide CancelGives, Count;
    var all, p := trace + steps, |trace|;
    assert all[..p] == trace && all[p..] == steps && all[p + 1..] == steps[1..];
  }

  lemma EndedBehind(
    title: string, site: Site, signer: string, maxAttempts: int, trace: seq<Step>, p: nat, error: string)
    requires p < |trace| && SettledAt(title, site, signer, maxAttempts, trace, p, Break(error))
    ensures EndedWith(title, site, signer, maxAttempts, trace, Some(error))
  {
    hide SettledAt;
  }

  lemma ResolvedBehind(
    w: World, title: string, site: Site, signer: string, maxAttempts: int, trace: seq<Step>, p: nat, d: Decision<string>, r: Result<string>)
    requires p < |trace| && SettledAt(title, site, signer, maxAttempts, trace, p, d) && Outcome(d) == Some(r)
    ensures Resolved(w, title, site, signer, maxAttempts, trace, r)
  {
    hide SettledAt, FinishedAt;
  }

  lemma FinishedBehind(
    w: World, title: string, site: Site, signer: string, maxAttempts: int, trace: seq<Step>, lastError: Option<string>,
    steps: seq<Step>, r: Result<string>)
    requires EndedWith(title, site, signer, maxAttempts, trace, lastError)
    requires CancelFinishes(w, |trace|, title, site, signer, lastError, steps, r)
    ensures Resolved(w, title, site, signer, maxAttempts, trace + steps, r)
  {
    hide EndedWith, CancelFinishes, SettledAt;
    var all, p := trace + steps, |trace|;
    assert all[..p] == trace && all[p..] == steps;
    assert FinishedAt(w, title, site, signer, maxAttempts, all, p, lastError, r);
  }

  lemma NeverTried(title: string, site: Site, signer: string, maxAttempts: int)
    requires maxAttempts <= 0
    ensures EndedWith(title, site, signer, maxAttempts, [], None)
  {}

  /** What all attempts keep. */
  ghost predicate Sound(w: World, start: nat, title: string, signer: string, trace: seq<Step>, now: nat) {
    Follows(w, 0, start, trace, now) && NoneOf(trace, CliKind) && SafeCancels(w, title, signer, trace)
  }

  lemma SoundMore(
    w: World, start: nat, title: string, signer: string, trace: seq<Step>, now: nat, steps: seq<Step>, now': nat)
    requires Sound(w, start, title, signer, trace, now) && (trace == [] || CancelEarned(w, title, signer, trace))
    requires Follows(w, |trace|, now, steps, now') && NoneOf(steps, CliKind)
    requires steps != [] && NoneOf(steps[1..], SessionKind)
    ensures Sound(w, start, title, signer, trace + steps, now')
  {
    hide Follows, SafeCancels, CancelEarned;
    FollowsConcat(w, 0, start, trace, now, steps, now');
    SafeExtend(w, title, signer, trace, steps);
  }

  lemma SoundNothing(w: World, start: nat, title: string, signer: string)
    ensures Sound(w, start, title, signer, [], start)
  {}

  /** The loop of `cancelTaskViaTui`; without a result the attempts have ended. */
  method TryAll(w: World, start: nat, title: string, site: Site, signer: string, maxAttempts: int)
    returns (r: Option<Result<string>>, lastError: Option<string>, now: nat, trace: seq<Step>)
    ensures Sound(w, start, title, signer, trace, now)
    ensures Count(trace, SessionKind) <= (if maxAttempts > 0 then maxAttempts else 0) && QuietAfter(trace, "cancelled")
    ensures r.Some? ==> Resolved(w, title, site, signer, maxAttempts, trace, r.value)
    ensures r.Some? && r.value.Ok? ==> LastStatusIs(trace, "cancelled")
    ensures r.None? ==> Unseen(trace, "cancelled") && EndedWith(title, site, signer, maxAttempts, trace, lastError)
    ensures maxAttempts > 0 && CancelsAtOnce(w, 0, title) ==>
              r == Some(Ok(w.session(0).value)) && trace == [Session(w.session(0)), Fetch(w.fetch(1), Settlement)]
  {
    hide Sound, Follows, Count, LastStatusIs, QuietAfter, CancelEarned, EarnsCancel, Unseen, SeenLast;
    hide CancelGives, SettledAt, EndedWith, Resolved, CancelsAtOnce;
    lastError, now, trace := None, start, [];
    CountAbsent([], SessionKind);
    SoundNothing(w, start, title, signer);
    NothingCancelled();
    var attempt := 1;
    while attempt <= maxAttempts
      invariant 1 <= attempt && (attempt <= maxAttempts || attempt == 1)
      invariant if attempt == 1 then trace == [] && lastError.None? else !CancelsAtOnce(w, 0, title)
      invariant Sound(w, start, title, signer, trace, now) && Unseen(trace, "cancelled") && QuietAfter(trace, "cancelled")
      invariant Count(trace, SessionKind) == attempt - 1 && (trace == [] || CancelEarned(w, title, signer, trace))
      decreases maxAttempts - attempt
    {
      var d, now', steps := TryCancel(w, |trace|, now, title, site, signer, attempt, attempt == maxAttempts);
      SoundMore(w, start, title, signer, trace, now, steps, now');
      AddsOneSession(trace, steps);
      SettledBehind(title, site, signer, maxAttempts, trace, steps, d);
      if trace == [] { assert trace + steps == steps; }
      var all := trace + steps;
      match d
      case Return(text) =>
        SeenLastIsLast(steps, "cancelled");
        LastStatusConcat(trace, steps, "cancelled");
        ResolvedBehind(w, title, site, signer, maxAttempts, all, |trace|, d, Ok(text));
        return Some(Ok(text)), lastError, now', all;
      case Throw(message) =>
        ResolvedBehind(w, title, site, signer, maxAttempts, all, |trace|, d, Err(message));
        return Some(Err(message)), lastError, now', all;
      case Break(error) =>
        UnseenConcat(trace, steps, "cancelled");
        EndedBehind(title, site, signer, maxAttempts, all, |trace|, error);
        return None, Some(error), now', all;
      case Retry(error) =>
        UnseenConcat(trace, steps, "cancelled");
        EarnedBehind(w, title, signer, trace, steps);
        lastError, now, trace, attempt := Some(error), now', all, attempt + 1;
    }
    NeverTried(title, site, signer, maxAttempts);
    r := None;
  }

  lemma NothingCancelled()
    ensures Unseen([], "cancelled") && QuietAfter([], "cancelled")
  {}

  lemma UnseenConcat(a: seq<Step>, b: seq<Step>, status: string)
    requires Unseen(a, status) && Unseen(b, status)
    ensures Unseen(a + b, status)
  {}

  /** `cancelTaskViaTui`, from an empty trace. */
  method CancelTaskViaTui(
    w: World, start: nat, title: string, site: Site, signer: string, maxAttempts: int := 3)
    returns (r: Result<string>, trace: seq<Step>)
    ensures Genuine(w, 0, trace)
    ensures Count(trace, SessionKind) <= (if maxAttempts > 0 then maxAttempts else 0) && Count(trace, CliKind) <= 1
    ensures SafeCancels(w, title, signer, trace) && CancelLicensed(trace, signer) && QuietAfter(trace, "cancelled")
    ensures r.Ok? ==> LastStatusIs(trace, "cancelled")
    ensures Resolved(w, title, site, signer, maxAttempts, trace, r)
    ensures maxAttempts > 0 && CancelsAtOnce(w, 0, title) ==>
              r == Ok(w.session(0).value) && trace == [Session(w.session(0)), Fetch(w.fetch(1), Settlement)]
  {
    hide Follows, Genuine, Elapsed, Count, LastStatusIs, QuietAfter, Cancellable, SafeCancels, CancelsAtOnce;
    hide CancelFinishes, EndedWith, Resolved;
    var settled, lastError, now, tried := TryAll(w, start, title, site, signer, maxAttempts);
    FollowsGenuinely(w, 0, start, tried, now);
    CountAbsent(tried, CliKind);
    if settled.Some? { return settled.value, tried; }
    var done, now', steps := FinishCancel(w, |tried|, now, title, site, signer, lastError);
    CountBoth(tried, steps);
    CountAbsent(steps, SessionKind);
    FollowsConcat(w, 0, start, tried, now, steps, now');
    FollowsGenuinely(w, 0, start, tried + steps, now');
    SafeExtend(w, title, signer, tried, steps);
    LicensedBehind(tried, steps, signer);
    FinishedBehind(w, title, site, signer, maxAttempts, tried, lastError, steps, done);
    QuietConcat(tried, steps, "cancelled");
    if done.Ok? { LastStatusConcat(tried, steps, "cancelled"); }
    r, trace := done, tried + steps;
  }
}
