/**
 Job polling and waves of `scripts/sandbox-fleet-drill.ts`. The sandbox manager is an oracle:
 the reply to every status request and the order in which concurrent callbacks finish are arbitrary.
 */
module FleetDrill {
  import opened Outcomes
  import opened InsertionOrder

  datatype Status = Status(state: string, sandboxId: string, processId: string, durationMs: int)
  datatype JobResult = JobResult(sandboxId: string, sandboxJobId: string, processId: string, durationMs: int)

  /** `status(r, i)` answers the i-th callback of round r; `order(r)` lists the callbacks of round r as they finish. */
  datatype Manager = Manager(status: (nat, nat) -> Result<Status>, order: nat -> seq<nat>, latency: nat -> nat)

  /** Every one of n callbacks finishes once. */
  predicate IsOrder(order: seq<nat>, n: nat) {
    && |order| == n && (forall k :: 0 <= k < n ==> order[k] < n)
    && forall i :: 0 <= i < n ==> i in order
  }

  predicate Exited(reply: Result<Status>) {
    reply.Ok? && reply.value.state == "exited"
  }

  /** The callback throws: the request failed, or the job did. */
  predicate Fails(reply: Result<Status>) {
    reply.Err? || reply.value.state == "failed"
  }

  function Record(id: string, s: Status): JobResult {
    JobResult(s.sandboxId, id, s.processId, s.durationMs)
  }

  /** This record of a job was observed: some callback for it, in an earlier round, saw the job exited. */
  ghost predicate Observed(m: Manager, rounds: nat, ids: seq<string>, result: JobResult) {
    exists r, i :: 0 <= r < rounds && 0 <= i < |ids| && SawExit(m, r, i, ids, result)
  }

  ghost predicate SawExit(m: Manager, r: nat, i: nat, ids: seq<string>, result: JobResult)
    requires i < |ids|
  {
    && m.status(r, i).Ok? && m.status(r, i).value.state == "exited" && result.sandboxJobId == ids[i]
    && var s := m.status(r, i).value;
       result.sandboxId == s.sandboxId && result.processId == s.processId && result.durationMs == s.durationMs
  }

  /** The `completed` map: its keys in insertion order, each with an observed record of that very job. */
  ghost predicate Completed(m: Manager, rounds: nat, ids: seq<string>, keys: seq<string>, values: map<string, JobResult>) {
    && Distinct(keys) && (forall id :: id in keys <==> id in values)
    && forall id :: id in values ==> id in ids && values[id].sandboxJobId == id && Observed(m, rounds, ids, values[id])
  }

  /** Some callback of round r that was still waiting for `id` saw it exited, among those finished. */
  ghost predicate NewlyExited(m: Manager, r: nat, ids: seq<string>, finished: seq<nat>, id: string) {
    exists k :: 0 <= k < |finished| && finished[k] < |ids| && ids[finished[k]] == id && Exited(m.status(r, finished[k]))
  }

  lemma CompletedLater(m: Manager, rounds: nat, ids: seq<string>, keys: seq<string>, values: map<string, JobResult>)
    requires Completed(m, rounds, ids, keys, values)
    ensures Completed(m, rounds + 1, ids, keys, values)
  {}

  lemma CompletedSet(
    m: Manager, r: nat, ids: seq<string>, keys: seq<string>, values: map<string, JobResult>, i: nat)
    requires Completed(m, r + 1, ids, keys, values) && i < |ids| && Exited(m.status(r, i))
    ensures Completed(m, r + 1, ids, AddKey(keys, ids[i]), values[ids[i] := Record(ids[i], m.status(r, i).value)])
  {
    var result := Record(ids[i], m.status(r, i).value);
    assert SawExit(m, r, i, ids, result);
  }

  lemma FinishedOne(m: Manager, r: nat, ids: seq<string>, finished: seq<nat>, i: nat, id: string)
    requires i < |ids|
    ensures NewlyExited(m, r, ids, finished + [i], id)
            <==> NewlyExited(m, r, ids, finished, id) || (ids[i] == id && Exited(m.status(r, i)))
  {
    var more := finished + [i];
    assert more[|finished|] == i;
    if NewlyExited(m, r, ids, finished, id) {
      var k :| 0 <= k < |finished| && finished[k] < |ids| && ids[finished[k]] == id && Exited(m.status(r, finished[k]));
      assert more[k] == finished[k];
    }
  }

  /** The error of a callback that throws. */
  function FailureOf(id: string, reply: Result<Status>): Option<string> {
    match reply
    case Err(message) => Some(message)
    case Ok(s) => if s.state == "failed" then Some("sandbox job " + id + " failed") else None
  }

  /** A callback of this round threw this error. */
  ghost predicate FailsWith(m: Manager, r: nat, ids: seq<string>, error: string) {
    exists i :: 0 <= i < |ids| && FailureOf(ids[i], m.status(r, i)) == Some(error)
  }

  /** The callback of a job still waited for that makes the round throw. */
  ghost predicate RoundFails(m: Manager, r: nat, ids: seq<string>, done: map<string, JobResult>) {
    exists i :: 0 <= i < |ids| && ids[i] !in done && Fails(m.status(r, i))
  }

  /**
   One round: all callbacks test `completed` before any of them waits, then finish in the manager's order.
   Without a failure, a job is completed afterwards if it was before or if a callback of this round saw it exited.
   */
  method PollRound(m: Manager, r: nat, ids: seq<string>, done: map<string, JobResult>, keys: seq<string>)
    returns (error: Option<string>, keys': seq<string>, values: map<string, JobResult>)
    requires IsOrder(m.order(r), |ids|) && Completed(m, r, ids, keys, done)
    ensures Completed(m, r + 1, ids, keys', values)
    ensures error.Some? ==> RoundFails(m, r, ids, done) && FailsWith(m, r, ids, error.value)
    ensures error.None? ==> !RoundFails(m, r, ids, done)
    ensures error.None? ==> forall id :: id in values <==>
                                           id in done || (id !in done && NewlyExited(m, r, ids, m.order(r), id))
  {
    hide Completed, NewlyExited;
    var order := m.order(r);
    keys', values := keys, done;
    CompletedLater(m, r, ids, keys, done);
    forall id ensures !NewlyExited(m, r, ids, order[..0], id) { NothingFinished(m, r, ids, id); }
    for k := 0 to |order|
      invariant Completed(m, r + 1, ids, keys', values)
      invariant forall j :: 0 <= j < k ==> ids[order[j]] in done || !Fails(m.status(r, order[j]))
      invariant forall id :: id in values <==> id in done || (id !in done && NewlyExited(m, r, ids, order[..k], id))
    {
      var i := order[k];
      assert order[..k + 1] == order[..k] + [i];
      forall id ensures NewlyExited(m, r, ids, order[..k + 1], id)
                        <==> NewlyExited(m, r, ids, order[..k], id) || (ids[i] == id && Exited(m.status(r, i)))
      {
        FinishedOne(m, r, ids, order[..k], i, id);
      }
      if ids[i] in done { continue; }
      var status := m.status(r, i);
      if status.Err? {
        error := Some(status.message);
        return;
      }
      if status.value.state != "exited" {
        if status.value.state == "failed" {
          error := Some("sandbox job " + ids[i] + " failed");
          return;
        }
        continue;
      }
      CompletedSet(m, r, ids, keys', values, i);
      var s := status.value;
      keys', values := AddKey(keys', ids[i]), values[ids[i] := JobResult(s.sandboxId, ids[i], s.processId, s.durationMs)];
    }
    assert order[..|order|] == order;
    NoFailure(m, r, ids, done, order);
    error := None;
  }

  lemma NothingFinished(m: Manager, r: nat, ids: seq<string>, id: string)
    ensures !NewlyExited(m, r, ids, [], id)
  {}

  lemma NoFailure(m: Manager, r: nat, ids: seq<string>, done: map<string, JobResult>, order: seq<nat>)
    requires IsOrder(order, |ids|)
    requires forall j :: 0 <= j < |order| ==> ids[order[j]] in done || !Fails(m.status(r, order[j]))
    ensures !RoundFails(m, r, ids, done)
  {
    forall i | 0 <= i < |ids| && ids[i] !in done ensures !Fails(m.status(r, i)) {
      assert i in order;
      var j :| 0 <= j < |order| && order[j] == i;
    }
  }

  // ---------------------------------------------------------------- as many records as jobs

  function Elements(s: seq<string>): set<string> { set x | x in s }

  lemma {:induction false} ElementsCount(s: seq<string>)
    ensures |Elements(s)| <= |s| && (|Elements(s)| == |s| <==> Distinct(s))
  {
    if s != [] {
      var front, last := s[..|s| - 1], s[|s| - 1];
      ElementsCount(front);
      assert s == front + [last];
      assert Elements(s) == Elements(front) + {last};
      DistinctAppend(front, last);
    }
  }

  lemma DistinctAppend(s: seq<string>, x: string)
    ensures Distinct(s + [x]) <==> Distinct(s) && x !in s
  {
    var all := s + [x];
    if x in s {
      var i :| 0 <= i < |s| && s[i] == x;
      assert all[i] == all[|s|];
    }
    if Distinct(all) {
      forall i, j | 0 <= i < j < |s| ensures s[i] != s[j] {
        assert all[i] != all[j];
      }
    }
  }

  /** As many distinct completed jobs as there are ids: then the ids are distinct and all completed. */
  lemma AllCompleted(keys: seq<string>, ids: seq<string>)
    requires Distinct(keys) && (forall id :: id in keys ==> id in ids) && |keys| == |ids|
    ensures Distinct(ids) && Elements(keys) == Elements(ids)
  {
    ElementsCount(keys);
    ElementsCount(ids);
    assert Elements(keys) <= Elements(ids);
    SubsetOfSameSize(Elements(keys), Elements(ids));
  }

  lemma {:induction false} SubsetOfSameSize(a: set<string>, b: set<string>)
    requires a <= b && |a| >= |b|
    ensures a == b
  {
    if b != {} {
      if x :| x in a {
        SubsetOfSameSize(a - {x}, b - {x});
        assert a == (a - {x}) + {x} && b == (b - {x}) + {x};
      }
    }
  }

  /** `results` are exactly one observed record for each of the distinct ids. */
  ghost predicate OneRecordEach(m: Manager, rounds: nat, ids: seq<string>, results: seq<JobResult>) {
    && Distinct(ids) && |results| == |ids|
    && (forall i, j :: 0 <= i < j < |results| ==> results[i].sandboxJobId != results[j].sandboxJobId)
    && (forall k :: 0 <= k < |results| ==> results[k].sandboxJobId in ids && Observed(m, rounds, ids, results[k]))
    && (forall i :: 0 <= i < |ids| ==> HasRecord(results, ids[i]))
  }

  ghost predicate HasRecord(results: seq<JobResult>, id: string) {
    exists k :: 0 <= k < |results| && results[k].sandboxJobId == id
  }

  function Values(keys: seq<string>, values: map<string, JobResult>): (results: seq<JobResult>)
    requires forall id :: id in keys ==> id in values
    ensures |results| == |keys| && forall k :: 0 <= k < |keys| ==> keys[k] in values && results[k] == values[keys[k]]
  {
    seq(|keys|, k requires 0 <= k < |keys| => assert keys[k] in keys; values[keys[k]])
  }

  lemma ReturnedRecords(m: Manager, rounds: nat, ids: seq<string>, keys: seq<string>, values: map<string, JobResult>)
    requires Completed(m, rounds, ids, keys, values) && |keys| == |ids|
    ensures OneRecordEach(m, rounds, ids, Values(keys, values))
  {
    AllCompleted(keys, ids);
    var results := Values(keys, values);
    forall k | 0 <= k < |keys| ensures results[k].sandboxJobId == keys[k] && keys[k] in ids && Observed(m, rounds, ids, results[k]) {
      assert keys[k] in keys;
    }
    forall i | 0 <= i < |ids| ensures HasRecord(results, ids[i]) {
      assert ids[i] in Elements(ids);
      assert ids[i] in Elements(keys);
      var k :| 0 <= k < |keys| && keys[k] == ids[i];
      assert results[k].sandboxJobId == ids[i];
    }
  }

  /** No callback for this job saw it exited. */
  ghost predicate NeverExits(m: Manager, rounds: nat, ids: seq<string>, id: string) {
    forall n, i :: 0 <= n < rounds && 0 <= i < |ids| && ids[i] == id ==> !Exited(m.status(n, i))
  }

  /** Some job was never seen exited, or two jobs share an id and so can never be told apart. */
  ghost predicate NotAllExit(m: Manager, rounds: nat, ids: seq<string>) {
    !Distinct(ids) || exists id :: id in ids && NeverExits(m, rounds, ids, id)
  }

  lemma NoneExits(m: Manager, ids: seq<string>, id: string)
    ensures NeverExits(m, 0, ids, id)
  {}

  lemma StillRuns(m: Manager, r: nat, ids: seq<string>, id: string)
    requires IsOrder(m.order(r), |ids|) && NeverExits(m, r, ids, id) && !NewlyExited(m, r, ids, m.order(r), id)
    ensures NeverExits(m, r + 1, ids, id)
  {
    forall i | 0 <= i < |ids| && ids[i] == id ensures !Exited(m.status(r, i)) {
      assert i in m.order(r);
      var k :| 0 <= k < |m.order(r)| && m.order(r)[k] == i;
    }
  }

  lemma SomeRuns(m: Manager, rounds: nat, ids: seq<string>, keys: seq<string>, values: map<string, JobResult>)
    requires Completed(m, rounds, ids, keys, values) && |keys| != |ids|
    requires forall id :: id in values || NeverExits(m, rounds, ids, id)
    ensures NotAllExit(m, rounds, ids)
  {
    if Distinct(ids) && forall id :: id in ids ==> id in values {
      assert Elements(keys) == Elements(ids);
      ElementsCount(keys);
      ElementsCount(ids);
    }
  }

  /** The time that this many rounds take, each with the pause behind it. */
  function Polled(m: Manager, pollIntervalMs: nat, rounds: nat): nat {
    if rounds == 0 then 0
    else Polled(m, pollIntervalMs, rounds - 1) + m.latency(rounds - 1) + if pollIntervalMs > 0 then pollIntervalMs else 1
  }

  /** No round was begun later than this. */
  ghost predicate AskedInTime(m: Manager, pollIntervalMs: nat, timeoutMs: nat, rounds: nat) {
    forall n :: 0 <= n < rounds ==> Polled(m, pollIntervalMs, n) <= timeoutMs
  }

  /** `waitForJobsToExit`; a timer of the event loop never fires in less than a millisecond. */
  method WaitForJobsToExit(m: Manager, ids: seq<string>, timeoutMs: nat, pollIntervalMs: nat, start: nat)
    returns (r: Result<seq<JobResult>>, rounds: nat, now: nat)
    requires forall n :: IsOrder(m.order(n), |ids|)
    ensures r.Ok? ==> OneRecordEach(m, rounds, ids, r.value)
    ensures r.Err? ==>
              || (now > start + timeoutMs && NotAllExit(m, rounds, ids) && now == start + Polled(m, pollIntervalMs, rounds))
              || (rounds > 0 && FailsWith(m, rounds - 1, ids, r.message))
    ensures AskedInTime(m, pollIntervalMs, timeoutMs, rounds)
  {
    hide Completed, OneRecordEach, IsOrder, Fails, NeverExits, NewlyExited, FailsWith;
    var keys: seq<string>, values: map<string, JobResult> := [], map[];
    now, rounds := start, 0;
    NoneCompleted(m, ids);
    forall id ensures NeverExits(m, 0, ids, id) { NoneExits(m, ids, id); }
    while now <= start + timeoutMs
      invariant now == start + Polled(m, pollIntervalMs, rounds) && AskedInTime(m, pollIntervalMs, timeoutMs, rounds)
      invariant Completed(m, rounds, ids, keys, values)
      invariant forall id :: id in values || NeverExits(m, rounds, ids, id)
      invariant if rounds == 0 then now == start else |keys| != |ids|
      decreases start + timeoutMs - now
    {
      var error, keys', values' := PollRound(m, rounds, ids, values, keys);
      now, rounds := now + m.latency(rounds), rounds + 1;
      if error.Some? { return Err(error.value), rounds, now; }
      forall id | id !in values' ensures NeverExits(m, rounds, ids, id) {
        StillRuns(m, rounds - 1, ids, id);
      }
      keys, values := keys', values';
      if |keys| == |ids| {
        assert forall id :: id in keys ==> id in values by { KeysAreValues(m, rounds, ids, keys, values); }
        ReturnedRecords(m, rounds, ids, keys, values);
        return Ok(Values(keys, values)), rounds, now;
      }
      now := now + if pollIntervalMs > 0 then pollIntervalMs else 1;
    }
    SomeRuns(m, rounds, ids, keys, values);
    r := Err("sandbox fleet drill timed out");
  }

  lemma NoneCompleted(m: Manager, ids: seq<string>)
    ensures Completed(m, 0, ids, [], map[])
  {}

  lemma KeysAreValues(m: Manager, rounds: nat, ids: seq<string>, keys: seq<string>, values: map<string, JobResult>)
    requires Completed(m, rounds, ids, keys, values)
    ensures forall id :: id in keys ==> id in values
  {}

  // ---------------------------------------------------------------- waves

  datatype Wave = Wave(sandboxesStarted: nat, jobsStarted: nat, jobsCompleted: nat, jobResults: seq<JobResult>)

  /** What the manager answers when a wave starts sandboxes and jobs and stops sandboxes, and how the job starts interleave. */
  datatype Launcher = Launcher(
    sandbox: nat -> Result<string>,
    job: (nat, nat) -> Result<string>,
    jobOrder: nat -> seq<nat>,
    stop: nat -> Result<bool>)

  /** Sandbox `s` is up; all starts are requested together, so one that fails does not keep others from succeeding. */
  predicate Up(l: Launcher, s: nat) {
    l.sandbox(s).Ok?
  }

  predicate AllUp(l: Launcher, sandboxes: nat) {
    forall s :: 0 <= s < sandboxes ==> Up(l, s)
  }

  predicate NoneUp(l: Launcher, sandboxes: nat) {
    forall s :: 0 <= s < sandboxes ==> !Up(l, s)
  }

  /** Starting the sandboxes: `Promise.all` keeps the order, and fails if one of them fails. */
  method StartSandboxes(l: Launcher, sandboxes: nat) returns (r: Result<seq<string>>)
    ensures r.Ok? <==> AllUp(l, sandboxes)
    ensures r.Ok? ==> |r.value| == sandboxes && forall s :: 0 <= s < sandboxes ==> l.sandbox(s) == Ok(r.value[s])
  {
    var started: seq<string> := [];
    for s := 0 to sandboxes
      invariant |started| == s && forall i :: 0 <= i < s ==> l.sandbox(i) == Ok(started[i])
    {
      var sandbox := l.sandbox(s);
      if sandbox.Err? {
        assert !Up(l, s);
        return Err(sandbox.message);
      }
      started := started + [sandbox.value];
    }
    r := Ok(started);
  }

  /** The i-th job of sandbox `s` to be started has the id that the list holds in its place. */
  predicate HoldsAt(l: Launcher, jobsPerSandbox: nat, ids: seq<string>, s: nat, i: nat) {
    var at := s * jobsPerSandbox + i;
    at < |ids| && i < |l.jobOrder(s)| && l.job(s, l.jobOrder(s)[i]) == Ok(ids[at])
  }

  /** The ids of all jobs, one sandbox after the other, in the order in which they were started. */
  ghost predicate ListsJobs(l: Launcher, sandboxes: nat, jobsPerSandbox: nat, ids: seq<string>) {
    && |ids| == sandboxes * jobsPerSandbox
    && forall s, i :: 0 <= s < sandboxes && 0 <= i < jobsPerSandbox ==> HoldsAt(l, jobsPerSandbox, ids, s, i)
  }

  predicate IsJob(sandboxes: nat, jobsPerSandbox: nat, s: nat, j: nat) {
    s < sandboxes && j < jobsPerSandbox
  }

  /** Every job has an id of the list, every id of the list is that of a job, and different jobs have different ids. */
  ghost predicate OneIdPerJob(l: Launcher, sandboxes: nat, jobsPerSandbox: nat, ids: seq<string>) {
    && (forall s, j :: IsJob(sandboxes, jobsPerSandbox, s, j) ==> l.job(s, j).Ok? && l.job(s, j).value in ids)
    && (forall id :: id in ids ==> IsIdOfJob(l, sandboxes, jobsPerSandbox, id))
    && forall s, j, t, k :: IsJob(sandboxes, jobsPerSandbox, s, j) && IsJob(sandboxes, jobsPerSandbox, t, k) ==>
                              l.job(s, j) == l.job(t, k) ==> s == t && j == k
  }

  ghost predicate IsIdOfJob(l: Launcher, sandboxes: nat, jobsPerSandbox: nat, id: string) {
    exists s, j :: IsJob(sandboxes, jobsPerSandbox, s, j) && l.job(s, j) == Ok(id)
  }

  lemma RowBelow(s: nat, t: nat, width: nat, i: nat)
    requires s < t && i < width
    ensures s * width + i < t * width
  {
    assert (s + 1) * width <= t * width;
  }

  lemma RowsGrow(s: nat, t: nat, width: nat)
    requires s <= t
    ensures s * width <= t * width
  {}

  lemma SamePlace(s: nat, i: nat, t: nat, k: nat, width: nat)
    requires i < width && k < width && s * width + i == t * width + k
    ensures s == t && i == k
  {
    if s < t { RowBelow(s, t, width, i); }
    if t < s { RowBelow(t, s, width, k); }
  }

  lemma ListsNothing(l: Launcher, jobsPerSandbox: nat)
    ensures ListsJobs(l, 0, jobsPerSandbox, [])
  {}

  lemma ListsMore(l: Launcher, s: nat, jobsPerSandbox: nat, ids: seq<string>, more: seq<string>)
    requires ListsJobs(l, s, jobsPerSandbox, ids) && |more| == jobsPerSandbox == |l.jobOrder(s)|
    requires forall i :: 0 <= i < |more| ==> l.job(s, l.jobOrder(s)[i]) == Ok(more[i])
    ensures ListsJobs(l, s + 1, jobsPerSandbox, ids + more)
  {
    assert (s + 1) * jobsPerSandbox == s * jobsPerSandbox + jobsPerSandbox;
    forall t, i | 0 <= t < s + 1 && 0 <= i < jobsPerSandbox ensures HoldsAt(l, jobsPerSandbox, ids + more, t, i) {
      if t < s {
        RowBelow(t, s, jobsPerSandbox, i);
        assert HoldsAt(l, jobsPerSandbox, ids, t, i);
      } else {
        assert (ids + more)[s * jobsPerSandbox + i] == more[i];
      }
    }
  }

  /** The place of a job in the list. */
  lemma PlaceOf(l: Launcher, sandboxes: nat, jobsPerSandbox: nat, ids: seq<string>, s: nat, j: nat) returns (i: nat)
    requires ListsJobs(l, sandboxes, jobsPerSandbox, ids) && IsOrder(l.jobOrder(s), jobsPerSandbox)
    requires IsJob(sandboxes, jobsPerSandbox, s, j)
    ensures i < jobsPerSandbox && l.jobOrder(s)[i] == j && s * jobsPerSandbox + i < |ids|
    ensures l.job(s, j) == Ok(ids[s * jobsPerSandbox + i])
  {
    assert j in l.jobOrder(s);
    i :| 0 <= i < |l.jobOrder(s)| && l.jobOrder(s)[i] == j;
    assert HoldsAt(l, jobsPerSandbox, ids, s, i);
  }

  /** The job at a place of the list. */
  lemma JobAt(l: Launcher, sandboxes: nat, jobsPerSandbox: nat, ids: seq<string>, at: nat)
    requires ListsJobs(l, sandboxes, jobsPerSandbox, ids) && forall s :: IsOrder(l.jobOrder(s), jobsPerSandbox)
    requires at < |ids|
    ensures IsIdOfJob(l, sandboxes, jobsPerSandbox, ids[at])
  {
    assert jobsPerSandbox > 0;
    var s, i := at / jobsPerSandbox, at % jobsPerSandbox;
    assert at == s * jobsPerSandbox + i;
    if s >= sandboxes { RowsGrow(sandboxes, s, jobsPerSandbox); }
    assert HoldsAt(l, jobsPerSandbox, ids, s, i);
    var j := l.jobOrder(s)[i];
    assert IsOrder(l.jobOrder(s), jobsPerSandbox);
    assert IsJob(sandboxes, jobsPerSandbox, s, j) && l.job(s, j) == Ok(ids[at]);
  }

  lemma EveryJobIsListed(l: Launcher, sandboxes: nat, jobsPerSandbox: nat, ids: seq<string>)
    requires ListsJobs(l, sandboxes, jobsPerSandbox, ids) && forall s :: IsOrder(l.jobOrder(s), jobsPerSandbox)
    ensures |ids| == sandboxes * jobsPerSandbox
    ensures forall s, j :: IsJob(sandboxes, jobsPerSandbox, s, j) ==> l.job(s, j).Ok? && l.job(s, j).value in ids
  {
    forall s, j | IsJob(sandboxes, jobsPerSandbox, s, j) ensures l.job(s, j).Ok? && l.job(s, j).value in ids {
      assert IsOrder(l.jobOrder(s), jobsPerSandbox);
      var i := PlaceOf(l, sandboxes, jobsPerSandbox, ids, s, j);
    }
  }

  /** A list of all jobs without repetition gives every job its own id. */
  lemma ListGivesOneIdPerJob(l: Launcher, sandboxes: nat, jobsPerSandbox: nat, ids: seq<string>)
    requires ListsJobs(l, sandboxes, jobsPerSandbox, ids) && forall s :: IsOrder(l.jobOrder(s), jobsPerSandbox)
    requires Distinct(ids)
    ensures OneIdPerJob(l, sandboxes, jobsPerSandbox, ids)
  {
    hide IsOrder, ListsJobs, IsIdOfJob;
    forall id | id in ids ensures IsIdOfJob(l, sandboxes, jobsPerSandbox, id) {
      var at :| 0 <= at < |ids| && ids[at] == id;
      JobAt(l, sandboxes, jobsPerSandbox, ids, at);
    }
    EveryJobIsListed(l, sandboxes, jobsPerSandbox, ids);
    forall s, j, t, k | IsJob(sandboxes, jobsPerSandbox, s, j) && IsJob(sandboxes, jobsPerSandbox, t, k)
                        && l.job(s, j) == l.job(t, k)
      ensures s == t && j == k
    {
      var i := PlaceOf(l, sandboxes, jobsPerSandbox, ids, s, j);
      var m := PlaceOf(l, sandboxes, jobsPerSandbox, ids, t, k);
      SamePlace(s, i, t, m, jobsPerSandbox);
    }
  }

  /** The loop that starts the jobs: every sandbox pushes as many ids as it has jobs. */
  method StartJobs(l: Launcher, sandboxes: nat, jobsPerSandbox: nat) returns (r: Result<seq<string>>)
    requires forall s :: IsOrder(l.jobOrder(s), jobsPerSandbox)
    ensures r.Ok? ==> |r.value| == sandboxes * jobsPerSandbox && ListsJobs(l, sandboxes, jobsPerSandbox, r.value)
    ensures r.Ok? ==> forall s, j :: IsJob(sandboxes, jobsPerSandbox, s, j) ==> l.job(s, j).Ok? && l.job(s, j).value in r.value
    ensures r.Err? ==> exists s, j :: 0 <= s < sandboxes && 0 <= j < jobsPerSandbox && l.job(s, j) == Err(r.message)
  {
    hide ListsJobs;
    var ids: seq<string> := [];
    ListsNothing(l, jobsPerSandbox);
    for s := 0 to sandboxes
      invariant ListsJobs(l, s, jobsPerSandbox, ids)
    {
      var started := StartJobsOf(l, s, jobsPerSandbox);
      if started.Err? { return Err(started.message); }
      assert IsOrder(l.jobOrder(s), jobsPerSandbox);
      ListsMore(l, s, jobsPerSandbox, ids, started.value);
      ids := ids + started.value;
    }
    EveryJobIsListed(l, sandboxes, jobsPerSandbox, ids);
    r := Ok(ids);
  }

  method StartJobsOf(l: Launcher, s: nat, jobsPerSandbox: nat) returns (r: Result<seq<string>>)
    requires IsOrder(l.jobOrder(s), jobsPerSandbox)
    ensures r.Ok? ==>
              |r.value| == jobsPerSandbox && forall i :: 0 <= i < jobsPerSandbox ==> l.job(s, l.jobOrder(s)[i]) == Ok(r.value[i])
    ensures r.Err? ==> exists j :: 0 <= j < jobsPerSandbox && l.job(s, j) == Err(r.message)
  {
    var order := l.jobOrder(s);
    var ids: seq<string> := [];
    for k := 0 to |order|
      invariant |ids| == k && forall i :: 0 <= i < k ==> l.job(s, order[i]) == Ok(ids[i])
    {
      var started := l.job(s, order[k]);
      if started.Err? { return Err(started.message); }
      ids := ids + [started.value];
    }
    r := Ok(ids);
  }

  /** The `finally` block: every sandbox is asked to stop, and a request that fails is ignored. */
  method StopSandboxes(l: Launcher, sandboxIds: seq<string>) returns (requested: seq<string>, stopped: set<nat>)
    ensures requested == sandboxIds
    ensures stopped == set s: nat | s < |sandboxIds| && l.stop(s).Ok?
  {
    requested, stopped := [], {};
    for s := 0 to |sandboxIds|
      invariant requested == sandboxIds[..s]
      invariant stopped == set t: nat | t < s && l.stop(t).Ok?
    {
      requested := requested + [sandboxIds[s]];
      var reply := l.stop(s);
      if reply.Ok? { stopped := stopped + {s}; }
    }
  }

  /** The `try` block: a run that returns has completed exactly the jobs it started, one record each. */
  method RunJobs(
    l: Launcher, m: Manager, sandboxes: nat, jobsPerSandbox: nat, timeoutSeconds: nat, pollIntervalMs: nat, start: nat)
    returns (r: Result<Wave>, now: nat, ghost rounds: nat, ghost ids: seq<string>)
    requires forall s :: IsOrder(l.jobOrder(s), jobsPerSandbox)
    requires forall n :: IsOrder(m.order(n), sandboxes * jobsPerSandbox)
    ensures r.Ok? ==>
              && r.value.sandboxesStarted == sandboxes
              && r.value.jobsStarted == r.value.jobsCompleted == sandboxes * jobsPerSandbox == |ids|
              && OneRecordEach(m, rounds, ids, r.value.jobResults)
              && ListsJobs(l, sandboxes, jobsPerSandbox, ids) && OneIdPerJob(l, sandboxes, jobsPerSandbox, ids)
    ensures r.Err? ==>
              || (&& now > start + timeoutSeconds * 1000 && NotAllExit(m, rounds, ids)
                  && now == start + Polled(m, pollIntervalMs, rounds))
              || (exists s, j :: 0 <= s < sandboxes && 0 <= j < jobsPerSandbox && l.job(s, j) == Err(r.message))
              || exists n :: 0 <= n < rounds && FailsWith(m, n, ids, r.message)
    ensures AskedInTime(m, pollIntervalMs, timeoutSeconds * 1000, rounds)
  {
    hide IsOrder, OneIdPerJob, NotAllExit, FailsWith, Polled;
    now, rounds, ids := start, 0, [];
    var jobIds := StartJobs(l, sandboxes, jobsPerSandbox);
    if jobIds.Err? { return Err(jobIds.message), now, rounds, ids; }
    var results, n, now' := WaitForJobsToExit(m, jobIds.value, timeoutSeconds * 1000, pollIntervalMs, start);
    now, rounds, ids := now', n, jobIds.value;
    if results.Err? { return Err(results.message), now, rounds, ids; }
    ListGivesOneIdPerJob(l, sandboxes, jobsPerSandbox, ids);
    r := Ok(Wave(sandboxes, |jobIds.value|, |results.value|, results.value));
  }

  /**
   `runWave`. Every sandbox that came up is asked to stop if and only if all of them came up or none did:
   when only some do, they are left running. It is stopped if and only if, besides, its request succeeds.
   */
  method RunWave(
    l: Launcher, m: Manager, sandboxes: nat, jobsPerSandbox: nat, timeoutSeconds: nat, pollIntervalMs: nat, start: nat)
    returns (
      r: Result<Wave>, requested: seq<string>, stopped: set<nat>, now: nat, ghost rounds: nat, ghost ids: seq<string>)
    requires forall s :: IsOrder(l.jobOrder(s), jobsPerSandbox)
    requires forall n :: IsOrder(m.order(n), sandboxes * jobsPerSandbox)
    ensures r.Ok? ==>
              && AllUp(l, sandboxes) && r.value.sandboxesStarted == sandboxes
              && r.value.jobsStarted == r.value.jobsCompleted == sandboxes * jobsPerSandbox == |ids|
              && OneRecordEach(m, rounds, ids, r.value.jobResults)
              && ListsJobs(l, sandboxes, jobsPerSandbox, ids) && OneIdPerJob(l, sandboxes, jobsPerSandbox, ids)
    ensures r.Err? && AllUp(l, sandboxes) ==>
              || (&& now > start + timeoutSeconds * 1000 && NotAllExit(m, rounds, ids)
                  && now == start + Polled(m, pollIntervalMs, rounds))
              || (exists s, j :: 0 <= s < sandboxes && 0 <= j < jobsPerSandbox && l.job(s, j) == Err(r.message))
              || exists n :: 0 <= n < rounds && FailsWith(m, n, ids, r.message)
    ensures AskedInTime(m, pollIntervalMs, timeoutSeconds * 1000, rounds)
    ensures AllUp(l, sandboxes) ==>
              |requested| == sandboxes && forall s :: 0 <= s < sandboxes ==> l.sandbox(s) == Ok(requested[s])
    ensures (forall s :: 0 <= s < sandboxes && Up(l, s) ==> l.sandbox(s).value in requested)
            <==> AllUp(l, sandboxes) || NoneUp(l, sandboxes)
    ensures (forall s: nat :: s < sandboxes && Up(l, s) ==> s in stopped)
            <==> (AllUp(l, sandboxes) && forall s :: 0 <= s < sandboxes ==> l.stop(s).Ok?) || NoneUp(l, sandboxes)
  {
    hide IsOrder, OneRecordEach, ListsJobs, OneIdPerJob, NotAllExit, FailsWith, Polled;
    now, rounds, ids, requested, stopped := start, 0, [], [], {};
    var started := StartSandboxes(l, sandboxes);
    if started.Err? { return Err(started.message), requested, stopped, now, rounds, ids; }
    r, now, rounds, ids := RunJobs(l, m, sandboxes, jobsPerSandbox, timeoutSeconds, pollIntervalMs, start);
    requested, stopped := StopSandboxes(l, started.value);
    assert forall s :: 0 <= s < sandboxes ==> requested[s] in requested;
    assert forall s: nat :: s < sandboxes ==> Up(l, s) && (s in stopped <==> l.stop(s).Ok?);
  }
}
