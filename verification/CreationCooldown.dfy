/** `waitForTaskCreationCooldown` and its use in `createTaskViaTui`, `scripts/marketplace-tui-devnet-smoke.ts`. */
module CreationCooldown {

  /** One call: when it was made, when its session started, when the call ended, and whether it recorded a creation. */
  datatype Session = Session(signer: string, called: int, started: int, ended: int, recorded: bool)

  /** A call: its signer, the time before it, the time behind the cooldown, its success, and by how much a sleep runs over. */
  datatype Call = Call(signer: string, idleMs: nat, workMs: nat, succeeds: bool, oversleepMs: nat)

  /** The j-th session started a cooldown after the i-th call ended. */
  predicate Apart(log: seq<Session>, cooldownSeconds: int, i: nat, j: nat)
    requires i < |log| && j < |log|
  {
    log[j].started >= log[i].ended + cooldownSeconds * 1000
  }

  /** A session starts a cooldown after every recorded creation of its signer. */
  ghost predicate SpacedOut(log: seq<Session>, cooldownSeconds: int) {
    forall i, j :: 0 <= i < j < |log| && log[i].signer == log[j].signer && log[i].recorded ==> Apart(log, cooldownSeconds, i, j)
  }

  /** The i-th call, or a later one of its signer before the j-th, recorded a creation. */
  ghost predicate RecordedSince(log: seq<Session>, i: nat, j: nat)
    requires i < j <= |log|
  {
    exists k :: i <= k < j && log[k].signer == log[i].signer && log[k].recorded
  }

  /**
   Exactly when two sessions of a signer are a cooldown apart: when a creation was recorded in between,
   or when the second call was itself made that much later.
   */
  ghost predicate SpacedExactly(log: seq<Session>, cooldownSeconds: int) {
    forall i, j :: 0 <= i < j < |log| && log[i].signer == log[j].signer ==>
                     (Apart(log, cooldownSeconds, i, j)
                      <==> RecordedSince(log, i, j) || log[j].called >= log[i].ended + cooldownSeconds * 1000)
  }

  lemma ExactlyIsSpacedOut(log: seq<Session>, cooldownSeconds: int)
    requires SpacedExactly(log, cooldownSeconds)
    ensures SpacedOut(log, cooldownSeconds)
  {
    forall i, j | 0 <= i < j < |log| && log[i].signer == log[j].signer && log[i].recorded
      ensures Apart(log, cooldownSeconds, i, j)
    {
      assert RecordedSince(log, i, j);
    }
  }

  /** Calls come one after the other, none later than now. */
  ghost predicate InOrder(log: seq<Session>, now: int) {
    && (forall i :: 0 <= i < |log| ==> log[i].called <= log[i].started <= log[i].ended <= now)
    && forall i, j :: 0 <= i < j < |log| ==> log[i].ended <= log[j].called
  }

  /** The map bounds the recorded creations of every signer, and no cooldown is pending behind a call that recorded none. */
  ghost predicate Tracks(createdAt: map<string, int>, log: seq<Session>, cooldownSeconds: int) {
    && (forall i :: 0 <= i < |log| && log[i].recorded ==> log[i].signer in createdAt && log[i].ended <= createdAt[log[i].signer])
    && forall i :: 0 <= i < |log| && !RecordedSince(log, i, |log|) && log[i].signer in createdAt && cooldownSeconds > 0 ==>
                     createdAt[log[i].signer] + cooldownSeconds * 1000 <= log[i].started
  }

  /** The session waited for the cooldown, and for nothing else. */
  predicate Waited(createdAt: map<string, int>, cooldownSeconds: int, s: Session) {
    if cooldownSeconds > 0 && s.signer in createdAt && s.called < createdAt[s.signer] + cooldownSeconds * 1000
    then s.started >= createdAt[s.signer] + cooldownSeconds * 1000 + 1000
    else s.started == s.called
  }

  /** The driver's clock, its record of creations, and a log of its sessions. */
  class TaskCreator {
    var taskCreationMsBySigner: map<string, int>
    var now: int
    var log: seq<Session>

    ghost predicate Valid(cooldownSeconds: int)
      reads this
    {
      InOrder(log, now) && Tracks(taskCreationMsBySigner, log, cooldownSeconds) && SpacedExactly(log, cooldownSeconds)
    }

    constructor (start: int)
      ensures now == start && log == [] && taskCreationMsBySigner == map[]
      ensures forall cooldownSeconds :: Valid(cooldownSeconds)
    {
      taskCreationMsBySigner, now, log := map[], start, [];
    }

    /** `waitForTaskCreationCooldown`: afterwards the cooldown of this signer has passed; with none pending no time is spent. */
    method WaitForTaskCreationCooldown(signerKey: string, cooldownSeconds: int, oversleepMs: nat)
      modifies this`now
      ensures now >= old(now)
      ensures signerKey in taskCreationMsBySigner && 0 < cooldownSeconds
              && old(now) < taskCreationMsBySigner[signerKey] + cooldownSeconds * 1000
              ==> now == taskCreationMsBySigner[signerKey] + cooldownSeconds * 1000 + 1000 + oversleepMs
      ensures (signerKey !in taskCreationMsBySigner || cooldownSeconds <= 0
               || taskCreationMsBySigner[signerKey] + cooldownSeconds * 1000 <= old(now)) ==> now == old(now)
    {
      if cooldownSeconds <= 0 { return; }
      if signerKey !in taskCreationMsBySigner { return; }
      var remainingMs := taskCreationMsBySigner[signerKey] + cooldownSeconds * 1000 - now;
      if remainingMs <= 0 { return; }
      now := now + remainingMs + 1000 + oversleepMs;
    }

    /** `createTaskViaTui`, as far as the record is concerned: a creation is recorded when it has succeeded. */
    method CreateTaskViaTui(call: Call, cooldownSeconds: int)
      requires Valid(cooldownSeconds)
      modifies this
      ensures Valid(cooldownSeconds) && now >= old(now)
      ensures |log| == |old(log)| + 1 && log[..|log| - 1] == old(log)
      ensures log[|log| - 1] == Session(call.signer, old(now), log[|log| - 1].started, now, call.succeeds)
      ensures Waited(old(taskCreationMsBySigner), cooldownSeconds, log[|log| - 1])
      ensures taskCreationMsBySigner
              == if call.succeeds then old(taskCreationMsBySigner)[call.signer := now] else old(taskCreationMsBySigner)
    {
      hide Tracks, SpacedExactly, InOrder;
      var called := now;
      WaitForTaskCreationCooldown(call.signer, cooldownSeconds, call.oversleepMs);
      var session := Session(call.signer, called, now, now + call.workMs, call.succeeds);
      SessionIsSpaced(log, taskCreationMsBySigner, session, cooldownSeconds);
      SessionIsTracked(log, taskCreationMsBySigner, session, cooldownSeconds);
      log := log + [session];
      now := now + call.workMs;
      if call.succeeds {
        taskCreationMsBySigner := taskCreationMsBySigner[call.signer := now];
      }
    }

    /** Any sequence of calls keeps the sessions of each signer apart exactly as far as `SpacedExactly` says. */
    method CreateAll(calls: seq<Call>, cooldownSeconds: int)
      requires Valid(cooldownSeconds)
      modifies this
      ensures Valid(cooldownSeconds) && SpacedExactly(log, cooldownSeconds) && SpacedOut(log, cooldownSeconds)
      ensures old(log) <= log && |log| == |old(log)| + |calls|
    {
      hide Tracks, SpacedExactly;
      for i := 0 to |calls|
        invariant Valid(cooldownSeconds) && old(log) <= log && |log| == |old(log)| + i
      {
        now := now + calls[i].idleMs;
        CreateTaskViaTui(calls[i], cooldownSeconds);
      }
      ExactlyIsSpacedOut(log, cooldownSeconds);
    }
  }

  /** One more session, and how far it is from the earlier ones of its signer. */
  lemma SessionIsSpaced(log: seq<Session>, createdAt: map<string, int>, s: Session, cooldownSeconds: int)
    requires InOrder(log, s.called) && Tracks(createdAt, log, cooldownSeconds) && SpacedExactly(log, cooldownSeconds)
    requires s.called <= s.started <= s.ended && Waited(createdAt, cooldownSeconds, s)
    ensures InOrder(log + [s], s.ended) && SpacedExactly(log + [s], cooldownSeconds)
  {
    var all, n := log + [s], |log|;
    forall i, j | 0 <= i < j < |all| && all[i].signer == all[j].signer
      ensures Apart(all, cooldownSeconds, i, j)
              <==> RecordedSince(all, i, j) || all[j].called >= all[i].ended + cooldownSeconds * 1000
    {
      SameRecord(log, s, i, j);
      if j < n {
        assert Apart(log, cooldownSeconds, i, j) == Apart(all, cooldownSeconds, i, j);
      } else {
        LastIsSpaced(log, createdAt, s, cooldownSeconds, i);
      }
    }
  }

  lemma SameRecord(log: seq<Session>, s: Session, i: nat, j: nat)
    requires i < j <= |log|
    ensures RecordedSince(log + [s], i, j) == RecordedSince(log, i, j)
  {
    var all := log + [s];
    assert forall k :: 0 <= k < |log| ==> all[k] == log[k];
    if k :| i <= k < j && log[k].signer == log[i].signer && log[k].recorded {
      assert all[k].recorded;
    }
  }

  lemma LastIsSpaced(log: seq<Session>, createdAt: map<string, int>, s: Session, cooldownSeconds: int, i: nat)
    requires InOrder(log, s.called) && Tracks(createdAt, log, cooldownSeconds)
    requires s.called <= s.started && Waited(createdAt, cooldownSeconds, s)
    requires i < |log| && log[i].signer == s.signer
    ensures s.started >= log[i].ended + cooldownSeconds * 1000
            <==> RecordedSince(log, i, |log|) || s.called >= log[i].ended + cooldownSeconds * 1000
  {
    hide InOrder, Tracks, RecordedSince;
    if RecordedSince(log, i, |log|) {
      RecordedInMap(log, createdAt, cooldownSeconds, s.called, i);
    } else {
      NothingPending(log, createdAt, cooldownSeconds, s.called, i);
    }
  }

  lemma RecordedInMap(log: seq<Session>, createdAt: map<string, int>, cooldownSeconds: int, now: int, i: nat)
    requires InOrder(log, now) && Tracks(createdAt, log, cooldownSeconds) && i < |log| && RecordedSince(log, i, |log|)
    ensures log[i].signer in createdAt && log[i].ended <= createdAt[log[i].signer] && log[i].ended <= now
  {
    var k :| i <= k < |log| && log[k].signer == log[i].signer && log[k].recorded;
    assert log[i].ended <= log[k].ended <= createdAt[log[i].signer];
  }

  lemma NothingPending(log: seq<Session>, createdAt: map<string, int>, cooldownSeconds: int, now: int, i: nat)
    requires InOrder(log, now) && Tracks(createdAt, log, cooldownSeconds) && i < |log| && !RecordedSince(log, i, |log|)
    ensures cooldownSeconds > 0 && log[i].signer in createdAt ==> createdAt[log[i].signer] + cooldownSeconds * 1000 <= now
  {}

  /** One more session, and the map that then holds. */
  lemma SessionIsTracked(log: seq<Session>, createdAt: map<string, int>, s: Session, cooldownSeconds: int)
    requires InOrder(log, s.called) && Tracks(createdAt, log, cooldownSeconds)
    requires s.called <= s.started <= s.ended && Waited(createdAt, cooldownSeconds, s)
    ensures Tracks(if s.recorded then createdAt[s.signer := s.ended] else createdAt, log + [s], cooldownSeconds)
  {
    var all, n := log + [s], |log|;
    forall i | 0 <= i < n
      ensures RecordedSince(all, i, n + 1) <==> RecordedSince(log, i, n) || (s.recorded && s.signer == log[i].signer)
    {
      SameRecord(log, s, i, n);
      if RecordedSince(all, i, n) {
        var k :| i <= k < n && all[k].signer == all[i].signer && all[k].recorded;
      }
      if s.recorded && s.signer == log[i].signer { assert all[n].recorded; }
    }
    if s.recorded { assert all[n].recorded && RecordedSince(all, n, n + 1); }
  }

  /** A call that fails lets the next session of its signer start at once, however long the cooldown. */
  method FailureSkipsCooldown(signer: string, workMs: nat, cooldownSeconds: nat) returns (c: TaskCreator)
    requires cooldownSeconds > 0
    ensures fresh(c) && |c.log| == 2 && c.log[0].signer == c.log[1].signer == signer
    ensures c.log[1].started == c.log[0].ended && !Apart(c.log, cooldownSeconds, 0, 1)
  {
    c := new TaskCreator(0);
    c.CreateTaskViaTui(Call(signer, 0, workMs, false, 0), cooldownSeconds);
    c.CreateTaskViaTui(Call(signer, 0, workMs, true, 0), cooldownSeconds);
  }
}
