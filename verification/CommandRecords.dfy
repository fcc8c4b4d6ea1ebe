/**
 What a command's row says, field by field: which calls put it there, when it timed out,
 and exactly what each call does to it.
 */
module CommandRecords {
  import opened Common
  import opened Commands
  import opened CommandRuns

  // ---------------------------------------------------------------- each call, written out

  /** A live cycle command of the device: submitted, accepted or completed. */
  predicate Cycling(c: Command, device: string) {
    && c.device == device && (c.kind.CycleStart? || c.kind.CycleStop?)
    && (c.status.Submitted? || c.status.Accepted? || c.status.Completed?)
  }

  /** The latest live cycle command of the device is a start. */
  ghost predicate Running(cs: seq<Command>, device: string) {
    exists i: nat | i < |cs| ::
      Cycling(cs[i], device) && cs[i].kind.CycleStart? && forall k | i < k < |cs| :: !Cycling(cs[k], device)
  }

  predicate Repeats(c: Command, q: Request) {
    c.kind == q.kind && c.device == q.device && c.key == q.key
  }

  predicate Awaits(c: Command, q: Request) {
    c.kind == q.kind && c.device == q.device && (c.status.Submitted? || c.status.Accepted?)
  }

  ghost predicate Repeated(cs: seq<Command>, q: Request) {
    exists c <- cs :: Repeats(c, q)
  }

  ghost predicate Awaited(cs: seq<Command>, q: Request) {
    exists c <- cs :: Awaits(c, q)
  }

  /** What a submission may answer, given the rows it finds, and in which order the checks come. */
  ghost predicate Answers(cs: seq<Command>, q: Request, id: string, r: Outcome) {
    if q.device != "AXIS-04" then r.DeviceNotFound?
    else if Repeated(cs, q) then r.Replayed? && r.command in cs && Repeats(r.command, q)
    else if Awaited(cs, q) then r.Conflict? && exists c <- cs :: Awaits(c, q) && c.commandId == r.pendingId
    else if q.kind.CycleStart? && Running(cs, q.device) then r.CycleRunning?
    else if exists c <- cs :: c.commandId == id then r.IntegrityError?
    else r.Created?
  }

  lemma RunningIs(cs: seq<Command>, device: string)
    ensures IsCycleRunning(cs, device) <==> Running(cs, device)
  {
    var last := Latest(cs, (c: Command) => LiveCycle(c, device));
    assert forall c: Command :: LiveCycle(c, device) <==> Cycling(c, device);
    hide LiveCycle, Cycling;
    if Running(cs, device) {
      var i: nat :| i < |cs| && Cycling(cs[i], device) && cs[i].kind.CycleStart?
                    && forall k | i < k < |cs| :: !Cycling(cs[k], device);
      assert last == Some(i);
    }
  }

  lemma RepeatedIs(cs: seq<Command>, q: Request)
    ensures var i := ByIdempotency(cs, q);
            && (i.Some? <==> Repeated(cs, q))
            && (i.Some? ==> i.value < |cs| && cs[i.value] in cs && Repeats(cs[i.value], q))
  {
    var i := ByIdempotency(cs, q);
    if i.Some? { assert cs[i.value] in cs && Repeats(cs[i.value], q); }
    if Repeated(cs, q) {
      var k :| 0 <= k < |cs| && Repeats(cs[k], q);
      assert SameKey(cs[k], q);
    }
  }

  lemma AwaitedIs(cs: seq<Command>, q: Request)
    ensures var i := ActivePending(cs, q.device, q.kind);
            && (i.Some? <==> Awaited(cs, q))
            && (i.Some? ==> i.value < |cs| && cs[i.value] in cs && Awaits(cs[i.value], q))
  {
    var i := ActivePending(cs, q.device, q.kind);
    if i.Some? { assert cs[i.value] in cs && Awaits(cs[i.value], q); }
    if Awaited(cs, q) {
      var k :| 0 <= k < |cs| && Awaits(cs[k], q);
      assert InFlight(cs[k].status);
    }
  }

  lemma KnownIs(cs: seq<Command>, id: string)
    ensures ById(cs, id).Some? <==> exists c <- cs :: c.commandId == id
  {
    if exists c <- cs :: c.commandId == id {
      var i :| 0 <= i < |cs| && cs[i].commandId == id;
    }
  }

  /**
   A submission is answered by the first check it fails, in the order written above, and
   changes nothing then; one that fails none adds exactly this row and this log row.
   */
  lemma SubmitsExactly(db: Db, q: Request, id: string, now: int)
    ensures var (n, r) := Submitting(db, q, id, now);
            && Answers(db.commands, q, id, r)
            && (!r.Created? ==> n == db)
            && (r.Created? ==>
                  var urgent := q.kind.SafetyStopRequest?;
                  var c := Command(id, q.kind, q.device, q.key, q.operator, Submitted, if urgent then 5 else 10, urgent,
                                   now, None, None, None);
                  && r.command == c && n.commands == db.commands + [c]
                  && n.log == db.log + [LogRow(OfCommand(q.kind, None), Some(id), Submitted)])
  {
    RunningIs(db.commands, q.device);
    RepeatedIs(db.commands, q);
    AwaitedIs(db.commands, q);
    KnownIs(db.commands, id);
    hide ByIdempotency, ActivePending, IsCycleRunning, ById, Running, Repeated, Awaited, Repeats, Awaits;
  }

  /** The log row of a move. */
  function MoveRow(c: Command, to: Status): LogRow {
    LogRow(OfCommand(c.kind, Some(to)), Some(c.commandId), to)
  }

  /** The row changed and the move logged, if it may be made. */
  function Changed(db: Db, i: nat, may: bool, c: Command): Db
    requires i < |db.commands|
  {
    if may then Db(db.commands[i := c], db.log + [MoveRow(c, c.status)]) else db
  }

  /** Exactly what each move does to the row of its id, and from which states it is made. */
  lemma MovesExactly(db: Db, i: nat, result: string, now: int)
    requires i < |db.commands| && DistinctIds(db.commands)
    ensures var c := db.commands[i];
            var id, waiting, accepted := c.commandId, c.status.Submitted?, c.status.Accepted?;
            && Apply(db, Accept(id, now))
               == Changed(db, i, waiting, c.(status := Accepted, acceptedAt := Some(now)))
            && Apply(db, Complete(id, result, now))
               == Changed(db, i, accepted, c.(status := Completed, completedAt := Some(now), result := Some(result)))
            && Apply(db, Fail(id, result, now))
               == Changed(db, i, accepted, c.(status := Failed, completedAt := Some(now), result := Some(result)))
            && Apply(db, MarkTimeout(id, now))
               == Changed(db, i, waiting || accepted,
                          c.(status := TimedOut, completedAt := Some(now), result := Some("timeout")))
  {
    assert ById(db.commands, db.commands[i].commandId) == Some(i);
    hide ById, DistinctIds;
  }

  /** A call for an id that no row has changes nothing. */
  lemma UnknownId(db: Db, id: string, result: string, now: int)
    requires forall c <- db.commands :: c.commandId != id
    ensures Apply(db, Accept(id, now)) == Apply(db, MarkTimeout(id, now)) == db
    ensures Apply(db, Complete(id, result, now)) == Apply(db, Fail(id, result, now)) == db
  {
    KnownIs(db.commands, id);
    hide ById;
  }

  /**
   A scan, in terms of the deadline: a command still in flight whose window of seconds has
   elapsed is timed out at the time of the scan, and every other row is as it was.
   */
  lemma ScanByDeadline(db: Db, now: int)
    ensures var n := Apply(db, Scan(now)).commands;
            && |n| == |db.commands|
            && forall i: nat | i < |n| ::
                 var c := db.commands[i];
                 n[i] == if (c.status.Submitted? || c.status.Accepted?) && now >= c.submittedAt + c.window * 1_000_000
                         then c.(status := TimedOut, completedAt := Some(now), result := Some("timeout")) else c
  {
    ScanExact(db, now);
    hide Scanning;
  }

  /** The legal paths are these seven. */
  lemma LegalPaths(path: seq<Status>)
    ensures LegalPath(path) <==>
            || path == [Submitted] || path == [Submitted, Accepted] || path == [Submitted, Rejected]
            || path == [Submitted, TimedOut] || path == [Submitted, Accepted, Completed]
            || path == [Submitted, Accepted, Failed] || path == [Submitted, Accepted, TimedOut]
  {
    var n := |path|;
    if n == 2 {
      assert path[..1] == [path[0]];
      assert path == [path[0], path[1]];
    } else if n == 3 {
      assert path[..2][..1] == [path[0]] && path[..2] == [path[0], path[1]];
      assert path == [path[0], path[1], path[2]];
    } else if n > 3 && LegalPath(path) {
      LongerThanThree(path);
    }
  }

  lemma LongerThanThree(path: seq<Status>)
    requires |path| > 3
    ensures !LegalPath(path)
  {
    if LegalPath(path) { PathIsShort(path, path[|path| - 1]); }
  }

  // ---------------------------------------------------------------- where a row comes from

  ghost predicate Submission(c: Command, calls: seq<Call>) {
    exists q: Request :: Submit(q, c.commandId, c.submittedAt) in calls
                         && q == Request(c.kind, c.device, c.key, c.operator)
  }

  /** The confirm window: five seconds for a safety stop, ten for everything else. */
  predicate WindowOk(c: Command) {
    c.window == (if c.kind.SafetyStopRequest? then 5 else 10) && (c.highRisk <==> c.kind.SafetyStopRequest?)
  }

  /** Timed out by a scan no earlier than the deadline, or by name. */
  predicate TimedOutBy(c: Command, calls: seq<Call>, t: int) {
    || (Scan(t) in calls && t >= c.submittedAt + c.window * 1_000_000)
    || MarkTimeout(c.commandId, t) in calls
  }

  predicate EndOk(c: Command, calls: seq<Call>) {
    match c.status
    case Submitted => c.acceptedAt.None? && c.completedAt.None? && c.result.None?
    case Accepted => c.acceptedAt.Some? && c.completedAt.None? && c.result.None?
    case Completed =>
      && c.acceptedAt.Some? && c.completedAt.Some? && c.result.Some?
      && Complete(c.commandId, c.result.value, c.completedAt.value) in calls
    case Failed =>
      && c.acceptedAt.Some? && c.completedAt.Some? && c.result.Some?
      && Fail(c.commandId, c.result.value, c.completedAt.value) in calls
    case TimedOut =>
      c.completedAt.Some? && c.result == Some("timeout") && TimedOutBy(c, calls, c.completedAt.value)
    case Rejected => false
  }

  /** Every field of the row is what some call of the run put there. */
  ghost predicate Explained(c: Command, calls: seq<Call>) {
    && Submission(c, calls) && WindowOk(c) && EndOk(c, calls)
    && (c.acceptedAt.Some? ==> Accept(c.commandId, c.acceptedAt.value) in calls)
  }

  ghost predicate AllExplained(cs: seq<Command>, calls: seq<Call>) {
    forall i: nat | i < |cs| :: Explained(cs[i], calls)
  }

  lemma ExplainedMore(c: Command, calls: seq<Call>, call: Call)
    requires Explained(c, calls)
    ensures Explained(c, calls + [call])
  {
    assert forall x: Call :: x in calls ==> x in calls + [call];
    hide TimedOutBy;
    if c.status.TimedOut? { TimedOutMore(c, calls, call, c.completedAt.value); }
    var q: Request :| Submit(q, c.commandId, c.submittedAt) in calls
                      && q == Request(c.kind, c.device, c.key, c.operator);
    assert Submit(q, c.commandId, c.submittedAt) in calls + [call];
  }

  lemma TimedOutMore(c: Command, calls: seq<Call>, call: Call, t: int)
    requires TimedOutBy(c, calls, t)
    ensures TimedOutBy(c, calls + [call], t)
  {
  }

  /** A row that call `call` moves on. */
  lemma ExplainedMove(c: Command, calls: seq<Call>, call: Call, m: Command)
    requires Explained(c, calls)
    requires
      || (call.Accept? && call.id == c.commandId && c.status.Submitted?
          && m == c.(status := Accepted, acceptedAt := Some(call.now)))
      || (call.Complete? && call.id == c.commandId && c.status.Accepted?
          && m == c.(status := Completed, completedAt := Some(call.now), result := Some(call.result)))
      || (call.Fail? && call.id == c.commandId && c.status.Accepted?
          && m == c.(status := Failed, completedAt := Some(call.now), result := Some(call.result)))
      || (((call.MarkTimeout? && call.id == c.commandId)
           || (call.Scan? && call.now >= c.submittedAt + c.window * 1_000_000))
          && (c.status.Submitted? || c.status.Accepted?)
          && m == c.(status := TimedOut, completedAt := Some(call.now), result := Some("timeout")))
    ensures Explained(m, calls + [call])
  {
    ExplainedMore(c, calls, call);
    assert call in calls + [call];
    var q: Request :| Submit(q, c.commandId, c.submittedAt) in calls + [call]
                      && q == Request(c.kind, c.device, c.key, c.operator);
    assert Submission(m, calls + [call]);
  }

  lemma ChangedExplained(db: Db, calls: seq<Call>, call: Call, i: nat, may: bool, m: Command)
    requires i < |db.commands| && AllExplained(db.commands, calls) && (may ==> Explained(m, calls + [call]))
    ensures AllExplained(Changed(db, i, may, m).commands, calls + [call])
  {
    hide Explained;
    forall k: nat | k < |db.commands| ensures Explained(db.commands[k], calls + [call]) {
      ExplainedMore(db.commands[k], calls, call);
    }
  }

  lemma MoveExplained(db: Db, calls: seq<Call>, call: Call, id: string)
    requires DistinctIds(db.commands) && AllExplained(db.commands, calls)
    requires (call.Accept? || call.Complete? || call.Fail? || call.MarkTimeout?) && call.id == id
    ensures AllExplained(Apply(db, call).commands, calls + [call])
  {
    hide Explained, Apply, DistinctIds;
    if i: nat :| i < |db.commands| && db.commands[i].commandId == id {
      var c := db.commands[i];
      MovesExactly(db, i, if call.Complete? || call.Fail? then call.result else "", call.now);
      match call
      case Accept(_, now) =>
        var m := c.(status := Accepted, acceptedAt := Some(now));
        if c.status.Submitted? { ExplainedMove(c, calls, call, m); }
        ChangedExplained(db, calls, call, i, c.status.Submitted?, m);
      case Complete(_, result, now) =>
        var m := c.(status := Completed, completedAt := Some(now), result := Some(result));
        if c.status.Accepted? { ExplainedMove(c, calls, call, m); }
        ChangedExplained(db, calls, call, i, c.status.Accepted?, m);
      case Fail(_, result, now) =>
        var m := c.(status := Failed, completedAt := Some(now), result := Some(result));
        if c.status.Accepted? { ExplainedMove(c, calls, call, m); }
        ChangedExplained(db, calls, call, i, c.status.Accepted?, m);
      case MarkTimeout(_, now) =>
        var m := c.(status := TimedOut, completedAt := Some(now), result := Some("timeout"));
        var may := c.status.Submitted? || c.status.Accepted?;
        if may { ExplainedMove(c, calls, call, m); }
        ChangedExplained(db, calls, call, i, may, m);
    } else {
      UnknownId(db, id, if call.Complete? || call.Fail? then call.result else "", call.now);
      SameExplained(db, calls, call);
    }
  }

  lemma SameExplained(db: Db, calls: seq<Call>, call: Call)
    requires AllExplained(db.commands, calls)
    ensures AllExplained(db.commands, calls + [call])
  {
    hide Explained;
    forall k: nat | k < |db.commands| ensures Explained(db.commands[k], calls + [call]) {
      ExplainedMore(db.commands[k], calls, call);
    }
  }

  lemma ScanExplained(db: Db, calls: seq<Call>, now: int)
    requires AllExplained(db.commands, calls)
    ensures AllExplained(Apply(db, Scan(now)).commands, calls + [Scan(now)])
  {
    ScanByDeadline(db, now);
    hide Apply, Explained;
    var n := Apply(db, Scan(now)).commands;
    forall k: nat | k < |n| ensures Explained(n[k], calls + [Scan(now)]) {
      if n[k] == db.commands[k] { ExplainedMore(n[k], calls, Scan(now)); }
      else { ExplainedMove(db.commands[k], calls, Scan(now), n[k]); }
    }
  }

  lemma SubmitExplained(db: Db, calls: seq<Call>, q: Request, id: string, now: int)
    requires AllExplained(db.commands, calls)
    ensures AllExplained(Apply(db, Submit(q, id, now)).commands, calls + [Submit(q, id, now)])
  {
    var call := Submit(q, id, now);
    SubmitsExactly(db, q, id, now);
    SameExplained(db, calls, call);
    hide Submitting, Answers;
    var (n, r) := Submitting(db, q, id, now);
    if r.Created? {
      assert Submit(q, id, now) in calls + [call];
      assert Submission(r.command, calls + [call]) by { assert q == Request(q.kind, q.device, q.key, q.operator); }
      assert Explained(r.command, calls + [call]);
      hide Explained;
    }
  }

  /**
   After any run: every field of every row is what a call of that run put there. A timed
   out command was timed out by a scan no earlier than its deadline, unless by name.
   */
  lemma {:induction false} RunExplained(calls: seq<Call>)
    ensures AllExplained(Run(EMPTY, calls).commands, calls)
    decreases |calls|
  {
    if calls != [] {
      var front, call := calls[..|calls| - 1], calls[|calls| - 1];
      assert front + [call] == calls;
      RunExplained(front);
      CommandRuns.RunKeeps(front);
      var db := Run(EMPTY, front);
      assert DistinctIds(db.commands);
      hide AllExplained, Kept, DistinctIds, Apply;
      match call
      case Submit(q, id, now) => SubmitExplained(db, front, q, id, now);
      case Scan(now) => ScanExplained(db, front, now);
      case OtherRecord(name, outcome) =>
        OtherSame(db, name, outcome);
        SameExplained(db, front, call);
      case Accept(id, now) => MoveExplained(db, front, call, id);
      case Complete(id, result, now) => MoveExplained(db, front, call, id);
      case Fail(id, result, now) => MoveExplained(db, front, call, id);
      case MarkTimeout(id, now) => MoveExplained(db, front, call, id);
    }
  }

  lemma OtherSame(db: Db, name: string, outcome: Status)
    ensures Apply(db, OtherRecord(name, outcome)).commands == db.commands
  {
  }

  /** Only the worker's scan decides timeouts: then none comes before the window of five or ten seconds is over. */
  lemma NeverEarly(calls: seq<Call>, i: nat)
    requires i < |Run(EMPTY, calls).commands| && forall c <- calls :: !c.MarkTimeout?
    ensures var c := Run(EMPTY, calls).commands[i];
            c.status.TimedOut? ==>
              && c.completedAt.Some? && Scan(c.completedAt.value) in calls
              && c.completedAt.value >= c.submittedAt + (if c.kind.SafetyStopRequest? then 5_000_000 else 10_000_000)
  {
    RunExplained(calls);
    var c := Run(EMPTY, calls).commands[i];
    assert Explained(c, calls);
    hide Run, Submission;
    assert forall t: int :: MarkTimeout(c.commandId, t) !in calls;
  }
}
