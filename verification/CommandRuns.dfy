/** What every run of command calls keeps, and what a timeout scan does. */
module CommandRuns {
  import opened Common
  import opened Commands

  // ---------------------------------------------------------------- the log of one command

  /** The results logged for a command, in order. */
  function Trace(log: seq<LogRow>, id: string): seq<Status>
    decreases |log|
  {
    if log == [] then []
    else
      var n := |log| - 1;
      if log[n].commandId == Some(id) then Trace(log[..n], id) + [log[n].result] else Trace(log[..n], id)
  }

  /** From submission along legal moves. */
  predicate LegalPath(path: seq<Status>)
    decreases |path|
  {
    var n := |path|;
    if n <= 1 then path == [Submitted] else LegalPath(path[..n - 1]) && Legal(path[n - 2], path[n - 1])
  }

  /** A legal path that ends in the given status. */
  predicate EndsIn(path: seq<Status>, s: Status) {
    LegalPath(path) && path != [] && path[|path| - 1] == s
  }

  lemma PathAppend(path: seq<Status>, s: Status, to: Status)
    requires EndsIn(path, s) && Legal(s, to)
    ensures EndsIn(path + [to], to)
  {
    var p := path + [to];
    assert p[..|p| - 1] == path;
  }

  lemma TraceAppend(log: seq<LogRow>, r: LogRow, id: string)
    ensures Trace(log + [r], id) == if r.commandId == Some(id) then Trace(log, id) + [r.result] else Trace(log, id)
  {
    assert (log + [r])[..|log|] == log;
  }

  /** A command moves at most twice after its submission. */
  lemma PathIsShort(path: seq<Status>, s: Status)
    requires EndsIn(path, s)
    ensures |path| <= 3 && (s.Submitted? ==> |path| == 1) && (s.Accepted? ==> |path| == 2)
    decreases |path|
  {
    if |path| > 1 {
      PathIsShort(path[..|path| - 1], path[|path| - 2]);
    }
  }

  // ---------------------------------------------------------------- invariants

  ghost predicate DistinctIds(cs: seq<Command>) {
    forall i, j | 0 <= i < j < |cs| :: cs[i].commandId != cs[j].commandId
  }

  predicate SameSlot(c: Command, d: Command) {
    c.kind == d.kind && c.device == d.device
  }

  /** The unique constraint on (type, device, key). */
  ghost predicate UniqueKeys(cs: seq<Command>) {
    forall i, j | 0 <= i < j < |cs| :: !(SameSlot(cs[i], cs[j]) && cs[i].key == cs[j].key)
  }

  /** At most one command of a (device, type) awaits confirmation. */
  ghost predicate OnePending(cs: seq<Command>) {
    forall i, j | 0 <= i < j < |cs| :: !(SameSlot(cs[i], cs[j]) && InFlight(cs[i].status) && InFlight(cs[j].status))
  }

  predicate LiveStart(c: Command) {
    c.kind.CycleStart? && Live(c.status)
  }

  ghost predicate StopBetween(cs: seq<Command>, i: int, j: int) {
    exists k | i < k < j && 0 <= k < j < |cs| :: cs[k].kind.CycleStop? && cs[k].device == cs[j].device
  }

  /** Two live cycle starts of a device have a cycle stop between them. */
  ghost predicate CyclesSeparated(cs: seq<Command>) {
    forall i, j | 0 <= i < j < |cs| && LiveStart(cs[i]) && LiveStart(cs[j]) && cs[i].device == cs[j].device ::
      StopBetween(cs, i, j)
  }

  ghost predicate HasId(cs: seq<Command>, id: string) {
    exists i | 0 <= i < |cs| :: cs[i].commandId == id
  }

  predicate Agrees(log: seq<LogRow>, c: Command) {
    EndsIn(Trace(log, c.commandId), c.status)
  }

  /** The status of a command is the last result logged for it, at the end of a legal path. */
  ghost predicate Replays(db: Db) {
    && (forall i | 0 <= i < |db.commands| :: Agrees(db.log, db.commands[i]))
    && (forall id | Trace(db.log, id) != [] :: HasId(db.commands, id))
  }

  ghost predicate Kept(db: Db) {
    DistinctIds(db.commands) && UniqueKeys(db.commands) && OnePending(db.commands) && CyclesSeparated(db.commands)
      && Replays(db)
  }

  // ---------------------------------------------------------------- submission

  lemma SubmitKeepsRows(db: Db, q: Request, id: string, now: int)
    requires Kept(db) && Submitting(db, q, id, now).1.Created?
    ensures var cs := Submitting(db, q, id, now).0.commands;
            DistinctIds(cs) && UniqueKeys(cs) && OnePending(cs)
  {
    hide CyclesSeparated, Replays;
    NewRow(db.commands, NewCommand(q, id, now), q);
  }

  lemma NewRow(cs: seq<Command>, c: Command, q: Request)
    requires DistinctIds(cs) && UniqueKeys(cs) && OnePending(cs)
    requires c.kind == q.kind && c.device == q.device && c.key == q.key
    requires ById(cs, c.commandId).None? && ByIdempotency(cs, q).None? && ActivePending(cs, q.device, q.kind).None?
    ensures DistinctIds(cs + [c]) && UniqueKeys(cs + [c]) && OnePending(cs + [c])
  {
    var all := cs + [c];
    forall i: nat | i < |cs|
      ensures cs[i].commandId != c.commandId
      ensures !(SameSlot(cs[i], c) && cs[i].key == c.key)
      ensures !(SameSlot(cs[i], c) && InFlight(cs[i].status))
    {
    }
    hide ById, ByIdempotency, ActivePending, SameSlot, InFlight;
  }

  lemma SubmitSeparates(db: Db, q: Request, id: string, now: int)
    requires CyclesSeparated(db.commands) && Submitting(db, q, id, now).1.Created?
    ensures CyclesSeparated(Submitting(db, q, id, now).0.commands)
  {
    var cs, c := db.commands, NewCommand(q, id, now);
    var all := cs + [c];
    forall i, j | 0 <= i < j < |all| && LiveStart(all[i]) && LiveStart(all[j]) && all[i].device == all[j].device
      ensures StopBetween(all, i, j)
    {
      if j < |cs| {
        assert StopBetween(cs, i, j);
        var k :| i < k < j && cs[k].kind.CycleStop? && cs[k].device == cs[j].device;
        assert all[k] == cs[k];
      } else {
        // the start was let in, so the latest live cycle command is a stop after the earlier start
        var latest := Latest(cs, (d: Command) => LiveCycle(d, q.device));
        assert LiveCycle(cs[i], q.device) && latest.Some? && cs[latest.value].kind.CycleStop?;
        assert all[latest.value] == cs[latest.value] && i < latest.value;
      }
    }
  }

  lemma FirstStep()
    ensures EndsIn([Submitted], Submitted)
  {
  }

  lemma SubmitReplays(db: Db, c: Command)
    requires Replays(db) && !HasId(db.commands, c.commandId) && c.status.Submitted?
    ensures Replays(Db(db.commands + [c], db.log + [LogRow(OfCommand(c.kind, None), Some(c.commandId), Submitted)]))
  {
    var r := LogRow(OfCommand(c.kind, None), Some(c.commandId), Submitted);
    var cs, log := db.commands + [c], db.log + [r];
    forall x { TraceAppend(db.log, r, x); }
    FirstStep();
    hide Trace, EndsIn;
    forall i | 0 <= i < |cs| ensures Agrees(log, cs[i]) {
      if i < |db.commands| {
        assert Agrees(db.log, db.commands[i]) && cs[i] == db.commands[i] && cs[i].commandId != c.commandId;
      } else {
        assert Trace(db.log, c.commandId) == [] && [] + [Submitted] == [Submitted];
      }
    }
    forall x | Trace(log, x) != [] ensures HasId(cs, x) {
      if x == c.commandId {
        assert cs[|db.commands|].commandId == x;
      } else {
        var i :| 0 <= i < |db.commands| && db.commands[i].commandId == x;
        assert cs[i].commandId == x;
      }
    }
  }

  lemma SubmitKeeps(db: Db, q: Request, id: string, now: int)
    requires Kept(db) && Submitting(db, q, id, now).1.Created?
    ensures Kept(Submitting(db, q, id, now).0)
  {
    SubmitKeepsRows(db, q, id, now);
    SubmitSeparates(db, q, id, now);
    SubmitReplays(db, NewCommand(q, id, now));
  }

  // ---------------------------------------------------------------- moves

  lemma MoveKeepsRows(db: Db, i: nat, to: Status, result: Option<string>, now: int)
    requires i < |db.commands| && DistinctIds(db.commands) && UniqueKeys(db.commands) && OnePending(db.commands)
    ensures var cs := Moving(db, i, to, result, now).commands;
            DistinctIds(cs) && UniqueKeys(cs) && OnePending(cs)
  {
  }

  lemma MoveSeparates(db: Db, i: nat, to: Status, result: Option<string>, now: int)
    requires i < |db.commands| && CyclesSeparated(db.commands)
    ensures CyclesSeparated(Moving(db, i, to, result, now).commands)
  {
    var cs, n := db.commands, Moving(db, i, to, result, now).commands;
    forall a, b | 0 <= a < b < |n| && LiveStart(n[a]) && LiveStart(n[b]) && n[a].device == n[b].device
      ensures StopBetween(n, a, b)
    {
      assert LiveStart(cs[a]) && LiveStart(cs[b]);
      assert StopBetween(cs, a, b);
      var k :| a < k < b && cs[k].kind.CycleStop? && cs[k].device == cs[b].device;
      assert n[k].kind.CycleStop? && n[k].device == n[b].device;
    }
  }

  lemma MoveReplays(db: Db, i: nat, to: Status, result: Option<string>, now: int)
    requires i < |db.commands| && DistinctIds(db.commands) && Replays(db)
    ensures Replays(Moving(db, i, to, result, now))
  {
    var n, c := Moving(db, i, to, result, now), db.commands[i];
    if Legal(c.status, to) {
      var r := LogRow(OfCommand(c.kind, Some(to)), Some(c.commandId), to);
      forall x { TraceAppend(db.log, r, x); }
      forall j | 0 <= j < |n.commands| ensures Agrees(n.log, n.commands[j]) {
        assert Agrees(db.log, db.commands[j]);
        if j == i { PathAppend(Trace(db.log, c.commandId), c.status, to); }
      }
      forall x | Trace(n.log, x) != [] ensures HasId(n.commands, x) {
        var k :| 0 <= k < |db.commands| && db.commands[k].commandId == x;
        assert n.commands[k].commandId == x;
      }
    }
  }

  lemma MoveKeeps(db: Db, i: nat, to: Status, result: Option<string>, now: int)
    requires i < |db.commands| && Kept(db)
    ensures Kept(Moving(db, i, to, result, now))
  {
    hide DistinctIds, UniqueKeys, OnePending, CyclesSeparated, Replays, Moving;
    MoveKeepsRows(db, i, to, result, now);
    MoveSeparates(db, i, to, result, now);
    MoveReplays(db, i, to, result, now);
  }

  lemma {:induction false} MarkingKeeps(db: Db, due: seq<nat>, now: int)
    requires Kept(db) && InRange(due, |db.commands|)
    ensures Kept(Marking(db, due, now))
    decreases |due|
  {
    if due != [] {
      hide Kept;
      MoveKeeps(db, due[0], TimedOut, Some("timeout"), now);
      MarkingKeeps(Moving(db, due[0], TimedOut, Some("timeout"), now), due[1..], now);
    }
  }

  lemma ApplyKeeps(db: Db, c: Call)
    requires Kept(db)
    ensures Kept(Apply(db, c))
  {
    hide Kept;
    match c
    case Submit(q, id, now) =>
      if Submitting(db, q, id, now).1.Created? { SubmitKeeps(db, q, id, now); }
    case Scan(now) => MarkingKeeps(db, DueFrom(db.commands, now, 0), now);
    case OtherRecord(name, outcome) => OtherKeeps(db, LogRow(OfOther(name), None, outcome));
    case Accept(id, now) => MoveIdKeeps(db, id, Accepted, None, now);
    case Complete(id, result, now) => MoveIdKeeps(db, id, Completed, Some(result), now);
    case Fail(id, result, now) => MoveIdKeeps(db, id, Failed, Some(result), now);
    case MarkTimeout(id, now) => MoveIdKeeps(db, id, TimedOut, Some("timeout"), now);
  }

  lemma OtherKeeps(db: Db, r: LogRow)
    requires Kept(db) && r.commandId.None?
    ensures Kept(Db(db.commands, db.log + [r]))
  {
    hide DistinctIds, UniqueKeys, OnePending, CyclesSeparated, HasId, EndsIn;
    forall x ensures Trace(db.log + [r], x) == Trace(db.log, x) { TraceAppend(db.log, r, x); }
    forall i | 0 <= i < |db.commands| ensures Agrees(db.log + [r], db.commands[i]) {
      assert Agrees(db.log, db.commands[i]);
    }
  }

  lemma MoveIdKeeps(db: Db, id: string, to: Status, result: Option<string>, now: int)
    requires Kept(db)
    ensures Kept(MovingId(db, id, to, result, now))
  {
    hide Kept, Moving;
    var i := ById(db.commands, id);
    if i.Some? { MoveKeeps(db, i.value, to, result, now); }
  }

  /**
   After any run of calls: ids and (type, device, key) are unique, at most one
   command per (device, type) awaits confirmation, live cycle starts are separated
   by a stop, and replaying the log gives the status of every command.
   */
  lemma {:induction false} RunKeeps(calls: seq<Call>)
    ensures Kept(Run(EMPTY, calls))
    decreases |calls|
  {
    if calls != [] {
      hide Kept;
      RunKeeps(calls[..|calls| - 1]);
      ApplyKeeps(Run(EMPTY, calls[..|calls| - 1]), calls[|calls| - 1]);
    }
  }

  /** The replayed log is the table, and each command has moved at most twice. */
  lemma LogReplaysTable(calls: seq<Call>, i: nat)
    requires i < |Run(EMPTY, calls).commands|
    ensures var c := Run(EMPTY, calls).commands[i];
            var path := Trace(Run(EMPTY, calls).log, c.commandId);
            EndsIn(path, c.status) && |path| <= 3
  {
    RunKeeps(calls);
    var db := Run(EMPTY, calls);
    assert Agrees(db.log, db.commands[i]);
    PathIsShort(Trace(db.log, db.commands[i].commandId), db.commands[i].status);
  }

  /** A call that is refused changes neither the table nor the log. */
  lemma RefusedChangesNothing(db: Db, c: Call)
    requires Kept(db)
    ensures |Apply(db, c).log| == |db.log| ==> Apply(db, c) == db
    ensures c.Submit? && !Submitting(db, c.q, c.id, c.now).1.Created? ==> Apply(db, c) == db
  {
    if c.Scan? {
      var due := DueFrom(db.commands, c.now, 0);
      DueIsDue(db.commands, c.now, 0);
      MarkingEffect(db, due, c.now);
    }
  }

  // ---------------------------------------------------------------- timeouts

  ghost predicate Increasing(s: seq<nat>) {
    forall i, j | 0 <= i < j < |s| :: s[i] < s[j]
  }

  lemma {:induction false} DueIsDue(cs: seq<Command>, now: int, k: nat)
    requires k <= |cs|
    ensures var due := DueFrom(cs, now, k);
            && Increasing(due)
            && (forall i | i in due :: k <= i < |cs| && Due(cs[i], now))
            && (forall i | k <= i < |cs| && Due(cs[i], now) :: i in due)
    decreases |cs| - k
  {
    if k < |cs| {
      DueIsDue(cs, now, k + 1);
      var rest := DueFrom(cs, now, k + 1);
      assert DueFrom(cs, now, k) == if Due(cs[k], now) then [k] + rest else rest;
      hide DueFrom, Due;
      DuePrepend(k, rest);
    }
  }

  lemma DuePrepend(k: nat, rest: seq<nat>)
    requires Increasing(rest) && forall i | i in rest :: k < i
    ensures Increasing([k] + rest) && forall i :: i in [k] + rest <==> i == k || i in rest
  {
    assert forall j | 0 <= j < |rest| :: rest[j] in rest;
  }

  /** Marking moves exactly the given commands, and logs one row for each. */
  lemma {:induction false} MarkingEffect(db: Db, due: seq<nat>, now: int)
    requires Increasing(due) && InRange(due, |db.commands|)
    requires forall i | i in due :: InFlight(db.commands[i].status)
    ensures var n := Marking(db, due, now);
            && |n.commands| == |db.commands| && |n.log| == |db.log| + |due|
            && forall i | 0 <= i < |db.commands| ::
                 n.commands[i] == if i in due then Moved(db.commands[i], TimedOut, Some("timeout"), now)
                                  else db.commands[i]
    decreases |due|
  {
    if due != [] {
      var first, rest := due[0], due[1..];
      var mid := Moving(db, first, TimedOut, Some("timeout"), now);
      assert first in due;
      forall i | i in rest ensures i != first && i in due && mid.commands[i] == db.commands[i] {}
      MarkingEffect(mid, rest, now);
      assert forall i :: i in due <==> i == first || i in rest;
    }
  }

  /**
   A scan at time `now` times out exactly the commands whose age has reached their
   window, so none of those is left, and every other command is as it was.
   */
  lemma ScanExact(db: Db, now: int)
    ensures var n := Scanning(db, now);
            && |n.commands| == |db.commands|
            && forall i | 0 <= i < |db.commands| ::
                 && !Due(n.commands[i], now)
                 && n.commands[i]
                    == if Due(db.commands[i], now) then Moved(db.commands[i], TimedOut, Some("timeout"), now)
                       else db.commands[i]
  {
    DueIsDue(db.commands, now, 0);
    MarkingEffect(db, DueFrom(db.commands, now, 0), now);
  }

  /** Rows are never removed or reordered, and a finished command never changes again. */
  lemma ApplyStable(db: Db, c: Call, i: nat)
    requires i < |db.commands|
    ensures var n := Apply(db, c).commands;
            && i < |n| && n[i].commandId == db.commands[i].commandId
            && n[i].submittedAt == db.commands[i].submittedAt && n[i].window == db.commands[i].window
            && (!InFlight(db.commands[i].status) ==> n[i] == db.commands[i])
  {
    if c.Scan? { ScanExact(db, c.now); }
  }

  lemma {:induction false} RunStable(db: Db, calls: seq<Call>, i: nat)
    requires i < |db.commands|
    ensures var n := Run(db, calls).commands;
            i < |n| && n[i].commandId == db.commands[i].commandId
            && n[i].submittedAt == db.commands[i].submittedAt && n[i].window == db.commands[i].window
            && (!InFlight(db.commands[i].status) ==> n[i] == db.commands[i])
    decreases |calls|
  {
    if calls != [] {
      hide Apply;
      RunStable(db, calls[..|calls| - 1], i);
      ApplyStable(Run(db, calls[..|calls| - 1]), calls[|calls| - 1], i);
    }
  }

  /**
   Whatever else is called before and after, the first scan at or after a
   command's deadline finds it finished or finishes it, for good.
   */
  lemma EndsByDeadline(db: Db, before: seq<Call>, now: int, after: seq<Call>, i: nat)
    requires i < |db.commands| && now >= db.commands[i].submittedAt + db.commands[i].window * SECOND
    ensures var scanned := Apply(Run(db, before), Scan(now));
            var end := Run(scanned, after);
            && i < |scanned.commands| && i < |end.commands|
            && end.commands[i] == scanned.commands[i] && !InFlight(end.commands[i].status)
  {
    RunStable(db, before, i);
    ScanExact(Run(db, before), now);
    RunStable(Apply(Run(db, before), Scan(now)), after, i);
  }

  // ---------------------------------------------------------------- stopped cycles

  predicate DoneStop(c: Command, device: string) {
    c.kind.CycleStop? && c.device == device && c.status.Completed?
  }

  ghost predicate DoneStopBetween(cs: seq<Command>, i: nat, j: nat)
    requires j < |cs|
  {
    exists k | i < k < j :: DoneStop(cs[k], cs[j].device)
  }

  predicate StartPair(cs: seq<Command>, i: nat, j: nat)
    requires i < |cs| && j < |cs|
  {
    LiveStart(cs[i]) && LiveStart(cs[j]) && cs[i].device == cs[j].device
  }

  /** Between two live cycle starts of a device a stop has been completed. */
  ghost predicate CyclesStopped(cs: seq<Command>) {
    forall i: nat, j: nat | i < j < |cs| && StartPair(cs, i, j) :: DoneStopBetween(cs, i, j)
  }

  ghost predicate DoneStopAfter(cs: seq<Command>, i: nat, device: string) {
    exists k | i < k < |cs| :: DoneStop(cs[k], device)
  }

  /** Every live cycle start of the device has been followed by a completed stop. */
  ghost predicate StoppedSince(cs: seq<Command>, device: string) {
    forall i: nat | i < |cs| && LiveStart(cs[i]) && cs[i].device == device :: DoneStopAfter(cs, i, device)
  }

  predicate AddsStart(db: Db, c: Call) {
    c.Submit? && c.q.kind.CycleStart? && Submitting(db, c.q, c.id, c.now).1.Created?
  }

  /** The call lets a start in although an earlier live one has not been stopped. */
  ghost predicate LetsInBehind(db: Db, c: Call) {
    AddsStart(db, c) && !StoppedSince(db.commands, c.q.device)
  }

  /** A move keeps what a command is, revives nothing and leaves what is completed. */
  predicate Aged(c: Command, n: Command) {
    && n.kind == c.kind && n.device == c.device
    && (Live(n.status) ==> Live(c.status)) && (c.status.Completed? ==> n == c)
  }

  ghost predicate AllAged(cs: seq<Command>, n: seq<Command>) {
    |cs| <= |n| && forall i: nat | i < |cs| :: Aged(cs[i], n[i])
  }

  lemma ApplyAges(db: Db, c: Call)
    ensures AllAged(db.commands, Apply(db, c).commands)
    ensures !c.Submit? ==> |Apply(db, c).commands| == |db.commands|
  {
    if c.Scan? { ScanExact(db, c.now); }
  }

  lemma AgedKeepsStops(cs: seq<Command>, n: seq<Command>, i: nat, j: nat)
    requires AllAged(cs, n) && i < j < |cs| && DoneStopBetween(cs, i, j)
    ensures DoneStopBetween(n, i, j)
  {
    var k :| i < k < j && DoneStop(cs[k], cs[j].device);
    assert Aged(cs[k], n[k]) && Aged(cs[j], n[j]);
    assert DoneStop(n[k], n[j].device);
  }

  lemma AgedPairs(cs: seq<Command>, n: seq<Command>)
    requires CyclesStopped(cs) && AllAged(cs, n)
    ensures forall i: nat, j: nat | i < j < |cs| && StartPair(n, i, j) :: DoneStopBetween(n, i, j)
  {
    forall i: nat, j: nat | i < j < |cs| && StartPair(n, i, j) ensures DoneStopBetween(n, i, j) {
      assert Aged(cs[i], n[i]) && Aged(cs[j], n[j]);
      assert StartPair(cs, i, j);
      AgedKeepsStops(cs, n, i, j);
    }
  }

  /** A new last start is separated from the earlier ones exactly when each of those was stopped. */
  lemma LastStart(cs: seq<Command>, c: Command)
    requires LiveStart(c)
    ensures (forall i: nat | i < |cs| && StartPair(cs + [c], i, |cs|) :: DoneStopBetween(cs + [c], i, |cs|))
            <==> StoppedSince(cs, c.device)
  {
    var all := cs + [c];
    forall i: nat | i < |cs| ensures DoneStopBetween(all, i, |cs|) <==> DoneStopAfter(cs, i, c.device) {
      if DoneStopAfter(cs, i, c.device) {
        var k :| i < k < |cs| && DoneStop(cs[k], c.device);
        assert all[k] == cs[k];
      }
      if DoneStopBetween(all, i, |cs|) {
        var k :| i < k < |cs| && DoneStop(all[k], all[|cs|].device);
        assert all[k] == cs[k];
      }
    }
    forall i: nat | i < |cs| ensures StartPair(all, i, |cs|) <==> LiveStart(cs[i]) && cs[i].device == c.device {
      assert all[i] == cs[i];
    }
  }

  /** One call breaks the separation by completed stops exactly when it lets a start in behind an unstopped one. */
  lemma StepStopsExactly(db: Db, c: Call)
    requires CyclesStopped(db.commands)
    ensures CyclesStopped(Apply(db, c).commands) <==> !LetsInBehind(db, c)
  {
    var cs, n := db.commands, Apply(db, c).commands;
    ApplyAges(db, c);
    AgedPairs(cs, n);
    if AddsStart(db, c) {
      var new_ := NewCommand(c.q, c.id, c.now);
      LastStart(cs, new_);
      hide Submitting, StoppedSince, DoneStopBetween;
      assert n == cs + [new_] by { CreatedAppends(db, c); }
    } else {
      NoNewStart(db, c);
      hide Apply, AddsStart, DoneStopBetween;
    }
  }

  lemma CreatedAppends(db: Db, c: Call)
    requires AddsStart(db, c)
    ensures Apply(db, c).commands == db.commands + [NewCommand(c.q, c.id, c.now)]
  {
  }

  lemma NoNewStart(db: Db, c: Call)
    requires !AddsStart(db, c)
    ensures var n := Apply(db, c).commands;
            |n| <= |db.commands| + 1 && (|n| == |db.commands| + 1 ==> !LiveStart(n[|db.commands|]))
  {
    ApplyAges(db, c);
  }

  /** In every state a run goes through, live starts are separated by completed stops. */
  ghost predicate StoppedThroughout(calls: seq<Call>) {
    forall k: nat | k <= |calls| :: CyclesStopped(Run(EMPTY, calls[..k]).commands)
  }

  ghost predicate NeverLetsInBehind(calls: seq<Call>) {
    forall k: nat | k < |calls| :: !LetsInBehind(Run(EMPTY, calls[..k]), calls[k])
  }

  lemma RunPrefix(calls: seq<Call>, k: nat)
    requires k < |calls|
    ensures Run(EMPTY, calls[..k + 1]) == Apply(Run(EMPTY, calls[..k]), calls[k])
  {
    assert calls[..k + 1][..k] == calls[..k];
  }

  lemma {:induction false} StoppedUpTo(calls: seq<Call>, k: nat)
    requires NeverLetsInBehind(calls) && k <= |calls|
    ensures CyclesStopped(Run(EMPTY, calls[..k]).commands)
  {
    hide Run, LetsInBehind;
    if k == 0 {
      RunNone(calls);
    } else {
      hide CyclesStopped, NeverLetsInBehind;
      StoppedUpTo(calls, k - 1);
      RunPrefix(calls, k - 1);
      NotBehindAt(calls, k - 1);
      StepStopsExactly(Run(EMPTY, calls[..k - 1]), calls[k - 1]);
    }
  }

  lemma RunNone(calls: seq<Call>)
    ensures Run(EMPTY, calls[..0]) == EMPTY
  {
  }

  lemma NotBehindAt(calls: seq<Call>, k: nat)
    requires NeverLetsInBehind(calls) && k < |calls|
    ensures !LetsInBehind(Run(EMPTY, calls[..k]), calls[k])
  {
  }

  /**
   A run keeps live cycle starts separated by completed stops throughout exactly when it
   never lets a start in while an earlier live one has no completed stop after it.
   */
  lemma StoppedExactly(calls: seq<Call>)
    ensures StoppedThroughout(calls) <==> NeverLetsInBehind(calls)
  {
    hide Run, LetsInBehind, CyclesStopped;
    if NeverLetsInBehind(calls) {
      forall k: nat | k <= |calls| ensures CyclesStopped(Run(EMPTY, calls[..k]).commands) { StoppedUpTo(calls, k); }
    }
    if StoppedThroughout(calls) {
      forall k: nat | k < |calls| ensures !LetsInBehind(Run(EMPTY, calls[..k]), calls[k]) {
        assert CyclesStopped(Run(EMPTY, calls[..k]).commands) && CyclesStopped(Run(EMPTY, calls[..k + 1]).commands);
        RunPrefix(calls, k);
        StepStopsExactly(Run(EMPTY, calls[..k]), calls[k]);
      }
    }
  }

  /** A start let in while no stop of the device awaits confirmation finds every earlier one stopped. */
  lemma NoPendingStop(db: Db, c: Call)
    requires AddsStart(db, c) && ActivePending(db.commands, c.q.device, CycleStop).None?
    ensures StoppedSince(db.commands, c.q.device)
  {
    var cs, device := db.commands, c.q.device;
    hide ById, ByIdempotency;
    assert !IsCycleRunning(cs, device);
    var last := Latest(cs, (c: Command) => LiveCycle(c, device));
    forall i: nat | i < |cs| && LiveStart(cs[i]) && cs[i].device == device ensures DoneStopAfter(cs, i, device) {
      assert LiveCycle(cs[i], device);
      assert last.Some? && i < last.value;
      assert DoneStop(cs[last.value], device);
    }
  }

  /**
   So when every start is submitted while no stop of its device awaits confirmation, a
   completed start not yet stopped always blocks a new one.
   */
  lemma StartsAfterConfirmedStops(calls: seq<Call>)
    requires forall k: nat | k < |calls| && calls[k].Submit? && calls[k].q.kind.CycleStart? ::
               ActivePending(Run(EMPTY, calls[..k]).commands, calls[k].q.device, CycleStop).None?
    ensures StoppedThroughout(calls)
  {
    hide Run, ActivePending, Submitting;
    forall k: nat | k < |calls| ensures !LetsInBehind(Run(EMPTY, calls[..k]), calls[k]) {
      if AddsStart(Run(EMPTY, calls[..k]), calls[k]) { NoPendingStop(Run(EMPTY, calls[..k]), calls[k]); }
    }
    StoppedExactly(calls);
  }

  // ---------------------------------------------------------------- and when one is let in behind

  /** Two completed starts of a device, and between them no stop that is or could still be completed. */
  ghost predicate Unstopped(cs: seq<Command>, i: nat, j: nat) {
    && i < j < |cs| && cs[i].device == cs[j].device
    && cs[i].kind.CycleStart? && cs[i].status.Completed? && cs[j].kind.CycleStart? && cs[j].status.Completed?
    && forall k: nat | i < k < j && cs[k].kind.CycleStop? && cs[k].device == cs[j].device ::
         !InFlight(cs[k].status) && !cs[k].status.Completed?
  }

  lemma UnstoppedForGood(db: Db, later: seq<Call>, i: nat, j: nat)
    requires Unstopped(db.commands, i, j)
    ensures !CyclesStopped(Run(db, later).commands)
  {
    var cs, n := db.commands, Run(db, later).commands;
    hide Run;
    RunStable(db, later, i);
    RunStable(db, later, j);
    assert StartPair(n, i, j);
    forall k: nat | i < k < j ensures !DoneStop(n[k], n[j].device) {
      RunStable(db, later, k);
      RunAges(db, later, k);
    }
    assert !DoneStopBetween(n, i, j);
  }

  lemma {:induction false} RunAges(db: Db, calls: seq<Call>, i: nat)
    requires i < |db.commands|
    ensures i < |Run(db, calls).commands|
    ensures var c, n := db.commands[i], Run(db, calls).commands[i]; n.kind == c.kind && n.device == c.device
    decreases |calls|
  {
    if calls != [] {
      var before := Run(db, calls[..|calls| - 1]);
      RunAges(db, calls[..|calls| - 1], i);
      ApplyAges(before, calls[|calls| - 1]);
      assert Aged(before.commands[i], Apply(before, calls[|calls| - 1]).commands[i]);
      hide Apply;
    }
  }

  /**
   Letting a start in behind an unstopped one: the earlier start is completed, and the
   only live stop after it awaits confirmation.
   */
  lemma BehindShape(db: Db, c: Call) returns (i: nat, stop: nat)
    requires Kept(db) && LetsInBehind(db, c)
    ensures i < stop < |db.commands|
    ensures var cs, device := db.commands, c.q.device;
            && cs[i].kind.CycleStart? && cs[i].status.Completed? && cs[i].device == device
            && cs[stop].kind.CycleStop? && InFlight(cs[stop].status) && cs[stop].device == device
            && forall k: nat | i < k < |cs| && k != stop && cs[k].kind.CycleStop? && cs[k].device == device ::
                 !InFlight(cs[k].status) && !cs[k].status.Completed?
  {
    hide ById, ByIdempotency, Replays, DistinctIds, UniqueKeys, CyclesSeparated;
    var cs, device := db.commands, c.q.device;
    i :| i < |cs| && LiveStart(cs[i]) && cs[i].device == device && !DoneStopAfter(cs, i, device);
    assert ActivePending(cs, device, CycleStart).None?;
    assert !IsCycleRunning(cs, device);
    var last := Latest(cs, (d: Command) => LiveCycle(d, device));
    assert LiveCycle(cs[i], device);
    stop := last.value;
    forall k: nat | i < k < |cs| && k != stop && cs[k].kind.CycleStop? && cs[k].device == device
      ensures !InFlight(cs[k].status) && !cs[k].status.Completed?
    {
      assert !DoneStop(cs[k], device);
      assert SameSlot(cs[k], cs[stop]);
    }
    assert !DoneStop(cs[stop], device);
  }

  /**
   A start let in behind an unstopped one can be left so for good: it is accepted and
   completed, the pending stop times out at its deadline, and then no further run of
   calls ever puts a completed stop between the two starts.
   */
  lemma BehindCanBreak(db: Db, c: Call) returns (more: seq<Call>)
    requires Kept(db) && LetsInBehind(db, c)
    ensures forall later: seq<Call> :: !CyclesStopped(Run(Run(Apply(db, c), more), later).commands)
  {
    var i, stop := BehindShape(db, c);
    var cs, n := db.commands, |db.commands|;
    CreatedAppends(db, c);
    var d0 := Apply(db, c);
    ApplyKeeps(db, c);
    assert DistinctIds(d0.commands);
    hide Apply, Kept, LetsInBehind, Submitting;
    var new_ := NewCommand(c.q, c.id, c.now);
    var deadline := cs[stop].submittedAt + cs[stop].window * SECOND;
    var late := if deadline < c.now then c.now else deadline;
    var d1, d2 := Apply(d0, Accept(c.id, c.now)), Apply(Apply(d0, Accept(c.id, c.now)), Complete(c.id, "ok", c.now));
    FinishNew(d0, cs, c.q, c.id, c.now);
    assert d2.commands == cs + [Done(c.q, c.id, c.now)];
    var d3 := Apply(d2, Scan(late));
    more := [Accept(c.id, c.now), Complete(c.id, "ok", c.now), Scan(late)];
    ThreeCalls(d0, Accept(c.id, c.now), Complete(c.id, "ok", c.now), Scan(late));
    ScanUnstops(d2, cs, c.q, c.id, c.now, late, i, stop);
    hide Unstopped, CyclesStopped;
    forall later: seq<Call> ensures !CyclesStopped(Run(Run(Apply(db, c), more), later).commands) {
      UnstoppedForGood(d3, later, i, n);
    }
  }

  /** The pending stop times out between two completed starts. */
  lemma ScanUnstops(
    db: Db, cs: seq<Command>, q: Request, id: string, now: int, late: int, i: nat, stop: nat)
    requires db.commands == cs + [Done(q, id, now)] && i < stop < |cs| && q.kind.CycleStart?
    requires cs[i].kind.CycleStart? && cs[i].status.Completed? && cs[i].device == q.device
    requires InFlight(cs[stop].status) && late >= cs[stop].submittedAt + cs[stop].window * SECOND
    requires forall k: nat | i < k < |cs| && k != stop && cs[k].kind.CycleStop? && cs[k].device == q.device ::
               !InFlight(cs[k].status) && !cs[k].status.Completed?
    ensures Unstopped(Apply(db, Scan(late)).commands, i, |cs|)
  {
    ScanLeaves(db, late);
    hide Apply;
  }

  lemma ThreeCalls(db: Db, a: Call, b: Call, c: Call)
    ensures Run(db, [a, b, c]) == Apply(Apply(Apply(db, a), b), c)
  {
    assert [a, b, c][..2] == [a, b] && [a, b][..1] == [a] && [a][..0] == [];
    assert Run(db, []) == db;
    hide Apply;
    assert Run(db, [a]) == Apply(db, a);
    assert Run(db, [a, b]) == Apply(Apply(db, a), b);
  }

  lemma ScanLeaves(db: Db, now: int)
    ensures var n := Apply(db, Scan(now)).commands;
            && |n| == |db.commands|
            && forall i: nat | i < |n| ::
                 n[i] == if Due(db.commands[i], now) then Moved(db.commands[i], TimedOut, Some("timeout"), now)
                         else db.commands[i]
  {
    ScanExact(db, now);
  }

  /** Accepting and completing the last command. */
  lemma FinishNew(db: Db, cs: seq<Command>, q: Request, id: string, now: int)
    requires db.commands == cs + [NewCommand(q, id, now)] && DistinctIds(db.commands)
    ensures Apply(Apply(db, Accept(id, now)), Complete(id, "ok", now)).commands == cs + [Done(q, id, now)]
  {
    var n := |cs|;
    MoveOnly(db, n, Accepted, None, now);
    var d1 := Apply(db, Accept(id, now));
    assert d1.commands == cs + [Moved(NewCommand(q, id, now), Accepted, None, now)];
    MoveOnly(d1, n, Completed, Some("ok"), now);
  }

  // ---------------------------------------------------------------- what is not promised

  lemma RunNext(calls: seq<Call>, c: Call)
    ensures Run(EMPTY, calls + [c]) == Apply(Run(EMPTY, calls), c)
  {
    assert (calls + [c])[..|calls|] == calls;
  }

  lemma MoveOnly(db: Db, i: nat, to: Status, result: Option<string>, now: int)
    requires i < |db.commands| && DistinctIds(db.commands) && Legal(db.commands[i].status, to)
    ensures MovingId(db, db.commands[i].commandId, to, result, now).commands
         == db.commands[i := Moved(db.commands[i], to, result, now)]
  {
    var j := ById(db.commands, db.commands[i].commandId);
    assert j == Some(i);
  }

  lemma SubmitOnly(db: Db, q: Request, id: string, now: int)
    requires q.device in DEVICES
    requires forall c | c in db.commands ::
               c.commandId != id && c.key != q.key && !(c.kind == q.kind && InFlight(c.status))
    requires q.kind.CycleStart? && db.commands != [] ==>
      LiveCycle(db.commands[|db.commands| - 1], q.device) && db.commands[|db.commands| - 1].kind.CycleStop?
    ensures Submitting(db, q, id, now).0.commands == db.commands + [NewCommand(q, id, now)]
  {
  }

  const FIRST := Request(CycleStart, "AXIS-04", "k1", None)
  const STOP := Request(CycleStop, "AXIS-04", "k2", None)
  const SECOND_START := Request(CycleStart, "AXIS-04", "k3", None)

  /** A command submitted with this request and id, then completed, all at one time. */
  function Done(q: Request, id: string, now: int): Command {
    Moved(Moved(NewCommand(q, id, now), Accepted, None, now), Completed, Some("ok"), now)
  }

  lemma FinishLast(calls: seq<Call>, cs: seq<Command>, q: Request, id: string, now: int)
    requires Run(EMPTY, calls).commands == cs + [NewCommand(q, id, now)]
    ensures Run(EMPTY, calls + [Accept(id, now)] + [Complete(id, "ok", now)]).commands == cs + [Done(q, id, now)]
  {
    RunKeeps(calls);
    FinishNew(Run(EMPTY, calls), cs, q, id, now);
    RunNext(calls, Accept(id, now));
    RunNext(calls + [Accept(id, now)], Complete(id, "ok", now));
    hide Run;
  }

  lemma StopPending() returns (calls: seq<Call>)
    ensures Run(EMPTY, calls).commands == [Done(FIRST, "c1", 0), NewCommand(STOP, "c2", 0)]
  {
    var c1 := Submit(FIRST, "c1", 0);
    RunNext([], c1);
    SubmitOnly(EMPTY, FIRST, "c1", 0);
    FinishLast([c1], [], FIRST, "c1", 0);
    var first := [c1] + [Accept("c1", 0)] + [Complete("c1", "ok", 0)];
    assert Run(EMPTY, first).commands == [Done(FIRST, "c1", 0)];
    RunNext(first, Submit(STOP, "c2", 0));
    SubmitOnly(Run(EMPTY, first), STOP, "c2", 0);
    calls := first + [Submit(STOP, "c2", 0)];
  }

  /**
   The separating stop need not have happened: once a later start is let in behind
   a stop still awaiting confirmation, the stop may time out, and two completed
   starts stand with no stop in effect between them.
   */
  lemma StopMayTimeOut() returns (calls: seq<Call>)
    ensures var cs := Run(EMPTY, calls).commands;
            && |cs| == 3 && cs[0].device == cs[1].device == cs[2].device
            && cs[0].kind.CycleStart? && cs[0].status.Completed?
            && cs[1].kind.CycleStop? && cs[1].status.TimedOut?
            && cs[2].kind.CycleStart? && cs[2].status.Completed?
  {
    hide Run, ById, ActivePending, ByIdempotency, IsCycleRunning, Scanning;
    var pending := StopPending();
    var both := [Done(FIRST, "c1", 0), NewCommand(STOP, "c2", 0)];
    RunNext(pending, Submit(SECOND_START, "c3", 1));
    SubmitOnly(Run(EMPTY, pending), SECOND_START, "c3", 1);
    var third := pending + [Submit(SECOND_START, "c3", 1)];
    FinishLast(third, both, SECOND_START, "c3", 1);
    var done := third + [Accept("c3", 1)] + [Complete("c3", "ok", 1)];
    assert Run(EMPTY, done).commands == both + [Done(SECOND_START, "c3", 1)];
    RunNext(done, Scan(10 * SECOND));
    ScanExact(Run(EMPTY, done), 10 * SECOND);
    calls := done + [Scan(10 * SECOND)];
  }
}
