/**
 Device commands, each service call taken as one atomic step:
 `app/domain/commands.py`, `app/services/command_service.py`,
 `app/repositories/pg/command_repo.py` and the timeout scan of `worker/tasks.py`.

 The tables are sequences in id order. Times are microseconds.
 */
module Commands {
  import opened Common

  // ---------------------------------------------------------------- state machine

  datatype Status = Submitted | Accepted | Completed | Failed | TimedOut | Rejected

  predicate Legal(from: Status, to: Status) {
    match from
    case Submitted => to.Accepted? || to.Rejected? || to.TimedOut?
    case Accepted => to.Completed? || to.Failed? || to.TimedOut?
    case _ => false
  }

  predicate InFlight(s: Status) {
    s.Submitted? || s.Accepted?
  }

  /** In flight or in effect. */
  predicate Live(s: Status) {
    InFlight(s) || s.Completed?
  }

  datatype CommandType = CycleStart | CycleStop | ModeSwitch | SafetyStopRequest | OtherType(name: string)

  datatype Command = Command(
    commandId: string, kind: CommandType, device: string, key: string, operator: Option<string>,
    status: Status, window: int, highRisk: bool, submittedAt: int,
    acceptedAt: Option<int>, completedAt: Option<int>, result: Option<string>)

  /** An audit row; only rows written here carry a command id. */
  datatype LogRow = LogRow(action: Action, commandId: Option<string>, result: Status)
  datatype Action = OfCommand(kind: CommandType, target: Option<Status>) | OfOther(name: string)

  datatype Db = Db(commands: seq<Command>, log: seq<LogRow>)

  const SECOND := 1_000_000
  const DEVICES: set<string> := {"AXIS-04"}

  // ---------------------------------------------------------------- queries

  /** `ORDER BY id DESC LIMIT 1` over the rows that match. */
  function Latest(cs: seq<Command>, p: Command -> bool): (r: Option<nat>)
    ensures r.Some? ==> r.value < |cs| && p(cs[r.value]) && forall i | r.value < i < |cs| :: !p(cs[i])
    ensures r.None? ==> forall i | 0 <= i < |cs| :: !p(cs[i])
  {
    if cs == [] then None
    else if p(cs[|cs| - 1]) then Some(|cs| - 1)
    else Latest(cs[..|cs| - 1], p)
  }

  function ById(cs: seq<Command>, id: string): Option<nat> {
    Latest(cs, (c: Command) => c.commandId == id)
  }

  predicate SameKey(c: Command, q: Request) {
    c.kind == q.kind && c.device == q.device && c.key == q.key
  }

  function ByIdempotency(cs: seq<Command>, q: Request): Option<nat> {
    Latest(cs, (c: Command) => SameKey(c, q))
  }

  function ActivePending(cs: seq<Command>, device: string, kind: CommandType): Option<nat> {
    Latest(cs, (c: Command) => c.device == device && c.kind == kind && InFlight(c.status))
  }

  predicate LiveCycle(c: Command, device: string) {
    c.device == device && (c.kind.CycleStart? || c.kind.CycleStop?) && Live(c.status)
  }

  predicate IsCycleRunning(cs: seq<Command>, device: string) {
    var i := Latest(cs, (c: Command) => LiveCycle(c, device));
    i.Some? && cs[i.value].kind.CycleStart?
  }

  predicate Due(c: Command, now: int) {
    InFlight(c.status) && now - c.submittedAt >= c.window * SECOND
  }

  // ---------------------------------------------------------------- what a call does

  datatype Request = Request(kind: CommandType, device: string, key: string, operator: Option<string>)

  datatype Outcome =
    | Created(command: Command)
    | Replayed(command: Command)
    | DeviceNotFound
    | Conflict(pendingId: string)
    | CycleRunning
    | IntegrityError

  function NewCommand(q: Request, id: string, now: int): Command {
    var high := q.kind.SafetyStopRequest?;
    Command(id, q.kind, q.device, q.key, q.operator, Submitted, if high then 5 else 10, high, now, None, None, None)
  }

  function Submitting(db: Db, q: Request, id: string, now: int): (Db, Outcome) {
    var cs := db.commands;
    var existing, pending := ByIdempotency(cs, q), ActivePending(cs, q.device, q.kind);
    if q.device !in DEVICES then (db, DeviceNotFound)
    else if existing.Some? then (db, Replayed(cs[existing.value]))
    else if pending.Some? then (db, Conflict(cs[pending.value].commandId))
    else if q.kind.CycleStart? && IsCycleRunning(cs, q.device) then (db, CycleRunning)
    else if ById(cs, id).Some? then (db, IntegrityError)
    else
      var c := NewCommand(q, id, now);
      (Db(cs + [c], db.log + [LogRow(OfCommand(c.kind, None), Some(id), Submitted)]), Created(c))
  }

  function Moved(c: Command, to: Status, result: Option<string>, now: int): Command {
    c.(status := to,
       acceptedAt := if to.Accepted? then Some(now) else c.acceptedAt,
       completedAt := if to.Completed? || to.Failed? || to.TimedOut? then Some(now) else c.completedAt,
       result := if result.Some? then result else c.result)
  }

  function Moving(db: Db, i: nat, to: Status, result: Option<string>, now: int): Db
    requires i < |db.commands|
  {
    var c := db.commands[i];
    if !Legal(c.status, to) then db
    else Db(db.commands[i := Moved(c, to, result, now)],
            db.log + [LogRow(OfCommand(c.kind, Some(to)), Some(c.commandId), to)])
  }

  /** Moving the command with this id, if there is one. */
  function MovingId(db: Db, id: string, to: Status, result: Option<string>, now: int): Db {
    var i := ById(db.commands, id);
    if i.None? then db else Moving(db, i.value, to, result, now)
  }

  predicate InRange(due: seq<nat>, n: nat) {
    forall j | 0 <= j < |due| :: due[j] < n
  }

  function DueFrom(cs: seq<Command>, now: int, k: nat): (due: seq<nat>)
    requires k <= |cs|
    ensures InRange(due, |cs|)
    decreases |cs| - k
  {
    if k == |cs| then []
    else if Due(cs[k], now) then [k] + DueFrom(cs, now, k + 1)
    else DueFrom(cs, now, k + 1)
  }

  function Marking(db: Db, due: seq<nat>, now: int): (r: Db)
    requires InRange(due, |db.commands|)
    ensures |r.commands| == |db.commands|
    decreases |due|
  {
    if due == [] then db
    else Marking(Moving(db, due[0], TimedOut, Some("timeout"), now), due[1..], now)
  }

  function Scanning(db: Db, now: int): Db {
    Marking(db, DueFrom(db.commands, now, 0), now)
  }

  datatype Call =
    | Submit(q: Request, id: string, now: int)
    | Accept(id: string, now: int)
    | Complete(id: string, result: string, now: int)
    | Fail(id: string, result: string, now: int)
    | MarkTimeout(id: string, now: int)
    | Scan(now: int)
    | OtherRecord(name: string, outcome: Status)

  function Apply(db: Db, c: Call): Db {
    match c
    case Submit(q, id, now) => Submitting(db, q, id, now).0
    case Accept(id, now) => MovingId(db, id, Accepted, None, now)
    case Complete(id, result, now) => MovingId(db, id, Completed, Some(result), now)
    case Fail(id, result, now) => MovingId(db, id, Failed, Some(result), now)
    case MarkTimeout(id, now) => MovingId(db, id, TimedOut, Some("timeout"), now)
    case Scan(now) => Scanning(db, now)
    case OtherRecord(name, outcome) => db.(log := db.log + [LogRow(OfOther(name), None, outcome)])
  }

  function Run(db: Db, calls: seq<Call>): Db
    decreases |calls|
  {
    if calls == [] then db else Apply(Run(db, calls[..|calls| - 1]), calls[|calls| - 1])
  }

  const EMPTY := Db([], [])

  // ---------------------------------------------------------------- the service

  class CommandService {
    var commands: seq<Command>
    var log: seq<LogRow>

    constructor ()
      ensures Tables() == EMPTY
    {
      commands, log := [], [];
    }

    function Tables(): Db
      reads this
    {
      Db(commands, log)
    }

    method SubmitCommand(q: Request, id: string, now: int) returns (r: Outcome)
      modifies this
      ensures (Tables(), r) == Submitting(old(Tables()), q, id, now)
    {
      if q.device !in DEVICES {
        return DeviceNotFound;
      }
      var existing := ByIdempotency(commands, q);
      if existing.Some? {
        return Replayed(commands[existing.value]);
      }
      var pending := ActivePending(commands, q.device, q.kind);
      if pending.Some? {
        // the replay branch for an equal key needs a concurrent submit: see SubmitRace
        assert commands[pending.value].key != q.key;
        return Conflict(commands[pending.value].commandId);
      }
      if q.kind.CycleStart? && IsCycleRunning(commands, q.device) {
        return CycleRunning;
      }
      var c := NewCommand(q, id, now);
      if ById(commands, id).Some? {
        return IntegrityError;
      }
      commands := commands + [c];
      log := log + [LogRow(OfCommand(c.kind, None), Some(id), Submitted)];
      r := Created(c);
    }

    /** The command and its audit row change together, or an illegal move changes nothing. */
    method Transition(i: nat, to: Status, result: Option<string>, now: int) returns (ok: bool)
      requires i < |commands|
      modifies this
      ensures ok == Legal(old(commands)[i].status, to)
      ensures Tables() == Moving(old(Tables()), i, to, result, now)
    {
      var c := commands[i];
      if !Legal(c.status, to) {
        return false;
      }
      c := c.(status := to);
      if to.Accepted? {
        c := c.(acceptedAt := Some(now));
      } else if to.Completed? || to.Failed? || to.TimedOut? {
        c := c.(completedAt := Some(now));
      }
      if result.Some? {
        c := c.(result := result);
      }
      commands := commands[i := c];
      log := log + [LogRow(OfCommand(c.kind, Some(to)), Some(c.commandId), to)];
      ok := true;
    }

    /** `accept`, `complete` and `fail`: an unknown id is refused, like an illegal move. */
    method Advance(id: string, to: Status, result: Option<string>, now: int) returns (ok: bool)
      modifies this
      ensures Tables() == MovingId(old(Tables()), id, to, result, now)
      ensures var i := ById(old(commands), id); ok <==> i.Some? && Legal(old(commands)[i.value].status, to)
      ensures !ok ==> Tables() == old(Tables())
    {
      var i := ById(commands, id);
      if i.None? {
        return false;
      }
      ok := Transition(i.value, to, result, now);
    }

    method ScanTimeouts(now: int) returns (due: seq<nat>)
      ensures due == DueFrom(commands, now, 0)
    {
      due := [];
      assert due + DueFrom(commands, now, 0) == DueFrom(commands, now, 0);
      for k := 0 to |commands|
        invariant due + DueFrom(commands, now, k) == DueFrom(commands, now, 0)
      {
        if Due(commands[k], now) {
          assert due + ([k] + DueFrom(commands, now, k + 1)) == due + [k] + DueFrom(commands, now, k + 1);
          due := due + [k];
        }
      }
    }

    /** The worker's scan: mark every due command. */
    method ScanCommandTimeouts(now: int) returns (marked: nat)
      modifies this
      ensures Tables() == Scanning(old(Tables()), now)
      ensures marked == |DueFrom(old(commands), now, 0)|
    {
      var due := ScanTimeouts(now);
      marked := 0;
      while marked < |due|
        invariant marked <= |due| && |commands| == |old(commands)| && InRange(due[marked..], |commands|)
        invariant Marking(Tables(), due[marked..], now) == Scanning(old(Tables()), now)
      {
        assert due[marked..][0] == due[marked] && due[marked..][1..] == due[marked + 1..];
        var _ := Transition(due[marked], TimedOut, Some("timeout"), now);
        marked := marked + 1;
      }
    }
  }
}
