/**
 Submissions interleaved at their statements, under READ COMMITTED:
 `submit` in `app/services/command_service.py:107-178`.

 A statement sees committed rows only, apart from the unique index: an insert
 waits for another transaction holding the same key, and fails once that one has
 committed.
 */
module SubmitRace {
  import opened Common
  import opened Commands
  import opened CommandRuns
  import CommandRecords

  datatype Phase =
    | Start
    | NotSeen
    | NonePending
    | Cleared
    | Inserted(row: Command)
    | Clashed
    | Returned(command: Command, created: bool)
    | Refused
    | Raised

  /** What each caller asks for, and the id and time it would use. */
  datatype Callers = Callers(request: nat -> Request, newId: nat -> string, now: nat -> int)

  datatype World = World(rows: seq<Command>, phases: map<nat, Phase>)

  const INIT := World([], map[])

  datatype Event =
    | LookUp(w: nat)
    | CheckPending(w: nat)
    | CheckCycle(w: nat)
    | Insert(w: nat)
    | LookUpAgain(w: nat)
    | Commit(w: nat)
    | Abort(w: nat)
    | Move(i: nat, to: Status)

  function PhaseOf(s: World, w: nat): Phase {
    if w in s.phases then s.phases[w] else Start
  }

  function Row(cl: Callers, w: nat): Command {
    NewCommand(cl.request(w), cl.newId(w), cl.now(w))
  }

  /** Two rows the unique constraints do not allow together. */
  predicate Excludes(a: Command, b: Command) {
    (a.kind == b.kind && a.device == b.device && a.key == b.key) || a.commandId == b.commandId
  }

  predicate ClashesWithRows(rows: seq<Command>, c: Command) {
    exists i | 0 <= i < |rows| :: Excludes(rows[i], c)
  }

  predicate HasToWait(s: World, w: nat, c: Command) {
    exists v | v in s.phases :: v != w && s.phases[v].Inserted? && Excludes(s.phases[v].row, c)
  }

  function To(s: World, w: nat, p: Phase): World {
    s.(phases := s.phases[w := p])
  }

  function AfterLookUp(s: World, w: nat, q: Request): Phase {
    var i := ByIdempotency(s.rows, q);
    if q.device !in DEVICES then Refused
    else if i.Some? then Returned(s.rows[i.value], false)
    else NotSeen
  }

  function AfterPending(s: World, w: nat, q: Request): Phase {
    var i := ActivePending(s.rows, q.device, q.kind);
    if i.None? then NonePending
    else if s.rows[i.value].key == q.key then Returned(s.rows[i.value], false)
    else Refused
  }

  function AfterClash(s: World, w: nat, q: Request): Phase {
    var i := ByIdempotency(s.rows, q);
    if i.Some? then Returned(s.rows[i.value], false) else Raised
  }

  /** One statement of one caller, or a move of a committed command. */
  function Step(cl: Callers, s: World, e: Event): World {
    if e.Move? then
      if e.i < |s.rows| && Legal(s.rows[e.i].status, e.to) then s.(rows := s.rows[e.i := s.rows[e.i].(status := e.to)])
      else s
    else
      var p, q, c := PhaseOf(s, e.w), cl.request(e.w), Row(cl, e.w);
      match e
      case LookUp(w) => if p.Start? then To(s, w, AfterLookUp(s, w, q)) else s
      case CheckPending(w) => if p.NotSeen? then To(s, w, AfterPending(s, w, q)) else s
      case CheckCycle(w) =>
        if !p.NonePending? then s
        else To(s, w, if q.kind.CycleStart? && IsCycleRunning(s.rows, q.device) then Refused else Cleared)
      case Insert(w) =>
        if !p.Cleared? || HasToWait(s, w, c) then s
        else To(s, w, if ClashesWithRows(s.rows, c) then Clashed else Inserted(c))
      case LookUpAgain(w) => if p.Clashed? then To(s, w, AfterClash(s, w, q)) else s
      case Commit(w) =>
        if p.Inserted? then World(s.rows + [p.row], s.phases[w := Returned(p.row, true)]) else s
      case Abort(w) => if p.Returned? || p.Refused? then s else To(s, w, Raised)
  }

  function Run(cl: Callers, events: seq<Event>): World
    decreases |events|
  {
    if events == [] then INIT else Step(cl, Run(cl, events[..|events| - 1]), events[|events| - 1])
  }

  // ---------------------------------------------------------------- what holds throughout

  ghost predicate RowsExclude(rows: seq<Command>) {
    forall i, j | 0 <= i < j < |rows| :: !Excludes(rows[i], rows[j])
  }

  /** Uncommitted rows exclude neither a committed row nor one another. */
  ghost predicate InsertsFree(cl: Callers, s: World) {
    && (forall w | w in s.phases && s.phases[w].Inserted? ::
          s.phases[w].row == Row(cl, w) && !ClashesWithRows(s.rows, s.phases[w].row))
    && (forall v, w | v in s.phases && w in s.phases && v != w && s.phases[v].Inserted? && s.phases[w].Inserted? ::
          !Excludes(s.phases[v].row, s.phases[w].row))
  }

  ghost predicate RowOf(rows: seq<Command>, c: Command, q: Request) {
    exists i | 0 <= i < |rows| :: rows[i].commandId == c.commandId && SameKey(rows[i], q)
  }

  /** A caller that returned holds the row of its own key. */
  ghost predicate ReturnsOwnKey(cl: Callers, s: World) {
    forall w | w in s.phases && s.phases[w].Returned? :: RowOf(s.rows, s.phases[w].command, cl.request(w))
  }

  predicate Creator(s: World, w: nat, id: string) {
    w in s.phases && s.phases[w].Returned? && s.phases[w].created && s.phases[w].command.commandId == id
  }

  ghost predicate HasCreator(s: World, id: string) {
    exists w :: Creator(s, w, id)
  }

  ghost predicate HasRow(rows: seq<Command>, id: string) {
    exists i | 0 <= i < |rows| :: rows[i].commandId == id
  }

  /** Every committed row was created for exactly one caller. */
  ghost predicate OneCreator(s: World) {
    && (forall i | 0 <= i < |s.rows| :: HasCreator(s, s.rows[i].commandId))
    && (forall v, w, id :: Creator(s, v, id) && Creator(s, w, id) ==> v == w)
    && (forall w, id :: Creator(s, w, id) ==> HasRow(s.rows, id))
  }

  ghost predicate Inv(cl: Callers, s: World) {
    RowsExclude(s.rows) && InsertsFree(cl, s) && ReturnsOwnKey(cl, s) && OneCreator(s)
  }

  lemma CommitKeeps(cl: Callers, s: World, w: nat)
    requires Inv(cl, s) && PhaseOf(s, w).Inserted?
    ensures Inv(cl, Step(cl, s, Commit(w)))
  {
    CommitRows(cl, s, w);
    CommitReturns(cl, s, w);
    CommitCreators(cl, s, w);
  }

  lemma CommitRows(cl: Callers, s: World, w: nat)
    requires RowsExclude(s.rows) && InsertsFree(cl, s) && PhaseOf(s, w).Inserted?
    ensures RowsExclude(Step(cl, s, Commit(w)).rows) && InsertsFree(cl, Step(cl, s, Commit(w)))
  {
    var n, c := Step(cl, s, Commit(w)), s.phases[w].row;
    forall v | v in n.phases && n.phases[v].Inserted? ensures !ClashesWithRows(n.rows, n.phases[v].row) {
      assert v != w && !ClashesWithRows(s.rows, s.phases[v].row) && !Excludes(c, s.phases[v].row);
      forall i | 0 <= i < |n.rows| ensures !Excludes(n.rows[i], n.phases[v].row) {
        if i < |s.rows| { assert n.rows[i] == s.rows[i]; }
      }
    }
    forall i, j | 0 <= i < j < |n.rows| ensures !Excludes(n.rows[i], n.rows[j]) {
      if j < |s.rows| { assert n.rows[i] == s.rows[i] && n.rows[j] == s.rows[j]; }
      else { assert !ClashesWithRows(s.rows, c) && n.rows[i] == s.rows[i]; }
    }
  }

  lemma CommitReturns(cl: Callers, s: World, w: nat)
    requires InsertsFree(cl, s) && ReturnsOwnKey(cl, s) && PhaseOf(s, w).Inserted?
    ensures ReturnsOwnKey(cl, Step(cl, s, Commit(w)))
  {
    var n, c := Step(cl, s, Commit(w)), s.phases[w].row;
    forall v | v in n.phases && n.phases[v].Returned? ensures RowOf(n.rows, n.phases[v].command, cl.request(v)) {
      if v == w {
        assert n.rows[|s.rows|] == c && SameKey(c, cl.request(w));
      } else {
        var i :| 0 <= i < |s.rows| && s.rows[i].commandId == s.phases[v].command.commandId
                 && SameKey(s.rows[i], cl.request(v));
        assert n.rows[i] == s.rows[i];
      }
    }
  }

  lemma CommitCreators(cl: Callers, s: World, w: nat)
    requires InsertsFree(cl, s) && OneCreator(s) && PhaseOf(s, w).Inserted?
    ensures OneCreator(Step(cl, s, Commit(w)))
  {
    var n, c := Step(cl, s, Commit(w)), s.phases[w].row;
    assert Creator(n, w, c.commandId);
    assert !ClashesWithRows(s.rows, c);
    forall v, id ensures Creator(n, v, id) <==> (if v == w then id == c.commandId else Creator(s, v, id)) {}
    forall i | 0 <= i < |n.rows| ensures HasCreator(n, n.rows[i].commandId) {
      if i < |s.rows| {
        assert HasCreator(s, s.rows[i].commandId);
        var v :| Creator(s, v, s.rows[i].commandId);
        assert Creator(n, v, n.rows[i].commandId);
      }
    }
    forall v, id | Creator(n, v, id) ensures HasRow(n.rows, id) {
      if v == w {
        assert n.rows[|s.rows|].commandId == id;
      } else {
        var i :| 0 <= i < |s.rows| && s.rows[i].commandId == id;
        assert n.rows[i].commandId == id;
      }
    }
  }

  lemma SameCreators(s: World, n: World)
    requires OneCreator(s) && |n.rows| == |s.rows|
    requires forall i | 0 <= i < |s.rows| :: n.rows[i].commandId == s.rows[i].commandId
    requires forall w, id :: Creator(n, w, id) <==> Creator(s, w, id)
    ensures OneCreator(n)
  {
    forall id ensures HasRow(s.rows, id) ==> HasRow(n.rows, id) {
      if HasRow(s.rows, id) {
        var i :| 0 <= i < |s.rows| && s.rows[i].commandId == id;
        assert n.rows[i].commandId == id;
      }
    }
    forall i | 0 <= i < |n.rows| ensures HasCreator(n, n.rows[i].commandId) {
      assert HasCreator(s, s.rows[i].commandId);
    }
  }

  /** A step that leaves the rows alone and creates nothing. */
  lemma QuietKeeps(cl: Callers, s: World, w: nat, p: Phase)
    requires Inv(cl, s) && !PhaseOf(s, w).Returned? && !(p.Returned? && p.created)
    requires p.Returned? ==> RowOf(s.rows, p.command, cl.request(w))
    requires p.Inserted? ==> p.row == Row(cl, w) && !ClashesWithRows(s.rows, p.row) && !HasToWait(s, w, p.row)
    ensures Inv(cl, To(s, w, p))
  {
    var n := To(s, w, p);
    SameCreators(s, n);
    forall a, b | a in n.phases && b in n.phases && a != b && n.phases[a].Inserted? && n.phases[b].Inserted?
      ensures !Excludes(n.phases[a].row, n.phases[b].row) {}
  }

  /** Changing only statuses of committed rows. */
  lemma RowsMoved(cl: Callers, s: World, n: World)
    requires RowsExclude(s.rows) && InsertsFree(cl, s) && n.phases == s.phases && |n.rows| == |s.rows|
    requires forall k | 0 <= k < |s.rows| :: n.rows[k] == s.rows[k].(status := n.rows[k].status)
    ensures RowsExclude(n.rows) && InsertsFree(cl, n)
  {
    forall w | w in n.phases && n.phases[w].Inserted? ensures !ClashesWithRows(n.rows, n.phases[w].row) {
      assert !ClashesWithRows(s.rows, s.phases[w].row);
    }
  }

  lemma ReturnsMoved(cl: Callers, s: World, n: World)
    requires ReturnsOwnKey(cl, s) && n.phases == s.phases && |n.rows| == |s.rows|
    requires forall k | 0 <= k < |s.rows| :: n.rows[k] == s.rows[k].(status := n.rows[k].status)
    ensures ReturnsOwnKey(cl, n)
  {
    forall w | w in n.phases && n.phases[w].Returned? ensures RowOf(n.rows, n.phases[w].command, cl.request(w)) {
      var k :| 0 <= k < |s.rows| && s.rows[k].commandId == s.phases[w].command.commandId
               && SameKey(s.rows[k], cl.request(w));
      assert n.rows[k].commandId == s.rows[k].commandId && SameKey(n.rows[k], cl.request(w));
    }
  }

  lemma MoveKeeps(cl: Callers, s: World, i: nat, to: Status)
    requires Inv(cl, s)
    ensures Inv(cl, Step(cl, s, Move(i, to)))
  {
    var n := Step(cl, s, Move(i, to));
    forall k | 0 <= k < |s.rows| ensures n.rows[k] == s.rows[k].(status := n.rows[k].status) {}
    hide RowsExclude, InsertsFree, ReturnsOwnKey, OneCreator, Step;
    RowsMoved(cl, s, n);
    ReturnsMoved(cl, s, n);
    SameCreators(s, n);
  }

  lemma StepKeeps(cl: Callers, s: World, e: Event)
    requires Inv(cl, s)
    ensures Inv(cl, Step(cl, s, e))
  {
    hide Inv;
    if e.Move? {
      MoveKeeps(cl, s, e.i, e.to);
    } else {
      var w, p, q := e.w, PhaseOf(s, e.w), cl.request(e.w);
      match e
      case LookUp(_) => if p.Start? { QuietKeeps(cl, s, w, AfterLookUp(s, w, q)); }
      case CheckPending(_) => if p.NotSeen? { QuietKeeps(cl, s, w, AfterPending(s, w, q)); }
      case CheckCycle(_) =>
        if p.NonePending? {
          QuietKeeps(cl, s, w, if q.kind.CycleStart? && IsCycleRunning(s.rows, q.device) then Refused else Cleared);
        }
      case Insert(_) =>
        if p.Cleared? && !HasToWait(s, w, Row(cl, w)) {
          QuietKeeps(cl, s, w, if ClashesWithRows(s.rows, Row(cl, w)) then Clashed else Inserted(Row(cl, w)));
        }
      case LookUpAgain(_) => if p.Clashed? { QuietKeeps(cl, s, w, AfterClash(s, w, q)); }
      case Commit(_) => if p.Inserted? { CommitKeeps(cl, s, w); }
      case Abort(_) => if !p.Returned? && !p.Refused? { QuietKeeps(cl, s, w, Raised); }
    }
  }

  /**
   Every interleaving leaves at most one row per (type, device, key); exactly one
   caller was told it created that row; every caller that returned holds it.
   */
  lemma {:induction false} RunKeeps(cl: Callers, events: seq<Event>)
    ensures Inv(cl, Run(cl, events))
    decreases |events|
  {
    if events != [] {
      hide Inv;
      RunKeeps(cl, events[..|events| - 1]);
      StepKeeps(cl, Run(cl, events[..|events| - 1]), events[|events| - 1]);
    }
  }

  /** Two callers with the same type, device and key that return hold the same row. */
  lemma SameKeySameRow(cl: Callers, events: seq<Event>, v: nat, w: nat)
    requires var s := Run(cl, events); PhaseOf(s, v).Returned? && PhaseOf(s, w).Returned?
    requires cl.request(v).kind == cl.request(w).kind && cl.request(v).device == cl.request(w).device
    requires cl.request(v).key == cl.request(w).key
    ensures var a, b := PhaseOf(Run(cl, events), v), PhaseOf(Run(cl, events), w);
            a.command.commandId == b.command.commandId && (v != w ==> !(a.created && b.created))
  {
    RunKeeps(cl, events);
    var s := Run(cl, events);
    var a, b := s.phases[v].command, s.phases[w].command;
    assert RowOf(s.rows, a, cl.request(v)) && RowOf(s.rows, b, cl.request(w));
    var i :| 0 <= i < |s.rows| && s.rows[i].commandId == a.commandId && SameKey(s.rows[i], cl.request(v));
    var j :| 0 <= j < |s.rows| && s.rows[j].commandId == b.commandId && SameKey(s.rows[j], cl.request(w));
    assert !(i < j) && !(j < i);
    if s.phases[v].created && s.phases[w].created {
      assert Creator(s, v, a.commandId) && Creator(s, w, a.commandId);
    }
  }

  // ---------------------------------------------------------------- what the index does not give

  lemma RunNext(cl: Callers, events: seq<Event>, e: Event)
    ensures Run(cl, events + [e]) == Step(cl, Run(cl, events), e)
  {
    assert (events + [e])[..|events|] == events;
  }

  /** On an empty table the three checks pass, and only the caller's phase has changed. */
  lemma CheckSteps(cl: Callers, s: World, w: nat)
    requires s.rows == [] && PhaseOf(s, w).Start? && cl.request(w).device in DEVICES
    ensures Step(cl, Step(cl, Step(cl, s, LookUp(w)), CheckPending(w)), CheckCycle(w))
         == World([], s.phases[w := Cleared])
  {
    var s1 := Step(cl, s, LookUp(w));
    var s2 := Step(cl, s1, CheckPending(w));
    assert s2.rows == [] && s2.phases[w := Cleared] == s.phases[w := Cleared];
  }

  lemma ChecksPass(cl: Callers, events: seq<Event>, w: nat) returns (more: seq<Event>)
    requires var s := Run(cl, events); s.rows == [] && PhaseOf(s, w).Start?
    requires cl.request(w).device in DEVICES
    ensures var s, n := Run(cl, events), Run(cl, more);
            && n.rows == [] && PhaseOf(n, w).Cleared? && (forall v: nat | v != w :: PhaseOf(n, v) == PhaseOf(s, v))
            && (forall v | v in n.phases && n.phases[v].Inserted? :: v in s.phases && s.phases[v].Inserted?)
  {
    hide Step, Run;
    CheckSteps(cl, Run(cl, events), w);
    RunNext(cl, events, LookUp(w));
    RunNext(cl, events + [LookUp(w)], CheckPending(w));
    RunNext(cl, events + [LookUp(w)] + [CheckPending(w)], CheckCycle(w));
    more := events + [LookUp(w)] + [CheckPending(w)] + [CheckCycle(w)];
  }

  lemma CommitsRow(cl: Callers, events: seq<Event>, w: nat) returns (more: seq<Event>)
    requires var s := Run(cl, events);
             PhaseOf(s, w).Cleared? && !ClashesWithRows(s.rows, Row(cl, w))
             && forall v | v in s.phases :: !s.phases[v].Inserted?
    ensures var s, n := Run(cl, events), Run(cl, more);
            && n.rows == s.rows + [Row(cl, w)]
            && (forall v: nat | v != w :: PhaseOf(n, v) == PhaseOf(s, v))
            && (forall v | v in n.phases :: !n.phases[v].Inserted?)
  {
    RunNext(cl, events, Insert(w));
    RunNext(cl, events + [Insert(w)], Commit(w));
    more := events + [Insert(w)] + [Commit(w)];
  }

  /** Two callers ask for one type on one known device under different keys. */
  predicate Rivals(cl: Callers, v: nat, w: nat) {
    && cl.request(v).kind == cl.request(w).kind && cl.request(v).device == cl.request(w).device
    && cl.request(v).device in DEVICES && cl.request(v).key != cl.request(w).key
  }

  ghost predicate DistinctNewIds(cl: Callers) {
    forall v: nat, w: nat | v != w :: cl.newId(v) != cl.newId(w)
  }

  /**
   The pending check is not backed by a constraint: any two callers with different keys
   that both check before either commits leave two commands of one device and type
   awaiting confirmation.
   */
  lemma TwoPending(cl: Callers, v: nat, w: nat) returns (events: seq<Event>)
    requires Rivals(cl, v, w) && cl.newId(v) != cl.newId(w)
    ensures Run(cl, events).rows == [Row(cl, v), Row(cl, w)]
    ensures !OnePending(Run(cl, events).rows)
  {
    assert Run(cl, []) == INIT;
    assert v != w && !Excludes(Row(cl, v), Row(cl, w));
    hide Run, Excludes;
    var one := ChecksPass(cl, [], v);
    var two := ChecksPass(cl, one, w);
    var three := CommitsRow(cl, two, v);
    assert !ClashesWithRows([Row(cl, v)], Row(cl, w));
    events := CommitsRow(cl, three, w);
    var rows := Run(cl, events).rows;
    assert SameSlot(rows[0], rows[1]) && InFlight(rows[0].status) && InFlight(rows[1].status);
  }

  // ---------------------------------------------------------------- when the pending rule does hold

  predicate PastLookUp(p: Phase) {
    p.NotSeen? || p.NonePending? || p.Cleared? || p.Inserted? || p.Clashed?
  }

  /** Only requests for known devices get past the first check, so only those are committed. */
  ghost predicate KnownDevices(cl: Callers, s: World) {
    && (forall w | w in s.phases && PastLookUp(s.phases[w]) :: cl.request(w).device in DEVICES)
    && (forall w | w in s.phases && s.phases[w].Inserted? :: s.phases[w].row.device in DEVICES)
    && forall i | 0 <= i < |s.rows| :: s.rows[i].device in DEVICES
  }

  lemma StepKnown(cl: Callers, s: World, e: Event)
    requires KnownDevices(cl, s)
    ensures KnownDevices(cl, Step(cl, s, e))
  {
    hide ByIdempotency, ActivePending, IsCycleRunning, ClashesWithRows, HasToWait;
  }

  lemma {:induction false} RunKnown(cl: Callers, events: seq<Event>)
    ensures KnownDevices(cl, Run(cl, events))
    decreases |events|
  {
    if events != [] {
      RunKnown(cl, events[..|events| - 1]);
      StepKnown(cl, Run(cl, events[..|events| - 1]), events[|events| - 1]);
      hide Step, KnownDevices;
    }
  }

  /** The caller that created a row asked for exactly that type, device and key. */
  lemma CreatorOf(cl: Callers, s: World, i: nat) returns (w: nat)
    requires Inv(cl, s) && i < |s.rows|
    ensures SameKey(s.rows[i], cl.request(w))
  {
    hide InsertsFree;
    assert HasCreator(s, s.rows[i].commandId);
    w :| Creator(s, w, s.rows[i].commandId);
    assert RowOf(s.rows, s.phases[w].command, cl.request(w));
    var j :| 0 <= j < |s.rows| && s.rows[j].commandId == s.phases[w].command.commandId
             && SameKey(s.rows[j], cl.request(w));
    assert !(i < j) && !(j < i);
  }

  lemma NoRivalsOnePending(cl: Callers, events: seq<Event>)
    requires forall v: nat, w: nat :: !Rivals(cl, v, w)
    ensures OnePending(Run(cl, events).rows)
  {
    RunKeeps(cl, events);
    RunKnown(cl, events);
    var s := Run(cl, events);
    hide Run, InsertsFree, ReturnsOwnKey, OneCreator;
    forall i: nat, j: nat | i < j < |s.rows| ensures !SameSlot(s.rows[i], s.rows[j]) {
      var v := CreatorOf(cl, s, i);
      var w := CreatorOf(cl, s, j);
      assert !Rivals(cl, v, w);
      assert !Excludes(s.rows[i], s.rows[j]);
    }
  }

  /**
   At most one command of a device and type awaits confirmation in every interleaving
   exactly when all callers for one type and one known device use one key.
   */
  lemma OnePendingExactly(cl: Callers)
    requires DistinctNewIds(cl)
    ensures (forall events: seq<Event> :: OnePending(Run(cl, events).rows))
            <==> (forall v: nat, w: nat :: !Rivals(cl, v, w))
  {
    hide Run, Rivals, OnePending;
    if forall v: nat, w: nat :: !Rivals(cl, v, w) {
      forall events: seq<Event> ensures OnePending(Run(cl, events).rows) { NoRivalsOnePending(cl, events); }
    }
    if v: nat, w: nat :| Rivals(cl, v, w) {
      RivalsDiffer(cl, v, w);
      var events := TwoPending(cl, v, w);
      assert !OnePending(Run(cl, events).rows);
    }
  }

  lemma RivalsDiffer(cl: Callers, v: nat, w: nat)
    requires Rivals(cl, v, w)
    ensures v != w
  {
  }

  // ---------------------------------------------------------------- what a caller that lost the race gets

  /** Row `k` is the last one that satisfies the test. */
  ghost predicate IsLast(rows: seq<Command>, k: nat, p: Command -> bool) {
    k < |rows| && p(rows[k]) && forall j: nat | k < j < |rows| :: !p(rows[j])
  }

  /** Committed rows stay, a finished command for good; a status is only ever moved along a legal step. */
  lemma RowsStay(cl: Callers, s: World, e: Event)
    ensures var n := Step(cl, s, e);
            && |s.rows| <= |n.rows| <= |s.rows| + 1
            && forall i | 0 <= i < |s.rows| ::
                 var was, to := s.rows[i], n.rows[i].status;
                 && n.rows[i] == was.(status := to)
                 && (|| to == was.status
                     || (was.status.Submitted? && (to.Accepted? || to.Rejected? || to.TimedOut?))
                     || (was.status.Accepted? && (to.Completed? || to.Failed? || to.TimedOut?)))
  {
    hide ByIdempotency, ActivePending, IsCycleRunning, HasToWait, ClashesWithRows, NewCommand;
  }

  /** Finding a command of its type and device pending, a caller gets it under its own key and is refused otherwise. */
  lemma PendingResolved(cl: Callers, s: World, w: nat, k: nat)
    requires PhaseOf(s, w).NotSeen?
    requires IsLast(s.rows, k, (c: Command) => CommandRecords.Awaits(c, cl.request(w)))
    ensures Step(cl, s, CheckPending(w))
         == To(s, w, if s.rows[k].key == cl.request(w).key then Returned(s.rows[k], false) else Refused)
  {
    var q := cl.request(w);
    assert forall c: Command :: CommandRecords.Awaits(c, q) <==>
             c.device == q.device && c.kind == q.kind && InFlight(c.status);
    assert ActivePending(s.rows, q.device, q.kind) == Some(k);
  }

  /** A caller whose insert failed gets the row that bears its own key, and raises only when there is none. */
  lemma ClashResolved(cl: Callers, s: World, w: nat)
    requires PhaseOf(s, w).Clashed?
    ensures forall k: nat | IsLast(s.rows, k, (c: Command) => CommandRecords.Repeats(c, cl.request(w))) ::
              Step(cl, s, LookUpAgain(w)) == To(s, w, Returned(s.rows[k], false))
    ensures !CommandRecords.Repeated(s.rows, cl.request(w)) ==> Step(cl, s, LookUpAgain(w)) == To(s, w, Raised)
  {
    var q := cl.request(w);
    CommandRecords.RepeatedIs(s.rows, q);
    assert forall c: Command :: CommandRecords.Repeats(c, q) <==> SameKey(c, q);
    forall k: nat | IsLast(s.rows, k, (c: Command) => CommandRecords.Repeats(c, q))
      ensures ByIdempotency(s.rows, q) == Some(k)
    {
    }
    hide ByIdempotency, CommandRecords.Repeated;
  }

  /** Giving up is possible until there is an answer, and leaves the rows as they are. */
  lemma AbortsExactly(cl: Callers, s: World, w: nat)
    ensures var p := PhaseOf(s, w);
            Step(cl, s, Abort(w)) == if p.Returned? || p.Refused? then s else s.(phases := s.phases[w := Raised])
  {
  }

  // ---------------------------------------------------------------- one caller at a time

  /** All statements of one caller, with nobody else in between. */
  function Checks(cl: Callers, s: World, w: nat): World {
    Step(cl, Step(cl, Step(cl, s, LookUp(w)), CheckPending(w)), CheckCycle(w))
  }

  function Inserts(cl: Callers, s: World, w: nat): World {
    Step(cl, Step(cl, Step(cl, s, Insert(w)), LookUpAgain(w)), Commit(w))
  }

  /** Where the checks alone lead. */
  function Verdict(rows: seq<Command>, q: Request): Phase {
    var i, k := ByIdempotency(rows, q), ActivePending(rows, q.device, q.kind);
    if q.device !in DEVICES then Refused
    else if i.Some? then Returned(rows[i.value], false)
    else if k.Some? then Refused
    else if q.kind.CycleStart? && IsCycleRunning(rows, q.device) then Refused
    else Cleared
  }

  lemma ToTwice(s: World, w: nat, p: Phase, q: Phase)
    ensures To(To(s, w, p), w, q) == To(s, w, q) && PhaseOf(To(s, w, p), w) == p
  {
    assert s.phases[w := p][w := q] == s.phases[w := q];
  }

  /** A caller that has its answer does nothing more. */
  lemma AnswerStays(cl: Callers, s: World, w: nat)
    requires var p := PhaseOf(s, w); p.Returned? || p.Refused? || p.Raised?
    ensures Step(cl, s, CheckPending(w)) == s && Step(cl, s, CheckCycle(w)) == s
    ensures Step(cl, s, Insert(w)) == s && Step(cl, s, LookUpAgain(w)) == s && Step(cl, s, Commit(w)) == s
  {
    hide HasToWait, ClashesWithRows, AfterPending, AfterClash, IsCycleRunning;
  }

  lemma FirstChecks(cl: Callers, s: World, w: nat)
    requires PhaseOf(s, w).Start?
    ensures Step(cl, s, LookUp(w)) == To(s, w, AfterLookUp(s, w, cl.request(w)))
    ensures forall p: Phase | p.NotSeen? ::
              Step(cl, To(s, w, p), CheckPending(w)) == To(s, w, AfterPending(s, w, cl.request(w)))
    ensures forall p: Phase | p.NonePending? ::
              Step(cl, To(s, w, p), CheckCycle(w))
              == To(s, w, if cl.request(w).kind.CycleStart? && IsCycleRunning(s.rows, cl.request(w).device)
                          then Refused else Cleared)
  {
    hide IsCycleRunning, ByIdempotency, ActivePending;
    forall p: Phase, r: Phase { ToTwice(s, w, p, r); }
  }

  lemma ChecksDecide(cl: Callers, s: World, w: nat)
    requires PhaseOf(s, w).Start?
    ensures Checks(cl, s, w) == To(s, w, Verdict(s.rows, cl.request(w)))
  {
    var q := cl.request(w);
    PendingRepeats(s.rows, q);
    FirstChecks(cl, s, w);
    var p1, p2 := AfterLookUp(s, w, q), AfterPending(s, w, q);
    ToTwice(s, w, p1, p1);
    ToTwice(s, w, p2, p2);
    hide Step, To, ByIdempotency, ActivePending, IsCycleRunning, PhaseOf;
    if !p1.NotSeen? {
      AnswerStays(cl, To(s, w, p1), w);
    } else if !p2.NonePending? {
      AnswerStays(cl, To(s, w, p2), w);
    }
  }

  lemma InsertsCommit(cl: Callers, s: World, w: nat, rows: seq<Command>)
    requires PhaseOf(s, w).Cleared? && s.rows == rows && !HasToWait(s, w, Row(cl, w))
    requires ByIdempotency(rows, cl.request(w)).None?
    ensures var n := Inserts(cl, s, w);
            && n.rows == (if ById(rows, cl.newId(w)).Some? then rows else rows + [Row(cl, w)])
            && PhaseOf(n, w) == (if ById(rows, cl.newId(w)).Some? then Raised else Returned(Row(cl, w), true))
            && forall v: nat | v != w :: PhaseOf(n, v) == PhaseOf(s, v)
  {
    ClashIsKnown(rows, cl.request(w), cl.newId(w), cl.now(w));
    hide ById, ByIdempotency, ClashesWithRows, HasToWait, NewCommand;
    var s1 := Step(cl, s, Insert(w));
    if ClashesWithRows(rows, Row(cl, w)) {
      assert s1 == To(s, w, Clashed);
      assert Step(cl, s1, LookUpAgain(w)) == To(s1, w, Raised);
    } else {
      assert s1 == To(s, w, Inserted(Row(cl, w)));
      assert Step(cl, s1, LookUpAgain(w)) == s1;
    }
  }

  function Alone(cl: Callers, s: World, w: nat): World {
    Inserts(cl, Checks(cl, s, w), w)
  }

  /** What the caller has in hand at the end, for each answer of the atomic call. */
  predicate Matches(p: Phase, r: Outcome) {
    match r
    case Created(c) => p == Returned(c, true)
    case Replayed(c) => p == Returned(c, false)
    case IntegrityError => p.Raised?
    case _ => p.Refused?
  }

  /**
   A caller that runs without interruption, while nobody has an uncommitted row, does what
   the atomic call does: the same rows, and the same answer.
   */
  lemma AloneIsAtomic(cl: Callers, s: World, w: nat)
    requires PhaseOf(s, w).Start? && forall v | v in s.phases :: !s.phases[v].Inserted?
    ensures var (n, r) := Submitting(Db(s.rows, []), cl.request(w), cl.newId(w), cl.now(w));
            var after := Alone(cl, s, w);
            && after.rows == n.commands && Matches(PhaseOf(after, w), r)
            && forall v: nat | v != w :: PhaseOf(after, v) == PhaseOf(s, v)
  {
    var q := cl.request(w);
    var p := Verdict(s.rows, q);
    var s3 := To(s, w, p);
    ChecksDecide(cl, s, w);
    PendingRepeats(s.rows, q);
    ToTwice(s, w, p, p);
    hide Step, ByIdempotency, ActivePending, IsCycleRunning, ById;
    if p.Cleared? {
      assert !HasToWait(s3, w, Row(cl, w));
      InsertsCommit(cl, s3, w, s.rows);
      hide Inserts, NewCommand, HasToWait;
    } else {
      AnswerStays(cl, s3, w);
    }
    hide Checks;
  }

  /** A pending command with the caller's own key would have been found by the first statement. */
  lemma PendingRepeats(rows: seq<Command>, q: Request)
    ensures ByIdempotency(rows, q).None? && ActivePending(rows, q.device, q.kind).Some? ==>
              rows[ActivePending(rows, q.device, q.kind).value].key != q.key
    ensures ByIdempotency(rows, q).Some? ==> ByIdempotency(rows, q).value < |rows|
    ensures ActivePending(rows, q.device, q.kind).Some? ==> ActivePending(rows, q.device, q.kind).value < |rows|
  {
  }

  lemma ClashIsKnown(rows: seq<Command>, q: Request, id: string, now: int)
    requires ByIdempotency(rows, q).None?
    ensures ClashesWithRows(rows, NewCommand(q, id, now)) <==> ById(rows, id).Some?
  {
    if ClashesWithRows(rows, NewCommand(q, id, now)) {
      var i :| 0 <= i < |rows| && Excludes(rows[i], NewCommand(q, id, now));
    }
  }
}
