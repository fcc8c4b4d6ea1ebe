/**
 Any number of transactions appending to the audit log at once, interleaved at
 their statements under READ COMMITTED (`app/repositories/pg/audit_repo.py:67-84`).

 A transaction takes the advisory lock, reads the head, inserts a row chained to
 it, possibly again, and commits or rolls back; both release the lock. A statement
 sees the committed rows and the transaction's own. Ids come from a sequence that
 a rollback does not give back.
 */
module AuditWriters {
  import opened Common
  import opened AuditChain
  import opened AuditLog

  datatype Phase = Open | Locked | HeadRead(prev: string)

  datatype Txn = Txn(phase: Phase, pending: seq<Row>)

  const IDLE := Txn(Open, [])

  datatype World = World(committed: seq<Row>, nextId: nat, holder: Option<nat>, txns: map<nat, Txn>)

  datatype Action =
    | Lock(w: nat)
    | ReadHead(w: nat)
    | Insert(w: nat, event: AuditEvent)
    | Commit(w: nat)
    | Rollback(w: nat)

  const INIT := World([], 0, None, map[])

  function TxnOf(s: World, w: nat): Txn {
    if w in s.txns then s.txns[w] else IDLE
  }

  function Seen(s: World, w: nat): seq<Row> {
    s.committed + TxnOf(s, w).pending
  }

  /** The state after a statement; a statement that has to wait, or is not next, leaves it. */
  function Step(rh: RowHash, s: World, a: Action): World {
    var t := TxnOf(s, a.w);
    match a
    case Lock(w) =>
      if t.phase.Open? && (s.holder.None? || s.holder == Some(w)) then
        s.(holder := Some(w), txns := s.txns[w := t.(phase := Locked)])
      else s
    case ReadHead(w) =>
      if t.phase.Locked? then s.(txns := s.txns[w := t.(phase := HeadRead(HeadHash(Seen(s, w))))]) else s
    case Insert(w, event) =>
      if t.phase.HeadRead? then
        var row := ChainRow(rh, s.nextId, t.phase.prev, event);
        if Clashes(Seen(s, w), row) then End(s, w, []).(nextId := s.nextId + 1)
        else s.(nextId := s.nextId + 1, txns := s.txns[w := Txn(Open, t.pending + [row])])
      else s
    case Commit(w) => if t.phase.Open? then End(s, w, t.pending) else s
    case Rollback(w) => End(s, w, [])
  }

  /** The transaction ends, leaving these rows behind, and its lock is released. */
  function End(s: World, w: nat, rows: seq<Row>): World {
    World(s.committed + rows, s.nextId, if s.holder == Some(w) then None else s.holder, s.txns[w := IDLE])
  }

  function Run(rh: RowHash, s: World, actions: seq<Action>): World
    decreases |actions|
  {
    if actions == [] then s
    else
      var n := |actions| - 1;
      Step(rh, Run(rh, s, actions[..n]), actions[n])
  }

  /** The committed rows and those of the transaction holding the lock. */
  function All(s: World): seq<Row> {
    if s.holder.Some? then Seen(s, s.holder.value) else s.committed
  }

  /** Only the lock holder has anything in progress, and its rows continue the chain. */
  ghost predicate Inv(rh: RowHash, s: World) {
    && (forall w: nat | s.holder != Some(w) :: TxnOf(s, w) == IDLE)
    && TableOk(rh, All(s), s.nextId)
    && (s.holder.Some? && TxnOf(s, s.holder.value).phase.HeadRead? ==>
          TxnOf(s, s.holder.value).phase.prev == LastHash(All(s)))
  }

  lemma EndKeeps(rh: RowHash, s: World, w: nat, commit: bool)
    requires Inv(rh, s)
    ensures Inv(rh, End(s, w, if commit then TxnOf(s, w).pending else []))
  {
    hide TableOk;
    var n := End(s, w, if commit then TxnOf(s, w).pending else []);
    forall v: nat | n.holder != Some(v) ensures TxnOf(n, v) == IDLE {}
    if s.holder == Some(w) {
      if commit {
        assert All(n) == All(s);
      } else {
        PrefixKeeps(rh, All(s), s.nextId, |s.committed|);
        assert All(n) == s.committed == All(s)[..|s.committed|];
      }
    } else {
      assert All(n) == All(s);
    }
  }

  lemma InsertKeeps(rh: RowHash, s: World, w: nat, e: AuditEvent)
    requires Inv(rh, s) && TxnOf(s, w).phase.HeadRead?
    ensures Inv(rh, Step(rh, s, Insert(w, e)))
  {
    hide TableOk;
    var n := Step(rh, s, Insert(w, e));
    var row := ChainRow(rh, s.nextId, TxnOf(s, w).phase.prev, e);
    assert s.holder == Some(w);
    forall v: nat | n.holder != Some(v) ensures TxnOf(n, v) == IDLE {}
    if Clashes(Seen(s, w), row) {
      PrefixKeeps(rh, All(s), s.nextId, |s.committed|);
      assert All(s)[..|s.committed|] == s.committed;
      BoundKeeps(rh, s.committed, s.nextId);
      assert All(n) == s.committed;
    } else {
      AppendKeeps(rh, All(s), s.nextId, e);
      assert All(n) == All(s) + [row];
    }
  }

  lemma BoundKeeps(rh: RowHash, rows: seq<Row>, nextId: nat)
    requires TableOk(rh, rows, nextId)
    ensures TableOk(rh, rows, nextId + 1)
  {
  }

  lemma StepKeeps(rh: RowHash, s: World, a: Action)
    requires FullLength(rh) && Inv(rh, s)
    ensures Inv(rh, Step(rh, s, a))
  {
    hide TableOk;
    var n := Step(rh, s, a);
    match a
    case Insert(w, e) =>
      if TxnOf(s, w).phase.HeadRead? { InsertKeeps(rh, s, w, e); }
    case Commit(w) => EndKeeps(rh, s, w, true);
    case Rollback(w) => EndKeeps(rh, s, w, false);
    case _ =>
      HeadIsLast(rh, All(s), s.nextId);
      forall v: nat | n.holder != Some(v) ensures TxnOf(n, v) == IDLE {}
      assert All(n) == All(s) by { assert TxnOf(s, a.w).pending == TxnOf(n, a.w).pending; }
  }

  lemma {:induction false} RunKeeps(rh: RowHash, actions: seq<Action>)
    requires FullLength(rh)
    ensures Inv(rh, Run(rh, INIT, actions))
    decreases |actions|
  {
    if actions != [] {
      var n := |actions| - 1;
      RunKeeps(rh, actions[..n]);
      StepKeeps(rh, Run(rh, INIT, actions[..n]), actions[n]);
    }
  }

  /**
   In every interleaving of any number of writers the committed rows, read in id
   order, pass `verify_chain`, and no two of them share a `prev_hash` unless one
   of them hashes to the genesis value.
   */
  lemma NoForkEver(h: Hash, rh: RowHash, actions: seq<Action>)
    requires IsDigest(h) && Computes(rh, h)
    ensures var rows := Run(rh, INIT, actions).committed;
            && Verified(h, RowDicts(IdOrder(rows)))
            && forall i, j | 0 <= i < j < |rows| && rows[i].prevHash == rows[j].prevHash ::
                 i == 0 && rows[j - 1].entryHash == GENESIS_HASH
  {
    forall p, e ensures |rh(p, e)| == DIGEST_LEN { assert rh(p, e) == ComputeEntryHash(h, p, BusinessDict(e)); }
    RunKeeps(rh, actions);
    var s := Run(rh, INIT, actions);
    var rows := s.committed;
    PrefixKeeps(rh, All(s), s.nextId, |rows|);
    assert All(s)[..|rows|] == rows;
    TableVerifies(h, rh, rows, s.nextId);
    forall i, j | 0 <= i < j < |rows| && rows[i].prevHash == rows[j].prevHash
      ensures i == 0 && rows[j - 1].entryHash == GENESIS_HASH
    {
      NoFork(rh, rows, s.nextId, i, j);
    }
  }

  /** Committed rows are never changed, moved or removed by a later statement. */
  lemma {:induction false} AppendOnly(rh: RowHash, s: World, actions: seq<Action>)
    ensures s.committed <= Run(rh, s, actions).committed
    decreases |actions|
  {
    if actions != [] {
      AppendOnly(rh, s, actions[..|actions| - 1]);
    }
  }

  /**
   What each statement may touch: only a commit adds rows, its own, in order; commit and
   rollback leave the transaction idle and without the lock; only an insert that is next
   takes an id, and takes it for good, even when it fails.
   */
  lemma StatementsExactly(rh: RowHash, s: World, a: Action)
    ensures var n, t := Step(rh, s, a), TxnOf(s, a.w);
            && n.committed == (if a.Commit? && t.phase.Open? then s.committed + t.pending else s.committed)
            && n.nextId == (if a.Insert? && t.phase.HeadRead? then s.nextId + 1 else s.nextId)
            && (a.Rollback? || (a.Commit? && t.phase.Open?) ==> n.holder != Some(a.w) && TxnOf(n, a.w) == IDLE)
            && (a.Lock? && t.phase.Open? && s.holder.None? ==> n.holder == Some(a.w))
            && (s.holder.Some? && s.holder.value != a.w ==> n.holder == s.holder)
            && forall v: nat | v != a.w :: TxnOf(n, v) == TxnOf(s, v)
  {
    hide Clashes, HeadHash, ChainRow;
  }

  lemma RunThen(rh: RowHash, s: World, actions: seq<Action>, a: Action)
    ensures Run(rh, s, actions + [a]) == Step(rh, Run(rh, s, actions), a)
  {
    assert (actions + [a])[..|actions|] == actions;
  }

  lemma ClashesIs(rows: seq<Row>, row: Row)
    ensures Clashes(rows, row)
            <==> exists r <- rows :: r.entryHash == row.entryHash || r.event.eventId == row.event.eventId
  {
    if Clashes(rows, row) {
      var i :| 0 <= i < |rows| && (rows[i].entryHash == row.entryHash || rows[i].event.eventId == row.event.eventId);
      assert rows[i] in rows;
    }
  }

  /**
   From any reachable state in which nobody holds the lock, a writer that takes it, reads,
   inserts and commits adds exactly one row, chained from the last, unless it clashes.
   */
  lemma WriterAppends(rh: RowHash, actions: seq<Action>, w: nat, e: AuditEvent)
    requires FullLength(rh) && Run(rh, INIT, actions).holder.None?
    ensures var s := Run(rh, INIT, actions);
            var n := Run(rh, INIT, actions + [Lock(w)] + [ReadHead(w)] + [Insert(w, e)] + [Commit(w)]);
            var row := ChainRow(rh, s.nextId, LastHash(s.committed), e);
            var taken := exists r <- s.committed :: r.entryHash == row.entryHash || r.event.eventId == e.eventId;
            n.holder.None? && n.committed == if taken then s.committed else s.committed + [row]
  {
    var s := Run(rh, INIT, actions);
    RunKeeps(rh, actions);
    RunThen(rh, INIT, actions, Lock(w));
    RunThen(rh, INIT, actions + [Lock(w)], ReadHead(w));
    RunThen(rh, INIT, actions + [Lock(w)] + [ReadHead(w)], Insert(w, e));
    RunThen(rh, INIT, actions + [Lock(w)] + [ReadHead(w)] + [Insert(w, e)], Commit(w));
    assert TxnOf(s, w) == IDLE && s.committed + [] == s.committed;
    HeadIsLast(rh, s.committed, s.nextId);
    ClashesIs(s.committed, ChainRow(rh, s.nextId, LastHash(s.committed), e));
    hide Run, TableOk, HeadHash, LastHash, Clashes;
    var locked := Step(rh, s, Lock(w));
    assert Seen(locked, w) == s.committed;
    var ready := Step(rh, locked, ReadHead(w));
    assert Seen(ready, w) == s.committed && TxnOf(ready, w) == Txn(HeadRead(LastHash(s.committed)), []);
  }

  // ---------------------------------------------------------------- the same statements without the lock

  /** The head is read without waiting for the lock; nothing else changes. */
  function StepUnlocked(rh: RowHash, s: World, a: Action): World {
    match a
    case Lock(w) => s
    case ReadHead(w) =>
      var t := TxnOf(s, w);
      if t.phase.Open? then s.(txns := s.txns[w := t.(phase := HeadRead(HeadHash(Seen(s, w))))]) else s
    case _ => Step(rh, s, a)
  }

  function RunUnlocked(rh: RowHash, s: World, actions: seq<Action>): World
    decreases |actions|
  {
    if actions == [] then s
    else
      var n := |actions| - 1;
      StepUnlocked(rh, RunUnlocked(rh, s, actions[..n]), actions[n])
  }

  lemma UnlockedNext(rh: RowHash, s: World, actions: seq<Action>, a: Action)
    ensures RunUnlocked(rh, s, actions + [a]) == StepUnlocked(rh, RunUnlocked(rh, s, actions), a)
  {
    assert (actions + [a])[..|actions|] == actions;
  }

  /** Two transactions that both read the head before either commits. */
  lemma BothRead(rh: RowHash) returns (actions: seq<Action>)
    ensures var both := Txn(HeadRead(GENESIS_HASH), []);
            RunUnlocked(rh, INIT, actions) == INIT.(txns := map[0 := both, 1 := both])
  {
    var both := Txn(HeadRead(GENESIS_HASH), []);
    UnlockedNext(rh, INIT, [], ReadHead(0));
    UnlockedNext(rh, INIT, [] + [ReadHead(0)], ReadHead(1));
    actions := [] + [ReadHead(0)] + [ReadHead(1)];
    assert RunUnlocked(rh, INIT, []) == INIT;
    hide RunUnlocked;
    assert RunUnlocked(rh, INIT, [] + [ReadHead(0)]) == INIT.(txns := map[0 := both]);
    assert map[0 := both][1 := both] == map[0 := both, 1 := both];
  }

  /** A transaction that has read the head inserts its row and commits it. */
  lemma InsertsAndCommits(rh: RowHash, s: World, actions: seq<Action>, w: nat, e: AuditEvent)
    requires s == RunUnlocked(rh, INIT, actions) && TxnOf(s, w).phase.HeadRead? && TxnOf(s, w).pending == []
    requires !Clashes(s.committed, ChainRow(rh, s.nextId, TxnOf(s, w).phase.prev, e))
    ensures var n := RunUnlocked(rh, INIT, actions + [Insert(w, e)] + [Commit(w)]);
            && n.committed == s.committed + [ChainRow(rh, s.nextId, TxnOf(s, w).phase.prev, e)]
            && forall v: nat | v != w :: TxnOf(n, v) == TxnOf(s, v)
  {
    UnlockedNext(rh, INIT, actions, Insert(w, e));
    UnlockedNext(rh, INIT, actions + [Insert(w, e)], Commit(w));
    hide RunUnlocked, Clashes, HeadHash;
    assert Seen(s, w) == s.committed;
  }

  /** Why the lock is there: without it some run leaves two committed rows chained from one value. */
  lemma ForkWithoutLock(rh: RowHash, a: AuditEvent, b: AuditEvent) returns (actions: seq<Action>)
    requires a.eventId != b.eventId && rh(GENESIS_HASH, a) != rh(GENESIS_HASH, b)
    ensures var rows := RunUnlocked(rh, INIT, actions).committed;
            |rows| == 2 && rows[0].prevHash == rows[1].prevHash
  {
    hide RunUnlocked;
    var start := BothRead(rh);
    var s := RunUnlocked(rh, INIT, start);
    InsertsAndCommits(rh, s, start, 0, a);
    var first := start + [Insert(0, a)] + [Commit(0)];
    var one := RunUnlocked(rh, INIT, first);
    assert one.committed == [ChainRow(rh, 0, GENESIS_HASH, a)];
    InsertsAndCommits(rh, one, first, 1, b);
    actions := first + [Insert(1, b)] + [Commit(1)];
  }
}
