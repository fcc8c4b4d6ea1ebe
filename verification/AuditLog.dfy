/**
 Appending to the audit log: `app/repositories/pg/audit_repo.py` and
 `app/services/audit_service.py`, one transaction at a time.
 */
module AuditLog {
  import opened Common
  import opened Json
  import opened JsonRoundTrip
  import opened AuditChain

  /** The hashed columns of `audit_events`; times are already rendered as UTC ISO 8601. */
  datatype AuditEvent = AuditEvent(
    eventId: string, ts: string, correlationId: Option<string>, commandId: Option<string>,
    userId: Option<string>, role: Option<string>, sourceIp: Option<string>, action: string,
    targetDevice: Option<string>, scenarioId: Option<string>, oldValue: Value, newValue: Value,
    reason: Option<string>, proposedAt: Option<string>, approvedAt: Option<string>,
    executedAt: Option<string>, result: Option<string>, modelVersion: Option<string>, mode: Option<string>)

  datatype Row = Row(id: nat, event: AuditEvent, prevHash: string, entryHash: string)

  function Text(o: Option<string>): Value {
    match o
    case None => Null
    case Some(s) => Str(s)
  }

  /** The column values in the order of `HASHED_FIELDS`. */
  function Columns(e: AuditEvent): seq<Value> {
    RequestColumns(e) + ChangeColumns(e)
  }

  function RequestColumns(e: AuditEvent): seq<Value> {
    [Str(e.eventId), Str(e.ts), Text(e.correlationId), Text(e.commandId), Text(e.userId), Text(e.role),
     Text(e.sourceIp), Str(e.action), Text(e.targetDevice), Text(e.scenarioId)]
  }

  function ChangeColumns(e: AuditEvent): seq<Value> {
    [e.oldValue, e.newValue, Text(e.reason), Text(e.proposedAt), Text(e.approvedAt), Text(e.executedAt),
     Text(e.result), Text(e.modelVersion), Text(e.mode)]
  }

  function Zip(keys: seq<string>, values: seq<Value>): (d: Dict)
    requires |keys| == |values|
    ensures |d| == |keys| && forall i | 0 <= i < |d| :: d[i] == Member(keys[i], values[i])
  {
    if keys == [] then [] else [Member(keys[0], values[0])] + Zip(keys[1..], values[1..])
  }

  /** `_business_dict`: what is hashed on append and again on verification. */
  function BusinessDict(e: AuditEvent): Dict {
    Zip(HASHED_FIELDS, Columns(e))
  }

  /** A row as `verify_full_chain` hands it to `verify_chain`. */
  function RowDict(r: Row): Dict {
    BusinessDict(r.event) + [Member("prev_hash", Str(r.prevHash)), Member("entry_hash", Str(r.entryHash))]
  }

  function RowDicts(rows: seq<Row>): (ds: seq<Dict>)
    ensures |ds| == |rows| && forall i | 0 <= i < |rows| :: ds[i] == RowDict(rows[i])
  {
    seq(|rows|, i requires 0 <= i < |rows| => RowDict(rows[i]))
  }

  ghost predicate EventOk(e: AuditEvent) {
    WellFormed(e.oldValue) && WellFormed(e.newValue)
  }

  lemma {:induction false} GetAppend(d: Dict, extra: Dict, f: string)
    ensures Get(d + extra, f) == if HasKey(d, f) then Get(d, f) else Get(extra, f)
  {
    if d == [] {
      assert d + extra == extra;
    } else {
      assert (d + extra)[1..] == d[1..] + extra;
      HasKeyCons(d[0], d[1..], f);
      assert d == [d[0]] + d[1..];
      if d[0].key != f { GetAppend(d[1..], extra, f); }
    }
  }

  lemma TextOk(o: Option<string>)
    ensures WellFormed(Text(o))
  {
  }

  lemma ColumnsOk(e: AuditEvent)
    requires EventOk(e)
    ensures forall v | v in Columns(e) :: WellFormed(v)
  {
    RequestOk(e);
    ChangeOk(e);
    hide WellFormed, RequestColumns, ChangeColumns;
  }

  lemma RequestOk(e: AuditEvent)
    ensures forall v | v in RequestColumns(e) :: WellFormed(v)
  {
    forall o ensures WellFormed(Text(o)) { TextOk(o); }
    forall s ensures WellFormed(Str(s)) { TextOk(Some(s)); }
    hide WellFormed, Text;
  }

  lemma ChangeOk(e: AuditEvent)
    requires EventOk(e)
    ensures forall v | v in ChangeColumns(e) :: WellFormed(v)
  {
    forall o ensures WellFormed(Text(o)) { TextOk(o); }
    hide WellFormed, Text;
  }

  /** The row dict carries every column under its field name, and the two chain columns. */
  lemma RowDictGet(r: Row)
    ensures forall i | 0 <= i < |HASHED_FIELDS| :: Get(RowDict(r), HASHED_FIELDS[i]) == Columns(r.event)[i]
    ensures forall i | 0 <= i < |HASHED_FIELDS| :: Get(BusinessDict(r.event), HASHED_FIELDS[i]) == Columns(r.event)[i]
    ensures Get(RowDict(r), "prev_hash") == Str(r.prevHash)
    ensures Get(RowDict(r), "entry_hash") == Str(r.entryHash)
    ensures DistinctKeys(RowDict(r))
  {
    FieldsDistinct();
    var d := BusinessDict(r.event);
    var extra := [Member("prev_hash", Str(r.prevHash)), Member("entry_hash", Str(r.entryHash))];
    var all := d + extra;
    assert all[|d|] == extra[0] && all[|d| + 1] == extra[1];
    forall i, j | 0 <= i < j < |all| ensures all[i].key != all[j].key {
      assert i < |d| ==> all[i].key == HASHED_FIELDS[i] && HASHED_FIELDS[i] in HASHED_FIELDS;
      assert j < |d| ==> all[j].key == HASHED_FIELDS[j];
    }
    GetMember(all, |d|);
    GetMember(all, |d| + 1);
    forall i | 0 <= i < |HASHED_FIELDS|
      ensures Get(all, HASHED_FIELDS[i]) == Get(d, HASHED_FIELDS[i]) == Columns(r.event)[i]
    {
      assert all[i] == d[i];
      GetMember(all, i);
      GetMember(d, i);
    }
  }

  /** Each column under its own name. */
  lemma ColumnsByName(r: Row)
    ensures var d, e := RowDict(r), r.event;
            && Get(d, "event_id") == Str(e.eventId) && Get(d, "ts") == Str(e.ts)
            && Get(d, "correlation_id") == Text(e.correlationId) && Get(d, "command_id") == Text(e.commandId)
            && Get(d, "user_id") == Text(e.userId) && Get(d, "role") == Text(e.role)
            && Get(d, "source_ip") == Text(e.sourceIp) && Get(d, "action") == Str(e.action)
            && Get(d, "target_device") == Text(e.targetDevice) && Get(d, "scenario_id") == Text(e.scenarioId)
    ensures var d, e := RowDict(r), r.event;
            && Get(d, "old_value") == e.oldValue && Get(d, "new_value") == e.newValue
            && Get(d, "reason") == Text(e.reason) && Get(d, "proposed_at") == Text(e.proposedAt)
            && Get(d, "approved_at") == Text(e.approvedAt) && Get(d, "executed_at") == Text(e.executedAt)
            && Get(d, "result") == Text(e.result) && Get(d, "model_version") == Text(e.modelVersion)
            && Get(d, "mode") == Text(e.mode)
  {
    RowDictGet(r);
    FirstNames();
    LastNames();
    FirstColumns(r.event);
    LastColumns(r.event);
    hide Get, RowDict, Columns, Text, BusinessDict;
    assert forall i | 0 <= i < 19 :: Get(RowDict(r), HASHED_FIELDS[i]) == Columns(r.event)[i];
  }

  lemma FirstNames()
    ensures |HASHED_FIELDS| == 19
    ensures var f := HASHED_FIELDS;
            && f[0] == "event_id" && f[1] == "ts" && f[2] == "correlation_id" && f[3] == "command_id"
            && f[4] == "user_id" && f[5] == "role" && f[6] == "source_ip" && f[7] == "action"
            && f[8] == "target_device" && f[9] == "scenario_id"
  {
  }

  lemma LastNames()
    ensures |HASHED_FIELDS| == 19
    ensures var f := HASHED_FIELDS;
            && f[10] == "old_value" && f[11] == "new_value" && f[12] == "reason" && f[13] == "proposed_at"
            && f[14] == "approved_at" && f[15] == "executed_at" && f[16] == "result" && f[17] == "model_version"
            && f[18] == "mode"
  {
  }

  lemma FirstColumns(e: AuditEvent)
    ensures |Columns(e)| == 19
    ensures var c := Columns(e);
            && c[0] == Str(e.eventId) && c[1] == Str(e.ts) && c[2] == Text(e.correlationId) && c[3] == Text(e.commandId)
            && c[4] == Text(e.userId) && c[5] == Text(e.role) && c[6] == Text(e.sourceIp) && c[7] == Str(e.action)
            && c[8] == Text(e.targetDevice) && c[9] == Text(e.scenarioId)
  {
    hide Text;
  }

  lemma LastColumns(e: AuditEvent)
    ensures |Columns(e)| == 19
    ensures var c := Columns(e);
            && c[10] == e.oldValue && c[11] == e.newValue && c[12] == Text(e.reason) && c[13] == Text(e.proposedAt)
            && c[14] == Text(e.approvedAt) && c[15] == Text(e.executedAt) && c[16] == Text(e.result)
            && c[17] == Text(e.modelVersion) && c[18] == Text(e.mode)
  {
    hide Text;
  }

  lemma ChainColumns(r: Row)
    ensures Get(RowDict(r), "prev_hash") == Str(r.prevHash) && Get(RowDict(r), "entry_hash") == Str(r.entryHash)
  {
    RowDictGet(r);
  }

  lemma RowDictOk(r: Row)
    requires EventOk(r.event)
    ensures WellFormed(Obj(RowDict(r)))
  {
    RowDictGet(r);
    ColumnsOk(r.event);
    var all, d := RowDict(r), BusinessDict(r.event);
    forall i | 0 <= i < |all| ensures WellFormed(all[i].value) {
      if i < |d| { assert all[i] == d[i] && d[i].value in Columns(r.event); }
    }
  }

  lemma {:induction false} ProjectEqual(a: Dict, b: Dict, fields: seq<string>)
    requires forall i | 0 <= i < |fields| :: Get(a, fields[i]) == Get(b, fields[i])
    ensures Project(a, fields) == Project(b, fields)
  {
  }

  /** `compute_entry_hash(prev, _business_dict(event))`. */
  type RowHash = (string, AuditEvent) -> string

  ghost predicate Computes(rh: RowHash, h: Hash) {
    forall p, e :: rh(p, e) == ComputeEntryHash(h, p, BusinessDict(e))
  }

  /** What is hashed before the insert is what is hashed when the row is read back. */
  lemma HashStable(h: Hash, prev: string, r: Row)
    ensures ComputeEntryHash(h, prev, RowDict(r)) == ComputeEntryHash(h, prev, BusinessDict(r.event))
  {
    RowDictGet(r);
    ProjectEqual(RowDict(r), BusinessDict(r.event), HASHED_FIELDS);
  }

  /** The same value in every hashed column. */
  ghost predicate SameColumns(a: AuditEvent, b: AuditEvent) {
    |Columns(a)| == |Columns(b)| && forall i | 0 <= i < |Columns(a)| :: Equiv(Columns(a)[i], Columns(b)[i])
  }

  lemma ColumnsLength(e: AuditEvent)
    ensures |Columns(e)| == |HASHED_FIELDS|
  {
  }

  lemma SameColumnsSame(a: Row, b: Row)
    requires SameColumns(a.event, b.event)
    ensures SameBusiness(RowDict(a), RowDict(b))
  {
    RowDictGet(a);
    RowDictGet(b);
    ColumnsLength(a.event);
    hide Get, RowDict, Equiv, BusinessDict, Columns;
    forall f | f in HASHED_FIELDS ensures Equiv(Get(RowDict(a), f), Get(RowDict(b), f)) {
      var i :| 0 <= i < |HASHED_FIELDS| && HASHED_FIELDS[i] == f;
    }
  }

  /**
   The database may store `old_value` and `new_value` with their keys in another order:
   a row read back with the same value in every column hashes as the row inserted did.
   */
  lemma HashSurvivesStorage(h: Hash, prev: string, inserted: Row, stored: Row)
    requires EventOk(inserted.event) && EventOk(stored.event) && SameColumns(inserted.event, stored.event)
    ensures ComputeEntryHash(h, prev, RowDict(stored)) == ComputeEntryHash(h, prev, BusinessDict(inserted.event))
  {
    HashStable(h, prev, inserted);
    SameColumnsSame(inserted, stored);
    RowDictOk(inserted);
    RowDictOk(stored);
    hide RowDict, SameColumns, EventOk, BusinessDict;
    SameBusinessHash(h, prev, RowDict(inserted), RowDict(stored));
  }

  // ---------------------------------------------------------------- the table

  /** The entry hash before position `k`. */
  function HashBefore(rows: seq<Row>, k: nat): string
    requires k <= |rows|
  {
    if k == 0 then GENESIS_HASH else rows[k - 1].entryHash
  }

  function LastHash(rows: seq<Row>): string {
    HashBefore(rows, |rows|)
  }

  /** `SELECT ... ORDER BY id DESC LIMIT 1`. */
  function MaxId(rows: seq<Row>): Option<Row> {
    if rows == [] then None
    else
      var m := MaxId(rows[1..]);
      if m.Some? && m.value.id > rows[0].id then m else Some(rows[0])
  }

  /** `head or GENESIS_HASH`. */
  function HeadHash(rows: seq<Row>): string {
    var m := MaxId(rows);
    if m.None? || m.value.entryHash == "" then GENESIS_HASH else m.value.entryHash
  }

  function InsertById(r: Row, rows: seq<Row>): seq<Row> {
    if rows == [] || r.id <= rows[0].id then [r] + rows else [rows[0]] + InsertById(r, rows[1..])
  }

  /** `SELECT ... ORDER BY id ASC`. */
  function IdOrder(rows: seq<Row>): seq<Row> {
    if rows == [] then [] else InsertById(rows[0], IdOrder(rows[1..]))
  }

  lemma {:induction false} InsertByIdLength(r: Row, rows: seq<Row>)
    ensures |InsertById(r, rows)| == |rows| + 1
  {
    if rows != [] { InsertByIdLength(r, rows[1..]); }
  }

  lemma {:induction false} IdOrderLength(rows: seq<Row>)
    ensures |IdOrder(rows)| == |rows|
  {
    if rows != [] {
      IdOrderLength(rows[1..]);
      InsertByIdLength(rows[0], IdOrder(rows[1..]));
    }
  }

  ghost predicate IdsAscend(rows: seq<Row>, bound: nat) {
    && (forall i, j | 0 <= i < j < |rows| :: rows[i].id < rows[j].id)
    && (forall i | 0 <= i < |rows| :: rows[i].id < bound)
  }

  lemma {:induction false} AscendingReads(rows: seq<Row>, bound: nat)
    requires IdsAscend(rows, bound)
    ensures IdOrder(rows) == rows
    ensures MaxId(rows) == if rows == [] then None else Some(rows[|rows| - 1])
  {
    if rows != [] {
      AscendingTail(rows, bound);
      AscendingReads(rows[1..], bound);
      hide IdsAscend;
      if |rows| > 1 {
        assert rows[1..][0] == rows[1] && rows[1..][|rows| - 2] == rows[|rows| - 1];
      }
      assert [rows[0]] + rows[1..] == rows;
    }
  }

  predicate InIdOrder(rows: seq<Row>) {
    forall i, j | 0 <= i < j < |rows| :: rows[i].id <= rows[j].id
  }

  lemma ConsOrder(r: Row, rows: seq<Row>)
    requires InIdOrder(rows) && (rows == [] || r.id <= rows[0].id)
    ensures InIdOrder([r] + rows)
  {
  }

  lemma {:induction false} InsertByIdSorts(r: Row, rows: seq<Row>)
    requires InIdOrder(rows)
    ensures var n := InsertById(r, rows);
            && InIdOrder(n) && multiset(n) == multiset(rows) + multiset{r}
            && n != [] && (n[0] == r || (rows != [] && n[0] == rows[0]))
  {
    if rows == [] || r.id <= rows[0].id {
      ConsOrder(r, rows);
    } else {
      assert InIdOrder(rows[1..]);
      InsertByIdSorts(r, rows[1..]);
      var n := InsertById(r, rows[1..]);
      assert rows[0].id <= n[0].id;
      hide InIdOrder;
      ConsOrder(rows[0], n);
      assert rows == [rows[0]] + rows[1..];
    }
  }

  lemma {:induction false} IdOrderSorts(rows: seq<Row>)
    ensures InIdOrder(IdOrder(rows)) && multiset(IdOrder(rows)) == multiset(rows)
  {
    if rows != [] {
      IdOrderSorts(rows[1..]);
      InsertByIdSorts(rows[0], IdOrder(rows[1..]));
      assert rows == [rows[0]] + rows[1..];
    }
  }

  /** Two orders of the same rows by distinct ids are one. */
  lemma {:induction false} OrderUnique(a: seq<Row>, b: seq<Row>, bound: nat)
    requires InIdOrder(a) && IdsAscend(b, bound) && multiset(a) == multiset(b)
    ensures a == b
  {
    hide InIdOrder, IdsAscend;
    assert |multiset(a)| == |a| && |multiset(b)| == |b|;
    if b != [] {
      SameFirst(a, b, bound);
      TailOrder(a);
      AscendingTail(b, bound);
      TailMultiset(a);
      TailMultiset(b);
      OrderUnique(a[1..], b[1..], bound);
      assert a == [a[0]] + a[1..] && b == [b[0]] + b[1..];
    }
  }

  lemma TailMultiset(rows: seq<Row>)
    requires rows != []
    ensures multiset(rows[1..]) == multiset(rows) - multiset{rows[0]}
  {
    assert rows == [rows[0]] + rows[1..];
  }

  lemma TailOrder(rows: seq<Row>)
    requires InIdOrder(rows) && rows != []
    ensures InIdOrder(rows[1..])
  {
  }

  lemma SameFirst(a: seq<Row>, b: seq<Row>, bound: nat)
    requires InIdOrder(a) && IdsAscend(b, bound) && multiset(a) == multiset(b) && a != [] && b != []
    ensures a[0] == b[0]
  {
    assert a[0] in multiset(b) && b[0] in multiset(a);
    var i :| 0 <= i < |b| && b[i] == a[0];
    var j :| 0 <= j < |a| && a[j] == b[0];
    assert a[0].id <= a[j].id;
  }

  lemma {:induction false} MaxIdMost(rows: seq<Row>)
    ensures rows == [] <==> MaxId(rows) == None
    ensures rows != [] ==> MaxId(rows).value in rows && forall r <- rows :: r.id <= MaxId(rows).value.id
  {
    if rows != [] {
      MaxIdMost(rows[1..]);
      assert rows == [rows[0]] + rows[1..];
    }
  }

  /**
   In whatever order the table holds its rows, ordering by id gives the log, and the head
   query its last row.
   */
  lemma AnyStorageOrder(held: seq<Row>, rows: seq<Row>, bound: nat)
    requires IdsAscend(rows, bound) && multiset(held) == multiset(rows)
    ensures IdOrder(held) == rows
    ensures MaxId(held) == if rows == [] then None else Some(rows[|rows| - 1])
  {
    IdOrderSorts(held);
    OrderUnique(IdOrder(held), rows, bound);
    MaxIdMost(held);
    assert |multiset(held)| == |multiset(rows)|;
    if rows != [] {
      var last := rows[|rows| - 1];
      assert last in multiset(held) && MaxId(held).value in multiset(rows);
      assert last.id <= MaxId(held).value.id;
    }
  }

  /** An empty hash never is a head. */
  lemma HeadNeverEmpty(rows: seq<Row>)
    ensures HeadHash(rows) != "" && HeadHash([]) == GENESIS_HASH
  {
    assert |GENESIS_HASH| == DIGEST_LEN;
  }

  lemma AscendingTail(rows: seq<Row>, bound: nat)
    requires IdsAscend(rows, bound) && rows != []
    ensures IdsAscend(rows[1..], bound)
    ensures |rows| > 1 ==> rows[0].id < rows[1].id && rows[0].id < rows[|rows| - 1].id
  {
  }

  /** Each row carries the hash of its predecessor and its own. */
  ghost predicate Chained(rh: RowHash, rows: seq<Row>) {
    forall k {:trigger HashBefore(rows, k)} | 0 <= k < |rows| ::
      rows[k].prevHash == HashBefore(rows, k) && rows[k].entryHash == rh(rows[k].prevHash, rows[k].event)
  }

  /** The unique constraints of the table. */
  ghost predicate Unique(rows: seq<Row>) {
    forall i, j | 0 <= i < j < |rows| ::
      rows[i].entryHash != rows[j].entryHash && rows[i].event.eventId != rows[j].event.eventId
  }

  predicate Clashes(rows: seq<Row>, r: Row) {
    exists i | 0 <= i < |rows| :: rows[i].entryHash == r.entryHash || rows[i].event.eventId == r.event.eventId
  }

  ghost predicate TableOk(rh: RowHash, rows: seq<Row>, nextId: nat) {
    IdsAscend(rows, nextId) && Chained(rh, rows) && Unique(rows)
  }

  ghost predicate FullLength(rh: RowHash) {
    forall p, e :: |rh(p, e)| == DIGEST_LEN
  }

  function ChainRow(rh: RowHash, id: nat, prev: string, e: AuditEvent): Row {
    Row(id, e, prev, rh(prev, e))
  }

  lemma HeadIsLast(rh: RowHash, rows: seq<Row>, nextId: nat)
    requires FullLength(rh) && TableOk(rh, rows, nextId)
    ensures HeadHash(rows) == LastHash(rows)
  {
    AscendingReads(rows, nextId);
    if rows != [] {
      var k := |rows| - 1;
      assert rows[k].prevHash == HashBefore(rows, k);
    }
  }

  /** Appending a row hashed over the last one keeps the table. */
  lemma AppendKeeps(rh: RowHash, rows: seq<Row>, nextId: nat, e: AuditEvent)
    requires TableOk(rh, rows, nextId) && !Clashes(rows, ChainRow(rh, nextId, LastHash(rows), e))
    ensures TableOk(rh, rows + [ChainRow(rh, nextId, LastHash(rows), e)], nextId + 1)
  {
    var all := rows + [ChainRow(rh, nextId, LastHash(rows), e)];
    forall k | 0 <= k < |all| ensures HashBefore(all, k) == HashBefore(rows, k) {}
  }

  lemma PrefixKeeps(rh: RowHash, rows: seq<Row>, nextId: nat, k: nat)
    requires TableOk(rh, rows, nextId) && k <= |rows|
    ensures TableOk(rh, rows[..k], nextId)
  {
    forall i | 0 <= i < k ensures HashBefore(rows[..k], i) == HashBefore(rows, i) {}
  }

  lemma RowGood(h: Hash, rh: RowHash, rows: seq<Row>, k: nat)
    requires Computes(rh, h) && Chained(rh, rows) && k < |rows|
    ensures Good(h, RowDicts(rows), k)
  {
    hide ComputeEntryHash, RowDict, BusinessDict, Get;
    var ds, r := RowDicts(rows), rows[k];
    ChainColumns(r);
    HashStable(h, r.prevHash, r);
    if k > 0 { ChainColumns(rows[k - 1]); }
    assert r.prevHash == HashBefore(rows, k);
    assert ExpectedPrev(ds, k) == Str(HashBefore(rows, k));
  }

  /** The rows of such a table, read in id order, pass the verification. */
  lemma TableVerifies(h: Hash, rh: RowHash, rows: seq<Row>, nextId: nat)
    requires Computes(rh, h) && TableOk(rh, rows, nextId)
    ensures Verified(h, RowDicts(IdOrder(rows)))
  {
    hide Computes;
    AscendingReads(rows, nextId);
    forall k | 0 <= k < |rows| ensures Good(h, RowDicts(rows), k) { RowGood(h, rh, rows, k); }
  }

  lemma SameRow(a: Row, b: Row)
    requires SameBusiness(RowDict(a), RowDict(b))
    ensures SameColumns(a.event, b.event)
  {
    RowDictGet(a);
    RowDictGet(b);
    ColumnsLength(a.event);
    ColumnsLength(b.event);
    hide Get, RowDict, Equiv, BusinessDict, Columns;
    forall i | 0 <= i < |HASHED_FIELDS| ensures Equiv(Columns(a.event)[i], Columns(b.event)[i]) {
      assert HASHED_FIELDS[i] in HASHED_FIELDS;
    }
  }

  /** The same event, its two values up to the order of their keys. */
  ghost predicate SameEvent(a: AuditEvent, b: AuditEvent) {
    Equiv(a.oldValue, b.oldValue) && Equiv(a.newValue, b.newValue)
    && a.(oldValue := Null, newValue := Null) == b.(oldValue := Null, newValue := Null)
  }

  lemma TextSame(a: Option<string>, b: Option<string>)
    requires Equiv(Text(a), Text(b))
    ensures a == b
  {
  }

  lemma TextsSame()
    ensures forall x: Option<string>, y: Option<string> | Equiv(Text(x), Text(y)) :: x == y
    ensures forall x: string, y: string | Equiv(Str(x), Str(y)) :: x == y
  {
    forall x: Option<string>, y: Option<string> | Equiv(Text(x), Text(y)) ensures x == y { TextSame(x, y); }
  }

  lemma ColumnsPin(a: AuditEvent, b: AuditEvent)
    requires SameColumns(a, b)
    ensures SameEvent(a, b)
  {
    FirstColumns(a);
    FirstColumns(b);
    LastColumns(a);
    LastColumns(b);
    TextsSame();
    hide Columns, Text, Equiv;
    forall i | 0 <= i < 19 ensures Equiv(Columns(a)[i], Columns(b)[i]) {}
    SamePart(a, b);
  }

  lemma SamePart(a: AuditEvent, b: AuditEvent)
    requires |Columns(a)| == |Columns(b)| == 19 && forall i | 0 <= i < 19 :: Equiv(Columns(a)[i], Columns(b)[i])
    requires forall x: Option<string>, y: Option<string> | Equiv(Text(x), Text(y)) :: x == y
    requires forall x: string, y: string | Equiv(Str(x), Str(y)) :: x == y
    ensures SameEvent(a, b)
  {
    FirstColumns(a);
    FirstColumns(b);
    LastColumns(a);
    LastColumns(b);
    hide Columns, Text, Equiv;
    var c, d := Columns(a), Columns(b);
    assert Equiv(c[0], d[0]) && Equiv(c[1], d[1]) && Equiv(c[2], d[2]) && Equiv(c[3], d[3]) && Equiv(c[4], d[4]);
    assert Equiv(c[5], d[5]) && Equiv(c[6], d[6]) && Equiv(c[7], d[7]) && Equiv(c[8], d[8]) && Equiv(c[9], d[9]);
    assert Equiv(c[10], d[10]) && Equiv(c[11], d[11]) && Equiv(c[12], d[12]) && Equiv(c[13], d[13]);
    assert Equiv(c[14], d[14]) && Equiv(c[15], d[15]) && Equiv(c[16], d[16]) && Equiv(c[17], d[17]);
    assert Equiv(c[18], d[18]);
  }

  /** A row as the database may hand it back. */
  ghost predicate StoredAs(r: Row, stored: Row) {
    && stored.id == r.id && stored.prevHash == r.prevHash && stored.entryHash == r.entryHash
    && EventOk(r.event) && EventOk(stored.event) && SameColumns(r.event, stored.event)
  }

  ghost predicate AllStoredAs(rows: seq<Row>, stored: seq<Row>) {
    |stored| == |rows| && forall k: nat | k < |rows| :: StoredAs(rows[k], stored[k])
  }

  lemma StoredGood(h: Hash, rh: RowHash, rows: seq<Row>, stored: seq<Row>, k: nat)
    requires Computes(rh, h) && Chained(rh, rows) && AllStoredAs(rows, stored) && k < |rows|
    ensures Good(h, RowDicts(stored), k)
  {
    hide ComputeEntryHash, RowDict, BusinessDict, Get, SameColumns, EventOk;
    var ds, r := RowDicts(stored), stored[k];
    assert StoredAs(rows[k], r);
    ChainColumns(r);
    HashSurvivesStorage(h, r.prevHash, rows[k], r);
    if k > 0 {
      assert StoredAs(rows[k - 1], stored[k - 1]);
      ChainColumns(stored[k - 1]);
    }
    assert rows[k].prevHash == HashBefore(rows, k);
    assert ExpectedPrev(ds, k) == Str(HashBefore(rows, k));
  }

  /** A chained table still verifies when its dicts come back from storage with their keys reordered. */
  lemma StoredTableVerifies(h: Hash, rh: RowHash, rows: seq<Row>, stored: seq<Row>)
    requires Computes(rh, h) && Chained(rh, rows) && AllStoredAs(rows, stored)
    ensures Verified(h, RowDicts(stored))
  {
    hide Computes, Chained, Good;
    forall k | 0 <= k < |rows| ensures Good(h, RowDicts(stored), k) { StoredGood(h, rh, rows, stored, k); }
  }

  ghost predicate EventsOk(rows: seq<Row>) {
    forall r | r in rows :: EventOk(r.event)
  }

  /**
   A head hash kept elsewhere pins the whole table: two tables that verify and end in
   it hold the same events, field by field, short of a collision or a preimage of
   the genesis value among their own payloads.
   */
  lemma TablesWithOneHead(h: Hash, a: seq<Row>, b: seq<Row>)
    requires IsDigest(h) && Verified(h, RowDicts(a)) && Verified(h, RowDicts(b))
    requires a != [] && b != [] && a[|a| - 1].entryHash == b[|b| - 1].entryHash
    requires EventsOk(a) && EventsOk(b)
    ensures || (|a| == |b| && forall i | 0 <= i < |a| :: SameEvent(a[i].event, b[i].event))
            || CollisionBetween(h, RowDicts(a), RowDicts(b))
            || GenesisPreimage(h, RowDicts(a)) || GenesisPreimage(h, RowDicts(b))
  {
    hide *;
    RowsWellFormed(a);
    RowsWellFormed(b);
    SameHeadDicts(a, b);
    HeadCommits(h, RowDicts(a), RowDicts(b));
    if |a| == |b| && forall i | 0 <= i < |a| :: SameBusiness(RowDicts(a)[i], RowDicts(b)[i]) { SameRows(a, b); }
  }

  lemma SameRows(a: seq<Row>, b: seq<Row>)
    requires |a| == |b| && forall i | 0 <= i < |a| :: SameBusiness(RowDicts(a)[i], RowDicts(b)[i])
    ensures forall i | 0 <= i < |a| :: SameEvent(a[i].event, b[i].event)
  {
    hide RowDict, SameBusiness, SameColumns, SameEvent;
    forall i | 0 <= i < |a| ensures SameEvent(a[i].event, b[i].event) {
      assert SameBusiness(RowDicts(a)[i], RowDicts(b)[i]);
      SameRow(a[i], b[i]);
      ColumnsPin(a[i].event, b[i].event);
    }
  }

  lemma SameHeadDicts(a: seq<Row>, b: seq<Row>)
    requires a != [] && b != [] && a[|a| - 1].entryHash == b[|b| - 1].entryHash
    ensures SameHead(RowDicts(a), RowDicts(b))
  {
    hide RowDict, Get;
    ChainColumns(a[|a| - 1]);
    ChainColumns(b[|b| - 1]);
  }

  lemma RowsWellFormed(rows: seq<Row>)
    requires EventsOk(rows)
    ensures AllWellFormed(RowDicts(rows))
  {
    hide RowDict, EventOk, WellFormed;
    forall d | d in RowDicts(rows) ensures WellFormed(Obj(d)) {
      var i :| 0 <= i < |rows| && RowDicts(rows)[i] == d;
      RowDictOk(rows[i]);
    }
  }

  /**
   Two rows can share a `prev_hash` only when the first one is chained from the
   genesis value and some row hashes to that value.
   */
  lemma NoFork(rh: RowHash, rows: seq<Row>, nextId: nat, i: nat, j: nat)
    requires TableOk(rh, rows, nextId) && i < j < |rows|
    ensures rows[i].prevHash == rows[j].prevHash ==> i == 0 && rows[j - 1].entryHash == GENESIS_HASH
  {
    assert rows[i].prevHash == HashBefore(rows, i) && rows[j].prevHash == HashBefore(rows, j);
  }

  // ---------------------------------------------------------------- one transaction at a time

  datatype AppendError = IntegrityError

  class AuditService {
    const h: Hash
    const rowHash: RowHash
    var rows: seq<Row>
    var nextId: nat
    var verifications: seq<ChainVerification>

    ghost predicate Valid()
      reads this
    {
      Computes(rowHash, h) && FullLength(rowHash) && TableOk(rowHash, rows, nextId)
    }

    constructor (h: Hash)
      requires IsDigest(h)
      ensures Valid() && this.h == h && rows == [] && verifications == []
    {
      this.h := h;
      rowHash := (p, e) => ComputeEntryHash(h, p, BusinessDict(e));
      rows, nextId, verifications := [], 0, [];
    }

    /** The row the next `Record` of the event would insert. */
    ghost function Candidate(event: AuditEvent): Row
      reads this
    {
      ChainRow(rowHash, nextId, LastHash(rows), event)
    }

    /** Append and commit one event; an event that clashes leaves the log as it was. */
    method Record(event: AuditEvent) returns (r: Result<Row, AppendError>)
      requires Valid()
      modifies this`rows, this`nextId
      ensures Valid()
      ensures nextId == old(nextId) + 1
      ensures r == if Clashes(old(rows), old(Candidate(event))) then Err(IntegrityError) else Ok(old(Candidate(event)))
      ensures rows == if r.Ok? then old(rows) + [r.value] else old(rows)
    {
      hide Computes;
      HeadIsLast(rowHash, rows, nextId);
      var prev := HeadHash(rows);
      var row := ChainRow(rowHash, nextId, prev, event);
      if Clashes(rows, row) {
        r := Err(IntegrityError);
      } else {
        AppendKeeps(rowHash, rows, nextId, event);
        rows := rows + [row];
        r := Ok(row);
      }
      nextId := nextId + 1;
    }

    method VerifyFullChain() returns (r: ChainVerification)
      requires Valid()
      ensures Reports(h, RowDicts(IdOrder(rows)), r) && r.verified && r.entries == |rows|
    {
      hide Computes, TableOk, RowDict, IdOrder;
      var events := IdOrder(rows);
      var payload: seq<Dict> := [];
      for k := 0 to |events|
        invariant payload == RowDicts(events)[..k]
      {
        payload := payload + [RowDict(events[k])];
      }
      assert payload == RowDicts(events);
      TableVerifies(h, rowHash, rows, nextId);
      IdOrderLength(rows);
      r := VerifyChain(h, payload);
    }

    /** In every state the log can reach, a verification run stores `verified`. */
    method RunVerification() returns (r: ChainVerification)
      requires Valid()
      modifies this`verifications
      ensures verifications == old(verifications) + [r]
      ensures Reports(h, RowDicts(IdOrder(rows)), r) && r.verified && r.entries == |rows|
    {
      r := VerifyFullChain();
      verifications := verifications + [r];
    }
  }
}
