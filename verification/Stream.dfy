/**
 Splitting a file into runs while reading it in chunks:
 `reference/ml_pipeline/extract_features.py`. The statistics of one transition are
 left abstract: a feature row carries the measurements it is computed from.
 */
module Stream {
  import opened Common

  datatype Row = Row(run: int, transition: int, data: string)

  /** One line of features. */
  datatype Feature = Feature(run: int, transition: int, rows: seq<Row>)

  // ---------------------------------------------------------------- group-by

  type Key = Row -> int

  function Only(rows: seq<Row>, key: Key, id: int): (r: seq<Row>)
    ensures forall x :: x in r <==> x in rows && key(x) == id
  {
    if rows == [] then []
    else
      var n := |rows| - 1;
      if key(rows[n]) == id then Only(rows[..n], key, id) + [rows[n]] else Only(rows[..n], key, id)
  }

  function Except(rows: seq<Row>, key: Key, id: int): (r: seq<Row>)
    ensures forall x :: x in r <==> x in rows && key(x) != id
  {
    if rows == [] then []
    else
      var n := |rows| - 1;
      if key(rows[n]) != id then Except(rows[..n], key, id) + [rows[n]] else Except(rows[..n], key, id)
  }

  predicate Ascending(ids: seq<int>) {
    forall i, j | 0 <= i < j < |ids| :: ids[i] < ids[j]
  }

  lemma Above(id: int, ids: seq<int>, t: seq<int>)
    requires ids != [] && Ascending(ids) && ids[0] < id && forall k <- t :: k == id || k in ids[1..]
    ensures forall i | 0 <= i < |t| :: ids[0] < t[i]
  {
    forall i | 0 <= i < |t| ensures ids[0] < t[i] {
      assert t[i] in t;
      if t[i] != id {
        var j :| 0 <= j < |ids[1..]| && ids[1..][j] == t[i];
        assert ids[0] < ids[j + 1];
      }
    }
  }

  function Insert(id: int, ids: seq<int>): (r: seq<int>)
    requires Ascending(ids)
    ensures Ascending(r) && forall k :: k in r <==> k == id || k in ids
  {
    if ids == [] || id < ids[0] then [id] + ids
    else if id == ids[0] then ids
    else
      var t := Insert(id, ids[1..]);
      Above(id, ids, t);
      [ids[0]] + t
  }

  /** The distinct keys, ascending. */
  function Ids(rows: seq<Row>, key: Key): (r: seq<int>)
    ensures Ascending(r) && forall k :: k in r <==> exists x <- rows :: key(x) == k
  {
    if rows == [] then [] else Insert(key(rows[|rows| - 1]), Ids(rows[..|rows| - 1], key))
  }

  function Groups(rows: seq<Row>, key: Key, ids: seq<int>): (r: seq<seq<Row>>)
    ensures |r| == |ids| && forall i | 0 <= i < |ids| :: r[i] == Only(rows, key, ids[i])
  {
    if ids == [] then [] else Groups(rows, key, ids[..|ids| - 1]) + [Only(rows, key, ids[|ids| - 1])]
  }

  /** `groupby(key, sort=True)`: one group a key, keys ascending, rows in file order. */
  function GroupBy(rows: seq<Row>, key: Key): seq<seq<Row>> {
    Groups(rows, key, Ids(rows, key))
  }

  const BY_RUN: Key := (r: Row) => r.run
  const BY_TRANSITION: Key := (r: Row) => r.transition

  // ---------------------------------------------------------------- the writer

  datatype Line = Header | Data(f: Feature)

  function Lines(fs: seq<Feature>): seq<Line> {
    if fs == [] then [] else Lines(fs[..|fs| - 1]) + [Data(fs[|fs| - 1])]
  }

  /** What a CSV file holding these features looks like: one header, before the first of them. */
  function Csv(fs: seq<Feature>): seq<Line> {
    if fs == [] then [] else [Header] + Lines(fs)
  }

  lemma {:induction false} LinesAppend(a: seq<Feature>, b: seq<Feature>)
    ensures Lines(a + b) == Lines(a) + Lines(b)
  {
    if b == [] {
      assert a + b == a;
    } else {
      var n := |b| - 1;
      assert (a + b)[..|a + b| - 1] == a + b[..n];
      LinesAppend(a, b[..n]);
    }
  }

  lemma CsvAppend(a: seq<Feature>, b: seq<Feature>)
    requires b != []
    ensures Csv(a + b) == Csv(a) + if a == [] then [Header] + Lines(b) else Lines(b)
  {
    if a == [] {
      assert a + b == b;
    } else {
      LinesAppend(a, b);
      hide Lines;
      Associate([Header], Lines(a), Lines(b));
    }
  }

  class CsvWriter {
    var file: seq<Line>
    var headerWritten: bool
    var n: nat
    ghost var features: seq<Feature>

    ghost predicate Valid()
      reads this
    {
      file == Csv(features) && headerWritten == (features != []) && n == |features|
    }

    /** The old file has been removed. */
    constructor ()
      ensures Valid() && features == []
    {
      file, headerWritten, n, features := [], false, 0, [];
    }

    method WriteRows(rows: seq<Feature>)
      requires Valid()
      modifies this
      ensures Valid() && features == old(features) + rows
    {
      if rows == [] {
        return;
      }
      hide Lines, Csv;
      CsvAppend(features, rows);
      file := file + if !headerWritten then [Header] + Lines(rows) else Lines(rows);
      headerWritten := true;
      n := n + |rows|;
      features := features + rows;
    }
  }

  /** The features of one call of `process_run`: one a transition, transitions ascending. */
  function Features(rows: seq<Row>, ids: seq<int>): (r: seq<Feature>)
    requires rows != []
    ensures |r| == |ids|
    ensures forall i | 0 <= i < |ids| :: r[i] == Feature(rows[0].run, ids[i], Only(rows, BY_TRANSITION, ids[i]))
  {
    if ids == [] then []
    else
      var id := ids[|ids| - 1];
      Features(rows, ids[..|ids| - 1]) + [Feature(rows[0].run, id, Only(rows, BY_TRANSITION, id))]
  }

  function RunFeatures(rows: seq<Row>): seq<Feature> {
    if rows == [] then [] else Features(rows, Ids(rows, BY_TRANSITION))
  }

  ghost predicate NoneEmpty(calls: seq<seq<Row>>) {
    forall c <- calls :: c != []
  }

  function AllFeatures(calls: seq<seq<Row>>): seq<Feature> {
    if calls == [] then []
    else AllFeatures(calls[..|calls| - 1]) + RunFeatures(calls[|calls| - 1])
  }

  method ProcessRun(run: seq<Row>, writer: CsvWriter)
    requires run != [] && writer.Valid()
    modifies writer
    ensures writer.Valid() && writer.features == old(writer.features) + RunFeatures(run)
  {
    hide Ids, Only;
    var runId := run[0].run;
    var rows: seq<Feature> := [];
    var ids := Ids(run, BY_TRANSITION);
    ghost var all := Features(run, ids);
    for k := 0 to |ids|
      invariant rows == all[..k]
    {
      hide Features, CsvWriter.Valid;
      rows := rows + [Feature(runId, ids[k], Only(run, BY_TRANSITION, ids[k]))];
    }
    writer.WriteRows(rows);
  }

  // ---------------------------------------------------------------- the splitter

  /** The calls made so far and the rows kept back. */
  datatype State = State(calls: seq<seq<Row>>, buf: seq<Row>)

  /** One chunk: every run but the last row's is complete. An empty buffer has no last row. */
  function Feed(s: State, chunk: seq<Row>): Option<State> {
    var buf := s.buf + chunk;
    if buf == [] then None
    else
      var last := buf[|buf| - 1].run;
      Some(State(s.calls + GroupBy(Except(buf, BY_RUN, last), BY_RUN), Only(buf, BY_RUN, last)))
  }

  function FeedAll(chunks: seq<seq<Row>>): Option<State> {
    if chunks == [] then Some(State([], []))
    else
      var s := FeedAll(chunks[..|chunks| - 1]);
      if s.None? then None else Feed(s.value, chunks[|chunks| - 1])
  }

  function Calls(chunks: seq<seq<Row>>): Option<seq<seq<Row>>> {
    var s := FeedAll(chunks);
    if s.None? then None
    else if s.value.buf == [] then Some(s.value.calls)
    else Some(s.value.calls + [s.value.buf])
  }

  lemma {:induction false} AllSame(rows: seq<Row>, key: Key, id: int)
    requires forall x <- rows :: key(x) == id
    ensures Only(rows, key, id) == rows && Except(rows, key, id) == []
  {
    if rows != [] { AllSame(rows[..|rows| - 1], key, id); }
  }

  lemma {:induction false} NoneSame(rows: seq<Row>, key: Key, id: int)
    requires forall x <- rows :: key(x) != id
    ensures Only(rows, key, id) == []
  {
    if rows != [] { NoneSame(rows[..|rows| - 1], key, id); }
  }

  /** When nothing is complete the buffer is kept whole. */
  lemma NothingComplete(buf: seq<Row>, last: int)
    requires Except(buf, BY_RUN, last) == []
    ensures Only(buf, BY_RUN, last) == buf && GroupBy([], BY_RUN) == []
  {
    forall x <- buf ensures BY_RUN(x) == last {
      assert x !in Except(buf, BY_RUN, last);
    }
    AllSame(buf, BY_RUN, last);
  }

  /** Every group of a group-by has a row, and its rows share the key. */
  lemma GroupsNonEmpty(rows: seq<Row>, key: Key)
    ensures NoneEmpty(GroupBy(rows, key))
    ensures |GroupBy(rows, key)| == |Ids(rows, key)|
  {
    var ids := Ids(rows, key);
    forall i | 0 <= i < |ids| ensures Only(rows, key, ids[i]) != [] {
      assert ids[i] in ids;
      var x :| x in rows && key(x) == ids[i];
      assert x in Only(rows, key, ids[i]);
    }
  }

  datatype StreamError = IndexError

  lemma FeaturesSnoc(a: seq<seq<Row>>, run: seq<Row>)
    ensures AllFeatures(a + [run]) == AllFeatures(a) + RunFeatures(run)
  {
    hide RunFeatures;
    assert (a + [run])[..|a|] == a;
  }

  lemma {:induction false} FeaturesAppend(a: seq<seq<Row>>, b: seq<seq<Row>>)
    ensures AllFeatures(a + b) == AllFeatures(a) + AllFeatures(b)
  {
    if b == [] {
      assert a + b == a;
    } else {
      var front, run := b[..|b| - 1], b[|b| - 1];
      assert b == front + [run];
      FeaturesAppend(a, front);
      hide AllFeatures, RunFeatures;
      FeaturesSnoc(a + front, run);
      FeaturesSnoc(front, run);
      Associate(a, front, [run]);
      Associate(AllFeatures(a), AllFeatures(front), RunFeatures(run));
    }
  }

  lemma OneCall(run: seq<Row>)
    ensures AllFeatures([run]) == RunFeatures(run)
  {
    assert [run][..0] == [];
    assert AllFeatures([]) == [];
  }

  /** Only a first chunk without rows makes the splitter fail. */
  lemma {:induction false} FailsOnEmptyFirst(chunks: seq<seq<Row>>)
    ensures FeedAll(chunks).None? <==> chunks != [] && chunks[0] == []
    ensures FeedAll(chunks).Some? && chunks != [] ==> FeedAll(chunks).value.buf != []
  {
    if chunks != [] {
      var n := |chunks| - 1;
      FailsOnEmptyFirst(chunks[..n]);
      if FeedAll(chunks).Some? {
        var buf := FeedAll(chunks[..n]).value.buf + chunks[n];
        assert buf[|buf| - 1] in Only(buf, BY_RUN, buf[|buf| - 1].run);
      }
    }
  }

  lemma NonEmptyAt(groups: seq<seq<Row>>, k: nat)
    requires NoneEmpty(groups) && k < |groups|
    ensures groups[k] != []
  {
    assert groups[k] in groups;
  }

  lemma TakeNext<T>(s: seq<T>, k: nat)
    requires k < |s|
    ensures s[..k + 1] == s[..k] + [s[k]]
  {
    assert s[..k + 1] == s[..k] + [s[k]];
  }

  method ProcessAll(groups: seq<seq<Row>>, writer: CsvWriter) returns (done: nat)
    requires NoneEmpty(groups) && writer.Valid()
    modifies writer
    ensures writer.Valid() && done == |groups|
    ensures writer.features == old(writer.features) + AllFeatures(groups)
  {
    done := 0;
    NoFeatures();
    assert groups[..0] == [] && groups[..|groups|] == groups;
    for k := 0 to |groups|
      invariant writer.Valid() && done == k
      invariant writer.features == old(writer.features) + AllFeatures(groups[..k])
    {
      hide RunFeatures, AllFeatures, CsvWriter.Valid, NoneEmpty;
      NonEmptyAt(groups, k);
      ProcessRun(groups[k], writer);
      FeaturesSnoc(groups[..k], groups[k]);
      TakeNext(groups, k);
      Associate(old(writer.features), AllFeatures(groups[..k]), RunFeatures(groups[k]));
      done := done + 1;
    }
    assert groups[..|groups|] == groups;
  }

  /** What the next chunk does; when that fails, nothing has been processed and the whole file fails. */
  lemma FeedNext(chunks: seq<seq<Row>>, k: nat)
    requires k < |chunks| && FeedAll(chunks[..k]).Some?
    ensures FeedAll(chunks[..k + 1]) == Feed(FeedAll(chunks[..k]).value, chunks[k])
    ensures FeedAll(chunks[..k + 1]).None? ==> FeedAll(chunks).None? && FeedAll(chunks[..k]).value == State([], [])
  {
    assert chunks[..k + 1][..k] == chunks[..k];
    if k == 0 { assert chunks[..0] == []; }
    hide Feed, FeedAll;
    FailsOnEmptyFirst(chunks[..k]);
    FailsOnEmptyFirst(chunks[..k + 1]);
    FailsOnEmptyFirst(chunks);
    assert k > 0 ==> chunks[..k + 1][0] == chunks[..k][0];
  }

  /** The number of runs processed, and their features written in the order of the calls. */
  method StreamFile(chunks: seq<seq<Row>>, writer: CsvWriter) returns (r: Result<nat, StreamError>)
    requires writer.Valid()
    modifies writer
    ensures writer.Valid()
    ensures r == if Calls(chunks).Some? then Ok(|Calls(chunks).value|) else Err(IndexError)
    ensures writer.features
         == old(writer.features) + if Calls(chunks).Some? then AllFeatures(Calls(chunks).value) else []
  {
    NoFeatures();
    hide GroupBy, AllFeatures, RunFeatures, Only, Except, FeedAll, CsvWriter.Valid;
    var buf: Option<seq<Row>> := None;
    var doneRuns := 0;
    ghost var s := State([], []);
    FeedNone(chunks);
    for k := 0 to |chunks|
      invariant FeedAll(chunks[..k]) == Some(s)
      invariant s.buf == if buf.Some? then buf.value else []
      invariant writer.Valid() && doneRuns == |s.calls|
      invariant writer.features == old(writer.features) + AllFeatures(s.calls)
    {
      var chunk := chunks[k];
      FeedNext(chunks, k);
      buf := Some(if buf.None? then chunk else buf.value + chunk);
      assert buf.value == s.buf + chunk;
      if buf.value == [] {
        return Err(IndexError);
      }
      var last := buf.value[|buf.value| - 1].run;
      var complete := Except(buf.value, BY_RUN, last);
      if complete != [] {
        GroupsNonEmpty(complete, BY_RUN);
        FeaturesAppend(s.calls, GroupBy(complete, BY_RUN));
        Associate(old(writer.features), AllFeatures(s.calls), AllFeatures(GroupBy(complete, BY_RUN)));
        var done := ProcessAll(GroupBy(complete, BY_RUN), writer);
        doneRuns := doneRuns + done;
        buf := Some(Only(buf.value, BY_RUN, last));
      } else {
        NothingComplete(buf.value, last);
        assert s.calls + [] == s.calls;
      }
      s := Feed(s, chunk).value;
    }
    assert chunks[..|chunks|] == chunks;
    if buf.Some? && buf.value != [] {
      OneCall(buf.value);
      FeaturesAppend(s.calls, [buf.value]);
      Associate(old(writer.features), AllFeatures(s.calls), RunFeatures(buf.value));
      ProcessRun(buf.value, writer);
      doneRuns := doneRuns + 1;
    }
    r := Ok(doneRuns);
  }

  lemma FeedNone(chunks: seq<seq<Row>>)
    ensures FeedAll(chunks[..0]) == Some(State([], []))
  {
  }

  lemma NoFeatures()
    ensures AllFeatures([]) == []
  {
  }

  // ---------------------------------------------------------------- each row once

  function Flat(parts: seq<seq<Row>>): seq<Row> {
    if parts == [] then [] else Flat(parts[..|parts| - 1]) + parts[|parts| - 1]
  }

  lemma FlatSnoc(a: seq<seq<Row>>, part: seq<Row>)
    ensures Flat(a + [part]) == Flat(a) + part
  {
    assert (a + [part])[..|a|] == a;
  }

  lemma {:induction false} FlatAppend(a: seq<seq<Row>>, b: seq<seq<Row>>)
    ensures Flat(a + b) == Flat(a) + Flat(b)
  {
    if b == [] {
      assert a + b == a;
    } else {
      var front, part := b[..|b| - 1], b[|b| - 1];
      assert b == front + [part];
      FlatAppend(a, front);
      hide Flat;
      FlatSnoc(a + front, part);
      FlatSnoc(front, part);
      Associate(a, front, [part]);
      Associate(Flat(a), Flat(front), part);
    }
  }

  function Times(rows: seq<Row>, x: Row): nat {
    multiset(rows)[x]
  }

  lemma TimesAppend(a: seq<Row>, b: seq<Row>, x: Row)
    ensures Times(a + b, x) == Times(a, x) + Times(b, x)
  {
    assert multiset(a + b) == multiset(a) + multiset(b);
  }

  lemma {:induction false} OnlyTimes(rows: seq<Row>, key: Key, id: int, x: Row)
    ensures Times(Only(rows, key, id), x) == if key(x) == id then Times(rows, x) else 0
    ensures Times(Except(rows, key, id), x) == if key(x) == id then 0 else Times(rows, x)
  {
    if rows != [] {
      var front, last := rows[..|rows| - 1], rows[|rows| - 1];
      assert rows == front + [last];
      assert Only(rows, key, id) == if key(last) == id then Only(front, key, id) + [last] else Only(front, key, id);
      assert Except(rows, key, id)
          == if key(last) != id then Except(front, key, id) + [last] else Except(front, key, id);
      hide Times, Only, Except;
      OnlyTimes(front, key, id, x);
      TimesAppend(front, [last], x);
      TimesAppend(Only(front, key, id), [last], x);
      TimesAppend(Except(front, key, id), [last], x);
      TimesOther(last, x);
    }
  }

  lemma TimesOther(y: Row, x: Row)
    ensures y != x ==> Times([y], x) == 0
  {
  }

  lemma {:induction false} GroupsTimes(rows: seq<Row>, key: Key, ids: seq<int>, x: Row)
    requires Ascending(ids)
    ensures Times(Flat(Groups(rows, key, ids)), x) == if key(x) in ids then Times(rows, x) else 0
  {
    if ids != [] {
      var n := |ids| - 1;
      GroupsTimes(rows, key, ids[..n], x);
      OnlyTimes(rows, key, ids[n], x);
      var front := Groups(rows, key, ids[..n]);
      assert (front + [Only(rows, key, ids[n])])[..n] == front;
      TimesAppend(Flat(front), Only(rows, key, ids[n]), x);
      assert key(x) in ids <==> key(x) in ids[..n] || key(x) == ids[n];
      hide Times;
    }
  }

  /** Every chunking hands every row to `process_run` exactly as often as the file has it. */
  lemma {:induction false} EveryRowOnce(chunks: seq<seq<Row>>, x: Row)
    requires FeedAll(chunks).Some?
    ensures var s := FeedAll(chunks).value;
            Times(Flat(s.calls), x) + Times(s.buf, x) == Times(Flat(chunks), x)
  {
    if chunks != [] {
      var n := |chunks| - 1;
      EveryRowOnce(chunks[..n], x);
      FeedTimes(FeedAll(chunks[..n]).value, chunks[n], x);
      TimesAppend(Flat(chunks[..n]), chunks[n], x);
      hide Feed, Times;
    }
  }

  lemma FeedTimes(s: State, chunk: seq<Row>, x: Row)
    requires Feed(s, chunk).Some?
    ensures var t := Feed(s, chunk).value;
            Times(Flat(t.calls), x) + Times(t.buf, x) == Times(Flat(s.calls), x) + Times(s.buf, x) + Times(chunk, x)
  {
    var buf := s.buf + chunk;
    var last := buf[|buf| - 1].run;
    var complete := Except(buf, BY_RUN, last);
    FlatAppend(s.calls, GroupBy(complete, BY_RUN));
    TimesAppend(Flat(s.calls), Flat(GroupBy(complete, BY_RUN)), x);
    TimesAppend(s.buf, chunk, x);
    OnlyTimes(buf, BY_RUN, last, x);
    GroupByTimes(complete, BY_RUN, x);
    hide Times, GroupBy;
  }

  lemma GroupByTimes(rows: seq<Row>, key: Key, x: Row)
    ensures Times(Flat(GroupBy(rows, key)), x) == Times(rows, x)
  {
    GroupsTimes(rows, key, Ids(rows, key), x);
    if key(x) !in Ids(rows, key) { assert x !in rows; }
  }

  /** The calls of a whole file hold its rows, each as often as the file does. */
  lemma StreamConserves(chunks: seq<seq<Row>>)
    requires Calls(chunks).Some?
    ensures multiset(Flat(Calls(chunks).value)) == multiset(Flat(chunks))
  {
    var s := FeedAll(chunks).value;
    forall x: Row ensures Times(Flat(Calls(chunks).value), x) == Times(Flat(chunks), x) {
      EveryRowOnce(chunks, x);
      FlatAppend(s.calls, [s.buf]);
      assert [s.buf][..0] == [] && Flat([s.buf]) == [] + s.buf == s.buf;
      TimesAppend(Flat(s.calls), s.buf, x);
    }
    SameTimes(Flat(Calls(chunks).value), Flat(chunks));
  }

  lemma SameTimes(a: seq<Row>, b: seq<Row>)
    requires forall x: Row :: Times(a, x) == Times(b, x)
    ensures multiset(a) == multiset(b)
  {
    forall x: Row ensures multiset(a)[x] == multiset(b)[x] {
      assert Times(a, x) == Times(b, x);
    }
  }

  // ---------------------------------------------------------------- one call a run

  /** The rows of a run are next to each other. */
  ghost predicate Contiguous(rows: seq<Row>) {
    forall i, j, k | 0 <= i < j < k < |rows| :: rows[i].run == rows[k].run ==> rows[j].run == rows[i].run
  }

  ghost predicate RunsAscend(rows: seq<Row>) {
    forall i, j | 0 <= i < j < |rows| :: rows[i].run <= rows[j].run
  }

  predicate NoDup(ids: seq<int>) {
    forall i, j | 0 <= i < j < |ids| :: ids[i] != ids[j]
  }

  predicate HasRun(rows: seq<Row>, id: int) {
    exists x <- rows :: x.run == id
  }

  /** The rows kept back after reading `p`: those of its last run. */
  function Kept(p: seq<Row>): seq<Row> {
    if p == [] then [] else Only(p, BY_RUN, p[|p| - 1].run)
  }

  /** A run that was seen and is not the last one. */
  predicate Passed(p: seq<Row>, id: int) {
    HasRun(p, id) && id != p[|p| - 1].run
  }

  /** No run that was passed in `p` comes back in the next chunk. */
  ghost predicate NoneBack(p: seq<Row>, chunk: seq<Row>) {
    forall id | Passed(p, id) :: !HasRun(chunk, id)
  }

  /** No chunk brings back a run that rows before it had passed. */
  ghost predicate NoReturn(chunks: seq<seq<Row>>) {
    forall m: nat | m < |chunks| :: NoneBack(Flat(chunks[..m]), chunks[m])
  }

  /** After rows `p` the runs passed have each been processed once and whole, in the order `ids`. */
  ghost predicate Split(p: seq<Row>, ids: seq<int>, s: State) {
    && s.calls == Groups(p, BY_RUN, ids)
    && s.buf == Kept(p)
    && NoDup(ids)
    && forall k :: k in ids <==> Passed(p, k)
  }

  lemma {:induction false} OnlyAppend(a: seq<Row>, b: seq<Row>, key: Key, id: int)
    ensures Only(a + b, key, id) == Only(a, key, id) + Only(b, key, id)
  {
    if b == [] {
      assert a + b == a;
    } else {
      var n := |b| - 1;
      assert (a + b)[..|a + b| - 1] == a + b[..n];
      OnlyAppend(a, b[..n], key, id);
    }
  }

  lemma {:induction false} OnlyExcept(rows: seq<Row>, key: Key, id: int, other: int)
    requires id != other
    ensures Only(Except(rows, key, other), key, id) == Only(rows, key, id)
  {
    if rows != [] {
      var n := |rows| - 1;
      OnlyExcept(rows[..n], key, id, other);
      var e := Except(rows[..n], key, other);
      assert (e + [rows[n]])[..|e|] == e;
    }
  }

  lemma SomeIn(rows: seq<Row>, key: Key, id: int, x: Row)
    requires x in rows && key(x) == id
    ensures Only(rows, key, id) != []
  {
    assert x in Only(rows, key, id);
  }

  /** A run that was passed does not come back. */
  lemma NeverBack(p: seq<Row>, chunk: seq<Row>, id: int)
    requires NoneBack(p, chunk) && Passed(p, id)
    ensures !HasRun(chunk, id) && !HasRun(Kept(p), id) && Only(chunk, BY_RUN, id) == []
  {
    forall y <- chunk ensures BY_RUN(y) != id { assert !HasRun(chunk, id); }
    NoneSame(chunk, BY_RUN, id);
    forall y <- Kept(p) ensures y.run != id {
      assert BY_RUN(y) == p[|p| - 1].run;
    }
  }

  /** What was kept and the new chunk hold every row so far of each run they mention. */
  lemma KeptIsWhole(p: seq<Row>, chunk: seq<Row>, id: int)
    requires NoneBack(p, chunk) && HasRun(Kept(p) + chunk, id)
    ensures Only(Kept(p) + chunk, BY_RUN, id) == Only(p + chunk, BY_RUN, id)
  {
    OnlyAppend(Kept(p), chunk, BY_RUN, id);
    OnlyAppend(p, chunk, BY_RUN, id);
    if Passed(p, id) {
      NeverBack(p, chunk, id);
      HasRunAppend(Kept(p), chunk, id);
      assert false;
    } else if p != [] && id == p[|p| - 1].run {
      AllSame(Kept(p), BY_RUN, id);
    } else {
      forall y <- p ensures BY_RUN(y) != id { assert !HasRun(p, id); }
      NoneSame(p, BY_RUN, id);
      NoneSame(Kept(p), BY_RUN, id);
    }
  }

  lemma HasRunAppend(a: seq<Row>, b: seq<Row>, id: int)
    ensures HasRun(a + b, id) <==> HasRun(a, id) || HasRun(b, id)
  {
    if HasRun(a + b, id) {
      var x :| x in a + b && x.run == id;
    } else {
      forall x <- a ensures x.run != id { assert x in a + b; }
      forall x <- b ensures x.run != id { assert x in a + b; }
    }
  }

  /** The last row kept is in the last run read. */
  lemma LastKept(p: seq<Row>, chunk: seq<Row>)
    requires Kept(p) + chunk != []
    ensures p + chunk != []
    ensures var b := Kept(p) + chunk; b[|b| - 1].run == (p + chunk)[|p + chunk| - 1].run
  {
    var b := Kept(p) + chunk;
    if chunk == [] {
      assert b == Kept(p) && p + chunk == p;
      assert b[|b| - 1] in Kept(p);
      assert BY_RUN(b[|b| - 1]) == p[|p| - 1].run;
    }
  }

  lemma HasRunKept(p: seq<Row>, id: int)
    ensures HasRun(Kept(p), id) <==> p != [] && id == p[|p| - 1].run
  {
    if p != [] {
      SomeIn(p, BY_RUN, p[|p| - 1].run, p[|p| - 1]);
      assert Kept(p)[0] in Kept(p);
      assert BY_RUN(Kept(p)[0]) == p[|p| - 1].run;
      if HasRun(Kept(p), id) {
        var x :| x in Kept(p) && x.run == id;
        assert BY_RUN(x) == p[|p| - 1].run;
      }
    }
  }

  /** The runs completed by a chunk. */
  function NewIds(p: seq<Row>, chunk: seq<Row>): seq<int> {
    var b := Kept(p) + chunk;
    if b == [] then [] else Ids(Except(b, BY_RUN, b[|b| - 1].run), BY_RUN)
  }

  lemma NewIdsAre(p: seq<Row>, chunk: seq<Row>, k: int)
    requires Kept(p) + chunk != []
    ensures k in NewIds(p, chunk) <==> Passed(Kept(p) + chunk, k)
  {
    var b := Kept(p) + chunk;
    var last := b[|b| - 1].run;
    var e := Except(b, BY_RUN, last);
    if k in NewIds(p, chunk) {
      var x :| x in e && BY_RUN(x) == k;
      assert x in b;
    }
    if Passed(b, k) {
      var x :| x in b && x.run == k;
      assert BY_RUN(x) == k && x in e;
    }
  }

  /** The runs passed after a chunk: those passed before and those it completes, never both. */
  lemma PassedNext(p: seq<Row>, chunk: seq<Row>, k: int)
    requires NoneBack(p, chunk) && Kept(p) + chunk != []
    ensures p + chunk != []
    ensures Passed(p + chunk, k) <==> Passed(p, k) || k in NewIds(p, chunk)
    ensures !(Passed(p, k) && k in NewIds(p, chunk))
  {
    LastKept(p, chunk);
    NewIdsAre(p, chunk, k);
    HasRunAppend(p, chunk, k);
    HasRunAppend(Kept(p), chunk, k);
    HasRunKept(p, k);
    var b := Kept(p) + chunk;
    assert b[|b| - 1] in b;
    assert HasRun(b, b[|b| - 1].run);
    if Passed(p, k) {
      NeverBack(p, chunk, k);
      assert !HasRun(b, k);
    }
    hide Kept, NewIds, HasRun;
  }

  /** The groups made before stay whole, and the new ones are whole. */
  lemma GroupsNext(p: seq<Row>, ids: seq<int>, chunk: seq<Row>)
    requires NoneBack(p, chunk) && Kept(p) + chunk != []
    requires forall k <- ids :: Passed(p, k)
    ensures var b := Kept(p) + chunk;
            Groups(p, BY_RUN, ids) + GroupBy(Except(b, BY_RUN, b[|b| - 1].run), BY_RUN)
            == Groups(p + chunk, BY_RUN, ids + NewIds(p, chunk))
  {
    var b := Kept(p) + chunk;
    var new_ := NewIds(p, chunk);
    GroupsStay(p, ids, chunk);
    GroupsComplete(p, chunk);
    hide Only, Except, Kept, NewIds, Ids, NoneBack, Passed;
    GroupsAppend(p + chunk, ids, new_);
  }

  lemma GroupsAppend(rows: seq<Row>, a: seq<int>, b: seq<int>)
    ensures Groups(rows, BY_RUN, a + b) == Groups(rows, BY_RUN, a) + Groups(rows, BY_RUN, b)
  {
    hide Only;
  }

  lemma GroupsStay(p: seq<Row>, ids: seq<int>, chunk: seq<Row>)
    requires NoneBack(p, chunk) && forall k <- ids :: Passed(p, k)
    ensures Groups(p, BY_RUN, ids) == Groups(p + chunk, BY_RUN, ids)
  {
    hide NoneBack, Passed, HasRun, Kept, Only;
    forall i | 0 <= i < |ids| ensures Only(p, BY_RUN, ids[i]) == Only(p + chunk, BY_RUN, ids[i]) {
      assert ids[i] in ids;
      NeverBack(p, chunk, ids[i]);
      OnlyAppend(p, chunk, BY_RUN, ids[i]);
    }
  }

  lemma GroupsComplete(p: seq<Row>, chunk: seq<Row>)
    requires NoneBack(p, chunk) && Kept(p) + chunk != []
    ensures var b := Kept(p) + chunk;
            GroupBy(Except(b, BY_RUN, b[|b| - 1].run), BY_RUN) == Groups(p + chunk, BY_RUN, NewIds(p, chunk))
  {
    var b := Kept(p) + chunk;
    var last := b[|b| - 1].run;
    var new_ := NewIds(p, chunk);
    hide NoneBack, HasRun, Kept, Only, Except, Ids;
    forall i | 0 <= i < |new_|
      ensures Only(Except(b, BY_RUN, last), BY_RUN, new_[i]) == Only(p + chunk, BY_RUN, new_[i])
    {
      assert new_[i] in new_;
      NewIdsAre(p, chunk, new_[i]);
      KeptIsWhole(p, chunk, new_[i]);
      OnlyExcept(b, BY_RUN, new_[i], last);
    }
  }

  lemma FeedSplit(p: seq<Row>, ids: seq<int>, s: State, chunk: seq<Row>)
    requires NoneBack(p, chunk) && Split(p, ids, s) && Feed(s, chunk).Some?
    ensures Split(p + chunk, ids + NewIds(p, chunk), Feed(s, chunk).value)
  {
    var b := Kept(p) + chunk;
    hide Only, Except, GroupBy, Groups, NoneBack, HasRun, NewIds, Passed, NoDup;
    GroupsNext(p, ids, chunk);
    LastKept(p, chunk);
    EndHasRun(b);
    KeptIsWhole(p, chunk, b[|b| - 1].run);
    forall k ensures k in ids + NewIds(p, chunk) <==> Passed(p + chunk, k) { PassedNext(p, chunk, k); }
    NoDupAppend(p, ids, chunk);
  }

  lemma EndHasRun(b: seq<Row>)
    requires b != []
    ensures HasRun(b, b[|b| - 1].run)
  {
    assert b[|b| - 1] in b;
  }

  lemma NoDupAppend(p: seq<Row>, ids: seq<int>, chunk: seq<Row>)
    requires NoneBack(p, chunk) && Kept(p) + chunk != []
    requires NoDup(ids) && forall k <- ids :: Passed(p, k)
    ensures NoDup(ids + NewIds(p, chunk))
  {
    var new_ := NewIds(p, chunk);
    var all := ids + new_;
    forall i, j | 0 <= i < j < |all| ensures all[i] != all[j] {
      if i < |ids| <= j {
        assert ids[i] in ids && new_[j - |ids|] in new_;
        PassedNext(p, chunk, ids[i]);
      }
    }
  }

  lemma NoReturnPrefix(chunks: seq<seq<Row>>, n: nat)
    requires NoReturn(chunks) && n < |chunks|
    ensures NoReturn(chunks[..n]) && NoneBack(Flat(chunks[..n]), chunks[n])
  {
    hide NoneBack, Flat;
    forall m: nat | m < n ensures NoneBack(Flat(chunks[..n][..m]), chunks[..n][m]) {
      assert chunks[..n][..m] == chunks[..m];
    }
  }

  lemma {:induction false} SplitAll(chunks: seq<seq<Row>>) returns (ids: seq<int>)
    requires NoReturn(chunks) && FeedAll(chunks).Some?
    ensures Split(Flat(chunks), ids, FeedAll(chunks).value)
    ensures RunsAscend(Flat(chunks)) ==> Ascending(ids)
  {
    if chunks == [] {
      ids := [];
    } else {
      var n := |chunks| - 1;
      var p := Flat(chunks[..n]);
      NoReturnPrefix(chunks, n);
      var before := SplitAll(chunks[..n]);
      FeedSplit(p, before, FeedAll(chunks[..n]).value, chunks[n]);
      ids := before + NewIds(p, chunks[n]);
      if RunsAscend(Flat(chunks)) { AscendNext(p, before, chunks[n]); }
      hide Split, NoneBack, NoReturn, Feed, NewIds, Ascending, RunsAscend;
    }
  }

  lemma AscendNext(p: seq<Row>, ids: seq<int>, chunk: seq<Row>)
    requires RunsAscend(p + chunk) && Kept(p) + chunk != []
    requires (RunsAscend(p) ==> Ascending(ids)) && forall k <- ids :: Passed(p, k)
    ensures Ascending(ids + NewIds(p, chunk))
  {
    AscendPrefix(p, chunk);
    var new_ := NewIds(p, chunk);
    var all := ids + new_;
    forall i, j | 0 <= i < j < |all| ensures all[i] < all[j] {
      if i < |ids| <= j {
        assert ids[i] in ids && new_[j - |ids|] in new_;
        NewIdsAre(p, chunk, new_[j - |ids|]);
        PassedBelow(p, chunk, ids[i], new_[j - |ids|]);
      }
    }
  }

  lemma AscendPrefix(p: seq<Row>, q: seq<Row>)
    requires RunsAscend(p + q)
    ensures RunsAscend(p)
  {
    forall i, j | 0 <= i < j < |p| ensures p[i].run <= p[j].run {
      assert (p + q)[i] == p[i] && (p + q)[j] == p[j];
    }
  }

  lemma PassedBelow(p: seq<Row>, chunk: seq<Row>, id: int, k: int)
    requires RunsAscend(p + chunk) && Passed(p, id) && HasRun(Kept(p) + chunk, k)
    ensures id < k
  {
    var all := p + chunk;
    var x :| x in p && x.run == id;
    var i :| 0 <= i < |p| && p[i] == x;
    assert all[i] == x && all[|p| - 1] == p[|p| - 1];
    HasRunAppend(Kept(p), chunk, k);
    HasRunKept(p, k);
    if HasRun(chunk, k) {
      var y :| y in chunk && y.run == k;
      var j :| 0 <= j < |chunk| && chunk[j] == y;
      assert all[|p| + j] == y;
    }
  }

  /**
   When no chunk brings back a run already passed, there is exactly one call a run, with
   all of its rows in file order.
   */
  lemma OneCallPerRun(chunks: seq<seq<Row>>) returns (ids: seq<int>)
    requires NoReturn(chunks) && Calls(chunks).Some?
    ensures NoDup(ids) && forall k :: k in ids <==> HasRun(Flat(chunks), k)
    ensures Calls(chunks) == Some(Groups(Flat(chunks), BY_RUN, ids))
    ensures RunsAscend(Flat(chunks)) ==> Ascending(ids)
  {
    var p := Flat(chunks);
    var passed := SplitAll(chunks);
    if p == [] {
      ids := passed;
      NothingRead(chunks);
    } else {
      ids := passed + [p[|p| - 1].run];
      LastCall(p, passed, FeedAll(chunks).value);
      hide Split, NoDup, HasRun, Groups, FeedAll, NoReturn;
      if RunsAscend(p) { LastAscends(p, passed); }
    }
  }

  lemma LastCall(p: seq<Row>, ids: seq<int>, s: State)
    requires p != [] && Split(p, ids, s)
    ensures var all := ids + [p[|p| - 1].run];
            && NoDup(all) && (forall k :: k in all <==> HasRun(p, k))
            && (forall k <- ids :: Passed(p, k))
            && s.buf != [] && s.calls + [s.buf] == Groups(p, BY_RUN, all)
  {
    hide Only, HasRun, Groups, NoDup, Passed;
    LastGroup(p, ids);
    LastOnce(p, ids);
    forall k ensures k in ids + [p[|p| - 1].run] <==> HasRun(p, k) {
      assert k in ids <==> Passed(p, k);
      PassedOrLast(p, k);
    }
  }

  lemma PassedOrLast(p: seq<Row>, k: int)
    requires p != []
    ensures HasRun(p, k) <==> Passed(p, k) || k == p[|p| - 1].run
  {
    EndHasRun(p);
  }

  lemma LastGroup(p: seq<Row>, ids: seq<int>)
    requires p != []
    ensures Kept(p) != []
    ensures Groups(p, BY_RUN, ids) + [Kept(p)] == Groups(p, BY_RUN, ids + [p[|p| - 1].run])
  {
    var last := p[|p| - 1].run;
    HasRunKept(p, last);
    assert (ids + [last])[..|ids|] == ids;
    hide Only, HasRun;
  }

  lemma LastOnce(p: seq<Row>, ids: seq<int>)
    requires p != [] && NoDup(ids) && forall k :: k in ids <==> Passed(p, k)
    ensures NoDup(ids + [p[|p| - 1].run])
  {
    hide HasRun;
    var last := p[|p| - 1].run;
    assert last !in ids;
    assert forall i | 0 <= i < |ids| :: ids[i] in ids;
  }

  lemma LastAscends(p: seq<Row>, ids: seq<int>)
    requires p != [] && RunsAscend(p) && Ascending(ids) && forall k <- ids :: Passed(p, k)
    ensures Ascending(ids + [p[|p| - 1].run])
  {
    var last := p[|p| - 1].run;
    assert p + [] == p && Kept(p) + [] == Kept(p);
    HasRunKept(p, last);
    var all := ids + [last];
    forall i, j | 0 <= i < j < |all| ensures all[i] < all[j] {
      if j == |ids| {
        assert ids[i] in ids;
        PassedBelow(p, [], ids[i], last);
      }
    }
  }

  lemma {:induction false} NothingRead(chunks: seq<seq<Row>>)
    requires Flat(chunks) == [] && FeedAll(chunks).Some?
    ensures chunks == []
  {
    if chunks != [] {
      FailsOnEmptyFirst(chunks);
      FlatFirst(chunks);
      assert false;
    }
  }

  lemma {:induction false} FlatFirst(chunks: seq<seq<Row>>)
    requires chunks != []
    ensures |chunks[0]| <= |Flat(chunks)|
  {
    if |chunks| > 1 { FlatFirst(chunks[..|chunks| - 1]); }
  }

  lemma Member(b: seq<int>)
    ensures b != [] ==> b[0] in b
  {
  }

  lemma {:induction false} SameSorted(a: seq<int>, b: seq<int>)
    requires Ascending(a) && Ascending(b) && forall k :: k in a <==> k in b
    ensures a == b
  {
    Member(b);
    if a != [] {
      assert a[0] in a && a[0] in b;
      assert b[0] in b && b[0] in a;
      assert a[0] == b[0];
      forall k ensures k in a[1..] <==> k in b[1..] {
        assert k in a[1..] <==> k in a && k != a[0];
        assert k in b[1..] <==> k in b && k != b[0];
      }
      SameSorted(a[1..], b[1..]);
      assert a == [a[0]] + a[1..] && b == [b[0]] + b[1..];
    }
  }

  /** When run numbers ascend, streaming agrees with one group-by over the whole file. */
  lemma StreamIsGroupBy(chunks: seq<seq<Row>>)
    requires RunsAscend(Flat(chunks)) && Calls(chunks).Some?
    ensures Calls(chunks) == Some(GroupBy(Flat(chunks), BY_RUN))
  {
    var p := Flat(chunks);
    ContiguousNoReturn(chunks);
    var ids := OneCallPerRun(chunks);
    forall k ensures k in ids <==> k in Ids(p, BY_RUN) {
      IdsHaveRun(p, k);
    }
    SameSorted(ids, Ids(p, BY_RUN));
    hide Calls, HasRun, Ids;
  }

  lemma IdsHaveRun(p: seq<Row>, k: int)
    ensures k in Ids(p, BY_RUN) <==> HasRun(p, k)
  {
    if HasRun(p, k) {
      var x :| x in p && x.run == k;
      assert BY_RUN(x) == k;
    }
    if k in Ids(p, BY_RUN) {
      var x :| x in p && BY_RUN(x) == k;
      assert x.run == k;
    }
  }

  // ---------------------------------------------------------------- exactly when a run is called once

  /** No two calls share a run. */
  ghost predicate OnceEach(calls: seq<seq<Row>>) {
    forall i: nat, j: nat, r: int | i < j < |calls| && HasRun(calls[i], r) :: !HasRun(calls[j], r)
  }

  /** Some call from number `base` on holds rows of run `r`. */
  ghost predicate SomeCall(calls: seq<seq<Row>>, base: nat, r: int) {
    exists k | base <= k < |calls| :: HasRun(calls[k], r)
  }

  /** Run `r` is kept back, or some call from number `base` on has held rows of it. */
  ghost predicate Handed(s: State, base: nat, r: int) {
    HasRun(s.buf, r) || SomeCall(s.calls, base, r)
  }

  lemma SomeCallAppend(a: seq<seq<Row>>, b: seq<seq<Row>>, base: nat, r: int)
    ensures SomeCall(a, base, r) ==> SomeCall(a + b, base, r)
    ensures base <= |a| && SomeCall(b, 0, r) ==> SomeCall(a + b, base, r)
  {
    if SomeCall(a, base, r) {
      var k :| base <= k < |a| && HasRun(a[k], r);
      assert (a + b)[k] == a[k];
    }
    if base <= |a| && SomeCall(b, 0, r) {
      var k :| 0 <= k < |b| && HasRun(b[k], r);
      assert (a + b)[|a| + k] == b[k];
    }
  }

  /** A group-by of rows that have the run has a group that has it. */
  lemma GroupHasRun(rows: seq<Row>, r: int)
    requires HasRun(rows, r)
    ensures SomeCall(GroupBy(rows, BY_RUN), 0, r)
  {
    IdsHaveRun(rows, r);
    var ids := Ids(rows, BY_RUN);
    var k :| 0 <= k < |ids| && ids[k] == r;
    var x :| x in rows && x.run == r;
    assert BY_RUN(x) == r;
    assert x in GroupBy(rows, BY_RUN)[k];
  }

  /** What was kept back or arrives with a chunk is kept back again or called. */
  lemma FeedHands(s: State, chunk: seq<Row>, base: nat, r: int)
    requires Feed(s, chunk).Some? && base <= |s.calls|
    requires Handed(s, base, r) || HasRun(chunk, r)
    ensures Handed(Feed(s, chunk).value, base, r) && s.calls <= Feed(s, chunk).value.calls
  {
    var b := s.buf + chunk;
    var last := b[|b| - 1].run;
    var e := Except(b, BY_RUN, last);
    SomeCallAppend(s.calls, GroupBy(e, BY_RUN), base, r);
    HasRunAppend(s.buf, chunk, r);
    if HasRun(b, r) {
      var x :| x in b && x.run == r;
      assert BY_RUN(x) == r;
      if r == last {
        assert x in Only(b, BY_RUN, last);
      } else {
        assert x in e;
        GroupHasRun(e, r);
      }
    }
  }

  lemma PrefixFeeds(chunks: seq<seq<Row>>, m: nat)
    requires m <= |chunks| && FeedAll(chunks).Some?
    ensures FeedAll(chunks[..m]).Some?
  {
    FailsOnEmptyFirst(chunks);
    FailsOnEmptyFirst(chunks[..m]);
    hide FeedAll;
    if m > 0 { assert chunks[..m][0] == chunks[0]; }
  }

  lemma {:induction false} HandedOn(chunks: seq<seq<Row>>, m: nat, base: nat, r: int)
    requires m <= |chunks| && FeedAll(chunks).Some? && FeedAll(chunks[..m]).Some?
    requires base <= |FeedAll(chunks[..m]).value.calls| && Handed(FeedAll(chunks[..m]).value, base, r)
    ensures Handed(FeedAll(chunks).value, base, r)
    ensures FeedAll(chunks[..m]).value.calls <= FeedAll(chunks).value.calls
    decreases |chunks|
  {
    if m == |chunks| {
      assert chunks[..m] == chunks;
    } else {
      var front := chunks[..|chunks| - 1];
      assert front[..m] == chunks[..m];
      PrefixFeeds(chunks, |chunks| - 1);
      HandedOn(front, m, base, r);
      FeedHands(FeedAll(front).value, chunks[|chunks| - 1], base, r);
      hide Feed, Handed;
    }
  }

  /** Every row read is in a call or kept back, and only rows of the last run are kept back. */
  lemma ReadIsHanded(chunks: seq<seq<Row>>, r: int)
    requires FeedAll(chunks).Some? && HasRun(Flat(chunks), r)
    ensures Handed(FeedAll(chunks).value, 0, r)
  {
    var s := FeedAll(chunks).value;
    var x :| x in Flat(chunks) && x.run == r;
    EveryRowOnce(chunks, x);
    hide FeedAll;
    assert Times(Flat(chunks), x) > 0;
    if x !in s.buf {
      assert Times(s.buf, x) == 0;
      assert x in Flat(s.calls);
      InSomeCall(s.calls, x);
    }
  }

  lemma {:induction false} InSomeCall(calls: seq<seq<Row>>, x: Row)
    requires x in Flat(calls)
    ensures SomeCall(calls, 0, x.run)
  {
    if calls != [] {
      var n := |calls| - 1;
      if x in calls[n] {
        assert HasRun(calls[n], x.run);
      } else {
        InSomeCall(calls[..n], x);
        SomeCallAppend(calls[..n], [calls[n]], 0, x.run);
        assert calls[..n] + [calls[n]] == calls;
      }
    }
  }

  /** The rows kept back are of the last run read, and some are while anything was read. */
  ghost predicate OfLastRun(p: seq<Row>, buf: seq<Row>) {
    (p == [] <==> buf == []) && forall y <- buf :: p != [] && y.run == p[|p| - 1].run
  }

  lemma {:induction false} KeepsLastRun(chunks: seq<seq<Row>>)
    requires FeedAll(chunks).Some?
    ensures OfLastRun(Flat(chunks), FeedAll(chunks).value.buf)
  {
    if chunks != [] {
      var n := |chunks| - 1;
      KeepsLastRun(chunks[..n]);
      hide Feed, OfLastRun;
      FeedKeepsLast(Flat(chunks[..n]), FeedAll(chunks[..n]).value, chunks[n]);
    }
  }

  lemma FeedKeepsLast(p: seq<Row>, s: State, chunk: seq<Row>)
    requires Feed(s, chunk).Some? && OfLastRun(p, s.buf)
    ensures OfLastRun(p + chunk, Feed(s, chunk).value.buf)
  {
    var b, q := s.buf + chunk, p + chunk;
    var last := b[|b| - 1];
    assert last.run == q[|q| - 1].run by {
      if chunk == [] { assert last in s.buf; }
    }
    assert BY_RUN(last) == last.run;
    assert last in Only(b, BY_RUN, last.run);
    forall y <- Only(b, BY_RUN, last.run) ensures y.run == last.run { assert BY_RUN(y) == last.run; }
  }

  /** A run that was passed has been called. */
  lemma PassedIsCalled(chunks: seq<seq<Row>>, r: int)
    requires FeedAll(chunks).Some? && Passed(Flat(chunks), r)
    ensures SomeCall(FeedAll(chunks).value.calls, 0, r)
  {
    hide FeedAll, Flat, SomeCall, HasRun;
    ReadIsHanded(chunks, r);
    KeepsLastRun(chunks);
    NotInLastRun(Flat(chunks), FeedAll(chunks).value.buf, r);
  }

  lemma NotInLastRun(p: seq<Row>, buf: seq<Row>, r: int)
    requires OfLastRun(p, buf) && Passed(p, r)
    ensures !HasRun(buf, r)
  {
  }

  /** A run in a chunk is in some call made with that chunk or later. */
  lemma ChunkIsCalled(chunks: seq<seq<Row>>, m: nat, r: int)
    requires Calls(chunks).Some? && m < |chunks| && HasRun(chunks[m], r)
    ensures FeedAll(chunks[..m]).Some?
    ensures var base := |FeedAll(chunks[..m]).value.calls|;
            SomeCall(Calls(chunks).value, base, r)
    ensures FeedAll(chunks[..m]).value.calls <= Calls(chunks).value
  {
    PrefixFeeds(chunks, m);
    PrefixFeeds(chunks, m + 1);
    var s := FeedAll(chunks[..m]).value;
    var base := |s.calls|;
    FeedNext(chunks, m);
    hide FeedAll, Feed, Handed, HasRun;
    FeedHands(s, chunks[m], base, r);
    HandedOn(chunks, m + 1, base, r);
    FinalCalls(chunks, base, r);
    hide Calls, SomeCall;
    PrefixTrans(s.calls, FeedAll(chunks[..m + 1]).value.calls, FeedAll(chunks).value.calls);
    PrefixTrans(s.calls, FeedAll(chunks).value.calls, Calls(chunks).value);
  }

  lemma PrefixTrans<T>(a: seq<T>, b: seq<T>, c: seq<T>)
    requires a <= b <= c
    ensures a <= c
  {
  }

  /** A run brought back is in two calls: one made before it came back and one made after. */
  lemma BroughtBackTwice(chunks: seq<seq<Row>>, m: nat, r: int)
    requires Calls(chunks).Some? && m < |chunks|
    requires Passed(Flat(chunks[..m]), r) && HasRun(chunks[m], r)
    ensures !OnceEach(Calls(chunks).value)
  {
    ChunkIsCalled(chunks, m, r);
    PassedIsCalled(chunks[..m], r);
    hide FeedAll, Calls, HasRun, Flat;
    var before, calls := FeedAll(chunks[..m]).value.calls, Calls(chunks).value;
    var i :| 0 <= i < |before| && HasRun(before[i], r);
    var j :| |before| <= j < |calls| && HasRun(calls[j], r);
    assert calls[i] == before[i];
  }

  lemma FinalCalls(chunks: seq<seq<Row>>, base: nat, r: int)
    requires Calls(chunks).Some? && base <= |FeedAll(chunks).value.calls| && Handed(FeedAll(chunks).value, base, r)
    ensures SomeCall(Calls(chunks).value, base, r) && FeedAll(chunks).value.calls <= Calls(chunks).value
  {
    hide FeedAll;
    var s := FeedAll(chunks).value;
    SomeCallAppend(s.calls, [s.buf], base, r);
    if HasRun(s.buf, r) { assert [s.buf][0] == s.buf && SomeCall([s.buf], 0, r); }
  }

  lemma GroupsOnce(p: seq<Row>, ids: seq<int>)
    requires NoDup(ids)
    ensures OnceEach(Groups(p, BY_RUN, ids))
  {
    var calls := Groups(p, BY_RUN, ids);
    forall i: nat, r: int | i < |calls| && HasRun(calls[i], r) ensures ids[i] == r {
      var x: Row :| x in calls[i] && x.run == r;
      assert BY_RUN(x) == ids[i];
    }
  }

  /**
   Exactly which chunkings call each run once: those in which no chunk brings back a run
   that the rows before it had passed.
   */
  lemma OneCallExactly(chunks: seq<seq<Row>>)
    requires Calls(chunks).Some?
    ensures OnceEach(Calls(chunks).value) <==> NoReturn(chunks)
  {
    if NoReturn(chunks) {
      var ids := OneCallPerRun(chunks);
      GroupsOnce(Flat(chunks), ids);
    }
    if OnceEach(Calls(chunks).value) {
      hide Calls, OnceEach, Flat, Passed, HasRun;
      forall m: nat | m < |chunks| ensures NoneBack(Flat(chunks[..m]), chunks[m]) {
        forall r | Passed(Flat(chunks[..m]), r) ensures !HasRun(chunks[m], r) {
          if HasRun(chunks[m], r) { BroughtBackTwice(chunks, m, r); }
        }
      }
    }
  }

  lemma {:induction false} FlatPrefix(chunks: seq<seq<Row>>, m: nat)
    requires m < |chunks|
    ensures Flat(chunks[..m]) + chunks[m] <= Flat(chunks)
    decreases |chunks|
  {
    if m < |chunks| - 1 {
      FlatPrefix(chunks[..|chunks| - 1], m);
      assert chunks[..|chunks| - 1][..m] == chunks[..m];
    }
  }

  lemma ContiguousNoReturn(chunks: seq<seq<Row>>)
    requires Contiguous(Flat(chunks)) || RunsAscend(Flat(chunks))
    ensures NoReturn(chunks)
  {
    forall m: nat | m < |chunks| ensures NoneBack(Flat(chunks[..m]), chunks[m]) {
      FlatPrefix(chunks, m);
      ContiguousNoneBack(Flat(chunks[..m]), chunks[m], Flat(chunks));
    }
  }

  lemma ContiguousNoneBack(p: seq<Row>, chunk: seq<Row>, all: seq<Row>)
    requires p + chunk <= all && (Contiguous(all) || RunsAscend(all))
    ensures NoneBack(p, chunk)
  {
    forall id | Passed(p, id) ensures !HasRun(chunk, id) {
      var x :| x in p && x.run == id;
      var i :| 0 <= i < |p| && p[i] == x;
      forall y <- chunk ensures y.run != id {
        var k :| 0 <= k < |chunk| && chunk[k] == y;
        assert (p + chunk)[i] == x && (p + chunk)[|p| - 1] == p[|p| - 1] && (p + chunk)[|p| + k] == y;
        assert all[i] == x && all[|p| - 1] == p[|p| - 1] && all[|p| + k] == y;
      }
    }
  }

  /** One row a chunk. */
  function Singles(p: seq<Row>): (r: seq<seq<Row>>)
    ensures |r| == |p| && forall m | 0 <= m < |p| :: r[m] == [p[m]]
  {
    seq(|p|, m requires 0 <= m < |p| => [p[m]])
  }

  lemma {:induction false} FlatSingles(p: seq<Row>, m: nat)
    requires m <= |p|
    ensures Flat(Singles(p)[..m]) == p[..m]
  {
    var chunks := Singles(p);
    if m > 0 {
      assert chunks[..m][..m - 1] == chunks[..m - 1];
      FlatSingles(p, m - 1);
      assert p[..m] == p[..m - 1] + [p[m - 1]];
    }
  }

  /** A run left and met again is met again, somewhere, right after another one. */
  lemma {:induction false} FirstReturn(p: seq<Row>, j: nat, k: nat) returns (m: nat)
    requires j < k < |p| && p[j].run != p[k].run
    ensures j < m <= k && p[m].run == p[k].run != p[m - 1].run
  {
    if p[k - 1].run != p[k].run { m := k; } else { m := FirstReturn(p, j, k - 1); }
  }

  lemma SinglesAt(p: seq<Row>, m: nat, r: int)
    requires NoReturn(Singles(p)) && m < |p| && Passed(p[..m], r)
    ensures p[m].run != r
  {
    var chunks := Singles(p);
    FlatSingles(p, m);
    assert NoneBack(Flat(chunks[..m]), chunks[m]);
    assert p[m] in chunks[m];
  }

  lemma SinglesNoReturn(p: seq<Row>)
    requires NoReturn(Singles(p))
    ensures Contiguous(p)
  {
    hide NoReturn;
    forall i: nat, j: nat, k: nat | i < j < k < |p| && p[i].run == p[k].run ensures p[j].run == p[i].run {
      if p[j].run != p[i].run {
        var m := FirstReturn(p, j, k);
        var r := p[k].run;
        assert p[..m][i] == p[i] && p[..m][m - 1] == p[m - 1];
        assert p[i] in p[..m];
        assert Passed(p[..m], r);
        SinglesAt(p, m, r);
      }
    }
  }

  /**
   A file is called run by run under every chunking exactly when the rows of each run are
   next to each other.
   */
  lemma EveryChunkingExactly(p: seq<Row>)
    ensures (forall chunks: seq<seq<Row>> | Flat(chunks) == p && Calls(chunks).Some? :: OnceEach(Calls(chunks).value))
            <==> Contiguous(p)
  {
    hide OnceEach, Calls, NoReturn, Flat, Contiguous;
    if Contiguous(p) {
      forall chunks: seq<seq<Row>> | Flat(chunks) == p && Calls(chunks).Some? ensures OnceEach(Calls(chunks).value) {
        ContiguousNoReturn(chunks);
        OneCallExactly(chunks);
      }
    }
    if forall chunks: seq<seq<Row>> | Flat(chunks) == p && Calls(chunks).Some? :: OnceEach(Calls(chunks).value) {
      var chunks := Singles(p);
      FlatSingles(p, |p|);
      assert chunks[..|p|] == chunks && p[..|p|] == p;
      SinglesFeed(p);
      OneCallExactly(chunks);
      SinglesNoReturn(p);
    }
  }

  lemma SinglesFeed(p: seq<Row>)
    ensures Calls(Singles(p)).Some?
  {
    FailsOnEmptyFirst(Singles(p));
  }

  // ---------------------------------------------------------------- one line a transition

  predicate SameLine(f: Feature, g: Feature) {
    f.run == g.run && f.transition == g.transition
  }

  /** The line holds the measurements of its transition of its run, in file order. */
  predicate Faithful(p: seq<Row>, f: Feature) {
    f.rows == Only(Only(p, BY_RUN, f.run), BY_TRANSITION, f.transition) && f.rows != []
  }

  ghost predicate LinesOnce(fs: seq<Feature>) {
    forall i, j | 0 <= i < j < |fs| :: !SameLine(fs[i], fs[j])
  }

  lemma RunLines(p: seq<Row>, id: int)
    requires HasRun(p, id)
    ensures var fs := RunFeatures(Only(p, BY_RUN, id));
            && LinesOnce(fs)
            && forall f <- fs :: f.run == id && Faithful(p, f)
  {
    var rows := Only(p, BY_RUN, id);
    var x :| x in p && x.run == id;
    assert x in rows;
    assert rows[0] in rows && BY_RUN(rows[0]) == id;
    GroupsNonEmpty(rows, BY_TRANSITION);
    TransitionLines(p, id, rows, Ids(rows, BY_TRANSITION));
  }

  lemma TransitionLines(p: seq<Row>, id: int, rows: seq<Row>, ids: seq<int>)
    requires rows == Only(p, BY_RUN, id) && rows != [] && rows[0].run == id && ids == Ids(rows, BY_TRANSITION)
    requires NoneEmpty(GroupBy(rows, BY_TRANSITION))
    ensures LinesOnce(RunFeatures(rows)) && forall f <- RunFeatures(rows) :: f.run == id && Faithful(p, f)
  {
    var groups := GroupBy(rows, BY_TRANSITION);
    assert forall i | 0 <= i < |ids| :: groups[i] in groups && groups[i] == Only(rows, BY_TRANSITION, ids[i]);
    hide Only, Ids, NoneEmpty;
  }

  /** One call a run writes one line for each of its transitions, and no line twice. */
  lemma {:induction false} LinesOfGroups(p: seq<Row>, ids: seq<int>)
    requires NoDup(ids) && forall k <- ids :: HasRun(p, k)
    ensures var fs := AllFeatures(Groups(p, BY_RUN, ids));
            && LinesOnce(fs)
            && forall f <- fs :: f.run in ids && Faithful(p, f)
  {
    if ids != [] {
      var n := |ids| - 1;
      var front := Groups(p, BY_RUN, ids[..n]);
      LinesOfGroups(p, ids[..n]);
      assert ids[n] in ids;
      RunLines(p, ids[n]);
      FeaturesSnoc(front, Only(p, BY_RUN, ids[n]));
      hide AllFeatures, RunFeatures, Faithful, Only, HasRun;
      assert ids[n] !in ids[..n];
      LinesJoin(AllFeatures(front), RunFeatures(Only(p, BY_RUN, ids[n])), ids[..n], ids[n]);
    }
  }

  lemma LinesJoin(a: seq<Feature>, b: seq<Feature>, ids: seq<int>, id: int)
    requires LinesOnce(a) && LinesOnce(b) && id !in ids
    requires (forall f <- a :: f.run in ids) && forall f <- b :: f.run == id
    ensures LinesOnce(a + b)
  {
    var all := a + b;
    forall i, j | 0 <= i < j < |all| ensures !SameLine(all[i], all[j]) {
      if i < |a| <= j {
        assert a[i] in a && b[j - |a|] in b;
      }
    }
  }

  /** When no run comes back no (run, transition) pair gets two lines, and each line has all its rows. */
  lemma LinesOfStream(chunks: seq<seq<Row>>)
    requires NoReturn(chunks) && Calls(chunks).Some?
    ensures var fs := AllFeatures(Calls(chunks).value);
            LinesOnce(fs) && forall f <- fs :: Faithful(Flat(chunks), f)
  {
    var ids := OneCallPerRun(chunks);
    hide AllFeatures, HasRun, Calls, Faithful;
    LinesOfGroups(Flat(chunks), ids);
  }
}
