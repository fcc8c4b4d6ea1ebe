/**
 The model registry file `models.jsonl`:
 `app/repositories/files/model_registry_repo.py`.

 One JSON object a line. The rows are read into objects, changed in place through
 an alias, and written back to a sibling file that then replaces the original.
 */
module Registry {
  import opened Common
  import opened Json
  import opened JsonRoundTrip

  const ACTIVE := Str("active")
  const SHADOW := Str("shadow")
  const ARCHIVED := Str("archived")

  datatype RegistryError = UnknownScenario | FileNotFound | BadLine | VersionNotFound

  // ---------------------------------------------------------------- lines

  /** The characters `str.strip` removes. */
  predicate IsSpace(c: char) {
    || '\t' <= c <= '\r' || '\U{1C}' <= c <= ' ' || c == '\U{85}' || c == '\U{A0}' || c == '\U{1680}'
    || '\U{2000}' <= c <= '\U{200A}' || c in "\U{2028}\U{2029}\U{202F}\U{205F}\U{3000}"
  }

  predicate IsLineBreak(c: char) {
    c == '\n' || c == '\r'
  }

  /** The text up to the first line break, and what follows it. */
  function CutLine(text: string): (r: (string, string))
    ensures text != "" ==> |r.1| < |text|
  {
    if text == "" then ("", "")
    else if IsLineBreak(text[0]) then ("", text[1..])
    else
      var (line, rest) := CutLine(text[1..]);
      ([text[0]] + line, rest)
  }

  function StripLeft(s: string): string {
    if s != "" && IsSpace(s[0]) then StripLeft(s[1..]) else s
  }

  function StripRight(s: string): string {
    if s != "" && IsSpace(s[|s| - 1]) then StripRight(s[..|s| - 1]) else s
  }

  function Strip(s: string): string {
    StripRight(StripLeft(s))
  }

  /** `json.loads` of a line that holds an object. */
  function LoadRow(line: string): Option<Dict> {
    var p := ParseValue(line);
    if p.Done? && p.rest == "" && p.value.Obj? then Some(p.value.members) else None
  }

  /** The rows of the file, blank lines left out. */
  function ReadRows(text: string): Option<seq<Dict>>
    decreases |text|
  {
    if text == "" then Some([])
    else
      var (line, rest) := CutLine(text);
      var more := ReadRows(rest);
      if Strip(line) == "" then more
      else
        var row := LoadRow(Strip(line));
        if row.None? || more.None? then None else Some([row.value] + more.value)
  }

  function Line(d: Dict): string {
    Print(Obj(d), Spaced) + "\n"
  }

  function Render(rows: seq<Dict>): string {
    if rows == [] then "" else Line(rows[0]) + Render(rows[1..])
  }

  // ---------------------------------------------------------------- rows

  predicate InScenario(d: Dict, scenario: string) {
    Get(d, "scenario_id") == Str(scenario)
  }

  predicate IsActive(d: Dict, scenario: string) {
    InScenario(d, scenario) && Get(d, "status") == ACTIVE
  }

  predicate Matches(d: Dict, scenario: string, version: string) {
    InScenario(d, scenario) && Get(d, "version") == Str(version)
  }

  /** The first row of the scenario with this version. */
  function FindVersion(rows: seq<Dict>, scenario: string, version: string): (r: Option<nat>)
    ensures r.Some? ==> r.value < |rows| && Matches(rows[r.value], scenario, version)
    ensures r.Some? ==> forall i | 0 <= i < r.value :: !Matches(rows[i], scenario, version)
    ensures r.None? ==> forall i | 0 <= i < |rows| :: !Matches(rows[i], scenario, version)
  {
    if rows == [] then None
    else if Matches(rows[0], scenario, version) then Some(0)
    else
      var r := FindVersion(rows[1..], scenario, version);
      if r.None? then None else Some(r.value + 1)
  }

  function PromotedRow(d: Dict, scenario: string, isTarget: bool): Dict {
    if isTarget then Put(d, "status", ACTIVE)
    else if IsActive(d, scenario) then Put(d, "status", ARCHIVED)
    else d
  }

  /** Row `t` made active, every other active row of the scenario archived. */
  function PromoteRows(rows: seq<Dict>, scenario: string, t: nat): (r: seq<Dict>)
    ensures |r| == |rows|
    ensures forall i | 0 <= i < |rows| :: r[i] == PromotedRow(rows[i], scenario, i == t)
  {
    seq(|rows|, i requires 0 <= i < |rows| => PromotedRow(rows[i], scenario, i == t))
  }

  datatype Candidate = Candidate(
    scenario: string, version: string, pool: string, fileHash: string, metrics: Value, trainedAt: Value)

  function ShadowRow(c: Candidate): Dict {
    [Member("scenario_id", Str(c.scenario)), Member("version", Str(c.version)), Member("pool", Str(c.pool)),
     Member("status", SHADOW), Member("file_hash_sha256", Str(c.fileHash)), Member("metrics", c.metrics),
     Member("trained_at", c.trainedAt)]
  }

  // ---------------------------------------------------------------- the file

  class RowObject {
    var d: Dict

    constructor (d: Dict)
      ensures this.d == d
    {
      this.d := d;
    }
  }

  ghost function Values(rows: seq<RowObject>): (r: seq<Dict>)
    reads rows
    ensures |r| == |rows| && forall i | 0 <= i < |rows| :: r[i] == rows[i].d
  {
    seq(|rows|, i requires 0 <= i < |rows| reads rows => rows[i].d)
  }

  class ModelRegistryFile {
    const wellFormed: string -> bool
    var models: Option<string>
    var tmp: Option<string>

    constructor (wellFormed: string -> bool, models: Option<string>)
      ensures this.wellFormed == wellFormed && this.models == models
    {
      this.wellFormed, this.models, tmp := wellFormed, models, None;
    }

    /** One new object a row, in file order. */
    method ReadAll() returns (r: Result<seq<RowObject>, RegistryError>)
      ensures models.None? ==> r == Err(FileNotFound)
      ensures models.Some? && ReadRows(models.value).None? ==> r == Err(BadLine)
      ensures models.Some? && ReadRows(models.value).Some? ==>
                r.Ok? && Values(r.value) == ReadRows(models.value).value
      ensures r.Ok? ==> fresh(r.value) && forall i, j | 0 <= i < j < |r.value| :: r.value[i] != r.value[j]
    {
      if models.None? {
        return Err(FileNotFound);
      }
      var dicts := ReadRows(models.value);
      if dicts.None? {
        return Err(BadLine);
      }
      var rows: seq<RowObject> := [];
      for k := 0 to |dicts.value|
        invariant |rows| == k && fresh(rows)
        invariant forall i, j | 0 <= i < j < |rows| :: rows[i] != rows[j]
        invariant forall i | 0 <= i < k :: rows[i].d == dicts.value[i]
      {
        var row := new RowObject(dicts.value[k]);
        rows := rows + [row];
      }
      r := Ok(rows);
    }

    /** The sibling file is written row by row, then replaces the original. */
    method WriteAll(rows: seq<RowObject>)
      modifies this
      ensures models == Some(Render(Values(rows))) && tmp == None
    {
      hide Line;
      ghost var all := Values(rows);
      tmp := Some("");
      assert "" + Render(all[0..]) == Render(all) by { assert all[0..] == all; }
      for k := 0 to |rows|
        invariant models == old(models) && all == Values(rows)
        invariant tmp.Some? && tmp.value + Render(all[k..]) == Render(all)
      {
        assert all[k..][1..] == all[k + 1..];
        Associate(tmp.value, Line(all[k]), Render(all[k + 1..]));
        tmp := Some(tmp.value + Line(rows[k].d));
      }
      assert tmp.value + "" == tmp.value;
      models, tmp := tmp, None;
    }

    method AddShadow(c: Candidate) returns (r: Result<RowObject, RegistryError>)
      modifies this
      ensures r.Err? ==> models == old(models)
      ensures r.Err? <==> !wellFormed(c.scenario) || old(models).None? || ReadRows(old(models).value).None?
      ensures r.Ok? ==> r.value.d == ShadowRow(c)
      ensures r.Ok? ==> models == Some(Render(ReadRows(old(models).value).value + [ShadowRow(c)]))
    {
      if !wellFormed(c.scenario) {
        return Err(UnknownScenario);
      }
      var read := ReadAll();
      if read.Err? {
        return Err(read.error);
      }
      var record := new RowObject(ShadowRow(c));
      var rows := read.value + [record];
      assert Values(rows) == Values(read.value) + [ShadowRow(c)];
      WriteAll(rows);
      r := Ok(record);
    }

    method Promote(scenario: string, version: string) returns (r: Result<RowObject, RegistryError>)
      modifies this
      ensures r.Err? ==> models == old(models)
      ensures r.Err? <==> !wellFormed(scenario) || old(models).None? || ReadRows(old(models).value).None?
                          || FindVersion(ReadRows(old(models).value).value, scenario, version).None?
      ensures r.Ok? ==>
                var rows := ReadRows(old(models).value).value;
                var t := FindVersion(rows, scenario, version).value;
                models == Some(Render(PromoteRows(rows, scenario, t))) && r.value.d == PromoteRows(rows, scenario, t)[t]
    {
      hide ReadRows, Render, Put, Matches;
      if !wellFormed(scenario) {
        return Err(UnknownScenario);
      }
      var read := ReadAll();
      if read.Err? {
        return Err(read.error);
      }
      var rows := read.value;
      ghost var was := Values(rows);
      var t := FindTarget(rows, scenario, version);
      if t.None? {
        return Err(VersionNotFound);
      }
      SwitchActive(rows, scenario, t.value);
      WriteAll(rows);
      r := Ok(rows[t.value]);
    }
  }

  method FindTarget(rows: seq<RowObject>, scenario: string, version: string) returns (t: Option<nat>)
    ensures t == FindVersion(Values(rows), scenario, version)
  {
    var k := 0;
    while k < |rows| && !Matches(rows[k].d, scenario, version)
      invariant k <= |rows| && forall i | 0 <= i < k :: !Matches(rows[i].d, scenario, version)
    {
      k := k + 1;
    }
    t := if k == |rows| then None else Some(k);
  }

  /** In place: the other active rows of the scenario are archived, then the target is made active. */
  method SwitchActive(rows: seq<RowObject>, scenario: string, t: nat)
    requires t < |rows| && forall i, j | 0 <= i < j < |rows| :: rows[i] != rows[j]
    modifies rows
    ensures Values(rows) == PromoteRows(old(Values(rows)), scenario, t)
  {
    hide Put, Get;
    var target := rows[t];
    for k := 0 to |rows|
      invariant forall i | 0 <= i < |rows| ::
        rows[i].d == if i < k && i != t then PromotedRow(old(rows[i].d), scenario, false) else old(rows[i].d)
    {
      if IsActive(rows[k].d, scenario) && rows[k] != target {
        rows[k].d := Put(rows[k].d, "status", ARCHIVED);
      }
    }
    target.d := Put(target.d, "status", ACTIVE);
  }
}
