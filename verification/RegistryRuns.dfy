/** What the registry file keeps: its rows, their order, one active version, crash safety. */
module RegistryRuns {
  import opened Common
  import opened Json
  import opened JsonRoundTrip
  import opened Registry

  // ---------------------------------------------------------------- reading what was written

  ghost predicate OneLine(s: string) {
    forall i | 0 <= i < |s| :: !IsLineBreak(s[i])
  }

  lemma OneLineConcat(a: string, b: string)
    requires OneLine(a) && OneLine(b)
    ensures OneLine(a + b)
  {
  }

  lemma {:induction false} DigitsOneLine(n: nat)
    ensures OneLine(Digits(n))
  {
    if n >= 10 { DigitsOneLine(n / 10); }
  }

  lemma {:induction false} EscapedOneLine(s: string)
    ensures OneLine(EscapeAll(s))
  {
    if s != "" {
      EscapedOneLine(s[1..]);
      assert OneLine(Escape(s[0]));
      OneLineConcat(Escape(s[0]), EscapeAll(s[1..]));
    }
  }

  lemma QuoteOneLine(s: string)
    ensures OneLine(Quote(s))
  {
    EscapedOneLine(s);
  }

  /** Printed JSON never contains a line break. */
  lemma {:induction false} PrintOneLine(v: Value, st: Style)
    ensures OneLine(Print(v, st))
    decreases v, 1
  {
    match v
    case Int(n) => DigitsOneLine(if n < 0 then -n else n);
    case Str(s) => QuoteOneLine(s);
    case Arr(items) =>
      if items != [] {
        PrintOneLine(items[0], st);
        ItemsOneLine(items[1..], st);
        BracketedOneLine("[", Print(items[0], st), PrintItems(items[1..], st));
      }
      hide OneLine, PrintItems;
    case Obj(ms) =>
      if ms != [] {
        MemberOneLine(ms[0], st);
        MembersOneLine(ms[1..], st);
        BracketedOneLine("{", PrintMember(ms[0], st), PrintMembers(ms[1..], st));
      }
      hide OneLine, PrintMember, PrintMembers;
    case _ =>
  }

  lemma BracketedOneLine(open: string, a: string, b: string)
    requires OneLine(open) && OneLine(a) && OneLine(b)
    ensures OneLine(open + a + b)
  {
    OneLineConcat(open, a);
    OneLineConcat(open + a, b);
  }

  lemma {:induction false} ItemsOneLine(items: seq<Value>, st: Style)
    ensures OneLine(PrintItems(items, st))
    decreases items, 0
  {
    if items != [] {
      PrintOneLine(items[0], st);
      ItemsOneLine(items[1..], st);
      hide Print;
      OneLineConcat("," + st.Gap(), Print(items[0], st));
      OneLineConcat("," + st.Gap() + Print(items[0], st), PrintItems(items[1..], st));
    }
  }

  lemma {:induction false} MemberOneLine(m: Member, st: Style)
    ensures OneLine(PrintMember(m, st))
    decreases m, 2
  {
    hide Print, Quote;
    QuoteOneLine(m.key);
    PrintOneLine(m.value, st);
    OneLineConcat(Quote(m.key), ":" + st.Gap());
    OneLineConcat(Quote(m.key) + (":" + st.Gap()), Print(m.value, st));
    Associate(Quote(m.key), ":", st.Gap());
  }

  lemma {:induction false} MembersOneLine(ms: seq<Member>, st: Style)
    ensures OneLine(PrintMembers(ms, st))
    ensures PrintMembers(ms, st)[|PrintMembers(ms, st)| - 1] == '}'
    decreases ms, 0
  {
    if ms != [] {
      MemberOneLine(ms[0], st);
      MembersOneLine(ms[1..], st);
      hide PrintMember;
      OneLineConcat("," + st.Gap(), PrintMember(ms[0], st));
      OneLineConcat("," + st.Gap() + PrintMember(ms[0], st), PrintMembers(ms[1..], st));
    }
  }

  lemma CutPrinted(s: string, rest: string)
    requires OneLine(s)
    ensures CutLine(s + "\n" + rest) == (s, rest)
  {
    CutAt(s, '\n', rest);
  }

  lemma {:induction false} CutAt(s: string, c: char, rest: string)
    requires OneLine(s) && (c == '\n' || c == '\r')
    ensures CutLine(s + [c] + rest) == (s, rest)
  {
    var t := s + [c] + rest;
    if s == "" {
      assert t[1..] == rest;
    } else {
      CutAt(s[1..], c, rest);
      assert t[1..] == s[1..] + [c] + rest;
      assert [s[0]] + s[1..] == s;
    }
  }

  /** A printed object starts and ends with its braces, so stripping leaves it alone. */
  lemma PrintedRowStripped(d: Dict)
    ensures Strip(Print(Obj(d), Spaced)) == Print(Obj(d), Spaced) != ""
  {
    var t := Print(Obj(d), Spaced);
    if d != [] { MembersOneLine(d[1..], Spaced); }
    assert t[0] == '{' && t[|t| - 1] == '}';
  }

  lemma RowRoundTrip(d: Dict)
    ensures LoadRow(Print(Obj(d), Spaced)) == Some(d)
  {
    PrintParse(Obj(d), Spaced, "");
    assert Print(Obj(d), Spaced) + "" == Print(Obj(d), Spaced);
  }

  /** Reading what was written gives the same rows in the same order. */
  lemma {:induction false} RenderRead(rows: seq<Dict>)
    ensures ReadRows(Render(rows)) == Some(rows)
  {
    if rows != [] {
      var text := Print(Obj(rows[0]), Spaced);
      PrintOneLine(Obj(rows[0]), Spaced);
      PrintedRowStripped(rows[0]);
      RowRoundTrip(rows[0]);
      CutPrinted(text, Render(rows[1..]));
      RenderRead(rows[1..]);
      hide Print, LoadRow, Strip, CutLine;
      assert Render(rows) == text + "\n" + Render(rows[1..]);
      assert [rows[0]] + rows[1..] == rows;
    }
  }

  /** Only white space, on one line. */
  predicate IsBlank(s: string) {
    forall c <- s :: IsSpace(c) && !IsLineBreak(c)
  }

  lemma {:induction false} StripLeftBlank(a: string, s: string)
    requires IsBlank(a) && (s != "" ==> !IsSpace(s[0]))
    ensures StripLeft(a + s) == s
  {
    if a == "" {
      assert a + s == s;
    } else {
      assert a[0] in a && forall c <- a[1..] :: c in a;
      StripLeftBlank(a[1..], s);
      assert (a + s)[1..] == a[1..] + s;
    }
  }

  lemma {:induction false} StripRightBlank(s: string, b: string)
    requires IsBlank(b) && (s != "" ==> !IsSpace(s[|s| - 1]))
    ensures StripRight(s + b) == s
  {
    if b == "" {
      assert s + b == s;
    } else {
      var n := |b| - 1;
      assert b[n] in b && forall c <- b[..n] :: c in b;
      StripRightBlank(s, b[..n]);
      assert (s + b)[..|s + b| - 1] == s + b[..n];
    }
  }

  lemma BlankOneLine(b: string)
    requires IsBlank(b)
    ensures OneLine(b) && Strip(b) == ""
  {
    StripLeftBlank(b, "");
    assert b + "" == b;
    forall i | 0 <= i < |b| ensures !IsLineBreak(b[i]) { assert b[i] in b; }
  }

  /** The white space `str.strip` removes, line breaks apart. */
  const BLANKS: string :=
    "\t\U{0B}\U{0C}\U{1C}\U{1D}\U{1E}\U{1F} \U{85}\U{A0}\U{1680}\U{2000}\U{2001}\U{2002}\U{2003}\U{2004}" +
    "\U{2005}\U{2006}\U{2007}\U{2008}\U{2009}\U{200A}\U{2028}\U{2029}\U{202F}\U{205F}\U{3000}"

  lemma BlanksExactly(c: char)
    ensures IsSpace(c) && !IsLineBreak(c) <==> c in BLANKS
  {
    var b := BLANKS;
    assert b[0] == '\t' && b[1] == '\U{0B}' && b[2] == '\U{0C}' && b[3] == '\U{1C}' && b[4] == '\U{1D}';
    assert b[5] == '\U{1E}' && b[6] == '\U{1F}' && b[7] == ' ' && b[8] == '\U{85}' && b[9] == '\U{A0}';
    assert b[10] == '\U{1680}' && b[11] == '\U{2000}' && b[12] == '\U{2001}' && b[13] == '\U{2002}';
  }

  /** A blank line is passed over. */
  lemma BlankLinesIgnored(b: string, rest: string)
    requires IsBlank(b)
    ensures ReadRows(b + "\n" + rest) == ReadRows(rest)
  {
    BlankOneLine(b);
    CutPrinted(b, rest);
    hide CutLine, Strip, LoadRow;
  }

  /** A line may end in a line feed, a carriage return, or both. */
  lemma LineEndsAlike(line: string, rest: string)
    requires '\n' !in line && '\r' !in line
    ensures ReadRows(line + "\r" + rest) == ReadRows(line + "\n" + rest)
    ensures ReadRows(line + "\r\n" + rest) == ReadRows(line + "\n" + rest)
  {
    assert OneLine(line);
    CutAt(line, '\r', rest);
    CutAt(line, '\n', rest);
    CutAt(line, '\r', "\n" + rest);
    assert line + "\r\n" + rest == line + "\r" + ("\n" + rest);
    assert "" + "\n" + rest == "\n" + rest;
    BlankLinesIgnored("", rest);
    hide CutLine, Strip, LoadRow;
  }

  /** White space around a row does not matter. */
  lemma PaddedRowRead(a: string, d: Dict, b: string, rest: string)
    requires IsBlank(a) && IsBlank(b)
    ensures ReadRows(a + Print(Obj(d), Spaced) + b + "\n" + rest)
         == if ReadRows(rest).None? then None else Some([d] + ReadRows(rest).value)
  {
    var t := Print(Obj(d), Spaced);
    if d != [] { MembersOneLine(d[1..], Spaced); }
    assert t[0] == '{' && t[|t| - 1] == '}';
    PrintOneLine(Obj(d), Spaced);
    BlankOneLine(a);
    BlankOneLine(b);
    RowRoundTrip(d);
    hide Print, LoadRow;
    Associate(a, t, b);
    StripLeftBlank(a, t + b);
    StripRightBlank(t, b);
    OneLineConcat(a, t);
    OneLineConcat(a + t, b);
    CutPrinted(a + t + b, rest);
    hide CutLine, StripLeft, StripRight;
  }

  /** A line that is neither blank nor an object makes the whole file unreadable. */
  lemma BadLineFails(line: string, rest: string)
    requires OneLine(line) && Strip(line) != "" && LoadRow(Strip(line)).None?
    ensures ReadRows(line + "\n" + rest).None?
  {
    CutPrinted(line, rest);
    hide CutLine, Strip, LoadRow;
  }

  /** A row with more text behind it makes the file unreadable. */
  lemma TrailingTextFails(d: Dict, more: string, rest: string)
    requires OneLine(more) && more != "" && Stops(more) && !IsSpace(more[|more| - 1])
    ensures ReadRows(Print(Obj(d), Spaced) + more + "\n" + rest).None?
  {
    var t := Print(Obj(d), Spaced);
    PrintOneLine(Obj(d), Spaced);
    PrintParse(Obj(d), Spaced, more);
    OneLineConcat(t, more);
    assert t[0] == '{';
    hide Print, ParseValue, OneLine;
    assert Strip(t + more) == t + more;
    BadLineFails(t + more, rest);
  }

  /** The candidate a row was registered for, read back from its fields. */
  function CandidateOf(d: Dict): Option<Candidate> {
    var scenario, version, pool := Get(d, "scenario_id"), Get(d, "version"), Get(d, "pool");
    var hash := Get(d, "file_hash_sha256");
    if scenario.Str? && version.Str? && pool.Str? && hash.Str? then
      Some(Candidate(scenario.s, version.s, pool.s, hash.s, Get(d, "metrics"), Get(d, "trained_at")))
    else None
  }

  /** The row added for a candidate holds all of it, as a shadow, in the documented field order. */
  lemma ShadowRowTells(c: Candidate)
    ensures CandidateOf(ShadowRow(c)) == Some(c) && Get(ShadowRow(c), "status") == Str("shadow")
    ensures var d := ShadowRow(c);
            && |d| == 7 && d[0].key == "scenario_id" && d[1].key == "version" && d[2].key == "pool"
            && d[3].key == "status" && d[4].key == "file_hash_sha256" && d[5].key == "metrics"
            && d[6].key == "trained_at"
  {
    var d := ShadowRow(c);
    GetMember(d, 0);
    GetMember(d, 1);
    GetMember(d, 2);
    GetMember(d, 3);
    GetMember(d, 4);
    GetMember(d, 5);
    GetMember(d, 6);
    hide Get;
  }

  // ---------------------------------------------------------------- runs of calls

  datatype Call = Add(c: Candidate) | Promote(scenario: string, version: string)

  /** The rows after a call; a call that raises leaves them. */
  function Apply(wellFormed: string -> bool, rows: seq<Dict>, call: Call): seq<Dict> {
    match call
    case Add(c) => if wellFormed(c.scenario) then rows + [ShadowRow(c)] else rows
    case Promote(scenario, version) =>
      if Succeeds(wellFormed, rows, call) then PromoteRows(rows, scenario, FindVersion(rows, scenario, version).value)
      else rows
  }

  predicate Succeeds(wellFormed: string -> bool, rows: seq<Dict>, call: Call) {
    match call
    case Add(c) => wellFormed(c.scenario)
    case Promote(scenario, version) => wellFormed(scenario) && FindVersion(rows, scenario, version).Some?
  }

  function Run(wellFormed: string -> bool, rows: seq<Dict>, calls: seq<Call>): seq<Dict>
    decreases |calls|
  {
    if calls == [] then rows
    else Apply(wellFormed, Run(wellFormed, rows, calls[..|calls| - 1]), calls[|calls| - 1])
  }

  /** The file after any run of calls is the rendering of the rows after that run. */
  method RunOnFile(wellFormed: string -> bool, rows: seq<Dict>, calls: seq<Call>) returns (text: string)
    ensures text == Render(Run(wellFormed, rows, calls))
    ensures ReadRows(text) == Some(Run(wellFormed, rows, calls))
  {
    var file := new ModelRegistryFile(wellFormed, Some(Render(rows)));
    assert calls[..0] == [];
    for k := 0 to |calls|
      invariant file.wellFormed == wellFormed
      invariant file.models == Some(Render(Run(wellFormed, rows, calls[..k])))
    {
      ghost var was := Run(wellFormed, rows, calls[..k]);
      RenderRead(was);
      assert calls[..k + 1][..k] == calls[..k];
      match calls[k] {
        case Add(c) => var _ := file.AddShadow(c);
        case Promote(scenario, version) => var _ := file.Promote(scenario, version);
      }
    }
    assert calls[..|calls|] == calls;
    RenderRead(Run(wellFormed, rows, calls));
    text := file.models.value;
  }

  // ---------------------------------------------------------------- what a promotion changes

  /**
   A promotion keeps the rows in place and every field but `status`; rows of other
   scenarios do not change at all.
   */
  lemma PromoteConserves(rows: seq<Dict>, scenario: string, version: string)
    requires FindVersion(rows, scenario, version).Some?
    ensures var t := FindVersion(rows, scenario, version).value;
            var out := PromoteRows(rows, scenario, t);
            && |out| == |rows|
            && (forall i, k | 0 <= i < |rows| && k != "status" :: Get(out[i], k) == Get(rows[i], k))
            && (forall i | 0 <= i < |rows| && !InScenario(rows[i], scenario) :: out[i] == rows[i])
            && (forall i | 0 <= i < |rows| && !IsActive(rows[i], scenario) && i != t :: out[i] == rows[i])
            && Get(out[t], "status") == Str("active")
            && (forall i | 0 <= i < |rows| && i != t && InScenario(rows[i], scenario)
                           && Get(rows[i], "status") == Str("active") :: Get(out[i], "status") == Str("archived"))
  {
    var t := FindVersion(rows, scenario, version).value;
    var out := PromoteRows(rows, scenario, t);
    forall i | 0 <= i < |rows| && i != t && IsActive(rows[i], scenario) ensures Get(out[i], "status") == ARCHIVED {
      PromotedField(rows[i], scenario, false, "status");
    }
    forall i, k | 0 <= i < |rows| && k != "status" ensures Get(out[i], k) == Get(rows[i], k) {
      PromotedField(rows[i], scenario, i == t, k);
    }
    PromotedField(rows[t], scenario, true, "status");
  }

  /** Exactly one row of the scenario is active. */
  ghost predicate OneActive(rows: seq<Dict>, scenario: string) {
    exists t | 0 <= t < |rows| :: OnlyActive(rows, scenario, t)
  }

  ghost predicate OnlyActive(rows: seq<Dict>, scenario: string, t: nat) {
    t < |rows| && forall i | 0 <= i < |rows| :: IsActive(rows[i], scenario) <==> i == t
  }

  /** A successful promotion leaves exactly its target active. */
  lemma PromoteActivates(rows: seq<Dict>, scenario: string, version: string)
    requires FindVersion(rows, scenario, version).Some?
    ensures var t := FindVersion(rows, scenario, version).value;
            && OnlyActive(PromoteRows(rows, scenario, t), scenario, t)
            && Matches(PromoteRows(rows, scenario, t)[t], scenario, version)
  {
    hide Get, Put;
    var t := FindVersion(rows, scenario, version).value;
    var out := PromoteRows(rows, scenario, t);
    forall i | 0 <= i < |rows| ensures IsActive(out[i], scenario) <==> i == t {
      PromotedGet(rows[i], scenario, i == t);
    }
    PromotedGet(rows[t], scenario, true);
  }

  lemma PromotedGet(d: Dict, scenario: string, isTarget: bool)
    ensures var r := PromotedRow(d, scenario, isTarget);
            && Get(r, "scenario_id") == Get(d, "scenario_id") && Get(r, "version") == Get(d, "version")
            && Get(r, "status") == NewStatus(d, scenario, isTarget)
  {
    PromotedField(d, scenario, isTarget, "scenario_id");
    PromotedField(d, scenario, isTarget, "version");
    PromotedField(d, scenario, isTarget, "status");
  }

  function NewStatus(d: Dict, scenario: string, isTarget: bool): Value {
    if isTarget then ACTIVE else if IsActive(d, scenario) then ARCHIVED else Get(d, "status")
  }

  lemma PromotedField(d: Dict, scenario: string, isTarget: bool, k: string)
    ensures Get(PromotedRow(d, scenario, isTarget), k)
         == if k == "status" then NewStatus(d, scenario, isTarget) else Get(d, k)
  {
    PutGet(d, "status", ACTIVE, k);
    PutGet(d, "status", ARCHIVED, k);
  }

  lemma AddKeepsActive(rows: seq<Dict>, c: Candidate, scenario: string)
    requires OneActive(rows, scenario)
    ensures OneActive(rows + [ShadowRow(c)], scenario)
  {
    var t :| 0 <= t < |rows| && OnlyActive(rows, scenario, t);
    var out := rows + [ShadowRow(c)];
    assert Get(ShadowRow(c), "status") == SHADOW by { GetMember(ShadowRow(c), 3); }
    hide Get, ShadowRow;
    forall i | 0 <= i < |out| ensures IsActive(out[i], scenario) <==> i == t {
      if i < |rows| { assert out[i] == rows[i]; }
    }
    assert OnlyActive(out, scenario, t);
  }

  lemma PromoteKeepsOther(rows: seq<Dict>, scenario: string, t: nat, other: string)
    requires t < |rows| && InScenario(rows[t], scenario) && scenario != other && OneActive(rows, other)
    ensures OneActive(PromoteRows(rows, scenario, t), other)
  {
    hide Get, Put;
    var k :| 0 <= k < |rows| && OnlyActive(rows, other, k);
    var out := PromoteRows(rows, scenario, t);
    forall i | 0 <= i < |out| ensures IsActive(out[i], other) <==> i == k {
      PromotedGet(rows[i], scenario, i == t);
      assert IsActive(rows[i], other) <==> i == k;
    }
    assert OnlyActive(out, other, k);
  }

  lemma ApplyKeepsActive(wellFormed: string -> bool, rows: seq<Dict>, call: Call, scenario: string)
    requires OneActive(rows, scenario)
    ensures OneActive(Apply(wellFormed, rows, call), scenario)
  {
    hide OneActive, Matches;
    match call
    case Add(c) => AddKeepsActive(rows, c, scenario);
    case Promote(s, v) =>
      if Succeeds(wellFormed, rows, call) {
        var t := FindVersion(rows, s, v).value;
        PromoteActivates(rows, s, v);
        if s == scenario { OnlyIsOne(PromoteRows(rows, s, t), s, t); }
        else { MatchesScenario(rows[t], s, v); PromoteKeepsOther(rows, s, t, scenario); }
      }
  }

  lemma OnlyIsOne(rows: seq<Dict>, scenario: string, t: nat)
    requires OnlyActive(rows, scenario, t)
    ensures OneActive(rows, scenario)
  {
  }

  lemma MatchesScenario(d: Dict, scenario: string, version: string)
    requires Matches(d, scenario, version)
    ensures InScenario(d, scenario)
  {
  }

  /** Once a scenario has been promoted, it has exactly one active row ever after. */
  lemma {:induction false} ActiveForever(
    wellFormed: string -> bool, rows: seq<Dict>, scenario: string, version: string, calls: seq<Call>)
    requires Succeeds(wellFormed, rows, Promote(scenario, version))
    ensures OneActive(Run(wellFormed, Apply(wellFormed, rows, Promote(scenario, version)), calls), scenario)
    decreases |calls|
  {
    var start := Apply(wellFormed, rows, Promote(scenario, version));
    if calls == [] {
      PromoteActivates(rows, scenario, version);
      OnlyIsOne(start, scenario, FindVersion(rows, scenario, version).value);
    } else {
      hide OneActive, Apply;
      ActiveForever(wellFormed, rows, scenario, version, calls[..|calls| - 1]);
      ApplyKeepsActive(wellFormed, Run(wellFormed, start, calls[..|calls| - 1]), calls[|calls| - 1], scenario);
    }
  }

  // ---------------------------------------------------------------- the status of the target

  /** Which row a promotion finds, and so whether it succeeds, never depends on any status. */
  lemma {:induction false} StatusIgnored(rows: seq<Dict>, scenario: string, version: string, i: nat, status: Value)
    requires i < |rows|
    ensures FindVersion(rows[i := Put(rows[i], "status", status)], scenario, version)
         == FindVersion(rows, scenario, version)
  {
    PutGet(rows[i], "status", status, "scenario_id");
    PutGet(rows[i], "status", status, "version");
    hide Put, Get;
    var changed := rows[i := Put(rows[i], "status", status)];
    if i > 0 {
      assert changed[1..] == rows[1..][i - 1 := Put(rows[i], "status", status)];
      StatusIgnored(rows[1..], scenario, version, i - 1, status);
    } else {
      assert changed[1..] == rows[1..];
    }
  }

  /**
   Whatever status the first row of that version is given, a promotion still finds it and
   makes it active: it goes from shadow to active only when that row happens to be a shadow.
   */
  lemma PromotesAnyStatus(rows: seq<Dict>, scenario: string, version: string, status: Value)
    requires FindVersion(rows, scenario, version).Some?
    ensures var t := FindVersion(rows, scenario, version).value;
            var other := rows[t := Put(rows[t], "status", status)];
            && Get(other[t], "status") == status
            && FindVersion(other, scenario, version) == Some(t)
            && Get(PromoteRows(other, scenario, t)[t], "status") == ACTIVE
  {
    var t := FindVersion(rows, scenario, version).value;
    var other := rows[t := Put(rows[t], "status", status)];
    StatusIgnored(rows, scenario, version, t, status);
    PutGet(rows[t], "status", status, "status");
    PutGet(other[t], "status", ACTIVE, "status");
  }

  /** The status of the row a promotion would find. */
  function FoundStatus(rows: seq<Dict>, scenario: string, version: string): Option<Value> {
    var t := FindVersion(rows, scenario, version);
    if t.None? then None else Some(Get(rows[t.value], "status"))
  }

  /** The first match is at `t`. */
  lemma FoundAt(rows: seq<Dict>, scenario: string, version: string, t: nat)
    requires t < |rows| && Matches(rows[t], scenario, version)
    requires forall i | 0 <= i < t :: !Matches(rows[i], scenario, version)
    ensures FindVersion(rows, scenario, version) == Some(t)
  {
    hide Matches;
  }

  lemma AddedStatus(rows: seq<Dict>, c: Candidate, scenario: string, version: string)
    ensures FoundStatus(rows + [ShadowRow(c)], scenario, version)
         == if FoundStatus(rows, scenario, version).Some? then FoundStatus(rows, scenario, version)
            else if c.scenario == scenario && c.version == version then Some(SHADOW)
            else None
  {
    var r := ShadowRow(c);
    GetMember(r, 0);
    GetMember(r, 1);
    GetMember(r, 3);
    assert Matches(r, scenario, version) <==> c.scenario == scenario && c.version == version;
    hide Get, ShadowRow, Matches;
    var out := rows + [r];
    var t := FindVersion(rows, scenario, version);
    assert forall i | 0 <= i < |rows| :: out[i] == rows[i];
    if t.Some? {
      FoundAt(out, scenario, version, t.value);
    } else if Matches(r, scenario, version) {
      FoundAt(out, scenario, version, |rows|);
    }
  }

  /** A promotion finds what it found before, at the same place. */
  lemma PromotedFound(rows: seq<Dict>, s: string, t: nat, scenario: string, version: string)
    ensures FindVersion(PromoteRows(rows, s, t), scenario, version) == FindVersion(rows, scenario, version)
  {
    hide Get, PromotedRow;
    var out := PromoteRows(rows, s, t);
    forall i | 0 <= i < |rows| ensures Matches(out[i], scenario, version) <==> Matches(rows[i], scenario, version) {
      PromotedGet(rows[i], s, i == t);
    }
    hide Matches;
    var r := FindVersion(rows, scenario, version);
    if r.Some? { FoundAt(out, scenario, version, r.value); }
  }

  lemma PromotedStatus(rows: seq<Dict>, s: string, v: string, scenario: string, version: string)
    requires FindVersion(rows, s, v).Some?
    ensures FoundStatus(PromoteRows(rows, s, FindVersion(rows, s, v).value), scenario, version)
         == if s == scenario && v == version then Some(ACTIVE)
            else if s == scenario && FoundStatus(rows, scenario, version) == Some(ACTIVE) then Some(ARCHIVED)
            else FoundStatus(rows, scenario, version)
  {
    var t := FindVersion(rows, s, v).value;
    PromotedFound(rows, s, t, scenario, version);
    var r := FindVersion(rows, scenario, version);
    if r.Some? {
      hide PromotedRow, Get, PromoteRows;
      PromotedGet(rows[r.value], s, r.value == t);
      assert PromoteRows(rows, s, t)[r.value] == PromotedRow(rows[r.value], s, r.value == t);
    }
  }

  /** Whether call `k` of a run is a promotion of this version that succeeds. */
  predicate PromotedAt(
    wellFormed: string -> bool, was: seq<Dict>, calls: seq<Call>, k: nat, scenario: string, version: string)
  {
    && k < |calls| && calls[k] == Promote(scenario, version)
    && Succeeds(wellFormed, Run(wellFormed, was, calls[..k]), calls[k])
  }

  ghost predicate EverPromoted(
    wellFormed: string -> bool, was: seq<Dict>, calls: seq<Call>, scenario: string, version: string)
  {
    exists k: nat :: PromotedAt(wellFormed, was, calls, k, scenario, version)
  }

  lemma PromotedNext(
    wellFormed: string -> bool, was: seq<Dict>, calls: seq<Call>, scenario: string, version: string)
    requires calls != []
    ensures var n := |calls| - 1;
            EverPromoted(wellFormed, was, calls, scenario, version)
            <==> EverPromoted(wellFormed, was, calls[..n], scenario, version)
                 || PromotedAt(wellFormed, was, calls, n, scenario, version)
  {
    hide Run, Succeeds;
    var n := |calls| - 1;
    forall k: nat | k < n
      ensures PromotedAt(wellFormed, was, calls, k, scenario, version)
           == PromotedAt(wellFormed, was, calls[..n], k, scenario, version)
    {
      assert calls[..n][..k] == calls[..k];
    }
  }

  /**
   Over any run on a file that did not hold the version at first: it holds it as a shadow
   exactly until the version is promoted, so a promotion finds a shadow exactly when no
   earlier promotion of that scenario and version succeeded.
   */
  lemma {:induction false} ShadowUntilPromoted(
    wellFormed: string -> bool, was: seq<Dict>, calls: seq<Call>, scenario: string, version: string)
    requires FindVersion(was, scenario, version).None?
    ensures var found := FoundStatus(Run(wellFormed, was, calls), scenario, version);
            && (found.None? ==> !EverPromoted(wellFormed, was, calls, scenario, version))
            && (found.Some? ==> (found.value == SHADOW
                                 <==> !EverPromoted(wellFormed, was, calls, scenario, version)))
    decreases |calls|
  {
    hide FindVersion, Matches, EverPromoted;
    if calls == [] {
      NeverPromoted(wellFormed, was, scenario, version);
    } else {
      var n := |calls| - 1;
      var rows := Run(wellFormed, was, calls[..n]);
      ShadowUntilPromoted(wellFormed, was, calls[..n], scenario, version);
      PromotedNext(wellFormed, was, calls, scenario, version);
      hide ShadowRow, FoundStatus, PromoteRows;
      match calls[n]
      case Add(c) => AddedStatus(rows, c, scenario, version);
      case Promote(s, v) =>
        if Succeeds(wellFormed, rows, calls[n]) { PromotedStatus(rows, s, v, scenario, version); }
    }
  }

  lemma NeverPromoted(wellFormed: string -> bool, was: seq<Dict>, scenario: string, version: string)
    ensures !EverPromoted(wellFormed, was, [], scenario, version)
  {
  }

  // ---------------------------------------------------------------- crashes

  /** The two files on disk while `_write_all` is at work. */
  datatype Disk = Disk(models: string, tmp: Option<string>)

  datatype DiskStep = Truncate | AppendText(text: string) | Replace

  function DiskAfter(d: Disk, step: DiskStep): Disk {
    match step
    case Truncate => d.(tmp := Some(""))
    case AppendText(text) => if d.tmp.Some? then d.(tmp := Some(d.tmp.value + text)) else d
    case Replace => if d.tmp.Some? then Disk(d.tmp.value, None) else d
  }

  function DiskRun(d: Disk, steps: seq<DiskStep>): Disk
    decreases |steps|
  {
    if steps == [] then d else DiskAfter(DiskRun(d, steps[..|steps| - 1]), steps[|steps| - 1])
  }

  /** The text appended in pieces, however the operating system is handed them. */
  function Pieces(steps: seq<DiskStep>): string
    decreases |steps|
  {
    if steps == [] then ""
    else
      var n := |steps| - 1;
      Pieces(steps[..n]) + if steps[n].AppendText? then steps[n].text else ""
  }

  ghost predicate IsWrite(steps: seq<DiskStep>, text: string) {
    && |steps| >= 2 && steps[0] == Truncate && steps[|steps| - 1] == Replace
    && (forall i | 0 < i < |steps| - 1 :: steps[i].AppendText?)
    && Pieces(steps) == text
  }

  lemma {:induction false} DuringWrite(d: Disk, steps: seq<DiskStep>, k: nat)
    requires 0 < k < |steps| && steps[0] == Truncate && forall i | 0 < i < |steps| - 1 :: steps[i].AppendText?
    ensures DiskRun(d, steps[..k]) == Disk(d.models, Some(Pieces(steps[..k])))
  {
    assert steps[..k][..k - 1] == steps[..k - 1];
    if k == 1 {
      assert steps[..0] == [] && DiskRun(d, steps[..0]) == d && Pieces(steps[..0]) == "";
      assert Pieces(steps[..1]) == Pieces(steps[..0]) + "" == "";
    } else {
      DuringWrite(d, steps, k - 1);
    }
  }

  /** A crash after any number of steps of a write leaves the old rows or the new ones. */
  lemma CrashAtomic(d: Disk, was: seq<Dict>, rows: seq<Dict>, steps: seq<DiskStep>, k: nat)
    requires d.models == Render(was) && IsWrite(steps, Render(rows)) && k <= |steps|
    ensures ReadRows(DiskRun(d, steps[..k]).models) == Some(if k < |steps| then was else rows)
  {
    RenderRead(was);
    RenderRead(rows);
    if k == 0 {
      assert steps[..0] == [];
    } else if k < |steps| {
      DuringWrite(d, steps, k);
    } else {
      var n := |steps| - 1;
      DuringWrite(d, steps, n);
      assert steps[..k] == steps;
      assert Pieces(steps) == Pieces(steps[..n]) + "" == Pieces(steps[..n]);
    }
  }
}
