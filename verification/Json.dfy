/**
 JSON values as Python's `json` module prints them with `ensure_ascii=False`.

 A dict keeps its insertion order, so an object is a sequence of members with
 distinct keys. `Print` keeps that order (`json.dumps`), `CanonicalJson` sorts it
 at every level (`sort_keys=True`, no white space). `ParseValue` is the reader
 that undoes both, after RFC 8259, sections 3 to 7. Floats are not modelled.
 */
module Json {

  datatype Value =
    | Null
    | Bool(b: bool)
    | Int(n: int)
    | Str(s: string)
    | Arr(items: seq<Value>)
    | Obj(members: seq<Member>)

  datatype Member = Member(key: string, value: Value)

  /** A Python dict with string keys. */
  type Dict = seq<Member>

  /** The white space `json.dumps` puts after `,` and `:`. */
  datatype Style = Compact | Spaced {
    function Gap(): string {
      if Spaced? then " " else ""
    }
  }

  // ---------------------------------------------------------------- dicts

  predicate HasKey(ms: seq<Member>, k: string) {
    exists i | 0 <= i < |ms| :: ms[i].key == k
  }

  ghost predicate DistinctKeys(ms: seq<Member>) {
    forall i, j | 0 <= i < j < |ms| :: ms[i].key != ms[j].key
  }

  /** The value a Python dict can hold: distinct keys at every level. */
  ghost predicate WellFormed(v: Value) {
    match v
    case Arr(items) => forall i | 0 <= i < |items| :: WellFormed(items[i])
    case Obj(ms) => DistinctKeys(ms) && forall i | 0 <= i < |ms| :: WellFormed(ms[i].value)
    case _ => true
  }

  /** `d.get(k)`: a missing key reads as null. */
  function Get(ms: seq<Member>, k: string): Value {
    if ms == [] then Null
    else if ms[0].key == k then ms[0].value
    else Get(ms[1..], k)
  }

  /** `d[k] = v`: an existing key keeps its place, a new one goes last. */
  function Put(ms: seq<Member>, k: string, v: Value): seq<Member> {
    if ms == [] then [Member(k, v)]
    else if ms[0].key == k then [Member(k, v)] + ms[1..]
    else [ms[0]] + Put(ms[1..], k, v)
  }

  lemma GetMember(ms: seq<Member>, i: nat)
    requires DistinctKeys(ms) && i < |ms|
    ensures Get(ms, ms[i].key) == ms[i].value
  {
    if i > 0 {
      assert ms[1..][i - 1] == ms[i];
      GetMember(ms[1..], i - 1);
    }
  }

  lemma GetMissing(ms: seq<Member>, k: string)
    requires !HasKey(ms, k)
    ensures Get(ms, k) == Null
  {
    if ms != [] {
      assert ms[0].key != k;
      GetMissing(ms[1..], k) by {
        forall i | 0 <= i < |ms[1..]| ensures ms[1..][i].key != k { assert ms[1..][i] == ms[i + 1]; }
      }
    }
  }

  lemma PutGet(ms: seq<Member>, k: string, v: Value, q: string)
    ensures Get(Put(ms, k, v), q) == if q == k then v else Get(ms, q)
  {
    if ms != [] && ms[0].key != k {
      PutGet(ms[1..], k, v, q);
      assert Put(ms, k, v)[1..] == Put(ms[1..], k, v);
    }
  }

  lemma PutKeys(ms: seq<Member>, k: string, v: Value, q: string)
    ensures HasKey(Put(ms, k, v), q) <==> q == k || HasKey(ms, q)
  {
    if ms == [] {
      assert Put(ms, k, v)[0].key == k;
    } else if ms[0].key == k {
      var ps := Put(ms, k, v);
      assert ps[0].key == k;
      assert forall i | 0 <= i < |ms| :: ps[i].key == ms[i].key;
    } else {
      PutKeys(ms[1..], k, v, q);
      HasKeyCons(ms[0], ms[1..], q);
      assert ms == [ms[0]] + ms[1..];
      HasKeyCons(ms[0], Put(ms[1..], k, v), q);
    }
  }

  /** Every key keeps its place, and a new one comes after them. */
  lemma {:induction false} PutPlaces(ms: seq<Member>, k: string, v: Value)
    ensures var ps := Put(ms, k, v);
            && |ps| == |ms| + (if HasKey(ms, k) then 0 else 1)
            && (forall i | 0 <= i < |ms| :: ps[i].key == ms[i].key)
            && (!HasKey(ms, k) ==> ps == ms + [Member(k, v)])
  {
    if ms != [] && ms[0].key != k {
      PutPlaces(ms[1..], k, v);
      HasKeyCons(ms[0], ms[1..], k);
      assert ms == [ms[0]] + ms[1..];
      assert forall i | 0 < i < |ms| :: Put(ms, k, v)[i] == Put(ms[1..], k, v)[i - 1] && ms[i] == ms[1..][i - 1];
    } else if ms != [] {
      assert HasKey(ms, k);
    }
  }

  lemma HasKeyCons(m: Member, ms: seq<Member>, q: string)
    ensures HasKey([m] + ms, q) <==> m.key == q || HasKey(ms, q)
  {
    var all := [m] + ms;
    assert all[0] == m;
    forall i | 0 <= i < |ms| ensures all[i + 1] == ms[i] {}
    if HasKey(ms, q) {
      var i :| 0 <= i < |ms| && ms[i].key == q;
      assert all[i + 1].key == q;
    }
    if HasKey(all, q) && m.key != q {
      var i :| 0 <= i < |all| && all[i].key == q;
      assert ms[i - 1].key == q;
    }
  }

  /** Assigning a key of a dict leaves a dict. */
  lemma PutWellFormed(ms: seq<Member>, k: string, v: Value)
    requires WellFormed(Obj(ms)) && WellFormed(v)
    ensures WellFormed(Obj(Put(ms, k, v)))
  {
    if ms != [] && ms[0].key != k {
      var rest := ms[1..];
      forall i | 0 <= i < |rest| ensures WellFormed(rest[i].value) { assert rest[i] == ms[i + 1]; }
      PutWellFormed(rest, k, v);
      var ps := Put(rest, k, v);
      forall i | 0 <= i < |ps| ensures ps[i].key != ms[0].key {
        assert HasKey(ps, ps[i].key);
        PutKeys(rest, k, v, ps[i].key);
      }
    }
  }

  // ---------------------------------------------------------------- printing

  function Digit(d: nat): char
    requires d < 10
  {
    '0' + d as char
  }

  function Digits(n: nat): string {
    if n < 10 then [Digit(n)] else Digits(n / 10) + [Digit(n % 10)]
  }

  function IntText(n: int): string {
    if n < 0 then "-" + Digits(-n) else Digits(n)
  }

  function HexDigit(d: nat): char
    requires d < 16
  {
    if d < 10 then '0' + d as char else 'a' + (d - 10) as char
  }

  /** Only the quotation mark, the reverse solidus and U+0000 to U+001F are escaped. */
  function Escape(c: char): string {
    if c == '\"' then "\\\""
    else if c == '\\' then "\\\\"
    else if c == '\n' then "\\n"
    else if c == '\r' then "\\r"
    else if c == '\t' then "\\t"
    else if c == '\U{8}' then "\\b"
    else if c == '\U{C}' then "\\f"
    else if c < ' ' then "\\u00" + [HexDigit(c as int / 16), HexDigit(c as int % 16)]
    else [c]
  }

  function EscapeAll(s: string): string {
    if s == "" then "" else Escape(s[0]) + EscapeAll(s[1..])
  }

  function Quote(s: string): string {
    "\"" + EscapeAll(s) + "\""
  }

  /** `json.dumps(v, ensure_ascii=False)` with the separators of `st`. */
  function Print(v: Value, st: Style): string
    decreases v, 1
  {
    match v
    case Null => "null"
    case Bool(b) => if b then "true" else "false"
    case Int(n) => IntText(n)
    case Str(s) => Quote(s)
    case Arr(items) =>
      if items == [] then "[]" else "[" + Print(items[0], st) + PrintItems(items[1..], st)
    case Obj(ms) =>
      if ms == [] then "{}" else "{" + PrintMember(ms[0], st) + PrintMembers(ms[1..], st)
  }

  /** Every further element after its comma, and the closing bracket. */
  function PrintItems(items: seq<Value>, st: Style): string
    decreases items, 0
  {
    if items == [] then "]" else "," + st.Gap() + Print(items[0], st) + PrintItems(items[1..], st)
  }

  function PrintMember(m: Member, st: Style): string
    decreases m, 2
  {
    Quote(m.key) + ":" + st.Gap() + Print(m.value, st)
  }

  function PrintMembers(ms: seq<Member>, st: Style): string
    decreases ms, 0
  {
    if ms == [] then "}" else "," + st.Gap() + PrintMember(ms[0], st) + PrintMembers(ms[1..], st)
  }

  // ---------------------------------------------------------------- sorting

  /** Lexicographic order by code point: Python's order on `str`. */
  predicate StrLess(a: string, b: string) {
    b != "" && (a == "" || a[0] < b[0] || (a[0] == b[0] && StrLess(a[1..], b[1..])))
  }

  function InsertMember(m: Member, ms: seq<Member>): seq<Member> {
    if ms == [] || StrLess(m.key, ms[0].key) then [m] + ms
    else [ms[0]] + InsertMember(m, ms[1..])
  }

  function SortMembers(ms: seq<Member>): seq<Member> {
    if ms == [] then [] else InsertMember(ms[0], SortMembers(ms[1..]))
  }

  /** The value with the members of every object put in key order. */
  function Normalize(v: Value): Value
    decreases v, 1
  {
    match v
    case Arr(items) => Arr(NormalizeItems(items))
    case Obj(ms) => Obj(SortMembers(NormalizeMembers(ms)))
    case _ => v
  }

  function NormalizeItems(items: seq<Value>): seq<Value>
    decreases items, 0
  {
    if items == [] then [] else [Normalize(items[0])] + NormalizeItems(items[1..])
  }

  function NormalizeMembers(ms: seq<Member>): seq<Member>
    decreases ms, 0
  {
    if ms == [] then [] else [Member(ms[0].key, Normalize(ms[0].value))] + NormalizeMembers(ms[1..])
  }

  /** `json.dumps(v, sort_keys=True, separators=(",", ":"), ensure_ascii=False)`. */
  function CanonicalJson(v: Value): string {
    Print(Normalize(v), Compact)
  }

  // ---------------------------------------------------------------- parsing

  datatype Parsed<+T> = Fail | Done(value: T, rest: string)

  function Skip(t: string): (r: string)
    ensures |r| <= |t|
  {
    if t != "" && t[0] in " \t\n\r" then Skip(t[1..]) else t
  }

  predicate IsDigit(c: char) {
    '0' <= c <= '9'
  }

  function ParseDigits(t: string, acc: nat): (r: Parsed<nat>)
    ensures r.Done? && |r.rest| <= |t|
  {
    if t != "" && IsDigit(t[0]) then ParseDigits(t[1..], acc * 10 + (t[0] as int - '0' as int))
    else Done(acc, t)
  }

  function HexValue(c: char): int {
    if '0' <= c <= '9' then c as int - '0' as int
    else if 'a' <= c <= 'f' then c as int - 'a' as int + 10
    else if 'A' <= c <= 'F' then c as int - 'A' as int + 10
    else -1
  }

  /** The character named by an escape, after its reverse solidus. */
  function ParseEscape(t: string): (r: Parsed<char>)
    ensures r.Done? ==> |r.rest| < |t|
  {
    if t == "" then Fail
    else if t[0] in "\"\\/" then Done(t[0], t[1..])
    else if t[0] == 'n' then Done('\n', t[1..])
    else if t[0] == 'r' then Done('\r', t[1..])
    else if t[0] == 't' then Done('\t', t[1..])
    else if t[0] == 'b' then Done('\U{8}', t[1..])
    else if t[0] == 'f' then Done('\U{C}', t[1..])
    else if t[0] == 'u' && |t| >= 5 then ParseHex(t[1..])
    else Fail
  }

  /** Four hexadecimal digits naming a scalar value of the basic plane. */
  function ParseHex(t: string): (r: Parsed<char>)
    requires |t| >= 4
    ensures r.Done? ==> |r.rest| < |t|
  {
    var a, b, c, d := HexValue(t[0]), HexValue(t[1]), HexValue(t[2]), HexValue(t[3]);
    var n := 4096 * a + 256 * b + 16 * c + d;
    if a < 0 || b < 0 || c < 0 || d < 0 || 0xD800 <= n < 0xE000 then Fail
    else Done(n as char, t[4..])
  }

  /** The characters up to the closing quotation mark. */
  function ParseChars(t: string): (r: Parsed<string>)
    ensures r.Done? ==> |r.rest| < |t|
    decreases |t|
  {
    if t == "" || t[0] < ' ' then Fail
    else if t[0] == '\"' then Done("", t[1..])
    else
      var first := if t[0] == '\\' then ParseEscape(t[1..]) else Done(t[0], t[1..]);
      if first.Fail? then Fail
      else
        var more := ParseChars(first.rest);
        if more.Fail? then Fail else Done([first.value] + more.value, more.rest)
  }

  function ParseLiteral(t: string): (r: Parsed<Value>)
    ensures r.Done? ==> |r.rest| < |t|
  {
    if "null" <= t then Done(Null, t[4..])
    else if "true" <= t then Done(Bool(true), t[4..])
    else if "false" <= t then Done(Bool(false), t[5..])
    else Fail
  }

  /** A zero stands alone; other numbers do not start with one. */
  function ParseNatural(t: string): (r: Parsed<nat>)
    requires t != "" && IsDigit(t[0])
    ensures r.Done? && |r.rest| < |t|
  {
    if t[0] == '0' then Done(0, t[1..]) else ParseDigits(t[1..], t[0] as int - '0' as int)
  }

  function ParseNumber(t: string): (r: Parsed<Value>)
    ensures r.Done? ==> |r.rest| < |t|
  {
    if t != "" && IsDigit(t[0]) then
      var d := ParseNatural(t);
      Done(Int(d.value), d.rest)
    else if |t| > 1 && IsDigit(t[1]) then
      var d := ParseNatural(t[1..]);
      var n: int := d.value;
      Done(Int(-n), d.rest)
    else Fail
  }

  function ParseString(t: string): (r: Parsed<Value>)
    ensures r.Done? ==> |r.rest| <= |t|
  {
    var s := ParseChars(t);
    if s.Fail? then Fail else Done(Str(s.value), s.rest)
  }

  function ParseValue(text: string): (r: Parsed<Value>)
    ensures r.Done? ==> |r.rest| < |text|
    decreases |text|, 4
  {
    ParseHere(Skip(text))
  }

  /** The value starting at the first character of `t`. */
  function ParseHere(t: string): (r: Parsed<Value>)
    ensures r.Done? ==> |r.rest| < |t|
    decreases |t|, 3
  {
    if t == "" then Fail
    else if t[0] in "ntf" then ParseLiteral(t)
    else if t[0] == '-' || IsDigit(t[0]) then ParseNumber(t)
    else if t[0] == '\"' then ParseString(t[1..])
    else if t[0] == '[' then ParseArray(t[1..])
    else if t[0] == '{' then ParseObject(t[1..])
    else Fail
  }

  function ParseArray(text: string): (r: Parsed<Value>)
    ensures r.Done? ==> |r.rest| < |text|
    decreases |text|, 5
  {
    var t := Skip(text);
    if t != "" && t[0] == ']' then Done(Arr([]), t[1..])
    else
      var first := ParseValue(t);
      if first.Fail? then Fail
      else
        var more := ParseItems(first.rest);
        if more.Fail? then Fail else Done(Arr([first.value] + more.value), more.rest)
  }

  function ParseObject(text: string): (r: Parsed<Value>)
    ensures r.Done? ==> |r.rest| < |text|
    decreases |text|, 5
  {
    var t := Skip(text);
    if t != "" && t[0] == '}' then Done(Obj([]), t[1..])
    else
      var first := ParseMember(t);
      if first.Fail? then Fail
      else
        var more := ParseMembers(first.rest);
        if more.Fail? then Fail else Done(Obj([first.value] + more.value), more.rest)
  }

  function ParseItems(text: string): (r: Parsed<seq<Value>>)
    ensures r.Done? ==> |r.rest| < |text|
    decreases |text|, 0
  {
    var t := Skip(text);
    if t == "" then Fail
    else if t[0] == ']' then Done([], t[1..])
    else if t[0] == ',' then
      var first := ParseValue(t[1..]);
      if first.Fail? then Fail
      else
        var more := ParseItems(first.rest);
        if more.Fail? then Fail else Done([first.value] + more.value, more.rest)
    else Fail
  }

  function ParseMember(text: string): (r: Parsed<Member>)
    ensures r.Done? ==> |r.rest| < |text|
    decreases |text|, 2
  {
    var t := Skip(text);
    if t == "" || t[0] != '\"' then Fail
    else
      var k := ParseChars(t[1..]);
      var colon := if k.Fail? then "" else Skip(k.rest);
      if colon == "" || colon[0] != ':' then Fail
      else
        var v := ParseValue(colon[1..]);
        if v.Fail? then Fail else Done(Member(k.value, v.value), v.rest)
  }

  function ParseMembers(text: string): (r: Parsed<seq<Member>>)
    ensures r.Done? ==> |r.rest| < |text|
    decreases |text|, 0
  {
    var t := Skip(text);
    if t == "" then Fail
    else if t[0] == '}' then Done([], t[1..])
    else if t[0] == ',' then
      var first := ParseMember(t[1..]);
      if first.Fail? then Fail
      else
        var more := ParseMembers(first.rest);
        if more.Fail? then Fail else Done([first.value] + more.value, more.rest)
    else Fail
  }
}
