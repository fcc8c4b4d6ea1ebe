/**
 What the printed text looks like: joined parts between brackets, keys in ascending order
 and no white space in the canonical form.
 */
module JsonShape {
  import opened Common
  import opened Json
  import opened JsonRoundTrip

  // ---------------------------------------------------------------- joined parts

  /** `sep.join(parts)`. */
  function Join(parts: seq<string>, sep: string): string {
    if parts == [] then "" else if |parts| == 1 then parts[0] else parts[0] + sep + Join(parts[1..], sep)
  }

  function ItemTexts(items: seq<Value>, st: Style): (r: seq<string>)
    ensures |r| == |items| && forall i | 0 <= i < |items| :: r[i] == Print(items[i], st)
  {
    seq(|items|, i requires 0 <= i < |items| => Print(items[i], st))
  }

  function MemberTexts(ms: seq<Member>, st: Style): (r: seq<string>)
    ensures |r| == |ms|
    ensures forall i | 0 <= i < |ms| :: r[i] == Quote(ms[i].key) + ":" + st.Gap() + Print(ms[i].value, st)
  {
    seq(|ms|, i requires 0 <= i < |ms| => Quote(ms[i].key) + ":" + st.Gap() + Print(ms[i].value, st))
  }

  lemma {:induction false} ItemsJoin(items: seq<Value>, st: Style)
    requires items != []
    ensures Print(items[0], st) + PrintItems(items[1..], st) == Join(ItemTexts(items, st), "," + st.Gap()) + "]"
  {
    hide Print;
    var texts, sep, rest := ItemTexts(items, st), "," + st.Gap(), items[1..];
    if rest != [] {
      ItemsJoin(rest, st);
      assert texts[1..] == ItemTexts(rest, st);
      var more := Join(texts[1..], sep);
      Associate(sep, Print(rest[0], st), PrintItems(rest[1..], st));
      Associate(texts[0], sep, more + "]");
      Associate(sep, more, "]");
      Associate(texts[0] + sep, more, "]");
    }
  }

  lemma {:induction false} MembersJoin(ms: seq<Member>, st: Style)
    requires ms != []
    ensures PrintMember(ms[0], st) + PrintMembers(ms[1..], st) == Join(MemberTexts(ms, st), "," + st.Gap()) + "}"
  {
    hide Print, Quote;
    var texts, sep, rest := MemberTexts(ms, st), "," + st.Gap(), ms[1..];
    if rest != [] {
      MembersJoin(rest, st);
      assert texts[1..] == MemberTexts(rest, st);
      assert texts[0] == PrintMember(ms[0], st);
      hide PrintMember;
      var more := Join(texts[1..], sep);
      Associate(sep, PrintMember(rest[0], st), PrintMembers(rest[1..], st));
      Associate(texts[0], sep, more + "]");
      Associate(sep, more, "}");
      Associate(texts[0] + sep, more, "}");
      Associate(texts[0], sep, more + "}");
    }
  }

  /** The text of an array or object: its parts in order, joined by commas, between its brackets. */
  lemma PrintedJoined(items: seq<Value>, ms: seq<Member>, st: Style)
    ensures Print(Arr(items), st) == "[" + Join(ItemTexts(items, st), "," + st.Gap()) + "]"
    ensures Print(Obj(ms), st) == "{" + Join(MemberTexts(ms, st), "," + st.Gap()) + "}"
  {
    if items != [] {
      ItemsJoin(items, st);
      Associate("[", Print(items[0], st), PrintItems(items[1..], st));
      Associate("[", Join(ItemTexts(items, st), "," + st.Gap()), "]");
    }
    if ms != [] {
      MembersJoin(ms, st);
      Associate("{", PrintMember(ms[0], st), PrintMembers(ms[1..], st));
      Associate("{", Join(MemberTexts(ms, st), "," + st.Gap()), "}");
    }
    hide Print, PrintItems, PrintMember, PrintMembers, Join;
  }

  // ---------------------------------------------------------------- key order

  /** The keys of every dict in the value ascend. */
  ghost predicate KeysAscend(v: Value) {
    match v
    case Arr(items) => forall i | 0 <= i < |items| :: KeysAscend(items[i])
    case Obj(ms) => Ascending(ms) && forall i | 0 <= i < |ms| :: KeysAscend(ms[i].value)
    case _ => true
  }

  /** Up to `i` the two agree, and there the first ends or holds the smaller code point. */
  predicate LessFrom(a: string, b: string, i: nat) {
    && i <= |a| && i < |b| && a[..i] == b[..i]
    && (i == |a| || a[i] < b[i])
  }

  lemma FirstSame(a: string, b: string, i: nat)
    requires LessFrom(a, b, i)
    ensures i == 0 || (a != "" && b != "" && a[0] == b[0])
  {
    if i > 0 { assert a[0] == a[..i][0] && b[0] == b[..i][0]; }
  }

  /** The order of the keys: by code point at the first difference, a prefix before what it begins. */
  lemma {:induction false} LessExactly(a: string, b: string)
    ensures StrLess(a, b) <==> exists i: nat :: LessFrom(a, b, i)
  {
    if a == "" || b == "" || a[0] != b[0] {
      if StrLess(a, b) { assert LessFrom(a, b, 0); }
      forall i: nat | LessFrom(a, b, i) ensures StrLess(a, b) {
        FirstSame(a, b, i);
      }
    } else {
      LessExactly(a[1..], b[1..]);
      if StrLess(a, b) {
        var i: nat :| LessFrom(a[1..], b[1..], i);
        assert a[..i + 1] == [a[0]] + a[1..][..i] && b[..i + 1] == [b[0]] + b[1..][..i];
        assert LessFrom(a, b, i + 1);
      }
      forall i: nat | LessFrom(a, b, i) ensures StrLess(a, b) {
        assert i > 0;
        assert a[1..][..i - 1] == a[..i][1..] && b[1..][..i - 1] == b[..i][1..];
        assert LessFrom(a[1..], b[1..], i - 1);
      }
    }
  }

  /** The canonical text is the compact text of a value equal to the given one, with all keys in ascending order. */
  lemma CanonicalAscends(v: Value)
    requires WellFormed(v)
    ensures KeysAscend(Normalize(v)) && CanonicalJson(v) == Print(Normalize(v), Compact)
  {
    NormalAscends(v);
  }

  lemma {:induction false} NormalAscends(v: Value)
    requires WellFormed(v)
    ensures KeysAscend(Normalize(v))
  {
    match v
    case Arr(items) =>
      NormalizeItemsAt(items);
      forall i | 0 <= i < |items| ensures KeysAscend(NormalizeItems(items)[i]) { NormalAscends(items[i]); }
    case Obj(ms) =>
      var ns := NormalizeMembers(ms);
      NormalizeMembersAt(ms);
      SortSorts(ns);
      var out := SortMembers(ns);
      forall k | 0 <= k < |out| ensures KeysAscend(out[k].value) {
        assert out[k] in out && out[k] in ns;
        var i :| 0 <= i < |ns| && ns[i] == out[k];
        NormalAscends(ms[i].value);
      }
    case _ =>
  }

  // ---------------------------------------------------------------- white space

  /** Where a reader of the text is: outside any string, inside one, or after a reverse solidus in one. */
  datatype Lex = Outside | Inside | Escaped

  function Next(s: Lex, c: char): Lex {
    match s
    case Outside => if c == '\"' then Inside else Outside
    case Inside => if c == '\\' then Escaped else if c == '\"' then Outside else Inside
    case Escaped => Inside
  }

  function Lexed(s: Lex, t: string): Lex
    decreases t
  {
    if t == "" then s else Lexed(Next(s, t[0]), t[1..])
  }

  /** No white space is met outside a string. */
  predicate Tight(s: Lex, t: string)
    decreases t
  {
    t != "" ==> (s.Outside? ==> t[0] !in " \t\n\r") && Tight(Next(s, t[0]), t[1..])
  }

  /** Read from outside, the text ends outside and holds no white space but in its strings. */
  predicate TightText(t: string) {
    Lexed(Outside, t) == Outside && Tight(Outside, t)
  }

  lemma {:induction false} LexConcat(s: Lex, a: string, b: string)
    ensures Lexed(s, a + b) == Lexed(Lexed(s, a), b)
    ensures Tight(s, a + b) <==> Tight(s, a) && Tight(Lexed(s, a), b)
    decreases |a|
  {
    if a == "" {
      assert a + b == b;
    } else {
      LexConcat(Next(s, a[0]), a[1..], b);
      assert (a + b)[1..] == a[1..] + b;
    }
  }

  lemma TightConcat(a: string, b: string)
    requires TightText(a) && TightText(b)
    ensures TightText(a + b)
  {
    LexConcat(Outside, a, b);
  }

  lemma LexOne(s: Lex, c: char)
    ensures Lexed(s, [c]) == Next(s, c) && (Tight(s, [c]) <==> (s.Outside? ==> c !in " \t\n\r"))
  {
    assert [c][1..] == "";
  }

  lemma EscapeInside(c: char)
    ensures Lexed(Inside, Escape(c)) == Inside && Tight(Inside, Escape(c))
  {
    var e := Escape(c);
    if |e| == 1 {
      LexOne(Inside, c);
    } else if |e| == 2 {
      assert e == [e[0]] + [e[1]];
      LexConcat(Inside, [e[0]], [e[1]]);
      LexOne(Inside, e[0]);
      LexOne(Escaped, e[1]);
    } else {
      ControlInside(c);
    }
  }

  lemma ControlInside(c: char)
    requires |Escape(c)| > 2
    ensures Lexed(Inside, Escape(c)) == Inside && Tight(Inside, Escape(c))
  {
    var h := [HexDigit(c as int / 16), HexDigit(c as int % 16)];
    assert Escape(c) == "\\u00" + h;
    LexConcat(Inside, "\\u00", h);
    assert "\\u00" == "\\u" + "00" && "\\u" == "\\" + "u" && "00" == "0" + "0" && h == [h[0]] + [h[1]];
    LexConcat(Inside, "\\u", "00");
    LexConcat(Inside, "\\", "u");
    LexConcat(Inside, "0", "0");
    LexConcat(Inside, [h[0]], [h[1]]);
    LexOne(Inside, '\\');
    LexOne(Escaped, 'u');
    LexOne(Inside, '0');
    LexOne(Inside, h[0]);
    LexOne(Inside, h[1]);
  }

  lemma {:induction false} StringInside(s: string)
    ensures Lexed(Inside, EscapeAll(s)) == Inside && Tight(Inside, EscapeAll(s))
  {
    if s != "" {
      EscapeInside(s[0]);
      StringInside(s[1..]);
      LexConcat(Inside, Escape(s[0]), EscapeAll(s[1..]));
      hide Escape, Lexed, Tight;
    }
  }

  lemma QuoteTight(s: string)
    ensures TightText(Quote(s))
  {
    StringInside(s);
    hide EscapeAll, Lexed, Tight;
    LexConcat(Outside, "\"" + EscapeAll(s), "\"");
    LexConcat(Outside, "\"", EscapeAll(s));
    LexOne(Outside, '\"');
    LexOne(Inside, '\"');
  }

  lemma CharTight(c: char)
    requires c != '\"' && c !in " \t\n\r"
    ensures TightText([c])
  {
    LexOne(Outside, c);
  }

  lemma {:induction false} PlainTight(t: string)
    requires forall c <- t :: c != '\"' && c !in " \t\n\r"
    ensures TightText(t)
  {
    if t != "" {
      assert t[0] in t && forall c <- t[1..] :: c in t;
      PlainTight(t[1..]);
      CharTight(t[0]);
      TightConcat([t[0]], t[1..]);
      assert [t[0]] + t[1..] == t;
      hide TightText;
    }
  }

  lemma {:induction false} DigitsTight(n: nat)
    ensures TightText(Digits(n))
  {
    CharTight(Digit(n % 10));
    if n >= 10 {
      DigitsTight(n / 10);
      TightConcat(Digits(n / 10), [Digit(n % 10)]);
    }
    hide TightText;
  }

  /** The compact text of a value holds no white space outside its strings. */
  lemma {:induction false} CompactTight(v: Value)
    ensures TightText(Print(v, Compact))
    decreases v, 1
  {
    hide TightText;
    match v
    case Null => PlainTight("null");
    case Bool(b) => PlainTight(if b then "true" else "false");
    case Int(n) =>
      DigitsTight(if n < 0 then -n else n);
      CharTight('-');
      if n < 0 { TightConcat("-", Digits(-n)); }
    case Str(s) => QuoteTight(s);
    case Arr(items) =>
      PlainTight("[]");
      CharTight('[');
      if items != [] {
        CompactTight(items[0]);
        ItemsTight(items[1..]);
        TightConcat("[", Print(items[0], Compact));
        TightConcat("[" + Print(items[0], Compact), PrintItems(items[1..], Compact));
      }
    case Obj(ms) =>
      PlainTight("{}");
      CharTight('{');
      if ms != [] {
        MemberTight(ms[0]);
        MembersTight(ms[1..]);
        TightConcat("{", PrintMember(ms[0], Compact));
        TightConcat("{" + PrintMember(ms[0], Compact), PrintMembers(ms[1..], Compact));
      }
  }

  lemma {:induction false} ItemsTight(items: seq<Value>)
    ensures TightText(PrintItems(items, Compact))
    decreases items, 0
  {
    hide TightText;
    CharTight(']');
    CharTight(',');
    if items != [] {
      CompactTight(items[0]);
      ItemsTight(items[1..]);
      assert "," + Compact.Gap() == ",";
      TightConcat(",", Print(items[0], Compact));
      TightConcat("," + Print(items[0], Compact), PrintItems(items[1..], Compact));
      hide Print;
    }
  }

  lemma {:induction false} MemberTight(m: Member)
    ensures TightText(PrintMember(m, Compact))
    decreases m, 2
  {
    hide TightText;
    CharTight(':');
    QuoteTight(m.key);
    CompactTight(m.value);
    hide Print, Quote;
    TightConcat(Quote(m.key), ":");
    TightConcat(Quote(m.key) + ":", Print(m.value, Compact));
    assert Quote(m.key) + ":" + Compact.Gap() == Quote(m.key) + ":";
  }

  lemma {:induction false} MembersTight(ms: seq<Member>)
    ensures TightText(PrintMembers(ms, Compact))
    decreases ms, 0
  {
    hide TightText;
    CharTight('}');
    CharTight(',');
    if ms != [] {
      MemberTight(ms[0]);
      MembersTight(ms[1..]);
      assert "," + Compact.Gap() == ",";
      TightConcat(",", PrintMember(ms[0], Compact));
      TightConcat("," + PrintMember(ms[0], Compact), PrintMembers(ms[1..], Compact));
      hide PrintMember;
    }
  }

  /** The canonical text holds no white space outside its strings. */
  lemma CanonicalTight(v: Value)
    ensures TightText(CanonicalJson(v))
  {
    CompactTight(Normalize(v));
  }

  // ---------------------------------------------------------------- which characters are escaped

  /** A string is printed between quotation marks, each character as itself unless it has to be escaped. */
  lemma PlainStrings(s: string)
    requires forall c <- s :: c >= ' ' && c != '\"' && c != '\\'
    ensures Quote(s) == "\"" + s + "\""
  {
    PlainRest(s);
  }

  lemma {:induction false} PlainRest(s: string)
    requires forall c <- s :: c >= ' ' && c != '\"' && c != '\\'
    ensures EscapeAll(s) == s
  {
    if s != "" {
      assert s[0] in s && forall c <- s[1..] :: c in s;
      PlainRest(s[1..]);
      PlainChar(s[0]);
      hide Escape;
      assert [s[0]] + s[1..] == s;
    }
  }

  lemma PlainChar(c: char)
    requires c >= ' ' && c != '\"' && c != '\\'
    ensures Escape(c) == [c]
  {
  }

  /** The escapes, by example. */
  lemma EscapesByExample()
    ensures Escape('\"') == "\\\"" && Escape('\\') == "\\\\" && Escape('\n') == "\\n" && Escape('\r') == "\\r"
    ensures Escape('\t') == "\\t" && Escape('\U{8}') == "\\b" && Escape('\U{C}') == "\\f"
    ensures Escape('\U{1}') == "\\u0001" && Escape('\U{1F}') == "\\u001f" && Escape('\U{7F}') == "\U{7F}"
  {
  }

  // ---------------------------------------------------------------- what the reader accepts besides

  predicate WhiteSpace(w: string) {
    forall c <- w :: c in " \t\n\r"
  }

  lemma {:induction false} SkipsWhite(w: string, t: string)
    requires WhiteSpace(w)
    ensures Skip(w + t) == Skip(t)
  {
    if w == "" {
      assert w + t == t;
    } else {
      assert w[0] in w && forall c <- w[1..] :: c in w;
      SkipsWhite(w[1..], t);
      assert (w + t)[1..] == w[1..] + t;
    }
  }

  /** White space may stand before any value, key, comma and closing bracket. */
  lemma WhiteSpaceIgnored(w: string, t: string)
    requires WhiteSpace(w)
    ensures ParseValue(w + t) == ParseValue(t) && ParseMember(w + t) == ParseMember(t)
    ensures ParseItems(w + t) == ParseItems(t) && ParseMembers(w + t) == ParseMembers(t)
    ensures ParseArray(w + t) == ParseArray(t) && ParseObject(w + t) == ParseObject(t)
  {
    SkipsWhite(w, t);
    ParseSkips(w + t);
    ParseSkips(t);
    SkipTwice(w + t);
    SkipTwice(t);
    hide Skip, ParseValue, ParseMember, ParseItems, ParseMembers, ParseArray, ParseObject;
  }

  lemma {:induction false} SkipTwice(t: string)
    ensures Skip(Skip(t)) == Skip(t)
  {
    if t != "" && t[0] in " \t\n\r" { SkipTwice(t[1..]); }
  }

  lemma ParseSkips(t: string)
    ensures ParseValue(t) == ParseValue(Skip(t)) && ParseMember(t) == ParseMember(Skip(t))
    ensures ParseItems(t) == ParseItems(Skip(t)) && ParseMembers(t) == ParseMembers(Skip(t))
    ensures ParseArray(t) == ParseArray(Skip(t)) && ParseObject(t) == ParseObject(Skip(t))
  {
    SkipTwice(t);
    SkippedValue(t);
    SkippedMember(t);
    SkippedItems(t);
    SkippedMembers(t);
    hide Skip, ParseValue, ParseMember, ParseItems, ParseMembers;
  }

  lemma SkippedValue(t: string)
    requires Skip(Skip(t)) == Skip(t)
    ensures ParseValue(t) == ParseValue(Skip(t))
  {
    hide Skip, ParseHere;
  }

  lemma SkippedMember(t: string)
    requires Skip(Skip(t)) == Skip(t)
    ensures ParseMember(t) == ParseMember(Skip(t))
  {
    hide Skip, ParseValue, ParseChars;
  }

  lemma SkippedItems(t: string)
    requires Skip(Skip(t)) == Skip(t)
    ensures ParseItems(t) == ParseItems(Skip(t)) && ParseArray(t) == ParseArray(Skip(t))
  {
    hide Skip, ParseValue;
  }

  lemma SkippedMembers(t: string)
    requires Skip(Skip(t)) == Skip(t)
    ensures ParseMembers(t) == ParseMembers(Skip(t)) && ParseObject(t) == ParseObject(Skip(t))
  {
    hide Skip, ParseMember;
  }

  /** Any character of the basic plane may be written by its four hexadecimal digits, a solidus with an escape. */
  lemma EscapesRead(a: nat, b: nat, c: nat, d: nat, rest: string)
    requires a < 16 && b < 16 && c < 16 && d < 16
    requires var n := 4096 * a + 256 * b + 16 * c + d; !(0xD800 <= n < 0xE000)
    ensures var digits := [HexDigit(a), HexDigit(b), HexDigit(c), HexDigit(d)];
            ParseEscape("u" + digits + rest) == Done((4096 * a + 256 * b + 16 * c + d) as char, rest)
    ensures ParseEscape("/" + rest) == Done('/', rest)
  {
    var digits := [HexDigit(a), HexDigit(b), HexDigit(c), HexDigit(d)];
    var t := "u" + digits + rest;
    assert t[1..] == digits + rest && (digits + rest)[4..] == rest;
    HexBack(a);
    HexBack(b);
    HexBack(c);
    HexBack(d);
    hide HexDigit, HexValue;
    assert ParseHex(t[1..]) == Done((4096 * a + 256 * b + 16 * c + d) as char, rest);
    assert ("/" + rest)[1..] == rest;
  }

  lemma HexBack(d: nat)
    requires d < 16
    ensures HexValue(HexDigit(d)) == d
  {
  }
}
