/**
 The reader undoes the printer, and canonical text identifies a value up to the
 insertion order of its dicts.
 */
module JsonRoundTrip {
  import opened Common
  import opened Json

  // ---------------------------------------------------------------- numbers

  /** What may follow a printed value without being read as part of it. */
  predicate Stops(rest: string) {
    rest == "" || !IsDigit(rest[0])
  }

  lemma {:induction false} DigitsParse(n: nat, rest: string)
    ensures IsDigit(Digits(n)[0]) && (Digits(n)[0] == '0' <==> n == 0)
    ensures ParseDigits(Digits(n) + rest, 0) == ParseDigits(rest, n)
  {
    if n < 10 {
      assert Digits(n) + rest == [Digit(n)] + rest;
    } else {
      DigitsParse(n / 10, [Digit(n % 10)] + rest);
      Associate(Digits(n / 10), [Digit(n % 10)], rest);
      DigitStep(n / 10, n % 10, rest);
      hide ParseDigits, Digit;
    }
  }

  lemma DigitStep(k: nat, d: nat, rest: string)
    requires d < 10
    ensures ParseDigits([Digit(d)] + rest, k) == ParseDigits(rest, 10 * k + d)
  {
    assert ([Digit(d)] + rest)[1..] == rest;
  }

  lemma IntParse(n: int, rest: string)
    requires Stops(rest)
    ensures IntText(n)[0] == '-' || IsDigit(IntText(n)[0])
    ensures ParseNumber(IntText(n) + rest) == Done(Int(n), rest)
  {
    if n < 0 { NegativeParse(-n, rest); } else { NaturalParse(n, rest); }
    hide ParseNumber;
  }

  lemma DigitsNatural(m: nat, rest: string)
    requires Stops(rest)
    ensures Digits(m) != "" && IsDigit(Digits(m)[0]) && ParseNatural(Digits(m) + rest) == Done(m, rest)
  {
    DigitsParse(m, rest);
    var d := Digits(m);
    if m == 0 {
      assert d == "0" && (d + rest)[1..] == rest;
    } else {
      hide Digits;
      assert ParseDigits(d + rest, 0) == ParseDigits((d + rest)[1..], d[0] as int - '0' as int);
    }
  }

  lemma NaturalParse(m: nat, rest: string)
    requires Stops(rest)
    ensures IsDigit(Digits(m)[0]) && ParseNumber(Digits(m) + rest) == Done(Int(m), rest)
  {
    DigitsNatural(m, rest);
    hide Digits, ParseNatural;
    assert (Digits(m) + rest)[0] == Digits(m)[0];
  }

  lemma NegativeParse(m: nat, rest: string)
    requires Stops(rest)
    ensures ParseNumber("-" + Digits(m) + rest) == Done(Int(0 - m), rest)
  {
    DigitsNatural(m, rest);
    hide Digits, ParseNatural;
    var d := Digits(m);
    var u := "-" + d + rest;
    assert u[1..] == d + rest && u[1] == d[0];
  }

  // ---------------------------------------------------------------- strings

  lemma ControlParse(c: char, u: string)
    requires c < ' '
    ensures var h := "u00" + [HexDigit(c as int / 16), HexDigit(c as int % 16)] + u;
            ParseEscape(h) == Done(c, u)
  {
    var hi, lo := HexDigit(c as int / 16), HexDigit(c as int % 16);
    var h := "u00" + [hi, lo] + u;
    assert h[1..] == "00" + [hi, lo] + u;
    assert h[1..][4..] == u;
    assert HexValue(hi) == c as int / 16 && HexValue(lo) == c as int % 16;
  }

  lemma EscapeParse(c: char, u: string)
    requires ParseChars(u).Done?
    ensures ParseChars(Escape(c) + u) == Done([c] + ParseChars(u).value, ParseChars(u).rest)
  {
    var t := Escape(c) + u;
    if c < ' ' && c !in "\n\r\t\U{8}\U{C}" {
      ControlParse(c, u);
      assert t[1..] == "u00" + [HexDigit(c as int / 16), HexDigit(c as int % 16)] + u;
      hide ParseEscape, HexDigit;
    } else if |Escape(c)| == 2 {
      PairParse(c, u);
      assert t[1..] == [Escape(c)[1]] + u;
      hide ParseEscape;
    } else {
      assert t[1..] == u;
    }
  }

  lemma PairParse(c: char, u: string)
    requires |Escape(c)| == 2
    ensures Escape(c)[0] == '\\' && ParseEscape([Escape(c)[1]] + u) == Done(c, u)
  {
    hide ParseHex;
    assert ([Escape(c)[1]] + u)[1..] == u;
  }

  lemma {:induction false} CharsParse(s: string, rest: string)
    ensures ParseChars(EscapeAll(s) + "\"" + rest) == Done(s, rest)
  {
    var t := EscapeAll(s) + "\"" + rest;
    if s == "" {
      assert t == "\"" + rest;
    } else {
      CharsParse(s[1..], rest);
      var u := EscapeAll(s[1..]) + "\"" + rest;
      assert t == Escape(s[0]) + u;
      hide ParseChars, EscapeAll, Escape;
      EscapeParse(s[0], u);
      assert [s[0]] + s[1..] == s;
    }
  }

  lemma QuoteParse(s: string, rest: string)
    ensures (Quote(s) + rest)[0] == '\"'
    ensures ParseChars((Quote(s) + rest)[1..]) == Done(s, rest)
  {
    CharsParse(s, rest);
    hide ParseChars, EscapeAll;
    assert (Quote(s) + rest)[1..] == EscapeAll(s) + "\"" + rest;
  }

  // ---------------------------------------------------------------- values

  predicate Visible(t: string) {
    t != "" && t[0] !in " \t\n\r]}"
  }

  /** A printed value starts with neither white space nor a closing bracket. */
  lemma PrintVisible(v: Value, st: Style)
    ensures Visible(Print(v, st))
  {
    if v.Int? {
      IntParse(v.n, "");
    }
  }

  lemma GapSkip(st: Style, t: string)
    requires Visible(t)
    ensures Skip(st.Gap() + t) == Skip(t) == t
  {
    if st.Spaced? {
      assert (st.Gap() + t)[1..] == t;
    } else {
      assert st.Gap() + t == t;
    }
  }

  lemma ScalarParse(v: Value, st: Style, rest: string)
    requires Stops(rest) && !v.Arr? && !v.Obj?
    ensures ParseHere(Print(v, st) + rest) == Done(v, rest)
  {
    var t := Print(v, st) + rest;
    match v
    case Null =>
      assert t[4..] == rest && "null" <= t;
    case Bool(b) =>
      assert t[if b then 4 else 5..] == rest && (if b then "true" else "false") <= t;
      assert t[0] == if b then 't' else 'f';
    case Int(n) =>
      IntParse(n, rest);
      assert t[0] == IntText(n)[0];
    case Str(s) =>
      QuoteParse(s, rest);
  }

  /** The reader undoes `json.dumps`, in either separator style. */
  lemma {:induction false} PrintParse(v: Value, st: Style, rest: string)
    requires Stops(rest)
    ensures ParseValue(Print(v, st) + rest) == Done(v, rest)
    ensures ParseValue(st.Gap() + (Print(v, st) + rest)) == Done(v, rest)
    decreases v, 1
  {
    PrintVisible(v, st);
    GapSkip(st, Print(v, st) + rest);
    match v
    case Arr(items) => ArrParse(items, st, rest);
    case Obj(ms) => ObjParse(ms, st, rest);
    case _ => ScalarParse(v, st, rest);
  }

  lemma Reassociate(x: string, a: string, b: string, rest: string)
    ensures x + a + b + rest == x + (a + (b + rest))
  {
    Associate(x + a, b, rest);
    Associate(x, a, b + rest);
  }

  lemma Reassociate4(x: string, a: string, b: string, c: string, rest: string)
    ensures x + a + b + c + rest == x + (a + (b + (c + rest)))
  {
    Reassociate(x + a, b, c, rest);
    Associate(x, a, b + (c + rest));
  }

  lemma ArrStep(t: string, v: Value, mid: string, vs: seq<Value>, rest: string)
    requires t != "" && t[0] != ']'
    requires ParseValue(t) == Done(v, mid) && ParseItems(mid) == Done(vs, rest)
    ensures ParseHere("[" + t) == Done(Arr([v] + vs), rest)
  {
    assert ("[" + t)[1..] == t;
  }

  lemma {:induction false} ArrParse(items: seq<Value>, st: Style, rest: string)
    requires Stops(rest)
    ensures ParseHere(Print(Arr(items), st) + rest) == Done(Arr(items), rest)
    decreases items, 1
  {
    if items == [] {
      assert ("[]" + rest)[1..] == "]" + rest;
      assert ("]" + rest)[1..] == rest;
    } else {
      var a, b := Print(items[0], st), PrintItems(items[1..], st);
      ItemsParse(items[1..], st, rest);
      PrintParse(items[0], st, b + rest);
      PrintVisible(items[0], st);
      ArrStep(a + (b + rest), items[0], b + rest, items[1..], rest);
      Reassociate("[", a, b, rest);
      assert [items[0]] + items[1..] == items;
    }
  }

  lemma ItemsStep(t: string, v: Value, mid: string, vs: seq<Value>, rest: string)
    requires t != "" && t[0] == ','
    requires ParseValue(t[1..]) == Done(v, mid) && ParseItems(mid) == Done(vs, rest)
    ensures ParseItems(t) == Done([v] + vs, rest)
  {
  }

  lemma ItemsText(items: seq<Value>, st: Style, rest: string)
    requires items != []
    ensures PrintItems(items, st) + rest
         == "," + (st.Gap() + (Print(items[0], st) + (PrintItems(items[1..], st) + rest)))
  {
    Reassociate4(",", st.Gap(), Print(items[0], st), PrintItems(items[1..], st), rest);
  }

  lemma {:induction false} ItemsParse(items: seq<Value>, st: Style, rest: string)
    ensures Stops(PrintItems(items, st) + rest)
    ensures ParseItems(PrintItems(items, st) + rest) == Done(items, rest)
    decreases items, 0
  {
    var t := PrintItems(items, st) + rest;
    if items == [] {
      assert t[1..] == rest;
    } else {
      hide Print, PrintItems, ParseItems, ParseValue;
      var more := PrintItems(items[1..], st) + rest;
      ItemsParse(items[1..], st, rest);
      PrintParse(items[0], st, more);
      ItemsText(items, st, rest);
      assert t[1..] == st.Gap() + (Print(items[0], st) + more);
      ItemsStep(t, items[0], more, items[1..], rest);
      assert [items[0]] + items[1..] == items;
    }
  }

  lemma ObjStep(t: string, m: Member, mid: string, ms: seq<Member>, rest: string)
    requires t != "" && t[0] == '\"'
    requires ParseMember(t) == Done(m, mid) && ParseMembers(mid) == Done(ms, rest)
    ensures ParseHere("{" + t) == Done(Obj([m] + ms), rest)
  {
    assert ("{" + t)[1..] == t && Skip(t) == t;
    hide Skip, ParseMember, ParseMembers;
  }

  lemma {:induction false} ObjParse(ms: seq<Member>, st: Style, rest: string)
    requires Stops(rest)
    ensures ParseHere(Print(Obj(ms), st) + rest) == Done(Obj(ms), rest)
    decreases ms, 1
  {
    if ms == [] {
      EmptyParse(st, rest);
    } else {
      hide Print, PrintMember, PrintMembers, ParseHere, ParseMember, ParseMembers;
      var b := PrintMembers(ms[1..], st);
      ObjText(ms, st, rest);
      MembersParse(ms[1..], st, rest);
      MemberParse(ms[0], st, b + rest);
      ObjStep(PrintMember(ms[0], st) + (b + rest), ms[0], b + rest, ms[1..], rest);
      assert [ms[0]] + ms[1..] == ms;
    }
  }

  lemma EmptyParse(st: Style, rest: string)
    ensures ParseHere(Print(Obj([]), st) + rest) == Done(Obj([]), rest)
  {
    assert ("{}" + rest)[1..] == "}" + rest;
    assert ("}" + rest)[1..] == rest;
  }

  lemma ObjText(ms: seq<Member>, st: Style, rest: string)
    requires ms != []
    ensures var t := PrintMember(ms[0], st) + (PrintMembers(ms[1..], st) + rest);
            Print(Obj(ms), st) + rest == "{" + t && t != "" && t[0] == '\"'
  {
    hide PrintMembers;
    assert PrintMember(ms[0], st)[0] == '\"';
    hide PrintMember;
    Reassociate("{", PrintMember(ms[0], st), PrintMembers(ms[1..], st), rest);
  }

  lemma MembersStep(t: string, m: Member, mid: string, ms: seq<Member>, rest: string)
    requires t != "" && t[0] == ','
    requires ParseMember(t[1..]) == Done(m, mid) && ParseMembers(mid) == Done(ms, rest)
    ensures ParseMembers(t) == Done([m] + ms, rest)
  {
  }

  lemma MembersText(ms: seq<Member>, st: Style, rest: string)
    requires ms != []
    ensures PrintMembers(ms, st) + rest
         == "," + (st.Gap() + (PrintMember(ms[0], st) + (PrintMembers(ms[1..], st) + rest)))
  {
    Reassociate4(",", st.Gap(), PrintMember(ms[0], st), PrintMembers(ms[1..], st), rest);
  }

  lemma {:induction false} MembersParse(ms: seq<Member>, st: Style, rest: string)
    ensures Stops(PrintMembers(ms, st) + rest)
    ensures ParseMembers(PrintMembers(ms, st) + rest) == Done(ms, rest)
    decreases ms, 0
  {
    var t := PrintMembers(ms, st) + rest;
    if ms == [] {
      assert t[1..] == rest;
    } else {
      var more := PrintMembers(ms[1..], st) + rest;
      MembersParse(ms[1..], st, rest);
      MemberParse(ms[0], st, more);
      MembersText(ms, st, rest);
      assert t[1..] == st.Gap() + (PrintMember(ms[0], st) + more);
      MembersStep(t, ms[0], more, ms[1..], rest);
      assert [ms[0]] + ms[1..] == ms;
    }
  }

  lemma MemberStep(t: string, k: string, colon: string, v: Value, rest: string)
    requires Visible(t) && t[0] == '\"' && ParseChars(t[1..]) == Done(k, colon)
    requires colon != "" && colon[0] == ':' && ParseValue(colon[1..]) == Done(v, rest)
    ensures ParseMember(t) == Done(Member(k, v), rest)
  {
  }

  lemma MemberGap(st: Style, t: string)
    requires Visible(t)
    ensures ParseMember(st.Gap() + t) == ParseMember(t)
  {
    GapSkip(st, t);
  }

  lemma {:induction false} MemberParse(m: Member, st: Style, rest: string)
    requires Stops(rest)
    ensures (PrintMember(m, st) + rest)[0] == '\"'
    ensures ParseMember(PrintMember(m, st) + rest) == Done(m, rest)
    ensures ParseMember(st.Gap() + (PrintMember(m, st) + rest)) == Done(m, rest)
    decreases m, 2
  {
    var t := PrintMember(m, st) + rest;
    var q, g, body := Quote(m.key), st.Gap(), Print(m.value, st);
    var tail := ":" + (g + (body + rest));
    Reassociate4(q, ":", g, body, rest);
    QuoteParse(m.key, tail);
    assert tail[1..] == g + (body + rest);
    PrintParse(m.value, st, rest);
    MemberStep(t, m.key, tail, m.value, rest);
    MemberGap(st, t);
  }

  // ---------------------------------------------------------------- key order

  lemma StrLessTotal(a: string, b: string)
    ensures a != b ==> StrLess(a, b) || StrLess(b, a)
    ensures StrLess(a, b) ==> !StrLess(b, a) && a != b
  {
    if a != "" && b != "" {
      StrLessTotal(a[1..], b[1..]);
      assert a == [a[0]] + a[1..] && b == [b[0]] + b[1..];
    }
  }

  lemma StrLessTransitive(a: string, b: string, c: string)
    requires StrLess(a, b) && StrLess(b, c)
    ensures StrLess(a, c)
  {
    if a != "" && a[0] == b[0] == c[0] {
      StrLessTransitive(a[1..], b[1..], c[1..]);
    }
  }

  ghost predicate Ascending(ms: seq<Member>) {
    forall i, j | 0 <= i < j < |ms| :: StrLess(ms[i].key, ms[j].key)
  }

  lemma {:induction false} InsertSorts(m: Member, ms: seq<Member>)
    requires Ascending(ms) && forall x | x in ms :: x.key != m.key
    ensures Ascending(InsertMember(m, ms))
    ensures forall x :: x in InsertMember(m, ms) <==> x == m || x in ms
  {
    var out := InsertMember(m, ms);
    if ms == [] {
    } else if StrLess(m.key, ms[0].key) {
      forall i | 0 < i < |ms| ensures StrLess(m.key, ms[i].key) {
        StrLessTransitive(m.key, ms[0].key, ms[i].key);
      }
    } else {
      InsertSorts(m, ms[1..]);
      StrLessTotal(m.key, ms[0].key);
      assert ms[0] in ms;
      forall i | 0 < i < |out| ensures StrLess(out[0].key, out[i].key) {
        assert out[i] in InsertMember(m, ms[1..]);
      }
      assert out[1..] == InsertMember(m, ms[1..]);
    }
  }

  lemma {:induction false} SortSorts(ms: seq<Member>)
    requires DistinctKeys(ms)
    ensures Ascending(SortMembers(ms))
    ensures forall x :: x in SortMembers(ms) <==> x in ms
  {
    if ms != [] {
      SortSorts(ms[1..]);
      InsertSorts(ms[0], SortMembers(ms[1..]));
    }
  }

  /** An ascending sequence is determined by the members in it. */
  lemma {:induction false} AscendingUnique(xs: seq<Member>, ys: seq<Member>)
    requires Ascending(xs) && Ascending(ys)
    requires forall m :: m in xs <==> m in ys
    ensures xs == ys
  {
    if xs != [] { assert xs[0] in ys; }
    if ys != [] { assert ys[0] in xs; }
    if xs != [] {
      StrLessTotal(xs[0].key, ys[0].key);
      var i :| 0 <= i < |ys| && ys[i] == xs[0];
      var j :| 0 <= j < |xs| && xs[j] == ys[0];
      assert xs[0] == ys[0];
      forall m ensures m in xs[1..] <==> m in ys[1..] {
        StrLessTotal(m.key, m.key);
        assert m in xs <==> m in ys;
      }
      AscendingUnique(xs[1..], ys[1..]);
    }
  }

  lemma {:induction false} NormalizeItemsAt(items: seq<Value>)
    ensures |NormalizeItems(items)| == |items|
    ensures forall i | 0 <= i < |items| :: NormalizeItems(items)[i] == Normalize(items[i])
  {
    if items != [] { NormalizeItemsAt(items[1..]); }
  }

  lemma {:induction false} NormalizeMembersAt(ms: seq<Member>)
    ensures |NormalizeMembers(ms)| == |ms|
    ensures forall i | 0 <= i < |ms| :: NormalizeMembers(ms)[i] == Member(ms[i].key, Normalize(ms[i].value))
    ensures DistinctKeys(ms) ==> DistinctKeys(NormalizeMembers(ms))
  {
    hide Normalize;
    if ms != [] {
      NormalizeMembersAt(ms[1..]);
      hide DistinctKeys;
      MembersAtNext(ms);
    }
    SameKeysDistinct(ms, NormalizeMembers(ms));
  }

  lemma MembersAtNext(ms: seq<Member>)
    requires ms != [] && |NormalizeMembers(ms[1..])| == |ms[1..]|
    requires forall i | 0 <= i < |ms[1..]| ::
               NormalizeMembers(ms[1..])[i] == Member(ms[1..][i].key, Normalize(ms[1..][i].value))
    ensures |NormalizeMembers(ms)| == |ms|
    ensures forall i | 0 <= i < |ms| :: NormalizeMembers(ms)[i] == Member(ms[i].key, Normalize(ms[i].value))
  {
    hide Normalize;
    forall i | 0 < i < |ms| ensures NormalizeMembers(ms)[i] == Member(ms[i].key, Normalize(ms[i].value)) {
      assert ms[1..][i - 1] == ms[i];
    }
  }

  lemma SameKeysDistinct(ms: seq<Member>, ns: seq<Member>)
    requires |ns| == |ms| && forall i | 0 <= i < |ms| :: ns[i].key == ms[i].key
    ensures DistinctKeys(ms) ==> DistinctKeys(ns)
  {
  }

  // ---------------------------------------------------------------- equality of values

  /**
   Equality up to the insertion order of dicts. It is finer than Python's `==` in one
   point: `true` and 1 stay different, as do their texts.
   */
  ghost predicate Equiv(a: Value, b: Value) {
    if a.Arr? then
      b.Arr? && |a.items| == |b.items| && forall i | 0 <= i < |a.items| :: Equiv(a.items[i], b.items[i])
    else if a.Obj? then
      && b.Obj? && |a.members| == |b.members|
      && forall i | 0 <= i < |a.members| :: exists j | 0 <= j < |b.members| ::
           b.members[j].key == a.members[i].key && Equiv(a.members[i].value, b.members[j].value)
    else a == b
  }

  /** Equal normal forms mean equal values. */
  lemma {:induction false} NormalEquiv(a: Value, b: Value)
    requires WellFormed(a) && WellFormed(b) && Normalize(a) == Normalize(b)
    ensures Equiv(a, b)
    decreases a
  {
    match a
    case Arr(xs) =>
      var ys := b.items;
      NormalizeItemsAt(xs);
      NormalizeItemsAt(ys);
      forall i | 0 <= i < |xs| ensures Equiv(xs[i], ys[i]) {
        assert NormalizeItems(xs)[i] == NormalizeItems(ys)[i];
        NormalEquiv(xs[i], ys[i]);
      }
    case Obj(xs) =>
      var ys := b.members;
      NormalLength(xs, ys);
      forall i | 0 <= i < |xs|
        ensures exists j | 0 <= j < |ys| :: ys[j].key == xs[i].key && Equiv(xs[i].value, ys[j].value)
      {
        var j := NormalPartner(xs, ys, i);
        hide Normalize, SortMembers, NormalizeMembers;
        NormalEquiv(xs[i].value, ys[j].value);
      }
    case _ =>
  }

  lemma NormalLength(xs: seq<Member>, ys: seq<Member>)
    requires SortMembers(NormalizeMembers(xs)) == SortMembers(NormalizeMembers(ys))
    ensures |xs| == |ys|
  {
    NormalizeMembersAt(xs);
    NormalizeMembersAt(ys);
    SortLength(NormalizeMembers(xs));
    SortLength(NormalizeMembers(ys));
    hide SortMembers, NormalizeMembers;
  }

  /** The member of the other dict that has the same key, and a value with the same normal form. */
  lemma NormalPartner(xs: seq<Member>, ys: seq<Member>, i: nat) returns (j: nat)
    requires DistinctKeys(xs) && DistinctKeys(ys) && i < |xs|
    requires SortMembers(NormalizeMembers(xs)) == SortMembers(NormalizeMembers(ys))
    ensures j < |ys| && ys[j].key == xs[i].key && Normalize(ys[j].value) == Normalize(xs[i].value)
  {
    var ns, ms := NormalizeMembers(xs), NormalizeMembers(ys);
    NormalizeMembersAt(xs);
    NormalizeMembersAt(ys);
    SortSorts(ns);
    SortSorts(ms);
    hide SortMembers, NormalizeMembers, Normalize, DistinctKeys, Ascending;
    assert ns[i] in ns && ns[i] in SortMembers(ns) && ns[i] in ms;
    j :| 0 <= j < |ms| && ms[j] == ns[i];
  }

  lemma {:induction false} InsertLength(m: Member, ms: seq<Member>)
    ensures |InsertMember(m, ms)| == |ms| + 1
  {
    if ms != [] { InsertLength(m, ms[1..]); }
  }

  lemma {:induction false} SortLength(ms: seq<Member>)
    ensures |SortMembers(ms)| == |ms|
  {
    if ms != [] {
      SortLength(ms[1..]);
      InsertLength(ms[0], SortMembers(ms[1..]));
    }
  }

  /** Distinct keys on both sides: each member of the longer list is matched too. */
  lemma KeysMatchBack(xs: seq<Member>, ys: seq<Member>, j: nat) returns (i: nat)
    requires DistinctKeys(xs) && DistinctKeys(ys) && |xs| == |ys| && j < |ys|
    requires forall i | 0 <= i < |xs| :: HasKey(ys, xs[i].key)
    ensures i < |xs| && xs[i].key == ys[j].key
  {
    if k :| 0 <= k < |xs| && xs[k].key == ys[j].key {
      i := k;
    } else {
      var kx, ky := set k | 0 <= k < |xs| :: xs[k].key, set k | 0 <= k < |ys| :: ys[k].key;
      KeyCount(xs);
      KeyCount(ys);
      assert kx <= ky - {ys[j].key};
      SubsetSize(kx, ky - {ys[j].key});
      assert false;
    }
  }

  lemma SubsetSize(a: set<string>, b: set<string>)
    requires a <= b
    ensures |a| <= |b|
  {
    assert b == a + (b - a);
  }

  lemma {:induction false} KeyCount(ms: seq<Member>)
    requires DistinctKeys(ms)
    ensures |set k | 0 <= k < |ms| :: ms[k].key| == |ms|
  {
    var keys := set k | 0 <= k < |ms| :: ms[k].key;
    if ms != [] {
      var init, last := ms[..|ms| - 1], ms[|ms| - 1];
      KeyCount(init);
      var less := set k | 0 <= k < |init| :: init[k].key;
      assert keys == less + {last.key};
    }
  }

  /** Equal values have equal normal forms, whatever order their dicts were filled in. */
  lemma {:induction false} EquivNormal(a: Value, b: Value)
    requires WellFormed(a) && WellFormed(b) && Equiv(a, b)
    ensures Normalize(a) == Normalize(b)
    decreases a
  {
    match a
    case Arr(xs) =>
      var ys := b.items;
      NormalizeItemsAt(xs);
      NormalizeItemsAt(ys);
      forall i | 0 <= i < |xs| ensures Normalize(xs[i]) == Normalize(ys[i]) {
        EquivNormal(xs[i], ys[i]);
      }
      assert NormalizeItems(xs) == NormalizeItems(ys);
    case Obj(xs) =>
      var ys := b.members;
      var ns, ms := NormalizeMembers(xs), NormalizeMembers(ys);
      NormalizeMembersAt(xs);
      NormalizeMembersAt(ys);
      forall i | 0 <= i < |xs| ensures ns[i] in ms && HasKey(ys, xs[i].key) {
        var j :| 0 <= j < |ys| && ys[j].key == xs[i].key && Equiv(xs[i].value, ys[j].value);
        EquivNormal(xs[i].value, ys[j].value);
        assert ms[j] == ns[i];
      }
      forall j | 0 <= j < |ys| ensures ms[j] in ns {
        var i := KeysMatchBack(xs, ys, j);
        var k :| 0 <= k < |ms| && ms[k] == ns[i];
        assert k == j;
      }
      SortSorts(ns);
      SortSorts(ms);
      forall m ensures m in SortMembers(ns) <==> m in SortMembers(ms) {
        assert m in ns <==> m in ms;
      }
      AscendingUnique(SortMembers(ns), SortMembers(ms));
    case _ =>
  }

  /** Canonical text is equal exactly when the values are equal. */
  lemma CanonicalIdentifies(a: Value, b: Value)
    requires WellFormed(a) && WellFormed(b)
    ensures CanonicalJson(a) == CanonicalJson(b) <==> Equiv(a, b)
  {
    if Equiv(a, b) {
      EquivNormal(a, b);
    }
    if CanonicalJson(a) == CanonicalJson(b) {
      PrintParse(Normalize(a), Compact, "");
      PrintParse(Normalize(b), Compact, "");
      NormalEquiv(a, b);
    }
  }

  /** The reader turns canonical text back into the value it was printed from. */
  lemma CanonicalParse(v: Value)
    requires WellFormed(v)
    ensures ParseValue(CanonicalJson(v)).Done? && ParseValue(CanonicalJson(v)).rest == ""
    ensures WellFormed(ParseValue(CanonicalJson(v)).value) && Equiv(v, ParseValue(CanonicalJson(v)).value)
  {
    var text := CanonicalJson(v);
    PrintParse(Normalize(v), Compact, "");
    assert text + "" == text;
    NormalWellFormed(v);
    NormalEquiv(v, Normalize(v));
  }

  /** Sorting every dict twice is sorting it once. */
  lemma {:induction false} NormalWellFormed(v: Value)
    requires WellFormed(v)
    ensures WellFormed(Normalize(v)) && Normalize(Normalize(v)) == Normalize(v)
    decreases v
  {
    match v
    case Arr(xs) =>
      NormalizeItemsAt(xs);
      var ns := NormalizeItems(xs);
      forall i | 0 <= i < |xs| ensures WellFormed(ns[i]) && Normalize(ns[i]) == ns[i] {
        NormalWellFormed(xs[i]);
      }
      NormalizeItemsAt(ns);
      assert NormalizeItems(ns) == ns;
    case Obj(xs) =>
      NormalizeMembersAt(xs);
      var ns := NormalizeMembers(xs);
      var ss := SortMembers(ns);
      SortSorts(ns);
      forall i | 0 <= i < |xs| ensures WellFormed(ns[i].value) && Normalize(ns[i].value) == ns[i].value {
        NormalWellFormed(xs[i].value);
      }
      forall i | 0 <= i < |ss| ensures WellFormed(ss[i].value) && Normalize(ss[i].value) == ss[i].value {
        assert ss[i] in ns;
      }
      AscendingDistinct(ss);
      NormalizeMembersAt(ss);
      assert NormalizeMembers(ss) == ss;
      SortSorts(ss);
      AscendingUnique(SortMembers(ss), ss);
    case _ =>
  }

  lemma AscendingDistinct(ms: seq<Member>)
    requires Ascending(ms)
    ensures DistinctKeys(ms)
  {
    forall i, j | 0 <= i < j < |ms| ensures ms[i].key != ms[j].key {
      StrLessTotal(ms[i].key, ms[j].key);
    }
  }
}
