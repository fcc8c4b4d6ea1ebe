/**
 The audit hash chain: `app/domain/audit.py`.

 SHA-256 stays abstract: `h` maps a payload text to its 64-character hex digest.
 Where a result could fail because two payloads share a digest, the two payloads
 are named; the bare existence of a collision would hold of every digest.
 */
module AuditChain {
  import opened Common
  import opened Json
  import opened JsonRoundTrip

  type Hash = string -> string

  const DIGEST_LEN := 64
  const GENESIS_HASH: string := Zeros(DIGEST_LEN)

  function Zeros(n: nat): (s: string)
    ensures |s| == n && forall i | 0 <= i < n :: s[i] == '0'
  {
    if n == 0 then "" else "0" + Zeros(n - 1)
  }

  const HASHED_FIELDS: seq<string> := [
    "event_id", "ts", "correlation_id", "command_id", "user_id", "role", "source_ip",
    "action", "target_device", "scenario_id", "old_value", "new_value", "reason",
    "proposed_at", "approved_at", "executed_at", "result", "model_version", "mode"]

  ghost predicate IsDigest(h: Hash) {
    forall t :: |h(t)| == DIGEST_LEN
  }

  /** The entry projected on the given fields; a missing field reads as null. */
  function Project(e: Dict, fields: seq<string>): (view: Dict)
    ensures |view| == |fields|
    ensures forall i | 0 <= i < |fields| :: view[i] == Member(fields[i], Get(e, fields[i]))
  {
    if fields == [] then [] else [Member(fields[0], Get(e, fields[0]))] + Project(e, fields[1..])
  }

  function BusinessView(e: Dict): Dict {
    Project(e, HASHED_FIELDS)
  }

  function Payload(prev: string, e: Dict): string {
    prev + CanonicalJson(Obj(BusinessView(e)))
  }

  function ComputeEntryHash(h: Hash, prev: string, e: Dict): string {
    h(Payload(prev, e))
  }

  // ---------------------------------------------------------------- what verified means

  /** The value entry `k` must carry as its `prev_hash`. */
  function ExpectedPrev(entries: seq<Dict>, k: nat): Value
    requires k < |entries|
  {
    if k == 0 then Str(GENESIS_HASH) else Get(entries[k - 1], "entry_hash")
  }

  predicate LinkOk(entries: seq<Dict>, k: nat)
    requires k < |entries|
  {
    Get(entries[k], "prev_hash") == ExpectedPrev(entries, k)
  }

  predicate ContentOk(h: Hash, entries: seq<Dict>, k: nat)
    requires k < |entries|
  {
    var prev := ExpectedPrev(entries, k);
    prev.Str? && Get(entries[k], "entry_hash") == Str(ComputeEntryHash(h, prev.s, entries[k]))
  }

  predicate Good(h: Hash, entries: seq<Dict>, k: nat)
    requires k < |entries|
  {
    LinkOk(entries, k) && ContentOk(h, entries, k)
  }

  ghost predicate Verified(h: Hash, entries: seq<Dict>) {
    forall k | 0 <= k < |entries| :: Good(h, entries, k)
  }

  /** Position `k` is the smallest bad one. */
  ghost predicate FirstBad(h: Hash, entries: seq<Dict>, k: nat) {
    k < |entries| && !Good(h, entries, k) && forall j | 0 <= j < k :: Good(h, entries, j)
  }

  // ---------------------------------------------------------------- the verification loop

  datatype ChainVerification = ChainVerification(
    verified: bool, entries: nat, firstBadPosition: Option<nat>, headHash: Option<Value>, reason: Option<string>)

  /** What a verification of `entries` must report. */
  ghost predicate Reports(h: Hash, entries: seq<Dict>, r: ChainVerification) {
    && r.entries == |entries|
    && (r.verified <==> Verified(h, entries))
    && (r.verified ==>
          && r.firstBadPosition == None && r.reason == None
          && r.headHash == if entries == [] then None else Some(Get(entries[|entries| - 1], "entry_hash")))
    && (!r.verified ==>
          && r.firstBadPosition.Some? && r.firstBadPosition.value > 0 && r.headHash == None
          && FirstBad(h, entries, r.firstBadPosition.value - 1)
          && r.reason == Some(if LinkOk(entries, r.firstBadPosition.value - 1)
                              then CONTENT_MISMATCH else LINK_MISMATCH))
  }

  const LINK_MISMATCH := "prev_hash link mismatch"
  const CONTENT_MISMATCH := "entry_hash content mismatch"

  lemma BadReport(h: Hash, entries: seq<Dict>, k: nat, reason: string)
    requires k < |entries| && !Good(h, entries, k) && forall j | 0 <= j < k :: Good(h, entries, j)
    requires reason == if LinkOk(entries, k) then CONTENT_MISMATCH else LINK_MISMATCH
    ensures Reports(h, entries, ChainVerification(false, |entries|, Some(k + 1), None, Some(reason)))
  {
  }

  lemma GoodReport(h: Hash, entries: seq<Dict>)
    requires entries != [] && forall j | 0 <= j < |entries| :: Good(h, entries, j)
    ensures Reports(h, entries, ChainVerification(true, |entries|, None,
              Some(Get(entries[|entries| - 1], "entry_hash")), None))
  {
    hide Good, Get;
  }

  /** What the two comparisons of the loop decide. */
  lemma GoodAt(h: Hash, entries: seq<Dict>, k: nat, prev: string)
    requires k < |entries| && ExpectedPrev(entries, k) == Str(prev)
    ensures LinkOk(entries, k) <==> Get(entries[k], "prev_hash") == Str(prev)
    ensures Good(h, entries, k) <==> LinkOk(entries, k)
                                     && Str(ComputeEntryHash(h, prev, entries[k])) == Get(entries[k], "entry_hash")
  {
    hide ComputeEntryHash, Get;
  }

  lemma ExpectedNext(entries: seq<Dict>, k: nat)
    requires k < |entries|
    ensures ExpectedPrev(entries, 0) == Str(GENESIS_HASH)
    ensures k + 1 < |entries| ==> ExpectedPrev(entries, k + 1) == Get(entries[k], "entry_hash")
  {
    hide Get;
  }

  lemma EmptyReport(h: Hash)
    ensures Reports(h, [], ChainVerification(true, 0, None, None, None))
  {
  }

  method VerifyChain(h: Hash, entries: seq<Dict>) returns (r: ChainVerification)
    ensures Reports(h, entries, r)
  {
    hide ComputeEntryHash, Get, LinkOk, ContentOk, Good, Reports, ExpectedPrev, Zeros;
    if entries == [] {
      EmptyReport(h);
      return ChainVerification(true, 0, None, None, None);
    }
    var expectedPrev := GENESIS_HASH;
    ExpectedNext(entries, 0);
    for k := 0 to |entries|
      invariant forall j | 0 <= j < k :: Good(h, entries, j)
      invariant k < |entries| ==> ExpectedPrev(entries, k) == Str(expectedPrev)
      invariant k == |entries| ==> Get(entries[k - 1], "entry_hash") == Str(expectedPrev)
    {
      GoodAt(h, entries, k, expectedPrev);
      ExpectedNext(entries, k);
      var storedPrev, storedHash := Get(entries[k], "prev_hash"), Get(entries[k], "entry_hash");
      if storedPrev != Str(expectedPrev) {
        BadReport(h, entries, k, LINK_MISMATCH);
        return ChainVerification(false, |entries|, Some(k + 1), None, Some(LINK_MISMATCH));
      }
      var recomputed := ComputeEntryHash(h, expectedPrev, entries[k]);
      if Str(recomputed) != storedHash {
        BadReport(h, entries, k, CONTENT_MISMATCH);
        return ChainVerification(false, |entries|, Some(k + 1), None, Some(CONTENT_MISMATCH));
      }
      expectedPrev := storedHash.s;
    }
    GoodReport(h, entries);
    r := ChainVerification(true, |entries|, None, Some(Str(expectedPrev)), None);
  }

  // ---------------------------------------------------------------- the payload

  ghost predicate SameBusiness(a: Dict, b: Dict) {
    forall f | f in HASHED_FIELDS :: Equiv(Get(a, f), Get(b, f))
  }

  lemma {:induction false} GetWellFormed(e: Dict, f: string)
    requires WellFormed(Obj(e))
    ensures WellFormed(Get(e, f))
  {
    if e != [] && e[0].key != f {
      var rest := e[1..];
      forall i | 0 <= i < |rest| ensures WellFormed(rest[i].value) { assert rest[i] == e[i + 1]; }
      GetWellFormed(rest, f);
    }
  }

  lemma FieldsDistinct()
    ensures forall i, j | 0 <= i < j < |HASHED_FIELDS| :: HASHED_FIELDS[i] != HASHED_FIELDS[j]
    ensures "prev_hash" !in HASHED_FIELDS && "entry_hash" !in HASHED_FIELDS
  {
  }

  lemma ViewWellFormed(e: Dict)
    requires WellFormed(Obj(e))
    ensures WellFormed(Obj(BusinessView(e)))
  {
    FieldsDistinct();
    forall f { GetWellFormed(e, f); }
  }

  /** Equal views are equal business fields, and back. */
  lemma ViewEquiv(a: Dict, b: Dict)
    ensures Equiv(Obj(BusinessView(a)), Obj(BusinessView(b))) <==> SameBusiness(a, b)
  {
    FieldsDistinct();
    hide Equiv, Get, Project;
    if Equiv(Obj(BusinessView(a)), Obj(BusinessView(b))) { ViewsAgree(a, b, HASHED_FIELDS); }
    if SameBusiness(a, b) { FieldsAgree(a, b, HASHED_FIELDS); }
  }

  /** A member of `ms` has the same key and an equal value. */
  ghost predicate Matched(m: Member, ms: Dict) {
    exists j | 0 <= j < |ms| :: ms[j].key == m.key && Equiv(m.value, ms[j].value)
  }

  lemma EquivMembers(a: Dict, b: Dict)
    ensures Equiv(Obj(a), Obj(b)) <==> |a| == |b| && forall i | 0 <= i < |a| :: Matched(a[i], b)
  {
    if |a| == |b| && forall i | 0 <= i < |a| :: Matched(a[i], b) {
      forall i | 0 <= i < |a| ensures exists j | 0 <= j < |b| :: b[j].key == a[i].key && Equiv(a[i].value, b[j].value) {
        assert Matched(a[i], b);
      }
    }
  }

  lemma ViewsAgree(a: Dict, b: Dict, fields: seq<string>)
    requires forall i, j | 0 <= i < j < |fields| :: fields[i] != fields[j]
    requires Equiv(Obj(Project(a, fields)), Obj(Project(b, fields)))
    ensures forall f | f in fields :: Equiv(Get(a, f), Get(b, f))
  {
    var va, vb := Project(a, fields), Project(b, fields);
    EquivMembers(va, vb);
    hide Get, Equiv, Project;
    forall f | f in fields ensures Equiv(Get(a, f), Get(b, f)) {
      var i :| 0 <= i < |fields| && fields[i] == f;
      assert Matched(va[i], vb);
      var j :| 0 <= j < |vb| && vb[j].key == va[i].key && Equiv(va[i].value, vb[j].value);
      assert i == j;
    }
  }

  lemma FieldsAgree(a: Dict, b: Dict, fields: seq<string>)
    requires forall f | f in fields :: Equiv(Get(a, f), Get(b, f))
    ensures Equiv(Obj(Project(a, fields)), Obj(Project(b, fields)))
  {
    var va, vb := Project(a, fields), Project(b, fields);
    EquivMembers(va, vb);
    hide Get, Equiv, Project;
    forall i | 0 <= i < |va| ensures Matched(va[i], vb) {
      assert fields[i] in fields;
      assert vb[i].key == va[i].key && Equiv(va[i].value, vb[i].value);
    }
  }

  /**
   The hashed payload determines the previous hash and every business field, and
   nothing else enters it: neither the insertion order of a dict nor other keys.
   */
  lemma PayloadDetermines(p: string, a: Dict, q: string, b: Dict)
    requires |p| == |q| == DIGEST_LEN && WellFormed(Obj(a)) && WellFormed(Obj(b))
    ensures Payload(p, a) == Payload(q, b) <==> p == q && SameBusiness(a, b)
  {
    ViewWellFormed(a);
    ViewWellFormed(b);
    var x, y := CanonicalJson(Obj(BusinessView(a))), CanonicalJson(Obj(BusinessView(b)));
    CanonicalIdentifies(Obj(BusinessView(a)), Obj(BusinessView(b)));
    ViewEquiv(a, b);
    if Payload(p, a) == Payload(q, b) {
      assert (p + x)[..DIGEST_LEN] == p && (q + y)[..DIGEST_LEN] == q;
      assert (p + x)[DIGEST_LEN..] == x && (q + y)[DIGEST_LEN..] == y;
    }
  }

  /** Equal business fields hash alike after any previous hash. */
  lemma SameBusinessHash(h: Hash, prev: string, a: Dict, b: Dict)
    requires WellFormed(Obj(a)) && WellFormed(Obj(b)) && SameBusiness(a, b)
    ensures ComputeEntryHash(h, prev, a) == ComputeEntryHash(h, prev, b)
  {
    ViewWellFormed(a);
    ViewWellFormed(b);
    ViewEquiv(a, b);
    CanonicalIdentifies(Obj(BusinessView(a)), Obj(BusinessView(b)));
    hide BusinessView, CanonicalJson, Equiv, WellFormed;
  }

  // ---------------------------------------------------------------- tamper evidence

  /** The payload entry `k` was hashed from. */
  function PayloadAt(entries: seq<Dict>, k: nat): string
    requires k < |entries| && ExpectedPrev(entries, k).Str?
  {
    Payload(ExpectedPrev(entries, k).s, entries[k])
  }

  /**
   Replacing the content of one entry of a verified chain is reported at exactly
   that entry, as a content mismatch, unless the old and the new payload, which
   differ, are a collision; then the chain still verifies.
   */
  lemma TamperReported(h: Hash, entries: seq<Dict>, i: nat, e: Dict)
    requires IsDigest(h) && Verified(h, entries) && i < |entries|
    requires WellFormed(Obj(entries[i])) && WellFormed(Obj(e)) && !SameBusiness(entries[i], e)
    requires Get(e, "prev_hash") == Get(entries[i], "prev_hash")
    requires Get(e, "entry_hash") == Get(entries[i], "entry_hash")
    ensures var tampered := entries[i := e];
            && ExpectedPrev(entries, i).Str? && ExpectedPrev(tampered, i) == ExpectedPrev(entries, i)
            && PayloadAt(tampered, i) != PayloadAt(entries, i)
            && (if h(PayloadAt(tampered, i)) == h(PayloadAt(entries, i)) then Verified(h, tampered)
                else FirstBad(h, tampered, i) && LinkOk(tampered, i))
  {
    var tampered := entries[i := e];
    PrevLength(h, entries, i);
    PayloadDetermines(ExpectedPrev(entries, i).s, entries[i], ExpectedPrev(entries, i).s, e);
    forall k | 0 <= k < |entries| && k != i ensures Good(h, tampered, k) {
      assert Good(h, entries, k);
      GoodElsewhere(h, entries, i, e, k);
    }
    GoodHere(h, entries, i);
    GoodHere(h, tampered, i);
  }

  lemma GoodElsewhere(h: Hash, entries: seq<Dict>, i: nat, e: Dict, k: nat)
    requires i < |entries| && k < |entries| && k != i
    requires Get(e, "entry_hash") == Get(entries[i], "entry_hash")
    ensures Good(h, entries[i := e], k) == Good(h, entries, k)
  {
    assert ExpectedPrev(entries[i := e], k) == ExpectedPrev(entries, k);
  }

  lemma GoodHere(h: Hash, entries: seq<Dict>, k: nat)
    requires k < |entries| && ExpectedPrev(entries, k).Str?
    ensures Good(h, entries, k) <==>
              LinkOk(entries, k) && Get(entries[k], "entry_hash") == Str(h(PayloadAt(entries, k)))
  {
  }

  /** Changing one hashed field of one entry. */
  lemma FieldTamperReported(h: Hash, entries: seq<Dict>, i: nat, f: string, v: Value)
    requires IsDigest(h) && Verified(h, entries) && i < |entries| && f in HASHED_FIELDS
    requires WellFormed(Obj(entries[i])) && WellFormed(v) && !Equiv(Get(entries[i], f), v)
    ensures var tampered := entries[i := Put(entries[i], f, v)];
            && ExpectedPrev(entries, i).Str? && ExpectedPrev(tampered, i) == ExpectedPrev(entries, i)
            && PayloadAt(tampered, i) != PayloadAt(entries, i)
            && (if h(PayloadAt(tampered, i)) == h(PayloadAt(entries, i)) then Verified(h, tampered)
                else FirstBad(h, tampered, i) && LinkOk(tampered, i))
  {
    FieldsDistinct();
    var e := Put(entries[i], f, v);
    PutWellFormed(entries[i], f, v);
    PutGet(entries[i], f, v, f);
    PutGet(entries[i], f, v, "prev_hash");
    PutGet(entries[i], f, v, "entry_hash");
    assert !SameBusiness(entries[i], e);
    TamperReported(h, entries, i, e);
  }

  /** Every report of a chain whose first bad entry is `k`. */
  lemma FirstBadReported(h: Hash, entries: seq<Dict>, k: nat, r: ChainVerification)
    requires FirstBad(h, entries, k) && Reports(h, entries, r)
    ensures r == ChainVerification(false, |entries|, Some(k + 1), None,
                                   Some(if Get(entries[k], "prev_hash") == ExpectedPrev(entries, k)
                                        then "entry_hash content mismatch" else "prev_hash link mismatch"))
  {
    hide Good, Get, ExpectedPrev;
    assert !Verified(h, entries);
    OneFirstBad(h, entries, k, r.firstBadPosition.value - 1);
  }

  lemma OneFirstBad(h: Hash, entries: seq<Dict>, k: nat, b: nat)
    requires FirstBad(h, entries, k) && FirstBad(h, entries, b)
    ensures k == b
  {
    hide Good;
  }

  /** What the loop answers to changed content. */
  lemma TamperAnswered(h: Hash, entries: seq<Dict>, i: nat, e: Dict, r: ChainVerification)
    requires IsDigest(h) && Verified(h, entries) && i < |entries|
    requires WellFormed(Obj(entries[i])) && WellFormed(Obj(e)) && !SameBusiness(entries[i], e)
    requires Get(e, "prev_hash") == Get(entries[i], "prev_hash")
    requires Get(e, "entry_hash") == Get(entries[i], "entry_hash")
    requires Reports(h, entries[i := e], r)
    ensures ExpectedPrev(entries, i).Str? && ExpectedPrev(entries[i := e], i) == ExpectedPrev(entries, i)
    ensures if h(PayloadAt(entries[i := e], i)) == h(PayloadAt(entries, i)) then r.verified
            else r == ChainVerification(false, |entries|, Some(i + 1), None, Some("entry_hash content mismatch"))
  {
    TamperReported(h, entries, i, e);
    hide Good, Verified, FirstBad, PayloadAt, SameBusiness, WellFormed, Get, ExpectedPrev;
    if h(PayloadAt(entries[i := e], i)) != h(PayloadAt(entries, i)) {
      FirstBadReported(h, entries[i := e], i, r);
    }
  }

  /**
   An entry taken out of a verified chain, the last one apart, is reported at its place as
   a broken link, unless it hashed to the very value it was chained from.
   */
  lemma RemovalAnswered(h: Hash, entries: seq<Dict>, i: nat, r: ChainVerification)
    requires Verified(h, entries) && i + 1 < |entries| && Reports(h, entries[..i] + entries[i + 1..], r)
    ensures if Get(entries[i], "entry_hash") == Get(entries[i], "prev_hash") then r.verified
            else r == ChainVerification(false, |entries| - 1, Some(i + 1), None, Some("prev_hash link mismatch"))
  {
    var cut := entries[..i] + entries[i + 1..];
    CutGood(h, entries, i);
    hide Good, Reports, ExpectedPrev, Get;
    if Get(entries[i], "entry_hash") == Get(entries[i], "prev_hash") {
      VerifiedReported(h, cut, r);
    } else {
      assert FirstBad(h, cut, i);
      FirstBadReported(h, cut, i, r);
    }
  }

  /** With entry `i` taken out, only the entry that takes its place can be bad, and only by its link. */
  lemma CutGood(h: Hash, entries: seq<Dict>, i: nat)
    requires Verified(h, entries) && i + 1 < |entries|
    ensures var cut := entries[..i] + entries[i + 1..];
            && (forall k | 0 <= k < |cut| && k != i :: Good(h, cut, k))
            && (Good(h, cut, i) <==> Get(entries[i], "entry_hash") == Get(entries[i], "prev_hash"))
            && (LinkOk(cut, i) <==> Get(entries[i], "entry_hash") == Get(entries[i], "prev_hash"))
  {
    hide ContentOk, Get, ExpectedPrev;
    var cut := entries[..i] + entries[i + 1..];
    CutPlaces(entries, i);
    forall k | 0 <= k < |cut| && k != i ensures Good(h, cut, k) { CutElsewhere(h, entries, i, k); }
    assert Good(h, entries, i) && Good(h, entries, i + 1);
    hide Verified;
    CutHere(h, entries, i, cut);
  }

  lemma CutHere(h: Hash, entries: seq<Dict>, i: nat, cut: seq<Dict>)
    requires i + 1 < |entries| && i < |cut| && LinkOk(entries, i) && Good(h, entries, i + 1)
    requires cut[i] == entries[i + 1] && ExpectedPrev(cut, i) == ExpectedPrev(entries, i)
    requires ExpectedPrev(entries, i + 1) == Get(entries[i], "entry_hash")
    ensures LinkOk(cut, i) <==> Get(entries[i], "entry_hash") == Get(entries[i], "prev_hash")
    ensures Good(h, cut, i) <==> LinkOk(cut, i)
  {
    hide ContentOk, Get, ExpectedPrev;
    if LinkOk(cut, i) { SameGood(h, cut, i, entries, i + 1); }
  }

  lemma CutElsewhere(h: Hash, entries: seq<Dict>, i: nat, k: nat)
    requires Verified(h, entries) && i + 1 < |entries| && k < |entries| - 1 && k != i
    ensures Good(h, entries[..i] + entries[i + 1..], k)
  {
    hide Good, Get, ExpectedPrev;
    var was := if k < i then k else k + 1;
    CutPlaces(entries, i);
    assert Good(h, entries, was);
    SameGood(h, entries[..i] + entries[i + 1..], k, entries, was);
  }

  lemma CutPlaces(entries: seq<Dict>, i: nat)
    requires i + 1 < |entries|
    ensures var cut := entries[..i] + entries[i + 1..];
            && ExpectedPrev(cut, i) == ExpectedPrev(entries, i)
            && ExpectedPrev(entries, i + 1) == Get(entries[i], "entry_hash")
            && cut[i] == entries[i + 1]
            && forall k | 0 <= k < |cut| && k != i ::
                 var was := if k < i then k else k + 1;
                 cut[k] == entries[was] && ExpectedPrev(cut, k) == ExpectedPrev(entries, was)
  {
    hide Get;
  }

  lemma SameGood(h: Hash, entries: seq<Dict>, k: nat, others: seq<Dict>, was: nat)
    requires k < |entries| && was < |others|
    requires entries[k] == others[was] && ExpectedPrev(entries, k) == ExpectedPrev(others, was)
    ensures Good(h, entries, k) == Good(h, others, was)
  {
    hide ComputeEntryHash, Get, ExpectedPrev;
  }

  lemma VerifiedReported(h: Hash, entries: seq<Dict>, r: ChainVerification)
    requires Verified(h, entries) && Reports(h, entries, r)
    ensures r.verified
  {
  }

  lemma PrevLength(h: Hash, entries: seq<Dict>, k: nat)
    requires IsDigest(h) && Verified(h, entries) && k < |entries|
    ensures ExpectedPrev(entries, k).Str? && |ExpectedPrev(entries, k).s| == DIGEST_LEN
  {
    assert Good(h, entries, k);
    if k > 0 { assert Good(h, entries, k - 1); }
  }

  /** Two different payloads, one from each chain, with one digest. */
  ghost predicate CollisionBetween(h: Hash, a: seq<Dict>, b: seq<Dict>) {
    exists i, j | 0 <= i < |a| && 0 <= j < |b| && ExpectedPrev(a, i).Str? && ExpectedPrev(b, j).Str? ::
      PayloadAt(a, i) != PayloadAt(b, j) && h(PayloadAt(a, i)) == h(PayloadAt(b, j))
  }

  /** A payload of the chain whose digest is the genesis value. */
  ghost predicate GenesisPreimage(h: Hash, a: seq<Dict>) {
    exists i | 0 <= i < |a| && ExpectedPrev(a, i).Str? :: h(PayloadAt(a, i)) == GENESIS_HASH
  }

  lemma HashesAt(h: Hash, a: seq<Dict>, k: nat)
    requires IsDigest(h) && Verified(h, a) && k < |a|
    ensures ExpectedPrev(a, k).Str? && |ExpectedPrev(a, k).s| == DIGEST_LEN
    ensures Get(a[k], "entry_hash") == Str(h(PayloadAt(a, k)))
  {
    assert Good(h, a, k);
    PrevLength(h, a, k);
  }

  lemma PayloadPrefix(p: string, a: Dict, q: string, b: Dict)
    requires |p| == |q| && Payload(p, a) == Payload(q, b)
    ensures p == q
  {
    assert Payload(p, a)[..|p|] == p && Payload(q, b)[..|q|] == q;
  }

  lemma NoCollision(h: Hash, a: seq<Dict>, b: seq<Dict>, i: nat, j: nat)
    requires i < |a| && j < |b| && ExpectedPrev(a, i).Str? && ExpectedPrev(b, j).Str?
    requires !CollisionBetween(h, a, b) && h(PayloadAt(a, i)) == h(PayloadAt(b, j))
    ensures PayloadAt(a, i) == PayloadAt(b, j)
  {
  }

  ghost predicate SameHead(a: seq<Dict>, b: seq<Dict>) {
    a != [] && b != [] && Get(a[|a| - 1], "entry_hash") == Get(b[|b| - 1], "entry_hash")
  }

  /** Counted back from a shared head, the payloads agree. */
  lemma {:induction false} MatchBack(h: Hash, a: seq<Dict>, b: seq<Dict>, d: nat)
    requires IsDigest(h) && Verified(h, a) && Verified(h, b)
    requires SameHead(a, b) && !CollisionBetween(h, a, b) && d < |a| && d < |b|
    ensures var i, j := |a| - 1 - d, |b| - 1 - d;
            && ExpectedPrev(a, i).Str? && ExpectedPrev(a, i) == ExpectedPrev(b, j)
            && |ExpectedPrev(a, i).s| == DIGEST_LEN
            && PayloadAt(a, i) == PayloadAt(b, j)
  {
    hide Verified, CollisionBetween, PayloadAt, Payload, Get;
    var i, j := |a| - 1 - d, |b| - 1 - d;
    HashesAt(h, a, i);
    HashesAt(h, b, j);
    if d > 0 {
      MatchBack(h, a, b, d - 1);
      assert ExpectedPrev(a, i + 1) == ExpectedPrev(b, j + 1);
    }
    hide ExpectedPrev;
    NoCollision(h, a, b, i, j);
    SamePrefix(a, b, i, j);
  }

  lemma SamePrefix(a: seq<Dict>, b: seq<Dict>, i: nat, j: nat)
    requires i < |a| && j < |b| && ExpectedPrev(a, i).Str? && ExpectedPrev(b, j).Str?
    requires |ExpectedPrev(a, i).s| == |ExpectedPrev(b, j).s| && PayloadAt(a, i) == PayloadAt(b, j)
    ensures ExpectedPrev(a, i) == ExpectedPrev(b, j)
  {
    hide ExpectedPrev, Payload;
    PayloadPrefix(ExpectedPrev(a, i).s, a[i], ExpectedPrev(b, j).s, b[j]);
  }

  lemma SameLength(h: Hash, a: seq<Dict>, b: seq<Dict>)
    requires IsDigest(h) && Verified(h, a) && Verified(h, b) && |a| < |b|
    requires SameHead(a, b) && !CollisionBetween(h, a, b)
    ensures GenesisPreimage(h, b)
  {
    MatchBack(h, a, b, |a| - 1);
    var j := |b| - |a|;
    assert ExpectedPrev(b, j) == Str(GENESIS_HASH);
    HashesAt(h, b, j - 1);
    assert h(PayloadAt(b, j - 1)) == GENESIS_HASH;
  }

  lemma CollisionSymmetric(h: Hash, a: seq<Dict>, b: seq<Dict>)
    ensures CollisionBetween(h, b, a) ==> CollisionBetween(h, a, b)
  {
    if CollisionBetween(h, b, a) {
      var j, i :| 0 <= j < |b| && 0 <= i < |a| && ExpectedPrev(b, j).Str? && ExpectedPrev(a, i).Str?
        && PayloadAt(b, j) != PayloadAt(a, i) && h(PayloadAt(b, j)) == h(PayloadAt(a, i));
      assert PayloadAt(a, i) != PayloadAt(b, j) && h(PayloadAt(a, i)) == h(PayloadAt(b, j));
    }
  }

  ghost predicate AllWellFormed(entries: seq<Dict>) {
    forall e | e in entries :: WellFormed(Obj(e))
  }

  /**
   The head commits to the whole history: two verified chains with the same head
   hold the same business fields, entry by entry, unless their own payloads exhibit
   a collision or a preimage of the genesis value.
   */
  lemma HeadCommits(h: Hash, a: seq<Dict>, b: seq<Dict>)
    requires IsDigest(h) && Verified(h, a) && Verified(h, b) && SameHead(a, b)
    requires AllWellFormed(a) && AllWellFormed(b)
    ensures || (|a| == |b| && forall i | 0 <= i < |a| :: SameBusiness(a[i], b[i]))
            || CollisionBetween(h, a, b) || GenesisPreimage(h, a) || GenesisPreimage(h, b)
  {
    if !CollisionBetween(h, a, b) {
      CollisionSymmetric(h, a, b);
      if |a| < |b| {
        SameLength(h, a, b);
      } else if |b| < |a| {
        SameLength(h, b, a);
      } else {
        forall i | 0 <= i < |a| ensures SameBusiness(a[i], b[i]) {
          MatchBack(h, a, b, |a| - 1 - i);
          assert a[i] in a && b[i] in b;
          PayloadDetermines(ExpectedPrev(a, i).s, a[i], ExpectedPrev(b, i).s, b[i]);
        }
      }
    }
  }
}
