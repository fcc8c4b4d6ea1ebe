/**
 The prediction cache of `app/repositories/http/model_service.py`: callers on one
 event loop, each running from one `await` to the next without interruption, share
 a cache with a time to live and one lock.
 */
module Cache {
  import opened Common

  /** A Python float: JSON answers may hold the non-finite ones too. */
  datatype Float = Finite(r: real) | Infinity | MinusInfinity | NaN

  predicate Less(x: Float, y: Float) {
    if x.NaN? || y.NaN? then false
    else if x.Finite? && y.Finite? then x.r < y.r
    else x != y && (x.MinusInfinity? || y.Infinity?)
  }

  /** `min(a, b)` and `max(a, b)`: the first argument unless the second is strictly better. */
  function PyMin(a: Float, b: Float): Float {
    if Less(b, a) then b else a
  }

  function PyMax(a: Float, b: Float): Float {
    if Less(a, b) then b else a
  }

  datatype Prediction = Prediction(dv: Float, state: string, version: Option<string>)

  /** An answer: its score, if present and a number, and whether its other fields are usable. */
  datatype Body = Body(score: Option<Float>, state: string, usable: bool)

  /** Whatever the service answers, the degradation value is a number from 0 to 1; not-a-number becomes 1. */
  function ToPrediction(b: Body, version: Option<string>): (r: Option<Prediction>)
    ensures r.Some? ==> InUnit(r.value) && r.value.version == version
    ensures r.Some? <==> b.score.Some? && b.usable
    ensures r.Some? ==> r.value.state == b.state
    ensures r.Some? && b.score.value.Finite? ==> r.value.dv == Finite(Max(0.0, Min(1.0, b.score.value.r)))
    ensures r.Some? && b.score.value.MinusInfinity? ==> r.value.dv == Finite(0.0)
    ensures r.Some? && (b.score.value.Infinity? || b.score.value.NaN?) ==> r.value.dv == Finite(1.0)
  {
    if b.score.None? || !b.usable then None
    else Some(Prediction(PyMax(Finite(0.0), PyMin(Finite(1.0), b.score.value)), b.state, version))
  }

  predicate InUnit(p: Prediction) {
    p.dv.Finite? && 0.0 <= p.dv.r <= 1.0
  }

  // ---------------------------------------------------------------- callers

  datatype Answer = Returned(p: Prediction) | Failed | Cancelled

  /** Where a caller is suspended. */
  datatype Phase =
    | Waiting(device: string)
    | Requesting(device: string)
    | AskingVersion(device: string, body: Body, since: real)
    | Ended(device: string, answer: Answer, at: real)

  datatype Hit = Hit(at: real, p: Prediction)

  datatype VersionHit = VersionHit(at: real, version: Option<string>)

  /** Predict requests sent and answers stored, in order, and for which caller. */
  datatype Mark =
    | Started(device: string, at: real, caller: nat)
    | Stored(device: string, at: real, caller: nat, body: Body, p: Prediction)

  datatype World = World(
    now: real, cache: map<string, Hit>, version: Option<VersionHit>, lock: Option<nat>, callers: seq<Phase>,
    history: seq<Mark>)

  const INFO_TTL := 300.0

  datatype Event =
    | Tick(dt: real)
    | Call(device: string)
    | Enter(c: nat)
    | Predicted(c: nat, body: Option<Body>)
    | Versioned(c: nat, version: Option<Option<string>>)
    | Cancel(c: nat)
    | VersionElsewhere(hit: VersionHit)

  predicate Fresh(w: World, device: string, ttl: real) {
    device in w.cache && w.now - w.cache[device].at < ttl
  }

  function End(w: World, c: nat, a: Answer): World
    requires c < |w.callers|
  {
    w.(callers := w.callers[c := Ended(w.callers[c].device, a, w.now)],
       lock := if w.lock == Some(c) then None else w.lock)
  }

  /** `_to_prediction`, then the store; both still under the lock. */
  function Store(w: World, c: nat, device: string, body: Body, version: Option<string>): World
    requires c < |w.callers|
  {
    var p := ToPrediction(body, version);
    if p.None? then End(w, c, Failed)
    else End(Kept(w, Stored(device, w.now, c, body, p.value)), c, Returned(p.value))
  }

  /** The answer cached, in place of an earlier one for its device. */
  function Kept(w: World, m: Mark): World
    requires m.Stored?
  {
    w.(cache := w.cache[m.device := Hit(m.at, m.p)], history := w.history + [m])
  }

  /** An event that cannot happen in a state leaves it as it is. */
  function Step(w: World, ttl: real, ev: Event): World {
    match ev
    case Tick(dt) => if dt >= 0.0 then w.(now := w.now + dt) else w
    case Call(device) =>
      w.(callers := w.callers + [if Fresh(w, device, ttl) then Ended(device, Returned(w.cache[device].p), w.now)
                                 else Waiting(device)])
    case Enter(c) =>
      if c < |w.callers| && w.callers[c].Waiting? && w.lock.None? then EnterLock(w, ttl, c, w.callers[c].device) else w
    case Predicted(c, body) =>
      if c < |w.callers| && w.callers[c].Requesting? then
        if body.None? then End(w, c, Failed)
        else if w.version.Some? && w.now - w.version.value.at < INFO_TTL then
          Store(w, c, w.callers[c].device, body.value, w.version.value.version)
        else w.(callers := w.callers[c := AskingVersion(w.callers[c].device, body.value, w.now)])
      else w
    case Versioned(c, version) =>
      if c < |w.callers| && w.callers[c].AskingVersion? then
        var ph := w.callers[c];
        var known := if version.Some? then Some(VersionHit(ph.since, version.value)) else w.version;
        Store(w.(version := known), c, ph.device, ph.body, if known.Some? then known.value.version else None)
      else w
    case Cancel(c) => if c < |w.callers| && !w.callers[c].Ended? then End(w, c, Cancelled) else w
    case VersionElsewhere(hit) => w.(version := Some(hit))
  }

  /** The lock is taken and the cache looked at again. */
  function EnterLock(w: World, ttl: real, c: nat, device: string): World
    requires c < |w.callers|
  {
    if Fresh(w, device, ttl) then End(w.(lock := Some(c)), c, Returned(w.cache[device].p))
    else
      w.(lock := Some(c), callers := w.callers[c := Requesting(device)],
         history := w.history + [Started(device, w.now, c)])
  }

  // ---------------------------------------------------------------- the invariant

  predicate Busy(ph: Phase) {
    ph.Requesting? || ph.AskingVersion?
  }

  /** The lock is held by the one caller with a request under way, and by nobody when there is none. */
  ghost predicate LockIsBusy(w: World) {
    forall c: nat | c < |w.callers| :: Busy(w.callers[c]) <==> w.lock == Some(c)
  }

  ghost predicate AnswersInUnit(w: World) {
    && (forall d <- w.cache :: InUnit(w.cache[d].p))
    && forall c: nat | c < |w.callers| && w.callers[c].Ended? && w.callers[c].answer.Returned? ::
         InUnit(w.callers[c].answer.p)
  }

  /** The cache holds the last answer stored for a device, and only the past is recorded. */
  ghost predicate CacheIsLast(w: World) {
    forall i: nat | i < |w.history| :: PastMark(w, w.history[i])
  }

  predicate PastMark(w: World, m: Mark) {
    && m.at <= w.now
    && (m.Stored? ==> m.device in w.cache && m.at <= w.cache[m.device].at)
  }

  ghost predicate Spaced(w: World, ttl: real) {
    forall i: nat, j: nat | i < j < |w.history| && After(w.history[i], w.history[j]) ::
      w.history[j].at >= w.history[i].at + ttl
  }

  /** A request for a device after an answer stored for it. */
  predicate After(m: Mark, n: Mark) {
    m.Stored? && n.Started? && m.device == n.device
  }

  ghost predicate Inv(w: World, ttl: real) {
    && (w.lock.Some? ==> w.lock.value < |w.callers|)
    && LockIsBusy(w) && AnswersInUnit(w) && CacheIsLast(w) && Spaced(w, ttl)
    && forall d <- w.cache :: w.cache[d].at <= w.now
  }

  /** Ending a caller, its lock given back, keeps everything. */
  lemma EndKeeps(w: World, ttl: real, c: nat, a: Answer)
    requires c < |w.callers| && Inv(w, ttl) && (a.Returned? ==> InUnit(a.p))
    ensures Inv(End(w, c, a), ttl)
  {
    hide Spaced, InUnit;
    var n := End(w, c, a);
    assert forall i: nat | i < |n.history| :: PastMark(w, w.history[i]) ==> PastMark(n, n.history[i]);
    SpacedSame(w, n, ttl);
  }

  lemma SpacedSame(w: World, n: World, ttl: real)
    requires Spaced(w, ttl) && n.history == w.history
    ensures Spaced(n, ttl)
  {
  }

  lemma SpacedMore(w: World, n: World, ttl: real, m: Mark)
    requires Spaced(w, ttl) && n.history == w.history + [m]
    requires forall i: nat | i < |w.history| && After(w.history[i], m) :: m.at >= w.history[i].at + ttl
    ensures Spaced(n, ttl)
  {
    hide After;
    forall i: nat, j: nat | i < j < |n.history| && After(n.history[i], n.history[j])
      ensures n.history[j].at >= n.history[i].at + ttl
    {
      assert n.history[i] == w.history[i];
      if j < |w.history| { assert n.history[j] == w.history[j]; }
    }
  }

  lemma StoreHitKeeps(w: World, ttl: real, m: Mark)
    requires Inv(w, ttl) && m.Stored? && m.at == w.now && InUnit(m.p)
    ensures Inv(Kept(w, m), ttl)
  {
    var n := Kept(w, m);
    hide Spaced, InUnit;
    forall i: nat | i < |n.history| ensures PastMark(n, n.history[i]) {
      if i < |w.history| { assert PastMark(w, w.history[i]); }
    }
    SpacedMore(w, n, ttl, m);
  }

  lemma StoreKeeps(w: World, ttl: real, c: nat, device: string, body: Body, version: Option<string>)
    requires c < |w.callers| && Inv(w, ttl)
    ensures Inv(Store(w, c, device, body, version), ttl)
  {
    var p := ToPrediction(body, version);
    hide Inv, End, ToPrediction, Kept;
    if p.None? {
      EndKeeps(w, ttl, c, Failed);
    } else {
      var m := Stored(device, w.now, c, body, p.value);
      StoreHitKeeps(w, ttl, m);
      KeptCallers(w, m);
      EndKeeps(Kept(w, m), ttl, c, Returned(p.value));
    }
  }

  lemma KeptCallers(w: World, m: Mark)
    requires m.Stored?
    ensures Kept(w, m).callers == w.callers && Kept(w, m).now == w.now
  {
  }

  /** A request starts only when every answer stored for its device has outlived its time. */
  lemma StartKeeps(w: World, ttl: real, c: nat, device: string)
    requires c < |w.callers| && Inv(w, ttl) && w.callers[c].Waiting? && w.lock.None? && !Fresh(w, device, ttl)
    ensures Inv(EnterLock(w, ttl, c, device), ttl)
  {
    var n := EnterLock(w, ttl, c, device);
    var m := Started(device, w.now, c);
    hide Spaced, InUnit;
    forall i: nat | i < |n.history| ensures PastMark(n, n.history[i]) {
      if i < |w.history| { assert PastMark(w, w.history[i]); }
    }
    forall i: nat | i < |w.history| && After(w.history[i], m) ensures m.at >= w.history[i].at + ttl {
      assert PastMark(w, w.history[i]);
    }
    SpacedMore(w, n, ttl, m);
  }

  /** A caller that finds a fresh answer under the lock takes it and gives the lock back at once. */
  lemma HitKeeps(w: World, ttl: real, c: nat, device: string)
    requires c < |w.callers| && Inv(w, ttl) && w.callers[c].Waiting? && w.lock.None? && Fresh(w, device, ttl)
    ensures Inv(EnterLock(w, ttl, c, device), ttl)
  {
    hide Spaced, InUnit;
    var n := EnterLock(w, ttl, c, device);
    assert forall i: nat | i < |n.history| :: PastMark(w, w.history[i]) ==> PastMark(n, n.history[i]);
    SpacedSame(w, n, ttl);
  }

  lemma CallKeeps(w: World, ttl: real, device: string)
    requires Inv(w, ttl)
    ensures Inv(Step(w, ttl, Call(device)), ttl)
  {
    hide Spaced, InUnit;
    var n := Step(w, ttl, Call(device));
    assert forall i: nat | i < |n.history| :: PastMark(w, w.history[i]) ==> PastMark(n, n.history[i]);
    SpacedSame(w, n, ttl);
  }

  lemma VersionKeeps(w: World, ttl: real, version: Option<VersionHit>)
    requires Inv(w, ttl)
    ensures Inv(w.(version := version), ttl)
  {
    hide Spaced, InUnit;
    var n := w.(version := version);
    assert forall i: nat | i < |n.history| :: PastMark(w, w.history[i]) ==> PastMark(n, n.history[i]);
    SpacedSame(w, n, ttl);
  }

  lemma TickKeeps(w: World, ttl: real, dt: real)
    requires Inv(w, ttl) && dt >= 0.0
    ensures Inv(w.(now := w.now + dt), ttl)
  {
    hide Spaced, InUnit;
    var n := w.(now := w.now + dt);
    assert forall i: nat | i < |n.history| :: PastMark(w, w.history[i]) ==> PastMark(n, n.history[i]);
    SpacedSame(w, n, ttl);
  }

  lemma AskKeeps(w: World, ttl: real, c: nat, body: Body)
    requires c < |w.callers| && Inv(w, ttl) && w.callers[c].Requesting?
    ensures Inv(w.(callers := w.callers[c := AskingVersion(w.callers[c].device, body, w.now)]), ttl)
  {
    hide Spaced, InUnit;
    var n := w.(callers := w.callers[c := AskingVersion(w.callers[c].device, body, w.now)]);
    assert forall i: nat | i < |n.history| :: PastMark(w, w.history[i]) ==> PastMark(n, n.history[i]);
    SpacedSame(w, n, ttl);
  }

  lemma StepKeeps(w: World, ttl: real, ev: Event)
    requires Inv(w, ttl)
    ensures Inv(Step(w, ttl, ev), ttl)
  {
    hide Inv, Store, End, EnterLock;
    match ev
    case Tick(dt) => if dt >= 0.0 { TickKeeps(w, ttl, dt); }
    case Call(device) => CallKeeps(w, ttl, device);
    case Enter(c) =>
      if c < |w.callers| && w.callers[c].Waiting? && w.lock.None? {
        if Fresh(w, w.callers[c].device, ttl) { HitKeeps(w, ttl, c, w.callers[c].device); }
        else { StartKeeps(w, ttl, c, w.callers[c].device); }
      }
    case Predicted(c, body) =>
      if c < |w.callers| && w.callers[c].Requesting? {
        if body.None? { EndKeeps(w, ttl, c, Failed); }
        else {
          AskKeeps(w, ttl, c, body.value);
          StoreKeeps(w, ttl, c, w.callers[c].device, body.value,
                     if w.version.Some? then w.version.value.version else None);
        }
      }
    case Versioned(c, version) =>
      if c < |w.callers| && w.callers[c].AskingVersion? {
        var ph := w.callers[c];
        var known := if version.Some? then Some(VersionHit(ph.since, version.value)) else w.version;
        VersionKeeps(w, ttl, known);
        StoreKeeps(w.(version := known), ttl, c, ph.device, ph.body, if known.Some? then known.value.version else None);
      }
    case Cancel(c) =>
      if c < |w.callers| && !w.callers[c].Ended? { EndKeeps(w, ttl, c, Cancelled); }
    case VersionElsewhere(hit) => VersionKeeps(w, ttl, Some(hit));
  }

  // ---------------------------------------------------------------- every interleaving

  const START := World(0.0, map[], None, None, [], [])

  function Run(ttl: real, evs: seq<Event>): World
    decreases |evs|
  {
    if evs == [] then START else Step(Run(ttl, evs[..|evs| - 1]), ttl, evs[|evs| - 1])
  }

  /** The invariant holds in every interleaving of any number of callers. */
  lemma {:induction false} RunKeeps(ttl: real, evs: seq<Event>)
    ensures Inv(Run(ttl, evs), ttl)
    decreases |evs|
  {
    if evs != [] {
      RunKeeps(ttl, evs[..|evs| - 1]);
      StepKeeps(Run(ttl, evs[..|evs| - 1]), ttl, evs[|evs| - 1]);
      hide Step, Inv;
    }
  }

  // ---------------------------------------------------------------- where a value comes from

  predicate StoredFor(m: Mark, device: string) {
    m.Stored? && m.device == device
  }

  /** The last answer stored for a device. */
  function LastStored(h: seq<Mark>, device: string): (r: Option<nat>)
    ensures r.Some? ==> r.value < |h| && StoredFor(h[r.value], device)
    ensures r.Some? ==> forall i | r.value < i < |h| :: !StoredFor(h[i], device)
    ensures r.None? ==> forall i | 0 <= i < |h| :: !StoredFor(h[i], device)
  {
    if h == [] then None
    else if StoredFor(h[|h| - 1], device) then Some(|h| - 1)
    else LastStored(h[..|h| - 1], device)
  }

  lemma LastStoredNext(h: seq<Mark>, m: Mark, device: string)
    ensures LastStored(h + [m], device) == if StoredFor(m, device) then Some(|h|) else LastStored(h, device)
  {
    assert (h + [m])[..|h|] == h;
  }

  /** The cache holds, for each device, the last answer stored for it. */
  predicate TellsOf(w: World, device: string) {
    var i := LastStored(w.history, device);
    && (device in w.cache <==> i.Some?)
    && (i.Some? ==> w.cache[device] == Hit(w.history[i.value].at, w.history[i.value].p))
  }

  ghost predicate CacheTells(w: World) {
    forall device: string :: TellsOf(w, device)
  }

  /**
   The answer `m` is what caller `c` returned: the one its own request brought, just then,
   or one stored for its device less than the time to live before.
   */
  predicate IsSource(m: Mark, c: nat, ph: Phase, ttl: real)
    requires ph.Ended? && ph.answer.Returned?
  {
    && StoredFor(m, ph.device) && m.p == ph.answer.p && m.at <= ph.at
    && ((m.caller == c && m.at == ph.at) || ph.at - m.at < ttl)
  }

  predicate HasReturned(w: World, c: nat) {
    c < |w.callers| && w.callers[c].Ended? && w.callers[c].answer.Returned?
  }

  ghost predicate SourceOf(w: World, ttl: real, c: nat)
    requires HasReturned(w, c)
  {
    exists i: nat | i < |w.history| :: IsSource(w.history[i], c, w.callers[c], ttl)
  }

  ghost predicate Sourced(w: World, ttl: real) {
    forall c: nat | HasReturned(w, c) :: SourceOf(w, ttl, c)
  }

  /** Callers that returned before keep their source; one that returns now has to have one. */
  lemma SourcedMore(w: World, n: World, ttl: real)
    requires Sourced(w, ttl) && w.history <= n.history
    requires forall c: nat | HasReturned(n, c) ::
               (HasReturned(w, c) && n.callers[c] == w.callers[c]) || SourceOf(n, ttl, c)
    ensures Sourced(n, ttl)
  {
    hide IsSource;
    forall c: nat | HasReturned(n, c) ensures SourceOf(n, ttl, c) {
      if HasReturned(w, c) && n.callers[c] == w.callers[c] {
        assert SourceOf(w, ttl, c);
        var i: nat :| i < |w.history| && IsSource(w.history[i], c, w.callers[c], ttl);
        assert n.history[i] == w.history[i];
      }
    }
  }

  lemma TellsSame(w: World, n: World)
    requires CacheTells(w) && n.history == w.history && n.cache == w.cache
    ensures CacheTells(n)
  {
    hide LastStored;
    forall device: string ensures TellsOf(n, device) { assert TellsOf(w, device); }
  }

  lemma TellsStarted(w: World, n: World, m: Mark)
    requires CacheTells(w) && m.Started? && n.history == w.history + [m] && n.cache == w.cache
    ensures CacheTells(n)
  {
    hide LastStored;
    forall device: string ensures TellsOf(n, device) {
      assert TellsOf(w, device);
      LastStoredNext(w.history, m, device);
    }
  }

  lemma TellsStored(w: World, m: Mark)
    requires CacheTells(w) && m.Stored?
    ensures CacheTells(Kept(w, m))
  {
    hide LastStored;
    forall device: string ensures TellsOf(Kept(w, m), device) {
      assert TellsOf(w, device);
      LastStoredNext(w.history, m, device);
    }
  }

  /** A fresh answer in the cache is a source. */
  lemma HitIsSource(w: World, n: World, ttl: real, c: nat, device: string)
    requires Inv(w, ttl) && CacheTells(w) && Fresh(w, device, ttl) && n.history == w.history
    requires HasReturned(n, c) && n.callers[c] == Ended(device, Returned(w.cache[device].p), w.now)
    ensures SourceOf(n, ttl, c)
  {
    assert TellsOf(w, device);
    var i := LastStored(w.history, device).value;
    hide LastStored;
    assert IsSource(n.history[i], c, n.callers[c], ttl);
  }

  lemma EndSourced(w: World, ttl: real, c: nat, a: Answer)
    requires c < |w.callers| && !a.Returned? && CacheTells(w) && Sourced(w, ttl)
    ensures CacheTells(End(w, c, a)) && Sourced(End(w, c, a), ttl)
  {
    TellsSame(w, End(w, c, a));
    hide CacheTells, SourceOf;
    assert forall d: nat | HasReturned(End(w, c, a), d) :: HasReturned(w, d);
    SourcedMore(w, End(w, c, a), ttl);
  }

  lemma StoreSourced(w: World, ttl: real, c: nat, device: string, body: Body, version: Option<string>)
    requires c < |w.callers| && w.callers[c].device == device && CacheTells(w) && Sourced(w, ttl)
    ensures var n := Store(w, c, device, body, version); CacheTells(n) && Sourced(n, ttl)
  {
    var p := ToPrediction(body, version);
    if p.None? {
      EndSourced(w, ttl, c, Failed);
    } else {
      var m := Stored(device, w.now, c, body, p.value);
      var n := Store(w, c, device, body, version);
      TellsStored(w, m);
      TellsSame(Kept(w, m), n);
      hide ToPrediction, CacheTells, Sourced;
      assert n.history == w.history + [m] && n.callers == w.callers[c := Ended(device, Returned(p.value), w.now)];
      assert n.history[|w.history|] == m && IsSource(m, c, n.callers[c], ttl);
      hide Store;
      assert forall d: nat | HasReturned(n, d) && d != c :: HasReturned(w, d) && n.callers[d] == w.callers[d];
      SourcedMore(w, n, ttl);
    }
  }

  lemma StepSourced(w: World, ttl: real, ev: Event)
    requires Inv(w, ttl) && CacheTells(w) && Sourced(w, ttl)
    ensures CacheTells(Step(w, ttl, ev)) && Sourced(Step(w, ttl, ev), ttl)
  {
    hide Inv, CacheTells, Sourced, SourceOf, Store, End, ToPrediction;
    var n := Step(w, ttl, ev);
    match ev
    case Tick(dt) =>
      TellsSame(w, n);
      SourcedMore(w, n, ttl);
    case Call(device) =>
      TellsSame(w, n);
      if Fresh(w, device, ttl) { HitIsSource(w, n, ttl, |w.callers|, device); }
      SourcedMore(w, n, ttl);
    case Enter(c) => EnterSourced(w, ttl, c);
    case Predicted(c, body) =>
      if c < |w.callers| && w.callers[c].Requesting? {
        if body.None? { EndSourced(w, ttl, c, Failed); }
        else if w.version.Some? && w.now - w.version.value.at < INFO_TTL {
          StoreSourced(w, ttl, c, w.callers[c].device, body.value, w.version.value.version);
        } else {
          TellsSame(w, n);
          SourcedMore(w, n, ttl);
        }
      }
    case Versioned(c, version) =>
      if c < |w.callers| && w.callers[c].AskingVersion? {
        var ph := w.callers[c];
        var known := if version.Some? then Some(VersionHit(ph.since, version.value)) else w.version;
        var k := w.(version := known);
        TellsSame(w, k);
        SourcedMore(w, k, ttl);
        StoreSourced(k, ttl, c, ph.device, ph.body, if known.Some? then known.value.version else None);
      }
    case Cancel(c) =>
      if c < |w.callers| && !w.callers[c].Ended? { EndSourced(w, ttl, c, Cancelled); }
    case VersionElsewhere(hit) =>
      TellsSame(w, n);
      SourcedMore(w, n, ttl);
  }

  lemma EnterSourced(w: World, ttl: real, c: nat)
    requires Inv(w, ttl) && CacheTells(w) && Sourced(w, ttl)
    ensures CacheTells(Step(w, ttl, Enter(c))) && Sourced(Step(w, ttl, Enter(c)), ttl)
  {
    hide Inv, CacheTells, Sourced, SourceOf, Store;
    var n := Step(w, ttl, Enter(c));
    if c < |w.callers| && w.callers[c].Waiting? && w.lock.None? {
      var device := w.callers[c].device;
      if Fresh(w, device, ttl) {
        TellsSame(w, n);
        HitIsSource(w, n, ttl, c, device);
      } else {
        TellsStarted(w, n, Started(device, w.now, c));
      }
      SourcedMore(w, n, ttl);
    }
  }

  lemma {:induction false} RunSourced(ttl: real, evs: seq<Event>)
    ensures CacheTells(Run(ttl, evs)) && Sourced(Run(ttl, evs), ttl)
    decreases |evs|
  {
    if evs != [] {
      RunSourced(ttl, evs[..|evs| - 1]);
      RunKeeps(ttl, evs[..|evs| - 1]);
      StepSourced(Run(ttl, evs[..|evs| - 1]), ttl, evs[|evs| - 1]);
      hide Step, Inv, CacheTells, Sourced;
    }
  }

  /**
   In every interleaving: what a caller returned is the answer its own request brought, or
   one stored for the same device less than the time to live before it returned.
   */
  lemma ReturnsFreshOrOwn(ttl: real, evs: seq<Event>, c: nat)
    requires HasReturned(Run(ttl, evs), c)
    ensures var w := Run(ttl, evs);
            exists i: nat | i < |w.history| :: IsSource(w.history[i], c, w.callers[c], ttl)
  {
    RunSourced(ttl, evs);
    hide Run, CacheTells, IsSource;
    assert SourceOf(Run(ttl, evs), ttl, c);
  }

  ghost predicate Answered(evs: seq<Event>, c: nat, body: Body) {
    Predicted(c, Some(body)) in evs
  }

  /** Every answer in use is one the service gave the caller it was stored for. */
  ghost predicate FromService(w: World, evs: seq<Event>) {
    && (forall i: nat | i < |w.history| && w.history[i].Stored? ::
          Answered(evs, w.history[i].caller, w.history[i].body)
          && ToPrediction(w.history[i].body, w.history[i].p.version) == Some(w.history[i].p))
    && forall c: nat | c < |w.callers| && w.callers[c].AskingVersion? :: Answered(evs, c, w.callers[c].body)
  }

  lemma FromServiceSame(w: World, n: World, evs: seq<Event>, more: seq<Event>)
    requires FromService(w, evs) && evs <= more
    requires n.history == w.history || exists m: Mark | m.Started? :: n.history == w.history + [m]
    requires forall c: nat | c < |n.callers| && n.callers[c].AskingVersion? ::
               (c < |w.callers| && n.callers[c] == w.callers[c]) || Answered(more, c, n.callers[c].body)
    ensures FromService(n, more)
  {
    forall ev | ev in evs ensures ev in more {
      var k :| 0 <= k < |evs| && evs[k] == ev;
      assert more[k] == ev;
    }
  }

  lemma FromServiceStored(w: World, evs: seq<Event>, more: seq<Event>, c: nat, device: string, body: Body,
                          version: Option<string>)
    requires c < |w.callers| && FromService(w, evs) && evs <= more && Answered(more, c, body)
    ensures FromService(Store(w, c, device, body, version), more)
  {
    hide ToPrediction;
    var p := ToPrediction(body, version);
    var n := Store(w, c, device, body, version);
    forall ev | ev in evs ensures ev in more {
      var k :| 0 <= k < |evs| && evs[k] == ev;
      assert more[k] == ev;
    }
    if p.Some? { VersionKept(body, version); }
  }

  lemma VersionKept(body: Body, version: Option<string>)
    ensures ToPrediction(body, version).Some? ==> ToPrediction(body, version).value.version == version
  {
  }

  lemma {:induction false} RunFromService(ttl: real, evs: seq<Event>)
    ensures FromService(Run(ttl, evs), evs)
    decreases |evs|
  {
    if evs != [] {
      var front, ev := evs[..|evs| - 1], evs[|evs| - 1];
      assert front <= evs && ev in evs;
      RunFromService(ttl, front);
      var w := Run(ttl, front);
      var n := Step(w, ttl, ev);
      hide FromService, Store, Run, ToPrediction;
      if ev.Predicted? && ev.c < |w.callers| && w.callers[ev.c].Requesting? && ev.body.Some?
         && w.version.Some? && w.now - w.version.value.at < INFO_TTL {
        FromServiceStored(w, front, evs, ev.c, w.callers[ev.c].device, ev.body.value, w.version.value.version);
      } else if ev.Versioned? && ev.c < |w.callers| && w.callers[ev.c].AskingVersion? {
        var ph := w.callers[ev.c];
        var known := if ev.version.Some? then Some(VersionHit(ph.since, ev.version.value)) else w.version;
        AskedFor(w, front, evs, ev.c);
        FromServiceSame(w, w.(version := known), front, evs);
        FromServiceStored(w.(version := known), evs, evs, ev.c, ph.device, ph.body,
                          if known.Some? then known.value.version else None);
      } else {
        FromServiceSame(w, n, front, evs);
      }
    }
  }

  lemma AskedFor(w: World, front: seq<Event>, evs: seq<Event>, c: nat)
    requires FromService(w, front) && front <= evs && c < |w.callers| && w.callers[c].AskingVersion?
    ensures Answered(evs, c, w.callers[c].body)
  {
    var k :| 0 <= k < |front| && front[k] == Predicted(c, Some(w.callers[c].body));
    assert evs[k] == front[k];
  }

  /** Every stored answer is what one caller's request brought, its score brought into the range from 0 to 1. */
  lemma StoredIsAnswer(ttl: real, evs: seq<Event>, i: nat)
    requires i < |Run(ttl, evs).history| && Run(ttl, evs).history[i].Stored?
    ensures var m := Run(ttl, evs).history[i];
            Predicted(m.caller, Some(m.body)) in evs && ToPrediction(m.body, m.p.version) == Some(m.p)
  {
    RunFromService(ttl, evs);
    hide Run, ToPrediction;
  }

  /** Some answer stored for the device is younger than the time to live. */
  ghost predicate Live(w: World, device: string, ttl: real) {
    exists i: nat | i < |w.history| && StoredFor(w.history[i], device) :: w.now - w.history[i].at < ttl
  }

  lemma LiveIsFresh(ttl: real, evs: seq<Event>, device: string)
    ensures var w := Run(ttl, evs);
            && (Live(w, device, ttl) <==> Fresh(w, device, ttl))
            && TellsOf(w, device)
  {
    var w := Run(ttl, evs);
    RunKeeps(ttl, evs);
    RunSourced(ttl, evs);
    hide Run, Spaced, LockIsBusy, AnswersInUnit;
    assert TellsOf(w, device);
    if Live(w, device, ttl) {
      var i: nat :| i < |w.history| && StoredFor(w.history[i], device) && w.now - w.history[i].at < ttl;
      assert PastMark(w, w.history[i]);
    }
    if Fresh(w, device, ttl) {
      var i := LastStored(w.history, device).value;
      assert StoredFor(w.history[i], device);
    }
  }

  /**
   A caller that has waited for the lock: it returns the last answer stored for its device
   if one is younger than the time to live, and otherwise starts a request of its own.
   */
  lemma EnterExactly(ttl: real, evs: seq<Event>, c: nat)
    requires var w := Run(ttl, evs); c < |w.callers| && w.callers[c].Waiting? && w.lock.None?
    ensures var w := Run(ttl, evs);
            var n := Step(w, ttl, Enter(c));
            var device := w.callers[c].device;
            if Live(w, device, ttl) then
              var last := LastStored(w.history, device);
              && last.Some? && n.callers[c] == Ended(device, Returned(w.history[last.value].p), w.now)
              && n.history == w.history && n.lock.None?
            else
              && n.callers[c] == Requesting(device) && n.lock == Some(c)
              && n.history == w.history + [Started(device, w.now, c)]
  {
    var w := Run(ttl, evs);
    LiveIsFresh(ttl, evs, w.callers[c].device);
    hide Run, Live, LastStored;
  }

  /** A new caller returns such an answer at once, and otherwise waits for the lock. */
  lemma CallExactly(ttl: real, evs: seq<Event>, device: string)
    ensures var w := Run(ttl, evs);
            var n := Step(w, ttl, Call(device));
            var last := LastStored(w.history, device);
            && n.history == w.history && n.lock == w.lock && |n.callers| == |w.callers| + 1
            && n.callers[|w.callers|]
               == if Live(w, device, ttl) && last.Some? then Ended(device, Returned(w.history[last.value].p), w.now)
                  else Waiting(device)
  {
    LiveIsFresh(ttl, evs, device);
    hide Run, Live, LastStored;
  }

  /** The version comes with an answer if it was asked for less than 300 seconds ago, and is asked for otherwise. */
  lemma VersionExactly(w: World, ttl: real, c: nat, body: Body)
    requires c < |w.callers| && w.callers[c].Requesting?
    ensures var n := Step(w, ttl, Predicted(c, Some(body)));
            if w.version.Some? && w.now - w.version.value.at < 300.0 then
              var p := ToPrediction(body, w.version.value.version);
              n.callers[c] == Ended(w.callers[c].device, if p.Some? then Returned(p.value) else Failed, w.now)
            else n == w.(callers := w.callers[c := AskingVersion(w.callers[c].device, body, w.now)])
    ensures forall version: Option<Option<string>> ::
              var asking := w.(callers := w.callers[c := AskingVersion(w.callers[c].device, body, w.now)]);
              var n := Step(asking, ttl, Versioned(c, version));
              var known := if version.Some? then version.value
                           else if w.version.Some? then w.version.value.version else None;
              var p := ToPrediction(body, known);
              n.callers[c] == Ended(w.callers[c].device, if p.Some? then Returned(p.value) else Failed, w.now)
  {
    hide ToPrediction;
  }

  // ---------------------------------------------------------------- requests

  /**
   A step starts a predict request only when every answer stored for its device has
   outlived its time and no other request, for any device, is under way.
   */
  lemma StartsWhenStale(ttl: real, evs: seq<Event>, ev: Event, device: string, at: real, caller: nat)
    requires Step(Run(ttl, evs), ttl, ev).history == Run(ttl, evs).history + [Started(device, at, caller)]
    ensures var w := Run(ttl, evs);
            && at == w.now
            && (forall i: nat | i < |w.history| && StoredFor(w.history[i], device) :: at >= w.history[i].at + ttl)
            && forall c: nat | c < |w.callers| :: !Busy(w.callers[c])
  {
    var w := Run(ttl, evs);
    var n := Step(w, ttl, ev);
    var h := w.history + [Started(device, at, caller)];
    assert |h| == |w.history| + 1 && h[|w.history|] == Started(device, at, caller);
    assert n.history[|w.history|] == Started(device, at, caller);
    RunKeeps(ttl, evs);
    LiveIsFresh(ttl, evs, device);
    hide Run, AnswersInUnit, CacheIsLast, Spaced, TellsOf;
  }

  /** Two requests are never under way at once. */
  lemma NeverTwoRequests(ttl: real, evs: seq<Event>, c: nat, d: nat)
    requires var w := Run(ttl, evs); c < |w.callers| && d < |w.callers| && Busy(w.callers[c]) && Busy(w.callers[d])
    ensures c == d
  {
    RunKeeps(ttl, evs);
  }

  /** Whatever the service answers, every value returned or cached lies from 0 to 1. */
  lemma ReturnsUnit(ttl: real, evs: seq<Event>, c: nat)
    requires var w := Run(ttl, evs); c < |w.callers| && w.callers[c].Ended? && w.callers[c].answer.Returned?
    ensures InUnit(Run(ttl, evs).callers[c].answer.p)
  {
    RunKeeps(ttl, evs);
  }

  /** After an answer has been stored for a device, no request for it starts until the time to live has passed. */
  lemma RequestsSpaced(ttl: real, evs: seq<Event>, i: nat, j: nat)
    requires var h := Run(ttl, evs).history; i < j < |h| && After(h[i], h[j])
    ensures var h := Run(ttl, evs).history; h[j].at >= h[i].at + ttl
  {
    RunKeeps(ttl, evs);
  }

  /** A caller that fails or is cancelled while it holds the lock leaves the lock free and the cache as it was. */
  lemma FailureReleases(ttl: real, evs: seq<Event>, c: nat)
    requires c < |Run(ttl, evs).callers| && Busy(Run(ttl, evs).callers[c])
    ensures var w := Run(ttl, evs);
            var n := Step(w, ttl, Cancel(c));
            n.lock == None && n.cache == w.cache
    ensures var w := Run(ttl, evs);
            w.callers[c].Requesting? ==>
              var n := Step(w, ttl, Predicted(c, None));
              n.lock == None && n.cache == w.cache
  {
    RunKeeps(ttl, evs);
  }
}
