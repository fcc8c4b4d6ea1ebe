/**
 Parameter tuning proposals: the five checks of `app/domain/param_tuning.py` and
 the proposals `executor/param_proposal_bridge.py` submits to them. Floats are
 exact reals; `round` rounds half to even.
 */
module Tuning {
  import opened Common

  // ---------------------------------------------------------------- the five checks

  /** The dynamic values a summary may hold. */
  datatype Py =
    | PyNone
    | PyBool(b: bool)
    | PyInt(n: int)
    | PyFloat(r: real)
    | PyStr(s: string)
    | PyList(items: seq<Py>)
    | PyDict

  datatype Check = Whitelist | Type | Bounds | Rate | DeviceState

  datatype Verdict = Passed | FailedAt(check: Check) | TypeErrorRaised

  datatype Proposal = Proposal(param: Py, newValue: Py, allowedRange: Py, deltaPct: Py, deviceState: Option<string>)

  const MAX_DELTA_PCT := 10.0
  const PARAM_WHITELIST: set<string> := {"Kp", "Ki", "Acc"}
  const SAFE_STATES: set<string> := {"idle", "normal"}

  predicate IsNumber(v: Py) {
    v.PyInt? || v.PyFloat?
  }

  function Number(v: Py): real
    requires IsNumber(v)
  {
    if v.PyInt? then v.n as real else v.r
  }

  predicate Hashable(v: Py) {
    !v.PyList? && !v.PyDict?
  }

  predicate IsPair(v: Py) {
    v.PyList? && |v.items| == 2 && IsNumber(v.items[0]) && IsNumber(v.items[1])
  }

  /** The chain, in order, stopping at the first failure; set membership of an unhashable value raises. */
  function CheckParamTuning(p: Proposal): Verdict {
    if !Hashable(p.param) then TypeErrorRaised
    else if !p.param.PyStr? || p.param.s !in PARAM_WHITELIST then FailedAt(Whitelist)
    else if !IsNumber(p.newValue) then FailedAt(Type)
    else if !p.allowedRange.PyList? || |p.allowedRange.items| != 2 then FailedAt(Type)
    else if !IsNumber(p.allowedRange.items[0]) || !IsNumber(p.allowedRange.items[1]) then FailedAt(Type)
    else if !(Number(p.allowedRange.items[0]) <= Number(p.newValue) <= Number(p.allowedRange.items[1])) then
      FailedAt(Bounds)
    else if !IsNumber(p.deltaPct) then FailedAt(Rate)
    else if Number(p.deltaPct) > MAX_DELTA_PCT || -Number(p.deltaPct) > MAX_DELTA_PCT then FailedAt(Rate)
    else if p.deviceState.None? || p.deviceState.value !in SAFE_STATES then FailedAt(DeviceState)
    else Passed
  }

  /** What each check asks, apart from the order. */
  predicate Holds(c: Check, p: Proposal) {
    match c
    case Whitelist => p.param.PyStr? && p.param.s in PARAM_WHITELIST
    case Type => IsNumber(p.newValue) && IsPair(p.allowedRange)
    case Bounds =>
      && IsNumber(p.newValue) && IsPair(p.allowedRange)
      && Number(p.allowedRange.items[0]) <= Number(p.newValue) <= Number(p.allowedRange.items[1])
    case Rate => IsNumber(p.deltaPct) && -MAX_DELTA_PCT <= Number(p.deltaPct) <= MAX_DELTA_PCT
    case DeviceState => p.deviceState.Some? && p.deviceState.value in SAFE_STATES
  }

  function Position(c: Check): nat {
    match c case Whitelist => 0 case Type => 1 case Bounds => 2 case Rate => 3 case DeviceState => 4
  }

  /** The verdict names the first check that fails, and passes when none does. */
  lemma VerdictIsFirstFailure(p: Proposal, c: Check)
    requires Hashable(p.param)
    ensures CheckParamTuning(p) == Passed <==> forall d :: Holds(d, p)
    ensures CheckParamTuning(p) == FailedAt(c) <==> !Holds(c, p) && forall d | Position(d) < Position(c) :: Holds(d, p)
  {
    assert Holds(Whitelist, p) || !Holds(Whitelist, p);
    assert Holds(Type, p) || !Holds(Type, p);
    assert Holds(Bounds, p) || !Holds(Bounds, p);
    assert Holds(Rate, p) || !Holds(Rate, p);
    assert Holds(DeviceState, p) || !Holds(DeviceState, p);
  }

  function Example(param: Py, newValue: Py, deltaPct: Py, state: Option<string>): Proposal {
    Proposal(param, newValue, PyList([PyInt(10), PyFloat(30.0)]), deltaPct, state)
  }

  /** The checks by example: bounds and cap are inclusive, a truth value is no number, only two states are safe. */
  lemma ChecksByExample()
    ensures forall range: Py | range in {PyNone, PyList([PyInt(0)]), PyList([PyInt(0), PyStr("9")])} ::
              CheckParamTuning(Proposal(PyStr("Kp"), PyInt(1), range, PyInt(0), Some("idle"))) == FailedAt(Type)
    ensures CheckParamTuning(Example(PyStr("Kp"), PyFloat(30.1), PyInt(0), Some("idle"))) == FailedAt(Bounds)
    ensures CheckParamTuning(Example(PyStr("Kp"), PyInt(10), PyFloat(10.0), Some("idle"))) == Passed
    ensures CheckParamTuning(Example(PyStr("Ki"), PyFloat(30.0), PyInt(-10), Some("normal"))) == Passed
    ensures CheckParamTuning(Example(PyStr("Acc"), PyInt(9), PyInt(0), Some("idle"))) == FailedAt(Bounds)
    ensures CheckParamTuning(Example(PyStr("Kd"), PyInt(10), PyInt(0), Some("idle"))) == FailedAt(Whitelist)
    ensures CheckParamTuning(Example(PyNone, PyInt(10), PyInt(0), Some("idle"))) == FailedAt(Whitelist)
    ensures CheckParamTuning(Example(PyDict, PyInt(10), PyInt(0), Some("idle"))) == TypeErrorRaised
    ensures CheckParamTuning(Example(PyStr("Kp"), PyBool(true), PyInt(0), Some("idle"))) == FailedAt(Type)
    ensures CheckParamTuning(Example(PyStr("Kp"), PyInt(20), PyBool(false), Some("idle"))) == FailedAt(Rate)
    ensures CheckParamTuning(Example(PyStr("Kp"), PyInt(20), PyFloat(10.1), Some("idle"))) == FailedAt(Rate)
    ensures CheckParamTuning(Example(PyStr("Kp"), PyInt(20), PyInt(5), Some("warn"))) == FailedAt(DeviceState)
    ensures CheckParamTuning(Example(PyStr("Kp"), PyInt(20), PyInt(5), None)) == FailedAt(DeviceState)
  {
    var items := [PyInt(10), PyFloat(30.0)];
    assert |items| == 2 && items[0] == PyInt(10) && items[1] == PyFloat(30.0);
  }

  // ---------------------------------------------------------------- what the rate check promises

  /** The change from `current` to `now` is at most ten percent of it. */
  predicate WithinCap(current: real, now: real) {
    Abs(now - current) * 100.0 <= MAX_DELTA_PCT * Abs(current)
  }

  /** The declared change is the real one. */
  predicate Honest(p: Proposal, current: real)
    requires IsNumber(p.newValue)
  {
    IsNumber(p.deltaPct) && Number(p.deltaPct) * current == (Number(p.newValue) - current) * 100.0
  }

  /** With an honest declaration the rate check holds exactly when the real change is within the cap. */
  lemma HonestRateExact(p: Proposal, current: real)
    requires IsNumber(p.newValue) && current != 0.0 && Honest(p, current)
    ensures Holds(Rate, p) <==> WithinCap(current, Number(p.newValue))
  {
    var delta, now := Number(p.deltaPct), Number(p.newValue);
    if current > 0.0 {
      CompareScaled(delta, current, (now - current) * 100.0);
    } else {
      CompareScaled(delta, -current, -(now - current) * 100.0);
    }
  }

  lemma CompareScaled(d: real, scale: real, p: real)
    requires scale > 0.0 && d * scale == p
    ensures -10.0 <= d <= 10.0 <==> -10.0 * scale <= p <= 10.0 * scale
  {
    assert (10.0 - d) * scale == 10.0 * scale - p && (d + 10.0) * scale == p + 10.0 * scale;
    if d > 10.0 { assert (d - 10.0) * scale > 0.0; }
    if d < -10.0 { assert (-10.0 - d) * scale > 0.0; }
    if -10.0 <= d <= 10.0 { assert (10.0 - d) * scale >= 0.0 && (d + 10.0) * scale >= 0.0; }
  }

  /**
   The check sees the declaration only. Of a proposal that meets the other four checks:
   declared as it is, it passes exactly when the real change is within the cap; declared
   as zero, it always passes; so a passing one whose declaration the caller has compared
   with the real change is within the cap.
   */
  lemma RateTrustsDeclaration(p: Proposal, current: real)
    requires Holds(Whitelist, p) && Holds(Type, p) && Holds(Bounds, p) && Holds(DeviceState, p)
    requires current != 0.0
    ensures var honest := p.(deltaPct := PyFloat((Number(p.newValue) - current) / current * 100.0));
            CheckParamTuning(honest) == Passed <==> WithinCap(current, Number(p.newValue))
    ensures CheckParamTuning(p.(deltaPct := PyFloat(0.0))) == Passed
    ensures CheckParamTuning(p) == Passed && Honest(p, current) ==> WithinCap(current, Number(p.newValue))
  {
    var now := Number(p.newValue);
    var q := (now - current) / current;
    var honest := p.(deltaPct := PyFloat(q * 100.0));
    assert q * current == now - current;
    assert q * 100.0 * current == (now - current) * 100.0;
    HonestRateExact(honest, current);
    if Honest(p, current) { HonestRateExact(p, current); }
    hide WithinCap;
  }

  /** A tripled gain passes under a declared change of zero. */
  lemma FalseDeclarationPasses()
    ensures CheckParamTuning(Proposal(PyStr("Kp"), PyFloat(30.0), PyList([PyFloat(10.0), PyFloat(30.0)]), PyFloat(0.0),
                                      Some("idle"))) == Passed
    ensures !WithinCap(10.0, 30.0)
  {
    var items := [PyFloat(10.0), PyFloat(30.0)];
    assert IsNumber(items[0]) && IsNumber(items[1]);
  }

  // ---------------------------------------------------------------- rounding

  function RoundHalfEven(x: real): int {
    var f := x.Floor;
    var d := x - f as real;
    if d < 0.5 || (d == 0.5 && f % 2 == 0) then f else f + 1
  }

  lemma RoundError(x: real)
    ensures -0.5 <= RoundHalfEven(x) as real - x <= 0.5
  {
  }

  function Round1(x: real): real {
    RoundHalfEven(x * 10.0) as real / 10.0
  }

  function Round3(x: real): real {
    RoundHalfEven(x * 1000.0) as real / 1000.0
  }

  lemma Round1Error(x: real)
    ensures -0.05 <= Round1(x) - x <= 0.05
  {
    RoundError(x * 10.0);
  }

  lemma Round3Error(x: real)
    ensures -0.0005 <= Round3(x) - x <= 0.0005
  {
    RoundError(x * 1000.0);
  }

  // ---------------------------------------------------------------- the bridge

  datatype Bound = Bound(lo: real, hi: real)

  /** The body of a proposal: current value, proposed value and declared change. */
  datatype Body = Body(param: string, current: real, new_: real, bound: Bound, deltaPct: real)

  function Clamp(x: real, b: Bound): real {
    var y := if b.hi < x then b.hi else x;
    if y > b.lo then y else b.lo
  }

  function DeltaPct(current: real, target: real): real
    requires current != 0.0
  {
    Round1((target - current) / current * 100.0)
  }

  /** Clamp to the bounds, then cut a change above the cap to exactly the cap. */
  function ProposedBody(param: string, b: Bound, current: real, target: real): Body
    requires current != 0.0
  {
    var t := Clamp(target, b);
    var delta := DeltaPct(current, t);
    if delta > MAX_DELTA_PCT then Body(param, current, Round3(current * 1.1), b, MAX_DELTA_PCT)
    else if -delta > MAX_DELTA_PCT then Body(param, current, Round3(current * 0.9), b, -MAX_DELTA_PCT)
    else Body(param, current, t, b, delta)
  }

  datatype BridgeError = ZeroDivisionError

  method Propose(param: string, b: Bound, current: real, target: real) returns (r: Result<Body, BridgeError>)
    ensures r == if current == 0.0 then Err(ZeroDivisionError) else Ok(ProposedBody(param, b, current, target))
  {
    if current == 0.0 {
      return Err(ZeroDivisionError);
    }
    var new_ := Clamp(target, b);
    var deltaPct := DeltaPct(current, new_);
    if (if deltaPct < 0.0 then -deltaPct else deltaPct) > MAX_DELTA_PCT {
      var cap := if deltaPct > 0.0 then MAX_DELTA_PCT else -MAX_DELTA_PCT;
      assert 1.0 + cap / 100.0 == if deltaPct > 0.0 then 1.1 else 0.9;
      new_ := Round3(current * (1.0 + cap / 100.0));
      deltaPct := cap;
    }
    r := Ok(Body(param, current, new_, b, deltaPct));
  }

  /** A body as the backend checks it once approved, on a known device. */
  function AsProposal(p: Body): Proposal {
    Proposal(PyStr(p.param), PyFloat(p.new_), PyList([PyFloat(p.bound.lo), PyFloat(p.bound.hi)]), PyFloat(p.deltaPct),
             Some("idle"))
  }

  /** A change in percent compares with `k` as the scaled values do. */
  lemma ChangeCompare(current: real, t: real, k: real)
    requires current > 0.0
    ensures (t - current) / current * 100.0 > k <==> (t - current) * 100.0 > k * current
    ensures (t - current) / current * 100.0 < k <==> (t - current) * 100.0 < k * current
  {
    var q := (t - current) / current;
    assert q * current == t - current;
    SameSign(q * 100.0 - k, current, (t - current) * 100.0 - k * current);
  }

  lemma SameSign(d: real, current: real, p: real)
    requires current > 0.0 && d * current == p
    ensures (p > 0.0 <==> d > 0.0) && (p < 0.0 <==> d < 0.0)
  {
  }

  /** Rounding goes beyond the cap exactly when the value is more than half a unit beyond it. */
  lemma RoundsBeyond(x: real)
    ensures RoundHalfEven(x) >= 101 <==> x > 100.5
    ensures RoundHalfEven(x) <= -101 <==> x < -100.5
  {
  }

  /** From `current` to `t` is more than 10.05 percent away from zero. */
  predicate GrowsBeyond(current: real, t: real) {
    if current > 0.0 then t > 1.1005 * current else t < 1.1005 * current
  }

  /** From `current` to `t` is more than 10.05 percent towards zero and past it. */
  predicate ShrinksBeyond(current: real, t: real) {
    if current > 0.0 then t < 0.8995 * current else t > 0.8995 * current
  }

  /** A declared change is beyond the cap exactly when the real one is more than 10.05 percent, whatever the sign. */
  lemma BeyondCap(current: real, t: real)
    requires current != 0.0
    ensures DeltaPct(current, t) > MAX_DELTA_PCT <==> GrowsBeyond(current, t)
    ensures DeltaPct(current, t) < -MAX_DELTA_PCT <==> ShrinksBeyond(current, t)
  {
    if current > 0.0 {
      BeyondPositive(current, t);
    } else {
      BeyondPositive(-current, -t);
      assert (-t - -current) / -current == (t - current) / current;
    }
  }

  lemma BeyondPositive(current: real, t: real)
    requires current > 0.0
    ensures DeltaPct(current, t) > MAX_DELTA_PCT <==> t > 1.1005 * current
    ensures DeltaPct(current, t) < -MAX_DELTA_PCT <==> t < 0.8995 * current
  {
    var raw := (t - current) / current * 100.0;
    ChangeCompare(current, t, 10.05);
    ChangeCompare(current, t, -10.05);
    DeclaredBeyond(raw);
  }

  lemma DeclaredBeyond(raw: real)
    ensures Round1(raw) > MAX_DELTA_PCT <==> raw > 10.05
    ensures Round1(raw) < -MAX_DELTA_PCT <==> raw < -10.05
  {
    RoundsBeyond(raw * 10.0);
    hide RoundHalfEven;
    var k := RoundHalfEven(raw * 10.0);
    assert Round1(raw) == k as real / 10.0;
  }

  /** Whether the change, once clamped to the bounds, is cut to the cap. */
  predicate Cut(b: Bound, current: real, target: real)
    requires current != 0.0
  {
    var delta := DeltaPct(current, Clamp(target, b));
    delta > MAX_DELTA_PCT || -delta > MAX_DELTA_PCT
  }

  /** The proposed value is inside its own bounds. */
  predicate Inside(p: Body) {
    p.bound.lo <= p.new_ <= p.bound.hi
  }

  /** For any current value but zero, a proposal can fail no check but the bounds, and that only when it is cut. */
  lemma OnlyBoundsFail(param: string, b: Bound, current: real, target: real)
    requires param in PARAM_WHITELIST && b.lo <= b.hi && current != 0.0
    ensures var p := ProposedBody(param, b, current, target);
            var v := CheckParamTuning(AsProposal(p));
            && (v == Passed <==> !Cut(b, current, target) || Inside(p))
            && (v == Passed || v == FailedAt(Bounds))
  {
    var t := Clamp(target, b);
    assert b.lo <= t <= b.hi;
    var p := ProposedBody(param, b, current, target);
    assert Hashable(AsProposal(p).param);
    assert AsProposal(p).allowedRange.items == [PyFloat(b.lo), PyFloat(b.hi)];
  }

  predicate Within(b: Bound, x: real) {
    b.lo <= x <= b.hi
  }

  /**
   Asked to move to `t`: it is within 10.05 percent of the current value, or the ten
   percent step towards it, rounded to three decimals, stays within the bounds.
   */
  predicate StepFits(b: Bound, current: real, t: real) {
    && (GrowsBeyond(current, t) ==> Within(b, Round3(current * 1.1)))
    && (ShrinksBeyond(current, t) ==> Within(b, Round3(current * 0.9)))
  }

  /** Exactly which proposals pass, from the current value alone, whatever its sign. */
  lemma PassesExactly(param: string, b: Bound, current: real, target: real)
    requires param in PARAM_WHITELIST && b.lo <= b.hi && current != 0.0
    ensures CheckParamTuning(AsProposal(ProposedBody(param, b, current, target))) == Passed <==>
            StepFits(b, current, Clamp(target, b))
  {
    OnlyBoundsFail(param, b, current, target);
    BeyondCap(current, Clamp(target, b));
    hide CheckParamTuning, DeltaPct, Round3, Clamp, GrowsBeyond, ShrinksBeyond;
    NotBoth(current, Clamp(target, b));
  }

  lemma NotBoth(current: real, t: real)
    ensures !(GrowsBeyond(current, t) && ShrinksBeyond(current, t)) || current == 0.0
  {
  }

  /** Every target passes exactly when both bounds do. */
  lemma EveryTargetPasses(param: string, b: Bound, current: real)
    requires param in PARAM_WHITELIST && b.lo <= b.hi && current != 0.0
    ensures (forall target :: CheckParamTuning(AsProposal(ProposedBody(param, b, current, target))) == Passed) <==>
            StepFits(b, current, b.lo) && StepFits(b, current, b.hi)
  {
    assert Clamp(b.hi, b) == b.hi && Clamp(b.lo, b) == b.lo;
    PassesExactly(param, b, current, b.lo);
    PassesExactly(param, b, current, b.hi);
    hide CheckParamTuning, ProposedBody, StepFits;
    if StepFits(b, current, b.lo) && StepFits(b, current, b.hi) {
      forall target ensures CheckParamTuning(AsProposal(ProposedBody(param, b, current, target))) == Passed {
        PassesExactly(param, b, current, target);
        FitsBetween(b, current, Clamp(target, b));
      }
    }
  }

  lemma FitsBetween(b: Bound, current: real, t: real)
    requires b.lo <= t <= b.hi && StepFits(b, current, b.lo) && StepFits(b, current, b.hi)
    ensures StepFits(b, current, t)
  {
    hide Round3;
  }

  /** A negative current value, on positive bounds, is cut to a negative proposal. */
  lemma NegativeCurrentFails(param: string, b: Bound, current: real, target: real)
    requires param in PARAM_WHITELIST && 0.0 < b.lo <= b.hi && current < 0.0
    ensures CheckParamTuning(AsProposal(ProposedBody(param, b, current, target))) == FailedAt(Bounds)
  {
    OnlyBoundsFail(param, b, current, target);
    PassesExactly(param, b, current, target);
    assert Clamp(target, b) > 0.0;
    assert RoundHalfEven(current * 0.9 * 1000.0) <= 0;
    hide CheckParamTuning, DeltaPct, Clamp;
  }

  /** With a current value of at least one inside the bounds, the cut value is inside them too. */
  lemma CutStaysInside(param: string, b: Bound, current: real, target: real)
    requires b.lo <= current <= b.hi && current >= 1.0
    ensures Inside(ProposedBody(param, b, current, target))
  {
    var t := Clamp(target, b);
    assert b.lo <= t <= b.hi;
    BeyondCap(current, t);
    Round3Error(current * 1.1);
    Round3Error(current * 0.9);
  }

  /** What is declared differs from what is done by at most 0.05 percent of the current value. */
  lemma DeclaredIsActual(param: string, b: Bound, current: real, target: real)
    requires current >= 1.0
    ensures var p := ProposedBody(param, b, current, target);
            -0.05 * current <= (p.new_ - current) * 100.0 - p.deltaPct * current <= 0.05 * current
  {
    var t := Clamp(target, b);
    if Cut(b, current, target) {
      Round3Error(current * 1.1);
      Round3Error(current * 0.9);
      assert ProposedBody(param, b, current, target).deltaPct * current
          == if DeltaPct(current, t) > MAX_DELTA_PCT then 10.0 * current else -10.0 * current;
    } else {
      RoundedChange(current, t);
    }
  }

  lemma RoundedChange(current: real, t: real)
    requires current > 0.0
    ensures -0.05 * current <= (t - current) * 100.0 - DeltaPct(current, t) * current <= 0.05 * current
  {
    var raw := (t - current) / current * 100.0;
    Round1Error(raw);
    assert raw * current == (t - current) * 100.0;
    var delta := DeltaPct(current, t);
    assert -0.05 <= delta - raw <= 0.05;
    hide Round1, DeltaPct;
    Near(raw, delta, current, (t - current) * 100.0);
  }

  lemma Near(raw: real, delta: real, current: real, change: real)
    requires -0.05 <= delta - raw <= 0.05 && current > 0.0 && raw * current == change
    ensures -0.05 * current <= change - delta * current <= 0.05 * current
  {
    ScaledTo(raw - delta, 0.05, current, change - delta * current);
  }

  lemma ScaledTo(d: real, bound: real, current: real, p: real)
    requires -bound <= d <= bound && current > 0.0 && d * current == p
    ensures -bound * current <= p <= bound * current
  {
    Scale(d, bound, current);
  }

  lemma Scale(d: real, bound: real, current: real)
    requires -bound <= d <= bound && current > 0.0
    ensures -bound * current <= d * current <= bound * current
  {
    assert (bound - d) * current >= 0.0 && (d + bound) * current >= 0.0;
  }

  /**
   Every proposal the bridge makes passes the checks: for any target, and any
   current value of at least one within the bounds. The declared change is the
   actual one to within 0.05 percent of the current value, so the cap on what is
   declared, which is all the backend checks, caps what is done at 10.05 percent.
   */
  lemma ProposalPasses(param: string, b: Bound, current: real, target: real)
    requires param in PARAM_WHITELIST && b.lo <= current <= b.hi && current >= 1.0
    ensures var p := ProposedBody(param, b, current, target);
            && CheckParamTuning(AsProposal(p)) == Passed
            && b.lo <= p.new_ <= b.hi
            && 0.8995 * current <= p.new_ <= 1.1005 * current
  {
    hide CheckParamTuning, ProposedBody, Cut;
    OnlyBoundsFail(param, b, current, target);
    CutStaysInside(param, b, current, target);
    BodyCarries(param, b, current, target);
    ChangeCapped(param, b, current, target);
  }

  lemma BodyCarries(param: string, b: Bound, current: real, target: real)
    requires current != 0.0
    ensures var p := ProposedBody(param, b, current, target);
            p.bound == b && -MAX_DELTA_PCT <= p.deltaPct <= MAX_DELTA_PCT
  {
    hide DeltaPct, Round3;
  }

  lemma ChangeCapped(param: string, b: Bound, current: real, target: real)
    requires current >= 1.0
    ensures 0.8995 * current <= ProposedBody(param, b, current, target).new_ <= 1.1005 * current
  {
    hide ProposedBody;
    var p := ProposedBody(param, b, current, target);
    DeclaredIsActual(param, b, current, target);
    BodyCarries(param, b, current, target);
    Capped(p.new_, p.deltaPct, current, p.deltaPct * current);
  }

  lemma Capped(new_: real, delta: real, current: real, e: real)
    requires -10.0 <= delta <= 10.0 && current > 0.0 && delta * current == e
    requires -0.05 * current <= (new_ - current) * 100.0 - e <= 0.05 * current
    ensures 0.8995 * current <= new_ <= 1.1005 * current
  {
    ScaledTo(delta, 10.0, current, e);
  }

  /** Below one, three decimals can be too coarse: a cut from the lower bound may round beneath it. */
  lemma SmallCurrentFails()
    ensures var b := Bound(0.0004, 1.0);
            CheckParamTuning(AsProposal(ProposedBody("Kp", b, 0.0004, 1.0))) == FailedAt(Bounds)
  {
    var b := Bound(0.0004, 1.0);
    assert Clamp(1.0, b) == 1.0;
    var raw := (1.0 - 0.0004) / 0.0004 * 100.0;
    assert raw == 249900.0;
    assert RoundHalfEven(raw * 10.0) == 2499000;
    assert DeltaPct(0.0004, 1.0) > MAX_DELTA_PCT;
    assert RoundHalfEven(0.0004 * 1.1 * 1000.0) == 0;
    assert ProposedBody("Kp", b, 0.0004, 1.0).new_ == 0.0;
    OnlyBoundsFail("Kp", b, 0.0004, 1.0);
  }

  // ---------------------------------------------------------------- recommendations

  datatype ActionKind = Derating | TuningAction | OtherAction

  const KP_BOUND := Bound(10.0, 30.0)
  const ACC_BOUND := Bound(200.0, 800.0)

  /** The device's current gains, as the diagnosis reports them. */
  datatype Current = Current(kp: real, acc: real)

  /** Current value, target and bound of the proposal an action asks for, if it asks for one. */
  function Wanted(a: ActionKind, c: Current): Option<(string, Bound, real, real)> {
    match a
    case Derating => Some(("Acc", ACC_BOUND, c.acc, c.acc * 0.9))
    case TuningAction => Some(("Kp", KP_BOUND, c.kp, c.kp * 1.08))
    case OtherAction => None
  }

  /** The proposals sent for a list of actions, in order, up to the first that cannot be computed. */
  function Submissions(actions: seq<ActionKind>, c: Current): (r: (seq<Body>, bool))
  {
    if actions == [] then ([], true)
    else
      var (sent, ok) := Submissions(actions[..|actions| - 1], c);
      var w := Wanted(actions[|actions| - 1], c);
      if !ok || w.None? then (sent, ok)
      else if w.value.2 == 0.0 then (sent, false)
      else (sent + [ProposedBody(w.value.0, w.value.1, w.value.2, w.value.3)], true)
  }

  lemma {:induction false} FailureSticks(actions: seq<ActionKind>, i: nat, c: Current)
    requires i <= |actions| && !Submissions(actions[..i], c).1
    ensures Submissions(actions, c) == Submissions(actions[..i], c)
    decreases |actions|
  {
    if i == |actions| {
      assert actions[..i] == actions;
    } else {
      assert actions[..|actions| - 1][..i] == actions[..i];
      FailureSticks(actions[..|actions| - 1], i, c);
    }
  }

  /** Proposals already sent stay sent when a later one raises. */
  method SubmitFromRecommendation(actions: seq<ActionKind>, c: Current)
    returns (created: seq<Body>, error: Option<BridgeError>)
    ensures (created, error.None?) == Submissions(actions, c)
  {
    created := [];
    for i := 0 to |actions|
      invariant (created, true) == Submissions(actions[..i], c)
    {
      assert actions[..i + 1][..i] == actions[..i];
      if actions[i] == Derating {
        var cur := c.acc;
        var r := Propose("Acc", ACC_BOUND, cur, cur * 0.9);
        if r.Err? {
          FailureSticks(actions, i + 1, c);
          return created, Some(r.error);
        }
        created := created + [r.value];
      } else if actions[i] == TuningAction {
        var cur := c.kp;
        var r := Propose("Kp", KP_BOUND, cur, cur * 1.08);
        if r.Err? {
          FailureSticks(actions, i + 1, c);
          return created, Some(r.error);
        }
        created := created + [r.value];
      }
    }
    assert actions[..|actions|] == actions;
    error := None;
  }

  function Asking(actions: seq<ActionKind>): nat {
    if actions == [] then 0
    else Asking(actions[..|actions| - 1]) + if actions[|actions| - 1] == OtherAction then 0 else 1
  }

  /** The accelerations from which a derating proposal passes, and the position gains from which a tuning one does. */
  predicate AccOk(acc: real) {
    ACC_BOUND.lo <= 1.1005 * acc && 0.8995 * acc <= ACC_BOUND.hi
  }

  predicate KpOk(kp: real) {
    KP_BOUND.lo <= 1.1005 * kp && 0.8995 * kp <= KP_BOUND.hi
  }

  lemma DeratingExact(acc: real)
    requires acc != 0.0
    ensures CheckParamTuning(AsProposal(ProposedBody("Acc", ACC_BOUND, acc, acc * 0.9))) == Passed <==> AccOk(acc)
  {
    if acc < 0.0 {
      NegativeCurrentFails("Acc", ACC_BOUND, acc, acc * 0.9);
    } else {
      PassesExactly("Acc", ACC_BOUND, acc, acc * 0.9);
      Round3Error(acc * 1.1);
      Round3Error(acc * 0.9);
      hide CheckParamTuning, ProposedBody, Round3;
    }
  }

  lemma KpExact(kp: real)
    requires kp != 0.0
    ensures CheckParamTuning(AsProposal(ProposedBody("Kp", KP_BOUND, kp, kp * 1.08))) == Passed <==> KpOk(kp)
  {
    if kp < 0.0 {
      NegativeCurrentFails("Kp", KP_BOUND, kp, kp * 1.08);
    } else {
      PassesExactly("Kp", KP_BOUND, kp, kp * 1.08);
      Round3Error(kp * 1.1);
      Round3Error(kp * 0.9);
      hide CheckParamTuning, ProposedBody, Round3;
    }
  }

  /** Whether the proposal an action asks for passes, when it can be computed. */
  lemma WantedPasses(a: ActionKind, c: Current)
    requires Wanted(a, c).Some? && Wanted(a, c).value.2 != 0.0
    ensures var w := Wanted(a, c).value;
            CheckParamTuning(AsProposal(ProposedBody(w.0, w.1, w.2, w.3))) == Passed <==>
            (a == Derating ==> AccOk(c.acc)) && (a == TuningAction ==> KpOk(c.kp))
  {
    hide CheckParamTuning, ProposedBody, AccOk, KpOk;
    if a == Derating { DeratingExact(c.acc); } else { KpExact(c.kp); }
  }

  /**
   On any device: the list is sent whole exactly when no gain an action starts from is
   zero; then every executable action has one proposal, and all pass exactly when the
   gains they start from are within a step of the commissioning bounds.
   */
  lemma {:induction false} RecommendationsExact(actions: seq<ActionKind>, c: Current)
    ensures var (sent, ok) := Submissions(actions, c);
            && (ok <==> (Derating in actions ==> c.acc != 0.0) && (TuningAction in actions ==> c.kp != 0.0))
            && (ok ==> |sent| == Asking(actions))
            && (ok ==> ((forall p <- sent :: CheckParamTuning(AsProposal(p)) == Passed) <==>
                        (Derating in actions ==> AccOk(c.acc)) && (TuningAction in actions ==> KpOk(c.kp))))
  {
    if actions != [] {
      var n := |actions| - 1;
      RecommendationsExact(actions[..n], c);
      var (sent, ok) := Submissions(actions[..n], c);
      assert forall x :: x in actions <==> x in actions[..n] || x == actions[n];
      var w := Wanted(actions[n], c);
      if w.Some? && w.value.2 != 0.0 { WantedPasses(actions[n], c); }
      hide CheckParamTuning, ProposedBody, AccOk, KpOk, AsProposal;
      assert forall p, q :: p in sent + [q] <==> p in sent || p == q;
    }
  }

  /** A gain more than a step below its commissioning bounds: the cut is exact, and still outside. */
  lemma OutOfBoundsFails()
    ensures var (sent, ok) := Submissions([TuningAction], Current(5.0, 600.0));
            && ok && |sent| == 1 && sent[0].new_ == 5.5
            && CheckParamTuning(AsProposal(sent[0])) == FailedAt(Bounds)
  {
    assert [TuningAction][..0] == [] && Submissions([], Current(5.0, 600.0)) == ([], true);
    var p := ProposedBody("Kp", KP_BOUND, 5.0, 5.0 * 1.08);
    assert Clamp(5.0 * 1.08, KP_BOUND) == 10.0;
    BeyondCap(5.0, 10.0);
    assert RoundHalfEven(5500.0) == 5500;
    KpExact(5.0);
    OnlyBoundsFail("Kp", KP_BOUND, 5.0, 5.0 * 1.08);
    hide CheckParamTuning, DeltaPct;
  }

  /**
   What the two executable actions ask for: eight percent more position gain up to its
   bound, ten percent less acceleration down to its bound; other actions ask for nothing.
   */
  lemma ActionsAskFor(c: Current)
    requires 10.0 <= c.kp <= 30.0 && 200.0 <= c.acc <= 800.0
    ensures var (sent, ok) := Submissions([TuningAction], c);
            && ok && |sent| == 1 && sent[0].param == "Kp" && sent[0].current == c.kp
            && sent[0].new_ == Min(30.0, 1.08 * c.kp) && sent[0].bound == Bound(10.0, 30.0)
    ensures var (sent, ok) := Submissions([Derating], c);
            && ok && |sent| == 1 && sent[0].param == "Acc" && sent[0].current == c.acc
            && sent[0].new_ == Max(200.0, 0.9 * c.acc) && sent[0].bound == Bound(200.0, 800.0)
    ensures Submissions([OtherAction], c) == ([], true)
  {
    OneAction(TuningAction, c);
    OneAction(Derating, c);
    OneAction(OtherAction, c);
    BeyondCap(c.kp, Clamp(c.kp * 1.08, KP_BOUND));
    DeratingStep(c.acc);
    hide DeltaPct;
  }

  lemma OneAction(a: ActionKind, c: Current)
    ensures Submissions([a], c) == var w := Wanted(a, c);
                                   if w.None? then ([], true)
                                   else if w.value.2 == 0.0 then ([], false)
                                   else ([ProposedBody(w.value.0, w.value.1, w.value.2, w.value.3)], true)
  {
    var actions := [a];
    assert actions[..|actions| - 1] == [] && Submissions([], c) == ([], true);
    hide ProposedBody;
    var w := Wanted(a, c);
    if w.Some? && w.value.2 != 0.0 {
      var p := ProposedBody(w.value.0, w.value.1, w.value.2, w.value.3);
      assert [] + [p] == [p];
    }
  }

  // ---------------------------------------------------------------- derating rounds

  /** A derating proposal asks for a ten percent cut, floored at the lower bound; it is never cut short. */
  lemma DeratingStep(current: real)
    requires ACC_BOUND.lo <= current <= ACC_BOUND.hi
    ensures ProposedBody("Acc", ACC_BOUND, current, current * 0.9).new_ == Max(ACC_BOUND.lo, 0.9 * current)
  {
    var t := Clamp(current * 0.9, ACC_BOUND);
    assert t == Max(ACC_BOUND.lo, 0.9 * current);
    BeyondCap(current, t);
    assert t > 0.8995 * current && t <= current;
  }
}
