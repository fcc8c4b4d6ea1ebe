/**
 The trapezoid planner of the simulated servo: `trapezoid_ref` in
 `executor/pmsm_sim.py`, over exact reals.
 */
module Planner {
  import opened Common

  const DT := 0.0001
  const EPS := 0.000000001

  /** Planned position, and planned speed along the direction of travel. */
  datatype Ref = Ref(pos: real, vel: real)

  const REST := Ref(0.0, 0.0)

  function Sign(x: real): real { if x > 0.0 then 1.0 else if x < 0.0 then -1.0 else 0.0 }

  /** `np.sign(target) * x`. */
  function Along(target: real, x: real): (y: real)
    ensures y == Sign(target) * x
  {
    if target > 0.0 then x else if target < 0.0 then -x else 0.0
  }

  /** The speed of the next step: brake inside the braking distance, else speed up to the limit. */
  function NextVel(remain: real, vel: real, vMax: real, aMax: real): real
    requires aMax != 0.0
  {
    if Abs(remain) <= vel * vel / (2.0 * aMax) + EPS then Max(vel - aMax * DT, 0.0)
    else if vel < vMax then Min(vel + aMax * DT, vMax)
    else vel
  }

  /** One step before the snap to the target. */
  function Move(target: real, vMax: real, aMax: real, s: Ref): Ref
    requires aMax != 0.0
  {
    var vel := NextVel(target - s.pos, s.vel, vMax, aMax);
    Ref(s.pos + Along(target, vel) * DT, vel)
  }

  /** Signed distance still to go along the direction of travel. */
  function Gap(target: real, s: Ref): real {
    Along(target, target - s.pos)
  }

  function Step(target: real, vMax: real, aMax: real, s: Ref): Ref
    requires aMax != 0.0
  {
    var m := Move(target, vMax, aMax, s);
    if Gap(target, m) <= 0.0 then Ref(target, 0.0) else m
  }

  /** The plan after `k` steps. */
  function RefAt(target: real, vMax: real, aMax: real, k: nat): Ref
    requires aMax != 0.0
  {
    if k == 0 then REST else Step(target, vMax, aMax, RefAt(target, vMax, aMax, k - 1))
  }

  lemma RefAtNext(target: real, vMax: real, aMax: real, k: nat)
    requires aMax != 0.0
    ensures RefAt(target, vMax, aMax, 0) == REST
    ensures RefAt(target, vMax, aMax, k + 1) == Step(target, vMax, aMax, RefAt(target, vMax, aMax, k))
  {
  }

  /** The body of the planner's loop, on the loop's two variables. */
  method PlanStep(target: real, vMax: real, aMax: real, pos: real, vel: real) returns (pos': real, vel': real)
    requires aMax != 0.0
    ensures Ref(pos', vel') == Step(target, vMax, aMax, Ref(pos, vel))
  {
    hide Along, Sign, Abs, Max, Min;
    var d := Sign(target);
    var remain := target - pos;
    vel' := vel;
    if Abs(remain) <= vel * vel / (2.0 * aMax) + EPS {
      vel' := Max(vel - aMax * DT, 0.0);
    } else if vel < vMax {
      vel' := Min(vel + aMax * DT, vMax);
    }
    assert vel' == NextVel(remain, vel, vMax, aMax);
    hide NextVel;
    pos' := pos + d * vel' * DT;
    assert Move(target, vMax, aMax, Ref(pos, vel)) == Ref(pos', vel');
    hide Move;
    if d * (target - pos') <= 0.0 {
      pos', vel' := target, 0.0;
    }
  }

  method TrapezoidRef(target: real, vMax: real, aMax: real, n: nat) returns (r: array<real>, v: array<real>)
    requires aMax != 0.0
    ensures fresh(r) && fresh(v) && r.Length == v.Length == n
    ensures forall k | 0 <= k < n :: r[k] == RefAt(target, vMax, aMax, k + 1).pos
    ensures forall k | 0 <= k < n :: v[k] == Along(target, RefAt(target, vMax, aMax, k + 1).vel)
  {
    hide RefAt, Step;
    r, v := new real[n], new real[n];
    var pos, vel := 0.0, 0.0;
    var d := Sign(target);
    RefAtNext(target, vMax, aMax, 0);
    for k := 0 to n
      invariant Ref(pos, vel) == RefAt(target, vMax, aMax, k)
      invariant forall j | 0 <= j < k :: r[j] == RefAt(target, vMax, aMax, j + 1).pos
      invariant forall j | 0 <= j < k :: v[j] == Along(target, RefAt(target, vMax, aMax, j + 1).vel)
    {
      pos, vel := PlanStep(target, vMax, aMax, pos, vel);
      RefAtNext(target, vMax, aMax, k);
      r[k], v[k] := pos, d * vel;
    }
  }

  // ---------------------------------------------------------------- braking envelope

  /** How far the square of the speed may exceed what the remaining distance can absorb. */
  function Slack(vMax: real, aMax: real): real {
    4.0 * aMax * vMax * DT
  }

  /** Speed `v` is one that `g` of distance, and the slack, can absorb at this deceleration. */
  predicate Under(aMax: real, v: real, g: real, slack: real) {
    v * v <= 2.0 * aMax * g + slack
  }

  /** What every step keeps. */
  predicate Planned(target: real, vMax: real, aMax: real, s: Ref) {
    && 0.0 <= s.vel <= vMax
    && 0.0 <= Gap(target, s)
    && (target == 0.0 ==> s == REST)
    && Under(aMax, s.vel, Gap(target, s), Slack(vMax, aMax))
  }

  lemma BrakeDistance(a: real, g: real, v: real)
    requires a > 0.0
    ensures g <= v * v / (2.0 * a) + EPS <==> 2.0 * a * g <= v * v + 2.0 * a * EPS
  {
    var q := v * v / (2.0 * a);
    assert q * (2.0 * a) == v * v;
    if g <= q + EPS {
      Scale(2.0 * a, g, q + EPS);
    } else {
      ScaleStrict(2.0 * a, q + EPS, g);
    }
  }

  lemma Scale(k: real, x: real, y: real)
    requires 0.0 <= k && x <= y
    ensures k * x <= k * y
  {
  }

  lemma ScaleStrict(k: real, x: real, y: real)
    requires 0.0 < k && x < y
    ensures k * x < k * y
  {
  }

  /** Braking spends exactly as much of the envelope as the distance travelled. */
  lemma BrakeEnvelope(a: real, h: real, g: real, v: real, slack: real)
    requires a > 0.0 && h == a * DT && v >= h && v * v <= 2.0 * a * g + slack
    ensures var u := v - h; u * u <= 2.0 * a * (g - u * DT) + slack
  {
    var u := v - h;
    assert u * u == v * v - 2.0 * h * v + h * h;
    assert 2.0 * a * (g - u * DT) == 2.0 * a * g - 2.0 * h * u;
    assert h * u == h * v - h * h;
    assert h * h >= 0.0;
  }

  /** Outside the braking distance one more push overshoots the envelope by a bounded amount. */
  lemma PushEnvelope(a: real, h: real, g: real, v: real, u: real, vMax: real)
    requires a > 0.0 && h == a * DT && v * v <= 2.0 * a * g
    requires 0.0 <= v <= u <= vMax && u <= v + h
    ensures u * u <= 2.0 * a * (g - u * DT) + Slack(vMax, a)
  {
    assert 2.0 * a * (g - u * DT) == 2.0 * a * g - 2.0 * h * u;
    assert u * u - v * v == (u - v) * (u + v);
    Scale(u + v, u - v, h);
    Scale(h, u + v, 2.0 * u);
    Scale(h, u, vMax);
    assert Slack(vMax, a) == 4.0 * (h * vMax);
  }

  /** One planner step in terms of the distance to go. */
  lemma MoveGap(target: real, vMax: real, aMax: real, s: Ref)
    requires aMax != 0.0 && target != 0.0 && 0.0 <= Gap(target, s)
    ensures Abs(target - s.pos) == Gap(target, s)
    ensures var m := Move(target, vMax, aMax, s);
            m.vel == NextVel(Gap(target, s), s.vel, vMax, aMax) && Gap(target, m) == Gap(target, s) - m.vel * DT
  {
  }

  lemma NextVelEnvelope(g: real, v: real, vMax: real, aMax: real)
    requires aMax > 0.0 && 0.0 <= v <= vMax && 0.0 <= g
    requires Under(aMax, v, g, Slack(vMax, aMax))
    ensures var u := NextVel(g, v, vMax, aMax);
            0.0 <= u <= vMax && Under(aMax, u, g - u * DT, Slack(vMax, aMax))
  {
    if g <= v * v / (2.0 * aMax) + EPS {
      BrakeNext(g, v, vMax, aMax, Max(v - aMax * DT, 0.0));
    } else {
      PushNext(g, v, vMax, aMax, if v < vMax then Min(v + aMax * DT, vMax) else v);
    }
    hide Under, Slack;
  }

  lemma BrakeNext(g: real, v: real, vMax: real, aMax: real, u: real)
    requires aMax > 0.0 && 0.0 <= v <= vMax && 0.0 <= g && u == Max(v - aMax * DT, 0.0)
    requires Under(aMax, v, g, Slack(vMax, aMax))
    ensures 0.0 <= u <= vMax && Under(aMax, u, g - u * DT, Slack(vMax, aMax))
  {
    var h := aMax * DT;
    if v >= h {
      BrakeEnvelope(aMax, h, g, v, Slack(vMax, aMax));
    } else {
      Scale(2.0 * aMax, 0.0, g);
      Scale(aMax, 0.0, vMax);
    }
  }

  lemma PushNext(g: real, v: real, vMax: real, aMax: real, u: real)
    requires aMax > 0.0 && 0.0 <= v <= vMax && u == if v < vMax then Min(v + aMax * DT, vMax) else v
    requires !(g <= v * v / (2.0 * aMax) + EPS)
    ensures 0.0 <= u <= vMax && Under(aMax, u, g - u * DT, Slack(vMax, aMax))
  {
    BrakeDistance(aMax, g, v);
    Scale(2.0 * aMax, 0.0, EPS);
    hide Slack;
    PushEnvelope(aMax, aMax * DT, g, v, u, vMax);
  }

  /**
   The braking envelope. Every step keeps the speed within the limit, moves only
   towards the target and never past it, and keeps the envelope; before the snap
   too, so the speed a snap drops is at most the square root of the slack.
   */
  lemma StepEnvelope(target: real, vMax: real, aMax: real, s: Ref)
    requires aMax > 0.0 && vMax > 0.0 && Planned(target, vMax, aMax, s)
    ensures var m, n := Move(target, vMax, aMax, s), Step(target, vMax, aMax, s);
            && Planned(target, vMax, aMax, n)
            && Gap(target, n) <= Gap(target, s)
            && 0.0 <= m.vel <= vMax
            && Under(aMax, m.vel, Gap(target, m), Slack(vMax, aMax))
            && (n != m ==> m.vel * m.vel <= Slack(vMax, aMax) && n == Ref(target, 0.0))
  {
    SlackPositive(vMax, aMax);
    if target != 0.0 {
      MoveEnvelope(target, vMax, aMax, s);
      hide Move, Slack;
      var m := Move(target, vMax, aMax, s);
      if Gap(target, m) <= 0.0 { Scale(2.0 * aMax, Gap(target, m), 0.0); }
    }
  }

  lemma SlackPositive(vMax: real, aMax: real)
    requires aMax > 0.0 && vMax > 0.0
    ensures Slack(vMax, aMax) >= 0.0
  {
    Scale(aMax, 0.0, vMax);
  }

  lemma MoveEnvelope(target: real, vMax: real, aMax: real, s: Ref)
    requires aMax > 0.0 && vMax > 0.0 && target != 0.0 && Planned(target, vMax, aMax, s)
    ensures var m := Move(target, vMax, aMax, s);
            && 0.0 <= m.vel <= vMax
            && Gap(target, m) <= Gap(target, s)
            && Under(aMax, m.vel, Gap(target, m), Slack(vMax, aMax))
  {
    MoveGap(target, vMax, aMax, s);
    hide Move, NextVel, Gap, Slack, Under;
    NextVelEnvelope(Gap(target, s), s.vel, vMax, aMax);
  }

  lemma {:induction false} PlanEnvelope(target: real, vMax: real, aMax: real, k: nat)
    requires aMax > 0.0 && vMax > 0.0
    ensures Planned(target, vMax, aMax, RefAt(target, vMax, aMax, k))
  {
    hide Step, RefAt;
    RefAtNext(target, vMax, aMax, 0);
    if k == 0 {
      Scale(2.0 * aMax, 0.0, Gap(target, REST));
      SlackPositive(vMax, aMax);
    } else {
      hide Planned;
      RefAtNext(target, vMax, aMax, k - 1);
      PlanEnvelope(target, vMax, aMax, k - 1);
      StepEnvelope(target, vMax, aMax, RefAt(target, vMax, aMax, k - 1));
    }
  }

  // ---------------------------------------------------------------- speed

  /** Twice the deceleration times the distance beyond what braking takes, and beyond the tolerance. */
  function Excess(a: real, g: real, v: real): real {
    2.0 * a * g - v * v - 2.0 * a * EPS
  }

  /** More distance remains than braking from this speed takes. */
  predicate Far(target: real, aMax: real, s: Ref) {
    Excess(aMax, Abs(target - s.pos), s.vel) > 0.0
  }

  lemma NextSpeed(g: real, v: real, vMax: real, aMax: real)
    requires aMax > 0.0 && 0.0 <= v <= vMax && 0.0 <= g
    ensures NextVel(g, v, vMax, aMax)
         == if Excess(aMax, g, v) > 0.0 then Min(v + aMax * DT, vMax) else Max(v - aMax * DT, 0.0)
  {
    BrakeDistance(aMax, g, v);
    ScaleStrict(DT, 0.0, aMax);
    BrakeExceeds(g, v, v * v / (2.0 * aMax), aMax);
  }

  lemma BrakeExceeds(g: real, v: real, q: real, aMax: real)
    requires g <= q + EPS <==> 2.0 * aMax * g <= v * v + 2.0 * aMax * EPS
    ensures g <= q + EPS <==> Excess(aMax, g, v) <= 0.0
  {
  }

  /** Before the snap, a step changes the speed by a full push or a full brake, whichever the distance asks for. */
  lemma StepSpeed(target: real, vMax: real, aMax: real, s: Ref)
    requires aMax > 0.0 && vMax > 0.0 && target != 0.0 && Planned(target, vMax, aMax, s)
    ensures Gap(target, s) == Abs(target - s.pos)
    ensures var m := Move(target, vMax, aMax, s);
            && m.vel == (if Far(target, aMax, s) then Min(s.vel + aMax * DT, vMax) else Max(s.vel - aMax * DT, 0.0))
            && 0.0 <= m.vel <= vMax && Abs(m.vel - s.vel) <= aMax * DT
            && Gap(target, m) == Gap(target, s) - m.vel * DT
            && Step(target, vMax, aMax, s) == if Gap(target, m) <= 0.0 then Ref(target, 0.0) else m
  {
    MoveGap(target, vMax, aMax, s);
    ScaleStrict(DT, 0.0, aMax);
    PlannedRange(target, vMax, aMax, s);
    hide Planned, Under, Slack, Gap, Move, NextVel, Excess;
    NextSpeed(Gap(target, s), s.vel, vMax, aMax);
  }

  lemma PlannedRange(target: real, vMax: real, aMax: real, s: Ref)
    requires Planned(target, vMax, aMax, s)
    ensures 0.0 <= s.vel <= vMax && 0.0 <= Gap(target, s)
    ensures target == 0.0 ==> s == REST
  {
    hide Gap, Under, Slack;
  }

  /** The first `k` multiples of a step. */
  function Multiple(k: nat, x: real): real {
    (k as real) * x
  }

  lemma MultipleNext(k: nat, x: real)
    ensures Multiple(0, x) == 0.0 && Multiple(k + 1, x) == Multiple(k, x) + x
  {
  }

  lemma MultipleGrows(j: nat, k: nat, x: real)
    requires j <= k && x >= 0.0
    ensures 0.0 <= Multiple(j, x) <= Multiple(k, x)
  {
    Scale(x, 0.0, j as real);
    Scale(x, j as real, k as real);
  }

  lemma StartGap(target: real)
    ensures Gap(target, REST) == Abs(target)
  {
  }

  /** The plan cannot gain on the target faster than the speed limit. */
  lemma {:induction false} NotFaster(target: real, vMax: real, aMax: real, k: nat)
    requires aMax > 0.0 && vMax > 0.0
    ensures Gap(target, RefAt(target, vMax, aMax, k)) >= Abs(target) - Multiple(k, vMax * DT)
  {
    hide Step, RefAt, Planned, Gap, Move, Multiple, Far;
    RefAtNext(target, vMax, aMax, 0);
    StartGap(target);
    MultipleGrows(0, k, vMax * DT);
    MultipleNext(0, vMax * DT);
    PlanEnvelope(target, vMax, aMax, k);
    PlannedRange(target, vMax, aMax, RefAt(target, vMax, aMax, k));
    if k > 0 && target != 0.0 {
      var s := RefAt(target, vMax, aMax, k - 1);
      NotFaster(target, vMax, aMax, k - 1);
      PlanEnvelope(target, vMax, aMax, k - 1);
      RefAtNext(target, vMax, aMax, k - 1);
      StepSpeed(target, vMax, aMax, s);
      MultipleNext(k - 1, vMax * DT);
      OnTarget(target);
    }
  }

  lemma OnTarget(target: real)
    ensures Gap(target, Ref(target, 0.0)) == 0.0
  {
  }

  ghost predicate FarUntil(target: real, vMax: real, aMax: real, k: nat)
    requires aMax != 0.0
  {
    forall j: nat | j < k :: Far(target, aMax, RefAt(target, vMax, aMax, j))
  }

  /** While more remains than braking takes, the speed rises by the same amount every step, up to the limit. */
  lemma {:induction false} SpeedsUp(target: real, vMax: real, aMax: real, k: nat)
    requires aMax > 0.0 && vMax > 0.0 && target != 0.0 && FarUntil(target, vMax, aMax, k)
    ensures var s := RefAt(target, vMax, aMax, k);
            s == Ref(target, 0.0) || s.vel == Min(Multiple(k, aMax * DT), vMax)
  {
    hide Step, RefAt, Planned, Gap, Move, Multiple, Far;
    RefAtNext(target, vMax, aMax, 0);
    MultipleNext(0, aMax * DT);
    if k > 0 {
      var s := RefAt(target, vMax, aMax, k - 1);
      SpeedsUp(target, vMax, aMax, k - 1);
      PlanEnvelope(target, vMax, aMax, k - 1);
      RefAtNext(target, vMax, aMax, k - 1);
      StepSpeed(target, vMax, aMax, s);
      assert Far(target, aMax, s);
      OnTargetNotFar(target, aMax);
      MultipleNext(k - 1, aMax * DT);
      ScaleStrict(DT, 0.0, aMax);
    }
  }

  lemma OnTargetNotFar(target: real, aMax: real)
    requires aMax > 0.0
    ensures !Far(target, aMax, Ref(target, 0.0))
  {
  }

  /** For as long as full speed could not have used up the distance that braking from it takes. */
  lemma LongMove(target: real, vMax: real, aMax: real, k: nat)
    requires aMax > 0.0 && vMax > 0.0
    requires 2.0 * aMax * (Abs(target) - (k as real) * (vMax * DT)) > vMax * vMax + 2.0 * aMax * EPS
    ensures RefAt(target, vMax, aMax, k).vel == Min((k as real) * (aMax * DT), vMax)
  {
    var d := Abs(target) - Multiple(k, vMax * DT);
    DistanceLeft(d, vMax, aMax);
    ScaleStrict(DT, 0.0, vMax);
    MultipleGrows(0, k, vMax * DT);
    assert target != 0.0;
    forall j: nat | j <= k ensures Far(target, aMax, RefAt(target, vMax, aMax, j)) {
      StillFar(target, vMax, aMax, j, k, d);
    }
    hide Far;
    SpeedsUp(target, vMax, aMax, k);
    OnTargetNotFar(target, aMax);
    hide RefAt, Step;
  }

  lemma StillFar(target: real, vMax: real, aMax: real, j: nat, k: nat, d: real)
    requires aMax > 0.0 && vMax > 0.0 && j <= k && d == Abs(target) - Multiple(k, vMax * DT) && d > 0.0
    requires 2.0 * aMax * d > vMax * vMax + 2.0 * aMax * EPS
    ensures Far(target, aMax, RefAt(target, vMax, aMax, j))
  {
    var s := RefAt(target, vMax, aMax, j);
    NotFaster(target, vMax, aMax, j);
    MultipleGrows(j, k, vMax * DT);
    MultipleGrows(0, k, vMax * DT);
    PlanEnvelope(target, vMax, aMax, j);
    PlannedRange(target, vMax, aMax, s);
    StepSpeed(target, vMax, aMax, s);
    hide RefAt, Step, Planned, Gap, Move, Multiple;
    ExcessGrows(aMax, d, vMax, Abs(target - s.pos), s.vel);
    ExcessMeans(aMax, d, vMax);
    hide Excess;
  }

  lemma ExcessMeans(a: real, d: real, v: real)
    ensures Excess(a, d, v) > 0.0 <==> 2.0 * a * d > v * v + 2.0 * a * EPS
  {
  }

  lemma ExcessGrows(a: real, d: real, vMax: real, g: real, v: real)
    requires a > 0.0 && d <= g && 0.0 <= v <= vMax
    ensures Excess(a, g, v) >= Excess(a, d, vMax)
  {
    Scale(2.0 * a, d, g);
    Scale(v, v, vMax);
    Scale(vMax, v, vMax);
  }

  lemma DistanceLeft(d: real, vMax: real, aMax: real)
    requires aMax > 0.0 && 2.0 * aMax * d > vMax * vMax + 2.0 * aMax * EPS
    ensures d > 0.0
  {
    if d <= 0.0 { Scale(2.0 * aMax, d, 0.0); }
  }

  /** The move of 20 mm at the factory limits: 0.06 rad/s more in every step of the first tenth of a second. */
  lemma FactoryMove(k: nat)
    requires k <= 1000
    ensures RefAt(12.566, 60.0, 600.0, k).vel == 0.06 * (k as real)
  {
    hide RefAt;
    var x := k as real;
    assert x * (60.0 * DT) == 0.006 * x && x * (600.0 * DT) == 0.06 * x;
    LongMove(12.566, 60.0, 600.0, k);
  }

  // ---------------------------------------------------------------- arrival

  ghost predicate Near(target: real, s: Ref) {
    Abs(target - s.pos) <= EPS
  }

  lemma NearStays(target: real, vMax: real, aMax: real, s: Ref)
    requires aMax > 0.0 && vMax > 0.0 && Planned(target, vMax, aMax, s)
    ensures Near(target, s) ==> Near(target, Step(target, vMax, aMax, s))
  {
    StepEnvelope(target, vMax, aMax, s);
  }

  lemma NearBrakes(target: real, vMax: real, aMax: real, s: Ref)
    requires aMax > 0.0 && vMax > 0.0 && Planned(target, vMax, aMax, s) && Near(target, s)
    ensures Step(target, vMax, aMax, s).vel <= Max(s.vel - aMax * DT, 0.0)
    ensures s.vel == 0.0 ==> Step(target, vMax, aMax, s) == s
  {
    if target != 0.0 {
      MoveGap(target, vMax, aMax, s);
      hide Under, Slack;
      NearSlows(Gap(target, s), s.vel, vMax, aMax);
    }
  }

  /** Within the tolerance the planner always brakes. */
  lemma NearSlows(g: real, v: real, vMax: real, aMax: real)
    requires aMax > 0.0 && 0.0 <= g <= EPS
    ensures NextVel(g, v, vMax, aMax) == Max(v - aMax * DT, 0.0)
  {
    BrakeDistance(aMax, g, v);
    assert v * v >= 0.0;
    Scale(2.0 * aMax, g, EPS);
  }

  /** By how much one step of braking per step of speed adds to the excess. */
  function Drag(a: real, v: real): real {
    a * DT * v
  }

  /** Braking all the way now ends within the tolerance, or on the target. */
  predicate Committed(target: real, aMax: real, s: Ref) {
    Excess(aMax, Gap(target, s), s.vel) + Drag(aMax, s.vel) <= 0.0
  }

  lemma DragGrows(a: real, v: real, u: real)
    requires a > 0.0 && 0.0 <= v <= u
    ensures 0.0 <= Drag(a, v) <= Drag(a, u)
  {
    Scale(a * DT, 0.0, v);
    Scale(a * DT, v, u);
  }

  lemma BrakeExcess(a: real, g: real, v: real, u: real)
    requires a > 0.0 && v >= 0.0 && u == Max(v - a * DT, 0.0)
    ensures Excess(a, g - u * DT, u) + Drag(a, u) <= Excess(a, g, v) + Drag(a, v)
  {
    var h := a * DT;
    if v >= h {
      assert 2.0 * a * (g - u * DT) == 2.0 * a * g - 2.0 * h * u;
      assert u * u == v * v - 2.0 * h * v + h * h;
      assert h * u == h * v - h * h;
    } else {
      Scale(v, v, h);
    }
  }

  lemma PushExcess(a: real, g: real, v: real, u: real)
    requires a > 0.0 && 0.0 <= v <= u
    ensures Excess(a, g - u * DT, u) + Drag(a, u) <= Excess(a, g, v) - Drag(a, u)
  {
    var h := a * DT;
    assert 2.0 * a * (g - u * DT) == 2.0 * a * g - 2.0 * h * u;
    Scale(u, v, u);
    Scale(v, v, u);
  }

  /** Committed, the plan brakes in every step and stays committed. */
  lemma CommittedBrakes(target: real, vMax: real, aMax: real, s: Ref)
    requires aMax > 0.0 && vMax > 0.0 && target != 0.0
    requires Planned(target, vMax, aMax, s) && Committed(target, aMax, s)
    ensures var n := Step(target, vMax, aMax, s);
            Committed(target, aMax, n) && n.vel <= Max(s.vel - aMax * DT, 0.0)
  {
    StepSpeed(target, vMax, aMax, s);
    PlannedRange(target, vMax, aMax, s);
    CommittedThere(target, aMax);
    hide Planned, Gap, Move, Step, Excess, Drag;
    DragGrows(aMax, 0.0, s.vel);
    BrakeExcess(aMax, Gap(target, s), s.vel, Max(s.vel - aMax * DT, 0.0));
  }

  lemma CommittedThere(target: real, aMax: real)
    requires aMax > 0.0
    ensures Committed(target, aMax, Ref(target, 0.0))
  {
  }

  /** A push right after braking commits: it uses up more distance than it would take to regain. */
  lemma PushCommits(target: real, vMax: real, aMax: real, s: Ref)
    requires aMax > 0.0 && vMax > 0.0 && target != 0.0 && Planned(target, vMax, aMax, s) && !Far(target, aMax, s)
    ensures var n := Step(target, vMax, aMax, s);
            && (Far(target, aMax, n) ==> Committed(target, aMax, Step(target, vMax, aMax, n)))
            && n.vel <= Max(s.vel - aMax * DT, 0.0)
  {
    var n := Step(target, vMax, aMax, s);
    StepSpeed(target, vMax, aMax, s);
    PlannedRange(target, vMax, aMax, s);
    OnTargetNotFar(target, aMax);
    CommittedThere(target, aMax);
    StepEnvelope(target, vMax, aMax, s);
    ScaleStrict(DT, 0.0, aMax);
    hide Planned, Gap, Move, Step, Excess, Drag, Under, Slack;
    if Far(target, aMax, n) {
      var u := Min(n.vel + aMax * DT, vMax);
      StepSpeed(target, vMax, aMax, n);
      PlannedRange(target, vMax, aMax, n);
      BrakeExcess(aMax, Gap(target, s), s.vel, n.vel);
      PushExcess(aMax, Gap(target, n), n.vel, u);
      DragGrows(aMax, s.vel, u);
      DragGrows(aMax, n.vel, n.vel);
    }
  }

  /** Once braking has begun with speed for `m` steps, the plan is committed soon after. */
  lemma {:induction false} CommitsSoon(target: real, vMax: real, aMax: real, k: nat, m: nat) returns (i: nat)
    requires aMax > 0.0 && vMax > 0.0 && target != 0.0
    requires var s := RefAt(target, vMax, aMax, k); !Far(target, aMax, s) && s.vel <= Multiple(m, aMax * DT)
    ensures i <= k + m + 1 && Committed(target, aMax, RefAt(target, vMax, aMax, i))
    decreases m
  {
    hide RefAt, Step, Planned, Gap, Move, Multiple, Excess, Drag;
    var s := RefAt(target, vMax, aMax, k);
    PlanEnvelope(target, vMax, aMax, k);
    PlannedRange(target, vMax, aMax, s);
    MultipleNext(0, aMax * DT);
    if m == 0 {
      i := k;
      StepSpeed(target, vMax, aMax, s);
      NoDrag(aMax);
    } else {
      RefAtNext(target, vMax, aMax, k);
      RefAtNext(target, vMax, aMax, k + 1);
      PushCommits(target, vMax, aMax, s);
      if Far(target, aMax, RefAt(target, vMax, aMax, k + 1)) {
        i := k + 2;
      } else {
        hide Far;
        MultipleNext(m - 1, aMax * DT);
        ScaleStrict(DT, 0.0, aMax);
        MultipleGrows(0, m - 1, aMax * DT);
        i := CommitsSoon(target, vMax, aMax, k + 1, m - 1);
      }
    }
  }

  lemma NoDrag(a: real)
    ensures Drag(a, 0.0) == 0.0
  {
  }

  /** From then on the speed falls to zero. */
  lemma {:induction false} Coasts(target: real, vMax: real, aMax: real, k: nat, j: nat)
    requires aMax > 0.0 && vMax > 0.0 && target != 0.0 && Committed(target, aMax, RefAt(target, vMax, aMax, k))
    ensures var s := RefAt(target, vMax, aMax, k + j);
            Committed(target, aMax, s) && s.vel <= Max(vMax - Multiple(j, aMax * DT), 0.0)
  {
    hide RefAt, Step, Committed, Planned, Gap, Multiple;
    MultipleNext(0, aMax * DT);
    PlanEnvelope(target, vMax, aMax, k);
    PlannedRange(target, vMax, aMax, RefAt(target, vMax, aMax, k));
    if j > 0 {
      Coasts(target, vMax, aMax, k, j - 1);
      PlanEnvelope(target, vMax, aMax, k + j - 1);
      RefAtNext(target, vMax, aMax, k + j - 1);
      CommittedBrakes(target, vMax, aMax, RefAt(target, vMax, aMax, k + j - 1));
      MultipleNext(j - 1, aMax * DT);
      ScaleStrict(DT, 0.0, aMax);
    }
  }

  /** `aMax` times the distance full speed from the start would be ahead by, is at most `vMax` times the speed. */
  predicate Lags(vMax: real, aMax: real, lag: real, v: real) {
    aMax * lag <= vMax * v
  }

  /** While far, the plan lags behind full speed by no more than speeding up costs. */
  lemma {:induction false} LagWhileFar(target: real, vMax: real, aMax: real, k: nat)
    requires aMax > 0.0 && vMax > 0.0 && target != 0.0 && FarUntil(target, vMax, aMax, k)
    ensures var s := RefAt(target, vMax, aMax, k);
            s == Ref(target, 0.0)
            || Lags(vMax, aMax, Multiple(k, vMax * DT) - Abs(target) + Gap(target, s), s.vel)
  {
    hide Step, RefAt, Planned, Gap, Move, Multiple, Far, Lags;
    RefAtNext(target, vMax, aMax, 0);
    MultipleNext(0, vMax * DT);
    if k > 0 {
      var s := RefAt(target, vMax, aMax, k - 1);
      LagWhileFar(target, vMax, aMax, k - 1);
      PlanEnvelope(target, vMax, aMax, k - 1);
      PlannedRange(target, vMax, aMax, s);
      RefAtNext(target, vMax, aMax, k - 1);
      StepSpeed(target, vMax, aMax, s);
      assert Far(target, aMax, s);
      OnTargetNotFar(target, aMax);
      MultipleNext(k - 1, vMax * DT);
      LagStep(vMax, aMax, Multiple(k - 1, vMax * DT) - Abs(target) + Gap(target, s), s.vel,
              Min(s.vel + aMax * DT, vMax));
    } else {
      StartGap(target);
      NoLag(vMax, aMax);
    }
  }

  lemma NoLag(vMax: real, aMax: real)
    ensures Lags(vMax, aMax, 0.0, 0.0)
  {
  }

  lemma LagStep(vMax: real, aMax: real, lag: real, v: real, u: real)
    requires aMax > 0.0 && 0.0 <= v <= vMax && u == Min(v + aMax * DT, vMax) && Lags(vMax, aMax, lag, v)
    ensures Lags(vMax, aMax, lag + vMax * DT - u * DT, u)
  {
    var h := aMax * DT;
    assert aMax * (lag + vMax * DT - u * DT) == aMax * lag + h * (vMax - u);
    if u == v + h {
      assert vMax * u == vMax * v + vMax * h;
      Scale(h, vMax - u, vMax);
    } else {
      Scale(vMax, v, u);
    }
  }

  /** The planner begins to brake in time. */
  lemma BrakesInTime(target: real, vMax: real, aMax: real, n: nat) returns (k: nat)
    requires aMax > 0.0 && vMax > 0.0 && target != 0.0
    requires n as real > Abs(target) / (vMax * DT) + vMax / (aMax * DT)
    ensures k <= n && !Far(target, aMax, RefAt(target, vMax, aMax, k))
  {
    hide RefAt, Far, Lags, Planned, Gap;
    if FarUntil(target, vMax, aMax, n + 1) {
      var s := RefAt(target, vMax, aMax, n);
      LagWhileFar(target, vMax, aMax, n);
      PlanEnvelope(target, vMax, aMax, n);
      PlannedRange(target, vMax, aMax, s);
      assert Far(target, aMax, s);
      OnTargetNotFar(target, aMax);
      TooLong(Abs(target), vMax, aMax, n, Gap(target, s), s.vel);
      assert false;
    } else {
      k :| k <= n && !Far(target, aMax, RefAt(target, vMax, aMax, k));
    }
  }

  lemma TooLong(t: real, vMax: real, aMax: real, n: nat, g: real, v: real)
    requires aMax > 0.0 && vMax > 0.0 && g >= 0.0 && 0.0 <= v <= vMax
    requires n as real > t / (vMax * DT) + vMax / (aMax * DT)
    ensures !Lags(vMax, aMax, Multiple(n, vMax * DT) - t + g, v)
  {
    var p, q, w := t / (vMax * DT), vMax / (aMax * DT), vMax * DT;
    assert p * w == t && q * (aMax * DT) == vMax;
    ScaleStrict(w, p + q, n as real);
    Spread(p, q, w, n as real);
    var lag := Multiple(n, w) - t + g;
    ScaleStrict(aMax, q * w, lag);
    LagAt(vMax, aMax, q);
    Scale(vMax, v, vMax);
  }

  lemma Spread(p: real, q: real, w: real, n: real)
    ensures w * (p + q) == p * w + q * w && w * n == n * w
  {
  }

  lemma LagAt(vMax: real, aMax: real, q: real)
    requires q * (aMax * DT) == vMax
    ensures aMax * (q * (vMax * DT)) == vMax * vMax
  {
    assert aMax * (q * (vMax * DT)) == vMax * (q * (aMax * DT));
  }

  /**
   Steps after which the plan stands still: the distance at full speed, and three times
   what it takes to reach that speed.
   */
  function StillAfter(target: real, vMax: real, aMax: real): nat
    requires aMax > 0.0 && vMax > 0.0
  {
    QuotientNonNegative(Abs(target), vMax * DT);
    QuotientNonNegative(vMax, aMax * DT);
    (Abs(target) / (vMax * DT)).Floor + 3 * (vMax / (aMax * DT)).Floor + 5
  }

  lemma QuotientNonNegative(x: real, y: real)
    requires x >= 0.0 && y > 0.0
    ensures x / y >= 0.0
  {
    assert x / y * y == x;
  }

  lemma StepsExceed(x: real, y: real, j: nat)
    requires y > 0.0 && j as real > x / y
    ensures Multiple(j, y) > x
  {
    assert x / y * y == x;
    ScaleStrict(y, x / y, j as real);
  }

  /** The two parts of that number, and what they suffice for. */
  lemma Budget(target: real, vMax: real, aMax: real) returns (p: nat, q: nat)
    requires aMax > 0.0 && vMax > 0.0
    ensures StillAfter(target, vMax, aMax) == p + 3 * q + 5
    ensures (p + q + 2) as real > Abs(target) / (vMax * DT) + vMax / (aMax * DT)
    ensures Multiple(q + 1, aMax * DT) > vMax
  {
    var x, y := Abs(target) / (vMax * DT), vMax / (aMax * DT);
    QuotientNonNegative(Abs(target), vMax * DT);
    QuotientNonNegative(vMax, aMax * DT);
    p, q := x.Floor, y.Floor;
    StepsExceed(vMax, aMax * DT, q + 1);
    hide Multiple;
  }

  lemma StandsAt(target: real, vMax: real, aMax: real, k: nat)
    requires aMax > 0.0 && vMax > 0.0 && k >= StillAfter(target, vMax, aMax)
    ensures var s := RefAt(target, vMax, aMax, k); s.vel == 0.0 && Near(target, s)
  {
    hide RefAt, Step, Far, Committed, Planned, Gap, Move, Multiple, StillAfter;
    var s := RefAt(target, vMax, aMax, k);
    PlanEnvelope(target, vMax, aMax, k);
    PlannedRange(target, vMax, aMax, s);
    if target != 0.0 {
      var p, q := Budget(target, vMax, aMax);
      var first := BrakesInTime(target, vMax, aMax, p + q + 2);
      PlanEnvelope(target, vMax, aMax, first);
      PlannedRange(target, vMax, aMax, RefAt(target, vMax, aMax, first));
      var i := CommitsSoon(target, vMax, aMax, first, q + 1);
      Coasts(target, vMax, aMax, i, k - i);
      ScaleStrict(DT, 0.0, aMax);
      MultipleGrows(q + 1, k - i, aMax * DT);
      CommittedAtRest(target, aMax, s);
      StepSpeed(target, vMax, aMax, s);
    }
  }

  lemma CommittedAtRest(target: real, aMax: real, s: Ref)
    requires aMax > 0.0 && Committed(target, aMax, s) && s.vel == 0.0
    ensures Gap(target, s) <= EPS
  {
    if Gap(target, s) > EPS { ScaleStrict(2.0 * aMax, EPS, Gap(target, s)); }
    hide Gap;
  }

  /** The plan is within the tolerance from then on, and cannot be before full speed could have covered the distance. */
  lemma Converges(target: real, vMax: real, aMax: real, k: nat)
    requires aMax > 0.0 && vMax > 0.0
    ensures k >= StillAfter(target, vMax, aMax) ==> Near(target, RefAt(target, vMax, aMax, k))
    ensures Near(target, RefAt(target, vMax, aMax, k)) ==> Abs(target) <= (k as real) * (vMax * DT) + EPS
  {
    NotFaster(target, vMax, aMax, k);
    if k >= StillAfter(target, vMax, aMax) { StandsAt(target, vMax, aMax, k); }
    hide RefAt, StillAfter;
  }

  /**
   The plan ends in one standing position: the target itself, or a point short of
   it by no more than the tolerance, where the planner stops for good.
   */
  lemma ComesToRest(target: real, vMax: real, aMax: real, k: nat)
    requires aMax > 0.0 && vMax > 0.0 && k >= StillAfter(target, vMax, aMax)
    ensures var s := RefAt(target, vMax, aMax, k);
            && s.vel == 0.0 && RefAt(target, vMax, aMax, k + 1) == s
            && Abs(target - s.pos) <= EPS && 0.0 <= Gap(target, s)
  {
    hide RefAt, Step, StillAfter;
    StandsAt(target, vMax, aMax, k);
    PlanEnvelope(target, vMax, aMax, k);
    NearBrakes(target, vMax, aMax, RefAt(target, vMax, aMax, k));
    RefAtNext(target, vMax, aMax, k);
  }
}
