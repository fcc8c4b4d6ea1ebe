/**
 The simulated servo following a plan: `simulate_transition` in
 `executor/pmsm_sim.py`, over exact reals. `tanh` is any function bounded by one,
 the measurement noise any sequence of reals.
 */
module Servo {
  import opened Common
  import opened Planner

  const KT := 1.4
  const J := 0.012
  const B := 0.002
  const T_FRIC := 0.5
  const DV_TO_NM := 0.006

  datatype Gains = Gains(kpPos: real, kpVel: real, kiVel: real, vMax: real, aMax: real, iqLimit: real)

  datatype Drive = Drive(th: real, w: real, iqInt: real, braked: bool)

  const START := Drive(0.0, 0.0, 0.0, false)

  /** What the loop reads: the target, the load, the gains and the two outside functions. */
  datatype Setup = Setup(target: real, dv: real, g: Gains, noise: nat -> real, tanh: real -> real)

  ghost predicate Bounded(tanh: real -> real) {
    forall x :: -1.0 <= tanh(x) <= 1.0
  }

  /** `np.clip(x, lo, hi)`. */
  function Clip(x: real, lo: real, hi: real): real {
    Min(Max(x, lo), hi)
  }

  function Resistance(dv: real): real {
    T_FRIC + dv * DV_TO_NM
  }

  /** Speed error: position feedback on the noisy measurement, plus feed-forward. */
  function SpeedError(u: Setup, measured: real, w: real, ref: real, vref: real): real {
    u.g.kpPos * (ref - measured) + vref - w
  }

  function Integrate(u: Setup, iqInt: real, e: real): real {
    Clip(iqInt + u.g.kiVel * e * DT, -u.g.iqLimit, u.g.iqLimit)
  }

  function Current(u: Setup, iqInt: real, e: real): real {
    Clip(u.g.kpVel * e + iqInt, -u.g.iqLimit, u.g.iqLimit)
  }

  function Accelerate(u: Setup, w: real, iq: real): real {
    w + (KT * iq - B * w - Resistance(u.dv) * u.tanh(w / 0.05)) / J * DT
  }

  /** The condition under which the brake engages. */
  predicate Arrived(u: Setup, k: nat, th: real, w: real, ref: real, vref: real) {
    k > 0 && vref == 0.0 && ref == u.target && Abs(u.target - th) < 0.002 * u.target && Abs(w) < 0.5
  }

  function DriveStep(u: Setup, k: nat, d: Drive, ref: real, vref: real): Drive {
    if d.braked then d
    else
      var e := SpeedError(u, d.th + u.noise(k), d.w, ref, vref);
      var iqInt := Integrate(u, d.iqInt, e);
      var w := Accelerate(u, d.w, Current(u, iqInt, e));
      var th := d.th + w * DT;
      Drive(th, w, iqInt, Arrived(u, k, th, w, ref, vref))
  }

  function Drawn(u: Setup, k: nat, d: Drive, ref: real, vref: real): real {
    var e := SpeedError(u, d.th + u.noise(k), d.w, ref, vref);
    if d.braked then 0.0 else Current(u, Integrate(u, d.iqInt, e), e)
  }

  function RefPos(u: Setup, k: nat): real
    requires u.g.aMax != 0.0
  {
    RefAt(u.target, u.g.vMax, u.g.aMax, k + 1).pos
  }

  function RefVel(u: Setup, k: nat): real
    requires u.g.aMax != 0.0
  {
    Along(u.target, RefAt(u.target, u.g.vMax, u.g.aMax, k + 1).vel)
  }

  /** The drive after `k` steps. */
  function DriveAt(u: Setup, k: nat): Drive
    requires u.g.aMax != 0.0
  {
    if k == 0 then START else DriveStep(u, k - 1, DriveAt(u, k - 1), RefPos(u, k - 1), RefVel(u, k - 1))
  }

  /** The recorded current of step `k`: zero once the brake is on. */
  function IqAt(u: Setup, k: nat): real
    requires u.g.aMax != 0.0
  {
    Drawn(u, k, DriveAt(u, k), RefPos(u, k), RefVel(u, k))
  }

  method SimulateTransition(u: Setup, n: nat) returns (th: array<real>, w: array<real>, iq: array<real>)
    requires u.g.aMax != 0.0
    ensures fresh(th) && fresh(w) && fresh(iq) && th.Length == w.Length == iq.Length == n
    ensures forall k | 0 <= k < n :: th[k] == DriveAt(u, k + 1).th && w[k] == DriveAt(u, k + 1).w
    ensures forall k | 0 <= k < n :: iq[k] == IqAt(u, k)
  {
    hide RefAt, DriveAt, IqAt, SpeedError, Integrate, Current, Accelerate, Arrived, Along;
    var ref, vref := TrapezoidRef(u.target, u.g.vMax, u.g.aMax, n);
    th, w, iq := new real[n], new real[n], new real[n](_ => 0.0);
    var theta, omega, iqInt, braked := 0.0, 0.0, 0.0, false;
    DriveAtNext(u, 0);
    for k := 0 to n
      invariant Drive(theta, omega, iqInt, braked) == DriveAt(u, k)
      invariant forall j | 0 <= j < n :: ref[j] == RefPos(u, j) && vref[j] == RefVel(u, j)
      invariant forall j | 0 <= j < k :: th[j] == DriveAt(u, j + 1).th && w[j] == DriveAt(u, j + 1).w
      invariant forall j | 0 <= j < k :: iq[j] == IqAt(u, j)
      invariant forall j | k <= j < n :: iq[j] == 0.0
    {
      DriveAtNext(u, k);
      var measured := theta + u.noise(k);
      var pos, vel := ref[k], vref[k];
      if !braked {
        var e := SpeedError(u, measured, omega, pos, vel);
        iqInt := Integrate(u, iqInt, e);
        var i := Current(u, iqInt, e);
        omega := Accelerate(u, omega, i);
        theta := theta + omega * DT;
        iq[k] := i;
        if Arrived(u, k, theta, omega, pos, vel) {
          braked := true;
        }
      }
      th[k], w[k] := theta, omega;
    }
  }

  lemma DriveAtNext(u: Setup, k: nat)
    requires u.g.aMax != 0.0
    ensures DriveAt(u, 0) == START
    ensures DriveAt(u, k + 1) == DriveStep(u, k, DriveAt(u, k), RefPos(u, k), RefVel(u, k))
    ensures IqAt(u, k) == Drawn(u, k, DriveAt(u, k), RefPos(u, k), RefVel(u, k))
  {
  }

  // ---------------------------------------------------------------- the control law and the law of motion

  /** The speed error of step `k`: position feedback on the measurement, feed-forward, less the speed. */
  function ErrorAt(u: Setup, k: nat): real
    requires u.g.aMax != 0.0
  {
    u.g.kpPos * (RefPos(u, k) - (DriveAt(u, k).th + u.noise(k))) + RefVel(u, k) - DriveAt(u, k).w
  }

  /** The errors of the steps before `k`, added up. */
  function ErrorSum(u: Setup, k: nat): real
    requires u.g.aMax != 0.0
  {
    if k == 0 then 0.0 else ErrorSum(u, k - 1) + ErrorAt(u, k - 1)
  }

  /** The integral and the whole current the proportional-integral law asks for in step `k`. */
  function IntegralAt(u: Setup, k: nat): real
    requires u.g.aMax != 0.0
  {
    u.g.kiVel * 0.0001 * ErrorSum(u, k + 1)
  }

  function AskedAt(u: Setup, k: nat): real
    requires u.g.aMax != 0.0
  {
    u.g.kpVel * ErrorAt(u, k) + IntegralAt(u, k)
  }

  /** The brake is off and neither limit has been met up to step `k`. */
  ghost predicate Unlimited(u: Setup, k: nat)
    requires u.g.aMax != 0.0
  {
    forall j: nat | j <= k ::
      !DriveAt(u, j).braked && Abs(IntegralAt(u, j)) <= u.g.iqLimit && Abs(AskedAt(u, j)) <= u.g.iqLimit
  }

  lemma ClipKeeps(x: real, limit: real)
    requires Abs(x) <= limit
    ensures Clip(x, -limit, limit) == x
  {
  }

  lemma IntegralNext(u: Setup, k: nat)
    requires u.g.aMax != 0.0
    ensures IntegralAt(u, k)
         == (if k == 0 then 0.0 else IntegralAt(u, k - 1)) + u.g.kiVel * ErrorAt(u, k) * 0.0001
  {
    hide ErrorAt;
    var s, e, ki := ErrorSum(u, k), ErrorAt(u, k), u.g.kiVel;
    assert ErrorSum(u, k + 1) == s + e;
    assert ki * 0.0001 * (s + e) == ki * 0.0001 * s + ki * e * 0.0001;
  }

  lemma IntegrateIs(u: Setup, i: real, e: real, p: real)
    requires p == u.g.kiVel * e && Abs(i + p * 0.0001) <= u.g.iqLimit
    ensures Integrate(u, i, e) == i + p * 0.0001
  {
    hide Clip, Integrate;
    IntegrateClips(u, i, e, p);
    ClipKeeps(i + p * 0.0001, u.g.iqLimit);
  }

  lemma CurrentIs(u: Setup, i: real, e: real, p: real)
    requires p == u.g.kpVel * e && Abs(p + i) <= u.g.iqLimit
    ensures Current(u, i, e) == p + i
  {
    hide Clip, Current;
    CurrentClips(u, i, e, p);
    ClipKeeps(p + i, u.g.iqLimit);
  }

  lemma PiStep(u: Setup, k: nat, d: Drive, ref: real, vref: real, p: real, q: real)
    requires !d.braked
    requires var e := SpeedError(u, d.th + u.noise(k), d.w, ref, vref); p == u.g.kiVel * e && q == u.g.kpVel * e
    requires var i := d.iqInt + p * 0.0001; Abs(i) <= u.g.iqLimit && Abs(q + i) <= u.g.iqLimit
    ensures var i := d.iqInt + p * 0.0001;
            Drawn(u, k, d, ref, vref) == q + i && DriveStep(u, k, d, ref, vref).iqInt == i
  {
    var e := SpeedError(u, d.th + u.noise(k), d.w, ref, vref);
    IntegrateIs(u, d.iqInt, e, p);
    CurrentIs(u, d.iqInt + p * 0.0001, e, q);
    hide SpeedError, Integrate, Current, Accelerate, Arrived;
  }

  lemma ErrorIs(u: Setup, k: nat)
    requires u.g.aMax != 0.0
    ensures ErrorAt(u, k)
         == SpeedError(u, DriveAt(u, k).th + u.noise(k), DriveAt(u, k).w, RefPos(u, k), RefVel(u, k))
  {
    hide DriveAt, RefPos, RefVel;
  }

  lemma AskedIs(u: Setup, k: nat)
    requires u.g.aMax != 0.0
    ensures AskedAt(u, k) == u.g.kpVel * ErrorAt(u, k) + IntegralAt(u, k)
  {
    hide ErrorAt, IntegralAt;
  }

  /**
   The control law over a run: as long as no limit has been met, the current of step `k`
   is the proportional gain times its error, plus the integral gain times the sum of all
   errors so far over the sampling time.
   */
  lemma {:induction false} PiLaw(u: Setup, k: nat)
    requires u.g.aMax != 0.0 && Unlimited(u, k)
    ensures IqAt(u, k) == AskedAt(u, k) && DriveAt(u, k + 1).iqInt == IntegralAt(u, k)
  {
    hide RefPos, RefVel, DriveAt, IqAt, IntegralAt, AskedAt, ErrorAt;
    if k > 0 { PiLaw(u, k - 1); }
    DriveAtNext(u, k);
    hide DriveStep, Drawn;
    PiNext(u, k, if k == 0 then 0.0 else IntegralAt(u, k - 1));
  }

  lemma PiNext(u: Setup, k: nat, before: real)
    requires u.g.aMax != 0.0 && !DriveAt(u, k).braked && DriveAt(u, k).iqInt == before
    requires before == if k == 0 then 0.0 else IntegralAt(u, k - 1)
    requires Abs(IntegralAt(u, k)) <= u.g.iqLimit && Abs(AskedAt(u, k)) <= u.g.iqLimit
    ensures IqAt(u, k) == AskedAt(u, k) && DriveAt(u, k + 1).iqInt == IntegralAt(u, k)
  {
    hide RefPos, RefVel, DriveAt, IqAt, IntegralAt, AskedAt, ErrorAt, DriveStep, Drawn, SpeedError;
    DriveAtNext(u, k);
    IntegralNext(u, k);
    ErrorIs(u, k);
    AskedIs(u, k);
    PiStep(u, k, DriveAt(u, k), RefPos(u, k), RefVel(u, k), u.g.kiVel * ErrorAt(u, k), u.g.kpVel * ErrorAt(u, k));
  }

  /** The integral is held within the current limit, whatever the errors. */
  lemma {:induction false} IntegralBounded(u: Setup, k: nat)
    requires u.g.aMax != 0.0 && u.g.iqLimit >= 0.0
    ensures Abs(DriveAt(u, k).iqInt) <= u.g.iqLimit
  {
    hide RefAt, DriveAt, SpeedError, Accelerate, Arrived, Current;
    DriveAtNext(u, 0);
    if k > 0 {
      IntegralBounded(u, k - 1);
      DriveAtNext(u, k - 1);
    }
  }

  lemma ScaleUp(k: real, x: real, y: real)
    requires 0.0 <= k && x <= y
    ensures k * x <= k * y
  {
    assert k * (y - x) >= 0.0;
  }

  lemma ErrorGrows(u: Setup, m: real, m': real, w: real, w': real, ref: real, ref': real, vref: real, vref': real)
    requires u.g.kpPos >= 0.0 && m' <= m && w' <= w && ref <= ref' && vref <= vref'
    ensures SpeedError(u, m, w, ref, vref) <= SpeedError(u, m', w', ref', vref')
  {
    ScaleUp(u.g.kpPos, ref - m, ref' - m');
  }

  lemma ClipGrows(x: real, y: real, lo: real, hi: real)
    requires x <= y
    ensures Clip(x, lo, hi) <= Clip(y, lo, hi)
  {
  }

  lemma IntegrateClips(u: Setup, i: real, e: real, p: real)
    requires p == u.g.kiVel * e
    ensures Integrate(u, i, e) == Clip(i + p * 0.0001, -u.g.iqLimit, u.g.iqLimit)
  {
    assert u.g.kiVel * e * DT == p * 0.0001;
    hide Clip;
  }

  lemma CurrentClips(u: Setup, i: real, e: real, p: real)
    requires p == u.g.kpVel * e
    ensures Current(u, i, e) == Clip(p + i, -u.g.iqLimit, u.g.iqLimit)
  {
    hide Clip;
  }

  lemma IntegrateGrows(u: Setup, i: real, i': real, e: real, e': real, p: real, p': real)
    requires p == u.g.kiVel * e && p' == u.g.kiVel * e' && i <= i' && p <= p'
    ensures Integrate(u, i, e) <= Integrate(u, i', e')
  {
    hide Clip, Integrate;
    IntegrateClips(u, i, e, p);
    IntegrateClips(u, i', e', p');
    ClipGrows(i + p * 0.0001, i' + p' * 0.0001, -u.g.iqLimit, u.g.iqLimit);
  }

  lemma CurrentGrows(u: Setup, i: real, i': real, e: real, e': real, p: real, p': real)
    requires p == u.g.kpVel * e && p' == u.g.kpVel * e' && i <= i' && p <= p'
    ensures Current(u, i, e) <= Current(u, i', e')
  {
    hide Clip, Current;
    CurrentClips(u, i, e, p);
    CurrentClips(u, i', e', p');
    ClipGrows(p + i, p' + i', -u.g.iqLimit, u.g.iqLimit);
  }

  /**
   The feedback opposes every deviation: a drive further along, or faster, or with less
   integral, or with a plan further behind or slower, never draws more current.
   */
  lemma FeedbackOpposes(
    u: Setup, k: nat, d: Drive, d': Drive, ref: real, ref': real, vref: real, vref': real)
    requires u.g.kpPos >= 0.0 && u.g.kpVel >= 0.0 && u.g.kiVel >= 0.0 && !d.braked && !d'.braked
    requires d'.th <= d.th && d'.w <= d.w && d.iqInt <= d'.iqInt && ref <= ref' && vref <= vref'
    ensures Drawn(u, k, d, ref, vref) <= Drawn(u, k, d', ref', vref')
  {
    var m, m' := d.th + u.noise(k), d'.th + u.noise(k);
    ErrorGrows(u, m, m', d.w, d'.w, ref, ref', vref, vref');
    var e, e' := SpeedError(u, m, d.w, ref, vref), SpeedError(u, m', d'.w, ref', vref');
    hide SpeedError, Integrate, Current;
    ScaleUp(u.g.kiVel, e, e');
    ScaleUp(u.g.kpVel, e, e');
    IntegrateGrows(u, d.iqInt, d'.iqInt, e, e', u.g.kiVel * e, u.g.kiVel * e');
    CurrentGrows(u, Integrate(u, d.iqInt, e), Integrate(u, d'.iqInt, e'), e, e', u.g.kpVel * e, u.g.kpVel * e');
  }

  /** Measured on the plan, at its speed and with nothing integrated, the drive draws nothing. */
  lemma OnPlanDrawsNothing(u: Setup, k: nat, d: Drive, ref: real, vref: real)
    requires u.g.iqLimit >= 0.0 && d.th + u.noise(k) == ref && d.w == vref && d.iqInt == 0.0
    ensures Drawn(u, k, d, ref, vref) == 0.0
  {
    assert SpeedError(u, d.th + u.noise(k), d.w, ref, vref) == 0.0;
    hide SpeedError;
  }

  /** Inertia times acceleration is motor torque less viscous friction less the resistance. */
  predicate LawOfMotion(u: Setup, w: real, iq: real, w': real) {
    0.012 * (w' - w) == (1.4 * iq - 0.002 * w - (0.5 + 0.006 * u.dv) * u.tanh(w / 0.05)) * 0.0001
  }

  lemma StepLaw(u: Setup, k: nat, d: Drive, ref: real, vref: real)
    requires !d.braked
    ensures var n := DriveStep(u, k, d, ref, vref);
            LawOfMotion(u, d.w, Drawn(u, k, d, ref, vref), n.w) && n.th == d.th + n.w * 0.0001
  {
    hide SpeedError, Integrate, Current, Arrived;
  }

  /** An unbraked step obeys the law of motion under the current recorded for it. */
  lemma NewtonsLaw(u: Setup, k: nat)
    requires u.g.aMax != 0.0 && !DriveAt(u, k).braked
    ensures var d, n := DriveAt(u, k), DriveAt(u, k + 1);
            LawOfMotion(u, d.w, IqAt(u, k), n.w) && n.th == d.th + n.w * 0.0001
  {
    DriveAtNext(u, k);
    hide DriveAt, IqAt, RefPos, RefVel, DriveStep, Drawn, LawOfMotion;
    StepLaw(u, k, DriveAt(u, k), RefPos(u, k), RefVel(u, k));
  }

  /**
   The calibration law: in a step that leaves the speed as it is, the current balances
   friction and load; where `tanh` has saturated it is linear in the degradation value.
   */
  lemma Plateau(u: Setup, k: nat)
    requires u.g.aMax != 0.0 && !DriveAt(u, k).braked && DriveAt(u, k + 1).w == DriveAt(u, k).w
    ensures var w := DriveAt(u, k).w;
            && 1.4 * IqAt(u, k) == 0.002 * w + (0.5 + 0.006 * u.dv) * u.tanh(w / 0.05)
            && (u.tanh(w / 0.05) == 1.0 ==> IqAt(u, k) == (0.5 + 0.006 * u.dv + 0.002 * w) / 1.4)
  {
    hide DriveAt, IqAt;
    NewtonsLaw(u, k);
    Balanced(u, DriveAt(u, k).w, IqAt(u, k), u.tanh(DriveAt(u, k).w / 0.05));
  }

  lemma Balanced(u: Setup, w: real, iq: real, t: real)
    requires LawOfMotion(u, w, iq, w) && t == u.tanh(w / 0.05)
    ensures 1.4 * iq == 0.002 * w + (0.5 + 0.006 * u.dv) * t
    ensures t == 1.0 ==> iq == (0.5 + 0.006 * u.dv + 0.002 * w) / 1.4
  {
    var load := (0.5 + 0.006 * u.dv) * t;
    assert (1.4 * iq - 0.002 * w - load) * 0.0001 == 0.0;
  }

  /** Without current a moving drive slows down, whichever way it moves. */
  lemma LoadOpposes(u: Setup, k: nat)
    requires u.g.aMax != 0.0 && !DriveAt(u, k).braked && IqAt(u, k) == 0.0 && u.dv >= 0.0
    requires forall x :: (x > 0.0 ==> u.tanh(x) > 0.0) && (x < 0.0 ==> u.tanh(x) < 0.0)
    ensures var d, n := DriveAt(u, k), DriveAt(u, k + 1);
            (d.w > 0.0 ==> n.w < d.w) && (d.w < 0.0 ==> n.w > d.w)
  {
    hide DriveAt, IqAt;
    NewtonsLaw(u, k);
    var w := DriveAt(u, k).w;
    var x := w / 0.05;
    assert (w > 0.0 ==> x > 0.0) && (w < 0.0 ==> x < 0.0);
    assert (x > 0.0 ==> u.tanh(x) > 0.0) && (x < 0.0 ==> u.tanh(x) < 0.0);
    Slowed(u, w, DriveAt(u, k + 1).w, u.tanh(x));
  }

  lemma Slowed(u: Setup, w: real, w': real, t: real)
    requires LawOfMotion(u, w, 0.0, w') && t == u.tanh(w / 0.05) && u.dv >= 0.0
    requires (w > 0.0 ==> t > 0.0) && (w < 0.0 ==> t < 0.0)
    ensures (w > 0.0 ==> w' < w) && (w < 0.0 ==> w' > w)
  {
    var load := (0.5 + 0.006 * u.dv) * t;
    SignOfProduct(0.5 + 0.006 * u.dv, t, load);
    assert 0.012 * (w' - w) == (1.4 * 0.0 - 0.002 * w - load) * 0.0001;
  }

  lemma SignOfProduct(r: real, t: real, p: real)
    requires r > 0.0 && p == r * t
    ensures (t > 0.0 ==> p > 0.0) && (t < 0.0 ==> p < 0.0)
  {
  }

  /** From step `k` to `n` the plan moves at speed `v`, and nothing disturbs the measurement. */
  ghost predicate Cruises(u: Setup, v: real, k: nat, n: nat)
    requires u.g.aMax != 0.0
  {
    forall j: nat | k <= j < n ::
      RefVel(u, j) == v && RefPos(u, j + 1) == RefPos(u, j) + v * 0.0001 && u.noise(j) == 0.0
  }

  /**
   Once on a plan that cruises, with the current that balances friction and load, the
   drive stays exactly on it and keeps drawing that current, whatever the gains.
   */
  lemma {:induction false} TracksCruise(u: Setup, v: real, i: real, k: nat, n: nat)
    requires u.g.aMax != 0.0 && v != 0.0 && k <= n && Cruises(u, v, k, n) && Abs(i) <= u.g.iqLimit
    requires 1.4 * i == 0.002 * v + (0.5 + 0.006 * u.dv) * u.tanh(v / 0.05)
    requires DriveAt(u, k) == Drive(RefPos(u, k), v, i, false)
    ensures DriveAt(u, n) == Drive(RefPos(u, n), v, i, false)
    ensures k < n ==> IqAt(u, n - 1) == i
    decreases n
  {
    hide RefPos, RefVel, DriveAt;
    if k < n {
      TracksCruise(u, v, i, k, n - 1);
      DriveAtNext(u, n - 1);
      StepLaw(u, n - 1, DriveAt(u, n - 1), RefPos(u, n - 1), v);
      CruiseStep(u, v, i, n - 1, RefPos(u, n - 1));
      hide DriveStep, Drawn;
    }
  }

  lemma CruiseStep(u: Setup, v: real, i: real, k: nat, pos: real)
    requires v != 0.0 && Abs(i) <= u.g.iqLimit && u.noise(k) == 0.0
    requires 1.4 * i == 0.002 * v + (0.5 + 0.006 * u.dv) * u.tanh(v / 0.05)
    ensures Drawn(u, k, Drive(pos, v, i, false), pos, v) == i
    ensures DriveStep(u, k, Drive(pos, v, i, false), pos, v) == Drive(pos + v * 0.0001, v, i, false)
  {
    var d := Drive(pos, v, i, false);
    StepLaw(u, k, d, pos, v);
    var n := DriveStep(u, k, d, pos, v);
    assert SpeedError(u, pos + u.noise(k), v, pos, v) == 0.0;
    PiStep(u, k, d, pos, v, 0.0, 0.0);
    assert !n.braked;
    hide DriveStep, Drawn;
    SameSpeed(u, v, i, n.w, (0.5 + 0.006 * u.dv) * u.tanh(v / 0.05));
  }

  lemma SameSpeed(u: Setup, v: real, i: real, v': real, load: real)
    requires LawOfMotion(u, v, i, v') && load == (0.5 + 0.006 * u.dv) * u.tanh(v / 0.05)
    requires 1.4 * i == 0.002 * v + load
    ensures v' == v
  {
    assert 0.012 * (v' - v) == (1.4 * i - 0.002 * v - load) * 0.0001;
  }

  /** The brake never engages in the very first step. */
  lemma NotAtOnce(u: Setup)
    requires u.g.aMax != 0.0
    ensures !DriveAt(u, 1).braked
  {
    DriveAtNext(u, 0);
    hide DriveAt, RefPos, RefVel;
  }

  // ---------------------------------------------------------------- bounds

  /** No current ever exceeds the limit of the drive. */
  lemma CurrentBounded(u: Setup, k: nat)
    requires u.g.aMax != 0.0 && u.g.iqLimit >= 0.0
    ensures Abs(IqAt(u, k)) <= u.g.iqLimit
  {
  }

  /** The speed at which the viscous friction alone holds the largest drive and load torque. */
  function SpeedLimit(u: Setup): real {
    (KT * u.g.iqLimit + Abs(Resistance(u.dv))) / B
  }

  lemma LoadBounded(r: real, t: real)
    requires -1.0 <= t <= 1.0
    ensures -Abs(r) <= r * t <= Abs(r)
  {
    var p := r * t;
    if r >= 0.0 {
      NonNegative(r, 1.0 - t, r - p);
      NonNegative(r, 1.0 + t, r + p);
    } else {
      NonNegative(-r, 1.0 - t, -r + p);
      NonNegative(-r, 1.0 + t, -r - p);
    }
  }

  lemma NonNegative(x: real, y: real, p: real)
    requires x >= 0.0 && y >= 0.0 && p == x * y
    ensures p >= 0.0
  {
  }

  lemma AccelerateBounded(u: Setup, w: real, iq: real)
    requires Bounded(u.tanh) && Abs(iq) <= u.g.iqLimit && Abs(w) <= SpeedLimit(u)
    ensures Abs(Accelerate(u, w, iq)) <= SpeedLimit(u)
  {
    var t := Resistance(u.dv) * u.tanh(w / 0.05);
    LoadBounded(Resistance(u.dv), u.tanh(w / 0.05));
    var p := KT * iq - t;
    var top := KT * u.g.iqLimit + Abs(Resistance(u.dv));
    ForceBounded(iq, u.g.iqLimit, t, Abs(Resistance(u.dv)));
    assert SpeedLimit(u) == top / 0.002;
    assert Accelerate(u, w, iq) == w + (p - 0.002 * w) / 0.012 * 0.0001;
    hide Accelerate, SpeedLimit;
    Relax(w, p, top);
  }

  lemma ForceBounded(iq: real, limit: real, t: real, r: real)
    requires -limit <= iq <= limit && -r <= t <= r
    ensures -(KT * limit + r) <= KT * iq - t <= KT * limit + r
  {
    assert KT * iq == 1.4 * iq && KT * limit == 1.4 * limit;
  }

  /** Viscous friction pulls the speed back from its limit. */
  lemma Relax(w: real, p: real, top: real)
    requires -top <= p <= top && -top / 0.002 <= w <= top / 0.002
    ensures -top / 0.002 <= w + (p - 0.002 * w) / 0.012 * 0.0001 <= top / 0.002
  {
  }

  /** Whatever the noise, the gains and the load, the speed never leaves the limit. */
  lemma {:induction false} SpeedBounded(u: Setup, k: nat)
    requires u.g.aMax != 0.0 && u.g.iqLimit >= 0.0 && Bounded(u.tanh)
    ensures Abs(DriveAt(u, k).w) <= SpeedLimit(u)
  {
    if k > 0 {
      SpeedBounded(u, k - 1);
      var d := DriveAt(u, k - 1);
      CurrentBounded(u, k - 1);
      if !d.braked { AccelerateBounded(u, d.w, IqAt(u, k - 1)); }
    }
  }

  // ---------------------------------------------------------------- the brake

  /** A braked drive stays where it is, drawing no current. */
  lemma {:induction false} BrakeHolds(u: Setup, j: nat, k: nat)
    requires u.g.aMax != 0.0 && j <= k && DriveAt(u, j).braked
    ensures DriveAt(u, k) == DriveAt(u, j) && IqAt(u, k) == 0.0
  {
    if j < k { BrakeHolds(u, j, k - 1); }
  }

  /**
   The brake engages only on a positive target that the plan has reached exactly,
   within two per mille of it and slower than 0.5 rad/s.
   */
  lemma {:induction false} BrakedOnTarget(u: Setup, k: nat)
    requires u.g.aMax != 0.0 && DriveAt(u, k).braked
    ensures u.target > 0.0
    ensures Abs(u.target - DriveAt(u, k).th) < 0.002 * u.target && Abs(DriveAt(u, k).w) < 0.5
    ensures exists j | 0 <= j <= k :: RefAt(u.target, u.g.vMax, u.g.aMax, j) == Ref(u.target, 0.0)
  {
    if DriveAt(u, k - 1).braked {
      BrakedOnTarget(u, k - 1);
    } else {
      var s := RefAt(u.target, u.g.vMax, u.g.aMax, k);
      assert RefPos(u, k - 1) == s.pos;
      assert s == Ref(u.target, 0.0);
    }
  }

  /** A target the planner stops short of, by its own tolerance, is never braked on. */
  lemma {:induction false} TinyTargetNeverBrakes(u: Setup, k: nat)
    requires u.g.aMax > 0.0 && u.g.vMax > 0.0 && 0.0 < u.target <= EPS
    ensures RefAt(u.target, u.g.vMax, u.g.aMax, k) == REST
    ensures !DriveAt(u, k).braked
  {
    if k > 0 {
      TinyTargetNeverBrakes(u, k - 1);
      assert Step(u.target, u.g.vMax, u.g.aMax, REST) == REST by {
        NearBrakes(u.target, u.g.vMax, u.g.aMax, REST) by { PlanEnvelope(u.target, u.g.vMax, u.g.aMax, 0); }
      }
      assert RefPos(u, k - 1) == 0.0;
    }
  }

  /** Where the plan comes to stand, computable from the target and the limits. */
  function PlanEnd(u: Setup): Ref
    requires u.g.aMax > 0.0 && u.g.vMax > 0.0
  {
    RefAt(u.target, u.g.vMax, u.g.aMax, StillAfter(u.target, u.g.vMax, u.g.aMax))
  }

  /** The plan ends exactly on a positive target. */
  predicate CanBrake(u: Setup)
    requires u.g.aMax > 0.0 && u.g.vMax > 0.0
  {
    u.target > 0.0 && PlanEnd(u) == Ref(u.target, 0.0)
  }

  /** From some step on the plan stands where it ends. */
  lemma {:induction false} StandsStill(u: Setup, k: nat)
    requires u.g.aMax > 0.0 && u.g.vMax > 0.0 && k >= StillAfter(u.target, u.g.vMax, u.g.aMax)
    ensures RefAt(u.target, u.g.vMax, u.g.aMax, k) == PlanEnd(u)
    decreases k
  {
    hide RefAt, StillAfter;
    if k > StillAfter(u.target, u.g.vMax, u.g.aMax) {
      StandsStill(u, k - 1);
      ComesToRest(u.target, u.g.vMax, u.g.aMax, k - 1);
    }
  }

  /** Once exactly on the target, the plan stays there. */
  lemma {:induction false} OnTargetStays(u: Setup, j: nat, k: nat)
    requires u.g.aMax > 0.0 && u.g.vMax > 0.0 && j <= k
    requires RefAt(u.target, u.g.vMax, u.g.aMax, j) == Ref(u.target, 0.0)
    ensures RefAt(u.target, u.g.vMax, u.g.aMax, k) == Ref(u.target, 0.0)
  {
    hide RefAt, Step;
    if j < k {
      OnTargetStays(u, j, k - 1);
      RefAtNext(u.target, u.g.vMax, u.g.aMax, k - 1);
      PlanEnvelope(u.target, u.g.vMax, u.g.aMax, k - 1);
      NearBrakes(u.target, u.g.vMax, u.g.aMax, Ref(u.target, 0.0));
    }
  }

  /** When the plan ends short of the target, or the target is not positive, no step ever brakes. */
  lemma NeverBrakes(u: Setup, k: nat)
    requires u.g.aMax > 0.0 && u.g.vMax > 0.0 && !CanBrake(u)
    ensures !DriveAt(u, k).braked
  {
    if DriveAt(u, k).braked {
      BrakedOnTarget(u, k);
      hide RefAt, DriveAt, StillAfter;
      var j: nat :| j <= k && RefAt(u.target, u.g.vMax, u.g.aMax, j) == Ref(u.target, 0.0);
      var end := StillAfter(u.target, u.g.vMax, u.g.aMax);
      var late := if j < end then end else j;
      OnTargetStays(u, j, late);
      StandsStill(u, late);
    }
  }

  predicate Close(u: Setup, d: Drive) {
    Abs(u.target - d.th) < 0.002 * u.target && Abs(d.w) < 0.5
  }

  /**
   Exactly when the brake engages: once the plan stands, a step leaves the drive braked
   if it was, or if the plan ended on a positive target and the step leaves the drive
   within two per mille of it and slower than 0.5 rad/s.
   */
  lemma BrakesExactly(u: Setup, k: nat)
    requires u.g.aMax > 0.0 && u.g.vMax > 0.0 && k > 0 && k + 1 >= StillAfter(u.target, u.g.vMax, u.g.aMax)
    ensures DriveAt(u, k + 1).braked
            <==> DriveAt(u, k).braked || (CanBrake(u) && Close(u, DriveAt(u, k + 1)))
  {
    StandsStill(u, k + 1);
    DriveAtNext(u, k);
    if !CanBrake(u) {
      NeverBrakes(u, k + 1);
      NeverBrakes(u, k);
    }
    hide RefAt, DriveAt, StillAfter, PlanEnd, SpeedError, Integrate, Current, Accelerate;
    assert RefPos(u, k) == PlanEnd(u).pos && RefVel(u, k) == Along(u.target, PlanEnd(u).vel);
  }

  /** From rest, one full step of acceleration leads to `d` short of the target. */
  lemma FirstPush(target: real, v: real, a: real, h: real, d: real)
    requires a > 0.0 && 0.0 < h <= v && h == a * DT && h * DT > EPS && 0.0 < d && target == h * DT + d
    ensures Step(target, v, a, REST) == Ref(target - d, h)
  {
    BrakeDistance(a, target, 0.0);
    Scale(2.0 * a, EPS, target);
    ScaleStrict(2.0 * a, EPS, target);
  }

  /** There the planner brakes to a standstill, still `d` short. */
  lemma StopsShort(target: real, v: real, a: real, h: real, d: real)
    requires a > 0.0 && 0.0 < h <= v && h == a * DT && 0.0 < d <= EPS && target > d
    ensures Step(target, v, a, Ref(target - d, h)) == Ref(target - d, 0.0)
    ensures Step(target, v, a, Ref(target - d, 0.0)) == Ref(target - d, 0.0)
  {
    NearSlows(d, h, v, a);
    NearSlows(d, 0.0, v, a);
    assert target - (target - d) == d;
    hide NextVel;
  }

  lemma {:induction false} StaysShort(target: real, v: real, a: real, d: real, k: nat)
    requires a > 0.0 && k >= 2
    requires RefAt(target, v, a, 2) == Ref(target - d, 0.0)
    requires Step(target, v, a, Ref(target - d, 0.0)) == Ref(target - d, 0.0)
    ensures RefAt(target, v, a, k) == Ref(target - d, 0.0)
  {
    hide RefAt, Step;
    if k > 2 {
      StaysShort(target, v, a, d, k - 1);
      RefAtNext(target, v, a, k - 1);
    }
  }

  /**
   An ordinary target that is never braked on: the distance of one full step of
   acceleration and up to 1e-9 more. The plan stops after that step for good.
   */
  lemma ShortStop(u: Setup, d: real)
    requires u.g.aMax > 0.0 && u.g.aMax * DT <= u.g.vMax && u.g.aMax * DT * DT > EPS
    requires 0.0 < d <= EPS && u.target == u.g.aMax * DT * DT + d
    ensures u.g.vMax > 0.0 && PlanEnd(u) == Ref(u.target - d, 0.0)
    ensures forall k: nat :: !DriveAt(u, k).braked
  {
    var a, v, h, target := u.g.aMax, u.g.vMax, u.g.aMax * DT, u.target;
    FirstPush(target, v, a, h, d);
    StopsShort(target, v, a, h, d);
    hide RefAt, Step, DriveAt, StillAfter;
    RefAtNext(target, v, a, 0);
    RefAtNext(target, v, a, 1);
    EnoughSteps(target, v, a);
    StaysShort(target, v, a, d, StillAfter(target, v, a));
    forall k: nat ensures !DriveAt(u, k).braked { NeverBrakes(u, k); }
  }

  lemma EnoughSteps(target: real, v: real, a: real)
    requires a > 0.0 && v > 0.0
    ensures StillAfter(target, v, a) >= 2
  {
    QuotientNonNegative(Abs(target), v * DT);
    QuotientNonNegative(v, a * DT);
  }
}
