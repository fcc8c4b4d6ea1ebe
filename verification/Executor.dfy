/**
 Running an approved tuning on the simulated device:
 `SimExecutor.apply_and_verify` of `executor/sim_executor.py`.

 The measured following error is an arbitrary function of the gains and the
 estimated disturbance.
 */
module Executor {
  import opened Common
  import opened Tuning

  /** The tunable parameters of one device. */
  type Gains = g: map<string, real> | PARAM_WHITELIST <= g.Keys
    witness map["Kp" := 0.0, "Ki" := 0.0, "Acc" := 0.0]

  /** The parameters of every device seen so far. */
  type Store = map<string, Gains>

  const BASE: Gains := map["Kp" := 18.0, "Ki" := 60.0, "Acc" := 600.0]
  const REGRESSION_TOL := 1.05
  const STALE_TOL := 0.02

  type Measure = (Gains, real) -> real

  datatype Outcome = Verified | RolledBack | SkippedStale

  /** The following errors before and after the change. */
  datatype Figures = Figures(before: real, after: real)

  /** A change skipped as stale is not measured. */
  datatype Report = Report(
    device: string, param: string, was: real, now: real, outcome: Outcome, figures: Option<Figures>)

  function Lookup(s: Store, device: string): Gains {
    if device in s then s[device] else BASE
  }

  /** A device not seen before runs at the factory values. */
  lemma FactoryValues(device: string)
    ensures Lookup(map[], device) == map["Kp" := 18.0, "Ki" := 60.0, "Acc" := 600.0]
  {
  }

  /** The two stores give every device the same parameters. */
  ghost predicate Same(s: Store, t: Store) {
    forall d: string :: Lookup(s, d) == Lookup(t, d)
  }

  /** The proposal was made against a value the device no longer has. */
  predicate Stale(was: real, current: Option<real>) {
    current.Some? && Abs(was) > 0.000000001 && Abs(current.value - was) / Abs(was) > STALE_TOL
  }

  /** The gains after an execution, and how it ended. */
  function Execute(f: Measure, g: Gains, param: string, now: real, dv: real, current: Option<real>): (Gains, Outcome)
    requires param in g
  {
    if Stale(g[param], current) then (g, SkippedStale)
    else
      var tuned := g[param := now];
      if f(tuned, dv) > f(g, dv) * REGRESSION_TOL then (g, RolledBack) else (tuned, Verified)
  }

  function Measured(f: Measure, g: Gains, param: string, now: real, dv: real, outcome: Outcome): Option<Figures>
    requires param in g
  {
    if outcome.SkippedStale? then None else Some(Figures(f(g, dv), f(g[param := now], dv)))
  }

  lemma SetBack(g: Gains, param: string, now: real)
    requires param in g
    ensures g[param := now][param := g[param]] == g
  {
  }

  /** An execution that is not skipped keeps the change or puts it back. */
  lemma NotSkipped(f: Measure, g: Gains, param: string, now: real, dv: real, current: Option<real>)
    requires param in g && !Stale(g[param], current)
    ensures var regressed := f(g[param := now], dv) > f(g, dv) * REGRESSION_TOL;
            var (after, outcome) := Execute(f, g, param, now, dv, current);
            && after == (if regressed then g else g[param := now])
            && outcome == (if regressed then RolledBack else Verified)
            && Measured(f, g, param, now, dv, outcome) == Some(Figures(f(g, dv), f(g[param := now], dv)))
  {
    hide Stale;
  }

  lemma SetTwice(s: Store, device: string, g: Gains, last: Gains)
    ensures s[device := g][device := last] == s[device := last]
  {
  }

  class SimExecutor {
    const followErr: Measure
    var params: Store
    var saved: Store

    /** Starting, or starting again after a crash: the parameters come from the file. */
    constructor (followErr: Measure, saved: Store)
      ensures this.followErr == followErr && params == saved && this.saved == saved
    {
      this.followErr, params, this.saved := followErr, saved, saved;
    }

    method Save()
      modifies this`saved
      ensures saved == params
    {
      saved := params;
    }

    method DeviceParams(device: string) returns (p: Gains)
      modifies this`params
      ensures p == Lookup(old(params), device) && params == old(params)[device := p]
    {
      if device !in params {
        params := params[device := BASE];
      }
      p := params[device];
      assert params == old(params)[device := p];
    }

    /** The new value is set first and put back if the device follows worse with it. */
    method ApplyAndVerify(device: string, param: string, newValue: real, dv: real, current: Option<real>)
      returns (r: Report)
      requires param in Lookup(params, device)
      modifies this
      ensures var g := Lookup(old(params), device);
              var (after, outcome) := Execute(followErr, g, param, newValue, dv, current);
              && params == old(params)[device := after]
              && saved == (if outcome.SkippedStale? then old(saved) else params)
              && r == Report(device, param, g[param], newValue, outcome,
                             Measured(followErr, g, param, newValue, dv, outcome))
    {
      hide Stale, Lookup;
      var p := DeviceParams(device);
      var oldValue := p[param];
      if Stale(oldValue, current) {
        return Report(device, param, oldValue, newValue, SkippedStale, None);
      }
      NotSkipped(followErr, p, param, newValue, dv, current);
      hide Execute, Measured;
      var before := followErr(p, dv);
      p := p[param := newValue];
      params := params[device := p];
      var after := followErr(p, dv);
      var regressed := after > before * REGRESSION_TOL;
      SetBack(Lookup(old(params), device), param, newValue);
      if regressed {
        p := p[param := oldValue];
        params := params[device := p];
      }
      SetTwice(old(params), device, Lookup(old(params), device)[param := newValue], p);
      Save();
      r := Report(device, param, oldValue, newValue, if regressed then RolledBack else Verified,
                  Some(Figures(before, after)));
    }
  }

  /**
   How an execution ends, and what it leaves: skipped when the value proposed against is
   more than two percent off the device's own, rolled back when the following error rises
   by more than five percent, and kept otherwise.
   */
  lemma ExecutesExactly(f: Measure, g: Gains, param: string, now: real, dv: real, current: Option<real>)
    requires param in g
    ensures var (after, outcome) := Execute(f, g, param, now, dv, current);
            var was := g[param];
            var stale := current.Some? && Abs(was) > 0.000000001 && Abs(current.value - was) > 0.02 * Abs(was);
            var worse := f(g[param := now], dv) > 1.05 * f(g, dv);
            && (outcome == SkippedStale <==> stale)
            && (outcome == RolledBack <==> !stale && worse)
            && (outcome == Verified <==> !stale && !worse)
            && after == (if outcome == Verified then g[param := now] else g)
  {
    if current.Some? && Abs(g[param]) > 0.000000001 {
      RatioAbove(Abs(current.value - g[param]), Abs(g[param]), STALE_TOL);
    }
    assert f(g, dv) * REGRESSION_TOL == 1.05 * f(g, dv);
    hide Abs;
  }

  // ---------------------------------------------------------------- running the same approval again

  /**
   Running the same approval again leaves the gains as the first run left them,
   however that run ended. The second run ends like the first, except that a verified
   change of more than the stale tolerance is now reported as stale.
   */
  lemma ReExecute(f: Measure, g: Gains, param: string, now: real, dv: real, current: Option<real>)
    requires param in g && f(g[param := now], dv) >= 0.0
    ensures var (g1, o1) := Execute(f, g, param, now, dv, current);
            var (g2, o2) := Execute(f, g1, param, now, dv, current);
            && g2 == g1
            && o2 == if o1.Verified? && Stale(now, current) then SkippedStale else o1
  {
    var (g1, o1) := Execute(f, g, param, now, dv, current);
    if o1.Verified? {
      assert g1[param := now] == g1;
    }
  }

  /** Once verified, the change stays whatever is measured the second time. */
  lemma VerifiedStays(f: Measure, g: Gains, param: string, now: real, dv: real, dv2: real, current: Option<real>)
    requires param in g && Execute(f, g, param, now, dv, current).1.Verified?
    ensures Execute(f, Execute(f, g, param, now, dv, current).0, param, now, dv2, current).0 == g[param := now]
  {
    assert g[param := now][param := now] == g[param := now];
  }

  // ---------------------------------------------------------------- how far an execution moves the device

  /** A change of at most `k` percent from a value within the stale tolerance of the device's own. */
  lemma ComposedChange(was: real, current: real, now: real, k: real)
    requires k >= 0.0 && Abs(current - was) <= 0.02 * Abs(was)
    requires Abs(now - current) * 100.0 <= k * Abs(current)
    ensures Abs(now - was) * 100.0 <= (1.02 * k + 2.0) * Abs(was)
  {
    var w := Abs(was);
    assert Abs(current) <= 1.02 * w;
    assert Abs(now - was) <= Abs(now - current) + Abs(current - was);
    hide Abs;
    Combined(Abs(now - was), Abs(now - current), Abs(current - was), k, Abs(current), w);
  }

  lemma Combined(all: real, step: real, gap: real, k: real, c: real, w: real)
    requires k >= 0.0 && c <= 1.02 * w && all <= step + gap
    requires step * 100.0 <= k * c && gap <= 0.02 * w
    ensures all * 100.0 <= (1.02 * k + 2.0) * w
  {
    var v := 1.02 * w;
    ScaleUp(k, c, v);
    Distributes(k, w, k * w);
  }

  lemma Distributes(k: real, w: real, p: real)
    requires k * w == p
    ensures k * (1.02 * w) == 1.02 * p && (1.02 * k + 2.0) * w == 1.02 * p + 2.0 * w
  {
  }

  lemma ScaleUp(k: real, x: real, y: real)
    requires k >= 0.0 && x <= y
    ensures k * x <= k * y
  {
    assert k * (y - x) >= 0.0;
  }

  lemma FreshIsNear(was: real, current: real)
    requires Abs(was) > 0.000000001 && !Stale(was, Some(current))
    ensures Abs(current - was) <= 0.02 * Abs(was)
  {
    RatioAbove(Abs(current - was), Abs(was), STALE_TOL);
  }

  /**
   A proposal of the bridge, for any target, executed on a device that has moved on
   meanwhile: unless it is skipped as stale, the device's own value changes by at most
   12.251 percent. The stale check looks away when that value is within 1e-9 of zero.
   */
  lemma ExecutedChange(f: Measure, g: Gains, param: string, b: Bound, current: real, target: real, dv: real)
    requires param in PARAM_WHITELIST && current >= 1.0 && Abs(g[param]) > 0.000000001
    ensures var p := ProposedBody(param, b, current, target);
            var after := Execute(f, g, param, p.new_, dv, Some(p.current)).0;
            Abs(after[param] - g[param]) * 100.0 <= 12.251 * Abs(g[param])
  {
    var p := ProposedBody(param, b, current, target);
    assert p.current == current;
    ChangeCapped(param, b, current, target);
    hide ProposedBody, Stale;
    if !Stale(g[param], Some(current)) {
      FreshIsNear(g[param], current);
      ComposedChange(g[param], current, p.new_, 10.05);
    }
  }

  /** Under an honest declaration the checks and the stale tolerance bound any change at 12.2 percent. */
  lemma HonestChange(f: Measure, g: Gains, p: Proposal, current: real, dv: real)
    requires CheckParamTuning(p) == Passed && current != 0.0 && Honest(p, current)
    requires Abs(g[p.param.s]) > 0.000000001
    ensures var after := Execute(f, g, p.param.s, Number(p.newValue), dv, Some(current)).0;
            Abs(after[p.param.s] - g[p.param.s]) * 100.0 <= 12.2 * Abs(g[p.param.s])
  {
    VerdictIsFirstFailure(p, Rate);
    HonestRateExact(p, current);
    var was, now := g[p.param.s], Number(p.newValue);
    assert Holds(Rate, p);
    hide CheckParamTuning, Stale, Honest;
    if !Stale(was, Some(current)) {
      FreshIsNear(was, current);
      ComposedChange(was, current, now, 10.0);
    }
  }

  // ---------------------------------------------------------------- derating in rounds

  function Power(b: real, n: nat): real {
    if n == 0 then 1.0 else b * Power(b, n - 1)
  }

  /** One round: propose a ten percent cut of the current acceleration, have it approved, execute it. */
  function Round(f: Measure, g: Gains, dv: real): (Gains, Outcome)
    requires g["Acc"] != 0.0
  {
    var cur := g["Acc"];
    Execute(f, g, "Acc", ProposedBody("Acc", ACC_BOUND, cur, cur * 0.9).new_, dv, Some(cur))
  }

  /** A fresh proposal is never stale, and passes the backend's checks. */
  lemma FreshRound(f: Measure, g: Gains, dv: real)
    requires 200.0 <= g["Acc"] <= 800.0
    ensures var (after, outcome) := Round(f, g, dv);
            && !outcome.SkippedStale?
            && after == (if outcome.Verified? then g["Acc" := Max(200.0, 0.9 * g["Acc"])] else g)
            && CheckParamTuning(AsProposal(ProposedBody("Acc", ACC_BOUND, g["Acc"], g["Acc"] * 0.9))) == Passed
  {
    DeratingStep(g["Acc"]);
    ProposalPasses("Acc", ACC_BOUND, g["Acc"], g["Acc"] * 0.9);
    hide ProposedBody, CheckParamTuning;
    assert !Stale(g["Acc"], Some(g["Acc"]));
  }

  /** The gains after a number of rounds, each under its own disturbance, and how many were verified. */
  function Rounds(f: Measure, dvs: seq<real>): (r: (Gains, nat))
    ensures 200.0 <= r.0["Acc"] <= 800.0 && r.1 <= |dvs|
  {
    if dvs == [] then (BASE, 0)
    else
      var n := |dvs| - 1;
      var (g, verified) := Rounds(f, dvs[..n]);
      FreshRound(f, g, dvs[n]);
      var (after, outcome) := Round(f, g, dvs[n]);
      (after, if outcome.Verified? then verified + 1 else verified)
  }

  lemma {:induction false} PowerStep(n: nat)
    ensures 0.0 < Power(0.9, n) <= 1.0
  {
    if n > 0 { PowerStep(n - 1); }
  }

  lemma FloorStep(n: nat)
    ensures Max(200.0, 0.9 * Max(200.0, 600.0 * Power(0.9, n))) == Max(200.0, 600.0 * Power(0.9, n + 1))
  {
    PowerStep(n);
  }

  function Derated(n: nat): Gains {
    BASE["Acc" := Max(200.0, 600.0 * Power(0.9, n))]
  }

  lemma DeratedStep(f: Measure, n: nat, dv: real)
    requires 200.0 <= Derated(n)["Acc"] <= 800.0
    ensures var (after, outcome) := Round(f, Derated(n), dv);
            after == Derated(if outcome.Verified? then n + 1 else n)
  {
    var g := Derated(n);
    FreshRound(f, g, dv);
    FloorStep(n);
    hide Round, Max, Power;
    assert g["Acc" := Max(200.0, 0.9 * g["Acc"])] == Derated(n + 1);
  }

  /**
   After any rounds from the factory setting, `n` of them verified, the acceleration
   is 600 times 0.9 to the n, floored at 200; the other gains never move.
   */
  lemma {:induction false} DeratingClosedForm(f: Measure, dvs: seq<real>)
    ensures var (g, verified) := Rounds(f, dvs);
            g == Derated(verified)
  {
    if dvs != [] {
      var n := |dvs| - 1;
      DeratingClosedForm(f, dvs[..n]);
      var (g, verified) := Rounds(f, dvs[..n]);
      hide Round, Derated;
      DeratedStep(f, verified, dvs[n]);
    } else {
      assert BASE["Acc" := 600.0] == BASE;
    }
  }

  /** Each verified round strictly lowers the acceleration until it sits at the floor, and only those do. */
  lemma DeratingDescends(f: Measure, dvs: seq<real>, dv: real)
    ensures var (g, n) := Rounds(f, dvs);
            var (after, m) := Rounds(f, dvs + [dv]);
            && (after["Acc"] < g["Acc"] <==> m == n + 1 && g["Acc"] > 200.0)
            && (m == n || m == n + 1) && after["Acc"] <= g["Acc"]
  {
    assert (dvs + [dv])[..|dvs|] == dvs;
    var (g, n) := Rounds(f, dvs);
    FreshRound(f, g, dv);
    hide Round;
  }

  /** Rerunning a verified derating round finds it stale exactly when it began above 204, and so loses its report. */
  lemma DeratingRerunIsStale(f: Measure, g: Gains, dv: real)
    requires 200.0 <= g["Acc"] <= 800.0 && Round(f, g, dv).1.Verified?
    ensures var cur := g["Acc"];
            var now := ProposedBody("Acc", ACC_BOUND, cur, cur * 0.9).new_;
            Execute(f, Round(f, g, dv).0, "Acc", now, dv, Some(cur)).1.SkippedStale? <==> cur > 204.0
  {
    var cur := g["Acc"];
    DeratingStep(cur);
    FreshRound(f, g, dv);
    var now := ProposedBody("Acc", ACC_BOUND, cur, cur * 0.9).new_;
    hide ProposedBody, CheckParamTuning;
    assert now == Max(200.0, 0.9 * cur);
    assert Abs(cur - now) == cur - now && Abs(now) == now;
    RatioAbove(cur - now, now, STALE_TOL);
  }

  lemma RatioAbove(x: real, y: real, k: real)
    requires y > 0.0
    ensures x / y > k <==> x > k * y
  {
    var q := x / y;
    assert q * y == x;
    if q > k {
      assert (q - k) * y > 0.0;
    } else {
      assert (k - q) * y >= 0.0;
    }
  }
}
