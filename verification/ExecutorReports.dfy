/**
 What the reports say: each is about its own approval, its outcome follows from its own
 figures, and without crashes its figures were measured on the parameters replayed so far.
 */
module ExecutorReports {
  import opened Common
  import opened Tuning
  import opened Executor
  import opened ExecutorLoop
  import opened ExecutorRuns

  // ---------------------------------------------------------------- what the executor is shown

  /** The backend's second commit says `applied` exactly when all five checks hold, and nothing when they raise. */
  lemma SettlesExactly(f: Measure, w: World, i: nat)
    requires i < |w.rows| && w.rows[i].approved && w.rows[i].sideEffect.None? && forall x <- w.fetched :: Sound(x)
    ensures var a := w.rows[i];
            var p := Proposal(a.summary.param, a.summary.newValue, a.summary.allowedRange, a.summary.deltaPct,
                              if a.device.Some? && a.device.value != "" then Some("idle") else None);
            var effect := if !Hashable(p.param) then None
                          else if forall c: Check :: Holds(c, p) then Some("applied") else Some("failed");
            Step(f, w, Settle(i)) == w.(rows := w.rows[i := a.(sideEffect := effect)])
  {
    var a := w.rows[i];
    var p := Proposal(a.summary.param, a.summary.newValue, a.summary.allowedRange, a.summary.deltaPct,
                      if a.device.Some? && a.device.value != "" then Some("idle") else None);
    if Hashable(p.param) { VerdictIsFirstFailure(p, Whitelist); }
    assert Checked(a) == CheckParamTuning(p);
    hide Holds;
    if Hashable(p.param) {
      assert CheckParamTuning(p) != TypeErrorRaised;
    }
    hide CheckParamTuning;
  }

  /** A fetched list holds exactly the wanted rows that are approved, as they are. */
  lemma {:induction false} FetchesExactly(rows: seq<Approval>, wanted: seq<nat>, x: Entry)
    ensures x in Listing(rows, wanted)
       <==> x.id in wanted && x.id < |rows| && rows[x.id].approved && x.a == rows[x.id]
  {
    if wanted != [] {
      FetchesExactly(rows, wanted[..|wanted| - 1], x);
      assert wanted == wanted[..|wanted| - 1] + [wanted[|wanted| - 1]];
    }
  }

  /** A list is worked through once: finishing it, restarting and dying part way all leave none. */
  lemma ListsEnd(f: Measure, w: World, ev: Event)
    requires forall x <- w.fetched :: Sound(x)
    ensures Step(f, w, ev).fetched
         == if ev.Finish? || ev.Restart? || (ev.Crash? && ev.k <= |w.fetched|) then []
            else if ev.Fetch? then Listing(w.rows, ev.wanted) else w.fetched
  {
  }

  /** The proposal's value is more than two percent off the device's own. */
  predicate OffBy(was: real, current: Option<real>) {
    current.Some? && Abs(was) > 0.000000001 && Abs(current.value - was) > 0.02 * Abs(was)
  }

  /** The report is about approval `a`, and its outcome follows from what it says itself. */
  predicate About(r: Report, a: Approval) {
    && a.device == Some(r.device) && a.summary.param == PyStr(r.param)
    && IsNumber(a.summary.newValue) && Number(a.summary.newValue) == r.now
    && (if OffBy(r.was, a.summary.current) then r.outcome == SkippedStale && r.figures == None
        else
          && r.figures.Some?
          && r.outcome == if r.figures.value.after > 1.05 * r.figures.value.before then RolledBack else Verified)
  }

  predicate ReportFits(rows: seq<Approval>, w: Written) {
    w.id < |rows| && rows[w.id].approved && rows[w.id].sideEffect == Some("applied") && About(w.report, rows[w.id])
  }

  ghost predicate AllFit(rows: seq<Approval>, ws: seq<Written>) {
    forall k: nat | k < |ws| :: ReportFits(rows, ws[k])
  }

  lemma RunOnFits(f: Measure, store: Store, a: Approval, dvs: Estimates)
    requires Executable(a)
    ensures About(RunOn(f, store, a, dvs).1, a)
  {
    var g := Lookup(store, a.device.value);
    ExecutesExactly(f, g, a.summary.param.s, Number(a.summary.newValue), EstimateFor(dvs, a.device.value),
                    a.summary.current);
    hide Execute, Executable, Abs;
  }

  lemma HandleOneFits(f: Measure, rows: seq<Approval>, e: Exec, x: Entry, dvs: Estimates)
    requires ExecutorRuns.Current(rows, x) && Sound(x) && SettledApproved(rows) && AllFit(rows, e.written)
    ensures AllFit(rows, HandleOne(f, e, x, dvs).written)
  {
    if Due(e.done, x) {
      RunOnFits(f, e.store, x.a, dvs);
      hide RunOn, About, Executable;
    }
  }

  lemma {:induction false} HandleFits(f: Measure, rows: seq<Approval>, e: Exec, list: seq<Entry>, dvs: Estimates)
    requires Fetched(rows, list) && SettledApproved(rows) && AllFit(rows, e.written)
    requires forall x <- list :: Sound(x)
    ensures AllFit(rows, Handle(f, e, list, dvs).written)
  {
    if list != [] {
      var n := |list| - 1;
      HandleFits(f, rows, e, list[..n], dvs);
      hide AllFit, HandleOne, SettledApproved;
      HandleOneFits(f, rows, Handle(f, e, list[..n], dvs), list[n], dvs);
    }
  }

  lemma SettlingFits(rows: seq<Approval>, later: seq<Approval>, ws: seq<Written>)
    requires Settling(rows, later) && AllFit(rows, ws)
    ensures AllFit(later, ws)
  {
    hide About;
    forall k: nat | k < |ws| ensures ReportFits(later, ws[k]) { assert ReportFits(rows, ws[k]); }
  }

  lemma StepFits(f: Measure, w: World, ev: Event)
    requires Safe(w) && AllFit(w.rows, w.exec.written) && forall x <- w.fetched :: Sound(x)
    ensures var n := Step(f, w, ev); AllFit(n.rows, n.exec.written)
  {
    hide AllFit;
    match ev
    case Finish(dvs) => HandleFits(f, w.rows, w.exec, w.fetched, dvs);
    case Crash(dvs, k, partway) =>
      if k <= |w.fetched| { HandleFits(f, w.rows, w.exec, w.fetched[..k], dvs); }
    case Fetch(_) =>
    case Restart =>
    case _ =>
      BackendStep(f, w, ev);
      SettlingFits(w.rows, Step(f, w, ev).rows, w.exec.written);
  }

  /**
   In every interleaving, crashes included: every report is about an approved and applied
   tuning, says its device, parameter and value, and its outcome is what its own figures ask
   for: stale beyond two percent, rolled back beyond five percent, verified otherwise.
   */
  lemma {:induction false} RunFits(f: Measure, evs: seq<Event>)
    ensures AllFit(Run(f, evs).rows, Run(f, evs).exec.written)
    decreases |evs|
  {
    if evs != [] {
      RunFits(f, evs[..|evs| - 1]);
      hide AllFit, Step, Safe;
      StepFits(f, Run(f, evs[..|evs| - 1]), evs[|evs| - 1]);
    }
  }

  /** The report was made on a device with gains `g`, under disturbance `dv`. */
  predicate MadeOn(f: Measure, r: Report, g: Gains, dv: real) {
    && r.param in g && r.was == g[r.param]
    && (r.figures.Some? ==> r.figures.value == Figures(f(g, dv), f(g[r.param := r.now], dv)))
  }

  /** Report `k` was made on the parameters the reports before it replay to. */
  ghost predicate MadeInTurn(f: Measure, ws: seq<Written>, k: nat)
    requires k < |ws|
  {
    exists g: Gains, dv: real :: MadeOn(f, ws[k].report, g, dv) && g == Replay(ws[..k], ws[k].report.device)
  }

  ghost predicate AllInTurn(f: Measure, ws: seq<Written>) {
    forall k: nat | k < |ws| :: MadeInTurn(f, ws, k)
  }

  /** What is measured: the disturbance estimated for the device, or none when there is no estimate. */
  lemma RunOnMakes(f: Measure, store: Store, a: Approval, dvs: Estimates)
    requires Executable(a)
    ensures var device := a.device.value;
            MadeOn(f, RunOn(f, store, a, dvs).1, Lookup(store, device), if device in dvs then dvs[device] else 0.0)
  {
    hide Execute, Executable;
  }

  lemma HandleOneInTurn(f: Measure, e: Exec, x: Entry, dvs: Estimates)
    requires Sound(x) && Replays(e) && AllInTurn(f, e.written)
    ensures AllInTurn(f, HandleOne(f, e, x, dvs).written)
  {
    var ws := HandleOne(f, e, x, dvs).written;
    if Due(e.done, x) {
      var device := x.a.device.value;
      var dv := if device in dvs then dvs[device] else 0.0;
      RunOnMakes(f, e.store, x.a, dvs);
      assert Lookup(e.store, device) == Replay(e.written, device);
      assert RunOn(f, e.store, x.a, dvs).1.device == device;
      hide RunOn, MadeOn, Executable, Replays;
      InTurnMore(f, e.written, Written(x.id, RunOn(f, e.store, x.a, dvs).1), Lookup(e.store, device), dv);
    }
  }

  lemma InTurnMore(f: Measure, ws: seq<Written>, w: Written, g: Gains, dv: real)
    requires AllInTurn(f, ws) && MadeOn(f, w.report, g, dv) && g == Replay(ws, w.report.device)
    ensures AllInTurn(f, ws + [w])
  {
    hide MadeOn, Replay;
    var all := ws + [w];
    forall k: nat | k < |all| ensures MadeInTurn(f, all, k) {
      if k < |ws| {
        assert MadeInTurn(f, ws, k) && all[..k] == ws[..k] && all[k] == ws[k];
      } else {
        assert all[..k] == ws && all[k] == w;
        assert MadeOn(f, all[k].report, g, dv) && g == Replay(all[..k], all[k].report.device);
      }
    }
  }

  lemma {:induction false} HandleInTurn(f: Measure, e: Exec, list: seq<Entry>, dvs: Estimates)
    requires Replays(e) && AllInTurn(f, e.written) && forall x <- list :: Sound(x)
    ensures AllInTurn(f, Handle(f, e, list, dvs).written) && Replays(Handle(f, e, list, dvs))
  {
    if list != [] {
      var n := |list| - 1;
      HandleInTurn(f, e, list[..n], dvs);
      hide AllInTurn, HandleOne, Replays;
      HandleOneInTurn(f, Handle(f, e, list[..n], dvs), list[n], dvs);
      HandleOneReplays(f, Handle(f, e, list[..n], dvs), list[n], dvs);
    }
  }

  /**
   Without crashes every report was measured on exactly the parameters that the verified
   reports before it replay to, before and after the change.
   */
  lemma {:induction false} RunInTurn(f: Measure, evs: seq<Event>)
    requires NoCrash(evs)
    ensures AllInTurn(f, Run(f, evs).exec.written)
    decreases |evs|
  {
    if evs != [] {
      var front, ev := evs[..|evs| - 1], evs[|evs| - 1];
      assert (forall x <- front :: x in evs) && ev in evs;
      RunInTurn(f, front);
      RunExact(f, front);
      var w := Run(f, front);
      hide AllInTurn, Safe, Replays, OneReportEach;
      if ev.Finish? { HandleInTurn(f, w.exec, w.fetched, ev.dvs); }
    }
  }
}
