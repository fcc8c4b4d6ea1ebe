/**
 Approvals and the executor side by side: the backend commits a decision and, later,
 its side effect; the executor fetches a list, works through it, stops and restarts.
 */
module ExecutorRuns {
  import opened Common
  import opened Tuning
  import opened Executor
  import opened ExecutorLoop

  datatype World = World(rows: seq<Approval>, exec: Exec, fetched: seq<Entry>)

  /**
   Backend: a tuning is submitted, approved (first commit), settled (second commit).
   Executor: a list of approved rows is fetched, any rows in any order; the list is
   worked through; the process restarts between polls; or it dies part way through a
   list, `k` entries done and perhaps one more executed but not reported.
   */
  datatype Event =
    | Submit(device: Option<string>, summary: Summary)
    | Decide(i: nat)
    | Settle(i: nat)
    | Fetch(wanted: seq<nat>)
    | Finish(dvs: Estimates)
    | Restart
    | Crash(dvs: Estimates, k: nat, partway: bool)

  function Settled(a: Approval): Approval {
    match Checked(a)
    case Passed => a.(sideEffect := Some(APPLIED))
    case FailedAt(_) => a.(sideEffect := Some(FAILED))
    case TypeErrorRaised => a
  }

  function Listing(rows: seq<Approval>, wanted: seq<nat>): seq<Entry> {
    if wanted == [] then []
    else
      var i := wanted[|wanted| - 1];
      var front := Listing(rows, wanted[..|wanted| - 1]);
      if i < |rows| && rows[i].approved then front + [Entry(i, rows[i])] else front
  }

  /** What a process that died left behind: no new member of the done-set survives. */
  function Died(f: Measure, e: Exec, list: seq<Entry>, dvs: Estimates, k: nat, partway: bool): Exec
    requires forall x <- list :: Sound(x)
    requires k <= |list|
  {
    var reached := Handle(f, e, list[..k], dvs);
    var store := if partway && k < |list| then HandleOne(f, reached, list[k], dvs).store else reached.store;
    Exec(store, e.done, reached.written)
  }

  function Step(f: Measure, w: World, ev: Event): World
    requires forall x <- w.fetched :: Sound(x)
  {
    match ev
    case Submit(device, summary) => w.(rows := w.rows + [Approval(device, summary, false, None)])
    case Decide(i) => if i < |w.rows| then w.(rows := w.rows[i := w.rows[i].(approved := true)]) else w
    case Settle(i) =>
      if i < |w.rows| && w.rows[i].approved && w.rows[i].sideEffect.None?
      then w.(rows := w.rows[i := Settled(w.rows[i])]) else w
    case Fetch(wanted) => w.(fetched := Listing(w.rows, wanted))
    case Finish(dvs) => w.(exec := Handle(f, w.exec, w.fetched, dvs), fetched := [])
    case Restart => w.(fetched := [])
    case Crash(dvs, k, partway) =>
      if k <= |w.fetched| then w.(exec := Died(f, w.exec, w.fetched, dvs, k, partway), fetched := []) else w
  }

  // ---------------------------------------------------------------- what always holds

  predicate Is(rows: seq<Approval>, i: nat, status: string) {
    i < |rows| && rows[i].sideEffect == Some(status)
  }

  /** A fetched entry may be behind its row only by a side effect not yet committed then. */
  predicate Current(rows: seq<Approval>, x: Entry) {
    && x.id < |rows|
    && (x.a.sideEffect.Some? ==> x.a == rows[x.id])
  }

  predicate DoneIsSettled(rows: seq<Approval>, e: Exec) {
    forall i <- e.done :: i < |rows| && rows[i].sideEffect.Some?
  }

  predicate OnlyAppliedRun(rows: seq<Approval>, e: Exec) {
    forall k | 0 <= k < |e.written| :: Is(rows, e.written[k].id, APPLIED)
  }

  predicate RowsSound(rows: seq<Approval>) {
    forall i: nat | i < |rows| :: Sound(Entry(i, rows[i]))
  }

  predicate Fetched(rows: seq<Approval>, list: seq<Entry>) {
    forall x <- list :: Current(rows, x)
  }

  predicate SettledApproved(rows: seq<Approval>) {
    forall i: nat | i < |rows| && rows[i].sideEffect.Some? :: rows[i].approved
  }

  /**
   In every state: a side effect belongs to an approved row and `applied` to one that
   passed the checks; the done-set holds only approvals with a side effect; only
   applied ones were ever executed.
   */
  ghost predicate Safe(w: World) {
    && RowsSound(w.rows) && SettledApproved(w.rows)
    && Fetched(w.rows, w.fetched) && DoneIsSettled(w.rows, w.exec) && OnlyAppliedRun(w.rows, w.exec)
  }

  lemma FetchedSound(rows: seq<Approval>, list: seq<Entry>)
    requires RowsSound(rows) && Fetched(rows, list)
    ensures forall x <- list :: Sound(x)
  {
    forall x <- list ensures Sound(x) {
      if x.a.sideEffect.Some? { assert Sound(Entry(x.id, rows[x.id])); }
    }
  }

  // ---------------------------------------------------------------- exactly once, without crashes

  function Count(ws: seq<Written>, i: nat): nat {
    if ws == [] then 0
    else Count(ws[..|ws| - 1], i) + if ws[|ws| - 1].id == i then 1 else 0
  }

  /** The gains of a device, replayed from the reports over the factory values. */
  function Replay(ws: seq<Written>, device: string): map<string, real> {
    if ws == [] then BASE
    else
      var g := Replay(ws[..|ws| - 1], device);
      var r := ws[|ws| - 1].report;
      if r.device == device && r.outcome.Verified? then g[r.param := r.now] else g
  }

  ghost predicate OneReportEach(rows: seq<Approval>, e: Exec) {
    forall i: nat :: Count(e.written, i) == if i in e.done && Is(rows, i, APPLIED) then 1 else 0
  }

  ghost predicate Replays(e: Exec) {
    forall d: string :: Lookup(e.store, d) == Replay(e.written, d)
  }

  ghost predicate Exact(w: World) {
    OneReportEach(w.rows, w.exec) && Replays(w.exec)
  }

  lemma HandleOneSafe(f: Measure, rows: seq<Approval>, e: Exec, x: Entry, dvs: Estimates)
    requires Current(rows, x) && Sound(x) && DoneIsSettled(rows, e) && OnlyAppliedRun(rows, e)
    ensures var e' := HandleOne(f, e, x, dvs);
            && DoneIsSettled(rows, e') && OnlyAppliedRun(rows, e')
            && e'.done == if x.a.sideEffect.Some? then e.done + {x.id} else e.done
  {
    hide RunOn;
    if x.id in e.done { assert e.done + {x.id} == e.done; }
  }

  lemma AppendCount(ws: seq<Written>, w: Written)
    ensures forall i: nat :: Count(ws + [w], i) == Count(ws, i) + if w.id == i then 1 else 0
  {
    assert (ws + [w])[..|ws|] == ws;
  }

  lemma HandleOneCounts(f: Measure, rows: seq<Approval>, e: Exec, x: Entry, dvs: Estimates)
    requires Current(rows, x) && Sound(x) && OneReportEach(rows, e)
    ensures OneReportEach(rows, HandleOne(f, e, x, dvs))
  {
    hide RunOn;
    if Due(e.done, x) {
      AppendCount(e.written, Written(x.id, RunOn(f, e.store, x.a, dvs).1));
    }
  }

  lemma HandleOneReplays(f: Measure, e: Exec, x: Entry, dvs: Estimates)
    requires Sound(x) && Replays(e)
    ensures Replays(HandleOne(f, e, x, dvs))
  {
    if Due(e.done, x) {
      var (store, report) := RunOn(f, e.store, x.a, dvs);
      var ws := e.written + [Written(x.id, report)];
      assert ws[..|ws| - 1] == e.written;
      var g := Lookup(e.store, x.a.device.value);
      EffectIsReport(f, g, x.a, dvs);
      hide Effect;
      forall d: string ensures Lookup(store, d) == Replay(ws, d) {
        assert Lookup(e.store, d) == Replay(e.written, d);
      }
    }
  }

  /** An execution changes the gains exactly as its report says. */
  lemma EffectIsReport(f: Measure, g: Gains, a: Approval, dvs: Estimates)
    requires Executable(a)
    ensures var (after, outcome) := Effect(f, g, a, dvs);
            after == if outcome.Verified? then g[a.summary.param.s := Number(a.summary.newValue)] else g
  {
  }

  lemma {:induction false} HandleSafe(f: Measure, rows: seq<Approval>, e: Exec, list: seq<Entry>, dvs: Estimates)
    requires RowsSound(rows) && Fetched(rows, list) && DoneIsSettled(rows, e) && OnlyAppliedRun(rows, e)
    requires forall x <- list :: Sound(x)
    ensures var e' := Handle(f, e, list, dvs);
            && DoneIsSettled(rows, e') && OnlyAppliedRun(rows, e') && e.done <= e'.done
            && forall x <- list | x.a.sideEffect.Some? :: x.id in e'.done
  {
    if list != [] {
      var n := |list| - 1;
      HandleSafe(f, rows, e, list[..n], dvs);
      HandleOneSafe(f, rows, Handle(f, e, list[..n], dvs), list[n], dvs);
      hide HandleOne, DoneIsSettled, OnlyAppliedRun;
      forall x <- list | x.a.sideEffect.Some? ensures x.id in Handle(f, e, list, dvs).done {
        if x != list[n] { assert x in list[..n]; }
      }
    }
  }

  lemma {:induction false} HandleExact(f: Measure, rows: seq<Approval>, e: Exec, list: seq<Entry>, dvs: Estimates)
    requires Fetched(rows, list) && OneReportEach(rows, e) && Replays(e)
    requires forall x <- list :: Sound(x)
    ensures OneReportEach(rows, Handle(f, e, list, dvs)) && Replays(Handle(f, e, list, dvs))
  {
    if list != [] {
      var n := |list| - 1;
      HandleExact(f, rows, e, list[..n], dvs);
      hide OneReportEach, Replays, HandleOne;
      HandleOneCounts(f, rows, Handle(f, e, list[..n], dvs), list[n], dvs);
      HandleOneReplays(f, Handle(f, e, list[..n], dvs), list[n], dvs);
    }
  }

  lemma {:induction false} ListingCurrent(rows: seq<Approval>, wanted: seq<nat>)
    ensures Fetched(rows, Listing(rows, wanted))
    ensures forall i <- wanted | i < |rows| && rows[i].approved :: Entry(i, rows[i]) in Listing(rows, wanted)
  {
    if wanted != [] {
      ListingCurrent(rows, wanted[..|wanted| - 1]);
    }
  }

  // ---------------------------------------------------------------- every step

  /** Rows are added and settled; a settled row never changes. */
  ghost predicate Settling(rows: seq<Approval>, later: seq<Approval>) {
    && |rows| <= |later|
    && forall i: nat | i < |rows| && rows[i].sideEffect.Some? :: later[i] == rows[i]
  }

  predicate IsBackend(ev: Event) {
    ev.Submit? || ev.Decide? || ev.Settle?
  }

  lemma BackendStep(f: Measure, w: World, ev: Event)
    requires Safe(w) && IsBackend(ev)
    requires forall x <- w.fetched :: Sound(x)
    ensures var later := Step(f, w, ev);
            && RowsSound(later.rows) && SettledApproved(later.rows) && Settling(w.rows, later.rows)
            && later.exec == w.exec && later.fetched == w.fetched
  {
    hide CheckParamTuning;
    var later := Step(f, w, ev);
    forall i: nat | i < |later.rows| ensures Sound(Entry(i, later.rows[i])) {
      if i < |w.rows| { assert Sound(Entry(i, w.rows[i])); }
    }
  }

  lemma StepKeepsSafe(f: Measure, w: World, ev: Event)
    requires Safe(w)
    requires forall x <- w.fetched :: Sound(x)
    ensures Safe(Step(f, w, ev))
  {
    match ev
    case Fetch(wanted) => ListingCurrent(w.rows, wanted);
    case Finish(dvs) => HandleSafe(f, w.rows, w.exec, w.fetched, dvs);
    case Restart =>
    case Crash(dvs, k, partway) =>
      if k <= |w.fetched| { HandleSafe(f, w.rows, w.exec, w.fetched[..k], dvs); }
    case _ =>
      BackendStep(f, w, ev);
      hide Step;
  }

  lemma StepKeepsExact(f: Measure, w: World, ev: Event)
    requires Safe(w) && Exact(w) && !ev.Crash?
    requires forall x <- w.fetched :: Sound(x)
    ensures Exact(Step(f, w, ev)) && w.exec.done <= Step(f, w, ev).exec.done
  {
    if ev.Finish? {
      HandleExact(f, w.rows, w.exec, w.fetched, ev.dvs);
      HandleSafe(f, w.rows, w.exec, w.fetched, ev.dvs);
    } else if IsBackend(ev) {
      BackendStep(f, w, ev);
      hide Step, Count;
    }
  }

  const START := World([], Exec(map[], {}, []), [])

  /** The state after any interleaving of the two sides; `Safe` holds in all of them. */
  ghost function Run(f: Measure, evs: seq<Event>): (w: World)
    ensures Safe(w) && forall x <- w.fetched :: Sound(x)
    decreases |evs|
  {
    if evs == [] then START
    else
      var w := Run(f, evs[..|evs| - 1]);
      StepKeepsSafe(f, w, evs[|evs| - 1]);
      FetchedSound(Step(f, w, evs[|evs| - 1]).rows, Step(f, w, evs[|evs| - 1]).fetched);
      Step(f, w, evs[|evs| - 1])
  }

  predicate NoCrash(evs: seq<Event>) {
    forall ev <- evs :: !ev.Crash?
  }

  /**
   An approval whose side effect is not settled is never in the done-set, so a later
   poll still sees it; one whose checks failed is never executed; both even with crashes.
   */
  lemma WindowIsSafe(f: Measure, evs: seq<Event>, i: nat)
    ensures var w := Run(f, evs);
            && (i in w.exec.done ==> i < |w.rows| && w.rows[i].sideEffect.Some?)
            && (!Is(w.rows, i, APPLIED) ==> Count(w.exec.written, i) == 0)
  {
    var w := Run(f, evs);
    if !Is(w.rows, i, APPLIED) { NoneWritten(w.rows, w.exec.written, i); }
  }

  lemma {:induction false} NoneWritten(rows: seq<Approval>, ws: seq<Written>, i: nat)
    requires !Is(rows, i, APPLIED) && forall k | 0 <= k < |ws| :: Is(rows, ws[k].id, APPLIED)
    ensures Count(ws, i) == 0
  {
    if ws != [] { NoneWritten(rows, ws[..|ws| - 1], i); }
  }

  /**
   Without crashes an applied approval has one report once done and none before, and the
   reports replay to the gains.
   */
  lemma {:induction false} RunExact(f: Measure, evs: seq<Event>)
    requires NoCrash(evs)
    ensures Exact(Run(f, evs))
    decreases |evs|
  {
    if evs != [] {
      var front := evs[..|evs| - 1];
      assert forall ev <- front :: ev in evs;
      RunExact(f, front);
      StepKeepsExact(f, Run(f, front), evs[|evs| - 1]);
      hide Exact, Safe, Step;
    }
  }

  lemma {:induction false} DoneGrows(f: Measure, evs: seq<Event>, more: seq<Event>)
    requires NoCrash(evs + more)
    ensures Run(f, evs).exec.done <= Run(f, evs + more).exec.done
    decreases |more|
  {
    hide Step, Safe, Exact;
    if more == [] {
      assert evs + more == evs;
    } else {
      var n := |more| - 1;
      assert (evs + more)[..|evs + more| - 1] == evs + more[..n];
      assert forall ev <- evs + more[..n] :: ev in evs + more;
      DoneGrows(f, evs, more[..n]);
      RunExact(f, evs + more[..n]);
      StepKeepsExact(f, Run(f, evs + more[..n]), more[n]);
    }
  }

  /**
   Between restarts without crashes, an approval that was applied when a list naming it
   was fetched has exactly one report once that list is worked through, and for ever after.
   */
  lemma ExactlyOneReport(f: Measure, evs: seq<Event>, x: Entry, dvs: Estimates, more: seq<Event>)
    requires NoCrash(evs + [Finish(dvs)] + more)
    requires x in Run(f, evs).fetched && x.a.sideEffect == Some(APPLIED)
    ensures Count(Run(f, evs + [Finish(dvs)] + more).exec.written, x.id) == 1
  {
    var upTo := evs + [Finish(dvs)];
    FinishDone(f, evs, x, dvs);
    StillApplied(f, evs, [Finish(dvs)] + more, x.id);
    assert evs + ([Finish(dvs)] + more) == upTo + more;
    DoneGrows(f, upTo, more);
    RunExact(f, upTo + more);
    hide Run, Safe;
  }

  lemma FinishDone(f: Measure, evs: seq<Event>, x: Entry, dvs: Estimates)
    requires x in Run(f, evs).fetched && x.a.sideEffect == Some(APPLIED)
    ensures x.id in Run(f, evs + [Finish(dvs)]).exec.done && Is(Run(f, evs).rows, x.id, APPLIED)
  {
    var w := Run(f, evs);
    assert (evs + [Finish(dvs)])[..|evs|] == evs;
    HandleSafe(f, w.rows, w.exec, w.fetched, dvs);
    hide Handle;
  }

  /** Once settled, a row stays as it is. */
  lemma {:induction false} StillApplied(f: Measure, evs: seq<Event>, more: seq<Event>, i: nat)
    requires Is(Run(f, evs).rows, i, APPLIED)
    ensures Is(Run(f, evs + more).rows, i, APPLIED)
    decreases |more|
  {
    if more == [] {
      assert evs + more == evs;
    } else {
      var n := |more| - 1;
      assert (evs + more)[..|evs + more| - 1] == evs + more[..n];
      StillApplied(f, evs, more[..n], i);
      var w := Run(f, evs + more[..n]);
      if IsBackend(more[n]) {
        BackendStep(f, w, more[n]);
        hide Step;
      }
    }
  }

  /** A list fetched for an applied approval names it as applied. */
  lemma FetchSees(f: Measure, evs: seq<Event>, wanted: seq<nat>, i: nat)
    requires Is(Run(f, evs).rows, i, APPLIED) && i in wanted
    ensures var w := Run(f, evs + [Fetch(wanted)]);
            i < |w.rows| && Entry(i, w.rows[i]) in w.fetched && w.rows[i].sideEffect == Some(APPLIED)
  {
    var upTo := evs + [Fetch(wanted)];
    assert upTo[..|evs|] == evs;
    ListingCurrent(Run(f, evs).rows, wanted);
  }

  // ---------------------------------------------------------------- crashes

  ghost predicate Distinct(list: seq<Entry>) {
    forall i, j | 0 <= i < j < |list| :: list[i].id != list[j].id
  }

  /** Entry `j` is the only one of the list that runs on its device. */
  ghost predicate Alone(done: set<nat>, list: seq<Entry>, j: nat): (b: bool)
    requires forall x <- list :: Sound(x)
    ensures b ==> j < |list| && Sound(list[j]) && Executable(list[j].a)
  {
    && j < |list| && Due(done, list[j])
    && forall i | 0 <= i < |list| && i != j && Due(done, list[i]) :: list[i].a.device != list[j].a.device
  }

  ghost predicate NonNegative(f: Measure) {
    forall g: Gains, dv: real :: f(g, dv) >= 0.0
  }

  /** The last report written for an approval: the one its file holds. */
  function LastReport(ws: seq<Written>, id: nat): Option<Report> {
    if ws == [] then None
    else if ws[|ws| - 1].id == id then Some(ws[|ws| - 1].report)
    else LastReport(ws[..|ws| - 1], id)
  }

  /** An approval alone on its device does to the device just what executing it does, when its turn comes. */
  lemma {:induction false} DeviceAfter(f: Measure, e: Exec, list: seq<Entry>, dvs: Estimates, j: nat, n: nat)
    requires forall x <- list :: Sound(x)
    requires Distinct(list) && Alone(e.done, list, j) && n <= |list|
    ensures var a := list[j].a;
            var g := Lookup(e.store, a.device.value);
            var r := Handle(f, e, list[..n], dvs);
            && Lookup(r.store, a.device.value) == (if j < n then Effect(f, g, a, dvs).0 else g)
            && (j < n ==> LastReport(r.written, list[j].id).Some?
                          && LastReport(r.written, list[j].id).value.outcome == Effect(f, g, a, dvs).1)
            && (forall i | n <= i < |list| :: list[i].id in r.done <==> list[i].id in e.done)
  {
    if n > 0 {
      DeviceAfter(f, e, list, dvs, j, n - 1);
      assert list[..n][..n - 1] == list[..n - 1];
      assert Sound(list[n - 1]);
      var was := Handle(f, e, list[..n - 1], dvs);
      hide Effect;
      var x := list[n - 1];
      if Due(was.done, x) {
        var w := Written(x.id, RunOn(f, was.store, x.a, dvs).1);
        assert (was.written + [w])[..|was.written|] == was.written;
      }
    } else {
      assert list[..0] == [];
    }
  }

  /**
   A process dies working through a list and its successor works through the list
   again. An approval alone on its device leaves it with the gains an undisturbed poll
   would have left, whether it had run before the crash or not. Its report file says
   what it would have said, unless the approval had run, was verified, and changed the
   parameter by more than the stale tolerance: then it now says stale.
   */
  lemma CrashThenPoll(f: Measure, e: Exec, list: seq<Entry>, dvs: Estimates, j: nat, k: nat, partway: bool)
    requires NonNegative(f)
    requires forall x <- list :: Sound(x)
    requires Distinct(list) && Alone(e.done, list, j) && k <= |list|
    ensures var a := list[j].a;
            var g := Lookup(e.store, a.device.value);
            var whole := Handle(f, e, list, dvs);
            var again := Handle(f, Died(f, e, list, dvs, k, partway), list, dvs);
            var hadRun := j < k || (j == k && partway);
            && Lookup(again.store, a.device.value) == Lookup(whole.store, a.device.value)
            && LastReport(again.written, list[j].id).Some?
            && LastReport(again.written, list[j].id).value.outcome
               == if hadRun && Effect(f, g, a, dvs).1.Verified? && Stale(Number(a.summary.newValue), a.summary.current)
                  then SkippedStale else Effect(f, g, a, dvs).1
  {
    var a := list[j].a;
    var g := Lookup(e.store, a.device.value);
    DeviceAfter(f, e, list, dvs, j, |list|);
    assert list[..|list|] == list;
    var died := Died(f, e, list, dvs, k, partway);
    DiedOnDevice(f, e, list, dvs, j, k, partway);
    DeviceAfter(f, died, list, dvs, j, |list|);
    EffectAgain(f, g, a, dvs);
    hide Died, Effect;
  }

  lemma EffectAgain(f: Measure, g: Gains, a: Approval, dvs: Estimates)
    requires NonNegative(f) && Executable(a)
    ensures var (g1, o1) := Effect(f, g, a, dvs);
            var (g2, o2) := Effect(f, g1, a, dvs);
            && g2 == g1
            && o2 == if o1.Verified? && Stale(Number(a.summary.newValue), a.summary.current) then SkippedStale else o1
  {
    var now := Number(a.summary.newValue);
    var dv := EstimateFor(dvs, a.device.value);
    assert f(g[a.summary.param.s := now], dv) >= 0.0;
    ReExecute(f, g, a.summary.param.s, now, dv, a.summary.current);
    hide Execute, Stale;
  }

  lemma DiedOnDevice(f: Measure, e: Exec, list: seq<Entry>, dvs: Estimates, j: nat, k: nat, partway: bool)
    requires forall x <- list :: Sound(x)
    requires Distinct(list) && Alone(e.done, list, j) && k <= |list|
    ensures var a := list[j].a;
            var g := Lookup(e.store, a.device.value);
            var died := Died(f, e, list, dvs, k, partway);
            && died.done == e.done
            && Lookup(died.store, a.device.value)
               == if j < k || (j == k && partway) then Effect(f, g, a, dvs).0 else g
  {
    DeviceAfter(f, e, list, dvs, j, k);
    if partway && k < |list| {
      assert Sound(list[k]);
    }
    hide Effect;
  }
}
