/**
 When the reports still tell the parameters, in runs in which the executor may die:
 replayed in the order they were written, and replayed from the files that remain.
 */
module ExecutorCrashes {
  import opened Common
  import opened Tuning
  import opened Executor
  import opened ExecutorLoop
  import opened ExecutorRuns

  // ---------------------------------------------------------------- over whole runs

  lemma {:induction false} HandleReplays(f: Measure, e: Exec, list: seq<Entry>, dvs: Estimates)
    requires Replays(e) && forall x <- list :: Sound(x)
    ensures Replays(Handle(f, e, list, dvs))
  {
    if list != [] {
      var n := |list| - 1;
      HandleReplays(f, e, list[..n], dvs);
      hide Replays, HandleOne;
      HandleOneReplays(f, Handle(f, e, list[..n], dvs), list[n], dvs);
    }
  }

  /**
   The executor dies on an entry whose turn to run has come, which it finds verified, with a
   value the device did not have; that is, between changing the parameter and its report.
   */
  predicate LosesReport(f: Measure, w: World, ev: Event)
    requires forall x <- w.fetched :: Sound(x)
  {
    && ev.Crash? && ev.partway && ev.k < |w.fetched|
    && var x := w.fetched[ev.k];
       assert Sound(x);
       && Due(w.exec.done, x) && x !in w.fetched[..ev.k]
       && var g := Lookup(Handle(f, w.exec, w.fetched[..ev.k], ev.dvs).store, x.a.device.value);
          && Effect(f, g, x.a, ev.dvs).1.Verified?
          && g[x.a.summary.param.s] != Number(x.a.summary.newValue)
  }

  /** One event breaks the replay exactly when it loses a report. */
  lemma StepReplaysExactly(f: Measure, w: World, ev: Event)
    requires Safe(w) && Replays(w.exec) && forall x <- w.fetched :: Sound(x)
    ensures Replays(Step(f, w, ev).exec) <==> !LosesReport(f, w, ev)
  {
    match ev
    case Finish(dvs) => HandleReplays(f, w.exec, w.fetched, dvs);
    case Crash(dvs, k, partway) =>
      if k <= |w.fetched| {
        HandleReplays(f, w.exec, w.fetched[..k], dvs);
        if k < |w.fetched| {
          DyingReplays(f, Handle(f, w.exec, w.fetched[..k], dvs), w.exec.done, w.fetched[k], dvs);
          TurnComes(f, w.rows, w.exec, w.fetched, dvs, k);
        }
      }
    case _ =>
  }

  /** An entry runs when its turn comes exactly when it was due from the start and is not a repetition. */
  lemma TurnComes(f: Measure, rows: seq<Approval>, e: Exec, list: seq<Entry>, dvs: Estimates, k: nat)
    requires Fetched(rows, list) && k < |list| && forall x <- list :: Sound(x)
    ensures Due(Handle(f, e, list[..k], dvs).done, list[k]) <==> Due(e.done, list[k]) && list[k] !in list[..k]
  {
    DoneAfter(f, e, list[..k], dvs);
    hide Handle;
    var x := list[k];
    if x.id !in e.done && x.a.sideEffect == Some(APPLIED) {
      assert ExecutorRuns.Current(rows, x);
      forall y <- list[..k] | y.id == x.id && y.a.sideEffect.Some? ensures y == x {
        assert ExecutorRuns.Current(rows, y);
      }
    }
  }

  /** Working through a list marks what it held with a side effect, and nothing else. */
  lemma {:induction false} DoneAfter(f: Measure, e: Exec, list: seq<Entry>, dvs: Estimates)
    requires forall x <- list :: Sound(x)
    ensures forall id :: id in Handle(f, e, list, dvs).done
                         <==> id in e.done || exists x <- list :: x.id == id && x.a.sideEffect.Some?
  {
    if list != [] {
      var n := |list| - 1;
      DoneAfter(f, e, list[..n], dvs);
      hide RunOn;
      assert forall x :: x in list <==> x in list[..n] || x == list[n];
    }
  }

  lemma DyingReplays(f: Measure, reached: Exec, done: set<nat>, x: Entry, dvs: Estimates)
    requires Replays(reached) && Sound(x)
    ensures Replays(Exec(reached.store, done, reached.written))
    ensures Replays(Exec(HandleOne(f, reached, x, dvs).store, done, reached.written))
            <==> !(Due(reached.done, x)
                   && var g := Lookup(reached.store, x.a.device.value);
                      && Effect(f, g, x.a, dvs).1.Verified?
                      && g[x.a.summary.param.s] != Number(x.a.summary.newValue))
  {
    var after := HandleOne(f, reached, x, dvs).store;
    if Due(reached.done, x) {
      var device := x.a.device.value;
      EffectIsReport(f, Lookup(reached.store, device), x.a, dvs);
      hide Effect, Executable;
      var g := Lookup(reached.store, device);
      SetDiffers(g, x.a.summary.param.s, Number(x.a.summary.newValue));
      assert g == Replay(reached.written, device);
      forall d: string | d != device ensures Lookup(after, d) == Replay(reached.written, d) {
        assert Lookup(reached.store, d) == Replay(reached.written, d);
      }
    }
  }

  lemma SetDiffers(g: map<string, real>, param: string, now: real)
    requires param in g
    ensures g[param := now] != g <==> g[param] != now
  {
    assert g[param := now][param] == now;
  }

  /** In every state a run goes through, the verified reports replay over the factory values to the parameters. */
  ghost predicate ReplaysThroughout(f: Measure, evs: seq<Event>) {
    forall m: nat | m <= |evs| :: Replays(Run(f, evs[..m]).exec)
  }

  ghost predicate NeverLosesReport(f: Measure, evs: seq<Event>) {
    forall m: nat | m < |evs| :: !LosesReport(f, Run(f, evs[..m]), evs[m])
  }

  lemma RunPrefix(f: Measure, evs: seq<Event>, m: nat)
    requires m < |evs|
    ensures Run(f, evs[..m + 1]) == Step(f, Run(f, evs[..m]), evs[m])
  {
    assert evs[..m + 1][..m] == evs[..m];
    hide Safe;
  }

  lemma {:induction false} ReplaysUpTo(f: Measure, evs: seq<Event>, m: nat)
    requires NeverLosesReport(f, evs) && m <= |evs|
    ensures Replays(Run(f, evs[..m]).exec)
  {
    hide LosesReport, Step;
    if m > 0 {
      ReplaysUpTo(f, evs, m - 1);
      RunPrefix(f, evs, m - 1);
      StepReplaysExactly(f, Run(f, evs[..m - 1]), evs[m - 1]);
      hide Run, Replays;
    } else {
      hide Safe;
      assert Run(f, evs[..0]) == START;
    }
  }

  /**
   Over any run, crashes included: the reports replay to the parameters throughout exactly
   when the executor never dies between changing a parameter and writing the report.
   */
  lemma ReplaysExactly(f: Measure, evs: seq<Event>)
    ensures ReplaysThroughout(f, evs) <==> NeverLosesReport(f, evs)
  {
    hide Run, LosesReport, Replays, Step;
    if NeverLosesReport(f, evs) {
      forall m: nat | m <= |evs| ensures Replays(Run(f, evs[..m]).exec) { ReplaysUpTo(f, evs, m); }
    }
    if ReplaysThroughout(f, evs) {
      forall m: nat | m < |evs| ensures !LosesReport(f, Run(f, evs[..m]), evs[m]) {
        assert Replays(Run(f, evs[..m]).exec) && Replays(Run(f, evs[..m + 1]).exec);
        RunPrefix(f, evs, m);
        StepReplaysExactly(f, Run(f, evs[..m]), evs[m]);
      }
    }
  }

  // ---------------------------------------------------------------- one report for each, over whole runs

  lemma {:induction false} HandleCounts(f: Measure, rows: seq<Approval>, e: Exec, list: seq<Entry>, dvs: Estimates)
    requires Fetched(rows, list) && OneReportEach(rows, e) && forall x <- list :: Sound(x)
    ensures OneReportEach(rows, Handle(f, e, list, dvs))
  {
    if list != [] {
      var n := |list| - 1;
      HandleCounts(f, rows, e, list[..n], dvs);
      hide OneReportEach, HandleOne;
      HandleOneCounts(f, rows, Handle(f, e, list[..n], dvs), list[n], dvs);
    }
  }

  lemma {:induction false} HandleWrites(f: Measure, e: Exec, list: seq<Entry>, dvs: Estimates)
    requires forall x <- list :: Sound(x)
    ensures e.written <= Handle(f, e, list, dvs).written
  {
    if list != [] {
      HandleWrites(f, e, list[..|list| - 1], dvs);
      hide RunOn;
    }
  }

  lemma {:induction false} CountGrows(a: seq<Written>, b: seq<Written>, id: nat)
    requires a <= b
    ensures Count(a, id) <= Count(b, id)
    decreases |b|
  {
    if |a| < |b| {
      CountGrows(a, b[..|b| - 1], id);
    } else {
      assert a == b;
    }
  }

  /** The executor dies in a list it has not finished, with an entry behind it that was due when it began. */
  predicate LeavesReport(w: World, ev: Event) {
    ev.Crash? && ev.k <= |w.fetched| && exists i | 0 <= i < ev.k :: Due(w.exec.done, w.fetched[i])
  }

  /** Working through a list writes a report exactly when some entry was due at the start. */
  lemma {:induction false} HandleWritesExactly(
    f: Measure, rows: seq<Approval>, e: Exec, list: seq<Entry>, dvs: Estimates)
    requires Fetched(rows, list) && forall x <- list :: Sound(x)
    ensures Handle(f, e, list, dvs).written != e.written <==> exists i | 0 <= i < |list| :: Due(e.done, list[i])
  {
    if list != [] {
      var n := |list| - 1;
      HandleWritesExactly(f, rows, e, list[..n], dvs);
      HandleWrites(f, e, list[..n], dvs);
      TurnComes(f, rows, e, list, dvs, n);
      hide RunOn, Due;
      assert forall i | 0 <= i < n :: list[..n][i] == list[i];
    }
  }

  lemma MoreReports(rows: seq<Approval>, e: Exec, ws: seq<Written>, store: Store)
    requires OneReportEach(rows, e) && e.written <= ws
    ensures OneReportEach(rows, Exec(store, e.done, ws)) <==> ws == e.written
  {
    if ws != e.written {
      var n := |e.written|;
      var w := ws[n];
      assert ws[..n + 1] == e.written + [w];
      AppendCount(e.written, w);
      CountGrows(ws[..n + 1], ws, w.id);
      assert Count(ws, w.id) > Count(e.written, w.id);
    }
  }

  /** One event breaks "one report for each approval done, none for the others" exactly when it is such a death. */
  lemma StepReportsExactly(f: Measure, w: World, ev: Event)
    requires Safe(w) && OneReportEach(w.rows, w.exec) && forall x <- w.fetched :: Sound(x)
    ensures var n := Step(f, w, ev); OneReportEach(n.rows, n.exec) <==> !LeavesReport(w, ev)
  {
    if ev.Finish? {
      HandleCounts(f, w.rows, w.exec, w.fetched, ev.dvs);
    } else if ev.Crash? {
      if ev.k <= |w.fetched| {
        HandleWrites(f, w.exec, w.fetched[..ev.k], ev.dvs);
        HandleWritesExactly(f, w.rows, w.exec, w.fetched[..ev.k], ev.dvs);
        assert forall i | 0 <= i < ev.k :: w.fetched[..ev.k][i] == w.fetched[i];
        var died := Died(f, w.exec, w.fetched, ev.dvs, ev.k, ev.partway);
        hide Handle, OneReportEach, Due;
        MoreReports(w.rows, w.exec, died.written, died.store);
      }
    } else if IsBackend(ev) {
      BackendStep(f, w, ev);
      hide Step, Count;
    }
  }

  ghost predicate ReportsThroughout(f: Measure, evs: seq<Event>) {
    forall m: nat | m <= |evs| :: OneReportEach(Run(f, evs[..m]).rows, Run(f, evs[..m]).exec)
  }

  ghost predicate NeverLeavesReport(f: Measure, evs: seq<Event>) {
    forall m: nat | m < |evs| :: !LeavesReport(Run(f, evs[..m]), evs[m])
  }

  lemma {:induction false} ReportsUpTo(f: Measure, evs: seq<Event>, m: nat)
    requires NeverLeavesReport(f, evs) && m <= |evs|
    ensures OneReportEach(Run(f, evs[..m]).rows, Run(f, evs[..m]).exec)
  {
    hide LeavesReport, Step;
    if m > 0 {
      ReportsUpTo(f, evs, m - 1);
      RunPrefix(f, evs, m - 1);
      StepReportsExactly(f, Run(f, evs[..m - 1]), evs[m - 1]);
      hide Run, OneReportEach, Safe;
    } else {
      hide Safe;
      assert Run(f, evs[..0]) == START;
    }
  }

  /**
   Over any run, crashes included: every applied approval has one report once it is done and
   none before, throughout, exactly when the executor never dies with a report written in a
   list it has not finished.
   */
  lemma ReportsExactly(f: Measure, evs: seq<Event>)
    ensures ReportsThroughout(f, evs) <==> NeverLeavesReport(f, evs)
  {
    hide Run, LeavesReport, OneReportEach, Step, Safe;
    if NeverLeavesReport(f, evs) {
      forall m: nat | m <= |evs| ensures OneReportEach(Run(f, evs[..m]).rows, Run(f, evs[..m]).exec) {
        ReportsUpTo(f, evs, m);
      }
    }
    if ReportsThroughout(f, evs) {
      forall m: nat | m < |evs| ensures !LeavesReport(Run(f, evs[..m]), evs[m]) {
        assert OneReportEach(Run(f, evs[..m]).rows, Run(f, evs[..m]).exec);
        assert OneReportEach(Run(f, evs[..m + 1]).rows, Run(f, evs[..m + 1]).exec);
        RunPrefix(f, evs, m);
        StepReportsExactly(f, Run(f, evs[..m]), evs[m]);
      }
    }
  }

  // ---------------------------------------------------------------- one crash and the rerun

  function Changed(g: map<string, real>, a: Approval, outcome: Outcome): map<string, real>
    requires Executable(a)
  {
    if outcome.Verified? then g[a.summary.param.s := Number(a.summary.newValue)] else g
  }

  /** A list adds one report to the device of an approval alone on it, when its turn comes. */
  lemma {:induction false} DeviceReplay(f: Measure, e: Exec, list: seq<Entry>, dvs: Estimates, j: nat, n: nat)
    requires forall x <- list :: Sound(x)
    requires Distinct(list) && Alone(e.done, list, j) && n <= |list|
    ensures var a := list[j].a;
            var g, was := Lookup(e.store, a.device.value), Replay(e.written, a.device.value);
            Replay(Handle(f, e, list[..n], dvs).written, a.device.value)
            == if j < n then Changed(was, a, Effect(f, g, a, dvs).1) else was
  {
    if n > 0 {
      DeviceReplay(f, e, list, dvs, j, n - 1);
      DeviceAfter(f, e, list, dvs, j, n - 1);
      HandleNext(f, e, list, dvs, n);
      hide Effect, Handle, HandleOne, Changed;
      ReplayStep(f, Handle(f, e, list[..n - 1], dvs), dvs, e.done, list, j, n - 1);
    } else {
      assert list[..0] == [];
    }
  }

  lemma ReplayStep(f: Measure, before: Exec, dvs: Estimates, done: set<nat>, list: seq<Entry>, j: nat, i: nat)
    requires forall x <- list :: Sound(x)
    requires Distinct(list) && Alone(done, list, j) && i < |list|
    requires list[i].id in before.done <==> list[i].id in done
    ensures Sound(list[i])
    ensures var a := list[j].a;
            var d := a.device.value;
            Replay(HandleOne(f, before, list[i], dvs).written, d)
            == if i == j then Changed(Replay(before.written, d), a, Effect(f, Lookup(before.store, d), a, dvs).1)
               else Replay(before.written, d)
  {
    var x := list[i];
    assert Sound(x);
    hide Effect, Executable;
    if Due(before.done, x) {
      ReplayNext(before.written, Written(x.id, RunOn(f, before.store, x.a, dvs).1), list[j].a.device.value);
    }
  }

  lemma HandleNext(f: Measure, e: Exec, list: seq<Entry>, dvs: Estimates, n: nat)
    requires 0 < n <= |list| && forall x <- list :: Sound(x)
    ensures Sound(list[n - 1])
    ensures Handle(f, e, list[..n], dvs) == HandleOne(f, Handle(f, e, list[..n - 1], dvs), list[n - 1], dvs)
  {
    assert list[..n][..n - 1] == list[..n - 1];
  }

  lemma ReplayNext(ws: seq<Written>, w: Written, device: string)
    ensures Replay(ws + [w], device)
         == if w.report.device == device && w.report.outcome.Verified?
            then Replay(ws, device)[w.report.param := w.report.now] else Replay(ws, device)
  {
    assert (ws + [w])[..|ws|] == ws;
  }

  /** The approval had been verified, and against the value it left its proposal reads stale. */
  predicate ReadsStale(f: Measure, g: Gains, a: Approval, dvs: Estimates)
    requires Executable(a)
  {
    Effect(f, g, a, dvs).1.Verified? && Stale(Number(a.summary.newValue), a.summary.current)
  }

  /** Then it had changed the value. */
  lemma StaleChanged(f: Measure, g: Gains, a: Approval, dvs: Estimates)
    requires Executable(a) && ReadsStale(f, g, a, dvs)
    ensures Changed(g, a, Verified) != g
  {
    assert g[a.summary.param.s] != Number(a.summary.newValue);
    assert Changed(g, a, Verified)[a.summary.param.s] == Number(a.summary.newValue);
  }

  /**
   After a crash and the rerun of the list, an approval alone on its device: all reports
   ever written replay to the device's parameters exactly when it is not the one that was
   changing the device as the executor died, verified and now reading stale.
   */
  lemma RerunReplaysExactly(f: Measure, e: Exec, list: seq<Entry>, dvs: Estimates, j: nat, k: nat, partway: bool)
    requires NonNegative(f) && forall x <- list :: Sound(x)
    requires Distinct(list) && Alone(e.done, list, j) && k <= |list|
    requires var d := list[j].a.device.value; Replay(e.written, d) == Lookup(e.store, d)
    ensures var a := list[j].a;
            var again := Handle(f, Died(f, e, list, dvs, k, partway), list, dvs);
            Replay(again.written, a.device.value) == Lookup(again.store, a.device.value)
            <==> !(j == k && partway && ReadsStale(f, Lookup(e.store, a.device.value), a, dvs))
  {
    var a := list[j].a;
    var g := Lookup(e.store, a.device.value);
    var died := Died(f, e, list, dvs, k, partway);
    assert list[..|list|] == list;
    DeviceAfter(f, died, list, dvs, j, |list|) by { DiedOnDevice(f, e, list, dvs, j, k, partway); }
    DiedOnDevice(f, e, list, dvs, j, k, partway);
    DeviceReplay(f, e, list, dvs, j, k);
    DeviceReplay(f, died, list, dvs, j, |list|);
    EffectAgain(f, g, a, dvs);
    EffectIsReport(f, g, a, dvs);
    assert died.written == Handle(f, e, list[..k], dvs).written;
    hide Died, Effect, Handle, Stale;
    if ReadsStale(f, g, a, dvs) { StaleChanged(f, g, a, dvs); }
    ChangedTwice(g, a);
  }

  lemma ChangedTwice(g: Gains, a: Approval)
    requires Executable(a)
    ensures Changed(Changed(g, a, Verified), a, Verified) == Changed(g, a, Verified)
  {
  }

  // ---------------------------------------------------------------- the files that remain

  function Without(ws: seq<Written>, id: nat): seq<Written> {
    if ws == [] then []
    else
      var front := Without(ws[..|ws| - 1], id);
      if ws[|ws| - 1].id == id then front else front + [ws[|ws| - 1]]
  }

  /** The report files on disk, by the time they were last written: a later report replaces the file of its approval. */
  function Files(ws: seq<Written>): seq<Written> {
    if ws == [] then []
    else Without(Files(ws[..|ws| - 1]), ws[|ws| - 1].id) + [ws[|ws| - 1]]
  }

  /** No report of the approval is for this device. */
  predicate Elsewhere(ws: seq<Written>, id: nat, device: string) {
    forall w <- ws | w.id == id :: w.report.device != device
  }

  lemma {:induction false} WithoutElsewhere(ws: seq<Written>, id: nat, device: string)
    requires Elsewhere(ws, id, device)
    ensures Replay(Without(ws, id), device) == Replay(ws, device)
  {
    if ws != [] {
      var front, w := ws[..|ws| - 1], ws[|ws| - 1];
      assert front + [w] == ws;
      hide Replay, Without, Elsewhere;
      ElsewhereSnoc(front, w, id, device);
      WithoutSnoc(front, w, id);
      WithoutElsewhere(front, id, device);
      ReplayNext(Without(front, id), w, device);
      ReplayNext(front, w, device);
    }
  }

  lemma ElsewhereSnoc(ws: seq<Written>, w: Written, id: nat, device: string)
    ensures Elsewhere(ws + [w], id, device)
            <==> Elsewhere(ws, id, device) && (w.id == id ==> w.report.device != device)
  {
    assert forall v :: v in ws + [w] <==> v in ws || v == w;
  }

  lemma {:induction false} WithoutIn(ws: seq<Written>, id: nat)
    ensures forall w :: w in Without(ws, id) <==> w in ws && w.id != id
  {
    if ws != [] {
      var n := |ws| - 1;
      WithoutIn(ws[..n], id);
      assert forall w :: w in ws <==> w in ws[..n] || w == ws[n];
    }
  }

  lemma WithoutSnoc(ws: seq<Written>, w: Written, id: nat)
    ensures Without(ws + [w], id) == if w.id == id then Without(ws, id) else Without(ws, id) + [w]
  {
    assert (ws + [w])[..|ws|] == ws;
  }

  lemma {:induction false} WithoutGone(ws: seq<Written>, id: nat)
    requires forall w <- ws :: w.id != id
    ensures Without(ws, id) == ws
  {
    if ws != [] {
      var n := |ws| - 1;
      assert ws[n] in ws && forall w <- ws[..n] :: w in ws;
      WithoutGone(ws[..n], id);
      assert ws[..n] + [ws[n]] == ws;
    }
  }

  lemma {:induction false} FilesIn(ws: seq<Written>)
    ensures forall w <- Files(ws) :: w in ws
  {
    if ws != [] {
      var n := |ws| - 1;
      FilesIn(ws[..n]);
      WithoutIn(Files(ws[..n]), ws[n].id);
      assert forall w <- ws[..n] :: w in ws;
      assert ws[n] in ws;
    }
  }

  lemma FilesSnoc(ws: seq<Written>, w: Written)
    ensures Files(ws + [w]) == Without(Files(ws), w.id) + [w]
  {
    assert (ws + [w])[..|ws|] == ws;
  }

  /** The device's parameters as replayed from the files on disk. */
  function FromFiles(ws: seq<Written>, device: string): map<string, real> {
    Replay(Files(ws), device)
  }

  /** The same, the file of one approval left out. */
  function FromOthers(ws: seq<Written>, id: nat, device: string): map<string, real> {
    Replay(Without(Files(ws), id), device)
  }

  /** Writing the approval's own report: whatever its file held before is gone. */
  lemma OwnReport(ws: seq<Written>, w: Written, device: string)
    requires w.report.device == device
    ensures FromOthers(ws + [w], w.id, device) == FromOthers(ws, w.id, device)
    ensures FromFiles(ws + [w], device)
         == if w.report.outcome.Verified? then FromOthers(ws, w.id, device)[w.report.param := w.report.now]
            else FromOthers(ws, w.id, device)
  {
    FilesSnoc(ws, w);
    var rest := Without(Files(ws), w.id);
    WithoutSnoc(rest, w, w.id);
    WithoutIn(Files(ws), w.id);
    WithoutGone(rest, w.id);
    ReplayNext(rest, w, device);
  }

  /** Writing a report of another approval, for another device. */
  lemma OtherReport(ws: seq<Written>, w: Written, id: nat, device: string)
    requires w.report.device != device && w.id != id && Elsewhere(ws, w.id, device)
    ensures FromOthers(ws + [w], id, device) == FromOthers(ws, id, device)
    ensures FromFiles(ws + [w], device) == FromFiles(ws, device)
  {
    var files := Files(ws);
    FilesIn(ws);
    FilesSnoc(ws, w);
    var rest := Without(files, w.id);
    WithoutElsewhere(files, w.id, device);
    ReplayNext(rest, w, device);
    WithoutSnoc(rest, w, id);
    ReplayNext(Without(rest, id), w, device);
    WithoutSwap(files, w.id, id);
    WithoutIn(files, id);
    WithoutElsewhere(Without(files, id), w.id, device);
  }

  lemma {:induction false} WithoutSwap(ws: seq<Written>, a: nat, b: nat)
    ensures Without(Without(ws, a), b) == Without(Without(ws, b), a)
  {
    if ws != [] {
      var n := |ws| - 1;
      WithoutSwap(ws[..n], a, b);
      WithoutSnoc(Without(ws[..n], a), ws[n], b);
      WithoutSnoc(Without(ws[..n], b), ws[n], a);
    }
  }

  /** The other entries that run have no report for the device of entry `j`. */
  ghost predicate OthersElsewhere(ws: seq<Written>, done: set<nat>, list: seq<Entry>, j: nat, device: string) {
    forall i: nat | i < |list| && i != j && Due(done, list[i]) :: Elsewhere(ws, list[i].id, device)
  }

  lemma {:induction false} DeviceFiles(f: Measure, e: Exec, list: seq<Entry>, dvs: Estimates, j: nat, n: nat)
    requires forall x <- list :: Sound(x)
    requires Distinct(list) && Alone(e.done, list, j) && n <= |list|
    requires OthersElsewhere(e.written, e.done, list, j, list[j].a.device.value)
    ensures var a, id := list[j].a, list[j].id;
            var d := a.device.value;
            var g, ws := Lookup(e.store, d), Handle(f, e, list[..n], dvs).written;
            && OthersElsewhere(ws, e.done, list, j, d)
            && FromOthers(ws, id, d) == FromOthers(e.written, id, d)
            && FromFiles(ws, d) == if j < n then Changed(FromOthers(e.written, id, d), a, Effect(f, g, a, dvs).1)
                                   else FromFiles(e.written, d)
  {
    hide Effect, HandleOne, FromFiles, FromOthers, OthersElsewhere, Changed, Alone, Distinct, Due;
    if n > 0 {
      hide Handle;
      DeviceFiles(f, e, list, dvs, j, n - 1);
      DeviceAfter(f, e, list, dvs, j, n - 1);
      HandleNext(f, e, list, dvs, n);
      FilesStep(f, Handle(f, e, list[..n - 1], dvs), dvs, e.done, list, j, n - 1);
    } else {
      assert Handle(f, e, list[..0], dvs) == e;
    }
  }

  lemma FilesStep(f: Measure, before: Exec, dvs: Estimates, done: set<nat>, list: seq<Entry>, j: nat, i: nat)
    requires forall x <- list :: Sound(x)
    requires Distinct(list) && Alone(done, list, j) && i < |list|
    requires OthersElsewhere(before.written, done, list, j, list[j].a.device.value)
    requires list[i].id in before.done <==> list[i].id in done
    ensures Sound(list[i])
    ensures var a, id := list[j].a, list[j].id;
            var d := a.device.value;
            var ws := HandleOne(f, before, list[i], dvs).written;
            && OthersElsewhere(ws, done, list, j, d)
            && FromOthers(ws, id, d) == FromOthers(before.written, id, d)
            && FromFiles(ws, d)
               == if i == j
                  then Changed(FromOthers(before.written, id, d), a, Effect(f, Lookup(before.store, d), a, dvs).1)
                  else FromFiles(before.written, d)
  {
    var d := list[j].a.device.value;
    var x := list[i];
    assert Sound(x);
    hide Effect, FromFiles, FromOthers, Elsewhere, Executable;
    if Due(before.done, x) {
      var w := Written(x.id, RunOn(f, before.store, x.a, dvs).1);
      OthersNext(before.written, w, done, list, j, i, d);
      if i == j { OwnReport(before.written, w, d); } else { OtherReport(before.written, w, list[j].id, d); }
    }
  }

  lemma OthersNext(ws: seq<Written>, w: Written, done: set<nat>, list: seq<Entry>, j: nat, i: nat, device: string)
    requires Distinct(list) && i < |list| && j < |list| && w.id == list[i].id
    requires i != j ==> w.report.device != device
    requires OthersElsewhere(ws, done, list, j, device)
    ensures OthersElsewhere(ws + [w], done, list, j, device)
  {
    forall l: nat | l < |list| && l != j && Due(done, list[l]) ensures Elsewhere(ws + [w], list[l].id, device) {
      assert Elsewhere(ws, list[l].id, device);
      assert forall v :: v in ws + [w] <==> v in ws || v == w;
    }
  }

  /**
   The same question asked of the files: after the crash and the rerun they replay to the
   device's parameters exactly when the approval had not run before the crash, or does
   not now read stale; its file then still says what happened.
   */
  lemma RerunFilesExactly(f: Measure, e: Exec, list: seq<Entry>, dvs: Estimates, j: nat, k: nat, partway: bool)
    requires NonNegative(f) && forall x <- list :: Sound(x)
    requires Distinct(list) && Alone(e.done, list, j) && k <= |list|
    requires var d := list[j].a.device.value;
             FromFiles(e.written, d) == Lookup(e.store, d) && OthersElsewhere(e.written, e.done, list, j, d)
    requires LastReport(e.written, list[j].id).None?
    ensures var a := list[j].a;
            var again := Handle(f, Died(f, e, list, dvs, k, partway), list, dvs);
            FromFiles(again.written, a.device.value) == Lookup(again.store, a.device.value)
            <==> !((j < k || (j == k && partway)) && ReadsStale(f, Lookup(e.store, a.device.value), a, dvs))
  {
    var a, id := list[j].a, list[j].id;
    var d := a.device.value;
    var g := Lookup(e.store, d);
    var died := Died(f, e, list, dvs, k, partway);
    assert list[..|list|] == list;
    NotReported(e.written, id, d);
    DiedOnDevice(f, e, list, dvs, j, k, partway);
    DeviceAfter(f, died, list, dvs, j, |list|);
    DeviceFiles(f, e, list, dvs, j, k);
    assert died.written == Handle(f, e, list[..k], dvs).written;
    DeviceFiles(f, died, list, dvs, j, |list|);
    EffectAgain(f, g, a, dvs);
    EffectIsReport(f, g, a, dvs);
    hide Died, Effect, Handle, Stale, FromFiles, FromOthers, OthersElsewhere;
    if ReadsStale(f, g, a, dvs) { StaleChanged(f, g, a, dvs); }
  }

  lemma NotReported(ws: seq<Written>, id: nat, device: string)
    requires LastReport(ws, id).None?
    ensures FromOthers(ws, id, device) == FromFiles(ws, device)
  {
    NoReportIn(ws, id);
    FilesIn(ws);
    WithoutGone(Files(ws), id);
  }

  lemma {:induction false} NoReportIn(ws: seq<Written>, id: nat)
    requires LastReport(ws, id).None?
    ensures forall w <- ws :: w.id != id
  {
    if ws != [] { NoReportIn(ws[..|ws| - 1], id); }
  }

  // ---------------------------------------------------------------- from any run without crashes

  lemma {:induction false} CountIn(ws: seq<Written>, w: Written)
    requires w in ws
    ensures Count(ws, w.id) > 0
  {
    var n := |ws| - 1;
    if ws[n] != w {
      assert w in ws[..n];
      CountIn(ws[..n], w);
    }
  }

  /** While no approval has two reports, nothing has been overwritten. */
  lemma {:induction false} FilesAreAll(ws: seq<Written>)
    requires forall id: nat :: Count(ws, id) <= 1
    ensures Files(ws) == ws
  {
    if ws != [] {
      var n := |ws| - 1;
      assert forall id: nat :: Count(ws[..n], id) <= Count(ws, id);
      FilesAreAll(ws[..n]);
      forall w <- ws[..n] ensures w.id != ws[n].id {
        CountIn(ws[..n], w);
      }
      WithoutGone(ws[..n], ws[n].id);
      assert ws[..n] + [ws[n]] == ws;
    }
  }

  lemma {:induction false} CountNone(ws: seq<Written>, id: nat)
    requires Count(ws, id) == 0
    ensures LastReport(ws, id).None? && forall w <- ws :: w.id != id
  {
    if ws != [] { CountNone(ws[..|ws| - 1], id); }
  }

  /**
   On every state reached without a crash: the executor dies anywhere in the list it has
   fetched, and works through it again. For an approval alone on its device, the reports
   in the order they were written, and the files that remain, replay to its parameters
   exactly under the two conditions above.
   */
  lemma FirstCrashReplays(f: Measure, evs: seq<Event>, dvs: Estimates, j: nat, k: nat, partway: bool)
    requires NonNegative(f) && NoCrash(evs)
    requires var w := Run(f, evs); Distinct(w.fetched) && Alone(w.exec.done, w.fetched, j) && k <= |w.fetched|
    ensures var w := Run(f, evs);
            var a := w.fetched[j].a;
            var d := a.device.value;
            var again := Handle(f, Died(f, w.exec, w.fetched, dvs, k, partway), w.fetched, dvs);
            var stale := ReadsStale(f, Lookup(w.exec.store, d), a, dvs);
            && (Replay(again.written, d) == Lookup(again.store, d) <==> !(j == k && partway && stale))
            && (FromFiles(again.written, d) == Lookup(again.store, d) <==>
                !((j < k || (j == k && partway)) && stale))
  {
    RunExact(f, evs);
    var w := Run(f, evs);
    var list, e := w.fetched, w.exec;
    var d := list[j].a.device.value;
    hide Run, Handle, Died, ReadsStale, Effect;
    FilesAreAll(e.written);
    assert Lookup(e.store, d) == Replay(e.written, d);
    CountNone(e.written, list[j].id);
    forall i: nat | i < |list| && i != j && Due(e.done, list[i]) ensures Elsewhere(e.written, list[i].id, d) {
      CountNone(e.written, list[i].id);
    }
    hide Safe, Replays, OneReportEach, Alone;
    RerunReplaysExactly(f, e, list, dvs, j, k, partway);
    RerunFilesExactly(f, e, list, dvs, j, k, partway);
  }

  // ---------------------------------------------------------------- a lost derating

  const DERATING := Approval(
    Some("AXIS-04"),
    Summary(PyStr("Acc"), PyFloat(540.0), PyList([PyFloat(200.0), PyFloat(800.0)]), PyFloat(-10.0), Some(600.0)),
    true, Some(APPLIED))

  /** It is submitted, approved, settled and fetched. */
  const DERATED: seq<Event> := [Submit(DERATING.device, DERATING.summary), Decide(0), Settle(0), Fetch([0])]

  lemma RunNext(f: Measure, evs: seq<Event>, ev: Event)
    ensures Run(f, evs + [ev]) == Step(f, Run(f, evs), ev)
  {
    assert (evs + [ev])[..|evs|] == evs;
    hide Safe;
  }

  lemma DeratingFetched(f: Measure)
    ensures Run(f, DERATED) == World([DERATING], Exec(map[], {}, []), [Entry(0, DERATING)])
  {
    var e: seq<Event> := [];
    var one, two, three := e + [DERATED[0]], e + [DERATED[0]] + [DERATED[1]], DERATED[..3];
    assert e + [DERATED[0]] + [DERATED[1]] + [DERATED[2]] == three && three + [DERATED[3]] == DERATED;
    assert Run(f, e) == START;
    RunNext(f, e, DERATED[0]);
    RunNext(f, one, DERATED[1]);
    RunNext(f, two, DERATED[2]);
    RunNext(f, three, DERATED[3]);
    hide Run, Settled, Listing;
    SettlesApplied();
    ListingOne([DERATING], 0);
    var submitted := DERATING.(approved := false, sideEffect := None);
    assert Run(f, one) == START.(rows := [submitted]);
    assert Run(f, two) == START.(rows := [submitted.(approved := true)]);
    assert Run(f, three) == START.(rows := [DERATING]);
  }

  lemma ListingOne(rows: seq<Approval>, i: nat)
    requires i < |rows| && rows[i].approved
    ensures Listing(rows, [i]) == [Entry(i, rows[i])]
  {
    var wanted: seq<nat> := [i];
    assert wanted[..0] == [];
  }

  lemma SettlesApplied()
    ensures Settled(DERATING.(sideEffect := None)) == DERATING
  {
    var items := DERATING.summary.allowedRange.items;
    assert items[0] == PyFloat(200.0) && items[1] == PyFloat(800.0);
  }

  /** The executor dies with the list fetched, starts again, fetches and works through it. */
  function DiedAndRerun(dvs: Estimates, k: nat, partway: bool): seq<Event> {
    DERATED + [Crash(dvs, k, partway)] + [Fetch([0])] + [Finish(dvs)]
  }

  lemma FetchStep(f: Measure, w: World)
    requires w.rows == [DERATING] && w.fetched == []
    ensures Step(f, w, Fetch([0])) == w.(fetched := [Entry(0, DERATING)])
  {
    ListingOne(w.rows, 0);
    hide Listing;
  }

  lemma CrashStep(f: Measure, w: World, dvs: Estimates, k: nat, partway: bool)
    requires k <= |w.fetched| && forall x <- w.fetched :: Sound(x)
    ensures Step(f, w, Crash(dvs, k, partway))
         == World(w.rows, Died(f, w.exec, w.fetched, dvs, k, partway), [])
  {
    hide Died, Sound;
  }

  lemma RerunOfDerating(f: Measure, dvs: Estimates, k: nat, partway: bool)
    requires k <= 1
    ensures Sound(Entry(0, DERATING))
    ensures var list := [Entry(0, DERATING)];
            Run(f, DiedAndRerun(dvs, k, partway)).exec
            == Handle(f, Died(f, Exec(map[], {}, []), list, dvs, k, partway), list, dvs)
  {
    hide Run, Died, Handle, Safe, Executable, Listing, Step;
    var w := Run(f, DERATED);
    DeratingFetched(f);
    assert Sound(w.fetched[0]);
    RunNext(f, DERATED, Crash(dvs, k, partway));
    CrashStep(f, w, dvs, k, partway);
    var died := Run(f, DERATED + [Crash(dvs, k, partway)]);
    RunNext(f, DERATED + [Crash(dvs, k, partway)], Fetch([0]));
    FetchStep(f, died);
    RunNext(f, DERATED + [Crash(dvs, k, partway)] + [Fetch([0])], Finish(dvs));
    FinishStep(f, died.(fetched := w.fetched), dvs);
  }

  lemma FinishStep(f: Measure, w: World, dvs: Estimates)
    requires forall x <- w.fetched :: Sound(x)
    ensures Step(f, w, Finish(dvs)).exec == Handle(f, w.exec, w.fetched, dvs)
  {
    hide Handle, Sound;
  }

  /**
   A run in which a derating from 600 to 540 loses its report. If the executor dies before
   its report is written, the acceleration stays at 540 while the reports replay to 600; if
   it dies later, before its done-set is saved, the file is overwritten with a stale one.
   */
  lemma DeratingReportLost(f: Measure, dvs: Estimates)
    requires forall g: Gains, dv: real :: f(g, dv) == 0.0
    ensures var early := Run(f, DiedAndRerun(dvs, 0, true)).exec;
            var late := Run(f, DiedAndRerun(dvs, 1, false)).exec;
            var d := "AXIS-04";
            && Lookup(early.store, d)["Acc"] == 540.0 && Replay(early.written, d) != Lookup(early.store, d)
            && Lookup(late.store, d)["Acc"] == 540.0 && FromFiles(late.written, d) != Lookup(late.store, d)
  {
    var e, list, d := Exec(map[], {}, []), [Entry(0, DERATING)], "AXIS-04";
    RerunOfDerating(f, dvs, 0, true);
    RerunOfDerating(f, dvs, 1, false);
    hide Run;
    DeratingExecutes(f, dvs);
    assert Sound(list[0]) && Alone(e.done, list, 0);
    assert list[..|list|] == list;
    CrashThenPoll(f, e, list, dvs, 0, 0, true);
    CrashThenPoll(f, e, list, dvs, 0, 1, false);
    DeviceAfter(f, e, list, dvs, 0, 1);
    RerunReplaysExactly(f, e, list, dvs, 0, 0, true);
    assert Files([]) == [] && OthersElsewhere(e.written, e.done, list, 0, d);
    RerunFilesExactly(f, e, list, dvs, 0, 1, false);
  }

  lemma DeratingExecutes(f: Measure, dvs: Estimates)
    requires forall g: Gains, dv: real :: f(g, dv) == 0.0
    ensures Executable(DERATING) && ReadsStale(f, BASE, DERATING, dvs)
    ensures Effect(f, BASE, DERATING, dvs).0["Acc"] == 540.0
  {
    var items := DERATING.summary.allowedRange.items;
    assert items[0] == PyFloat(200.0) && items[1] == PyFloat(800.0);
    assert !Stale(600.0, Some(600.0));
    assert Abs(600.0 - 540.0) / Abs(540.0) > STALE_TOL;
  }
}
