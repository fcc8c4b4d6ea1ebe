/**
 Polling for approved tunings and running each once: `ExecutorLoop.poll_once` of
 `executor/sim_executor.py`, against approvals whose decision and side effect are
 committed one after the other (`app/services/approval_service.py`).
 */
module ExecutorLoop {
  import opened Common
  import opened Tuning
  import opened Executor

  /** The summary of a tuning approval, and the value its proposer saw. */
  datatype Summary = Summary(param: Py, newValue: Py, allowedRange: Py, deltaPct: Py, current: Option<real>)

  datatype Approval = Approval(device: Option<string>, summary: Summary, approved: bool, sideEffect: Option<string>)

  const APPLIED := "applied"
  const FAILED := "failed"

  /** The backend's verdict on an approved tuning; a device, once named, counts as idle. */
  function Checked(a: Approval): Verdict {
    CheckParamTuning(Proposal(a.summary.param, a.summary.newValue, a.summary.allowedRange, a.summary.deltaPct,
                              if a.device.Some? && a.device.value != "" then Some("idle") else None))
  }

  predicate Executable(a: Approval): (b: bool)
    ensures b ==> a.device.Some? && a.summary.param.PyStr? && a.summary.param.s in PARAM_WHITELIST
                  && IsNumber(a.summary.newValue)
  {
    Checked(a) == Passed
  }

  /** One row of the approvals list, under its approval's number. */
  datatype Entry = Entry(id: nat, a: Approval)

  predicate Sound(x: Entry) {
    x.a.sideEffect == Some(APPLIED) ==> Executable(x.a)
  }

  /** A report file written; a later one for the same approval replaces it. */
  datatype Written = Written(id: nat, report: Report)

  /** Device parameters, approvals dealt with, report files written so far. */
  datatype Exec = Exec(store: Store, done: set<nat>, written: seq<Written>)

  type Estimates = map<string, real>

  function EstimateFor(dvs: Estimates, device: string): real {
    if device in dvs then dvs[device] else 0.0
  }

  /** What executing approval `a` does to gains `g` of its device. */
  function Effect(f: Measure, g: Gains, a: Approval, dvs: Estimates): (Gains, Outcome)
    requires Executable(a)
  {
    Execute(f, g, a.summary.param.s, Number(a.summary.newValue), EstimateFor(dvs, a.device.value), a.summary.current)
  }

  function RunOn(f: Measure, store: Store, a: Approval, dvs: Estimates): (Store, Report)
    requires Executable(a)
  {
    var g := Lookup(store, a.device.value);
    var (after, outcome) := Effect(f, g, a, dvs);
    (store[a.device.value := after],
     Report(a.device.value, a.summary.param.s, g[a.summary.param.s], Number(a.summary.newValue), outcome,
            Measured(f, g, a.summary.param.s, Number(a.summary.newValue), EstimateFor(dvs, a.device.value), outcome)))
  }

  /** The entry is executed when its turn comes. */
  predicate Due(done: set<nat>, x: Entry) {
    x.id !in done && x.a.sideEffect == Some(APPLIED)
  }

  function HandleOne(f: Measure, e: Exec, x: Entry, dvs: Estimates): Exec
    requires Sound(x)
  {
    if Due(e.done, x) then
      var (store, report) := RunOn(f, e.store, x.a, dvs);
      Exec(store, e.done + {x.id}, e.written + [Written(x.id, report)])
    else if x.a.sideEffect.Some? then e.(done := e.done + {x.id})
    else e
  }

  /** The effect of a poll that reached the end of its list. */
  function Handle(f: Measure, e: Exec, list: seq<Entry>, dvs: Estimates): Exec
    requires forall x <- list :: Sound(x)
  {
    if list == [] then e
    else HandleOne(f, Handle(f, e, list[..|list| - 1], dvs), list[|list| - 1], dvs)
  }

  class Loop {
    const ex: SimExecutor
    var done: set<nat>
    var doneFile: set<nat>
    var written: seq<Written>

    /** Starting, or starting again: the done-set comes from its file. */
    constructor (ex: SimExecutor, doneFile: set<nat>, written: seq<Written>)
      ensures this.ex == ex && done == this.doneFile == doneFile && this.written == written
    {
      this.ex, done, this.doneFile, this.written := ex, doneFile, doneFile, written;
    }

    ghost function State(): Exec
      reads this, ex
    {
      Exec(ex.params, done, written)
    }

    /**
     The file of device parameters keeps saying what memory says, so a restart loses
     nothing of it; the done-set reaches its file only at the end of the list.
     */
    method PollOnce(approvals: seq<Entry>, dvs: Estimates) returns (reports: seq<Written>)
      requires forall x <- approvals :: Sound(x)
      modifies this, ex
      ensures State() == Handle(ex.followErr, old(State()), approvals, dvs)
      ensures doneFile == done
      ensures written == old(written) + reports
      ensures old(Same(ex.saved, ex.params)) ==> Same(ex.saved, ex.params)
    {
      hide RunOn, Executable, Execute, Same;
      reports := [];
      for i := 0 to |approvals|
        invariant State() == Handle(ex.followErr, old(State()), approvals[..i], dvs)
        invariant written == old(written) + reports
        invariant old(Same(ex.saved, ex.params)) ==> Same(ex.saved, ex.params)
      {
        var x := approvals[i];
        assert approvals[..i + 1][..i] == approvals[..i];
        assert Sound(x);
        if x.id !in done {
          if x.a.sideEffect.Some? && x.a.sideEffect.value != APPLIED {
            done := done + {x.id};
          } else if x.a.sideEffect.Some? {
            var rep := Apply(x, dvs);
            written := written + [Written(x.id, rep)];
            done := done + {x.id};
            reports := reports + [Written(x.id, rep)];
          }
        } else {
          assert done + {x.id} == done;
        }
      }
      assert approvals[..|approvals|] == approvals;
      doneFile := done;
    }

    method Apply(x: Entry, dvs: Estimates) returns (rep: Report)
      requires x.a.sideEffect == Some(APPLIED) && Executable(x.a)
      modifies ex
      ensures (ex.params, rep) == RunOn(ex.followErr, old(ex.params), x.a, dvs)
      ensures old(Same(ex.saved, ex.params)) ==> Same(ex.saved, ex.params)
    {
      hide Execute;
      var device := x.a.device.value;
      var dv := if device in dvs then dvs[device] else 0.0;
      rep := ex.ApplyAndVerify(device, x.a.summary.param.s, Number(x.a.summary.newValue), dv, x.a.summary.current);
      if rep.outcome.SkippedStale? {
        SkippedKeeps(ex.followErr, Lookup(old(ex.params), device), x.a, dvs);
      }
    }
  }

  lemma SkippedKeeps(f: Measure, g: Gains, a: Approval, dvs: Estimates)
    requires Executable(a) && !Effect(f, g, a, dvs).1.Verified?
    ensures Effect(f, g, a, dvs).0 == g
  {
  }
}
