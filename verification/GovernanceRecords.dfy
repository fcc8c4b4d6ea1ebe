/**
 What the tables say, field by field: when a side effect applies, what a job's row and a
 promotion's summary hold, and the log row of every call.
 */
module GovernanceRecords {
  import opened Common
  import opened Json
  import opened Registry
  import RegistryRuns
  import opened Governance
  import opened GovernanceRuns
  import opened GovernanceTicks
  import Tuning
  import ExecutorLoop

  // ---------------------------------------------------------------- side effects

  /** The registry has a row of this scenario and version. */
  ghost predicate Registered(rows: seq<Dict>, scenario: string, version: string) {
    exists d <- rows :: Get(d, "scenario_id") == Str(scenario) && Get(d, "version") == Str(version)
  }

  /**
   A promotion applies exactly when scenario and version are named and not empty, the
   scenario is well-formed, and the registry can be read and has a row of that version.
   */
  lemma PromotionAppliesExactly(
    env: Env, was: Option<seq<Dict>>, g: Gov, i: nat, user: Option<string>, role: Option<string>)
    requires Inv(env, was, g) && MayDecide(env, g, i, user, role) && g.approvals[i].kind.ModelPromotion?
    ensures var a := g.approvals[i];
            Approving(env, g, i, user, role).0.approvals[i].sideEffect == Some("applied") <==>
              && a.scenario.Some? && a.scenario.value != "" && a.summary.to.Some? && a.summary.to.value != ""
              && env.wellFormed(a.scenario.value)
              && g.rows.Some? && Registered(g.rows.value, a.scenario.value, a.summary.to.value)
  {
    var a := g.approvals[i];
    PromotionOutcome(env, was, g, i, user, role);
    if Named(a.scenario) && Named(a.summary.to) && g.rows.Some? {
      FoundIs(g.rows.value, a.scenario.value, a.summary.to.value);
    }
    hide Approving, Inv, FindVersion, Registered;
  }

  lemma FoundIs(rows: seq<Dict>, scenario: string, version: string)
    ensures FindVersion(rows, scenario, version).Some? <==> Registered(rows, scenario, version)
  {
    var t := FindVersion(rows, scenario, version);
    if t.Some? { assert rows[t.value] in rows && Matches(rows[t.value], scenario, version); }
    if Registered(rows, scenario, version) {
      var i :| 0 <= i < |rows| && Get(rows[i], "scenario_id") == Str(scenario)
               && Get(rows[i], "version") == Str(version);
      assert Matches(rows[i], scenario, version);
    }
  }

  /** The proposal a tuning approval puts to the five checks: a named device counts as idle. */
  function ToCheck(a: Approval): Tuning.Proposal {
    var t := a.summary.tuning;
    Tuning.Proposal(t.param, t.newValue, t.allowedRange, t.deltaPct,
                    if a.device.Some? && a.device.value != "" then Some("idle") else None)
  }

  /**
   An approved tuning is recorded as applied exactly when all five checks hold, as failed
   when one does not, and not at all when the checks raise; jobs and registry stay.
   */
  lemma TuningOutcome(
    env: Env, was: Option<seq<Dict>>, g: Gov, i: nat, user: Option<string>, role: Option<string>)
    requires Inv(env, was, g) && MayDecide(env, g, i, user, role) && g.approvals[i].kind.ParamTuning?
    ensures var a := g.approvals[i];
            var n := Approving(env, g, i, user, role).0;
            var all := forall c: Tuning.Check :: Tuning.Holds(c, ToCheck(a));
            && n.jobs == g.jobs && n.rows == g.rows
            && n.approvals[i].sideEffect
               == if !Tuning.Hashable(a.summary.tuning.param) then None
                  else if all then Some("applied") else Some("failed")
  {
    var a := g.approvals[i];
    PendingOk(env, was, g, i);
    ApproveShape(env, g, i, user, role);
    RaisesIff(a);
    if Tuning.Hashable(a.summary.tuning.param) { Tuning.VerdictIsFirstFailure(ToCheck(a), Tuning.Whitelist); }
    assert ExecutorLoop.Checked(AsTuning(a)) == Tuning.CheckParamTuning(ToCheck(a));
    hide Approving, Inv, Tuning.CheckParamTuning, ExecutorLoop.Checked;
  }

  /** An activation enters shadow and touches nothing else. */
  lemma ActivationEntersShadow(
    env: Env, was: Option<seq<Dict>>, g: Gov, i: nat, user: Option<string>, role: Option<string>)
    requires Inv(env, was, g) && MayDecide(env, g, i, user, role) && g.approvals[i].kind.ScenarioActivation?
    ensures var n := Approving(env, g, i, user, role).0;
            n.approvals[i].sideEffect == Some("shadow") && n.rows == g.rows && n.jobs == g.jobs && n.alarms == g.alarms
  {
    PendingOk(env, was, g, i);
    ApproveShape(env, g, i, user, role);
    hide Approving, Inv;
  }

  // ---------------------------------------------------------------- the current version

  /** The version of the first active row of the scenario; null exactly when no row of it is active. */
  lemma {:induction false} ActiveVersionExactly(rows: seq<Dict>, scenario: string)
    ensures (forall i | 0 <= i < |rows| :: !IsActive(rows[i], scenario)) ==> ActiveVersion(rows, scenario) == Null
    ensures forall t | 0 <= t < |rows| && IsActive(rows[t], scenario)
                       && (forall i | 0 <= i < t :: !IsActive(rows[i], scenario)) ::
              ActiveVersion(rows, scenario) == Get(rows[t], "version")
  {
    if rows != [] {
      ActiveVersionExactly(rows[1..], scenario);
      hide IsActive, Get;
      forall t | 0 < t < |rows| && IsActive(rows[t], scenario)
                 && (forall i | 0 <= i < t :: !IsActive(rows[i], scenario))
        ensures ActiveVersion(rows, scenario) == Get(rows[t], "version")
      {
        assert rows[1..][t - 1] == rows[t];
        assert forall i | 0 <= i < t - 1 :: rows[1..][i] == rows[i + 1];
      }
      assert forall i | 0 <= i < |rows| - 1 :: rows[1..][i] == rows[i + 1];
    }
  }

  lemma OnlyVersion(rows: seq<Dict>, scenario: string)
    ensures forall t: nat | RegistryRuns.OnlyActive(rows, scenario, t) ::
              ActiveVersion(rows, scenario) == Get(rows[t], "version")
  {
    ActiveVersionExactly(rows, scenario);
    hide IsActive, Get;
  }

  /**
   The promotion a job proposes when it passes compares its own version with the one active
   then, or with none when the registry cannot be read.
   */
  lemma PassComparesVersions(env: Env, g: Gov, i: nat, hash: string, at: string)
    requires i < |g.jobs| && g.jobs[i].status.Shadow?
    ensures var n, readable := Advancing(env, g, i, hash, at), env.wellFormed(g.jobs[i].scenario) && g.rows.Some?;
            && |n.approvals| == |g.approvals| + 1
            && n.approvals[|g.approvals|].summary.to == g.jobs[i].version
            && (!readable ==> n.approvals[|g.approvals|].summary.current == Null)
            && (readable ==> forall t: nat | RegistryRuns.OnlyActive(g.rows.value, g.jobs[i].scenario, t) ::
                  n.approvals[|g.approvals|].summary.current == Get(g.rows.value[t], "version"))
  {
    PassShape(env, g, i, hash, at);
    if g.rows.Some? { OnlyVersion(g.rows.value, g.jobs[i].scenario); }
    hide Advancing, ActiveVersion, Get, RegistryRuns.OnlyActive;
  }

  /** Entering shadow, a job gets its version, and the registry a shadow row for it, from which it can be read back. */
  lemma EntersShadowExactly(env: Env, g: Gov, i: nat, hash: string, at: string)
    requires i < |g.jobs| && g.jobs[i].status.Evaluating?
    ensures var j, n := g.jobs[i], Advancing(env, g, i, hash, at);
            var version := "v1.0.4-job" + Digits(i);
            && n.jobs[i] == j.(status := Shadow, progress := 90, version := Some(version))
            && n.approvals == g.approvals
            && (if env.wellFormed(j.scenario) && g.rows.Some? then
                  && n.rows.Some? && |n.rows.value| == |g.rows.value| + 1 && g.rows.value <= n.rows.value
                  && var d := n.rows.value[|g.rows.value|];
                     && Get(d, "status") == Str("shadow")
                     && RegistryRuns.CandidateOf(d)
                        == Some(Candidate(j.scenario, version, "ml_reg", hash, METRICS, Str(at)))
                else n.rows == g.rows)
  {
    RegistryRuns.ShadowRowTells(JobCandidate(g.jobs[i].scenario, i, hash, at));
    hide ShadowRow, Get, RegistryRuns.CandidateOf;
  }

  // ---------------------------------------------------------------- jobs

  function Percent(s: JobStatus): nat {
    match s
    case Queued => 0
    case Running => 40
    case Evaluating => 70
    case Shadow => 90
    case _ => 100
  }

  ghost predicate CancelledBy(i: nat, calls: seq<ServiceCall>) {
    exists user: Option<string> :: Cancel(i, user) in calls
  }

  /** Every field of the job's row is what some call of the run put there. */
  ghost predicate JobTells(j: Job, i: nat, calls: seq<ServiceCall>) {
    && Create(j.scenario, j.requestedBy, j.requestedRole) in calls
    && j.progress == Percent(j.status)
    && (j.status.Cancelled? ==> CancelledBy(i, calls)) && !j.status.Failed?
    && (j.version.Some? ==> j.version.value == "v1.0.4-job" + Digits(i))
  }

  ghost predicate AllJobsTell(g: Gov, calls: seq<ServiceCall>) {
    forall i: nat | i < |g.jobs| :: JobTells(g.jobs[i], i, calls)
  }

  lemma JobTellsMore(j: Job, i: nat, calls: seq<ServiceCall>, c: ServiceCall)
    requires JobTells(j, i, calls)
    ensures JobTells(j, i, calls + [c])
  {
    assert forall x: ServiceCall :: x in calls ==> x in calls + [c];
    if CancelledBy(i, calls) {
      var user: Option<string> :| Cancel(i, user) in calls;
      assert Cancel(i, user) in calls + [c];
    }
  }

  /** One job's row changed, or none, and perhaps one added. */
  lemma JobsTellNext(g: Gov, n: Gov, calls: seq<ServiceCall>, c: ServiceCall, k: nat)
    requires AllJobsTell(g, calls) && |g.jobs| <= |n.jobs| <= |g.jobs| + 1 && (|n.jobs| > |g.jobs| ==> k == |g.jobs|)
    requires forall i: nat | i < |g.jobs| && i != k :: n.jobs[i] == g.jobs[i]
    requires k < |n.jobs| ==> JobTells(n.jobs[k], k, calls + [c])
    ensures AllJobsTell(n, calls + [c])
  {
    hide JobTells;
    forall i: nat | i < |n.jobs| ensures JobTells(n.jobs[i], i, calls + [c]) {
      if i != k { JobTellsMore(g.jobs[i], i, calls, c); }
    }
  }

  /** One step of a job, in terms of its own row. */
  lemma AdvanceJob(env: Env, g: Gov, i: nat, hash: string, at: string)
    requires i < |g.jobs|
    ensures var j, n := g.jobs[i], Advancing(env, g, i, hash, at).jobs[i];
            && n.scenario == j.scenario && n.requestedBy == j.requestedBy && n.requestedRole == j.requestedRole
            && (n == j || (n.progress == Percent(n.status) && !n.status.Cancelled? && !n.status.Failed?))
            && (n.version == j.version || n.version == Some("v1.0.4-job" + Digits(i)))
  {
    hide ShadowRow, CurrentVersion;
  }

  lemma StepJobsTell(env: Env, g: Gov, calls: seq<ServiceCall>, c: ServiceCall)
    requires AllJobsTell(g, calls)
    ensures AllJobsTell(Step(env, g, c), calls + [c])
  {
    var n := Step(env, g, c);
    assert c in calls + [c];
    hide AllJobsTell, Advancing, Deciding, Approving;
    match c
    case Create(scenario, user, role) =>
      assert n.jobs[|g.jobs|] == Job(scenario, Queued, 0, user, role, None, None);
      JobsTellNext(g, n, calls, c, |g.jobs|);
    case Advance(i, hash, at) =>
      if i < |g.jobs| {
        AdvanceStatus(env, g, i, hash, at);
        AdvanceJob(env, g, i, hash, at);
        JobHere(g, calls, i);
        JobTellsMore(g.jobs[i], i, calls, c);
        JobsTellNext(g, n, calls, c, i);
      } else {
        JobsTellNext(g, n, calls, c, |g.jobs|);
      }
    case Cancel(i, user) =>
      if i < |g.jobs| && !JobTerminal(g.jobs[i].status) {
        JobHere(g, calls, i);
        JobTellsMore(g.jobs[i], i, calls, c);
        assert CancelledBy(i, calls + [c]);
        JobsTellNext(g, n, calls, c, i);
      } else {
        JobsTellNext(g, n, calls, c, |g.jobs|);
      }
    case ApproveIt(k, user, role) =>
      ApproveJobs(env, g, k, user, role);
      JobsTellNext(g, n, calls, c, |g.jobs|);
    case RejectIt(k, user, role) =>
      DecideJobs(g, k, Reject, user, role);
      JobsTellNext(g, n, calls, c, |g.jobs|);
    case WithdrawIt(k, user, role) =>
      DecideJobs(g, k, Withdraw, user, role);
      JobsTellNext(g, n, calls, c, |g.jobs|);
    case ProposeNew(_, _, _, _, _) => JobsTellNext(g, n, calls, c, |g.jobs|);
  }

  lemma JobHere(g: Gov, calls: seq<ServiceCall>, i: nat)
    requires AllJobsTell(g, calls) && i < |g.jobs|
    ensures JobTells(g.jobs[i], i, calls)
  {
  }

  /**
   After any run: every job was requested by a call naming its scenario, engineer and role,
   its progress is that of its status, only a call cancels it, and its version is its own.
   */
  lemma {:induction false} RunJobsTell(env: Env, rows: Option<seq<Dict>>, calls: seq<ServiceCall>)
    ensures AllJobsTell(Run(env, rows, calls), calls)
    decreases |calls|
  {
    if calls != [] {
      var front, c := calls[..|calls| - 1], calls[|calls| - 1];
      assert front + [c] == calls;
      RunJobsTell(env, rows, front);
      hide AllJobsTell, Step;
      StepJobsTell(env, Run(env, rows, front), front, c);
    }
  }

  // ---------------------------------------------------------------- the log

  predicate Over(s: JobStatus) {
    s == Passed || s == Failed || s == Cancelled
  }

  function DecisionRows(d: Decision, i: nat, user: Option<string>, applied: bool): seq<LogRow> {
    [LogRow(Decide(d), OfApproval(i), user)] + if applied then [LogRow(Apply, OfApproval(i), user)] else []
  }

  /** Whether the decision is made: the approval is there, the caller may, and it is pending. */
  predicate Decidable(env: Env, g: Gov, i: nat, user: Option<string>, role: Option<string>) {
    && i < |g.approvals| && g.approvals[i].state == Pending && g.approvals[i].kind != OtherKind
    && (user.None? || user != g.approvals[i].proposedBy) && env.mayApprove(role, g.approvals[i].kind)
  }

  /** The log rows of a call: who did what to which row, and whether a side effect was recorded. */
  function RowsOf(env: Env, g: Gov, c: ServiceCall): seq<LogRow> {
    match c
    case Create(_, user, _) => [LogRow(Trigger, OfJob(|g.jobs|), user)]
    case Cancel(i, user) =>
      if i < |g.jobs| && !Over(g.jobs[i].status) then [LogRow(CancelJob, OfJob(i), user)] else []
    case Advance(i, _, _) =>
      if i < |g.jobs| && !Over(g.jobs[i].status) then
        (if g.jobs[i].status == Shadow then [LogRow(Propose, OfApproval(|g.approvals|), g.jobs[i].requestedBy)] else [])
        + [LogRow(Progress, OfJob(i), None)]
      else []
    case ProposeNew(_, _, _, _, user) => [LogRow(Propose, OfApproval(|g.approvals|), user)]
    case ApproveIt(i, user, role) =>
      if Decidable(env, g, i, user, role) then
        var a := g.approvals[i];
        DecisionRows(Approve, i, user, !(a.kind == ParamTuning && !Tuning.Hashable(a.summary.tuning.param)))
      else []
    case RejectIt(i, user, role) =>
      if Decidable(env, g, i, user, role) then DecisionRows(Reject, i, user, false) else []
    case WithdrawIt(i, user, role) =>
      if i < |g.approvals| && user.Some? && user == g.approvals[i].proposedBy && g.approvals[i].state == Pending then
        DecisionRows(Withdraw, i, user, false)
      else []
  }

  /** Every call appends exactly those rows, and a call that appends none changes nothing. */
  lemma LogsExactly(env: Env, g: Gov, c: ServiceCall)
    ensures Step(env, g, c).log == g.log + RowsOf(env, g, c)
    ensures RowsOf(env, g, c) == [] ==> Step(env, g, c) == g
  {
    match c
    case Advance(i, hash, at) => if i < |g.jobs| { AdvanceLogs(env, g, i, hash, at); }
    case ApproveIt(i, user, role) => ApproveLogs(env, g, i, user, role);
    case _ => hide Advancing, Effecting;
  }

  lemma AdvanceLogs(env: Env, g: Gov, i: nat, hash: string, at: string)
    requires i < |g.jobs|
    ensures Advancing(env, g, i, hash, at).log == g.log + RowsOf(env, g, Advance(i, hash, at))
    ensures RowsOf(env, g, Advance(i, hash, at)) == [] ==> Advancing(env, g, i, hash, at) == g
  {
    hide ShadowRow, CurrentVersion;
    if g.jobs[i].status.Shadow? {
      PassShape(env, g, i, hash, at);
      Associate(g.log, [LogRow(Propose, OfApproval(|g.approvals|), g.jobs[i].requestedBy)],
                [LogRow(Progress, OfJob(i), None)]);
      hide Advancing;
    }
  }

  lemma ApproveLogs(env: Env, g: Gov, i: nat, user: Option<string>, role: Option<string>)
    ensures var n := Approving(env, g, i, user, role).0;
            n.log == g.log + RowsOf(env, g, ApproveIt(i, user, role))
    ensures RowsOf(env, g, ApproveIt(i, user, role)) == [] ==> Approving(env, g, i, user, role).0 == g
  {
    hide CanPromote, PromoteRows, FindVersion;
    if i < |g.approvals| {
      var a := g.approvals[i];
      RaisesIff(a);
      if Decidable(env, g, i, user, role) {
        var d := Deciding(g, i, Approve, user, role);
        SameChecks(a, d.approvals[i]);
        var row, more := LogRow(Decide(Approve), OfApproval(i), user), LogRow(Apply, OfApproval(i), user);
        Associate(g.log, [row], [more]);
        assert [row] + [] == [row];
      }
    }
    hide ExecutorLoop.Checked;
  }
}
