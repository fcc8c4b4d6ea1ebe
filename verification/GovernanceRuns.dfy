/**
 From a training job to an active model, over any run of calls: one candidate and one
 approval a job, one decision an approval, and what an approval leaves behind.
 */
module GovernanceRuns {
  import opened Common
  import opened Json
  import opened Registry
  import opened RegistryRuns
  import opened Governance
  import Tuning
  import ExecutorLoop

  datatype ServiceCall =
    | Create(forScenario: string, user: Option<string>, role: Option<string>)
    | Advance(i: nat, hash: string, at: string)
    | Cancel(i: nat, user: Option<string>)
    | ProposeNew(kind: Kind, summary: Summary, scenario: Option<string>, device: Option<string>, user: Option<string>)
    | ApproveIt(i: nat, user: Option<string>, role: Option<string>)
    | RejectIt(i: nat, user: Option<string>, role: Option<string>)
    | WithdrawIt(i: nat, user: Option<string>, role: Option<string>)

  function Step(env: Env, g: Gov, c: ServiceCall): Gov {
    match c
    case Create(scenario, user, role) => Creating(g, scenario, user, role)
    case Advance(i, hash, at) => if i < |g.jobs| then Advancing(env, g, i, hash, at) else g
    case Cancel(i, user) => if i < |g.jobs| && !JobTerminal(g.jobs[i].status) then Cancelling(g, i, user) else g
    case ProposeNew(kind, summary, scenario, device, user) =>
      Proposing(g, Proposed(kind, summary, scenario, device, user, None))
    case ApproveIt(i, user, role) => Approving(env, g, i, user, role).0
    case RejectIt(i, user, role) => Rejecting(env, g, i, user, role).0
    case WithdrawIt(i, user, role) => Withdrawing(g, i, user, role).0
  }

  function Start(rows: Option<seq<Dict>>): Gov {
    Gov([], [], [], [], rows, [])
  }

  function Run(env: Env, rows: Option<seq<Dict>>, calls: seq<ServiceCall>): Gov
    decreases |calls|
  {
    if calls == [] then Start(rows)
    else Step(env, Run(env, rows, calls[..|calls| - 1]), calls[|calls| - 1])
  }

  // ---------------------------------------------------------------- the invariant

  predicate BeforeShadow(s: JobStatus) {
    s.Queued? || s.Running? || s.Evaluating?
  }

  /** Approval `a` is the one job `i` proposed: the job's own version, for the job's own scenario and engineer. */
  predicate Spawned(g: Gov, i: nat, a: nat) {
    && i < |g.jobs| && a < |g.approvals|
    && g.approvals[a].fromJob == Some(i) && g.approvals[a].kind.ModelPromotion?
    && g.approvals[a].scenario == Some(g.jobs[i].scenario) && g.approvals[a].summary.to == g.jobs[i].version
    && g.approvals[a].proposedBy == g.jobs[i].requestedBy
  }

  predicate JobOk(g: Gov, i: nat)
    requires i < |g.jobs|
  {
    var j := g.jobs[i];
    && (j.status.Passed? <==> j.approval.Some?)
    && (j.version.Some? ==> j.version.value == JobVersion(i) && !BeforeShadow(j.status))
    && (j.status.Shadow? || j.status.Passed? ==> j.version.Some?)
    && (j.approval.Some? ==> Spawned(g, i, j.approval.value))
  }

  ghost predicate JobsOk(g: Gov) {
    forall i: nat | i < |g.jobs| :: JobOk(g, i)
  }

  predicate LinkOk(g: Gov, a: nat)
    requires a < |g.approvals|
  {
    g.approvals[a].fromJob.Some? ==>
      var i := g.approvals[a].fromJob.value; i < |g.jobs| && g.jobs[i].approval == Some(a)
  }

  ghost predicate LinksOk(g: Gov) {
    forall a: nat | a < |g.approvals| :: LinkOk(g, a)
  }

  function Decisions(log: seq<LogRow>, a: nat): nat {
    if log == [] then 0
    else
      var last := log[|log| - 1];
      Decisions(log[..|log| - 1], a) + if last.action.Decide? && last.on == OfApproval(a) then 1 else 0
  }

  ghost predicate DecisionsOk(g: Gov) {
    forall a: nat :: Decisions(g.log, a) == if a < |g.approvals| && !g.approvals[a].state.Pending? then 1 else 0
  }

  /** A tuning whose parameter name cannot be looked up: the checks raise. */
  predicate Unhashable(a: Approval) {
    a.kind.ParamTuning? && ExecutorLoop.Checked(AsTuning(a)).TypeErrorRaised?
  }

  /**
   Nobody decides what they proposed, and only the proposer withdraws. A side effect
   is recorded exactly for what was approved, save for a tuning whose checks raise.
   */
  predicate ApprovalOk(a: Approval) {
    && (a.state.Approved? || a.state.Rejected? ==> a.decidedBy.Some? ==> a.decidedBy != a.proposedBy)
    && (a.state.Withdrawn? ==> a.decidedBy.Some? && a.decidedBy == a.proposedBy)
    && (a.sideEffect.Some? <==> a.state.Approved? && !Unhashable(a))
  }

  ghost predicate ApprovalsOk(g: Gov) {
    forall a <- g.approvals :: ApprovalOk(a)
  }

  /** Row `n` of the registry is the candidate of job `i`, whatever its status has become. */
  predicate CandidateRow(env: Env, g: Gov, n: nat, i: nat) {
    && i < |g.jobs| && g.jobs[i].version.Some? && env.wellFormed(g.jobs[i].scenario)
    && g.rows.Some? && n < |g.rows.value| && Matches(g.rows.value[n], g.jobs[i].scenario, JobVersion(i))
  }

  ghost predicate RegistryOk(env: Env, was: Option<seq<Dict>>, g: Gov) {
    && (g.rows.Some? <==> was.Some?)
    && (g.rows.None? ==> g.candidates == [])
    && (g.rows.Some? ==> |g.rows.value| == |was.value| + |g.candidates|)
    && (forall k: nat | k < |g.candidates| :: CandidateRow(env, g, |was.value| + k, g.candidates[k]))
    && forall k: nat, l: nat | k < l < |g.candidates| :: g.candidates[k] != g.candidates[l]
  }

  ghost predicate Inv(env: Env, was: Option<seq<Dict>>, g: Gov) {
    JobsOk(g) && LinksOk(g) && DecisionsOk(g) && ApprovalsOk(g) && RegistryOk(env, was, g)
  }

  // ---------------------------------------------------------------- decisions

  /** What approving records as the side effect. */
  function EffectOf(env: Env, g: Gov, a: Approval): Option<string> {
    match a.kind
    case ModelPromotion => Some(if CanPromote(env, g, a) then "applied" else "apply_failed")
    case ParamTuning =>
      (match ExecutorLoop.Checked(AsTuning(a))
       case Passed => Some("applied")
       case FailedAt(_) => Some("failed")
       case TypeErrorRaised => None)
    case ScenarioActivation => Some("shadow")
    case OtherKind => None
  }

  /** The approval once approved, its side effect recorded. */
  function ApprovedAs(env: Env, g: Gov, a: Approval, user: Option<string>, role: Option<string>): Approval {
    a.(state := Approved, decidedBy := user, decidedRole := role, sideEffect := EffectOf(env, g, a))
  }

  /** The registry rows once approval `a` has been approved. */
  function RowsAfter(env: Env, g: Gov, a: Approval): Option<seq<Dict>> {
    if a.kind.ModelPromotion? && CanPromote(env, g, a) then
      Some(PromoteRows(g.rows.value, a.scenario.value,
                       FindVersion(g.rows.value, a.scenario.value, a.summary.to.value).value))
    else g.rows
  }

  predicate MayDecide(env: Env, g: Gov, i: nat, user: Option<string>, role: Option<string>) {
    i < |g.approvals| && CanDecide(env, g.approvals[i], user, role) && g.approvals[i].state.Pending?
  }

  lemma DecisionsSnoc(log: seq<LogRow>, row: LogRow, a: nat)
    ensures Decisions(log + [row], a)
         == Decisions(log, a) + if row.action.Decide? && row.on == OfApproval(a) then 1 else 0
  {
    assert (log + [row])[..|log|] == log;
  }

  /** Everything an approval does, in one line each. */
  lemma ApproveShape(env: Env, g: Gov, i: nat, user: Option<string>, role: Option<string>)
    requires MayDecide(env, g, i, user, role) && ApprovalOk(g.approvals[i])
    ensures var a := g.approvals[i];
            var (n, r) := Approving(env, g, i, user, role);
            && n.jobs == g.jobs && n.candidates == g.candidates
            && n.approvals
               == g.approvals[i := ApprovedAs(env, g, a, user, role)]
            && n.rows == RowsAfter(env, g, a)
            && n.alarms == (if EffectOf(env, g, a) == Some("apply_failed") then
                              g.alarms + [Alarm("model_promotion_apply_failed", "critical", i)]
                            else if EffectOf(env, g, a) == Some("failed") then
                              g.alarms + [Alarm("param_tuning_check_failed", "warning", i)]
                            else g.alarms)
            && (r.Raised? <==> Unhashable(a)) && (r.Raised? || r.Succeeded?)
  {
    var a := g.approvals[i];
    var d := Deciding(g, i, Approve, user, role);
    assert d.approvals[i] == a.(state := Approved, decidedBy := user, decidedRole := role);
    SameChecks(a, d.approvals[i]);
    hide ExecutorLoop.Checked, PromoteRows, FindVersion;
  }

  lemma ApproveLog(env: Env, g: Gov, i: nat, user: Option<string>, role: Option<string>)
    requires MayDecide(env, g, i, user, role)
    ensures forall b: nat :: Decisions(Approving(env, g, i, user, role).0.log, b)
                          == Decisions(g.log, b) + if b == i then 1 else 0
  {
    var row := LogRow(Decide(Approve), OfApproval(i), user);
    var more := LogRow(Apply, OfApproval(i), user);
    forall b: nat
      ensures Decisions(g.log + [row], b) == Decisions(g.log, b) + if b == i then 1 else 0
      ensures Decisions(g.log + [row] + [more], b) == Decisions(g.log, b) + if b == i then 1 else 0
    {
      DecisionsSnoc(g.log, row, b);
      DecisionsSnoc(g.log + [row], more, b);
    }
    ApproveLogShape(env, g, i, user, role);
    hide Approving;
  }

  lemma ApproveLogShape(env: Env, g: Gov, i: nat, user: Option<string>, role: Option<string>)
    requires MayDecide(env, g, i, user, role)
    ensures var log := Approving(env, g, i, user, role).0.log;
            var decided := g.log + [LogRow(Decide(Approve), OfApproval(i), user)];
            log == decided || log == decided + [LogRow(Apply, OfApproval(i), user)]
  {
    hide ExecutorLoop.Checked, PromoteRows, FindVersion, CanPromote;
  }

  /** The fields of an approval that no decision touches. */
  predicate SameRequest(a: Approval, b: Approval) {
    a.fromJob == b.fromJob && a.kind == b.kind && a.scenario == b.scenario && a.summary == b.summary
    && a.proposedBy == b.proposedBy
  }

  ghost predicate SameRequests(g: Gov, n: Gov) {
    && n.jobs == g.jobs && n.candidates == g.candidates && |n.approvals| == |g.approvals|
    && forall a: nat | a < |g.approvals| :: SameRequest(g.approvals[a], n.approvals[a])
  }

  lemma RequestsKeep(g: Gov, n: Gov)
    requires JobsOk(g) && LinksOk(g) && SameRequests(g, n)
    ensures JobsOk(n) && LinksOk(n)
  {
    forall i: nat | i < |n.jobs| ensures JobOk(n, i) { assert JobOk(g, i); }
    forall a: nat | a < |n.approvals| ensures LinkOk(n, a) {
      assert LinkOk(g, a) && SameRequest(g.approvals[a], n.approvals[a]);
    }
  }

  /** A promotion keeps every candidate's row. */
  lemma PromotionKeepsRows(env: Env, was: Option<seq<Dict>>, g: Gov, n: Gov, scenario: string, t: nat)
    requires RegistryOk(env, was, g) && g.rows.Some? && n.jobs == g.jobs && n.candidates == g.candidates
    requires n.rows == Some(PromoteRows(g.rows.value, scenario, t))
    ensures RegistryOk(env, was, n)
  {
    hide Get, PromotedRow;
    forall k: nat | k < |n.candidates| ensures CandidateRow(env, n, |was.value| + k, n.candidates[k]) {
      var r := |was.value| + k;
      assert CandidateRow(env, g, r, g.candidates[k]);
      PromotedGet(g.rows.value[r], scenario, r == t);
    }
  }

  lemma RowsAfterKeep(env: Env, was: Option<seq<Dict>>, g: Gov, n: Gov, a: Approval)
    requires RegistryOk(env, was, g) && n.jobs == g.jobs && n.candidates == g.candidates
    requires n.rows == RowsAfter(env, g, a)
    ensures RegistryOk(env, was, n)
  {
    if a.kind.ModelPromotion? && CanPromote(env, g, a) {
      PromotionKeepsRows(env, was, g, n, a.scenario.value,
                         FindVersion(g.rows.value, a.scenario.value, a.summary.to.value).value);
    } else {
      SameRegistry(env, was, g, n);
    }
  }

  lemma SameRegistry(env: Env, was: Option<seq<Dict>>, g: Gov, n: Gov)
    requires RegistryOk(env, was, g) && n.rows == g.rows && n.candidates == g.candidates
    requires |g.jobs| <= |n.jobs|
    requires forall i: nat | i < |g.jobs| && g.jobs[i].version.Some? ::
               n.jobs[i].scenario == g.jobs[i].scenario && n.jobs[i].version.Some?
    ensures RegistryOk(env, was, n)
  {
    forall k: nat | k < |n.candidates| ensures CandidateRow(env, n, |was.value| + k, n.candidates[k]) {
      assert CandidateRow(env, g, |was.value| + k, g.candidates[k]);
    }
  }

  /** One approval decided, once: the decision count and the table agree again. */
  lemma DecidedKeeps(g: Gov, n: Gov, i: nat, b: Approval)
    requires i < |g.approvals| && g.approvals[i].state.Pending? && !b.state.Pending?
    requires DecisionsOk(g) && ApprovalsOk(g) && ApprovalOk(b) && n.approvals == g.approvals[i := b]
    requires forall a: nat :: Decisions(n.log, a) == Decisions(g.log, a) + if a == i then 1 else 0
    ensures DecisionsOk(n) && ApprovalsOk(n)
  {
    hide ApprovalOk, Decisions;
  }

  lemma ApproveKeeps(env: Env, was: Option<seq<Dict>>, g: Gov, i: nat, user: Option<string>, role: Option<string>)
    requires Inv(env, was, g) && MayDecide(env, g, i, user, role)
    ensures Inv(env, was, Approving(env, g, i, user, role).0)
  {
    var a := g.approvals[i];
    assert ApprovalOk(a);
    var n := Approving(env, g, i, user, role).0;
    ApproveShape(env, g, i, user, role);
    ApproveLog(env, g, i, user, role);
    var b := ApprovedAs(env, g, a, user, role);
    ApprovedOk(env, g, a, user, role);
    hide Approving, JobsOk, LinksOk, DecisionsOk, ApprovalsOk, RegistryOk, ApprovalOk, EffectOf, RowsAfter;
    DecidedKeeps(g, n, i, b);
    RequestsKeep(g, n);
    RowsAfterKeep(env, was, g, n, a);
  }

  lemma ApprovedOk(env: Env, g: Gov, a: Approval, user: Option<string>, role: Option<string>)
    requires CanDecide(env, a, user, role) && a.state.Pending?
    ensures ApprovalOk(ApprovedAs(env, g, a, user, role))
  {
    hide ExecutorLoop.Checked, CanPromote;
    var b := ApprovedAs(env, g, a, user, role);
    SameChecks(a, b);
  }

  lemma SameChecks(a: Approval, b: Approval)
    requires a.device == b.device && a.summary == b.summary
    ensures ExecutorLoop.Checked(AsTuning(a)) == ExecutorLoop.Checked(AsTuning(b))
  {
  }

  /** Who may close an approval without approving it. */
  predicate MayClose(a: Approval, d: Decision, user: Option<string>) {
    && a.state.Pending? && !d.Approve?
    && (d.Reject? ==> !(user.Some? && a.proposedBy == user))
    && (d.Withdraw? ==> user.Some? && a.proposedBy == user)
  }

  function Closed(a: Approval, d: Decision, user: Option<string>, role: Option<string>): Approval {
    a.(state := if d.Reject? then Rejected else Withdrawn, decidedBy := user, decidedRole := role)
  }

  lemma ClosedOk(a: Approval, d: Decision, user: Option<string>, role: Option<string>)
    requires ApprovalOk(a) && MayClose(a, d, user)
    ensures ApprovalOk(Closed(a, d, user, role))
  {
    hide ExecutorLoop.Checked;
    SameChecks(a, Closed(a, d, user, role));
  }

  lemma ClosedShape(g: Gov, i: nat, d: Decision, user: Option<string>, role: Option<string>)
    requires i < |g.approvals| && MayClose(g.approvals[i], d, user)
    ensures var n := Deciding(g, i, d, user, role);
            && n.approvals == g.approvals[i := Closed(g.approvals[i], d, user, role)]
            && n.log == g.log + [LogRow(Decide(d), OfApproval(i), user)]
            && n.rows == g.rows && SameRequests(g, n)
  {
  }

  lemma DecideCounts(log: seq<LogRow>, i: nat, d: Decision, user: Option<string>)
    ensures forall c: nat :: Decisions(log + [LogRow(Decide(d), OfApproval(i), user)], c)
                          == Decisions(log, c) + if c == i then 1 else 0
  {
    hide Decisions;
    var row := LogRow(Decide(d), OfApproval(i), user);
    forall c: nat ensures Decisions(log + [row], c) == Decisions(log, c) + if c == i then 1 else 0 {
      DecisionsSnoc(log, row, c);
    }
  }

  /** A rejection or a withdrawal. */
  lemma ClosedKeeps(
    env: Env, was: Option<seq<Dict>>, g: Gov, i: nat, d: Decision, user: Option<string>, role: Option<string>)
    requires Inv(env, was, g) && i < |g.approvals| && MayClose(g.approvals[i], d, user)
    ensures Inv(env, was, Deciding(g, i, d, user, role))
  {
    hide ApprovalOk, MayClose, Closed, JobsOk, LinksOk, DecisionsOk, ApprovalsOk, RegistryOk, Decisions;
    ClosedState(g.approvals[i], d, user, role);
    var n := Deciding(g, i, d, user, role);
    PendingOk(env, was, g, i);
    ClosedOk(g.approvals[i], d, user, role);
    ClosedShape(g, i, d, user, role);
    DecideCounts(g.log, i, d, user);
    hide Deciding;
    DecidedKeeps(g, n, i, Closed(g.approvals[i], d, user, role));
    RequestsKeep(g, n);
    SameRequestsRegistry(env, was, g, n);
  }

  lemma ClosedState(a: Approval, d: Decision, user: Option<string>, role: Option<string>)
    requires MayClose(a, d, user)
    ensures a.state.Pending? && !Closed(a, d, user, role).state.Pending?
  {
  }

  lemma SameRequestsRegistry(env: Env, was: Option<seq<Dict>>, g: Gov, n: Gov)
    requires RegistryOk(env, was, g) && SameRequests(g, n) && n.rows == g.rows
    ensures RegistryOk(env, was, n)
  {
    hide RegistryOk;
    SameRegistry(env, was, g, n);
  }

  // ---------------------------------------------------------------- the other calls

  lemma OtherRow(g: Gov, row: LogRow)
    requires !row.action.Decide?
    ensures forall a: nat :: Decisions(g.log + [row], a) == Decisions(g.log, a)
  {
    forall a: nat ensures Decisions(g.log + [row], a) == Decisions(g.log, a) { DecisionsSnoc(g.log, row, a); }
  }

  /** A new approval, of nobody's job or of a job that has just passed. */
  lemma ProposeKeepsCounts(g: Gov, n: Gov, a: Approval)
    requires DecisionsOk(g) && ApprovalsOk(g) && n.approvals == g.approvals + [a]
    requires a.state.Pending? && a.decidedBy.None? && a.sideEffect.None?
    requires forall b: nat :: Decisions(n.log, b) == Decisions(g.log, b)
    ensures DecisionsOk(n) && ApprovalsOk(n)
  {
    hide Decisions, Unhashable;
  }

  lemma ProposeKeeps(env: Env, was: Option<seq<Dict>>, g: Gov, a: Approval)
    requires Inv(env, was, g) && a.fromJob.None?
    requires a.state.Pending? && a.decidedBy.None? && a.sideEffect.None?
    ensures Inv(env, was, Proposing(g, a))
  {
    var n := Proposing(g, a);
    OtherRow(g, LogRow(Propose, OfApproval(|g.approvals|), a.proposedBy));
    ProposeKeepsCounts(g, n, a);
    hide DecisionsOk, ApprovalsOk;
    forall i: nat | i < |n.jobs| ensures JobOk(n, i) { assert JobOk(g, i); }
    forall b: nat | b < |n.approvals| ensures LinkOk(n, b) {
      if b < |g.approvals| { assert LinkOk(g, b); }
    }
    hide RegistryOk;
    SameRegistry(env, was, g, n);
  }

  lemma CreateKeeps(
    env: Env, was: Option<seq<Dict>>, g: Gov, scenario: string, user: Option<string>, role: Option<string>)
    requires Inv(env, was, g)
    ensures Inv(env, was, Creating(g, scenario, user, role))
  {
    var n := Creating(g, scenario, user, role);
    OtherRow(g, LogRow(Trigger, OfJob(|g.jobs|), user));
    forall i: nat | i < |n.jobs| ensures JobOk(n, i) {
      if i < |g.jobs| { assert JobOk(g, i); }
    }
    forall b: nat | b < |n.approvals| ensures LinkOk(n, b) { assert LinkOk(g, b); }
    hide RegistryOk, Decisions;
    SameRegistry(env, was, g, n);
  }

  /** Job `i` moves on without proposing: its version is kept, or set to its own. */
  lemma MoveKeeps(g: Gov, n: Gov, i: nat, job: Job)
    requires i < |g.jobs| && JobsOk(g) && LinksOk(g)
    requires n.jobs == g.jobs[i := job] && n.approvals == g.approvals
    requires job.scenario == g.jobs[i].scenario && job.requestedBy == g.jobs[i].requestedBy
    requires g.jobs[i].approval.None? && job.approval.None? && !job.status.Passed?
    requires job.version.Some? ==> job.version.value == JobVersion(i) && !BeforeShadow(job.status)
    requires job.status.Shadow? ==> job.version.Some?
    ensures JobsOk(n) && LinksOk(n)
  {
    forall k: nat | k < |n.jobs| ensures JobOk(n, k) { assert JobOk(g, k); }
    forall b: nat | b < |n.approvals| ensures LinkOk(n, b) { assert LinkOk(g, b); }
  }

  lemma CountsKeep(g: Gov, n: Gov, row: LogRow)
    requires DecisionsOk(g) && ApprovalsOk(g) && n.approvals == g.approvals
    requires n.log == g.log + [row] && !row.action.Decide?
    ensures DecisionsOk(n) && ApprovalsOk(n)
  {
    OtherRow(g, row);
    hide Decisions, ApprovalOk;
  }

  lemma CancelKeeps(env: Env, was: Option<seq<Dict>>, g: Gov, i: nat, user: Option<string>)
    requires Inv(env, was, g) && i < |g.jobs| && !JobTerminal(g.jobs[i].status)
    ensures Inv(env, was, Cancelling(g, i, user))
  {
    var n := Cancelling(g, i, user);
    assert JobOk(g, i);
    hide JobsOk, LinksOk, DecisionsOk, ApprovalsOk, RegistryOk;
    MoveKeeps(g, n, i, n.jobs[i]);
    CountsKeep(g, n, LogRow(CancelJob, OfJob(i), user));
    SameRegistry(env, was, g, n);
  }

  /** Queued to running, running to evaluating. */
  lemma EarlyKeeps(env: Env, was: Option<seq<Dict>>, g: Gov, i: nat, hash: string, at: string)
    requires Inv(env, was, g) && i < |g.jobs| && (g.jobs[i].status.Queued? || g.jobs[i].status.Running?)
    ensures Inv(env, was, Advancing(env, g, i, hash, at))
  {
    var n := Advancing(env, g, i, hash, at);
    assert JobOk(g, i);
    hide JobsOk, LinksOk, DecisionsOk, ApprovalsOk, RegistryOk;
    MoveKeeps(g, n, i, n.jobs[i]);
    CountsKeep(g, n, LogRow(Progress, OfJob(i), None));
    SameRegistry(env, was, g, n);
  }

  /** A job enters shadow once: it had no version, so no row of the registry is its candidate yet. */
  lemma ShadowKeeps(env: Env, was: Option<seq<Dict>>, g: Gov, i: nat, hash: string, at: string)
    requires Inv(env, was, g) && i < |g.jobs| && g.jobs[i].status.Evaluating?
    ensures Inv(env, was, Advancing(env, g, i, hash, at))
  {
    var n := Advancing(env, g, i, hash, at);
    assert JobOk(g, i);
    hide JobsOk, LinksOk, DecisionsOk, ApprovalsOk, RegistryOk, ShadowRow, JobVersion;
    MoveKeeps(g, n, i, n.jobs[i]);
    CountsKeep(g, n, LogRow(Progress, OfJob(i), None));
    if env.wellFormed(g.jobs[i].scenario) && g.rows.Some? {
      CandidateAdded(env, was, g, n, i, hash, at);
    } else {
      SameRegistry(env, was, g, n);
    }
  }

  lemma ShadowRowMatches(scenario: string, i: nat, hash: string, at: string)
    ensures Matches(ShadowRow(JobCandidate(scenario, i, hash, at)), scenario, JobVersion(i))
  {
    var d := ShadowRow(JobCandidate(scenario, i, hash, at));
    GetMember(d, 0);
    GetMember(d, 1);
  }

  lemma CandidateAdded(env: Env, was: Option<seq<Dict>>, g: Gov, n: Gov, i: nat, hash: string, at: string)
    requires RegistryOk(env, was, g) && i < |g.jobs| && g.jobs[i].version.None?
    requires env.wellFormed(g.jobs[i].scenario) && g.rows.Some?
    requires |n.jobs| == |g.jobs| && n.candidates == g.candidates + [i]
    requires forall k: nat | k < |g.jobs| && k != i :: n.jobs[k] == g.jobs[k]
    requires n.jobs[i].scenario == g.jobs[i].scenario && n.jobs[i].version.Some?
    requires n.rows == Some(g.rows.value + [ShadowRow(JobCandidate(g.jobs[i].scenario, i, hash, at))])
    ensures RegistryOk(env, was, n)
  {
    ShadowRowMatches(g.jobs[i].scenario, i, hash, at);
    hide ShadowRow, JobVersion, Matches;
    forall k: nat | k < |n.candidates| ensures CandidateRow(env, n, |was.value| + k, n.candidates[k]) {
      if k < |g.candidates| { assert CandidateRow(env, g, |was.value| + k, g.candidates[k]); }
    }
    forall k: nat | k < |g.candidates| ensures g.candidates[k] != i {
      assert CandidateRow(env, g, |was.value| + k, g.candidates[k]);
    }
  }

  /** A job passes once, and proposes its promotion then. */
  lemma PassKeeps(env: Env, was: Option<seq<Dict>>, g: Gov, i: nat, hash: string, at: string)
    requires Inv(env, was, g) && i < |g.jobs| && g.jobs[i].status.Shadow?
    ensures Inv(env, was, Advancing(env, g, i, hash, at))
  {
    var n := Advancing(env, g, i, hash, at);
    assert JobOk(g, i);
    PassShape(env, g, i, hash, at);
    var a := n.approvals[|g.approvals|];
    hide Advancing;
    PassLog(env, g, i, hash, at);
    ProposeKeepsCounts(g, n, a);
    PassLinks(g, n, i);
    hide JobsOk, LinksOk, DecisionsOk, ApprovalsOk, RegistryOk;
    SameRegistry(env, was, g, n);
  }

  lemma PassShape(env: Env, g: Gov, i: nat, hash: string, at: string)
    requires i < |g.jobs| && g.jobs[i].status.Shadow?
    ensures var n := Advancing(env, g, i, hash, at);
            && n.jobs == g.jobs[i := g.jobs[i].(status := Passed, progress := 100, approval := Some(|g.approvals|))]
            && n.approvals == g.approvals + [JobApproval(env, g, i)]
            && n.rows == g.rows && n.candidates == g.candidates
            && n.log == g.log + [LogRow(Propose, OfApproval(|g.approvals|), g.jobs[i].requestedBy)]
                              + [LogRow(Progress, OfJob(i), None)]
  {
    hide CurrentVersion;
    var n := Advancing(env, g, i, hash, at);
    assert n.jobs == g.jobs[i := g.jobs[i].(status := Passed, progress := 100, approval := Some(|g.approvals|))];
  }

  lemma PassLog(env: Env, g: Gov, i: nat, hash: string, at: string)
    requires i < |g.jobs| && g.jobs[i].status.Shadow?
    ensures forall b: nat :: Decisions(Advancing(env, g, i, hash, at).log, b) == Decisions(g.log, b)
  {
    PassShape(env, g, i, hash, at);
    hide Advancing, Decisions;
    var first := LogRow(Propose, OfApproval(|g.approvals|), g.jobs[i].requestedBy);
    OtherRow(g, first);
    OtherRow(g.(log := g.log + [first]), LogRow(Progress, OfJob(i), None));
  }

  lemma PassLinks(g: Gov, n: Gov, i: nat)
    requires JobsOk(g) && LinksOk(g) && i < |g.jobs| && g.jobs[i].status.Shadow?
    requires n.jobs == g.jobs[i := g.jobs[i].(status := Passed, progress := 100, approval := Some(|g.approvals|))]
    requires |n.approvals| == |g.approvals| + 1 && n.approvals[..|g.approvals|] == g.approvals
    requires Spawned(n, i, |g.approvals|)
    ensures JobsOk(n) && LinksOk(n)
  {
    assert forall b: nat | b < |g.approvals| :: n.approvals[..|g.approvals|][b] == n.approvals[b];
    forall k: nat | k < |n.jobs| ensures JobOk(n, k) { assert JobOk(g, k) && JobOk(g, i); }
    forall b: nat | b < |n.approvals| ensures LinkOk(n, b) {
      if b < |g.approvals| { assert LinkOk(g, b) && JobOk(g, i); }
    }
  }

  lemma AdvanceKeeps(env: Env, was: Option<seq<Dict>>, g: Gov, i: nat, hash: string, at: string)
    requires Inv(env, was, g) && i < |g.jobs|
    ensures Inv(env, was, Advancing(env, g, i, hash, at))
  {
    match g.jobs[i].status
    case Queued => EarlyKeeps(env, was, g, i, hash, at);
    case Running => EarlyKeeps(env, was, g, i, hash, at);
    case Evaluating => ShadowKeeps(env, was, g, i, hash, at);
    case Shadow => PassKeeps(env, was, g, i, hash, at);
    case _ =>
  }

  // ---------------------------------------------------------------- every run

  lemma StepKeeps(env: Env, was: Option<seq<Dict>>, g: Gov, c: ServiceCall)
    requires Inv(env, was, g)
    ensures Inv(env, was, Step(env, g, c))
  {
    hide Inv, Advancing, Cancelling, Creating, Proposing, Deciding, Effecting;
    match c
    case Create(scenario, user, role) => CreateKeeps(env, was, g, scenario, user, role);
    case Advance(i, hash, at) => if i < |g.jobs| { AdvanceKeeps(env, was, g, i, hash, at); }
    case Cancel(i, user) =>
      if i < |g.jobs| && !JobTerminal(g.jobs[i].status) { CancelKeeps(env, was, g, i, user); }
    case ProposeNew(kind, summary, scenario, device, user) =>
      ProposeKeeps(env, was, g, Proposed(kind, summary, scenario, device, user, None));
    case ApproveIt(i, user, role) =>
      if MayDecide(env, g, i, user, role) { ApproveKeeps(env, was, g, i, user, role); }
    case RejectIt(i, user, role) =>
      if MayDecide(env, g, i, user, role) { ClosedKeeps(env, was, g, i, Reject, user, role); }
    case WithdrawIt(i, user, role) =>
      if i < |g.approvals| && user.Some? && g.approvals[i].proposedBy == user && g.approvals[i].state.Pending? {
        ClosedKeeps(env, was, g, i, Withdraw, user, role);
      }
  }

  lemma {:induction false} RunKeeps(env: Env, rows: Option<seq<Dict>>, calls: seq<ServiceCall>)
    ensures Inv(env, rows, Run(env, rows, calls))
    decreases |calls|
  {
    if calls != [] {
      RunKeeps(env, rows, calls[..|calls| - 1]);
      StepKeeps(env, rows, Run(env, rows, calls[..|calls| - 1]), calls[|calls| - 1]);
      hide Inv, Step;
    }
  }

  /** The rows of the file that hold a job's version in its scenario and were not there at the start. */
  predicate IsCandidateOf(g: Gov, was: seq<Dict>, n: nat, i: nat) {
    |was| <= n < |was| + |g.candidates| && g.candidates[n - |was|] == i
  }

  /**
   Each job adds at most one row to the registry: beyond the rows it started with, the
   file has exactly one row a candidate, holding the version and scenario of its job,
   and no two of them belong to one job.
   */
  lemma OneCandidateEach(env: Env, was: seq<Dict>, calls: seq<ServiceCall>, n: nat, i: nat)
    requires var g := Run(env, Some(was), calls); g.rows.Some? && |was| <= n < |g.rows.value|
    requires IsCandidateOf(Run(env, Some(was), calls), was, n, i)
    ensures var g := Run(env, Some(was), calls);
            && |g.rows.value| == |was| + |g.candidates|
            && CandidateRow(env, g, n, i)
            && forall m: nat | IsCandidateOf(g, was, m, i) :: m == n
  {
    var g := Run(env, Some(was), calls);
    RunKeeps(env, Some(was), calls);
    hide Run, JobsOk, LinksOk, DecisionsOk, ApprovalsOk, CandidateRow;
    assert CandidateRow(env, g, |was| + (n - |was|), g.candidates[n - |was|]);
  }

  /** A job has proposed an approval exactly when it has passed, and only one. */
  lemma OneApprovalEach(env: Env, rows: Option<seq<Dict>>, calls: seq<ServiceCall>, i: nat)
    requires i < |Run(env, rows, calls).jobs|
    ensures var g := Run(env, rows, calls);
            && (g.jobs[i].status.Passed? <==> exists a: nat :: Spawned(g, i, a))
            && (forall a: nat, b: nat | Spawned(g, i, a) && Spawned(g, i, b) :: a == b)
  {
    var g := Run(env, rows, calls);
    RunKeeps(env, rows, calls);
    hide Run, DecisionsOk, ApprovalsOk, RegistryOk;
    assert JobOk(g, i);
    forall a: nat | Spawned(g, i, a) ensures g.jobs[i].approval == Some(a) { assert LinkOk(g, a); }
    if g.jobs[i].status.Passed? { assert Spawned(g, i, g.jobs[i].approval.value); }
  }

  /** The log holds one decision for each approval no longer pending and none for the others. */
  lemma DecidedOnce(env: Env, rows: Option<seq<Dict>>, calls: seq<ServiceCall>, a: nat)
    requires a < |Run(env, rows, calls).approvals|
    ensures var g := Run(env, rows, calls);
            Decisions(g.log, a) == if g.approvals[a].state.Pending? then 0 else 1
  {
    RunKeeps(env, rows, calls);
  }

  /** What was decided is not changed by the next call. */
  lemma DecisionStands(env: Env, was: Option<seq<Dict>>, g: Gov, c: ServiceCall, a: nat)
    requires Inv(env, was, g) && a < |g.approvals| && !g.approvals[a].state.Pending?
    ensures a < |Step(env, g, c).approvals| && Step(env, g, c).approvals[a] == g.approvals[a]
  {
    hide Inv, ExecutorLoop.Checked, CanPromote, CurrentVersion, PromoteRows;
    if c.ApproveIt? && MayDecide(env, g, c.i, c.user, c.role) {
      assert Inv(env, was, g);
      PendingOk(env, was, g, c.i);
      ApproveShape(env, g, c.i, c.user, c.role);
      hide Approving;
    } else if c.Advance? && c.i < |g.jobs| {
      AdvanceAppends(env, g, c.i, c.hash, c.at);
    }
  }

  /** A decided approval is as it was after any further run of calls. */
  lemma {:induction false} DecidedForGood(
    env: Env, rows: Option<seq<Dict>>, calls: seq<ServiceCall>, more: seq<ServiceCall>, a: nat)
    requires var g := Run(env, rows, calls); a < |g.approvals| && !g.approvals[a].state.Pending?
    ensures var g, n := Run(env, rows, calls), Run(env, rows, calls + more);
            a < |n.approvals| && n.approvals[a] == g.approvals[a]
    decreases |more|
  {
    hide Inv, Step;
    if more == [] {
      assert calls + more == calls;
    } else {
      var k := |more| - 1;
      assert (calls + more)[..|calls + more| - 1] == calls + more[..k];
      DecidedForGood(env, rows, calls, more[..k], a);
      RunKeeps(env, rows, calls + more[..k]);
      DecisionStands(env, rows, Run(env, rows, calls + more[..k]), more[k], a);
    }
  }

  lemma PendingOk(env: Env, was: Option<seq<Dict>>, g: Gov, i: nat)
    requires Inv(env, was, g) && i < |g.approvals|
    ensures ApprovalOk(g.approvals[i])
  {
  }

  lemma AdvanceAppends(env: Env, g: Gov, i: nat, hash: string, at: string)
    requires i < |g.jobs|
    ensures g.approvals <= Advancing(env, g, i, hash, at).approvals
  {
    hide CurrentVersion;
  }

  /**
   Whoever decides an approval is not who proposed it, and for a job's approval not the
   engineer who asked for the job, whenever both names are known; only the proposer withdraws.
   */
  lemma DifferentPerson(env: Env, rows: Option<seq<Dict>>, calls: seq<ServiceCall>, a: nat)
    requires a < |Run(env, rows, calls).approvals|
    ensures var g := Run(env, rows, calls);
            var p := g.approvals[a];
            && (p.decidedBy.Some? && (p.state.Approved? || p.state.Rejected?) ==> p.decidedBy != p.proposedBy)
            && (p.state.Withdrawn? ==> p.decidedBy == p.proposedBy)
            && (p.fromJob.Some? ==> p.fromJob.value < |g.jobs|
                                    && p.proposedBy == g.jobs[p.fromJob.value].requestedBy)
  {
    var g := Run(env, rows, calls);
    RunKeeps(env, rows, calls);
    hide Run, DecisionsOk, RegistryOk;
    assert ApprovalOk(g.approvals[a]) && LinkOk(g, a);
    if g.approvals[a].fromJob.Some? { assert JobOk(g, g.approvals[a].fromJob.value); }
  }

  /** An approved approval lacks a recorded side effect exactly when the parameter name could not be looked up. */
  lemma ApprovedWithoutEffect(env: Env, rows: Option<seq<Dict>>, calls: seq<ServiceCall>, a: nat)
    requires a < |Run(env, rows, calls).approvals| && Run(env, rows, calls).approvals[a].state.Approved?
    ensures var p := Run(env, rows, calls).approvals[a];
            p.sideEffect.None? <==> p.kind.ParamTuning? && !Tuning.Hashable(p.summary.tuning.param)
  {
    RunKeeps(env, rows, calls);
    var p := Run(env, rows, calls).approvals[a];
    hide Run;
    assert ApprovalOk(p);
    RaisesIff(p);
  }

  const LIST_NAMED := Summary(
    Null, None, ExecutorLoop.Summary(Tuning.PyList([]), Tuning.PyNone, Tuning.PyNone, Tuning.PyNone, None))

  /** Two calls reach such an approval: a tuning proposed with a list as parameter name, and its approval. */
  lemma ReachesWithoutEffect(
    env: Env, rows: Option<seq<Dict>>, proposer: string, decider: string, role: Option<string>)
    requires proposer != decider && env.mayApprove(role, ParamTuning)
    ensures var calls := [ProposeNew(ParamTuning, LIST_NAMED, None, None, Some(proposer)),
                          ApproveIt(0, Some(decider), role)];
            var g := Run(env, rows, calls);
            && |g.approvals| == 1 && g.approvals[0].state.Approved? && g.approvals[0].sideEffect.None?
            && g.approvals[0].decidedBy == Some(decider) && Decisions(g.log, 0) == 1
  {
    var a := Proposed(ParamTuning, LIST_NAMED, None, None, Some(proposer), None);
    var calls := [ProposeNew(ParamTuning, LIST_NAMED, None, None, Some(proposer)),
                  ApproveIt(0, Some(decider), role)];
    RunTwo(env, rows, calls[0], calls[1]);
    assert calls == [calls[0], calls[1]];
    var g := Proposing(Start(rows), a);
    assert g.approvals == [a];
    RaisesIff(a);
    assert ApprovalOk(a);
    hide Run, ExecutorLoop.Checked;
    ApproveShape(env, g, 0, Some(decider), role);
    ApproveLog(env, g, 0, Some(decider), role);
    OtherRow(Start(rows), LogRow(Propose, OfApproval(0), Some(proposer)));
  }

  lemma RunTwo(env: Env, rows: Option<seq<Dict>>, first: ServiceCall, second: ServiceCall)
    ensures Run(env, rows, [first, second]) == Step(env, Step(env, Start(rows), first), second)
  {
    assert [first, second][..1] == [first] && [first][..0] == [];
    assert Run(env, rows, []) == Start(rows);
    hide Step;
    assert Run(env, rows, [first]) == Step(env, Start(rows), first);
  }

  lemma RaisesIff(a: Approval)
    ensures ExecutorLoop.Checked(AsTuning(a)).TypeErrorRaised? <==> !Tuning.Hashable(a.summary.tuning.param)
  {
  }

  /**
   Approving a promotion is recorded as applied exactly when its target can be made
   active, and only then changes the registry.
   */
  lemma PromotionOutcome(env: Env, was: Option<seq<Dict>>, g: Gov, a: nat, user: Option<string>, role: Option<string>)
    requires Inv(env, was, g) && MayDecide(env, g, a, user, role) && g.approvals[a].kind.ModelPromotion?
    ensures var (n, r) := Approving(env, g, a, user, role);
            && r.Succeeded? && n.approvals[a].state.Approved?
            && n.approvals[a].sideEffect
               == Some(if CanPromote(env, g, g.approvals[a]) then "applied" else "apply_failed")
            && (!CanPromote(env, g, g.approvals[a]) ==> n.rows == g.rows && |n.alarms| == |g.alarms| + 1)
  {
    PendingOk(env, was, g, a);
    ApproveShape(env, g, a, user, role);
    hide Approving, Inv, CanPromote;
  }

  /** After any run over an existing registry, the promotion a passed job proposed can be made. */
  lemma JobHasCandidate(env: Env, was: seq<Dict>, calls: seq<ServiceCall>, i: nat, a: nat)
    requires !env.wellFormed("")
    requires var g := Run(env, Some(was), calls); Spawned(g, i, a) && env.wellFormed(g.jobs[i].scenario)
    ensures var g := Run(env, Some(was), calls);
            && g.approvals[a].scenario == Some(g.jobs[i].scenario)
            && g.approvals[a].summary.to == Some(JobVersion(i))
            && g.rows.Some? && CanPromote(env, g, g.approvals[a])
            && FindVersion(g.rows.value, g.jobs[i].scenario, JobVersion(i)).Some?
  {
    var g := Run(env, Some(was), calls);
    RunKeeps(env, Some(was), calls);
    EveryShadowHasCandidate(env, Some(was), calls);
    hide Run, DecisionsOk, ApprovalsOk, Matches, FindVersion, JobVersion;
    assert JobOk(g, i) && LinkOk(g, a) && i in g.candidates;
    var k: nat :| k < |g.candidates| && g.candidates[k] == i;
    assert CandidateRow(env, g, |was| + k, g.candidates[k]);
    CandidateFound(env, g, |was| + k, i);
  }

  /**
   The end of the loop: after any run over an existing registry, whoever may approve the
   promotion a passed job proposed makes it succeed, and leaves the job's version as the
   only active one of its scenario, whatever was promoted in between.
   */
  lemma PromotionEndsActive(
    env: Env, was: seq<Dict>, calls: seq<ServiceCall>, i: nat, a: nat, user: Option<string>, role: Option<string>)
    requires !env.wellFormed("")
    requires var g := Run(env, Some(was), calls);
             Spawned(g, i, a) && env.wellFormed(g.jobs[i].scenario) && MayDecide(env, g, a, user, role)
    ensures var g := Run(env, Some(was), calls);
            var (n, r) := Approving(env, g, a, user, role);
            && r.Succeeded? && n.approvals[a].state.Approved? && n.approvals[a].sideEffect == Some("applied")
            && n.rows.Some?
            && ActiveVersionIs(n.rows.value, g.jobs[i].scenario, JobVersion(i))
  {
    var g := Run(env, Some(was), calls);
    RunKeeps(env, Some(was), calls);
    JobHasCandidate(env, was, calls, i, a);
    PendingOk(env, Some(was), g, a);
    hide Run, Inv, ApprovalOk, Matches, CanPromote, JobVersion;
    ApproveShape(env, g, a, user, role);
    hide Approving, FindVersion;
    PromoteActivates(g.rows.value, g.jobs[i].scenario, JobVersion(i));
    hide PromoteRows, OnlyActive;
  }

  /** With a registry file, every job that got as far as shadow has its candidate, if its scenario is well-formed. */
  ghost predicate AllCandidates(env: Env, g: Gov) {
    g.rows.Some? ==>
      forall i: nat | i < |g.jobs| && g.jobs[i].version.Some? && env.wellFormed(g.jobs[i].scenario) :: i in g.candidates
  }

  lemma AdvanceCandidates(env: Env, g: Gov, i: nat, hash: string, at: string)
    requires AllCandidates(env, g) && i < |g.jobs|
    ensures AllCandidates(env, Advancing(env, g, i, hash, at))
  {
    hide ShadowRow, JobVersion, CurrentVersion;
    var n := Advancing(env, g, i, hash, at);
    if g.jobs[i].status.Shadow? {
      PassShape(env, g, i, hash, at);
    } else if g.jobs[i].status.Evaluating? && env.wellFormed(g.jobs[i].scenario) && g.rows.Some? {
      assert n.candidates == g.candidates + [i];
    }
  }

  lemma StepCandidates(env: Env, was: Option<seq<Dict>>, g: Gov, c: ServiceCall)
    requires Inv(env, was, g) && AllCandidates(env, g)
    ensures AllCandidates(env, Step(env, g, c))
  {
    hide Inv, ExecutorLoop.Checked, CanPromote, PromoteRows;
    if c.ApproveIt? && MayDecide(env, g, c.i, c.user, c.role) {
      PendingOk(env, was, g, c.i);
      ApproveShape(env, g, c.i, c.user, c.role);
      RowsAfterKind(env, g, g.approvals[c.i]);
      hide Approving;
    } else if c.Advance? && c.i < |g.jobs| {
      AdvanceCandidates(env, g, c.i, c.hash, c.at);
      hide Advancing;
    }
  }

  lemma RowsAfterKind(env: Env, g: Gov, a: Approval)
    ensures RowsAfter(env, g, a).Some? <==> g.rows.Some?
  {
  }

  lemma {:induction false} EveryShadowHasCandidate(env: Env, rows: Option<seq<Dict>>, calls: seq<ServiceCall>)
    ensures AllCandidates(env, Run(env, rows, calls))
    decreases |calls|
  {
    if calls != [] {
      var before := Run(env, rows, calls[..|calls| - 1]);
      EveryShadowHasCandidate(env, rows, calls[..|calls| - 1]);
      RunKeeps(env, rows, calls[..|calls| - 1]);
      StepCandidates(env, rows, before, calls[|calls| - 1]);
      hide Inv, Step, AllCandidates;
    }
  }

  /** One row of the scenario is active, and it has this version. */
  ghost predicate ActiveVersionIs(rows: seq<Dict>, scenario: string, version: string) {
    exists t: nat | t < |rows| :: OnlyActive(rows, scenario, t) && Matches(rows[t], scenario, version)
  }

  lemma CandidateFound(env: Env, g: Gov, n: nat, i: nat)
    requires CandidateRow(env, g, n, i)
    ensures FindVersion(g.rows.value, g.jobs[i].scenario, JobVersion(i)).Some?
    ensures JobVersion(i) != ""
  {
    var r := FindVersion(g.rows.value, g.jobs[i].scenario, JobVersion(i));
    assert Matches(g.rows.value[n], g.jobs[i].scenario, JobVersion(i));
  }

  // ---------------------------------------------------------------- what status a promotion finds

  /** The approval asked for this version of the scenario, and it was promoted. */
  predicate AppliedFor(a: Approval, scenario: string, version: string) {
    && a.kind.ModelPromotion? && a.scenario == Some(scenario) && a.summary.to == Some(version)
    && a.sideEffect == Some("applied")
  }

  ghost predicate EverApplied(g: Gov, scenario: string, version: string) {
    exists a <- g.approvals :: AppliedFor(a, scenario, version)
  }

  /** What the first row of the version holds: nothing yet, a shadow, or what its promotion left. */
  ghost predicate FoundFits(g: Gov, scenario: string, version: string) {
    g.rows.Some? ==>
      var found := FoundStatus(g.rows.value, scenario, version);
      && (found.None? ==> !EverApplied(g, scenario, version))
      && (found.Some? ==> (found.value == SHADOW <==> !EverApplied(g, scenario, version)))
  }

  /** Neither the registry nor the applied promotions change. */
  ghost predicate SameApplied(g: Gov, n: Gov) {
    && n.rows == g.rows && |g.approvals| <= |n.approvals|
    && (forall a: nat | a < |g.approvals| :: SameEffect(g.approvals[a], n.approvals[a]))
    && forall a: nat | |g.approvals| <= a < |n.approvals| :: n.approvals[a].sideEffect.None?
  }

  predicate SameEffect(a: Approval, b: Approval) {
    a.kind == b.kind && a.scenario == b.scenario && a.summary == b.summary && a.sideEffect == b.sideEffect
  }

  lemma AppliedSame(g: Gov, n: Gov, scenario: string, version: string)
    requires |g.approvals| <= |n.approvals|
    requires forall a: nat | a < |g.approvals| :: SameEffect(g.approvals[a], n.approvals[a])
    requires forall a: nat | |g.approvals| <= a < |n.approvals| :: n.approvals[a].sideEffect.None?
    ensures EverApplied(n, scenario, version) <==> EverApplied(g, scenario, version)
  {
    if EverApplied(g, scenario, version) {
      var a: nat :| a < |g.approvals| && AppliedFor(g.approvals[a], scenario, version);
      assert SameEffect(g.approvals[a], n.approvals[a]);
      assert AppliedFor(n.approvals[a], scenario, version);
    }
    if EverApplied(n, scenario, version) {
      var a: nat :| a < |n.approvals| && AppliedFor(n.approvals[a], scenario, version);
      assert a < |g.approvals| && SameEffect(g.approvals[a], n.approvals[a]);
      assert AppliedFor(g.approvals[a], scenario, version);
    }
  }

  lemma AppliedOne(g: Gov, n: Gov, i: nat, b: Approval, scenario: string, version: string)
    requires i < |g.approvals| && g.approvals[i].sideEffect.None? && n.approvals == g.approvals[i := b]
    ensures EverApplied(n, scenario, version)
       <==> EverApplied(g, scenario, version) || AppliedFor(b, scenario, version)
  {
    if AppliedFor(b, scenario, version) { assert n.approvals[i] == b; }
    if EverApplied(g, scenario, version) {
      var a: nat :| a < |g.approvals| && AppliedFor(g.approvals[a], scenario, version);
      assert n.approvals[a] == g.approvals[a];
    }
  }

  lemma ApproveKeepsFound(
    env: Env, was: Option<seq<Dict>>, g: Gov, i: nat, user: Option<string>, role: Option<string>, scenario: string,
    version: string)
    requires Inv(env, was, g) && MayDecide(env, g, i, user, role) && FoundFits(g, scenario, version)
    ensures FoundFits(Approving(env, g, i, user, role).0, scenario, version)
  {
    var a := g.approvals[i];
    var n := Approving(env, g, i, user, role).0;
    PendingOk(env, was, g, i);
    PendingNoEffect(a);
    ApproveShape(env, g, i, user, role);
    var b := ApprovedAs(env, g, a, user, role);
    AppliedOne(g, n, i, b, scenario, version);
    hide Approving, Inv, ApprovalOk, EverApplied, FoundStatus, PromoteRows, ExecutorLoop.Checked;
    if a.kind.ModelPromotion? && CanPromote(env, g, a) {
      PromotedStatus(g.rows.value, a.scenario.value, a.summary.to.value, scenario, version);
      hide FindVersion;
    } else {
      hide CanPromote;
    }
  }

  lemma PendingNoEffect(a: Approval)
    requires ApprovalOk(a) && a.state.Pending?
    ensures a.sideEffect.None?
  {
    hide Unhashable;
  }

  lemma AdvanceKeepsFound(env: Env, g: Gov, i: nat, hash: string, at: string, scenario: string, version: string)
    requires i < |g.jobs| && FoundFits(g, scenario, version)
    ensures FoundFits(Advancing(env, g, i, hash, at), scenario, version)
  {
    hide ShadowRow, CurrentVersion, FoundStatus, EverApplied;
    var n := Advancing(env, g, i, hash, at);
    if g.jobs[i].status.Shadow? {
      PassShape(env, g, i, hash, at);
      hide Advancing;
      AppliedSame(g, n, scenario, version);
    } else {
      AppliedSame(g, n, scenario, version);
      if g.jobs[i].status.Evaluating? && env.wellFormed(g.jobs[i].scenario) && g.rows.Some? {
        AddedStatus(g.rows.value, JobCandidate(g.jobs[i].scenario, i, hash, at), scenario, version);
      }
    }
  }

  lemma SameKeepsFound(g: Gov, n: Gov, scenario: string, version: string)
    requires SameApplied(g, n) && FoundFits(g, scenario, version)
    ensures FoundFits(n, scenario, version)
  {
    AppliedSame(g, n, scenario, version);
    hide EverApplied, FoundStatus;
  }

  lemma StepKeepsFound(env: Env, was: Option<seq<Dict>>, g: Gov, c: ServiceCall, scenario: string, version: string)
    requires Inv(env, was, g) && FoundFits(g, scenario, version)
    ensures FoundFits(Step(env, g, c), scenario, version)
  {
    if c.ApproveIt? && MayDecide(env, g, c.i, c.user, c.role) {
      ApproveKeepsFound(env, was, g, c.i, c.user, c.role, scenario, version);
    } else if c.Advance? && c.i < |g.jobs| {
      AdvanceKeepsFound(env, g, c.i, c.hash, c.at, scenario, version);
    } else {
      StepSame(env, g, c);
      SameKeepsFound(g, Step(env, g, c), scenario, version);
    }
    hide Inv, Approving, Advancing, FoundFits;
  }

  lemma StepSame(env: Env, g: Gov, c: ServiceCall)
    requires !(c.ApproveIt? && MayDecide(env, g, c.i, c.user, c.role)) && !(c.Advance? && c.i < |g.jobs|)
    ensures SameApplied(g, Step(env, g, c))
  {
    hide Effecting;
  }

  /**
   Over any run from a registry file without the version: the row a promotion of it finds
   is a shadow exactly when no approval has been applied for that scenario and version.
   */
  lemma {:induction false} ShadowUntilApplied(
    env: Env, was: seq<Dict>, calls: seq<ServiceCall>, scenario: string, version: string)
    requires FindVersion(was, scenario, version).None?
    ensures FoundFits(Run(env, Some(was), calls), scenario, version)
    decreases |calls|
  {
    if calls != [] {
      var n := |calls| - 1;
      ShadowUntilApplied(env, was, calls[..n], scenario, version);
      RunKeeps(env, Some(was), calls[..n]);
      hide Inv, Step, FoundFits;
      StepKeepsFound(env, Some(was), Run(env, Some(was), calls[..n]), calls[n], scenario, version);
    }
  }

  /**
   For the promotion a passed job proposed, from a file without the job's version: the row
   it makes active is a shadow exactly when nobody had another approval applied for it.
   */
  lemma JobFindsShadow(env: Env, was: seq<Dict>, calls: seq<ServiceCall>, i: nat, a: nat)
    requires !env.wellFormed("")
    requires var g := Run(env, Some(was), calls);
             Spawned(g, i, a) && env.wellFormed(g.jobs[i].scenario)
             && FindVersion(was, g.jobs[i].scenario, JobVersion(i)).None?
    ensures var g := Run(env, Some(was), calls);
            var scenario := g.jobs[i].scenario;
            && g.rows.Some? && CanPromote(env, g, g.approvals[a])
            && FindVersion(g.rows.value, scenario, JobVersion(i)).Some?
            && (Get(g.rows.value[FindVersion(g.rows.value, scenario, JobVersion(i)).value], "status") == SHADOW
                <==> !EverApplied(g, scenario, JobVersion(i)))
  {
    var g := Run(env, Some(was), calls);
    JobHasCandidate(env, was, calls, i, a);
    ShadowUntilApplied(env, was, calls, g.jobs[i].scenario, JobVersion(i));
    hide Run, EverApplied, Matches;
  }

}
