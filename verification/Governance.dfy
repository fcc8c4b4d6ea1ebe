/**
 Training jobs, approvals and what an approval does, each service call taken as one
 atomic step: `app/domain/training.py`, `app/domain/approvals.py`,
 `app/services/training_service.py` and `app/services/approval_service.py`.

 The tables are sequences; a row's number is its id. Times are left out.
 */
module Governance {
  import opened Common
  import opened Json
  import opened Registry
  import RegistryRuns
  import Tuning
  import ExecutorLoop

  // ---------------------------------------------------------------- state machines

  datatype JobStatus = Queued | Running | Evaluating | Shadow | Passed | Failed | Cancelled

  predicate JobTerminal(s: JobStatus) {
    s.Passed? || s.Failed? || s.Cancelled?
  }

  predicate JobLegal(from: JobStatus, to: JobStatus) {
    match from
    case Queued => to.Running? || to.Cancelled?
    case Running => to.Evaluating? || to.Cancelled?
    case Evaluating => to.Shadow? || to.Failed? || to.Cancelled?
    case Shadow => to.Passed? || to.Failed? || to.Cancelled?
    case _ => false
  }

  /** The next state of the happy path; a terminal or failed job has none. */
  function NextHappy(s: JobStatus): (r: Option<JobStatus>)
    ensures r.Some? ==> JobLegal(s, r.value)
    ensures r.None? <==> JobTerminal(s)
  {
    match s
    case Queued => Some(Running)
    case Running => Some(Evaluating)
    case Evaluating => Some(Shadow)
    case Shadow => Some(Passed)
    case _ => None
  }

  function ProgressPct(s: JobStatus): nat {
    match s
    case Queued => 0
    case Running => 40
    case Evaluating => 70
    case Shadow => 90
    case _ => 100
  }

  datatype ApprovalState = Pending | Approved | Rejected | Withdrawn

  datatype Decision = Approve | Reject | Withdraw

  function NextState(s: ApprovalState, d: Decision): Option<ApprovalState> {
    if !s.Pending? then None
    else Some(match d case Approve => Approved case Reject => Rejected case Withdraw => Withdrawn)
  }

  // ---------------------------------------------------------------- tables

  datatype Kind = ModelPromotion | ParamTuning | ScenarioActivation | OtherKind

  datatype Job = Job(
    scenario: string, status: JobStatus, progress: nat, requestedBy: Option<string>, requestedRole: Option<string>,
    version: Option<string>, approval: Option<nat>)

  /** The fields of a summary that are read back: a promotion's versions, a tuning's values. */
  datatype Summary = Summary(current: Value, to: Option<string>, tuning: ExecutorLoop.Summary)

  /** `fromJob` is the job named in the reason of an approval a job proposed for itself. */
  datatype Approval = Approval(
    kind: Kind, scenario: Option<string>, device: Option<string>, summary: Summary, proposedBy: Option<string>,
    fromJob: Option<nat>, state: ApprovalState, decidedBy: Option<string>, decidedRole: Option<string>,
    sideEffect: Option<string>)

  datatype Subject = OfJob(job: nat) | OfApproval(approval: nat)

  datatype Action = Trigger | CancelJob | Progress | Propose | Decide(d: Decision) | Apply

  datatype LogRow = LogRow(action: Action, on: Subject, who: Option<string>)

  datatype Alarm = Alarm(rule: string, severity: string, approval: nat)

  /**
   The tables, the rows of the registry file, and a record of whose candidate each
   row added to that file is.
   */
  datatype Gov = Gov(
    jobs: seq<Job>, approvals: seq<Approval>, log: seq<LogRow>, alarms: seq<Alarm>,
    rows: Option<seq<Dict>>, candidates: seq<nat>)

  /** What is not part of the state: the scenario pattern and the permission table. */
  datatype Env = Env(wellFormed: string -> bool, mayApprove: (Option<string>, Kind) -> bool)

  const NO_TUNING := ExecutorLoop.Summary(Tuning.PyNone, Tuning.PyNone, Tuning.PyNone, Tuning.PyNone, None)

  /** The metrics of a candidate; the number is kept as its text. */
  const METRICS := Obj([Member("RMSE", Str("0.0172"))])

  function Logged(g: Gov, action: Action, on: Subject, who: Option<string>): Gov {
    g.(log := g.log + [LogRow(action, on, who)])
  }

  // ---------------------------------------------------------------- training jobs

  function Creating(g: Gov, scenario: string, user: Option<string>, role: Option<string>): Gov {
    Logged(g.(jobs := g.jobs + [Job(scenario, Queued, ProgressPct(Queued), user, role, None, None)]),
           Trigger, OfJob(|g.jobs|), user)
  }

  function WithJob(g: Gov, i: nat, job: Job): Gov
    requires i < |g.jobs|
  {
    g.(jobs := g.jobs[i := job])
  }

  function Cancelling(g: Gov, i: nat, user: Option<string>): Gov
    requires i < |g.jobs|
  {
    Logged(WithJob(g, i, g.jobs[i].(status := Cancelled, progress := ProgressPct(Cancelled))),
           CancelJob, OfJob(i), user)
  }

  function JobVersion(i: nat): string {
    "v1.0.4-job" + Digits(i)
  }

  function JobCandidate(scenario: string, i: nat, hash: string, at: string): Candidate {
    Candidate(scenario, JobVersion(i), "ml_reg", hash, METRICS, Str(at))
  }

  /** The candidate is registered, unless the registry refuses it. */
  function EnteringShadow(env: Env, g: Gov, i: nat, hash: string, at: string): Gov
    requires i < |g.jobs|
  {
    var job := g.jobs[i];
    var named := WithJob(g, i, job.(version := Some(JobVersion(i))));
    if env.wellFormed(job.scenario) && g.rows.Some? then
      named.(rows := Some(g.rows.value + [ShadowRow(JobCandidate(job.scenario, i, hash, at))]),
             candidates := g.candidates + [i])
    else named
  }

  /** The version of the first active row of the scenario, null if there is none. */
  function ActiveVersion(rows: seq<Dict>, scenario: string): Value {
    if rows == [] then Null
    else if IsActive(rows[0], scenario) then Get(rows[0], "version")
    else ActiveVersion(rows[1..], scenario)
  }

  function CurrentVersion(env: Env, rows: Option<seq<Dict>>, scenario: string): Value {
    if env.wellFormed(scenario) && rows.Some? then ActiveVersion(rows.value, scenario) else Null
  }

  function Proposing(g: Gov, a: Approval): Gov {
    Logged(g.(approvals := g.approvals + [a]), Propose, OfApproval(|g.approvals|), a.proposedBy)
  }

  /** An approval just proposed. */
  function Proposed(
    kind: Kind, summary: Summary, scenario: Option<string>, device: Option<string>, user: Option<string>,
    fromJob: Option<nat>): Approval
  {
    Approval(kind, scenario, device, summary, user, fromJob, Pending, None, None, None)
  }

  function JobApproval(env: Env, g: Gov, i: nat): Approval
    requires i < |g.jobs|
  {
    var job := g.jobs[i];
    Proposed(ModelPromotion, Summary(CurrentVersion(env, g.rows, job.scenario), job.version, NO_TUNING),
             Some(job.scenario), None, job.requestedBy, Some(i))
  }

  function Spawning(env: Env, g: Gov, i: nat): Gov
    requires i < |g.jobs|
  {
    WithJob(Proposing(g, JobApproval(env, g, i)), i, g.jobs[i].(approval := Some(|g.approvals|)))
  }

  /** One step along the happy path, with what entering the new state brings. */
  function Advancing(env: Env, g: Gov, i: nat, hash: string, at: string): Gov
    requires i < |g.jobs|
  {
    var next := NextHappy(g.jobs[i].status);
    if next.None? then g
    else
      var moved := WithJob(g, i, g.jobs[i].(status := next.value, progress := ProgressPct(next.value)));
      Logged(if next.value.Shadow? then EnteringShadow(env, moved, i, hash, at)
             else if next.value.Passed? then Spawning(env, moved, i)
             else moved, Progress, OfJob(i), None)
  }

  /** The jobs that are not terminal, in id order. */
  function ActiveIn(jobs: seq<Job>): (r: seq<nat>)
    ensures forall i: nat :: i in r <==> i < |jobs| && !JobTerminal(jobs[i].status)
    ensures forall k, l | 0 <= k < l < |r| :: r[k] < r[l]
  {
    if jobs == [] then []
    else
      var n := |jobs| - 1;
      var front := ActiveIn(jobs[..n]);
      assert forall k | 0 <= k < |front| :: front[k] in front;
      if JobTerminal(jobs[n].status) then front else front + [n]
  }

  const BATCH := 100

  /** The jobs one worker tick takes: the first hundred of them. */
  function Batch(jobs: seq<Job>): seq<nat> {
    var all := ActiveIn(jobs);
    if |all| <= BATCH then all else all[..BATCH]
  }

  lemma BatchInside(jobs: seq<Job>)
    ensures forall k | 0 <= k < |Batch(jobs)| :: Batch(jobs)[k] < |jobs|
  {
    assert forall k | 0 <= k < |Batch(jobs)| :: Batch(jobs)[k] in ActiveIn(jobs);
  }

  /** The listed jobs advanced one after the other; `hash` gives each its file hash, should it need one. */
  function Ticking(env: Env, g: Gov, list: seq<nat>, hash: nat -> string, at: string): Gov
    decreases |list|
  {
    if list == [] then g
    else
      var i := list[|list| - 1];
      var before := Ticking(env, g, list[..|list| - 1], hash, at);
      if i < |before.jobs| then Advancing(env, before, i, hash(i), at) else before
  }

  // ---------------------------------------------------------------- approvals

  datatype Outcome = Succeeded | NotFound | Forbidden | Conflict | Raised

  /** Same-person first, then the approve code of the type; a type without one is refused. */
  predicate CanDecide(env: Env, a: Approval, user: Option<string>, role: Option<string>) {
    && !(user.Some? && a.proposedBy == user)
    && !a.kind.OtherKind? && env.mayApprove(role, a.kind)
  }

  function WithApproval(g: Gov, i: nat, a: Approval): Gov
    requires i < |g.approvals|
  {
    g.(approvals := g.approvals[i := a])
  }

  function Deciding(g: Gov, i: nat, d: Decision, user: Option<string>, role: Option<string>): Gov
    requires i < |g.approvals| && g.approvals[i].state.Pending?
  {
    var decided := g.approvals[i].(state := NextState(Pending, d).value, decidedBy := user, decidedRole := role);
    Logged(WithApproval(g, i, decided),
           Decide(d), OfApproval(i), user)
  }

  function SettingEffect(g: Gov, i: nat, status: string): Gov
    requires i < |g.approvals|
  {
    Logged(WithApproval(g, i, g.approvals[i].(sideEffect := Some(status))), Apply, OfApproval(i),
           g.approvals[i].decidedBy)
  }

  function Alarmed(g: Gov, rule: string, severity: string, i: nat): Gov {
    g.(alarms := g.alarms + [Alarm(rule, severity, i)])
  }

  predicate Named(s: Option<string>) {
    s.Some? && s.value != ""
  }

  /** The promotion an approval asks for can be made. */
  predicate CanPromote(env: Env, g: Gov, a: Approval) {
    && Named(a.scenario) && Named(a.summary.to) && env.wellFormed(a.scenario.value)
    && g.rows.Some? && FindVersion(g.rows.value, a.scenario.value, a.summary.to.value).Some?
  }

  function Promoting(env: Env, g: Gov, i: nat): Gov
    requires i < |g.approvals|
  {
    var a := g.approvals[i];
    if CanPromote(env, g, a) then
      var t := FindVersion(g.rows.value, a.scenario.value, a.summary.to.value).value;
      SettingEffect(g.(rows := Some(PromoteRows(g.rows.value, a.scenario.value, t))), i, "applied")
    else Alarmed(SettingEffect(g, i, "apply_failed"), "model_promotion_apply_failed", "critical", i)
  }

  /** The approval as the executor will see it. */
  function AsTuning(a: Approval): ExecutorLoop.Approval {
    ExecutorLoop.Approval(a.device, a.summary.tuning, a.state.Approved?, a.sideEffect)
  }

  /** The five checks; the decision stands whatever they say, even when they raise. */
  function TuningEffect(g: Gov, i: nat): (Gov, Outcome)
    requires i < |g.approvals|
  {
    match ExecutorLoop.Checked(AsTuning(g.approvals[i]))
    case Passed => (SettingEffect(g, i, "applied"), Succeeded)
    case FailedAt(_) => (Alarmed(SettingEffect(g, i, "failed"), "param_tuning_check_failed", "warning", i), Succeeded)
    case TypeErrorRaised => (g, Raised)
  }

  function Effecting(env: Env, g: Gov, i: nat): (Gov, Outcome)
    requires i < |g.approvals|
  {
    match g.approvals[i].kind
    case ModelPromotion => (Promoting(env, g, i), Succeeded)
    case ParamTuning => TuningEffect(g, i)
    case ScenarioActivation => (SettingEffect(g, i, "shadow"), Succeeded)
    case OtherKind => (g, Succeeded)
  }

  function Approving(env: Env, g: Gov, i: nat, user: Option<string>, role: Option<string>): (Gov, Outcome) {
    if i >= |g.approvals| then (g, NotFound)
    else if !CanDecide(env, g.approvals[i], user, role) then (g, Forbidden)
    else if !g.approvals[i].state.Pending? then (g, Conflict)
    else Effecting(env, Deciding(g, i, Approve, user, role), i)
  }

  function Rejecting(env: Env, g: Gov, i: nat, user: Option<string>, role: Option<string>): (Gov, Outcome) {
    if i >= |g.approvals| then (g, NotFound)
    else if !CanDecide(env, g.approvals[i], user, role) then (g, Forbidden)
    else if !g.approvals[i].state.Pending? then (g, Conflict)
    else (Deciding(g, i, Reject, user, role), Succeeded)
  }

  function Withdrawing(g: Gov, i: nat, user: Option<string>, role: Option<string>): (Gov, Outcome) {
    if i >= |g.approvals| then (g, NotFound)
    else if user.None? || g.approvals[i].proposedBy != user then (g, Forbidden)
    else if !g.approvals[i].state.Pending? then (g, Conflict)
    else (Deciding(g, i, Withdraw, user, role), Succeeded)
  }

  // ---------------------------------------------------------------- the services

  /** One database session and the registry file, as the two services use them. */
  class Backend {
    const registry: ModelRegistryFile
    const mayApprove: (Option<string>, Kind) -> bool
    var jobs: seq<Job>
    var approvals: seq<Approval>
    var log: seq<LogRow>
    var alarms: seq<Alarm>
    ghost var candidates: seq<nat>

    constructor (registry: ModelRegistryFile, mayApprove: (Option<string>, Kind) -> bool)
      ensures this.registry == registry && this.mayApprove == mayApprove
      ensures jobs == [] && approvals == [] && log == [] && alarms == [] && candidates == []
    {
      this.registry, this.mayApprove := registry, mayApprove;
      jobs, approvals, log, alarms, candidates := [], [], [], [], [];
    }

    /** The registry file, if there is one, is readable. */
    ghost predicate Valid()
      reads this, registry
    {
      registry.models.Some? ==> ReadRows(registry.models.value).Some?
    }

    ghost function State(): Gov
      requires Valid()
      reads this, registry
    {
      Gov(jobs, approvals, log, alarms,
          if registry.models.Some? then ReadRows(registry.models.value) else None, candidates)
    }

    function Settings(): Env {
      Env(registry.wellFormed, mayApprove)
    }

    method Record(action: Action, on: Subject, who: Option<string>)
      requires Valid()
      modifies this`log
      ensures Valid() && State() == Logged(old(State()), action, on, who)
    {
      log := log + [LogRow(action, on, who)];
    }

    method Create(scenario: string, user: Option<string>, role: Option<string>) returns (i: nat)
      requires Valid()
      modifies this
      ensures Valid() && i == old(|jobs|) && State() == Creating(old(State()), scenario, user, role)
    {
      i := |jobs|;
      jobs := jobs + [Job(scenario, Queued, ProgressPct(Queued), user, role, None, None)];
      Record(Trigger, OfJob(i), user);
    }

    method Cancel(i: nat, user: Option<string>) returns (r: Outcome)
      requires Valid()
      modifies this
      ensures Valid()
      ensures r == if i >= old(|jobs|) then NotFound
                   else if JobTerminal(old(jobs)[i].status) then Conflict else Succeeded
      ensures State() == if r.Succeeded? then Cancelling(old(State()), i, user) else old(State())
    {
      if i >= |jobs| {
        return NotFound;
      }
      if !JobLegal(jobs[i].status, Cancelled) {
        return Conflict;
      }
      jobs := jobs[i := jobs[i].(status := Cancelled)];
      jobs := jobs[i := jobs[i].(progress := ProgressPct(Cancelled))];
      Record(CancelJob, OfJob(i), user);
      r := Succeeded;
    }

    /** One tick of the worker. */
    method AdvanceTrainingJobs(hash: nat -> string, at: string) returns (advanced: nat)
      requires Valid()
      modifies this, registry
      ensures Valid() && advanced == |Batch(old(jobs))|
      ensures State() == Ticking(Settings(), old(State()), Batch(old(jobs)), hash, at)
    {
      hide ReadRows, Advancing, Batch, ActiveIn;
      var list := Batch(jobs);
      BatchInside(jobs);
      advanced := 0;
      for k := 0 to |list|
        invariant Valid() && advanced == k && |jobs| == old(|jobs|)
        invariant State() == Ticking(Settings(), old(State()), list[..k], hash, at)
      {
        assert list[..k + 1][..k] == list[..k];
        Advance(list[k], hash(list[k]), at);
        advanced := advanced + 1;
      }
      assert list[..|list|] == list;
    }

    method Advance(i: nat, hash: string, at: string)
      requires Valid() && i < |jobs|
      modifies this, registry
      ensures Valid() && |jobs| == old(|jobs|)
      ensures State() == Advancing(Settings(), old(State()), i, hash, at)
    {
      hide EnteringShadow, Spawning, ReadRows;
      var next := NextHappy(jobs[i].status);
      if next.None? {
        return;
      }
      jobs := jobs[i := jobs[i].(status := next.value, progress := ProgressPct(next.value))];
      if next.value.Shadow? {
        EnterShadow(i, hash, at);
      } else if next.value.Passed? {
        SpawnPromotionApproval(i);
      }
      Record(Progress, OfJob(i), None);
    }

    method EnterShadow(i: nat, hash: string, at: string)
      requires Valid() && i < |jobs|
      modifies this, registry
      ensures Valid() && |jobs| == old(|jobs|) && State() == EnteringShadow(Settings(), old(State()), i, hash, at)
    {
      hide ReadRows, Render, ShadowRow;
      var version := JobVersion(i);
      jobs := jobs[i := jobs[i].(version := Some(version))];
      var c := Candidate(jobs[i].scenario, version, "ml_reg", hash, METRICS, Str(at));
      ghost var was := State().rows;
      var added := registry.AddShadow(c);
      if added.Ok? {
        RegistryRuns.RenderRead(was.value + [ShadowRow(c)]);
        candidates := candidates + [i];
      }
    }

    method ListActiveVersion(scenario: string) returns (v: Value)
      requires Valid()
      ensures v == CurrentVersion(Settings(), State().rows, scenario)
    {
      v := Null;
      if !registry.wellFormed(scenario) {
        return;
      }
      var read := registry.ReadAll();
      if read.Err? {
        return;
      }
      ghost var all := Values(read.value);
      assert all[0..] == all;
      for k := 0 to |read.value|
        invariant all == Values(read.value)
        invariant ActiveVersion(all, scenario) == ActiveVersion(all[k..], scenario)
      {
        assert all[k..][1..] == all[k + 1..];
        if IsActive(read.value[k].d, scenario) {
          return Get(read.value[k].d, "version");
        }
      }
    }

    method SpawnPromotionApproval(i: nat)
      requires Valid() && i < |jobs|
      modifies this
      ensures Valid() && |jobs| == old(|jobs|) && State() == Spawning(Settings(), old(State()), i)
    {
      hide ReadRows, CurrentVersion;
      var current := ListActiveVersion(jobs[i].scenario);
      var summary := Summary(current, jobs[i].version, NO_TUNING);
      var id := ProposeApproval(ModelPromotion, summary, Some(jobs[i].scenario), None, jobs[i].requestedBy, Some(i));
      jobs := jobs[i := jobs[i].(approval := Some(id))];
    }

    method ProposeApproval(
      kind: Kind, summary: Summary, scenario: Option<string>, device: Option<string>, user: Option<string>,
      fromJob: Option<nat>)
      returns (id: nat)
      requires Valid()
      modifies this
      ensures Valid() && id == old(|approvals|) && jobs == old(jobs)
      ensures State()
           == Proposing(old(State()), Proposed(kind, summary, scenario, device, user, fromJob))
    {
      id := |approvals|;
      approvals := approvals + [Proposed(kind, summary, scenario, device, user, fromJob)];
      Record(Propose, OfApproval(id), user);
    }

    method CheckCanDecide(a: Approval, user: Option<string>, role: Option<string>) returns (r: Outcome)
      ensures r == if CanDecide(Settings(), a, user, role) then Succeeded else Forbidden
    {
      if user.Some? && a.proposedBy == user {
        return Forbidden;
      }
      if a.kind.OtherKind? || !mayApprove(role, a.kind) {
        return Forbidden;
      }
      r := Succeeded;
    }

    method ApproveApproval(i: nat, user: Option<string>, role: Option<string>) returns (r: Outcome)
      requires Valid()
      modifies this, registry
      ensures Valid() && (State(), r) == Approving(Settings(), old(State()), i, user, role)
    {
      hide ReadRows, Promoting, TuningEffect, CanDecide;
      if i >= |approvals| {
        return NotFound;
      }
      var can := CheckCanDecide(approvals[i], user, role);
      if can.Forbidden? {
        return Forbidden;
      }
      var state := NextState(approvals[i].state, Approve);
      if state.None? {
        return Conflict;
      }
      approvals := approvals[i := approvals[i].(state := state.value, decidedBy := user, decidedRole := role)];
      Record(Decide(Approve), OfApproval(i), user);
      r := ApplySideEffect(i);
    }

    method RejectApproval(i: nat, user: Option<string>, role: Option<string>) returns (r: Outcome)
      requires Valid()
      modifies this
      ensures Valid() && (State(), r) == Rejecting(Settings(), old(State()), i, user, role)
    {
      hide ReadRows, CanDecide;
      if i >= |approvals| {
        return NotFound;
      }
      var can := CheckCanDecide(approvals[i], user, role);
      if can.Forbidden? {
        return Forbidden;
      }
      var state := NextState(approvals[i].state, Reject);
      if state.None? {
        return Conflict;
      }
      approvals := approvals[i := approvals[i].(state := state.value, decidedBy := user, decidedRole := role)];
      Record(Decide(Reject), OfApproval(i), user);
      r := Succeeded;
    }

    method WithdrawApproval(i: nat, user: Option<string>, role: Option<string>) returns (r: Outcome)
      requires Valid()
      modifies this
      ensures Valid() && (State(), r) == Withdrawing(old(State()), i, user, role)
    {
      hide ReadRows;
      if i >= |approvals| {
        return NotFound;
      }
      if user.None? || approvals[i].proposedBy != user {
        return Forbidden;
      }
      var state := NextState(approvals[i].state, Withdraw);
      if state.None? {
        return Conflict;
      }
      approvals := approvals[i := approvals[i].(state := state.value, decidedBy := user, decidedRole := role)];
      Record(Decide(Withdraw), OfApproval(i), user);
      r := Succeeded;
    }

    method ApplySideEffect(i: nat) returns (r: Outcome)
      requires Valid() && i < |approvals|
      modifies this, registry
      ensures Valid() && (State(), r) == Effecting(Settings(), old(State()), i)
    {
      hide ReadRows, Promoting, TuningEffect;
      r := Succeeded;
      match approvals[i].kind {
        case ModelPromotion => ApplyModelPromotion(i);
        case ParamTuning => r := ApplyParamTuning(i);
        case ScenarioActivation => SetSideEffect(i, "shadow");
        case OtherKind =>
      }
    }

    method SetSideEffect(i: nat, status: string)
      requires Valid() && i < |approvals|
      modifies this`approvals, this`log
      ensures Valid() && State() == SettingEffect(old(State()), i, status)
    {
      approvals := approvals[i := approvals[i].(sideEffect := Some(status))];
      Record(Apply, OfApproval(i), approvals[i].decidedBy);
    }

    method ApplyModelPromotion(i: nat)
      requires Valid() && i < |approvals|
      modifies this, registry
      ensures Valid() && State() == Promoting(Settings(), old(State()), i)
    {
      hide ReadRows, Render, PromoteRows, SettingEffect;
      var a := approvals[i];
      ghost var was := State().rows;
      if Named(a.scenario) && Named(a.summary.to) {
        var promoted := registry.Promote(a.scenario.value, a.summary.to.value);
        if promoted.Ok? {
          ghost var t := FindVersion(was.value, a.scenario.value, a.summary.to.value).value;
          RegistryRuns.RenderRead(PromoteRows(was.value, a.scenario.value, t));
          SetSideEffect(i, "applied");
          return;
        }
      }
      SetSideEffect(i, "apply_failed");
      alarms := alarms + [Alarm("model_promotion_apply_failed", "critical", i)];
    }

    method ApplyParamTuning(i: nat) returns (r: Outcome)
      requires Valid() && i < |approvals|
      modifies this
      ensures Valid() && (State(), r) == TuningEffect(old(State()), i)
    {
      hide ReadRows, ExecutorLoop.Checked;
      var result := ExecutorLoop.Checked(AsTuning(approvals[i]));
      if result.TypeErrorRaised? {
        return Raised;
      }
      if result.FailedAt? {
        SetSideEffect(i, "failed");
        alarms := alarms + [Alarm("param_tuning_check_failed", "warning", i)];
        return Succeeded;
      }
      SetSideEffect(i, "applied");
      r := Succeeded;
    }
  }
}
