/**
 Who may decide: exactly when a decision is made, what it leaves in the approval, and,
 over any run, that every decision was made by a call with the right to make it.
 */
module GovernanceRights {
  import opened Common
  import opened Json
  import opened Registry
  import opened Governance
  import opened GovernanceRuns
  import opened GovernanceTicks
  import ExecutorLoop

  /** Not the proposer, and in a role that may approve this type; a type of its own kind nobody may decide. */
  predicate HasRight(env: Env, a: Approval, user: Option<string>, role: Option<string>) {
    (user.None? || user != a.proposedBy) && a.kind != OtherKind && env.mayApprove(role, a.kind)
  }

  /** The answer of a decision: missing, forbidden and decided already, in that order. */
  predicate Refusal(g: Gov, i: nat, allowed: bool, r: Outcome) {
    if i >= |g.approvals| then r == NotFound
    else if !allowed then r == Forbidden
    else if g.approvals[i].state != Pending then r == Conflict
    else r == Succeeded || r == Raised
  }

  /** Approval `i` and no other is decided. */
  predicate OnlyDecides(g: Gov, n: Gov, i: nat, state: ApprovalState, user: Option<string>, role: Option<string>) {
    && i < |g.approvals| && |n.approvals| == |g.approvals|
    && n.approvals[i].state == state && n.approvals[i].decidedBy == user && n.approvals[i].decidedRole == role
    && (forall b: nat | b < |g.approvals| && b != i :: n.approvals[b] == g.approvals[b])
    && n.jobs == g.jobs
  }

  /**
   Approving and rejecting decide exactly when the approval is there, the caller has the
   right and it is pending; otherwise they answer why, and change nothing at all.
   */
  lemma DecidesExactly(env: Env, g: Gov, i: nat, user: Option<string>, role: Option<string>)
    ensures var allowed := i < |g.approvals| && HasRight(env, g.approvals[i], user, role);
            var (n, r) := Approving(env, g, i, user, role);
            && Refusal(g, i, allowed, r)
            && (if r == Succeeded || r == Raised then OnlyDecides(g, n, i, Approved, user, role) else n == g)
    ensures var allowed := i < |g.approvals| && HasRight(env, g.approvals[i], user, role);
            var (n, r) := Rejecting(env, g, i, user, role);
            && Refusal(g, i, allowed, r) && r != Raised
            && (if r == Succeeded then OnlyDecides(g, n, i, Rejected, user, role) else n == g)
  {
    if i < |g.approvals| && g.approvals[i].state.Pending? { EffectOnly(env, Deciding(g, i, Approve, user, role), i); }
    hide Effecting;
  }

  /** A side effect touches nothing of the approvals but its own field. */
  lemma EffectOnly(env: Env, g: Gov, i: nat)
    requires i < |g.approvals|
    ensures var (n, r) := Effecting(env, g, i);
            && (r == Succeeded || r == Raised) && n.jobs == g.jobs && |n.approvals| == |g.approvals|
            && n.approvals[i] == g.approvals[i].(sideEffect := n.approvals[i].sideEffect)
            && forall b: nat | b < |g.approvals| && b != i :: n.approvals[b] == g.approvals[b]
  {
    hide ExecutorLoop.Checked, CanPromote, PromoteRows, FindVersion;
  }

  /** Without the approve code of the type nothing is decided, whoever asks. */
  lemma NoCodeNoDecision(env: Env, g: Gov, i: nat, user: Option<string>, role: Option<string>)
    requires i < |g.approvals| && !env.mayApprove(role, g.approvals[i].kind)
    ensures Approving(env, g, i, user, role) == Rejecting(env, g, i, user, role) == (g, Forbidden)
  {
    DecidesExactly(env, g, i, user, role);
    hide Approving, Rejecting;
  }

  /** Withdrawing is for the named proposer alone. */
  lemma WithdrawsExactly(g: Gov, i: nat, user: Option<string>, role: Option<string>)
    ensures var allowed := i < |g.approvals| && user.Some? && user == g.approvals[i].proposedBy;
            var (n, r) := Withdrawing(g, i, user, role);
            && Refusal(g, i, allowed, r) && r != Raised
            && (if r == Succeeded then OnlyDecides(g, n, i, Withdrawn, user, role) else n == g)
  {
  }

  /** Whatever the approval's state, some call of the run put it there, and that call had the right to. */
  predicate Rightful(env: Env, a: Approval, i: nat, calls: seq<ServiceCall>) {
    match a.state
    case Pending => a.decidedBy.None? && a.decidedRole.None?
    case Approved => HasRight(env, a, a.decidedBy, a.decidedRole) && ApproveIt(i, a.decidedBy, a.decidedRole) in calls
    case Rejected => HasRight(env, a, a.decidedBy, a.decidedRole) && RejectIt(i, a.decidedBy, a.decidedRole) in calls
    case Withdrawn =>
      a.decidedBy.Some? && a.decidedBy == a.proposedBy && WithdrawIt(i, a.decidedBy, a.decidedRole) in calls
  }

  ghost predicate AllRightful(env: Env, g: Gov, calls: seq<ServiceCall>) {
    forall i: nat | i < |g.approvals| :: Rightful(env, g.approvals[i], i, calls)
  }

  lemma RightfulMore(env: Env, a: Approval, i: nat, calls: seq<ServiceCall>, c: ServiceCall)
    requires Rightful(env, a, i, calls)
    ensures Rightful(env, a, i, calls + [c])
  {
    hide HasRight;
  }

  /** The approvals of before stand, and new ones are pending and undecided. */
  ghost predicate OnlyProposes(g: Gov, n: Gov) {
    && |g.approvals| <= |n.approvals|
    && (forall a: nat | a < |g.approvals| :: n.approvals[a] == g.approvals[a])
    && forall a: nat | |g.approvals| <= a < |n.approvals| ::
         n.approvals[a].state.Pending? && n.approvals[a].decidedBy.None? && n.approvals[a].decidedRole.None?
  }

  lemma ProposesRightful(env: Env, g: Gov, n: Gov, calls: seq<ServiceCall>, c: ServiceCall)
    requires AllRightful(env, g, calls) && OnlyProposes(g, n)
    ensures AllRightful(env, n, calls + [c])
  {
    forall i: nat | i < |n.approvals| ensures Rightful(env, n.approvals[i], i, calls + [c]) {
      if i < |g.approvals| { RightfulMore(env, g.approvals[i], i, calls, c); }
    }
  }

  lemma DecidesRightful(
    env: Env, g: Gov, n: Gov, i: nat, state: ApprovalState, user: Option<string>, role: Option<string>,
    calls: seq<ServiceCall>, c: ServiceCall)
    requires AllRightful(env, g, calls) && OnlyDecides(g, n, i, state, user, role)
    requires Rightful(env, n.approvals[i], i, calls + [c])
    ensures AllRightful(env, n, calls + [c])
  {
    hide Rightful;
    forall b: nat | b < |n.approvals| && b != i ensures Rightful(env, n.approvals[b], b, calls + [c]) {
      RightfulMore(env, g.approvals[b], b, calls, c);
    }
  }

  lemma AdvanceProposes(env: Env, g: Gov, i: nat, hash: string, at: string)
    requires i < |g.jobs|
    ensures OnlyProposes(g, Advancing(env, g, i, hash, at))
  {
    if g.jobs[i].status.Shadow? {
      PassShape(env, g, i, hash, at);
      hide Advancing, CurrentVersion;
    } else {
      AdvanceSame(env, g, i, hash, at);
    }
  }

  lemma AdvanceSame(env: Env, g: Gov, i: nat, hash: string, at: string)
    requires i < |g.jobs| && !g.jobs[i].status.Shadow?
    ensures Advancing(env, g, i, hash, at).approvals == g.approvals
  {
  }

  /** Deciding an approval does not touch what it asks for or who proposed it. */
  lemma DecidedKind(env: Env, g: Gov, i: nat, user: Option<string>, role: Option<string>)
    requires i < |g.approvals|
    ensures var n := Approving(env, g, i, user, role).0;
            i < |n.approvals| && n.approvals[i].kind == g.approvals[i].kind
            && n.approvals[i].proposedBy == g.approvals[i].proposedBy
    ensures var n := Rejecting(env, g, i, user, role).0;
            i < |n.approvals| && n.approvals[i].kind == g.approvals[i].kind
            && n.approvals[i].proposedBy == g.approvals[i].proposedBy
    ensures var n := Withdrawing(g, i, user, role).0;
            i < |n.approvals| && n.approvals[i].proposedBy == g.approvals[i].proposedBy
  {
    if g.approvals[i].state.Pending? { EffectOnly(env, Deciding(g, i, Approve, user, role), i); }
    hide Effecting, CanDecide;
  }

  lemma StepRightful(env: Env, g: Gov, calls: seq<ServiceCall>, c: ServiceCall)
    requires AllRightful(env, g, calls)
    ensures AllRightful(env, Step(env, g, c), calls + [c])
  {
    hide AllRightful, Advancing, Approving, Rejecting, Withdrawing, Creating, Cancelling;
    assert c in calls + [c];
    match c
    case Advance(i, hash, at) =>
      if i < |g.jobs| { AdvanceProposes(env, g, i, hash, at); }
      ProposesRightful(env, g, Step(env, g, c), calls, c);
    case ApproveIt(i, user, role) =>
      DecidesExactly(env, g, i, user, role);
      var (n, r) := Approving(env, g, i, user, role);
      if r == Succeeded || r == Raised {
        DecidedKind(env, g, i, user, role);
        DecidesRightful(env, g, n, i, Approved, user, role, calls, c);
      } else {
        ProposesRightful(env, g, g, calls, c);
      }
    case RejectIt(i, user, role) =>
      DecidesExactly(env, g, i, user, role);
      var (n, r) := Rejecting(env, g, i, user, role);
      if r == Succeeded {
        DecidedKind(env, g, i, user, role);
        DecidesRightful(env, g, n, i, Rejected, user, role, calls, c);
      } else {
        ProposesRightful(env, g, g, calls, c);
      }
    case WithdrawIt(i, user, role) =>
      WithdrawsExactly(g, i, user, role);
      var (n, r) := Withdrawing(g, i, user, role);
      if r == Succeeded {
        DecidedKind(env, g, i, user, role);
        DecidesRightful(env, g, n, i, Withdrawn, user, role, calls, c);
      } else {
        ProposesRightful(env, g, g, calls, c);
      }
    case _ =>
      OthersPropose(env, g, c);
      ProposesRightful(env, g, Step(env, g, c), calls, c);
  }

  lemma OthersPropose(env: Env, g: Gov, c: ServiceCall)
    requires c.Create? || c.Cancel? || c.ProposeNew?
    ensures OnlyProposes(g, Step(env, g, c))
  {
  }

  /**
   After any run: an approved or rejected approval was decided by a call of that run whose
   role holds the approve code of its type and whose user is not its proposer, a withdrawn
   one by its proposer, and a pending one by nobody.
   */
  lemma {:induction false} DecidedByRight(env: Env, rows: Option<seq<Dict>>, calls: seq<ServiceCall>)
    ensures AllRightful(env, Run(env, rows, calls), calls)
    decreases |calls|
  {
    if calls != [] {
      var front, c := calls[..|calls| - 1], calls[|calls| - 1];
      assert front + [c] == calls;
      DecidedByRight(env, rows, front);
      hide AllRightful, Step;
      StepRightful(env, Run(env, rows, front), front, c);
    }
  }
}
