/**
 The whole loop: a job is requested, the worker ticks, somebody approves, and the
 job's model is the active one.
 */
module GovernanceTicks {
  import opened Common
  import opened Json
  import opened Registry
  import opened Governance
  import opened GovernanceRuns
  import ExecutorLoop

  /** One step of a job does not touch the others. */
  lemma AdvanceStatus(env: Env, g: Gov, i: nat, hash: string, at: string)
    requires i < |g.jobs|
    ensures var n := Advancing(env, g, i, hash, at);
            && |n.jobs| == |g.jobs|
            && n.jobs[i].status == Ahead(g.jobs[i].status, 1)
            && n.jobs[i].scenario == g.jobs[i].scenario && n.jobs[i].requestedBy == g.jobs[i].requestedBy
            && forall k: nat | k < |g.jobs| && k != i :: n.jobs[k] == g.jobs[k]
  {
    hide ShadowRow, CurrentVersion;
    assert Ahead(g.jobs[i].status, 0) == g.jobs[i].status;
  }

  /** The state `n` steps along the happy path, or the terminal state met before. */
  function Ahead(s: JobStatus, n: nat): JobStatus {
    if n == 0 then s
    else
      var before := Ahead(s, n - 1);
      if NextHappy(before).Some? then NextHappy(before).value else before
  }

  predicate SameRequester(a: Job, b: Job) {
    a.scenario == b.scenario && a.requestedBy == b.requestedBy
  }

  /** A tick moves exactly the listed jobs, one step each. */
  lemma {:induction false} TickMoves(env: Env, g: Gov, list: seq<nat>, hash: nat -> string, at: string)
    requires forall k, l | 0 <= k < l < |list| :: list[k] < list[l]
    requires forall i <- list :: i < |g.jobs|
    ensures var n := Ticking(env, g, list, hash, at);
            && |n.jobs| == |g.jobs|
            && forall i: nat | i < |g.jobs| ::
                 && n.jobs[i].status == Ahead(g.jobs[i].status, if i in list then 1 else 0)
                 && SameRequester(n.jobs[i], g.jobs[i])
    decreases |list|
  {
    if list != [] {
      var last := |list| - 1;
      assert list[last] in list && forall i <- list[..last] :: i in list;
      TickMoves(env, g, list[..last], hash, at);
      var before := Ticking(env, g, list[..last], hash, at);
      AdvanceStatus(env, before, list[last], hash(list[last]), at);
      assert list[last] !in list[..last];
      assert forall i: nat :: i in list <==> i in list[..last] || i == list[last];
      hide Advancing, Ahead;
      AheadZero(g.jobs[list[last]].status);
    }
  }

  lemma AheadZero(s: JobStatus)
    ensures Ahead(s, 0) == s
  {
  }

  function Tick(env: Env, g: Gov, hash: nat -> string, at: string): Gov {
    Ticking(env, g, Batch(g.jobs), hash, at)
  }

  /** Ticks on end, each with its own file hashes and time. */
  function Ticks(env: Env, g: Gov, n: nat, hash: (nat, nat) -> string, at: nat -> string): Gov {
    if n == 0 then g
    else Tick(env, Ticks(env, g, n - 1, hash, at), (i: nat) => hash(n - 1, i), at(n - 1))
  }

  lemma {:induction false} FewerActive(jobs: seq<Job>, later: seq<Job>)
    requires |jobs| == |later|
    requires forall i: nat | i < |jobs| && JobTerminal(jobs[i].status) :: JobTerminal(later[i].status)
    ensures |ActiveIn(later)| <= |ActiveIn(jobs)|
  {
    if jobs != [] { FewerActive(jobs[..|jobs| - 1], later[..|jobs| - 1]); }
  }

  /** Every job has moved `n` steps, as far as it can, and kept its scenario and engineer. */
  ghost predicate MovedBy(g: Gov, t: Gov, n: nat) {
    && |t.jobs| == |g.jobs|
    && forall i: nat | i < |g.jobs| ::
         t.jobs[i].status == Ahead(g.jobs[i].status, n) && SameRequester(t.jobs[i], g.jobs[i])
  }

  lemma MovedOn(g: Gov, b: Gov, t: Gov, n: nat)
    requires MovedBy(g, b, n) && MovedBy(b, t, 1)
    ensures MovedBy(g, t, n + 1)
  {
    hide Ahead;
    forall i: nat | i < |g.jobs|
      ensures t.jobs[i].status == Ahead(g.jobs[i].status, n + 1) && SameRequester(t.jobs[i], g.jobs[i])
    {
      AheadNext(g.jobs[i].status, n);
    }
  }

  lemma NotMoved(g: Gov)
    ensures MovedBy(g, g, 0)
  {
    forall i: nat | i < |g.jobs| ensures Ahead(g.jobs[i].status, 0) == g.jobs[i].status {}
  }

  /** With no more active jobs than a tick takes, a tick moves every job that can move. */
  lemma TickMovesAll(env: Env, g: Gov, hash: nat -> string, at: string)
    requires |ActiveIn(g.jobs)| <= BATCH
    ensures var t := Tick(env, g, hash, at);
            MovedBy(g, t, 1) && |ActiveIn(t.jobs)| <= |ActiveIn(g.jobs)|
  {
    var list := ActiveIn(g.jobs);
    TickMoves(env, g, list, hash, at);
    var t := Tick(env, g, hash, at);
    hide Ticking, Ahead, SameRequester, ActiveIn;
    forall i: nat | i < |g.jobs|
      ensures t.jobs[i].status == Ahead(g.jobs[i].status, 1)
      ensures JobTerminal(g.jobs[i].status) ==> JobTerminal(t.jobs[i].status)
    {
      TerminalStays(g.jobs[i].status);
    }
    FewerActive(g.jobs, t.jobs);
  }

  lemma TerminalStays(s: JobStatus)
    ensures Ahead(s, 0) == s
    ensures JobTerminal(s) ==> Ahead(s, 1) == s
  {
    assert Ahead(s, 1) == if NextHappy(Ahead(s, 0)).Some? then NextHappy(Ahead(s, 0)).value else Ahead(s, 0);
  }

  lemma AheadNext(s: JobStatus, n: nat)
    ensures Ahead(s, n + 1) == Ahead(Ahead(s, n), 1)
  {
    assert Ahead(Ahead(s, n), 0) == Ahead(s, n);
  }

  /** Then `n` ticks move every job `n` steps, as far as it can move. */
  lemma {:induction false} TicksMove(env: Env, g: Gov, n: nat, hash: (nat, nat) -> string, at: nat -> string)
    requires |ActiveIn(g.jobs)| <= BATCH
    ensures var t := Ticks(env, g, n, hash, at);
            MovedBy(g, t, n) && |ActiveIn(t.jobs)| <= BATCH
  {
    hide Tick, MovedBy, ActiveIn;
    if n == 0 {
      NotMoved(g);
    } else {
      var before := Ticks(env, g, n - 1, hash, at);
      TicksMove(env, g, n - 1, hash, at);
      TickMovesAll(env, before, (i: nat) => hash(n - 1, i), at(n - 1));
      MovedOn(g, before, Ticks(env, g, n, hash, at), n - 1);
    }
  }

  // ---------------------------------------------------------------- with any number of active jobs

  /** How many active jobs come before job `i`. */
  function Position(jobs: seq<Job>, i: nat): nat
    requires i <= |jobs|
  {
    |ActiveIn(jobs[..i])|
  }

  lemma PositionNext(jobs: seq<Job>, i: nat)
    requires i < |jobs|
    ensures Position(jobs, i + 1) == Position(jobs, i) + if JobTerminal(jobs[i].status) then 0 else 1
  {
    assert jobs[..i + 1][..i] == jobs[..i];
  }

  /** An active job stands in the list of active ones at its position. */
  ghost predicate StandsAt(jobs: seq<Job>, i: nat)
    requires i < |jobs|
  {
    && ActiveIn(jobs[..i]) <= ActiveIn(jobs)
    && (!JobTerminal(jobs[i].status) ==>
          Position(jobs, i) < |ActiveIn(jobs)| && ActiveIn(jobs)[Position(jobs, i)] == i)
  }

  lemma {:induction false} ActiveSplit(jobs: seq<Job>, i: nat)
    requires i < |jobs|
    ensures StandsAt(jobs, i)
    decreases |jobs|
  {
    hide StandsAt, ActiveIn;
    if i < |jobs| - 1 {
      ActiveSplit(jobs[..|jobs| - 1], i);
      StandsLonger(jobs, i);
    } else {
      StandsLast(jobs);
    }
  }

  lemma StandsLast(jobs: seq<Job>)
    requires jobs != []
    ensures StandsAt(jobs, |jobs| - 1)
  {
    ActiveNext(jobs);
    hide ActiveIn;
  }

  lemma StandsLonger(jobs: seq<Job>, i: nat)
    requires i < |jobs| - 1 && StandsAt(jobs[..|jobs| - 1], i)
    ensures StandsAt(jobs, i)
  {
    ActiveNext(jobs);
    assert jobs[..|jobs| - 1][..i] == jobs[..i];
    hide ActiveIn;
  }

  lemma ActiveNext(jobs: seq<Job>)
    requires jobs != []
    ensures var n := |jobs| - 1;
            ActiveIn(jobs) == ActiveIn(jobs[..n]) + if JobTerminal(jobs[n].status) then [] else [n]
  {
  }

  /** A tick takes an active job exactly when fewer than a hundred active ones come before it. */
  lemma InBatch(jobs: seq<Job>, i: nat)
    requires i < |jobs| && !JobTerminal(jobs[i].status)
    ensures i in Batch(jobs) <==> Position(jobs, i) < BATCH
  {
    ActiveSplit(jobs, i);
    var all, p := ActiveIn(jobs), Position(jobs, i);
    hide ActiveIn;
    if p < BATCH { assert Batch(jobs)[p] == i; }
    if i in Batch(jobs) {
      var k :| 0 <= k < |Batch(jobs)| && Batch(jobs)[k] == i;
      assert all[k] == i;
    }
  }

  /** A tick moves the first hundred active jobs one step and leaves the others. */
  lemma TickStatus(env: Env, g: Gov, hash: nat -> string, at: string, i: nat)
    requires i < |g.jobs|
    ensures var t := Tick(env, g, hash, at);
            && |t.jobs| == |g.jobs| && SameRequester(t.jobs[i], g.jobs[i])
            && t.jobs[i].status == Ahead(g.jobs[i].status, if Position(g.jobs, i) < BATCH then 1 else 0)
  {
    var list := Batch(g.jobs);
    assert forall k <- list :: k in ActiveIn(g.jobs);
    TickMoves(env, g, list, hash, at);
    TerminalStays(g.jobs[i].status);
    hide Ticking, Ahead, ActiveIn, Batch, Position;
    if JobTerminal(g.jobs[i].status) {
      NotInBatch(g.jobs, i);
    } else {
      InBatch(g.jobs, i);
    }
  }

  lemma NotInBatch(jobs: seq<Job>, i: nat)
    requires i < |jobs| && JobTerminal(jobs[i].status)
    ensures i !in Batch(jobs)
  {
  }

  // ---------------------------------------------------------------- ticks among other calls

  /** What happens one after the other: a tick of the worker, or any other call. */
  datatype Happening = TickAt(hash: nat -> string, at: string) | Other(c: ServiceCall)

  function Happens(env: Env, g: Gov, ev: Happening): Gov {
    match ev
    case TickAt(hash, at) => Tick(env, g, hash, at)
    case Other(c) => Step(env, g, c)
  }

  function After(env: Env, g: Gov, evs: seq<Happening>): Gov
    decreases |evs|
  {
    if evs == [] then g else Happens(env, After(env, g, evs[..|evs| - 1]), evs[|evs| - 1])
  }

  function TickCount(evs: seq<Happening>): nat
    decreases |evs|
  {
    if evs == [] then 0 else TickCount(evs[..|evs| - 1]) + if evs[|evs| - 1].TickAt? then 1 else 0
  }

  /** The steps a job still has to make. */
  function StepsLeft(s: JobStatus): (n: nat)
    ensures n == 0 <==> JobTerminal(s)
  {
    match s
    case Queued => 4
    case Running => 3
    case Evaluating => 2
    case Shadow => 1
    case _ => 0
  }

  /** On the happy path, or at its end. */
  predicate OnPath(s: JobStatus) {
    !JobTerminal(s) || s.Passed?
  }

  lemma OneAhead(s: JobStatus)
    ensures Ahead(s, 0) == s
    ensures StepsLeft(Ahead(s, 1)) == if StepsLeft(s) == 0 then 0 else StepsLeft(s) - 1
    ensures OnPath(s) ==> OnPath(Ahead(s, 1))
  {
    assert Ahead(s, 1) == if NextHappy(Ahead(s, 0)).Some? then NextHappy(Ahead(s, 0)).value else Ahead(s, 0);
  }

  /** No job goes away, goes back or changes hands. */
  ghost predicate Onward(g: Gov, t: Gov) {
    && |g.jobs| <= |t.jobs|
    && forall i: nat | i < |g.jobs| ::
         SameRequester(t.jobs[i], g.jobs[i]) && StepsLeft(t.jobs[i].status) <= StepsLeft(g.jobs[i].status)
  }

  lemma TickLength(env: Env, g: Gov, hash: nat -> string, at: string)
    ensures |Tick(env, g, hash, at).jobs| == |g.jobs|
  {
    assert forall k <- Batch(g.jobs) :: k in ActiveIn(g.jobs);
    TickMoves(env, g, Batch(g.jobs), hash, at);
  }

  lemma TickOnward(env: Env, g: Gov, hash: nat -> string, at: string)
    ensures Onward(g, Tick(env, g, hash, at))
  {
    var t := Tick(env, g, hash, at);
    TickLength(env, g, hash, at);
    hide Tick, Ahead, Position, StepsLeft;
    forall i: nat | i < |g.jobs|
      ensures SameRequester(t.jobs[i], g.jobs[i]) && StepsLeft(t.jobs[i].status) <= StepsLeft(g.jobs[i].status)
    {
      TickStatus(env, g, hash, at, i);
      OneAhead(g.jobs[i].status);
    }
  }

  /** Any other call leaves job `i` alone, unless it moves it on or cancels it. */
  lemma StepJob(env: Env, g: Gov, c: ServiceCall, i: nat)
    requires i < |g.jobs|
    ensures var n := Step(env, g, c);
            && |g.jobs| <= |n.jobs| && SameRequester(n.jobs[i], g.jobs[i])
            && (n.jobs[i].status == g.jobs[i].status || n.jobs[i].status == Ahead(g.jobs[i].status, 1)
                || (c.Cancel? && c.i == i && n.jobs[i].status.Cancelled?))
  {
    hide Ahead, Deciding, Advancing;
    match c
    case Advance(k, hash, at) =>
      if k < |g.jobs| { AdvanceStatus(env, g, k, hash, at); }
    case ApproveIt(k, user, role) => ApproveJobs(env, g, k, user, role);
    case RejectIt(k, user, role) => DecideJobs(g, k, Reject, user, role);
    case WithdrawIt(k, user, role) => DecideJobs(g, k, Withdraw, user, role);
    case _ =>
  }

  lemma DecideJobs(g: Gov, k: nat, d: Decision, user: Option<string>, role: Option<string>)
    ensures k < |g.approvals| && g.approvals[k].state.Pending? ==> Deciding(g, k, d, user, role).jobs == g.jobs
  {
  }

  lemma ApproveJobs(env: Env, g: Gov, k: nat, user: Option<string>, role: Option<string>)
    ensures Approving(env, g, k, user, role).0.jobs == g.jobs
  {
    hide ExecutorLoop.Checked, CanPromote, PromoteRows;
  }

  lemma StepOnward(env: Env, g: Gov, c: ServiceCall)
    ensures Onward(g, Step(env, g, c))
  {
    var n := Step(env, g, c);
    StepLength(env, g, c);
    hide Step, Ahead;
    forall i: nat | i < |g.jobs|
      ensures SameRequester(n.jobs[i], g.jobs[i]) && StepsLeft(n.jobs[i].status) <= StepsLeft(g.jobs[i].status)
    {
      StepJob(env, g, c, i);
      OneAhead(g.jobs[i].status);
    }
  }

  lemma StepLength(env: Env, g: Gov, c: ServiceCall)
    ensures |g.jobs| <= |Step(env, g, c).jobs|
  {
    if g.jobs != [] { StepJob(env, g, c, 0); }
  }

  lemma HappensOnward(env: Env, g: Gov, ev: Happening)
    ensures Onward(g, Happens(env, g, ev))
  {
    match ev
    case TickAt(hash, at) => TickOnward(env, g, hash, at);
    case Other(c) => StepOnward(env, g, c);
  }

  lemma {:induction false} AfterOnward(env: Env, g: Gov, evs: seq<Happening>)
    ensures Onward(g, After(env, g, evs))
    decreases |evs|
  {
    if evs != [] {
      var n := |evs| - 1;
      AfterOnward(env, g, evs[..n]);
      HappensOnward(env, After(env, g, evs[..n]), evs[n]);
      hide Happens, StepsLeft;
    }
  }

  /** Jobs that come later have larger numbers, so no job ever has more active ones before it. */
  lemma PositionKeeps(g: Gov, t: Gov, i: nat)
    requires Onward(g, t) && i <= |g.jobs|
    ensures Position(t.jobs, i) <= Position(g.jobs, i)
  {
    hide ActiveIn, SameRequester;
    forall k: nat | k < i && JobTerminal(g.jobs[..i][k].status) ensures JobTerminal(t.jobs[..i][k].status) {
      assert StepsLeft(t.jobs[k].status) <= StepsLeft(g.jobs[k].status);
    }
    FewerActive(g.jobs[..i], t.jobs[..i]);
  }

  lemma AfterNext(env: Env, g: Gov, evs: seq<Happening>)
    requires evs != []
    ensures var n := |evs| - 1;
            && After(env, g, evs) == Happens(env, After(env, g, evs[..n]), evs[n])
            && TickCount(evs) == TickCount(evs[..n]) + if evs[n].TickAt? then 1 else 0
  {
    hide Happens;
  }

  lemma Slices<T>(s: seq<T>, k: nat)
    requires k < |s|
    ensures var n := |s| - 1;
            s[..n][..k] == s[..k] && s[k..][..n - k] == s[..n][k..] && |s[k..]| == n - k + 1 && s[k..][n - k] == s[n]
  {
  }

  lemma {:induction false} AfterSplit(env: Env, g: Gov, evs: seq<Happening>, k: nat)
    requires k <= |evs|
    ensures After(env, g, evs) == After(env, After(env, g, evs[..k]), evs[k..])
    ensures TickCount(evs) == TickCount(evs[..k]) + TickCount(evs[k..])
    decreases |evs|
  {
    if k < |evs| {
      hide After, TickCount, Happens;
      AfterSplit(env, g, evs[..|evs| - 1], k);
      Slices(evs, k);
      AfterNext(env, g, evs);
      AfterNext(env, After(env, g, evs[..k]), evs[k..]);
    } else {
      assert evs[..k] == evs && evs[k..] == [];
      hide Happens;
    }
  }

  /** The shortest beginning with that many ticks. */
  lemma {:induction false} TicksReached(evs: seq<Happening>, n: nat) returns (k: nat)
    requires n <= TickCount(evs)
    ensures k <= |evs| && TickCount(evs[..k]) == n
    decreases |evs|
  {
    if n == TickCount(evs) {
      k := |evs|;
      assert evs[..k] == evs;
    } else {
      var m := |evs| - 1;
      k := TicksReached(evs[..m], n);
      assert evs[..m][..k] == evs[..k];
    }
  }

  /** Every tick takes a job with fewer than a hundred active ones before it a step on. */
  lemma {:induction false} FrontMoves(env: Env, g: Gov, evs: seq<Happening>, i: nat)
    requires i < |g.jobs| && Position(g.jobs, i) < BATCH
    ensures i < |After(env, g, evs).jobs|
    ensures var left := StepsLeft(After(env, g, evs).jobs[i].status);
            left == 0 || left + TickCount(evs) <= StepsLeft(g.jobs[i].status)
    decreases |evs|
  {
    if evs != [] {
      var n := |evs| - 1;
      var before := After(env, g, evs[..n]);
      FrontMoves(env, g, evs[..n], i);
      AfterOnward(env, g, evs[..n]);
      HappensOnward(env, before, evs[n]);
      PositionKeeps(g, before, i);
      assert After(env, g, evs) == Happens(env, before, evs[n]);
      hide Position, StepsLeft, After, Ahead, Tick, Step;
      if evs[n].TickAt? {
        TickStatus(env, before, evs[n].hash, evs[n].at, i);
        OneAhead(before.jobs[i].status);
      }
    }
  }

  lemma FourTicksFinish(env: Env, g: Gov, evs: seq<Happening>, i: nat)
    requires TickCount(evs) >= 4 && i < |g.jobs|
    ensures i < |After(env, g, evs).jobs|
    ensures Position(g.jobs, i) < BATCH || JobTerminal(g.jobs[i].status) ==>
              JobTerminal(After(env, g, evs).jobs[i].status)
  {
    AfterOnward(env, g, evs);
    hide Position, After;
    if Position(g.jobs, i) < BATCH { FrontMoves(env, g, evs, i); }
  }

  function Fewer(p: nat): nat {
    if p <= BATCH then 0 else p - BATCH
  }

  /** One more job: it counts later only if it counts now and a hundred count before it. */
  lemma StepUp(t: seq<Job>, later: seq<Job>, i: nat)
    requires i < |t| <= |later| && Position(later, i) <= Fewer(Position(t, i))
    requires Position(t, i) < BATCH || JobTerminal(t[i].status) ==> JobTerminal(later[i].status)
    ensures Position(later, i + 1) <= Fewer(Position(t, i + 1))
  {
    PositionNext(t, i);
    PositionNext(later, i);
    hide Position;
  }

  /** Four ticks, with anything between them, finish the first hundred active jobs: every job moves up by a hundred. */
  lemma {:induction false} FourTicksAdvance(env: Env, g: Gov, evs: seq<Happening>, i: nat)
    requires TickCount(evs) >= 4 && i <= |g.jobs|
    ensures |g.jobs| <= |After(env, g, evs).jobs|
    ensures Position(After(env, g, evs).jobs, i) <= Fewer(Position(g.jobs, i))
    decreases i
  {
    AfterOnward(env, g, evs);
    hide After, Position;
    if i == 0 {
      NoneBefore(After(env, g, evs).jobs);
    } else {
      FourTicksAdvance(env, g, evs, i - 1);
      FourTicksFinish(env, g, evs, i - 1);
      StepUp(g.jobs, After(env, g, evs).jobs, i - 1);
    }
  }

  lemma NoneBefore(jobs: seq<Job>)
    ensures Position(jobs, 0) == 0
  {
  }

  lemma {:induction false} MovesUp(env: Env, g: Gov, evs: seq<Happening>, c: nat, i: nat)
    requires TickCount(evs) >= 4 * c && i <= |g.jobs|
    ensures |g.jobs| <= |After(env, g, evs).jobs|
    ensures Position(After(env, g, evs).jobs, i) + BATCH * c <= Position(g.jobs, i)
            || Position(After(env, g, evs).jobs, i) == 0
    decreases c
  {
    AfterOnward(env, g, evs);
    PositionKeeps(g, After(env, g, evs), i);
    hide Position, After, TickCount, Onward;
    if c > 0 {
      var k := TicksReached(evs, 4 * (c - 1));
      AfterSplit(env, g, evs, k);
      MovesUp(env, g, evs[..k], c - 1, i);
      FourTicksAdvance(env, After(env, g, evs[..k]), evs[k..], i);
    }
  }

  // ---------------------------------------------------------------- a job that is let be

  ghost predicate NotCancelled(evs: seq<Happening>, i: nat) {
    forall k: nat | k < |evs| && evs[k].Other? && evs[k].c.Cancel? :: evs[k].c.i != i
  }

  lemma {:induction false} StaysOnPath(env: Env, g: Gov, evs: seq<Happening>, i: nat)
    requires i < |g.jobs| && OnPath(g.jobs[i].status) && NotCancelled(evs, i)
    ensures i < |After(env, g, evs).jobs| && OnPath(After(env, g, evs).jobs[i].status)
    decreases |evs|
  {
    if evs != [] {
      var n := |evs| - 1;
      var before := After(env, g, evs[..n]);
      StaysOnPath(env, g, evs[..n], i);
      OneAhead(before.jobs[i].status);
      hide Position, Ahead, Tick, Step, OnPath;
      match evs[n]
      case TickAt(hash, at) => TickStatus(env, before, hash, at, i);
      case Other(c) => StepJob(env, before, c, i);
    }
  }

  /** The ticks after which a job with `p` active ones before it has passed. */
  function TicksFor(p: nat): nat {
    4 * (p / 100 + 1)
  }

  /**
   With any number of active jobs, and whatever else is called between the ticks: the
   worker gets to every job, hundred by hundred, and passes it unless it is cancelled.
   */
  lemma PassesInTime(env: Env, g: Gov, evs: seq<Happening>, i: nat)
    requires i < |g.jobs| && !JobTerminal(g.jobs[i].status)
    requires TickCount(evs) >= TicksFor(Position(g.jobs, i)) && NotCancelled(evs, i)
    ensures var t := After(env, g, evs);
            i < |t.jobs| && t.jobs[i].status.Passed? && SameRequester(t.jobs[i], g.jobs[i])
  {
    hide Position, SameRequester, TickCount, NotCancelled;
    var c := Position(g.jobs, i) / BATCH;
    AfterOnward(env, g, evs);
    StaysOnPath(env, g, evs, i);
    var k := TicksReached(evs, 4 * c);
    AfterSplit(env, g, evs, k);
    hide After;
    MovesUp(env, g, evs[..k], c, i);
    FourTicksFinish(env, After(env, g, evs[..k]), evs[k..], i);
  }

  // ---------------------------------------------------------------- ticks are runs

  lemma {:induction false} TickIsRun(
    env: Env, rows: Option<seq<Dict>>, calls: seq<ServiceCall>, list: seq<nat>, hash: nat -> string, at: string)
    returns (more: seq<ServiceCall>)
    ensures Run(env, rows, more) == Ticking(env, Run(env, rows, calls), list, hash, at)
    decreases |list|
  {
    hide Advancing;
    if list == [] {
      more := calls;
    } else {
      var i := list[|list| - 1];
      var front := TickIsRun(env, rows, calls, list[..|list| - 1], hash, at);
      more := front + [Advance(i, hash(i), at)];
      assert more[..|front|] == front;
    }
  }

  lemma {:induction false} EventsAreRun(env: Env, rows: Option<seq<Dict>>, calls: seq<ServiceCall>, evs: seq<Happening>)
    returns (more: seq<ServiceCall>)
    ensures Run(env, rows, more) == After(env, Run(env, rows, calls), evs)
    decreases |evs|
  {
    hide Ticking, Run, Batch, Step;
    if evs == [] {
      more := calls;
    } else {
      var n := |evs| - 1;
      var front := EventsAreRun(env, rows, calls, evs[..n]);
      match evs[n]
      case TickAt(hash, at) => more := TickIsRun(env, rows, front, Batch(Run(env, rows, front).jobs), hash, at);
      case Other(c) =>
        RunNext(env, rows, front, c);
        more := front + [c];
    }
  }

  lemma RunNext(env: Env, rows: Option<seq<Dict>>, calls: seq<ServiceCall>, c: ServiceCall)
    ensures Run(env, rows, calls + [c]) == Step(env, Run(env, rows, calls), c)
  {
    assert (calls + [c])[..|calls|] == calls;
  }

  // ---------------------------------------------------------------- ticks decide nothing

  /** The approvals are those of before and, after them, undecided ones. */
  predicate MorePending(g: Gov, n: Gov) {
    && g.approvals <= n.approvals
    && forall a: nat | |g.approvals| <= a < |n.approvals| :: n.approvals[a].state.Pending?
  }

  lemma AdvancePending(env: Env, g: Gov, i: nat, hash: string, at: string)
    requires i < |g.jobs|
    ensures MorePending(g, Advancing(env, g, i, hash, at))
  {
    if g.jobs[i].status.Shadow? {
      PassShape(env, g, i, hash, at);
      hide Advancing;
    }
  }

  lemma PendingMore(f: Gov, g: Gov, n: Gov)
    requires MorePending(f, g) && MorePending(g, n)
    ensures MorePending(f, n)
  {
    forall a: nat | |f.approvals| <= a < |n.approvals| ensures n.approvals[a].state.Pending? {
      if a < |g.approvals| { assert n.approvals[a] == g.approvals[a]; }
    }
  }

  lemma {:induction false} TickPending(env: Env, g: Gov, list: seq<nat>, hash: nat -> string, at: string)
    ensures MorePending(g, Ticking(env, g, list, hash, at))
    decreases |list|
  {
    hide MorePending, Advancing;
    if list == [] {
      SamePending(g);
    } else {
      var last := |list| - 1;
      TickPending(env, g, list[..last], hash, at);
      var before := Ticking(env, g, list[..last], hash, at);
      if list[last] < |before.jobs| {
        AdvancePending(env, before, list[last], hash(list[last]), at);
        PendingMore(g, before, Ticking(env, g, list, hash, at));
      }
    }
  }

  lemma SamePending(g: Gov)
    ensures MorePending(g, g)
  {
  }

  /** The approvals job `i` proposed await a decision. */
  ghost predicate PendingFor(g: Gov, i: nat) {
    forall a: nat | a < |g.approvals| && g.approvals[a].fromJob == Some(i) :: g.approvals[a].state.Pending?
  }

  /** The call decides what job `i` proposed, or tries to. */
  predicate Decides(g: Gov, ev: Happening, i: nat) {
    && ev.Other? && (ev.c.ApproveIt? || ev.c.RejectIt? || ev.c.WithdrawIt?)
    && ev.c.i < |g.approvals| && g.approvals[ev.c.i].fromJob == Some(i)
  }

  lemma ApproveOne(env: Env, g: Gov, k: nat, user: Option<string>, role: Option<string>)
    ensures var n := Approving(env, g, k, user, role).0;
            && |n.approvals| == |g.approvals|
            && (forall a: nat | a < |g.approvals| && a != k :: n.approvals[a] == g.approvals[a])
            && (k < |g.approvals| ==> n.approvals[k].fromJob == g.approvals[k].fromJob)
  {
    hide ExecutorLoop.Checked, CanPromote, PromoteRows, FindVersion, CanDecide;
  }

  lemma StepPendingFor(env: Env, g: Gov, c: ServiceCall, i: nat)
    requires PendingFor(g, i) && !Decides(g, Other(c), i)
    ensures PendingFor(Step(env, g, c), i)
  {
    hide Advancing, Approving, CanDecide;
    match c
    case Advance(k, hash, at) =>
      if k < |g.jobs| {
        AdvancePending(env, g, k, hash, at);
        MorePendingFor(g, Advancing(env, g, k, hash, at), i);
      }
    case ApproveIt(k, user, role) => ApproveOne(env, g, k, user, role);
    case _ =>
  }

  lemma MorePendingFor(g: Gov, n: Gov, i: nat)
    requires PendingFor(g, i) && MorePending(g, n)
    ensures PendingFor(n, i)
  {
    forall a: nat | a < |n.approvals| && n.approvals[a].fromJob == Some(i) ensures n.approvals[a].state.Pending? {
      if a < |g.approvals| { assert n.approvals[a] == g.approvals[a]; }
    }
  }

  /** Nobody cancels job `i`, and nobody decides what it proposes. */
  ghost predicate LetBe(env: Env, g: Gov, evs: seq<Happening>, i: nat) {
    && NotCancelled(evs, i)
    && forall k: nat | k < |evs| :: !Decides(After(env, g, evs[..k]), evs[k], i)
  }

  lemma {:induction false} StaysPending(env: Env, g: Gov, evs: seq<Happening>, i: nat)
    requires PendingFor(g, i) && LetBe(env, g, evs, i)
    ensures PendingFor(After(env, g, evs), i)
    decreases |evs|
  {
    if evs != [] {
      var n := |evs| - 1;
      LetBeBefore(env, g, evs, i);
      StaysPending(env, g, evs[..n], i);
      var before := After(env, g, evs[..n]);
      hide PendingFor, NotCancelled, Step, Ticking, Batch, Decides;
      match evs[n]
      case TickAt(hash, at) =>
        TickPending(env, before, Batch(before.jobs), hash, at);
        MorePendingFor(before, Tick(env, before, hash, at), i);
      case Other(c) => StepPendingFor(env, before, c, i);
    }
  }

  lemma LetBeBefore(env: Env, g: Gov, evs: seq<Happening>, i: nat)
    requires LetBe(env, g, evs, i) && evs != []
    ensures LetBe(env, g, evs[..|evs| - 1], i)
  {
    hide After, Decides;
    var front := evs[..|evs| - 1];
    forall k: nat | k < |front| ensures !Decides(After(env, g, front[..k]), front[k], i) {
      assert front[..k] == evs[..k];
    }
  }

  // ---------------------------------------------------------------- the whole loop

  /**
   Requested on any reachable state and let be, a job has passed, and its promotion awaits
   a decision, after four ticks for every hundred active jobs before it and four more,
   whatever else is called between them.
   */
  lemma RequestedPasses(
    env: Env, rows: Option<seq<Dict>>, calls: seq<ServiceCall>, scenario: string, user: Option<string>,
    role: Option<string>, evs: seq<Happening>)
    returns (more: seq<ServiceCall>, a: nat)
    requires var g := Run(env, rows, calls);
             && TickCount(evs) >= TicksFor(|ActiveIn(g.jobs)|)
             && LetBe(env, Creating(g, scenario, user, role), evs, |g.jobs|)
    ensures var g := Run(env, rows, calls);
            var t := After(env, Creating(g, scenario, user, role), evs);
            var i := |g.jobs|;
            && t == Run(env, rows, more)
            && i < |t.jobs| && t.jobs[i].status.Passed? && t.jobs[i].scenario == scenario
            && Spawned(t, i, a) && t.approvals[a].proposedBy == user && t.approvals[a].state.Pending?
  {
    var g := Run(env, rows, calls);
    var created := calls + [Create(scenario, user, role)];
    var c := Creating(g, scenario, user, role);
    var i := |g.jobs|;
    RunNext(env, rows, calls, Create(scenario, user, role));
    assert c.jobs[..i] == g.jobs;
    hide Run, After, TickCount, ActiveIn, TicksFor, Decides;
    PassesInTime(env, c, evs, i);
    more := EventsAreRun(env, rows, created, evs);
    RunKeeps(env, rows, calls);
    RunKeeps(env, rows, more);
    NothingYet(g, c, i);
    StaysPending(env, c, evs, i);
    hide DecisionsOk, ApprovalsOk, RegistryOk, LetBe, LinksOk;
    a := PassedApproval(After(env, c, evs), i);
  }

  /** A job that was not there before has no approval from before. */
  lemma NothingYet(g: Gov, c: Gov, i: nat)
    requires LinksOk(g) && c.approvals == g.approvals && i >= |g.jobs|
    ensures PendingFor(c, i)
  {
    forall b: nat | b < |g.approvals| ensures g.approvals[b].fromJob != Some(i) { assert LinkOk(g, b); }
  }

  lemma PassedApproval(t: Gov, i: nat) returns (a: nat)
    requires JobsOk(t) && i < |t.jobs| && t.jobs[i].status.Passed?
    ensures Spawned(t, i, a)
  {
    assert JobOk(t, i);
    a := t.jobs[i].approval.value;
  }

  /**
   Requested on any reachable state, let be until the worker has got to it, whatever else
   goes on meanwhile, and approved by anybody else who may, a job of a well-formed scenario
   ends with its own version the only active one of that scenario.
   */
  lemma FromJobToActive(
    env: Env, was: seq<Dict>, calls: seq<ServiceCall>, scenario: string, user: Option<string>, role: Option<string>,
    evs: seq<Happening>, decider: string, deciderRole: Option<string>)
    returns (a: nat)
    requires !env.wellFormed("") && env.wellFormed(scenario)
    requires user != Some(decider) && env.mayApprove(deciderRole, ModelPromotion)
    requires var g := Run(env, Some(was), calls);
             && TickCount(evs) >= TicksFor(|ActiveIn(g.jobs)|)
             && LetBe(env, Creating(g, scenario, user, role), evs, |g.jobs|)
    ensures var g := Run(env, Some(was), calls);
            var t := After(env, Creating(g, scenario, user, role), evs);
            var (n, r) := Approving(env, t, a, Some(decider), deciderRole);
            && r.Succeeded? && a < |n.approvals| && n.approvals[a].sideEffect == Some("applied")
            && n.rows.Some? && ActiveVersionIs(n.rows.value, scenario, JobVersion(|g.jobs|))
  {
    var i := |Run(env, Some(was), calls).jobs|;
    var more: seq<ServiceCall>;
    more, a := RequestedPasses(env, Some(was), calls, scenario, user, role, evs);
    hide After, Run, Approving, ActiveVersionIs, TicksFor, ActiveIn, TickCount, LetBe;
    var t := Run(env, Some(was), more);
    assert MayDecide(env, t, a, Some(decider), deciderRole);
    PromotionEndsActive(env, was, more, i, a, Some(decider), deciderRole);
    ApprovalsStay(env, t, a, Some(decider), deciderRole);
  }

  lemma ApprovalsStay(env: Env, g: Gov, a: nat, user: Option<string>, role: Option<string>)
    requires MayDecide(env, g, a, user, role)
    ensures |Approving(env, g, a, user, role).0.approvals| == |g.approvals|
  {
    hide ExecutorLoop.Checked, CanPromote, PromoteRows;
  }
}
