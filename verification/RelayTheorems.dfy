/**
 Whole runs of the relay queue, with any number of workers interleaving in any order.
 */
module RelayTheorems {
  import opened Common
  import opened RelayQueue

  function Run(cfg: Config, steps: seq<Step>): State {
    Exec(cfg, INITIAL, steps)
  }

  function Bit(b: bool): nat {
    if b then 1 else 0
  }

  // ---- what happens to a job ----

  datatype Event = Claiming | Retrying | Recovering | Marking | Crashing

  predicate Hits(cfg: Config, e: Event, s: State, step: Step, m: MessageId) {
    match e
    case Claiming => step.Claim? && step.job == m && CanClaim(s, step.worker, m)
    case Retrying => step.Retry? && step.job == m && CanRetry(s, m)
    case Recovering => step.Recover? && m in s.jobs && Stale(cfg, s.jobs[m], s.clock)
    case Marking =>
      (step.Succeed? || step.DeadLetter? || step.Fail?) && Holds(s, step.worker) && s.held[step.worker].job == m
    case Crashing => step.Crash? && step.worker in s.held && s.held[step.worker].job == m
  }

  /** How often an event happens to a job in a run. */
  function Count(cfg: Config, e: Event, steps: seq<Step>, m: MessageId): nat {
    if steps == [] then 0
    else
      var before := steps[..|steps| - 1];
      Count(cfg, e, before, m) + Bit(Hits(cfg, e, Run(cfg, before), steps[|steps| - 1], m))
  }

  // ---- attempts count claims ----

  lemma {:induction false} AttemptsCountClaims(cfg: Config, steps: seq<Step>, m: MessageId)
    ensures if m in Run(cfg, steps).jobs
            then Run(cfg, steps).jobs[m].attemptCount == Count(cfg, Claiming, steps, m)
            else Count(cfg, Claiming, steps, m) == 0
  {
    if steps != [] {
      AttemptsCountClaims(cfg, steps[..|steps| - 1], m);
    }
  }

  // ---- exclusivity ----

  /** Every held job is running, and no two workers hold the same job. */
  ghost predicate Exclusive(s: State) {
    && (forall w :: w in s.held ==> s.held[w].job in s.jobs && s.jobs[s.held[w].job].status == Running)
    && (forall v, w :: v in s.held && w in s.held && s.held[v].job == s.held[w].job ==> v == w)
  }

  ghost predicate HoldsAreLive(s: State) {
    && Exclusive(s)
    && (forall w :: w in s.held ==>
          && s.held[w].attempt == s.jobs[s.held[w].job].attemptCount
          && s.held[w].claimedAt <= s.jobs[s.held[w].job].updatedAt)
    && (forall m :: m in s.jobs ==> s.jobs[m].updatedAt <= s.clock)
  }

  lemma ClaimKeepsLive(cfg: Config, s: State, w: Worker, m: MessageId)
    requires HoldsAreLive(s)
    ensures HoldsAreLive(Next(cfg, s, Claim(w, m)))
  {
    if CanClaim(s, w, m) {
      assert forall v :: v in s.held ==> s.held[v].job != m;
    }
  }

  lemma MarkKeepsLive(cfg: Config, s: State, w: Worker, row: Job)
    requires HoldsAreLive(s) && Holds(s, w)
    requires row.updatedAt <= s.clock
    ensures HoldsAreLive(Marked(s, w, row))
  {
    assert forall v :: v in s.held && v != w ==> s.held[v].job != s.held[w].job;
  }

  lemma RecoverKeepsLive(cfg: Config, s: State)
    requires HoldsAreLive(s) && Fresh(s, cfg.runningStaleMs)
    ensures HoldsAreLive(Next(cfg, s, Recover))
  {
    forall w | w in s.held
      ensures Recovered(cfg, s.jobs, s.clock)[s.held[w].job] == s.jobs[s.held[w].job]
    {
      assert s.clock - s.held[w].claimedAt <= cfg.runningStaleMs;
    }
  }

  lemma UpdateKeepsLive(s: State, m: MessageId, row: Job)
    requires HoldsAreLive(s) && row.updatedAt == s.clock
    requires m in s.jobs ==> s.jobs[m].status == Running ==>
               row.status == Running && row.attemptCount == s.jobs[m].attemptCount
    ensures HoldsAreLive(s.(jobs := s.jobs[m := row]))
  {
  }

  lemma StepKeepsLive(cfg: Config, s: State, step: Step)
    requires HoldsAreLive(s) && Fresh(s, cfg.runningStaleMs)
    ensures HoldsAreLive(Next(cfg, s, step))
  {
    hide HoldsAreLive;
    match step
    case Tick(ms) => TickKeepsLive(s, ms);
    case Seed(row, destination) => SeedKeepsLive(s, row, destination);
    case Recover => RecoverKeepsLive(cfg, s);
    case Claim(w, m) => ClaimKeepsLive(cfg, s, w, m);
    case Succeed(w) =>
      if Holds(s, w) {
        MarkKeepsLive(cfg, s, w, SucceededRow(s.jobs[s.held[w].job], s.clock));
      }
    case DeadLetter(w) =>
      if Holds(s, w) {
        MarkKeepsLive(cfg, s, w, DeadRow(s.jobs[s.held[w].job], s.clock));
      }
    case Fail(w) =>
      if Holds(s, w) {
        MarkKeepsLive(cfg, s, w, FailedRow(cfg, s.jobs[s.held[w].job], s.held[w].attempt, s.clock));
      }
    case Crash(w) => CrashKeepsLive(s, w);
    case Retry(m) =>
      if CanRetry(s, m) {
        UpdateKeepsLive(s, m, RetriedRow(s.jobs[m], s.clock));
      }
  }

  lemma TickKeepsLive(s: State, ms: nat)
    requires HoldsAreLive(s)
    ensures HoldsAreLive(s.(clock := s.clock + ms))
  {
  }

  lemma CrashKeepsLive(s: State, w: Worker)
    requires HoldsAreLive(s)
    ensures HoldsAreLive(s.(held := s.held - {w}))
  {
  }

  lemma SeedKeepsLive(s: State, row: UnresolvedRow, destination: nat)
    requires HoldsAreLive(s)
    ensures HoldsAreLive(SeedRow(s, row, destination))
  {
    var m := row.messageId;
    if destination == 0 {
    } else if m !in s.jobs {
      UpdateKeepsLive(s, m, NewRow(row, destination, s.nextId, s.clock));
      NumberKeepsLive(s.(jobs := s.jobs[m := NewRow(row, destination, s.nextId, s.clock)]));
    } else if NeedsMetadata(s.jobs[m], row, destination) {
      UpdateKeepsLive(s, m, WithMetadata(s.jobs[m], row, destination, s.clock));
    }
  }

  lemma NumberKeepsLive(s: State)
    requires HoldsAreLive(s)
    ensures HoldsAreLive(s.(nextId := s.nextId + 1))
  {
  }

  lemma {:induction false} RunsAreLive(cfg: Config, steps: seq<Step>, holdMs: nat)
    requires holdMs <= cfg.runningStaleMs && Timely(cfg, INITIAL, steps, holdMs)
    ensures HoldsAreLive(Run(cfg, steps))
  {
    if steps != [] {
      RunsAreLive(cfg, steps[..|steps| - 1], holdMs);
      StepKeepsLive(cfg, Run(cfg, steps[..|steps| - 1]), steps[|steps| - 1]);
    }
  }

  /** A run that breaks exclusivity when a hold may outlive the stale limit. */
  function Overlap(cfg: Config, row: UnresolvedRow): seq<Step> {
    [Seed(row, 1), Claim(0, row.messageId), Tick(cfg.runningStaleMs + 1), Recover, Claim(1, row.messageId)]
  }

  lemma OverlapBreaks(cfg: Config, row: UnresolvedRow, holdMs: nat)
    requires cfg.runningStaleMs < holdMs
    ensures Timely(cfg, INITIAL, Overlap(cfg, row), holdMs) && !Exclusive(Run(cfg, Overlap(cfg, row)))
  {
    var steps, m := Overlap(cfg, row), row.messageId;
    var s1 := SeedRow(INITIAL, row, 1);
    var s2 := Next(cfg, s1, steps[1]);
    var s3 := Next(cfg, s2, steps[2]);
    var s4 := Next(cfg, s3, steps[3]);
    var s5 := Next(cfg, s4, steps[4]);
    assert steps[..1] == [] + [steps[0]] && Exec(cfg, INITIAL, steps[..1]) == s1;
    ExecSnoc(cfg, INITIAL, steps[..1], steps[1]);
    assert steps[..2] == steps[..1] + [steps[1]];
    ExecSnoc(cfg, INITIAL, steps[..2], steps[2]);
    assert steps[..3] == steps[..2] + [steps[2]];
    ExecSnoc(cfg, INITIAL, steps[..3], steps[3]);
    assert steps[..4] == steps[..3] + [steps[3]];
    ExecSnoc(cfg, INITIAL, steps[..4], steps[4]);
    assert steps == steps[..4] + [steps[4]];
    assert Stale(cfg, s3.jobs[m], s3.clock);
    assert s5.held[0].job == m && s5.held[1].job == m;
    assert Timely(cfg, INITIAL, steps[..0], holdMs);
    assert Timely(cfg, INITIAL, steps[..1], holdMs) by { assert steps[..1][..0] == steps[..0]; }
    assert Timely(cfg, INITIAL, steps[..2], holdMs) by { assert steps[..2][..1] == steps[..1]; }
    assert Timely(cfg, INITIAL, steps[..3], holdMs) by { assert steps[..3][..2] == steps[..2]; }
    assert Timely(cfg, INITIAL, steps[..4], holdMs) by { assert steps[..4][..3] == steps[..3]; }
  }

  /** Workers keep out of each other's way in every run exactly when no hold may outlive the stale limit. */
  lemma ExclusiveIff(cfg: Config, holdMs: nat)
    ensures (forall steps :: Timely(cfg, INITIAL, steps, holdMs) ==> Exclusive(Run(cfg, steps)))
            <==> holdMs <= cfg.runningStaleMs
  {
    if holdMs <= cfg.runningStaleMs {
      forall steps | Timely(cfg, INITIAL, steps, holdMs)
        ensures Exclusive(Run(cfg, steps))
      {
        RunsAreLive(cfg, steps, holdMs);
      }
    } else {
      OverlapBreaks(cfg, UnresolvedRow("", None, 0, None), holdMs);
    }
  }

  /** While no hold outlives the stale limit, success and dead are left only through a manual retry, and a
      running job is put back only when its worker crashed or marks it. */
  lemma TerminalIsFinal(cfg: Config, steps: seq<Step>, step: Step, m: MessageId, holdMs: nat)
    requires holdMs <= cfg.runningStaleMs && Timely(cfg, INITIAL, steps, holdMs)
    requires m in Run(cfg, steps).jobs
    ensures var before, after := Run(cfg, steps).jobs[m], Run(cfg, steps + [step]).jobs[m];
            && (before.status in {Success, Dead} && step != Retry(m) ==> after.status == before.status)
            && (before.status == Running && after.status != Running ==>
                  Hits(cfg, Marking, Run(cfg, steps), step, m)
                  || (step.Recover? && forall w :: w in Run(cfg, steps).held ==> Run(cfg, steps).held[w].job != m))
    ensures m in Run(cfg, steps + [step]).jobs
  {
    RunsAreLive(cfg, steps, holdMs);
    ExecSnoc(cfg, INITIAL, steps, step);
  }

  // ---- the retry budget ----

  function Holders(held: map<Worker, Hold>, m: MessageId): set<Worker> {
    set w | w in held && held[w].job == m
  }

  /** Holders whose failure would put the job back in the queue. */
  function EarlyHolders(cfg: Config, held: map<Worker, Hold>, m: MessageId): set<Worker> {
    set w | w in held && held[w].job == m && held[w].attempt < cfg.maxAttempts
  }

  function MaxClaims(cfg: Config): (n: nat)
    ensures n >= 1
  {
    Max(1, cfg.maxAttempts)
  }

  /** With so many retries and recoveries behind it, a job has at most this many claims still coming. */
  ghost predicate Budgeted(cfg: Config, s: State, m: MessageId, extra: nat) {
    if m !in s.jobs then Holders(s.held, m) == {}
    else
      var job := s.jobs[m];
      var pending := Bit(job.status == Pending);
      && |Holders(s.held, m)| + pending <= 1 + extra
      && (job.attemptCount >= MaxClaims(cfg) ==>
            job.attemptCount - MaxClaims(cfg) + |EarlyHolders(cfg, s.held, m)| + pending <= extra)
  }

  lemma HoldAdded(cfg: Config, held: map<Worker, Hold>, w: Worker, h: Hold, m: MessageId)
    requires w !in held
    ensures Holders(held[w := h], m) == Holders(held, m) + if h.job == m then {w} else {}
    ensures EarlyHolders(cfg, held[w := h], m)
            == EarlyHolders(cfg, held, m) + if h.job == m && h.attempt < cfg.maxAttempts then {w} else {}
    ensures w !in Holders(held, m) && EarlyHolders(cfg, held, m) <= Holders(held, m)
  {
  }

  lemma HoldDropped(cfg: Config, held: map<Worker, Hold>, w: Worker, m: MessageId)
    ensures Holders(held - {w}, m) == Holders(held, m) - {w}
    ensures EarlyHolders(cfg, held - {w}, m) == EarlyHolders(cfg, held, m) - {w}
    ensures EarlyHolders(cfg, held, m) <= Holders(held, m)
    ensures w in held && held[w].job == m ==> w in Holders(held, m)
    ensures w in held && held[w].job == m && held[w].attempt < cfg.maxAttempts ==> w in EarlyHolders(cfg, held, m)
    ensures w in held && held[w].job != m ==> Holders(held - {w}, m) == Holders(held, m)
                                              && EarlyHolders(cfg, held - {w}, m) == EarlyHolders(cfg, held, m)
  {
  }

  lemma ClaimSpendsBudget(cfg: Config, s: State, w: Worker, n: MessageId, m: MessageId, extra: nat)
    requires Budgeted(cfg, s, m, extra) && CanClaim(s, w, n)
    ensures Budgeted(cfg, Next(cfg, s, Claim(w, n)), m, extra)
  {
    hide Holders, EarlyHolders;
    HoldAdded(cfg, s.held, w, Hold(n, s.jobs[n].attemptCount + 1, s.clock), m);
    SubsetSize(EarlyHolders(cfg, s.held, m), Holders(s.held, m));
  }

  lemma ReleaseKeepsBudget(cfg: Config, s: State, w: Worker, m: MessageId, extra: nat, row: Job)
    requires Budgeted(cfg, s, m, extra) && w in s.held && s.held[w].job == m && m in s.jobs
    requires row.attemptCount == s.jobs[m].attemptCount
    requires row.status == Pending ==> s.jobs[m].status == Pending || s.held[w].attempt < cfg.maxAttempts
    ensures Budgeted(cfg, s.(jobs := s.jobs[m := row], held := s.held - {w}), m, extra)
  {
    hide Holders, EarlyHolders;
    HoldDropped(cfg, s.held, w, m);
  }

  /** Letting go of another job, or of none, leaves a job's holders alone. */
  lemma OtherReleased(cfg: Config, s: State, w: Worker, m: MessageId)
    requires w !in s.held || s.held[w].job != m
    ensures Holders(s.held - {w}, m) == Holders(s.held, m)
    ensures EarlyHolders(cfg, s.held - {w}, m) == EarlyHolders(cfg, s.held, m)
  {
  }

  lemma MarkKeepsBudget(cfg: Config, s: State, step: Step, m: MessageId, extra: nat)
    requires Budgeted(cfg, s, m, extra)
    requires step.Succeed? || step.DeadLetter? || step.Fail? || step.Crash?
    ensures Budgeted(cfg, Next(cfg, s, step), m, extra)
  {
    var w, s' := step.worker, Next(cfg, s, step);
    if w in s.held && s.held[w].job == m {
      assert w in Holders(s.held, m);
      ReleaseKeepsBudget(cfg, s, w, m, extra, s'.jobs[m]);
      assert s' == s.(jobs := s.jobs[m := s'.jobs[m]], held := s.held - {w});
    } else {
      OtherReleased(cfg, s, w, m);
      assert w !in s.held ==> s.held - {w} == s.held;
    }
  }

  lemma StepKeepsBudget(cfg: Config, s: State, step: Step, m: MessageId, extra: nat)
    requires Budgeted(cfg, s, m, extra)
    ensures Budgeted(cfg, Next(cfg, s, step), m,
              extra + Bit(Hits(cfg, Retrying, s, step, m)) + Bit(Hits(cfg, Recovering, s, step, m)))
  {
    match step
    case Claim(w, n) =>
      if CanClaim(s, w, n) {
        ClaimSpendsBudget(cfg, s, w, n, m, extra);
      }
    case Succeed(_) => MarkKeepsBudget(cfg, s, step, m, extra);
    case DeadLetter(_) => MarkKeepsBudget(cfg, s, step, m, extra);
    case Fail(_) => MarkKeepsBudget(cfg, s, step, m, extra);
    case Crash(_) => MarkKeepsBudget(cfg, s, step, m, extra);
    case _ =>
  }

  function Requeues(cfg: Config, steps: seq<Step>, m: MessageId): nat {
    Count(cfg, Retrying, steps, m) + Count(cfg, Recovering, steps, m)
  }

  lemma {:induction false} RunsAreBudgeted(cfg: Config, steps: seq<Step>, m: MessageId)
    ensures Budgeted(cfg, Run(cfg, steps), m, Requeues(cfg, steps, m))
  {
    if steps != [] {
      var before := steps[..|steps| - 1];
      RunsAreBudgeted(cfg, before, m);
      StepKeepsBudget(cfg, Run(cfg, before), steps[|steps| - 1], m, Requeues(cfg, before, m));
    }
  }

  /** However long workers hold their jobs, a job is claimed at most once per allowed attempt, manual retry
      and stale recovery; its attempt count says how often it was. */
  lemma RetryBudget(cfg: Config, steps: seq<Step>, m: MessageId)
    requires m in Run(cfg, steps).jobs
    ensures Run(cfg, steps).jobs[m].attemptCount == Count(cfg, Claiming, steps, m)
            <= MaxClaims(cfg) + Count(cfg, Retrying, steps, m) + Count(cfg, Recovering, steps, m)
  {
    AttemptsCountClaims(cfg, steps, m);
    RunsAreBudgeted(cfg, steps, m);
  }
}
