/**
 A job nobody retries by hand and no sweep recovers: it comes to rest after a bounded number of steps, and
 the waiting scheduled for it is bounded.
 */
module RelayProgress {
  import opened Common
  import opened RelayQueue
  import opened RelayTheorems

  // ---- the measure ----

  /** Steps of its own a job can still make. */
  function Measure(cfg: Config, job: Job): nat {
    var left := Max(0, MaxClaims(cfg) - job.attemptCount);
    match job.status
    case Pending => 2 * left
    case Running => 2 * left + 1
    case _ => 0
  }

  /** The steps a job made: claims and marks. */
  function Moves(cfg: Config, steps: seq<Step>, m: MessageId): nat {
    Count(cfg, Claiming, steps, m) + Count(cfg, Marking, steps, m)
  }

  /** The delays of the first n failures together. */
  function BackoffSum(cfg: Config, n: nat): nat {
    if n == 0 then 0 else BackoffSum(cfg, n - 1) + Backoff(cfg, n)
  }

  /** The wait a mark writes into the job's row: from now until its next attempt is due. */
  function Scheduling(cfg: Config, s: State, step: Step, m: MessageId): nat {
    if !Hits(cfg, Marking, s, step, m) then 0
    else
      var row := Next(cfg, s, step).jobs[m];
      if row.nextAttemptAt.None? || row.nextAttemptAt.value < s.clock then 0 else row.nextAttemptAt.value - s.clock
  }

  /** Only a failure short of the last attempt writes one, and what it writes is the backoff of that attempt;
      until then no worker can claim the job. */
  lemma SchedulingIsBackoff(cfg: Config, s: State, step: Step, m: MessageId)
    requires Hits(cfg, Marking, s, step, m)
    ensures var attempt, row := s.held[step.worker].attempt, Next(cfg, s, step).jobs[m];
            if step.Fail? && attempt < cfg.maxAttempts then
              && Scheduling(cfg, s, step, m) == Backoff(cfg, attempt)
              && row.status == Pending && row.nextAttemptAt == Some(s.clock + Backoff(cfg, attempt))
              && forall now: nat :: Runnable(row, now) <==> s.clock + Backoff(cfg, attempt) <= now
            else
              Scheduling(cfg, s, step, m) == 0 && row.status in {Success, Dead} && row.nextAttemptAt == None
  {
    hide Backoff;
  }

  function Scheduled(cfg: Config, steps: seq<Step>, m: MessageId): nat {
    if steps == [] then 0
    else
      var before := steps[..|steps| - 1];
      Scheduled(cfg, before, m) + Scheduling(cfg, Run(cfg, before), steps[|steps| - 1], m)
  }

  // ---- the invariant of an undisturbed job ----

  ghost predicate InHand(cfg: Config, s: State, m: MessageId, crashes: nat)
    requires m in s.jobs
  {
    var job, holders := s.jobs[m], Holders(s.held, m);
    && |holders| + Bit(job.status == Pending) <= 1
    && (forall w :: w in holders ==> job.status == Running && s.held[w].attempt == job.attemptCount)
    && (job.status == Running ==> holders != {} || crashes > 0)
    && (if job.status == Pending then job.attemptCount < MaxClaims(cfg)
        else 1 <= job.attemptCount <= MaxClaims(cfg))
  }

  ghost predicate Undisturbed(cfg: Config, s: State, m: MessageId, moves: nat, crashes: nat, scheduled: nat) {
    if m !in s.jobs then Holders(s.held, m) == {} && moves == 0 && scheduled == 0
    else
      var job := s.jobs[m];
      && InHand(cfg, s, m, crashes)
      && moves + Measure(cfg, job) <= 2 * MaxClaims(cfg)
      && scheduled == BackoffSum(cfg, if job.status == Pending then job.attemptCount else job.attemptCount - 1)
  }

  lemma ClaimedMeasure(cfg: Config, job: Job, now: nat)
    requires job.status == Pending && job.attemptCount < MaxClaims(cfg)
    ensures Measure(cfg, ClaimedRow(job, now)) + 1 == Measure(cfg, job)
  {
  }

  lemma ClaimUndisturbed(cfg: Config, s: State, w: Worker, n: MessageId, m: MessageId,
                         moves: nat, crashes: nat, scheduled: nat)
    requires Undisturbed(cfg, s, m, moves, crashes, scheduled) && CanClaim(s, w, n)
    ensures Undisturbed(cfg, Next(cfg, s, Claim(w, n)), m, moves + Bit(n == m), crashes, scheduled)
  {
    hide Holders, EarlyHolders, Measure, BackoffSum;
    if n == m {
      ClaimedMeasure(cfg, s.jobs[m], s.clock);
    }
    HoldAdded(cfg, s.held, w, Hold(n, s.jobs[n].attemptCount + 1, s.clock), m);
    if n == m {
      assert Holders(s.held, m) == {};
    }
  }

  lemma OnlyHolder(held: map<Worker, Hold>, m: MessageId, w: Worker)
    requires |Holders(held, m)| <= 1 && w in held && held[w].job == m
    ensures Holders(held, m) == {w} && Holders(held - {w}, m) == {}
  {
    assert w in Holders(held, m);
    assert |Holders(held, m) - {w}| == 0;
  }

  lemma MarkUndisturbed(cfg: Config, s: State, step: Step, m: MessageId,
                        moves: nat, crashes: nat, scheduled: nat)
    requires Undisturbed(cfg, s, m, moves, crashes, scheduled)
    requires Hits(cfg, Marking, s, step, m)
    ensures Undisturbed(cfg, Next(cfg, s, step), m, moves + 1, crashes, scheduled + Scheduling(cfg, s, step, m))
  {
    hide Scheduling;
    SchedulingIsBackoff(cfg, s, step, m);
    OnlyHolder(s.held, m, step.worker);
    assert step.worker in Holders(s.held, m);
  }

  lemma CrashUndisturbed(cfg: Config, s: State, w: Worker, m: MessageId,
                         moves: nat, crashes: nat, scheduled: nat)
    requires Undisturbed(cfg, s, m, moves, crashes, scheduled)
    requires Hits(cfg, Crashing, s, Crash(w), m)
    ensures Undisturbed(cfg, Next(cfg, s, Crash(w)), m, moves, crashes + 1, scheduled)
  {
    if m in s.jobs {
      OnlyHolder(s.held, m, w);
    }
    assert w in Holders(s.held, m);
  }

  ghost predicate Untouched(cfg: Config, s: State, step: Step, m: MessageId) {
    forall e :: !Hits(cfg, e, s, step, m)
  }

  lemma UntouchedRow(cfg: Config, s: State, step: Step, m: MessageId)
    requires Untouched(cfg, s, step, m)
    ensures var s' := Next(cfg, s, step);
            if m in s.jobs then
              m in s'.jobs && s'.jobs[m].status == s.jobs[m].status
              && s'.jobs[m].attemptCount == s.jobs[m].attemptCount
            else m in s'.jobs ==> s'.jobs[m].status == Pending && s'.jobs[m].attemptCount == 0
  {
    assert !Hits(cfg, Claiming, s, step, m) && !Hits(cfg, Retrying, s, step, m);
    assert !Hits(cfg, Recovering, s, step, m) && !Hits(cfg, Marking, s, step, m);
  }

  lemma UntouchedHolders(cfg: Config, s: State, step: Step, m: MessageId)
    requires Untouched(cfg, s, step, m)
    ensures var s' := Next(cfg, s, step);
            && Holders(s'.held, m) == Holders(s.held, m)
            && forall w :: w in Holders(s.held, m) ==> s'.held[w] == s.held[w]
  {
    hide Recovered;
    assert !Hits(cfg, Claiming, s, step, m) && !Hits(cfg, Marking, s, step, m) && !Hits(cfg, Crashing, s, step, m);
    if (step.Succeed? || step.DeadLetter? || step.Fail?) && !Holds(s, step.worker) {
      assert Next(cfg, s, step) == s;
    }
  }

  /** A step about another job, or about none. */
  lemma OtherUndisturbed(cfg: Config, s: State, step: Step, m: MessageId,
                         moves: nat, crashes: nat, scheduled: nat)
    requires Undisturbed(cfg, s, m, moves, crashes, scheduled) && Untouched(cfg, s, step, m)
    ensures Undisturbed(cfg, Next(cfg, s, step), m, moves, crashes, scheduled)
  {
    hide Next, Holders, Untouched;
    UntouchedRow(cfg, s, step, m);
    UntouchedHolders(cfg, s, step, m);
  }

  lemma StepUndisturbed(cfg: Config, s: State, step: Step, m: MessageId,
                        moves: nat, crashes: nat, scheduled: nat)
    requires Undisturbed(cfg, s, m, moves, crashes, scheduled)
    requires !Hits(cfg, Retrying, s, step, m) && !Hits(cfg, Recovering, s, step, m)
    ensures Undisturbed(cfg, Next(cfg, s, step), m,
              moves + Bit(Hits(cfg, Claiming, s, step, m)) + Bit(Hits(cfg, Marking, s, step, m)),
              crashes + Bit(Hits(cfg, Crashing, s, step, m)), scheduled + Scheduling(cfg, s, step, m))
  {
    hide Undisturbed, Next;
    if Hits(cfg, Claiming, s, step, m) {
      ClaimUndisturbed(cfg, s, step.worker, m, m, moves, crashes, scheduled);
    } else if Hits(cfg, Marking, s, step, m) {
      MarkUndisturbed(cfg, s, step, m, moves, crashes, scheduled);
    } else if Hits(cfg, Crashing, s, step, m) {
      CrashUndisturbed(cfg, s, step.worker, m, moves, crashes, scheduled);
    } else {
      forall e
        ensures !Hits(cfg, e, s, step, m)
      {
        match e
        case Claiming => case Retrying => case Recovering => case Marking => case Crashing =>
      }
      assert Untouched(cfg, s, step, m);
      OtherUndisturbed(cfg, s, step, m, moves, crashes, scheduled);
    }
  }

  lemma {:induction false} RunUndisturbed(cfg: Config, steps: seq<Step>, m: MessageId)
    requires Requeues(cfg, steps, m) == 0
    ensures Undisturbed(cfg, Run(cfg, steps), m, Moves(cfg, steps, m), Count(cfg, Crashing, steps, m),
              Scheduled(cfg, steps, m))
  {
    if steps != [] {
      var before := steps[..|steps| - 1];
      RunUndisturbed(cfg, before, m);
      StepUndisturbed(cfg, Run(cfg, before), steps[|steps| - 1], m, Moves(cfg, before, m),
        Count(cfg, Crashing, before, m), Scheduled(cfg, before, m));
    }
  }

  // ---- every job comes to rest ----

  predicate AtRest(job: Job) {
    job.status in {Success, Dead}
  }

  /** Without retry or recovery a job makes at most twice as many steps as it has attempts, the rest of the
      measure bounds the steps to come, and the measure is zero exactly when the job is at rest. */
  lemma MovesAreBounded(cfg: Config, steps: seq<Step>, m: MessageId)
    requires Requeues(cfg, steps, m) == 0 && m in Run(cfg, steps).jobs
    ensures var job := Run(cfg, steps).jobs[m];
            && Moves(cfg, steps, m) + Measure(cfg, job) <= 2 * MaxClaims(cfg)
            && (Measure(cfg, job) == 0 <==> AtRest(job))
  {
    RunUndisturbed(cfg, steps, m);
  }

  /** Each claim and each mark uses up some of the measure; no other step but a retry or recovery adds any. */
  lemma MeasureDecreases(cfg: Config, steps: seq<Step>, step: Step, m: MessageId)
    requires Requeues(cfg, steps + [step], m) == 0 && m in Run(cfg, steps).jobs
    ensures m in Run(cfg, steps + [step]).jobs
    ensures Measure(cfg, Run(cfg, steps + [step]).jobs[m])
              + Bit(Hits(cfg, Claiming, Run(cfg, steps), step, m)) + Bit(Hits(cfg, Marking, Run(cfg, steps), step, m))
            <= Measure(cfg, Run(cfg, steps).jobs[m])
  {
    assert (steps + [step])[..|steps|] == steps;
    RunUndisturbed(cfg, steps, m);
    StepMeasure(cfg, Run(cfg, steps), step, m, Moves(cfg, steps, m), Count(cfg, Crashing, steps, m),
      Scheduled(cfg, steps, m));
  }

  lemma StepMeasure(cfg: Config, s: State, step: Step, m: MessageId, moves: nat, crashes: nat, scheduled: nat)
    requires Undisturbed(cfg, s, m, moves, crashes, scheduled) && m in s.jobs
    requires !Hits(cfg, Retrying, s, step, m) && !Hits(cfg, Recovering, s, step, m)
    ensures m in Next(cfg, s, step).jobs
    ensures Measure(cfg, Next(cfg, s, step).jobs[m])
              + Bit(Hits(cfg, Claiming, s, step, m)) + Bit(Hits(cfg, Marking, s, step, m))
            <= Measure(cfg, s.jobs[m])
  {
    if Hits(cfg, Marking, s, step, m) {
      OnlyHolder(s.held, m, step.worker);
    }
  }

  /** A job that is not at rest can move: when it is pending any free worker can claim it once its next
      attempt is due, and when it is running its one holder can mark it, unless that worker crashed. */
  lemma NotAtRestCanMove(cfg: Config, steps: seq<Step>, m: MessageId, free: Worker)
    requires Requeues(cfg, steps, m) == 0 && Count(cfg, Crashing, steps, m) == 0
    requires m in Run(cfg, steps).jobs && free !in Run(cfg, steps).held
    ensures var s := Run(cfg, steps);
            match s.jobs[m].status
            case Pending =>
              Hits(cfg, Claiming, Next(cfg, s, Tick(s.jobs[m].nextAttemptAt.GetOr(0))), Claim(free, m), m)
            case Running => exists w :: Hits(cfg, Marking, s, Succeed(w), m) && Hits(cfg, Marking, s, Fail(w), m)
            case _ => AtRest(s.jobs[m])
  {
    RunUndisturbed(cfg, steps, m);
    var s := Run(cfg, steps);
    if s.jobs[m].status == Running {
      var w :| w in Holders(s.held, m);
      assert Hits(cfg, Marking, s, Succeed(w), m) && Hits(cfg, Marking, s, Fail(w), m);
    }
  }

  // ---- the waiting ----

  lemma {:induction false} BackoffSumGrows(cfg: Config, a: nat, b: nat)
    requires a <= b
    ensures BackoffSum(cfg, a) <= BackoffSum(cfg, b)
  {
    if a < b {
      BackoffSumGrows(cfg, a, b - 1);
    }
  }

  lemma {:induction false} BackoffSumBounded(cfg: Config, n: nat)
    ensures BackoffSum(cfg, n) <= n * cfg.backoffMaxMs
    ensures BackoffSum(cfg, n) <= cfg.backoffBaseMs * (Pow2(n) - 1)
  {
    if n > 0 {
      BackoffSumBounded(cfg, n - 1);
      Doubling(cfg.backoffBaseMs, Pow2(n - 1));
      Another(n - 1, cfg.backoffMaxMs);
    }
  }

  lemma Doubling(base: nat, p: nat)
    requires p >= 1
    ensures base * (2 * p - 1) == base * (p - 1) + base * p
  {
  }

  lemma Another(n: nat, x: nat)
    ensures (n + 1) * x == n * x + x
  {
  }

  /** The waiting scheduled for a job without retry or recovery is the sum of the delays of its failed
      attempts, and is bounded both by the capped and by the doubling delays. */
  lemma WaitingIsBounded(cfg: Config, steps: seq<Step>, m: MessageId)
    requires Requeues(cfg, steps, m) == 0 && m in Run(cfg, steps).jobs
    ensures var job := Run(cfg, steps).jobs[m];
            Scheduled(cfg, steps, m)
            == BackoffSum(cfg, if job.status == Pending then job.attemptCount else Max(0, job.attemptCount - 1))
    ensures Scheduled(cfg, steps, m) <= (MaxClaims(cfg) - 1) * cfg.backoffMaxMs
    ensures Scheduled(cfg, steps, m) <= cfg.backoffBaseMs * (Pow2(MaxClaims(cfg) - 1) - 1)
  {
    hide Scheduled, Run, Pow2, BackoffSum, Measure, Moves, Count, Holders;
    RunUndisturbed(cfg, steps, m);
    var job := Run(cfg, steps).jobs[m];
    BackoffSumGrows(cfg, if job.status == Pending then job.attemptCount else job.attemptCount - 1,
      MaxClaims(cfg) - 1);
    BackoffSumBounded(cfg, MaxClaims(cfg) - 1);
  }
}
