/**
 The relay job queue: the rows of relay_jobs, the updates the relay service makes to them, and the timed
 machine in which any number of workers make those updates. Each database statement is one step; a manual
 retry, which checks the status and then updates, is one step too.
 */
module RelayQueue {
  import opened Common

  /** Message and execution ids, as lower-case text. */
  type MessageId = string
  type ExecId = string
  type Worker = nat

  datatype Status = Pending | Running | Success | Dead

  /** A row of relay_jobs; the table has one row per message id. Times are in milliseconds. */
  datatype Job = Job(id: nat, sourceChainId: nat, destinationChainId: nat, execId: Option<ExecId>,
                     status: Status, attemptCount: nat, nextAttemptAt: Option<nat>, updatedAt: nat)

  type Jobs = map<MessageId, Job>

  datatype Config = Config(maxAttempts: nat, backoffBaseMs: nat, backoffMaxMs: nat, commandTimeoutMs: nat,
                           scanLimit: nat, batchSize: nat, runningStaleMs: nat)

  // ---- row updates ----

  function Pow2(n: nat): (r: nat)
    ensures r >= 1
  {
    if n == 0 then 1 else 2 * Pow2(n - 1)
  }

  /** The delay scheduled after a failed attempt. */
  function Backoff(cfg: Config, attempts: nat): nat {
    Min(cfg.backoffMaxMs, cfg.backoffBaseMs * Pow2(Max(0, attempts - 1)))
  }

  function Restated(job: Job, status: Status, nextAttemptAt: Option<nat>, now: nat): Job {
    job.(status := status, nextAttemptAt := nextAttemptAt, updatedAt := now)
  }

  function ClaimedRow(job: Job, now: nat): Job {
    Restated(job, Running, None, now).(attemptCount := job.attemptCount + 1)
  }

  function SucceededRow(job: Job, now: nat): Job {
    Restated(job, Success, None, now)
  }

  function DeadRow(job: Job, now: nat): Job {
    Restated(job, Dead, None, now)
  }

  /** The attempt count is the one the worker read when it claimed the job. */
  function FailedRow(cfg: Config, job: Job, attempts: nat, now: nat): Job {
    if attempts >= cfg.maxAttempts then DeadRow(job, now)
    else Restated(job, Pending, Some(now + Backoff(cfg, attempts)), now)
  }

  function RetriedRow(job: Job, now: nat): Job {
    Restated(job, Pending, None, now)
  }

  predicate Stale(cfg: Config, job: Job, now: nat) {
    job.status == Running && job.updatedAt + cfg.runningStaleMs < now
  }

  function Recovered(cfg: Config, jobs: Jobs, now: nat): Jobs {
    map m | m in jobs ::
      if Stale(cfg, jobs[m], now) then Restated(jobs[m], Pending, Some(now), now) else jobs[m]
  }

  /** The running jobs last touched longer ago than the stale limit. */
  ghost function StaleJobs(cfg: Config, jobs: Jobs, now: nat): set<MessageId> {
    set m | m in jobs && jobs[m].status == Running && jobs[m].updatedAt + cfg.runningStaleMs < now
  }

  predicate Runnable(job: Job, now: nat) {
    job.status == Pending && (job.nextAttemptAt.None? || job.nextAttemptAt.value <= now)
  }

  // ---- seeding ----

  /** A cross-chain initiation with no terminal event; targetChain is the payload's chain selector. */
  datatype UnresolvedRow = UnresolvedRow(messageId: MessageId, execId: Option<ExecId>, sourceChainId: nat,
                                         targetChain: Option<nat>)

  /** What is known about chains and executions: the selector map and the destinations of executions. */
  datatype Routes = Routes(selectorToChainId: map<nat, nat>, executions: map<ExecId, nat>)

  /** Chain id 0 is an unknown destination. */
  function ResolveDestination(routes: Routes, row: UnresolvedRow): nat {
    if row.targetChain.Some? && row.targetChain.value in routes.selectorToChainId
       && routes.selectorToChainId[row.targetChain.value] != 0
    then routes.selectorToChainId[row.targetChain.value]
    else if row.execId.Some? && row.execId.value in routes.executions then routes.executions[row.execId.value]
    else 0
  }

  function NewRow(row: UnresolvedRow, destination: nat, id: nat, now: nat): Job {
    Job(id, row.sourceChainId, destination, row.execId, Pending, 0, None, now)
  }

  predicate NeedsMetadata(job: Job, row: UnresolvedRow, destination: nat) {
    job.sourceChainId != row.sourceChainId || job.destinationChainId != destination || job.execId != row.execId
  }

  function WithMetadata(job: Job, row: UnresolvedRow, destination: nat, now: nat): Job {
    job.(sourceChainId := row.sourceChainId, destinationChainId := destination, execId := row.execId,
      updatedAt := now)
  }

  /** An unmapped selector, or one mapped to 0, leaves the destination to the execution; a row known to neither
      has none. */
  lemma DestinationMeans(routes: Routes, row: UnresolvedRow, chain: nat)
    ensures var mapped := row.targetChain.Some? && row.targetChain.value in routes.selectorToChainId
                          && routes.selectorToChainId[row.targetChain.value] != 0;
            && (mapped ==> (ResolveDestination(routes, row) == chain
                            <==> routes.selectorToChainId[row.targetChain.value] == chain))
            && (!mapped && row.execId.Some? && row.execId.value in routes.executions ==>
                  (ResolveDestination(routes, row) == chain <==> routes.executions[row.execId.value] == chain))
            && (!mapped && (row.execId.None? || row.execId.value !in routes.executions) ==>
                  ResolveDestination(routes, row) == 0)
  {
  }

  /** The first delay is the base, and each further one is twice that before, within the maximum. */
  lemma BackoffDoubles(cfg: Config, attempts: nat)
    requires attempts > 0
    ensures Backoff(cfg, 1) == Min(cfg.backoffMaxMs, cfg.backoffBaseMs)
    ensures Backoff(cfg, attempts + 1) == Min(cfg.backoffMaxMs, 2 * Backoff(cfg, attempts))
  {
    assert Pow2(0) == 1;
    assert cfg.backoffBaseMs * Pow2(attempts) == 2 * (cfg.backoffBaseMs * Pow2(attempts - 1));
  }

  /** What a claim, a mark, a recovery or a retry leaves alone. */
  ghost predicate SameMessage(before: Job, after: Job) {
    && after.id == before.id && after.execId == before.execId
    && after.sourceChainId == before.sourceChainId && after.destinationChainId == before.destinationChainId
  }

  ghost predicate SameRoutes(before: Jobs, after: Jobs) {
    after.Keys == before.Keys && forall m :: m in before ==> SameMessage(before[m], after[m])
  }

  lemma OneRowKeepsRoutes(before: Jobs, after: Jobs, m: MessageId)
    requires after.Keys == before.Keys && m in before && SameMessage(before[m], after[m])
    requires forall n :: n in after && n != m ==> after[n] == before[n]
    ensures SameRoutes(before, after)
  {
  }

  /** No job names a chain the service does not know. */
  ghost predicate AllKnown(jobs: Jobs, chains: set<nat>) {
    forall m :: m in jobs ==> jobs[m].sourceChainId in chains && jobs[m].destinationChainId in chains
  }

  lemma SameRoutesKeep(before: Jobs, after: Jobs, chains: set<nat>)
    requires SameRoutes(before, after)
    ensures |after| == |before| && (AllKnown(after, chains) <==> AllKnown(before, chains))
  {
    assert |before.Keys| == |before| && |after.Keys| == |after|;
    assert forall m :: m in before <==> m in after;
  }

  // ---- the machine ----

  /** A worker between its claim and its mark. */
  datatype Hold = Hold(job: MessageId, attempt: nat, claimedAt: nat)

  datatype State = State(jobs: Jobs, nextId: nat, held: map<Worker, Hold>, clock: nat)

  datatype Step =
    | Tick(ms: nat)
    | Seed(row: UnresolvedRow, destination: nat)
    | Recover
    | Claim(worker: Worker, job: MessageId)
    | Succeed(worker: Worker)
    | DeadLetter(worker: Worker)
    | Fail(worker: Worker)
    | Crash(worker: Worker)
    | Retry(job: MessageId)

  const INITIAL: State := State(map[], 1, map[], 0)

  function SeedRow(s: State, row: UnresolvedRow, destination: nat): State {
    if destination == 0 then s
    else if row.messageId !in s.jobs then
      s.(jobs := s.jobs[row.messageId := NewRow(row, destination, s.nextId, s.clock)], nextId := s.nextId + 1)
    else if NeedsMetadata(s.jobs[row.messageId], row, destination) then
      s.(jobs := s.jobs[row.messageId := WithMetadata(s.jobs[row.messageId], row, destination, s.clock)])
    else s
  }

  lemma SeedUnknown(s: State, row: UnresolvedRow)
    ensures SeedRow(s, row, 0) == s
  {
  }

  /** A row has brought its message a pending job, or its job up to date, and left all others alone. */
  ghost predicate Upserted(before: State, after: State, row: UnresolvedRow, destination: nat, inserted: bool) {
    && (inserted <==> row.messageId !in before.jobs) && after.jobs.Keys == before.jobs.Keys + {row.messageId}
    && (forall m :: m in before.jobs && m != row.messageId ==> after.jobs[m] == before.jobs[m])
    && var job := after.jobs[row.messageId];
       && job.sourceChainId == row.sourceChainId && job.destinationChainId == destination && job.execId == row.execId
       && if inserted then
            && job.id == before.nextId < after.nextId && job.status == Pending && job.attemptCount == 0
            && job.nextAttemptAt == None && job.updatedAt == before.clock
          else
            var known := before.jobs[row.messageId];
            && job.id == known.id && job.status == known.status && after.nextId == before.nextId
            && job.attemptCount == known.attemptCount && job.nextAttemptAt == known.nextAttemptAt
            && job.updatedAt == (if SameMessage(known, job) then known.updatedAt else before.clock)
  }

  predicate CanClaim(s: State, w: Worker, m: MessageId) {
    w !in s.held && m in s.jobs && Runnable(s.jobs[m], s.clock)
  }

  predicate CanRetry(s: State, m: MessageId) {
    m in s.jobs && s.jobs[m].status != Running
  }

  predicate Holds(s: State, w: Worker) {
    w in s.held && s.held[w].job in s.jobs
  }

  /** The worker writes a row for the job it holds, by id and whatever the status, and lets go of it. */
  function Marked(s: State, w: Worker, row: Job): State
    requires Holds(s, w)
  {
    s.(jobs := s.jobs[s.held[w].job := row], held := s.held - {w})
  }

  /** A step that is not possible changes nothing. */
  function Next(cfg: Config, s: State, step: Step): State {
    match step
    case Tick(ms) => s.(clock := s.clock + ms)
    case Seed(row, destination) => SeedRow(s, row, destination)
    case Recover => s.(jobs := Recovered(cfg, s.jobs, s.clock))
    case Claim(w, m) =>
      if CanClaim(s, w, m) then
        s.(jobs := s.jobs[m := ClaimedRow(s.jobs[m], s.clock)],
          held := s.held[w := Hold(m, s.jobs[m].attemptCount + 1, s.clock)])
      else s
    case Succeed(w) => if Holds(s, w) then Marked(s, w, SucceededRow(s.jobs[s.held[w].job], s.clock)) else s
    case DeadLetter(w) => if Holds(s, w) then Marked(s, w, DeadRow(s.jobs[s.held[w].job], s.clock)) else s
    case Fail(w) =>
      if Holds(s, w) then
        Marked(s, w, FailedRow(cfg, s.jobs[s.held[w].job], s.held[w].attempt, s.clock))
      else s
    case Crash(w) => s.(held := s.held - {w})
    case Retry(m) => if CanRetry(s, m) then s.(jobs := s.jobs[m := RetriedRow(s.jobs[m], s.clock)]) else s
  }

  /** The state after a run of steps. */
  function Exec(cfg: Config, s: State, steps: seq<Step>): State {
    if steps == [] then s else Next(cfg, Exec(cfg, s, steps[..|steps| - 1]), steps[|steps| - 1])
  }

  lemma ExecSnoc(cfg: Config, s: State, steps: seq<Step>, step: Step)
    ensures Exec(cfg, s, steps + [step]) == Next(cfg, Exec(cfg, s, steps), step)
  {
    assert (steps + [step])[..|steps|] == steps;
  }

  lemma {:induction false} ExecConcat(cfg: Config, s: State, a: seq<Step>, b: seq<Step>)
    ensures Exec(cfg, s, a + b) == Exec(cfg, Exec(cfg, s, a), b)
  {
    if b == [] {
      assert a + b == a;
    } else {
      ExecConcat(cfg, s, a, b[..|b| - 1]);
      assert a + b == (a + b[..|b| - 1]) + [b[|b| - 1]];
      ExecSnoc(cfg, s, a + b[..|b| - 1], b[|b| - 1]);
    }
  }

  /** Every hold is at most so many milliseconds old. */
  ghost predicate Fresh(s: State, holdMs: nat) {
    forall w :: w in s.held ==> s.clock - s.held[w].claimedAt <= holdMs
  }

  /** Throughout a run, no hold outlives the bound. */
  ghost predicate Timely(cfg: Config, s: State, steps: seq<Step>, holdMs: nat) {
    && Fresh(Exec(cfg, s, steps), holdMs)
    && (steps == [] || Timely(cfg, s, steps[..|steps| - 1], holdMs))
  }

  lemma {:induction false} TimelyConcat(cfg: Config, s: State, a: seq<Step>, b: seq<Step>, holdMs: nat)
    requires Timely(cfg, s, a, holdMs) && Timely(cfg, Exec(cfg, s, a), b, holdMs)
    ensures Timely(cfg, s, a + b, holdMs)
  {
    if b == [] {
      assert a + b == a;
    } else {
      TimelyConcat(cfg, s, a, b[..|b| - 1], holdMs);
      assert (a + b)[..|a + b| - 1] == a + b[..|b| - 1];
      ExecConcat(cfg, s, a, b);
    }
  }

  // ---- the service ----

  /** How the relay transaction behaves: whether it ends well, and after how long. */
  datatype Command = Command(ok: bool, takes: nat)

  datatype CommandResult = CommandResult(exitCode: nat, timedOut: bool, elapsed: nat)

  /** The relay raced against its timeout; a timed-out transaction is not cancelled. */
  function ExecuteRelayCommand(cfg: Config, command: Command): CommandResult {
    if command.takes < cfg.commandTimeoutMs then CommandResult(if command.ok then 0 else 1, false, command.takes)
    else CommandResult(1, true, cfg.commandTimeoutMs)
  }

  /** The commands among the first so many that end well before the timeout. */
  function TimelySuccesses(commands: nat -> Command, n: nat, timeoutMs: nat): (count: nat)
    ensures count <= n
  {
    if n == 0 then 0
    else TimelySuccesses(commands, n - 1, timeoutMs)
         + (if commands(n - 1).ok && commands(n - 1).takes < timeoutMs then 1 else 0)
  }

  datatype SeedTally = SeedTally(scanned: nat, upserted: nat, skipped: nat)
  datatype Tally = Tally(seeded: SeedTally, recovered: nat, processed: nat, success: nat, failed: nat, dead: nat)
  datatype RetryError = NotFound | CurrentlyRunning

  function SeedSteps(routes: Routes, rows: seq<UnresolvedRow>): seq<Step> {
    seq(|rows|, i requires 0 <= i < |rows| => Seed(rows[i], ResolveDestination(routes, rows[i])))
  }

  /** Rows without a known destination. */
  function Unroutable(routes: Routes, rows: seq<UnresolvedRow>): nat {
    if rows == [] then 0
    else Unroutable(routes, rows[..|rows| - 1])
         + (if ResolveDestination(routes, rows[|rows| - 1]) == 0 then 1 else 0)
  }

  /** The places among the rows where one without a known destination is. */
  ghost function UnroutablePlaces(routes: Routes, rows: seq<UnresolvedRow>): set<nat> {
    set i: nat | i < |rows| && ResolveDestination(routes, rows[i]) == 0
  }

  lemma {:induction false} SkippedCount(routes: Routes, rows: seq<UnresolvedRow>)
    ensures Unroutable(routes, rows) == |UnroutablePlaces(routes, rows)|
  {
    hide ResolveDestination;
    if rows == [] {
      assert UnroutablePlaces(routes, rows) == {};
    } else {
      SkippedCount(routes, rows[..|rows| - 1]);
      PlacesSnoc(routes, rows);
      assert |rows| - 1 !in UnroutablePlaces(routes, rows[..|rows| - 1]);
    }
  }

  lemma PlacesSnoc(routes: Routes, rows: seq<UnresolvedRow>)
    requires rows != []
    ensures UnroutablePlaces(routes, rows)
            == UnroutablePlaces(routes, rows[..|rows| - 1])
               + if ResolveDestination(routes, rows[|rows| - 1]) == 0 then {|rows| - 1} else {}
  {
    hide ResolveDestination;
    var front := rows[..|rows| - 1];
    forall i: nat
      ensures i in UnroutablePlaces(routes, rows)
              <==> i in UnroutablePlaces(routes, front)
                   || (i == |front| && ResolveDestination(routes, rows[|front|]) == 0)
    {
      assert i < |front| ==> rows[i] == front[i];
    }
  }

  lemma UnroutableSnoc(routes: Routes, rows: seq<UnresolvedRow>, i: nat)
    requires i < |rows|
    ensures Unroutable(routes, rows[..i + 1])
            == Unroutable(routes, rows[..i]) + (if ResolveDestination(routes, rows[i]) == 0 then 1 else 0)
  {
    assert rows[..i + 1][..i] == rows[..i];
  }

  lemma SeedsSnoc(cfg: Config, s: State, routes: Routes, rows: seq<UnresolvedRow>, i: nat)
    requires i < |rows|
    ensures |SeedSteps(routes, rows)| == |rows|
    ensures var steps := SeedSteps(routes, rows);
            Exec(cfg, s, steps[..i + 1])
            == SeedRow(Exec(cfg, s, steps[..i]), rows[i], ResolveDestination(routes, rows[i]))
  {
    hide Exec, SeedRow, ResolveDestination;
    var steps := SeedSteps(routes, rows);
    assert steps[..i + 1] == steps[..i] + [steps[i]];
    ExecSnoc(cfg, s, steps[..i], steps[i]);
  }

  /** How a mark ends an attempt: success, rescheduled failure, or dead letter. */
  function OutcomeOf(cfg: Config, before: State, step: Step): (nat, nat, nat) {
    match step
    case Succeed(w) => (1, 0, 0)
    case DeadLetter(w) => (0, 0, 1)
    case Fail(w) =>
      if w in before.held && before.held[w].attempt < cfg.maxAttempts then (0, 1, 0) else (0, 0, 1)
    case _ => (0, 0, 0)
  }

  function Outcomes(cfg: Config, s: State, steps: seq<Step>): (nat, nat, nat) {
    if steps == [] then (0, 0, 0)
    else
      Plus(Outcomes(cfg, s, steps[..|steps| - 1]),
           OutcomeOf(cfg, Exec(cfg, s, steps[..|steps| - 1]), steps[|steps| - 1]))
  }

  function Plus(x: (nat, nat, nat), y: (nat, nat, nat)): (nat, nat, nat) {
    (x.0 + y.0, x.1 + y.1, x.2 + y.2)
  }

  lemma {:induction false} OutcomesConcat(cfg: Config, s: State, a: seq<Step>, b: seq<Step>)
    ensures Outcomes(cfg, s, a + b) == Plus(Outcomes(cfg, s, a), Outcomes(cfg, Exec(cfg, s, a), b))
  {
    hide OutcomeOf, Exec, Outcomes;
    if b == [] {
      assert a + b == a;
      NoOutcomes(cfg, Exec(cfg, s, a));
    } else {
      var front, last := b[..|b| - 1], b[|b| - 1];
      OutcomesConcat(cfg, s, a, front);
      ExecConcat(cfg, s, a, front);
      assert a + b == (a + front) + [last] && b == front + [last];
      OutcomesSnoc(cfg, s, a + front, last);
      OutcomesSnoc(cfg, Exec(cfg, s, a), front, last);
    }
  }

  lemma NoOutcomes(cfg: Config, s: State)
    ensures Outcomes(cfg, s, []) == (0, 0, 0)
  {
  }

  lemma OutcomesSnoc(cfg: Config, s: State, steps: seq<Step>, step: Step)
    ensures Outcomes(cfg, s, steps + [step])
            == Plus(Outcomes(cfg, s, steps), OutcomeOf(cfg, Exec(cfg, s, steps), step))
  {
    assert (steps + [step])[..|steps|] == steps;
  }

  lemma {:induction false} NoHolds(cfg: Config, s: State, steps: seq<Step>, holdMs: nat)
    requires s.held == map[]
    requires forall i :: 0 <= i < |steps| ==> steps[i].Seed? || steps[i].Recover?
    ensures Exec(cfg, s, steps).held == map[] && Timely(cfg, s, steps, holdMs)
    ensures Outcomes(cfg, s, steps) == (0, 0, 0)
  {
    if steps != [] {
      NoHolds(cfg, s, steps[..|steps| - 1], holdMs);
    }
  }

  lemma IdleRun(cfg: Config, s: State, holdMs: nat)
    requires s.held == map[]
    ensures Exec(cfg, s, []) == s && Timely(cfg, s, [], holdMs) && Outcomes(cfg, s, []) == (0, 0, 0)
  {
  }

  lemma OpeningRuns(cfg: Config, s: State, routes: Routes, rows: seq<UnresolvedRow>)
    requires s.held == map[]
    ensures var steps := [Recover] + SeedSteps(routes, rows);
            && Exec(cfg, s, steps) == Exec(cfg, Next(cfg, s, Recover), SeedSteps(routes, rows))
            && Timely(cfg, s, steps, cfg.commandTimeoutMs) && Outcomes(cfg, s, steps) == (0, 0, 0)
  {
    assert [Recover][..0] == [];
    assert Exec(cfg, s, [Recover]) == Next(cfg, s, Recover);
    ExecConcat(cfg, s, [Recover], SeedSteps(routes, rows));
    NoHolds(cfg, s, [Recover] + SeedSteps(routes, rows), cfg.commandTimeoutMs);
  }

  lemma ItemAppended(cfg: Config, s: State, steps: seq<Step>, item: seq<Step>, holdMs: nat)
    requires Timely(cfg, s, steps, holdMs) && Timely(cfg, Exec(cfg, s, steps), item, holdMs)
    ensures Exec(cfg, s, steps + item) == Exec(cfg, Exec(cfg, s, steps), item)
    ensures Outcomes(cfg, s, steps + item) == Plus(Outcomes(cfg, s, steps), Outcomes(cfg, Exec(cfg, s, steps), item))
    ensures Timely(cfg, s, steps + item, holdMs)
  {
    ExecConcat(cfg, s, steps, item);
    OutcomesConcat(cfg, s, steps, item);
    TimelyConcat(cfg, s, steps, item, holdMs);
  }

  // ---- one job of a batch ----

  /** What a worker does with a job it can claim: claim it, run the command, and mark the result. */
  function ItemSteps(m: MessageId, supported: bool, r: CommandResult): seq<Step> {
    if !supported then [Claim(0, m), DeadLetter(0)]
    else [Claim(0, m), Tick(r.elapsed), if r.exitCode == 0 && !r.timedOut then Succeed(0) else Fail(0)]
  }

  /** The row after the attempt, and how it counts; the job is the row as claimed. */
  function AttemptRow(cfg: Config, job: Job, supported: bool, r: CommandResult, claimedAt: nat): Job {
    if !supported then DeadRow(job, claimedAt)
    else if r.exitCode == 0 && !r.timedOut then SucceededRow(job, claimedAt + r.elapsed)
    else FailedRow(cfg, job, job.attemptCount, claimedAt + r.elapsed)
  }

  function AttemptOutcome(cfg: Config, job: Job, supported: bool, r: CommandResult): (o: (nat, nat, nat))
    ensures o.0 + o.1 + o.2 == 1
  {
    if !supported then (0, 0, 1)
    else if r.exitCode == 0 && !r.timedOut then (1, 0, 0)
    else if job.attemptCount < cfg.maxAttempts then (0, 1, 0) else (0, 0, 1)
  }

  lemma ItemRuns(cfg: Config, s: State, m: MessageId, supported: bool, r: CommandResult)
    requires s.held == map[] && CanClaim(s, 0, m)
    ensures Exec(cfg, s, ItemSteps(m, supported, r))
            == s.(jobs := s.jobs[m := AttemptRow(cfg, ClaimedRow(s.jobs[m], s.clock), supported, r, s.clock)],
                 clock := s.clock + if supported then r.elapsed else 0)
    ensures Outcomes(cfg, s, ItemSteps(m, supported, r))
            == AttemptOutcome(cfg, ClaimedRow(s.jobs[m], s.clock), supported, r)
  {
    hide FailedRow;
    var claim := Claim(0, m);
    var s1 := Next(cfg, s, claim);
    assert [claim][..0] == [];
    assert Exec(cfg, s, [claim]) == s1 && Outcomes(cfg, s, [claim]) == (0, 0, 0);
    if !supported {
      var steps := [claim, DeadLetter(0)];
      assert steps[..1] == [claim];
      assert s1.held - {0} == map[];
    } else {
      var tick, last := Tick(r.elapsed), if r.exitCode == 0 && !r.timedOut then Succeed(0) else Fail(0);
      var steps := [claim, tick, last];
      assert steps[..2] == [claim, tick] && [claim, tick][..1] == [claim];
      assert s1.held - {0} == map[];
    }
  }

  lemma ItemTimely(cfg: Config, s: State, m: MessageId, supported: bool, r: CommandResult, holdMs: nat)
    requires s.held == map[] && CanClaim(s, 0, m) && r.elapsed <= holdMs
    ensures Timely(cfg, s, ItemSteps(m, supported, r), holdMs)
  {
    hide FailedRow;
    var claim, tick := Claim(0, m), Tick(r.elapsed);
    var s1 := Next(cfg, s, claim);
    assert [claim][..0] == [];
    assert Exec(cfg, s, []) == s && Timely(cfg, s, [], holdMs);
    assert Exec(cfg, s, [claim]) == s1;
    assert s1.held - {0} == map[];
    assert Timely(cfg, s, [claim], holdMs);
    if !supported {
      assert ItemSteps(m, supported, r)[..1] == [claim];
    } else {
      assert [claim, tick][..1] == [claim];
      assert Timely(cfg, s, [claim, tick], holdMs);
      assert ItemSteps(m, supported, r)[..2] == [claim, tick];
    }
  }

  /** The order in which runnable jobs are claimed: no next attempt first, then the earliest, then by id. */
  predicate Before(a: Job, b: Job) {
    match (a.nextAttemptAt, b.nextAttemptAt)
    case (None, Some(_)) => true
    case (Some(_), None) => false
    case (None, None) => a.id < b.id
    case (Some(x), Some(y)) => x < y || (x == y && a.id < b.id)
  }

  /** The time from which a job is due; one without a next attempt is due before time 0. */
  ghost function DueFrom(job: Job): int {
    match job.nextAttemptAt
    case None => -1
    case Some(at) => at
  }

  ghost predicate IsFirst(jobs: Jobs, m: MessageId, now: nat) {
    && m in jobs && Runnable(jobs[m], now)
    && forall n :: n in jobs && Runnable(jobs[n], now) ==> !Before(jobs[n], jobs[m])
  }

  ghost predicate DistinctIds(jobs: Jobs) {
    forall m, n :: m in jobs && n in jobs && jobs[m].id == jobs[n].id ==> m == n
  }

  ghost predicate Numbered(jobs: Jobs, nextId: nat) {
    DistinctIds(jobs) && forall m :: m in jobs ==> jobs[m].id < nextId
  }

  lemma UpdateKeepsNumbers(jobs: Jobs, nextId: nat, m: MessageId, row: Job)
    requires Numbered(jobs, nextId) && m in jobs && row.id == jobs[m].id
    ensures Numbered(jobs[m := row], nextId)
  {
  }

  lemma InsertKeepsNumbers(jobs: Jobs, nextId: nat, m: MessageId, row: Job)
    requires Numbered(jobs, nextId) && m !in jobs && row.id == nextId
    ensures Numbered(jobs[m := row], nextId + 1)
  {
  }

  lemma SameRoutesKeepNumbers(before: Jobs, after: Jobs, nextId: nat)
    requires Numbered(before, nextId) && SameRoutes(before, after)
    ensures Numbered(after, nextId)
  {
    assert forall m :: m in after ==> SameMessage(before[m], after[m]);
  }

  class RelayService {
    const cfg: Config
    const supportedChains: set<nat>
    var jobs: Jobs
    var nextId: nat
    var clock: nat

    ghost predicate Valid()
      reads this
    {
      Numbered(jobs, nextId)
    }

    /** What other workers hold plays no part in what one worker writes. */
    function Current(): State
      reads this
    {
      State(jobs, nextId, map[], clock)
    }

    constructor (cfg: Config, supportedChains: set<nat>)
      ensures Valid() && Current() == INITIAL && this.cfg == cfg && this.supportedChains == supportedChains
    {
      this.cfg := cfg;
      this.supportedChains := supportedChains;
      jobs, nextId, clock := map[], 1, 0;
    }

    /** Inserts the job of a row, or brings its metadata up to date. */
    method UpsertJob(row: UnresolvedRow, destination: nat) returns (inserted: bool)
      requires Valid() && destination != 0
      modifies this`jobs, this`nextId
      ensures Valid() && Current() == SeedRow(old(Current()), row, destination)
      ensures |jobs| == |old(jobs)| + (if inserted then 1 else 0)
      ensures Upserted(old(Current()), Current(), row, destination, inserted)
    {
      if row.messageId !in jobs {
        InsertKeepsNumbers(jobs, nextId, row.messageId, NewRow(row, destination, nextId, clock));
        jobs := jobs[row.messageId := NewRow(row, destination, nextId, clock)];
        nextId := nextId + 1;
        return true;
      }
      if NeedsMetadata(jobs[row.messageId], row, destination) {
        UpdateKeepsNumbers(jobs, nextId, row.messageId,
          WithMetadata(jobs[row.messageId], row, destination, clock));
        jobs := jobs[row.messageId := WithMetadata(jobs[row.messageId], row, destination, clock)];
      }
      inserted := false;
    }

    method SeedPendingJobsFromDb(routes: Routes, rows: seq<UnresolvedRow>) returns (tally: SeedTally)
      requires Valid()
      modifies this`jobs, this`nextId
      ensures Valid()
      ensures Current() == Exec(cfg, old(Current()), SeedSteps(routes, rows))
      ensures tally.scanned == |rows| && tally.skipped == Unroutable(routes, rows)
      ensures tally.upserted == |jobs| - |old(jobs)|
    {
      ghost var steps := SeedSteps(routes, rows);
      assert steps[..0] == [] && rows[..0] == [];
      assert Current() == Exec(cfg, old(Current()), steps[..0]) && Unroutable(routes, rows[..0]) == 0;
      hide Exec, ResolveDestination, Numbered, SeedRow, Unroutable, Upserted, SeedSteps;
      var upserted, skipped := 0, 0;
      for i := 0 to |rows|
        invariant Valid()
        invariant Current() == Exec(cfg, old(Current()), steps[..i])
        invariant skipped == Unroutable(routes, rows[..i])
        invariant upserted == |jobs| - |old(jobs)|
      {
        var row := rows[i];
        var destination := ResolveDestination(routes, row);
        UnroutableSnoc(routes, rows, i);
        SeedsSnoc(cfg, old(Current()), routes, rows, i);
        if destination == 0 {
          skipped := skipped + 1;
          SeedUnknown(Current(), row);
          continue;
        }
        var inserted := UpsertJob(row, destination);
        if inserted {
          upserted := upserted + 1;
        }
      }
      assert steps[..|rows|] == steps && rows[..|rows|] == rows;
      tally := SeedTally(|rows|, upserted, skipped);
    }

    method RecoverStaleRunningJobs() returns (recovered: nat)
      requires Valid()
      modifies this`jobs
      ensures Valid()
      ensures Current() == Next(cfg, old(Current()), Recover)
      ensures recovered == |StaleJobs(cfg, old(jobs), clock)|
      ensures SameRoutes(old(jobs), jobs)
      ensures forall m :: m in jobs ==>
                var before, after := old(jobs)[m], jobs[m];
                && after.attemptCount == before.attemptCount
                && if before.status == Running && before.updatedAt + cfg.runningStaleMs < clock
                   then after.status == Pending && after.nextAttemptAt == Some(clock) && after.updatedAt == clock
                   else after == before
    {
      hide Numbered;
      ghost var before := jobs;
      var stale := set m | m in jobs && Stale(cfg, jobs[m], clock);
      recovered := |stale|;
      assert stale == StaleJobs(cfg, jobs, clock);
      jobs := map m | m in jobs ::
        if m in stale then Restated(jobs[m], Pending, Some(clock), clock) else jobs[m];
      SameRoutesKeepNumbers(before, jobs, nextId);
    }

    /** Claims the first runnable job and returns the row as the worker now sees it. */
    method ClaimNextRunnableJob() returns (claimed: Option<(MessageId, Job)>)
      requires Valid()
      modifies this`jobs
      ensures Valid()
      ensures claimed.None? <==> forall m :: m in old(jobs) ==> !Runnable(old(jobs)[m], clock)
      ensures claimed.None? ==> jobs == old(jobs)
      ensures match claimed
              case None => true
              case Some((m, job)) =>
                && IsFirst(old(jobs), m, clock) && m in jobs && job == jobs[m]
                && jobs == old(jobs)[m := ClaimedRow(old(jobs)[m], clock)]
                && job.status == Running && job.nextAttemptAt == None && job.updatedAt == clock
                && job.attemptCount == old(jobs)[m].attemptCount + 1 && SameMessage(old(jobs)[m], job)
                && old(jobs)[m].status == Pending && DueFrom(old(jobs)[m]) <= clock
                && forall n :: n in old(jobs) && old(jobs)[n].status == Pending && DueFrom(old(jobs)[n]) <= clock ==>
                     var first, other := old(jobs)[m], old(jobs)[n];
                     DueFrom(first) < DueFrom(other) || (DueFrom(first) == DueFrom(other) && first.id <= other.id)
    {
      hide Numbered;
      var runnable := set m | m in jobs && Runnable(jobs[m], clock);
      if runnable == {} {
        assert forall m :: m in jobs && Runnable(jobs[m], clock) ==> m in runnable;
        return None;
      }
      FirstExists(jobs, runnable);
      var m :| m in runnable && forall n :: n in runnable ==> !Before(jobs[n], jobs[m]);
      assert IsFirst(jobs, m, clock);
      UpdateKeepsNumbers(jobs, nextId, m, ClaimedRow(jobs[m], clock));
      jobs := jobs[m := ClaimedRow(jobs[m], clock)];
      claimed := Some((m, jobs[m]));
    }

    method MarkJobSuccess(m: MessageId)
      requires Valid() && m in jobs
      modifies this`jobs
      ensures Valid() && jobs.Keys == old(jobs).Keys
      ensures forall n :: n in jobs && n != m ==> jobs[n] == old(jobs)[n]
      ensures var before, after := old(jobs)[m], jobs[m];
              && after.status == Success && after.nextAttemptAt == None && after.updatedAt == clock
              && after.attemptCount == before.attemptCount && SameMessage(before, after)
    {
      jobs := jobs[m := SucceededRow(jobs[m], clock)];
    }

    method MarkJobDead(m: MessageId)
      requires Valid() && m in jobs
      modifies this`jobs
      ensures Valid() && jobs.Keys == old(jobs).Keys
      ensures forall n :: n in jobs && n != m ==> jobs[n] == old(jobs)[n]
      ensures var before, after := old(jobs)[m], jobs[m];
              && after.status == Dead && after.nextAttemptAt == None && after.updatedAt == clock
              && after.attemptCount == before.attemptCount && SameMessage(before, after)
    {
      jobs := jobs[m := DeadRow(jobs[m], clock)];
    }

    method MarkJobFailure(m: MessageId, job: Job) returns (isDead: bool)
      requires Valid() && m in jobs
      modifies this`jobs
      ensures Valid() && jobs == old(jobs)[m := FailedRow(cfg, old(jobs)[m], job.attemptCount, clock)]
      ensures isDead <==> jobs[m].status == Dead
      ensures isDead <==> job.attemptCount >= cfg.maxAttempts
      ensures var before, after := old(jobs)[m], jobs[m];
              && after.updatedAt == clock && after.attemptCount == before.attemptCount && SameMessage(before, after)
              && if isDead then after.nextAttemptAt == None
                 else after.status == Pending && after.nextAttemptAt == Some(clock + Backoff(cfg, job.attemptCount))
    {
      var attempts := job.attemptCount;
      if attempts >= cfg.maxAttempts {
        MarkJobDead(m);
        return true;
      }
      var backoffMs := Min(cfg.backoffMaxMs, cfg.backoffBaseMs * Pow2(Max(0, attempts - 1)));
      jobs := jobs[m := Restated(jobs[m], Pending, Some(clock + backoffMs), clock)];
      isDead := false;
    }

    predicate Supported(job: Job) {
      job.sourceChainId in supportedChains && job.destinationChainId in supportedChains
    }

    /** One claimed job: executed when both its chains are known, then marked. */
    method RelayClaimed(m: MessageId, job: Job, command: Command) returns (outcome: (nat, nat, nat))
      requires Valid() && m in jobs && jobs[m] == job
      modifies this`jobs, this`clock
      ensures Valid()
      ensures var r := ExecuteRelayCommand(cfg, command);
              && jobs == old(jobs)[m := AttemptRow(cfg, job, Supported(job), r, old(clock))]
              && clock == old(clock) + (if Supported(job) then r.elapsed else 0)
              && outcome == AttemptOutcome(cfg, job, Supported(job), r)
      ensures SameRoutes(old(jobs), jobs) && forall n :: n in jobs && n != m ==> jobs[n] == old(jobs)[n]
      ensures var known := job.sourceChainId in supportedChains && job.destinationChainId in supportedChains;
              var endsWell := command.ok && command.takes < cfg.commandTimeoutMs;
              && clock == old(clock) + (if known then Min(command.takes, cfg.commandTimeoutMs) else 0)
              && jobs[m].attemptCount == job.attemptCount && jobs[m].updatedAt == clock
              && (jobs[m].status == Success <==> known && endsWell)
              && (jobs[m].status == Pending <==> known && !endsWell && job.attemptCount < cfg.maxAttempts)
              && (jobs[m].status == Dead <==> !known || (!endsWell && job.attemptCount >= cfg.maxAttempts))
              && jobs[m].nextAttemptAt == (if jobs[m].status == Pending then
                                             Some(clock + Backoff(cfg, job.attemptCount)) else None)
              && (outcome == (1, 0, 0) <==> jobs[m].status == Success)
              && (outcome == (0, 1, 0) <==> jobs[m].status == Pending)
              && (outcome == (0, 0, 1) <==> jobs[m].status == Dead)
    {
      hide Numbered, SameRoutes;
      ghost var before := jobs;
      if !Supported(job) {
        MarkJobDead(m);
        OneRowKeepsRoutes(before, jobs, m);
        return (0, 0, 1);
      }
      var result := ExecuteRelayCommand(cfg, command);
      clock := clock + result.elapsed;
      if result.exitCode == 0 && !result.timedOut {
        MarkJobSuccess(m);
        OneRowKeepsRoutes(before, jobs, m);
        return (1, 0, 0);
      }
      var isDead := MarkJobFailure(m, job);
      OneRowKeepsRoutes(before, jobs, m);
      outcome := if isDead then (0, 0, 1) else (0, 1, 0);
    }

    /** Claims and works off the next runnable job, if there is one. */
    method RelayNext(command: Command) returns (outcome: Option<(nat, nat, nat)>, ghost item: seq<Step>)
      requires Valid()
      modifies this`jobs, this`clock
      ensures Valid() && Current() == Exec(cfg, old(Current()), item)
      ensures Timely(cfg, old(Current()), item, cfg.commandTimeoutMs)
      ensures Outcomes(cfg, old(Current()), item) == outcome.GetOr((0, 0, 0))
      ensures outcome.Some? ==> outcome.value.0 + outcome.value.1 + outcome.value.2 == 1
      ensures outcome.None? ==> forall m :: m in jobs ==> !Runnable(jobs[m], clock)
      ensures SameRoutes(old(jobs), jobs)
      ensures var endsWell := command.ok && command.takes < cfg.commandTimeoutMs;
              && (outcome.Some? && outcome.value.0 > 0 ==> endsWell)
              && (outcome.Some? && AllKnown(jobs, supportedChains) && endsWell ==> outcome.value.0 == 1)
    {
      hide Exec, Outcomes, Timely, ItemSteps, Numbered, AttemptRow, AttemptOutcome;
      ghost var before := Current();
      var claimed := ClaimNextRunnableJob();
      if claimed.None? {
        IdleRun(cfg, before, cfg.commandTimeoutMs);
        return None, [];
      }
      var (m, job) := claimed.value;
      var marked := RelayClaimed(m, job, command);
      outcome := Some(marked);
      ghost var r := ExecuteRelayCommand(cfg, command);
      item := ItemSteps(m, Supported(job), r);
      assert Exec(cfg, before, item) == Current() && Outcomes(cfg, before, item) == marked by {
        ItemRuns(cfg, before, m, Supported(job), r);
      }
      ItemTimely(cfg, before, m, Supported(job), r, cfg.commandTimeoutMs);
    }

    /** The jobs of one batch, as many as there are to claim. */
    method RelayBatch(commands: nat -> Command)
      returns (processed: nat, marks: (nat, nat, nat), ghost steps: seq<Step>)
      requires Valid()
      modifies this`jobs, this`clock
      ensures Valid() && Current() == Exec(cfg, old(Current()), steps)
      ensures Timely(cfg, old(Current()), steps, cfg.commandTimeoutMs)
      ensures Outcomes(cfg, old(Current()), steps) == marks
      ensures processed == marks.0 + marks.1 + marks.2 <= cfg.batchSize
      ensures processed < cfg.batchSize ==> forall m :: m in jobs ==> !Runnable(jobs[m], clock)
      ensures |jobs| == |old(jobs)| && (AllKnown(jobs, supportedChains) <==> AllKnown(old(jobs), supportedChains))
      ensures marks.0 <= TimelySuccesses(commands, processed, cfg.commandTimeoutMs)
      ensures AllKnown(jobs, supportedChains) ==>
                marks.0 == TimelySuccesses(commands, processed, cfg.commandTimeoutMs)
    {
      hide Exec, Outcomes, Timely, Numbered, AllKnown, SameRoutes, Runnable;
      processed, marks, steps := 0, (0, 0, 0), [];
      IdleRun(cfg, Current(), cfg.commandTimeoutMs);
      while processed < cfg.batchSize
        invariant Valid() && Current() == Exec(cfg, old(Current()), steps)
        invariant Timely(cfg, old(Current()), steps, cfg.commandTimeoutMs)
        invariant Outcomes(cfg, old(Current()), steps) == marks
        invariant processed == marks.0 + marks.1 + marks.2 <= cfg.batchSize
        invariant |jobs| == |old(jobs)|
        invariant AllKnown(jobs, supportedChains) <==> AllKnown(old(jobs), supportedChains)
        invariant marks.0 <= TimelySuccesses(commands, processed, cfg.commandTimeoutMs)
        invariant AllKnown(jobs, supportedChains) ==>
                    marks.0 == TimelySuccesses(commands, processed, cfg.commandTimeoutMs)
      {
        ghost var item, before;
        var outcome;
        before := jobs;
        outcome, item := RelayNext(commands(processed));
        SameRoutesKeep(before, jobs, supportedChains);
        ItemAppended(cfg, old(Current()), steps, item, cfg.commandTimeoutMs);
        steps := steps + item;
        if outcome.None? {
          return;
        }
        processed := processed + 1;
        marks := Plus(marks, outcome.value);
      }
    }

    /** One tick of the worker: recover, seed, then up to a batch of jobs. The trace shows that whatever the
        commands do, it makes only steps of the machine and holds no job longer than the timeout. */
    method RunRelayWorkerOnce(routes: Routes, rows: seq<UnresolvedRow>, commands: nat -> Command)
      returns (tally: Tally, ghost steps: seq<Step>)
      requires Valid()
      modifies this`jobs, this`nextId, this`clock
      ensures Valid() && Current() == Exec(cfg, old(Current()), steps)
      ensures [Recover] + SeedSteps(routes, rows) <= steps
      ensures Timely(cfg, old(Current()), steps, cfg.commandTimeoutMs)
      ensures (tally.success, tally.failed, tally.dead) == Outcomes(cfg, old(Current()), steps)
      ensures tally.processed == tally.success + tally.failed + tally.dead <= cfg.batchSize
      ensures tally.processed < cfg.batchSize ==> forall m :: m in jobs ==> !Runnable(jobs[m], clock)
      ensures tally.success <= TimelySuccesses(commands, tally.processed, cfg.commandTimeoutMs)
      ensures AllKnown(jobs, supportedChains) ==>
                tally.success == TimelySuccesses(commands, tally.processed, cfg.commandTimeoutMs)
      ensures tally.recovered == |StaleJobs(cfg, old(jobs), old(clock))|
      ensures tally.seeded.scanned == |rows| && tally.seeded.upserted == |jobs| - |old(jobs)|
      ensures tally.seeded.skipped == Unroutable(routes, rows)
    {
      hide Exec, Outcomes, Timely, SeedSteps, Numbered, Unroutable, AllKnown, SameRoutes, Runnable, StaleJobs;
      ghost var opening := [Recover] + SeedSteps(routes, rows);
      OpeningRuns(cfg, Current(), routes, rows);
      var recovered := RecoverStaleRunningJobs();
      assert |jobs| == |old(jobs)| by { SameRoutesKeep(old(jobs), jobs, supportedChains); }
      var seeded := SeedPendingJobsFromDb(routes, rows);
      var processed, marks;
      ghost var batch;
      processed, marks, batch := RelayBatch(commands);
      ItemAppended(cfg, old(Current()), opening, batch, cfg.commandTimeoutMs);
      steps := opening + batch;
      tally := Tally(seeded, recovered, processed, marks.0, marks.1, marks.2);
    }

    method RetryRelayJob(m: MessageId) returns (r: Result<Job, RetryError>)
      requires Valid()
      modifies this`jobs
      ensures Valid() && Current() == Next(cfg, old(Current()), Retry(m))
      ensures r == (if m !in old(jobs) then Err(NotFound)
                    else if old(jobs)[m].status == Running then Err(CurrentlyRunning)
                    else Ok(jobs[m]))
      ensures r.Err? ==> jobs == old(jobs)
      ensures r.Ok? ==> m in jobs && SameRoutes(old(jobs), jobs) && jobs[m].status == Pending
                        && jobs[m].nextAttemptAt == None && jobs[m].updatedAt == clock
                        && jobs[m].attemptCount == old(jobs)[m].attemptCount
                        && forall n :: n in jobs && n != m ==> jobs[n] == old(jobs)[n]
    {
      if m !in jobs {
        return Err(NotFound);
      }
      if jobs[m].status == Running {
        return Err(CurrentlyRunning);
      }
      jobs := jobs[m := RetriedRow(jobs[m], clock)];
      r := Ok(jobs[m]);
    }
  }

  /** A finite non-empty set of jobs has one that no other goes before. */
  lemma {:induction false} FirstExists(jobs: Jobs, candidates: set<MessageId>)
    requires candidates != {} && candidates <= jobs.Keys
    ensures exists m :: m in candidates && forall n :: n in candidates ==> !Before(jobs[n], jobs[m])
    decreases |candidates|
  {
    var c :| c in candidates;
    var rest := candidates - {c};
    assert forall n :: n in candidates ==> n == c || n in rest;
    if rest != {} {
      FirstExists(jobs, rest);
      var m :| m in rest && forall n :: n in rest ==> !Before(jobs[n], jobs[m]);
      var best := if Before(jobs[c], jobs[m]) then c else m;
      assert best in candidates && forall n :: n in candidates ==> !Before(jobs[n], jobs[best]);
    }
  }

  /** The claim order leaves no choice: at most one job is first. */
  lemma FirstIsUnique(jobs: Jobs, m: MessageId, n: MessageId, now: nat)
    requires DistinctIds(jobs) && IsFirst(jobs, m, now) && IsFirst(jobs, n, now)
    ensures m == n
  {
    assert !Before(jobs[m], jobs[n]) && !Before(jobs[n], jobs[m]);
  }
}
