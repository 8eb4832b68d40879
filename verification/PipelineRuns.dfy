/**
 Indexers and relay workers running together, each scan of a worker taken at one moment and seeded row by row
 at later ones.
 */
module PipelineRuns {
  import opened Common
  import opened AbiWords
  import opened EventDecoder
  import opened Pipeline
  import I = RescueIndexer
  import T = IndexerTheorems
  import R = RelayQueue

  datatype Setup = Setup(world: I.World, settings: I.Settings, cfg: R.Config, selectors: map<nat, nat>, before: Order)

  /** What the indexers stored, the queue, and the scanned rows each worker has yet to seed. */
  datatype System = System(index: I.State, relay: R.State, scanned: map<R.Worker, seq<R.UnresolvedRow>>)

  datatype Action =
    | Index(step: I.Step)
    | ScanRows(worker: R.Worker)
    | SeedNext(worker: R.Worker, executions: map<R.ExecId, nat>)
    | Relay(update: R.Step)

  const START: System := System(I.INITIAL, R.INITIAL, map[])

  ghost function Act(setup: Setup, s: System, action: Action): System
    requires TotalOrder(setup.before)
  {
    match action
    case Index(step) => s.(index := I.Next(setup.world, setup.settings, s.index, step))
    case ScanRows(w) => s.(scanned := s.scanned[w := Scan(s.index.table, setup.before, setup.cfg.scanLimit)])
    case SeedNext(w, executions) =>
      if w !in s.scanned || s.scanned[w] == [] then s
      else
        var row := s.scanned[w][0];
        var destination := R.ResolveDestination(R.Routes(setup.selectors, executions), row);
        s.(relay := R.Next(setup.cfg, s.relay, R.Seed(row, destination)), scanned := s.scanned[w := s.scanned[w][1..]])
    case Relay(step) => if step.Seed? then s else s.(relay := R.Next(setup.cfg, s.relay, step))
  }

  ghost function RunFrom(setup: Setup, s: System, actions: seq<Action>): System
    requires TotalOrder(setup.before)
  {
    if actions == [] then s
    else Act(setup, RunFrom(setup, s, actions[..|actions| - 1]), actions[|actions| - 1])
  }

  ghost function Run(setup: Setup, actions: seq<Action>): System
    requires TotalOrder(setup.before)
  {
    RunFrom(setup, START, actions)
  }

  lemma {:induction false} RunOn(setup: Setup, s: System, a: seq<Action>, b: seq<Action>)
    requires TotalOrder(setup.before)
    ensures RunFrom(setup, s, a + b) == RunFrom(setup, RunFrom(setup, s, a), b)
  {
    hide Act, TotalOrder;
    if b == [] {
      assert a + b == a;
    } else {
      RunOn(setup, s, a, b[..|b| - 1]);
      assert (a + b)[..|a + b| - 1] == a + b[..|b| - 1];
    }
  }

  // ---- where messages come from ----

  /** A chain emitted the log that initiated the message, with this execution id. */
  ghost predicate Initiated(world: I.World, m: Message, chain: I.ChainId, execId: Option<string>) {
    && chain in world
    && exists log :: log in world[chain].logs && Initiates(log, m, execId)
  }

  predicate Initiates(log: RawLog, m: Message, execId: Option<string>) {
    match DecodeIndexedEvent(log)
    case Ok(Some(e)) =>
      e.eventName == CrossChainInitiated && e.messageId.Some? && Lower(e.messageId.value) == m
      && LowerText(e.execId) == execId
    case _ => false
  }

  ghost predicate RowsInitiated(world: I.World, rows: seq<R.UnresolvedRow>) {
    forall i :: 0 <= i < |rows| ==> Initiated(world, rows[i].messageId, rows[i].sourceChainId, rows[i].execId)
  }

  ghost predicate JobsInitiated(world: I.World, jobs: R.Jobs) {
    forall m :: m in jobs ==> Initiated(world, m, jobs[m].sourceChainId, jobs[m].execId)
  }

  ghost predicate Traceable(world: I.World, s: System) {
    && T.Sound(world, s.index)
    && JobsInitiated(world, s.relay.jobs)
    && forall w :: w in s.scanned ==> RowsInitiated(world, s.scanned[w])
  }

  lemma RowIsInitiated(world: I.World, table: I.Table, key: I.Key)
    requires T.RowsAreLogs(world, table) && key in table.rows && InitiatedRow(table.rows[key])
    ensures var row := ScannedRow(table.rows[key]);
            Initiated(world, row.messageId, row.sourceChainId, row.execId)
  {
    hide DecodeIndexedEvent;
    var row := table.rows[key];
    assert T.RowIsLog(world, key, row);
    var log :| log in world[key.0].logs && I.KeyOf(key.0, log) == key && T.IsRowOf(row, key.0, log);
    assert Initiates(log, Lower(row.event.messageId.value), LowerText(row.event.execId));
  }

  lemma RowIsLower(row: I.Row, c: I.ChainId, log: RawLog)
    requires T.IsRowOf(row, c, log) && row.event.messageId.Some?
    ensures Lower(row.event.messageId.value) == row.event.messageId.value
  {
    hide DecodeIndexedEvent, Lower;
    IdsAreLower(log);
  }

  lemma RowsAreLower(world: I.World, table: I.Table)
    requires T.RowsAreLogs(world, table)
    ensures IdsLower(table)
  {
    hide DecodeIndexedEvent, Lower, T.IsRowOf, I.KeyOf;
    forall key | key in table.rows && table.rows[key].event.messageId.Some?
      ensures Lower(table.rows[key].event.messageId.value) == table.rows[key].event.messageId.value
    {
      assert T.RowIsLog(world, key, table.rows[key]);
      var log :| log in world[key.0].logs && T.IsRowOf(table.rows[key], key.0, log);
      RowIsLower(table.rows[key], key.0, log);
    }
  }

  lemma ScanIsInitiated(world: I.World, table: I.Table, before: Order, limit: nat)
    requires T.RowsAreLogs(world, table) && TotalOrder(before)
    ensures RowsInitiated(world, Scan(table, before, limit))
  {
    RowsAreLower(world, table);
    var rows := Scan(table, before, limit);
    forall i | 0 <= i < |rows|
      ensures Initiated(world, rows[i].messageId, rows[i].sourceChainId, rows[i].execId)
    {
      hide Initiated, T.RowsAreLogs, Ascending, UnresolvedIds, TotalOrder, IdsLower;
      ScanRowIs(table, before, limit, i);
      var id := Limit(Ascending(before, UnresolvedIds(table)), limit)[i];
      var key :| key in RowsInitiating(table, id) && LatestRow(table, id) == table.rows[key];
      RowIsInitiated(world, table, key);
    }
  }

  /** Only seeding creates a job or changes where it comes from. */
  lemma RelayKeepsOrigins(cfg: R.Config, s: R.State, step: R.Step)
    requires !step.Seed?
    ensures var s' := R.Next(cfg, s, step);
            && s'.jobs.Keys == s.jobs.Keys
            && forall m :: m in s.jobs ==>
                 s'.jobs[m].sourceChainId == s.jobs[m].sourceChainId && s'.jobs[m].execId == s.jobs[m].execId
  {
  }

  lemma SeedKeepsInitiated(world: I.World, cfg: R.Config, s: R.State, row: R.UnresolvedRow, destination: nat)
    requires JobsInitiated(world, s.jobs) && Initiated(world, row.messageId, row.sourceChainId, row.execId)
    ensures JobsInitiated(world, R.Next(cfg, s, R.Seed(row, destination)).jobs)
  {
    hide Initiated;
  }

  lemma ActionKeepsTraceable(setup: Setup, s: System, action: Action)
    requires TotalOrder(setup.before) && T.KeysIdentify(setup.world) && Traceable(setup.world, s)
    ensures Traceable(setup.world, Act(setup, s, action))
  {
    hide T.Sound, Initiated, R.Next, R.ResolveDestination, I.Next, Scan, TotalOrder, T.KeysIdentify;
    match action
    case Index(step) => T.StepKeepsSound(setup.world, setup.settings, s.index, step);
    case ScanRows(w) =>
      T.SoundHasLogs(setup.world, s.index);
      ScanIsInitiated(setup.world, s.index.table, setup.before, setup.cfg.scanLimit);
    case SeedNext(w, executions) =>
      if w in s.scanned && s.scanned[w] != [] {
        var row := s.scanned[w][0];
        SeedKeepsInitiated(setup.world, setup.cfg, s.relay, row,
          R.ResolveDestination(R.Routes(setup.selectors, executions), row));
      }
    case Relay(step) =>
      if !step.Seed? {
        RelayKeepsOrigins(setup.cfg, s.relay, step);
      }
  }

  lemma {:induction false} RunsAreTraceable(setup: Setup, actions: seq<Action>)
    requires TotalOrder(setup.before) && T.KeysIdentify(setup.world)
    ensures Traceable(setup.world, Run(setup, actions))
  {
    if actions == [] {
      assert T.Sound(setup.world, I.INITIAL);
    } else {
      RunsAreTraceable(setup, actions[..|actions| - 1]);
      ActionKeepsTraceable(setup, Run(setup, actions[..|actions| - 1]), actions[|actions| - 1]);
    }
  }

  /** In every reachable state each job was initiated on its source chain by a log with its message id and its
      execution id, and every stored row is what a log of its chain decodes to. */
  lemma JobsComeFromLogs(setup: Setup, actions: seq<Action>, m: Message)
    requires TotalOrder(setup.before) && T.KeysIdentify(setup.world)
    ensures var s := Run(setup, actions);
            && T.RowsAreLogs(setup.world, s.index.table)
            && (m in s.relay.jobs ==>
                  Initiated(setup.world, m, s.relay.jobs[m].sourceChainId, s.relay.jobs[m].execId))
  {
    RunsAreTraceable(setup, actions);
  }

  // ---- a seed pass among other steps ----

  /** Whenever the worker seeds, the row's destination is known. */
  ghost predicate Routable(setup: Setup, w: R.Worker, actions: seq<Action>, row: R.UnresolvedRow) {
    forall i :: 0 <= i < |actions| && actions[i].SeedNext? && actions[i].worker == w ==>
      R.ResolveDestination(R.Routes(setup.selectors, actions[i].executions), row) != 0
  }

  lemma KnownSelectorIsRoutable(setup: Setup, w: R.Worker, actions: seq<Action>, row: R.UnresolvedRow)
    requires row.targetChain.Some? && row.targetChain.value in setup.selectors
    requires setup.selectors[row.targetChain.value] != 0
    ensures Routable(setup, w, actions, row)
  {
  }

  predicate NoScan(actions: seq<Action>, w: R.Worker) {
    forall i :: 0 <= i < |actions| ==> actions[i] != ScanRows(w)
  }

  /** The worker has seeded the first k of its scanned rows. */
  ghost predicate Seeded(setup: Setup, s: System, w: R.Worker, rows: seq<R.UnresolvedRow>, k: nat,
                         actions: seq<Action>)
  {
    && k <= |rows| && w in s.scanned && s.scanned[w] == rows[k..]
    && forall i :: 0 <= i < k && Routable(setup, w, actions, rows[i]) ==> rows[i].messageId in s.relay.jobs
  }

  lemma JobsStay(setup: Setup, s: System, action: Action, m: Message)
    requires TotalOrder(setup.before) && m in s.relay.jobs
    ensures m in Act(setup, s, action).relay.jobs
  {
    hide I.Next, Scan, TotalOrder, R.ResolveDestination;
  }

  lemma SeedInserts(cfg: R.Config, s: R.State, row: R.UnresolvedRow, destination: nat)
    requires destination != 0
    ensures row.messageId in R.Next(cfg, s, R.Seed(row, destination)).jobs
  {
  }

  lemma ActionSeeds(setup: Setup, s: System, w: R.Worker, rows: seq<R.UnresolvedRow>, k: nat, before: seq<Action>,
                    action: Action) returns (k': nat)
    requires TotalOrder(setup.before) && Seeded(setup, s, w, rows, k, before) && action != ScanRows(w)
    ensures Seeded(setup, Act(setup, s, action), w, rows, k', before + [action])
  {
    hide I.Next, R.Next, R.ResolveDestination, Scan, TotalOrder;
    var s', actions := Act(setup, s, action), before + [action];
    k' := if action.SeedNext? && action.worker == w && s.scanned[w] != [] then k + 1 else k;
    assert s'.scanned[w] == rows[k'..];
    assert actions[|before|] == action;
    forall i | 0 <= i < k' && Routable(setup, w, actions, rows[i])
      ensures rows[i].messageId in s'.relay.jobs
    {
      if i < k {
        assert forall j :: 0 <= j < |before| ==> before[j] == actions[j];
        assert Routable(setup, w, before, rows[i]);
        JobsStay(setup, s, action, rows[i].messageId);
      } else {
        var destination := R.ResolveDestination(R.Routes(setup.selectors, action.executions), rows[i]);
        assert destination != 0;
        SeedInserts(setup.cfg, s.relay, rows[i], destination);
      }
    }
  }

  lemma {:induction false} PassSeeds(setup: Setup, s: System, w: R.Worker, rows: seq<R.UnresolvedRow>,
                                     actions: seq<Action>) returns (k: nat)
    requires TotalOrder(setup.before) && w in s.scanned && s.scanned[w] == rows && NoScan(actions, w)
    ensures Seeded(setup, RunFrom(setup, s, actions), w, rows, k, actions)
  {
    hide Act, TotalOrder;
    if actions == [] {
      k := 0;
    } else {
      hide Seeded;
      var before, last := actions[..|actions| - 1], actions[|actions| - 1];
      k := PassSeeds(setup, s, w, rows, before);
      k := ActionSeeds(setup, RunFrom(setup, s, before), w, rows, k, before, last);
      assert before + [last] == actions;
    }
  }

  /** When a worker has worked off a scan, whatever other workers and indexers did meanwhile, every scanned
      message whose destination was known has its job. */
  lemma WorkedOffScan(setup: Setup, s: System, w: R.Worker, actions: seq<Action>, i: nat)
    requires TotalOrder(setup.before) && NoScan(actions, w)
    requires i < |Scan(s.index.table, setup.before, setup.cfg.scanLimit)|
    ensures var row, after := Scan(s.index.table, setup.before, setup.cfg.scanLimit)[i],
                              RunFrom(setup, Act(setup, s, ScanRows(w)), actions);
            && w in after.scanned
            && (after.scanned[w] == [] && Routable(setup, w, actions, row) ==> row.messageId in after.relay.jobs)
  {
    hide TotalOrder, Scan, Routable;
    var rows := Scan(s.index.table, setup.before, setup.cfg.scanLimit);
    var k := PassSeeds(setup, Act(setup, s, ScanRows(w)), w, rows, actions);
  }

  lemma ReachedRow(table: I.Table, before: Order, limit: nat, m: Message) returns (i: nat)
    requires TotalOrder(before) && IdsLower(table) && m in UnresolvedIds(table)
    requires Rank(before, UnresolvedIds(table), m) < limit
    ensures RowsInitiating(table, m) != {} && InitiatedRow(LatestRow(table, m))
    ensures i < |Scan(table, before, limit)| && Scan(table, before, limit)[i] == ScannedRow(LatestRow(table, m))
    ensures Scan(table, before, limit)[i].messageId == m
  {
    hide TotalOrder, IdsLower, UnresolvedIds, Rank, Ascending, Scan, Limit;
    ReachedIffRank(before, UnresolvedIds(table), limit, m);
    var ids := Limit(Ascending(before, UnresolvedIds(table)), limit);
    i :| 0 <= i < |ids| && ids[i] == m;
    ScanRowIs(table, before, limit, i);
  }

  /** End to end: once a chain's cursor is past a log that initiates a message, and no log concludes the
      message, a worker that then scans, with fewer than the limit sorting before the message, and works off
      its rows among whatever else goes on, leaves a job for it, if its destination is known. */
  lemma InitiationsReachTheQueue(setup: Setup, before: seq<Action>, w: R.Worker, after: seq<Action>, c: I.ChainId,
                                 log: RawLog, m: Message)
    requires TotalOrder(setup.before) && T.KeysIdentify(setup.world) && NoScan(after, w)
    requires var s := Run(setup, before);
             && c in s.index.cursors && c in setup.world && log in setup.world[c].logs
             && setup.world[c].startBlock <= log.blockNumber <= s.index.cursors[c]
             && !Concluded(s.index.table, m)
             && Rank(setup.before, UnresolvedIds(s.index.table), m) < setup.cfg.scanLimit
    requires match DecodeIndexedEvent(log)
             case Ok(Some(e)) => e.eventName == CrossChainInitiated && e.messageId == Some(m)
             case _ => false
    ensures var table, end := Run(setup, before).index.table, Run(setup, before + [ScanRows(w)] + after);
            && RowsInitiating(table, m) != {} && InitiatedRow(LatestRow(table, m))
            && w in end.scanned
            && (end.scanned[w] == [] && Routable(setup, w, after, ScannedRow(LatestRow(table, m))) ==>
                  m in end.relay.jobs)
  {
    hide DecodeIndexedEvent, Act, Scan, Concluded, TotalOrder, Routable, Rank, UnresolvedIds, T.KeysIdentify, NoScan;
    RunsAreTraceable(setup, before);
    var s := Run(setup, before);
    SettledInitiation(setup.world, s.index, c, log, m);
    T.SoundHasLogs(setup.world, s.index);
    RowsAreLower(setup.world, s.index.table);
    var i := ReachedRow(s.index.table, setup.before, setup.cfg.scanLimit, m);
    WorkedOffScan(setup, s, w, after, i);
    RunOn(setup, START, before, [ScanRows(w)]);
    RunOn(setup, START, before + [ScanRows(w)], after);
    assert [ScanRows(w)][..0] == [];
  }

  lemma SettledInitiation(world: I.World, s: I.State, c: I.ChainId, log: RawLog, m: Message)
    requires T.Sound(world, s) && c in s.cursors && c in world && log in world[c].logs
    requires world[c].startBlock <= log.blockNumber <= s.cursors[c] && !Concluded(s.table, m)
    requires match DecodeIndexedEvent(log)
             case Ok(Some(e)) => e.eventName == CrossChainInitiated && e.messageId == Some(m)
             case _ => false
    ensures m in UnresolvedIds(s.table)
  {
    hide DecodeIndexedEvent, Concluded;
    assert T.Covered(world, s.table, c, s.cursors[c]);
    assert T.Settled(s.table, c, log);
    var key := I.KeyOf(c, log);
    assert InitiatedRow(s.table.rows[key]) && s.table.rows[key].event.messageId.value == m;
  }
}
