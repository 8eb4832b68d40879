/**
 Whole runs of the indexer, with any number of processes interleaving over any number of chains.
 */
module IndexerTheorems {
  import opened Common
  import opened AbiWords
  import opened EventDecoder
  import opened RescueIndexer

  /** A chain does not reuse the transaction hash and log index of a log. */
  ghost predicate KeysIdentify(world: World) {
    forall c, a, b :: c in world && a in world[c].logs && b in world[c].logs && KeyOf(c, a) == KeyOf(c, b) ==> a == b
  }

  /** The row is what a log decodes to. */
  predicate IsRowOf(row: Row, chainId: ChainId, log: RawLog) {
    && DecodeIndexedEvent(log) == Ok(Some(row.event))
    && row == RowOf(row.id, chainId, log, row.event, row.indexedAt)
  }

  /** Nothing is left to do for a log: its row is stored, or it has none. */
  predicate Settled(table: Table, chainId: ChainId, log: RawLog) {
    match DecodeIndexedEvent(log)
    case Err(_) => false
    case Ok(None) => true
    case Ok(Some(_)) =>
      KeyOf(chainId, log) in table.rows && IsRowOf(table.rows[KeyOf(chainId, log)], chainId, log)
  }

  ghost predicate Covered(world: World, table: Table, chainId: ChainId, toBlock: int)
    requires chainId in world
  {
    forall log :: log in world[chainId].logs && world[chainId].startBlock <= log.blockNumber <= toBlock ==>
      Settled(table, chainId, log)
  }

  ghost predicate FirstSettled(table: Table, chainId: ChainId, logs: seq<RawLog>, done: nat) {
    done <= |logs| && forall i :: 0 <= i < done ==> Settled(table, chainId, logs[i])
  }

  ghost predicate PhaseSound(world: World, table: Table, phase: Phase) {
    match phase
    case Idle => true
    case Fetching(c, fromBlock, _) => c in world && Covered(world, table, c, fromBlock - 1)
    case Persisting(c, fromBlock, toBlock, done) =>
      c in world && Covered(world, table, c, fromBlock - 1)
      && FirstSettled(table, c, LogsBetween(world[c].logs, fromBlock, toBlock), done)
  }

  /** Every row comes from a log of its chain. */
  ghost predicate RowsAreLogs(world: World, table: Table) {
    forall key :: key in table.rows ==> RowIsLog(world, key, table.rows[key])
  }

  ghost predicate RowIsLog(world: World, key: Key, row: Row) {
    && key.0 in world
    && exists log :: log in world[key.0].logs && KeyOf(key.0, log) == key && IsRowOf(row, key.0, log)
  }

  ghost predicate Sound(world: World, s: State) {
    && RowsAreLogs(world, s.table)
    && (forall c :: c in s.cursors ==> c in world && Covered(world, s.table, c, s.cursors[c]))
    && (forall p :: p in s.phases ==> PhaseSound(world, s.table, s.phases[p]))
  }

  // ---- a stored row stays ----

  /** Whatever was settled stays settled: another row, or the same log's row again. */
  ghost predicate Grows(world: World, table: Table, table': Table) {
    forall c, log :: c in world && log in world[c].logs && Settled(table, c, log) ==> Settled(table', c, log)
  }

  lemma UpsertGrows(world: World, table: Table, c: ChainId, log: RawLog, event: DecodedEvent, now: nat)
    requires KeysIdentify(world) && c in world && log in world[c].logs && DecodeIndexedEvent(log) == Ok(Some(event))
    ensures Grows(world, table, Upsert(table, c, log, event, now)) && Settled(Upsert(table, c, log, event, now), c, log)
  {
    hide DecodeIndexedEvent, LogsBetween;
    var key, table' := KeyOf(c, log), Upsert(table, c, log, event, now);
    forall c', log' | c' in world && log' in world[c'].logs && Settled(table, c', log')
      ensures Settled(table', c', log')
    {
      if KeyOf(c', log') == key {
        assert log' == log;
      }
    }
  }

  lemma CoveredGrows(world: World, table: Table, table': Table, c: ChainId, toBlock: int)
    requires Grows(world, table, table') && c in world && Covered(world, table, c, toBlock)
    ensures Covered(world, table', c, toBlock)
  {
    hide Settled;
  }

  lemma PhaseGrows(world: World, table: Table, table': Table, phase: Phase)
    requires Grows(world, table, table') && PhaseSound(world, table, phase)
    ensures PhaseSound(world, table', phase)
  {
    hide Settled, Covered;
    match phase
    case Idle =>
    case Fetching(c, fromBlock, _) => CoveredGrows(world, table, table', c, fromBlock - 1);
    case Persisting(c, fromBlock, toBlock, done) =>
      CoveredGrows(world, table, table', c, fromBlock - 1);
      var logs := LogsBetween(world[c].logs, fromBlock, toBlock);
      forall i | 0 <= i < done
        ensures Settled(table', c, logs[i])
      {
        LogsBetweenMembers(world[c].logs, fromBlock, toBlock, logs[i]);
      }
  }

  lemma SoundGrows(world: World, s: State, table': Table)
    requires Sound(world, s) && Grows(world, s.table, table') && RowsAreLogs(world, table')
    ensures Sound(world, s.(table := table'))
  {
    hide Covered, PhaseSound, Grows, RowsAreLogs;
    forall c | c in s.cursors
      ensures Covered(world, table', c, s.cursors[c])
    {
      CoveredGrows(world, s.table, table', c, s.cursors[c]);
    }
    forall p | p in s.phases
      ensures PhaseSound(world, table', s.phases[p])
    {
      PhaseGrows(world, s.table, table', s.phases[p]);
    }
  }

  lemma UpsertKeepsLogs(world: World, table: Table, c: ChainId, log: RawLog, event: DecodedEvent, now: nat)
    requires RowsAreLogs(world, table) && c in world && log in world[c].logs
    requires DecodeIndexedEvent(log) == Ok(Some(event))
    ensures RowsAreLogs(world, Upsert(table, c, log, event, now))
  {
    hide DecodeIndexedEvent, KeyOf;
    var key, table' := KeyOf(c, log), Upsert(table, c, log, event, now);
    assert key.0 == c by { KeyChain(c, log); }
    assert IsRowOf(table'.rows[key], c, log);
    assert RowIsLog(world, key, table'.rows[key]);
  }

  lemma KeyChain(c: ChainId, log: RawLog)
    ensures KeyOf(c, log).0 == c
  {
  }

  // ---- the invariant ----

  lemma PhaseSet(world: World, s: State, p: Process, phase: Phase)
    requires Sound(world, s) && PhaseSound(world, s.table, phase)
    ensures Sound(world, s.(phases := s.phases[p := phase]))
  {
    hide PhaseSound, Covered, RowsAreLogs;
  }

  lemma ReadSound(world: World, settings: Settings, s: State, c: ChainId, latestBlock: nat)
    requires Sound(world, s) && c in world
    ensures PhaseSound(world, s.table, Range(settings, s, c, world[c].startBlock, latestBlock))
  {
    hide Settled, PhaseSound, RowsAreLogs;
    var phase := Range(settings, s, c, world[c].startBlock, latestBlock);
    if phase.Fetching? {
      assert Covered(world, s.table, c, phase.fromBlock - 1);
    }
    RangeSound(world, s.table, phase);
  }

  lemma RangeSound(world: World, table: Table, phase: Phase)
    requires phase.Idle?
             || (phase.Fetching? && phase.chain in world && Covered(world, table, phase.chain, phase.fromBlock - 1))
    ensures PhaseSound(world, table, phase)
  {
  }

  lemma StoreSound(world: World, s: State, p: Process, c: ChainId, fromBlock: int, toBlock: int, done: nat, now: nat)
    requires KeysIdentify(world) && Sound(world, s) && c in world
    requires PhaseSound(world, s.table, Persisting(c, fromBlock, toBlock, done))
    requires done < |LogsBetween(world[c].logs, fromBlock, toBlock)|
    ensures match PersistLog(s.table, c, LogsBetween(world[c].logs, fromBlock, toBlock)[done], now)
            case Err(_) => true
            case Ok(table') =>
              Sound(world, s.(table := table', phases := s.phases[p := Persisting(c, fromBlock, toBlock, done + 1)]))
  {
    var log := LogsBetween(world[c].logs, fromBlock, toBlock)[done];
    LogsBetweenMembers(world[c].logs, fromBlock, toBlock, log);
    hide DecodeIndexedEvent, Covered, Sound, RowsAreLogs, Grows, Upsert, KeysIdentify, LogsBetween, IsRowOf, PhaseSound;
    match DecodeIndexedEvent(log)
    case Err(_) =>
    case Ok(None) =>
      OneMore(world, s.table, c, fromBlock, toBlock, done);
      PhaseSet(world, s, p, Persisting(c, fromBlock, toBlock, done + 1));
    case Ok(Some(event)) =>
      var table' := Upsert(s.table, c, log, event, now);
      UpsertGrows(world, s.table, c, log, event, now);
      SoundHasLogs(world, s);
      UpsertKeepsLogs(world, s.table, c, log, event, now);
      SoundGrows(world, s, table');
      PhaseGrows(world, s.table, table', Persisting(c, fromBlock, toBlock, done));
      OneMore(world, table', c, fromBlock, toBlock, done);
      PhaseSet(world, s.(table := table'), p, Persisting(c, fromBlock, toBlock, done + 1));
  }

  lemma OneMore(world: World, table: Table, c: ChainId, fromBlock: int, toBlock: int, done: nat)
    requires c in world && PhaseSound(world, table, Persisting(c, fromBlock, toBlock, done))
    requires done < |LogsBetween(world[c].logs, fromBlock, toBlock)|
    requires Settled(table, c, LogsBetween(world[c].logs, fromBlock, toBlock)[done])
    ensures PhaseSound(world, table, Persisting(c, fromBlock, toBlock, done + 1))
  {
    hide Settled, Covered, LogsBetween;
  }

  lemma SoundHasLogs(world: World, s: State)
    requires Sound(world, s)
    ensures RowsAreLogs(world, s.table)
  {
  }

  /** Once every log of a range is stored, the chain is covered up to its end. */
  lemma RangeDone(world: World, table: Table, c: ChainId, fromBlock: int, toBlock: int, done: nat)
    requires PhaseSound(world, table, Persisting(c, fromBlock, toBlock, done))
    requires done == |LogsBetween(world[c].logs, fromBlock, toBlock)|
    ensures Covered(world, table, c, toBlock)
  {
    hide Settled, LogsBetween;
    var logs := LogsBetween(world[c].logs, fromBlock, toBlock);
    forall log | log in world[c].logs && world[c].startBlock <= log.blockNumber <= toBlock
      ensures Settled(table, c, log)
    {
      if log.blockNumber >= fromBlock {
        LogsBetweenMembers(world[c].logs, fromBlock, toBlock, log);
        var i :| 0 <= i < |logs| && logs[i] == log;
        assert Settled(table, c, logs[i]);
      }
    }
  }

  lemma StepKeepsSound(world: World, settings: Settings, s: State, step: Step)
    requires KeysIdentify(world) && Sound(world, s)
    ensures Sound(world, Next(world, settings, s, step))
  {
    hide Covered, RowsAreLogs, KeysIdentify, LogsBetween, PersistLog, Sound, Range, PhaseSound;
    var p := step.process;
    var phase := PhaseOf(s, p);
    IdleIsSound(world, s.table);
    CurrentIsSound(world, s, p);
    match step
    case ReadCursor(_, c, latestBlock) =>
      if phase.Idle? && c in world {
        ReadSound(world, settings, s, c, latestBlock);
        PhaseSet(world, s, p, Range(settings, s, c, world[c].startBlock, latestBlock));
      }
    case Fetch(_, answered) =>
      if phase.Fetching? {
        FetchedIsSound(world, s.table, phase);
        PhaseSet(world, s, p, if answered then Persisting(phase.chain, phase.fromBlock, phase.toBlock, 0) else Idle);
      }
    case PersistNext(_, now) =>
      if PersistingNow(world, s, p) && phase.done < |Fetched(world, phase)| {
        StoreSound(world, s, p, phase.chain, phase.fromBlock, phase.toBlock, phase.done, now);
        PhaseSet(world, s, p, Idle);
      }
    case WriteCursor(_) =>
      if PersistingNow(world, s, p) && phase.done >= |Fetched(world, phase)| {
        DoneIsAll(world, s.table, phase);
        RangeDone(world, s.table, phase.chain, phase.fromBlock, phase.toBlock, phase.done);
        CursorSet(world, s, phase.chain, phase.toBlock);
        PhaseSet(world, s.(cursors := s.cursors[phase.chain := phase.toBlock]), p, Idle);
      }
    case Crash(_) => PhaseSet(world, s, p, Idle);
  }

  lemma IdleIsSound(world: World, table: Table)
    ensures PhaseSound(world, table, Idle)
  {
  }

  lemma CurrentIsSound(world: World, s: State, p: Process)
    requires Sound(world, s)
    ensures PhaseSound(world, s.table, PhaseOf(s, p))
  {
  }

  lemma FetchedIsSound(world: World, table: Table, phase: Phase)
    requires phase.Fetching? && PhaseSound(world, table, phase)
    ensures PhaseSound(world, table, Persisting(phase.chain, phase.fromBlock, phase.toBlock, 0))
  {
  }

  lemma DoneIsAll(world: World, table: Table, phase: Phase)
    requires phase.Persisting? && PhaseSound(world, table, phase)
    ensures phase.done <= |LogsBetween(world[phase.chain].logs, phase.fromBlock, phase.toBlock)|
  {
  }

  lemma CursorSet(world: World, s: State, c: ChainId, toBlock: int)
    requires Sound(world, s) && c in world && Covered(world, s.table, c, toBlock)
    ensures Sound(world, s.(cursors := s.cursors[c := toBlock]))
  {
    hide Covered, PhaseSound, RowsAreLogs;
  }

  lemma {:induction false} RunsAreSound(world: World, settings: Settings, steps: seq<Step>)
    requires KeysIdentify(world)
    ensures Sound(world, Exec(world, settings, INITIAL, steps))
  {
    if steps != [] {
      RunsAreSound(world, settings, steps[..|steps| - 1]);
      StepKeepsSound(world, settings, Exec(world, settings, INITIAL, steps[..|steps| - 1]), steps[|steps| - 1]);
    }
  }

  /** In every reachable state no log at or below a chain's cursor throws, and every one that is an event has
      its row: however processes interleave, fail and crash, and although a slow one may move the cursor back. */
  lemma CursorCovers(world: World, settings: Settings, steps: seq<Step>, c: ChainId, log: RawLog)
    requires KeysIdentify(world)
    requires var s := Exec(world, settings, INITIAL, steps);
             && c in s.cursors && c in world && log in world[c].logs
             && world[c].startBlock <= log.blockNumber <= s.cursors[c]
    ensures match DecodeIndexedEvent(log)
            case Err(_) => false
            case Ok(None) => true
            case Ok(Some(event)) =>
              var table := Exec(world, settings, INITIAL, steps).table;
              var key := (c, Lower(log.transactionHash), log.logIndex);
              && key in table.rows && table.rows[key].event == event
              && table.rows[key].chainId == c && table.rows[key].txHash == Lower(log.transactionHash)
              && table.rows[key].logIndex == log.logIndex && table.rows[key].blockNumber == log.blockNumber
              && table.rows[key].contractAddress == Lower(log.address)
  {
    hide DecodeIndexedEvent, Next;
    RunsAreSound(world, settings, steps);
    var s := Exec(world, settings, INITIAL, steps);
    assert Covered(world, s.table, c, s.cursors[c]);
    assert Settled(s.table, c, log);
  }

  /** Storing a settled log again adds no row and changes none but for the time of indexing. */
  lemma ReplayChangesNothing(table: Table, c: ChainId, log: RawLog, now: nat)
    requires Settled(table, c, log)
    ensures match PersistLog(table, c, log, now)
            case Err(_) => false
            case Ok(table') =>
              && table'.rows.Keys == table.rows.Keys
              && forall key :: key in table.rows ==>
                   table'.rows[key] == table.rows[key].(indexedAt := table'.rows[key].indexedAt)
  {
    hide DecodeIndexedEvent;
  }
}
