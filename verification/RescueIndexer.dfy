/**
 The event indexer: fetching logs from a failing RPC in adapting chunks, storing their rows by key, and moving
 the chain's cursor; and the machine in which any number of indexer processes do so at once.
 */
module RescueIndexer {
  import opened Common
  import opened AbiWords
  import opened EventDecoder

  type ChainId = nat

  // ---- the chain and its RPC ----

  /** The logs of a chain's indexed contracts, in the order the RPC returns them. */
  datatype Chain = Chain(startBlock: nat, logs: seq<RawLog>)

  ghost predicate ByBlock(logs: seq<RawLog>) {
    forall i, j :: 0 <= i < j < |logs| ==> logs[i].blockNumber <= logs[j].blockNumber
  }

  /** A failed call, with the block limit its message names, if any. */
  datatype RpcError = RpcError(maxBlocks: Option<nat>)

  /** By number of the call and block range: the failure, or None when the RPC answers. */
  type Rpc = (nat, int, int) -> Option<RpcError>

  function LogsBetween(logs: seq<RawLog>, fromBlock: int, toBlock: int): seq<RawLog> {
    if logs == [] then []
    else
      var last := logs[|logs| - 1];
      LogsBetween(logs[..|logs| - 1], fromBlock, toBlock)
      + (if fromBlock <= last.blockNumber <= toBlock then [last] else [])
  }

  lemma {:induction false} LogsBetweenMembers(logs: seq<RawLog>, fromBlock: int, toBlock: int, log: RawLog)
    ensures log in LogsBetween(logs, fromBlock, toBlock) <==> log in logs && fromBlock <= log.blockNumber <= toBlock
  {
    if logs != [] {
      LogsBetweenMembers(logs[..|logs| - 1], fromBlock, toBlock, log);
      assert logs == logs[..|logs| - 1] + [logs[|logs| - 1]];
    }
  }

  lemma {:induction false} NoneAfter(logs: seq<RawLog>, fromBlock: int, toBlock: int)
    requires forall i :: 0 <= i < |logs| ==> logs[i].blockNumber < fromBlock
    ensures LogsBetween(logs, fromBlock, toBlock) == []
  {
    if logs != [] {
      NoneAfter(logs[..|logs| - 1], fromBlock, toBlock);
    }
  }

  /** Adjacent ranges of blocks hold adjacent runs of logs. */
  lemma {:induction false} RangesJoin(logs: seq<RawLog>, a: int, b: int, c: int)
    requires ByBlock(logs) && a <= b + 1 <= c + 1
    ensures LogsBetween(logs, a, b) + LogsBetween(logs, b + 1, c) == LogsBetween(logs, a, c)
  {
    if logs != [] {
      var front, last := logs[..|logs| - 1], logs[|logs| - 1];
      RangesJoin(front, a, b, c);
      if last.blockNumber <= b {
        NoneAfter(front, b + 1, c);
        NoneAfter(logs, b + 1, c);
        assert LogsBetween(front, a, b) + [] == LogsBetween(front, a, b);
        assert LogsBetween(logs, a, b) + [] == LogsBetween(logs, a, b);
      } else {
        var more := if last.blockNumber <= c then [last] else [];
        assert LogsBetween(logs, a, b) == LogsBetween(front, a, b) + [];
        Associate(LogsBetween(front, a, b), LogsBetween(front, b + 1, c), more);
      }
    }
  }

  /** Fetches a range chunk by chunk, in order: every block once whatever fails on the way. It gives up only
      on a failure for a single block, and makes at most one call per block and per size of chunk. */
  method FetchLogsAdaptive(logs: seq<RawLog>, rpc: Rpc, blockWindow: nat, fromBlock: int, toBlock: int)
    returns (r: Result<seq<RawLog>, RpcError>, calls: nat)
    requires ByBlock(logs)
    ensures r.Ok? ==> r.value == LogsBetween(logs, fromBlock, toBlock)
    ensures r.Err? ==> exists call: nat, block ::
                         call < calls && fromBlock <= block <= toBlock && rpc(call, block, block) == Some(r.error)
    ensures calls <= Max(0, toBlock - fromBlock + 1) + Max(1, blockWindow)
  {
    hide LogsBetween;
    var fetched: seq<RawLog> := [];
    var currentFrom: int := fromBlock;
    var chunkSize: nat := if blockWindow > 0 then blockWindow else 1;
    calls := 0;
    EmptyRange(logs, fromBlock);
    while currentFrom <= toBlock
      invariant fromBlock <= currentFrom && (currentFrom <= toBlock + 1 || currentFrom == fromBlock)
      invariant 1 <= chunkSize <= Max(1, blockWindow)
      invariant fetched == LogsBetween(logs, fromBlock, currentFrom - 1)
      invariant calls + chunkSize <= currentFrom - fromBlock + Max(1, blockWindow)
      decreases toBlock + 1 - currentFrom, chunkSize
    {
      var currentTo := Min(currentFrom + chunkSize - 1, toBlock);
      var failure := rpc(calls, currentFrom, currentTo);
      calls := calls + 1;
      if failure.None? {
        RangesJoin(logs, fromBlock, currentFrom - 1, currentTo);
        fetched := fetched + LogsBetween(logs, currentFrom, currentTo);
        currentFrom := currentTo + 1;
        continue;
      }
      var maxBlocks := failure.value.maxBlocks;
      if maxBlocks.Some? && maxBlocks.value > 0 && maxBlocks.value < chunkSize {
        chunkSize := maxBlocks.value;
        continue;
      }
      if chunkSize > 1 {
        chunkSize := chunkSize / 2;
        continue;
      }
      assert rpc(calls - 1, currentFrom, currentFrom) == Some(failure.value);
      return Err(failure.value), calls;
    }
    if toBlock < fromBlock {
      BackwardRange(logs, fromBlock, toBlock);
    }
    r := Ok(fetched);
  }

  lemma {:induction false} BackwardRange(logs: seq<RawLog>, fromBlock: int, toBlock: int)
    requires toBlock < fromBlock
    ensures LogsBetween(logs, fromBlock, toBlock) == []
  {
    if logs != [] {
      BackwardRange(logs[..|logs| - 1], fromBlock, toBlock);
    }
  }

  lemma EmptyRange(logs: seq<RawLog>, fromBlock: int)
    ensures LogsBetween(logs, fromBlock, fromBlock - 1) == []
  {
    BackwardRange(logs, fromBlock, fromBlock - 1);
  }

  // ---- rescue_events ----

  /** The unique index of the table: chain, transaction, log index. */
  type Key = (ChainId, string, nat)

  datatype Row = Row(id: nat, chainId: ChainId, blockNumber: nat, txHash: string, logIndex: nat,
                     contractAddress: string, event: DecodedEvent, indexedAt: nat)

  datatype Table = Table(rows: map<Key, Row>, nextId: nat)

  function KeyOf(chainId: ChainId, log: RawLog): Key {
    (chainId, Lower(log.transactionHash), log.logIndex)
  }

  function RowOf(id: nat, chainId: ChainId, log: RawLog, event: DecodedEvent, now: nat): Row {
    Row(id, chainId, log.blockNumber, Lower(log.transactionHash), log.logIndex, Lower(log.address), event, now)
  }

  /** Insert, or update the row under the same key; either way an id is drawn, and an existing row keeps its own. */
  function Upsert(table: Table, chainId: ChainId, log: RawLog, event: DecodedEvent, now: nat): Table {
    var key := KeyOf(chainId, log);
    var id := if key in table.rows then table.rows[key].id else table.nextId;
    Table(table.rows[key := RowOf(id, chainId, log, event, now)], table.nextId + 1)
  }

  /** One log: an error throws, a log without event is skipped, an event is stored. */
  function PersistLog(table: Table, chainId: ChainId, log: RawLog, now: nat): Result<Table, AbiError> {
    var decoded :- DecodeIndexedEvent(log);
    Ok(if decoded.None? then table else Upsert(table, chainId, log, decoded.value, now))
  }

  /** Logs one by one, up to the first that throws; what was stored before stays. */
  function PersistAll(table: Table, chainId: ChainId, logs: seq<RawLog>, now: nat): (Table, Option<AbiError>) {
    if logs == [] then (table, None)
    else
      var (before, thrown) := PersistAll(table, chainId, logs[..|logs| - 1], now);
      if thrown.Some? then (before, thrown)
      else
        match PersistLog(before, chainId, logs[|logs| - 1], now)
        case Err(e) => (before, Some(e))
        case Ok(after) => (after, None)
  }

  /** The events of logs that decode. */
  function EventsOf(logs: seq<RawLog>): seq<DecodedEvent> {
    if logs == [] then []
    else
      EventsOf(logs[..|logs| - 1])
      + (match DecodeIndexedEvent(logs[|logs| - 1]) case Ok(Some(e)) => [e] case _ => [])
  }

  // ---- indexer processes ----

  type World = map<ChainId, Chain>
  type Process = nat

  datatype Settings = Settings(blockWindow: nat, confirmations: nat)

  /** What a process is doing: nothing, fetching a range it worked out from a cursor it read, or storing the
      logs of that range, so many of them done. */
  datatype Phase =
    | Idle
    | Fetching(chain: ChainId, fromBlock: int, toBlock: int)
    | Persisting(chain: ChainId, fromBlock: int, toBlock: int, done: nat)

  datatype State = State(table: Table, cursors: map<ChainId, int>, phases: map<Process, Phase>)

  datatype Step =
    | ReadCursor(process: Process, chain: ChainId, latestBlock: nat)
    | Fetch(process: Process, answered: bool)
    | PersistNext(process: Process, now: nat)
    | WriteCursor(process: Process)
    | Crash(process: Process)

  const INITIAL: State := State(Table(map[], 1), map[], map[])

  function PhaseOf(s: State, p: Process): Phase {
    if p in s.phases then s.phases[p] else Idle
  }

  function SafeBlock(settings: Settings, latestBlock: nat): nat {
    if latestBlock > settings.confirmations then latestBlock - settings.confirmations else 0
  }

  function NextBlock(s: State, chain: ChainId, startBlock: nat): int {
    if chain in s.cursors then s.cursors[chain] + 1 else startBlock
  }

  /** The range to index next, unless the chain is idle. */
  function Range(settings: Settings, s: State, chain: ChainId, startBlock: nat, latestBlock: nat): Phase {
    var fromBlock, safe := NextBlock(s, chain, startBlock), SafeBlock(settings, latestBlock);
    if fromBlock > safe then Idle
    else Fetching(chain, fromBlock, Min(fromBlock + settings.blockWindow - 1, safe))
  }

  function Fetched(world: World, phase: Phase): seq<RawLog>
    requires phase.Persisting? && phase.chain in world
  {
    LogsBetween(world[phase.chain].logs, phase.fromBlock, phase.toBlock)
  }

  predicate PersistingNow(world: World, s: State, p: Process) {
    PhaseOf(s, p).Persisting? && PhaseOf(s, p).chain in world
  }

  /** A step that is not possible changes nothing. */
  function Next(world: World, settings: Settings, s: State, step: Step): State {
    var p := step.process;
    var phase := PhaseOf(s, p);
    match step
    case ReadCursor(_, chain, latestBlock) =>
      if phase.Idle? && chain in world then
        s.(phases := s.phases[p := Range(settings, s, chain, world[chain].startBlock, latestBlock)])
      else s
    case Fetch(_, answered) =>
      if !phase.Fetching? then s
      else
        var next := if answered then Persisting(phase.chain, phase.fromBlock, phase.toBlock, 0) else Idle;
        s.(phases := s.phases[p := next])
    case PersistNext(_, now) =>
      if !PersistingNow(world, s, p) || phase.done >= |Fetched(world, phase)| then s
      else
        (match PersistLog(s.table, phase.chain, Fetched(world, phase)[phase.done], now)
         case Err(_) => s.(phases := s.phases[p := Idle])
         case Ok(table) => s.(table := table, phases := s.phases[p := phase.(done := phase.done + 1)]))
    case WriteCursor(_) =>
      if !PersistingNow(world, s, p) || phase.done < |Fetched(world, phase)| then s
      else s.(cursors := s.cursors[phase.chain := phase.toBlock], phases := s.phases[p := Idle])
    case Crash(_) => s.(phases := s.phases[p := Idle])
  }

  function Exec(world: World, settings: Settings, s: State, steps: seq<Step>): State {
    if steps == [] then s
    else Next(world, settings, Exec(world, settings, s, steps[..|steps| - 1]), steps[|steps| - 1])
  }

  lemma ExecSnoc(world: World, settings: Settings, s: State, steps: seq<Step>, step: Step)
    ensures Exec(world, settings, s, steps + [step]) == Next(world, settings, Exec(world, settings, s, steps), step)
  {
    assert (steps + [step])[..|steps|] == steps;
  }

  // ---- one run of the indexer over a chain ----

  function Repeat(step: Step, k: nat): (r: seq<Step>)
    ensures |r| == k
  {
    if k == 0 then [] else Repeat(step, k - 1) + [step]
  }

  lemma StoresNext(world: World, settings: Settings, s: State, p: Process, now: nat)
    requires PersistingNow(world, s, p) && PhaseOf(s, p).done < |Fetched(world, PhaseOf(s, p))|
    ensures var s', phase := Next(world, settings, s, PersistNext(p, now)), PhaseOf(s, p);
            s'.cursors == s.cursors
            && match PersistLog(s.table, phase.chain, Fetched(world, phase)[phase.done], now)
               case Ok(table) => s'.table == table && PhaseOf(s', p) == phase.(done := phase.done + 1)
               case Err(_) => s'.table == s.table && PhaseOf(s', p) == Idle
  {
    hide PersistLog, LogsBetween;
  }

  lemma IdleStoresNothing(world: World, settings: Settings, s: State, p: Process, now: nat)
    requires PhaseOf(s, p) == Idle
    ensures Next(world, settings, s, PersistNext(p, now)) == s
  {
  }

  lemma PersistAllSnoc(table: Table, chainId: ChainId, logs: seq<RawLog>, k: nat, now: nat)
    requires 0 < k <= |logs|
    ensures PersistAll(table, chainId, logs[..k], now)
            == var (before, thrown) := PersistAll(table, chainId, logs[..k - 1], now);
               if thrown.Some? then (before, thrown)
               else
                 match PersistLog(before, chainId, logs[k - 1], now)
                 case Err(e) => (before, Some(e))
                 case Ok(after) => (after, None)
  {
    hide PersistLog;
    assert logs[..k][..k - 1] == logs[..k - 1];
  }

  /** Storing k logs, as steps of the machine. */
  lemma {:induction false} PersistRuns(world: World, settings: Settings, s: State, p: Process, now: nat, k: nat)
    requires PersistingNow(world, s, p) && PhaseOf(s, p).done == 0 && k <= |Fetched(world, PhaseOf(s, p))|
    ensures var s', phase := Exec(world, settings, s, Repeat(PersistNext(p, now), k)), PhaseOf(s, p);
            var (table, thrown) := PersistAll(s.table, phase.chain, Fetched(world, phase)[..k], now);
            && s'.table == table && s'.cursors == s.cursors
            && PhaseOf(s', p) == if thrown.None? then phase.(done := k) else Idle
  {
    hide Next, PersistLog, LogsBetween;
    if k > 0 {
      hide PersistAll;
      var before := Exec(world, settings, s, Repeat(PersistNext(p, now), k - 1));
      PersistRuns(world, settings, s, p, now, k - 1);
      ExecSnoc(world, settings, s, Repeat(PersistNext(p, now), k - 1), PersistNext(p, now));
      PersistAllSnoc(s.table, PhaseOf(s, p).chain, Fetched(world, PhaseOf(s, p)), k, now);
      if PhaseOf(before, p) == Idle {
        IdleStoresNothing(world, settings, before, p, now);
      } else {
        StoresNext(world, settings, before, p, now);
      }
    }
  }

  datatype Stored = Stored(decodedCount: nat, positionUpdatedUsers: set<string>, execIds: set<string>)

  /** Texts that are present and not empty. */
  predicate Present(t: Option<string>) {
    t.Some? && t.value != ""
  }

  function UsersOf(events: seq<DecodedEvent>): set<string> {
    set e | e in events && e.eventName == PositionUpdated && Present(e.userAddress) :: Lower(e.userAddress.value)
  }

  function ExecIdsOf(events: seq<DecodedEvent>): set<string> {
    set e | e in events && Present(e.execId) :: Lower(e.execId.value)
  }

  predicate HasEvent(log: RawLog) {
    DecodeIndexedEvent(log).Ok? && DecodeIndexedEvent(log).value.Some?
  }

  /** The events are those that some of the logs decode to, as many as there are such logs. */
  lemma {:induction false} EventsMembers(logs: seq<RawLog>, e: DecodedEvent)
    ensures e in EventsOf(logs) <==> exists log :: log in logs && DecodeIndexedEvent(log) == Ok(Some(e))
  {
    hide DecodeIndexedEvent;
    if logs != [] {
      EventsMembers(logs[..|logs| - 1], e);
      assert logs == logs[..|logs| - 1] + [logs[|logs| - 1]];
    }
  }

  /** The places among the logs where an event is. */
  ghost function EventPlaces(logs: seq<RawLog>): set<nat> {
    set i: nat | i < |logs| && HasEvent(logs[i])
  }

  lemma {:induction false} EventsCount(logs: seq<RawLog>)
    ensures |EventsOf(logs)| == |EventPlaces(logs)|
  {
    if logs == [] {
      assert EventPlaces(logs) == {};
    } else {
      EventsCount(logs[..|logs| - 1]);
      EventsSnoc(logs);
      hide HasEvent, EventsOf;
      PlacesSnoc(logs);
      assert |logs| - 1 !in EventPlaces(logs[..|logs| - 1]);
    }
  }

  lemma PlacesSnoc(logs: seq<RawLog>)
    requires logs != []
    ensures EventPlaces(logs)
            == EventPlaces(logs[..|logs| - 1]) + if HasEvent(logs[|logs| - 1]) then {|logs| - 1} else {}
  {
    hide HasEvent;
    var front := logs[..|logs| - 1];
    forall i: nat
      ensures i in EventPlaces(logs) <==> i in EventPlaces(front) || (i == |front| && HasEvent(logs[|front|]))
    {
      assert i < |front| ==> logs[i] == front[i];
    }
  }

  lemma EventsSnoc(logs: seq<RawLog>)
    requires logs != []
    ensures |EventsOf(logs)| == |EventsOf(logs[..|logs| - 1])| + if HasEvent(logs[|logs| - 1]) then 1 else 0
  {
    hide DecodeIndexedEvent;
  }

  lemma StoredSetsMean(logs: seq<RawLog>, text: string)
    ensures text in UsersOf(EventsOf(logs))
            <==> exists log :: log in logs && DecodeIndexedEvent(log).Ok? && DecodeIndexedEvent(log).value.Some?
                               && var e := DecodeIndexedEvent(log).value.value;
                                  e.eventName == PositionUpdated && e.userAddress.Some? && e.userAddress.value != ""
                                  && Lower(e.userAddress.value) == text
    ensures text in ExecIdsOf(EventsOf(logs))
            <==> exists log :: log in logs && DecodeIndexedEvent(log).Ok? && DecodeIndexedEvent(log).value.Some?
                               && var e := DecodeIndexedEvent(log).value.value;
                                  e.execId.Some? && e.execId.value != "" && Lower(e.execId.value) == text
  {
    hide DecodeIndexedEvent, EventsOf, Lower;
    forall e
      ensures e in EventsOf(logs) <==> exists log :: log in logs && DecodeIndexedEvent(log) == Ok(Some(e))
    {
      EventsMembers(logs, e);
    }
    forall log | log in logs && DecodeIndexedEvent(log).Ok? && DecodeIndexedEvent(log).value.Some?
      ensures DecodeIndexedEvent(log).value.value in EventsOf(logs)
    {
      assert DecodeIndexedEvent(log) == Ok(Some(DecodeIndexedEvent(log).value.value));
    }
  }

  datatype Progress =
    | NothingToDo
    | Indexed(fromBlock: int, toBlock: int, scannedLogs: nat, decodedLogs: nat)
    | Erred

  class RescueHistoryService {
    const settings: Settings
    var table: Table
    var cursors: map<ChainId, int>

    constructor (settings: Settings)
      ensures this.settings == settings && Current() == INITIAL
    {
      this.settings := settings;
      table, cursors := Table(map[], 1), map[];
    }

    function Current(): State
      reads this
    {
      State(table, cursors, map[])
    }

    method PersistLogs(chainId: ChainId, logs: seq<RawLog>, now: nat) returns (r: Result<Stored, AbiError>)
      modifies this`table
      ensures table == PersistAll(old(table), chainId, logs, now).0
      ensures match PersistAll(old(table), chainId, logs, now).1
              case Some(e) => r == Err(e)
              case None => r == Ok(Stored(|EventsOf(logs)|, UsersOf(EventsOf(logs)), ExecIdsOf(EventsOf(logs))))
    {
      hide RowOf, KeyOf, DecodeIndexedEvent;
      var decodedCount: nat := 0;
      var users: set<string>, execIds: set<string> := {}, {};
      for i := 0 to |logs|
        invariant PersistAll(old(table), chainId, logs[..i], now) == (table, None)
        invariant decodedCount == |EventsOf(logs[..i])|
        invariant users == UsersOf(EventsOf(logs[..i])) && execIds == ExecIdsOf(EventsOf(logs[..i]))
      {
        assert logs[..i + 1][..i] == logs[..i];
        var decoded := DecodeIndexedEvent(logs[i]);
        if decoded.Err? {
          ThrownStays(old(table), chainId, logs, i + 1, now);
          return Err(decoded.error);
        }
        if decoded.value.None? {
          continue;
        }
        var e := decoded.value.value;
        SetsGrow(EventsOf(logs[..i]), e);
        table := Upsert(table, chainId, logs[i], e, now);
        if e.eventName == PositionUpdated && Present(e.userAddress) {
          users := users + {Lower(e.userAddress.value)};
        }
        if Present(e.execId) {
          execIds := execIds + {Lower(e.execId.value)};
        }
        decodedCount := decodedCount + 1;
      }
      assert logs[..|logs|] == logs;
      r := Ok(Stored(decodedCount, users, execIds));
    }

    /** One chain's turn: fetch from the cursor on, store, move the cursor. The trace shows that it makes only
        steps of the machine; on an error the cursor stays where it was. */
    method IndexChain(chainId: ChainId, chain: Chain, addresses: seq<string>, latestBlock: nat, rpc: Rpc, now: nat)
      returns (progress: Progress, ghost steps: seq<Step>)
      requires ByBlock(chain.logs)
      modifies this`table, this`cursors
      ensures var s := Exec(map[chainId := chain], settings, old(Current()), steps);
              s.table == table && s.cursors == cursors
      ensures progress.NothingToDo?
              <==> addresses == []
                   || NextBlock(old(Current()), chainId, chain.startBlock) > SafeBlock(settings, latestBlock)
      ensures match progress
              case Indexed(fromBlock, toBlock, scannedLogs, decodedLogs) =>
                && fromBlock == NextBlock(old(Current()), chainId, chain.startBlock)
                && toBlock == Min(fromBlock + settings.blockWindow - 1, SafeBlock(settings, latestBlock))
                && cursors == old(cursors)[chainId := toBlock]
                && scannedLogs == |LogsBetween(chain.logs, fromBlock, toBlock)|
                && decodedLogs == |EventsOf(LogsBetween(chain.logs, fromBlock, toBlock))|
              case NothingToDo => cursors == old(cursors) && table == old(table)
              case Erred => cursors == old(cursors)
      ensures var next := if chainId in old(cursors) then old(cursors)[chainId] + 1 else chain.startBlock;
              && (progress.NothingToDo?
                  <==> addresses == [] || (next > 0 && next + settings.confirmations > latestBlock))
              && (progress.Indexed? ==> progress.fromBlock == next)
      ensures match progress
              case Indexed(fromBlock, toBlock, _, _) =>
                && toBlock < fromBlock + settings.blockWindow
                && (toBlock <= 0 || toBlock + settings.confirmations <= latestBlock)
                && (toBlock + 1 == fromBlock + settings.blockWindow || toBlock + settings.confirmations == latestBlock
                    || toBlock == 0 >= latestBlock - settings.confirmations)
              case _ => true
    {
      hide Exec, PersistAll, LogsBetween, TurnSteps, EventsOf, UsersOf, ExecIdsOf;
      ghost var world: World := map[chainId := chain];
      NoSteps(world, settings, Current());
      if |addresses| == 0 {
        return NothingToDo, [];
      }
      var fromBlock, safe := NextBlock(Current(), chainId, chain.startBlock), SafeBlock(settings, latestBlock);
      if fromBlock > safe {
        return NothingToDo, [];
      }
      var toBlock := Min(fromBlock + settings.blockWindow - 1, safe);
      var logs, calls := FetchLogsAdaptive(chain.logs, rpc, settings.blockWindow, fromBlock, toBlock);
      if logs.Err? {
        return Erred, [];
      }
      var stored := PersistLogs(chainId, logs.value, now);
      steps := TurnSteps(chainId, latestBlock, |logs.value|, now);
      TurnRuns(world, settings, old(Current()), chainId, latestBlock, now);
      if stored.Err? {
        return Erred, steps;
      }
      cursors := cursors[chainId := toBlock];
      progress := Indexed(fromBlock, toBlock, |logs.value|, stored.value.decodedCount);
    }
  }

  lemma {:induction false} ThrownStays(table: Table, chainId: ChainId, logs: seq<RawLog>, k: nat, now: nat)
    requires k <= |logs| && PersistAll(table, chainId, logs[..k], now).1.Some?
    ensures PersistAll(table, chainId, logs, now) == PersistAll(table, chainId, logs[..k], now)
    decreases |logs|
  {
    if k == |logs| {
      assert logs[..k] == logs;
    } else {
      var front := logs[..|logs| - 1];
      assert front[..k] == logs[..k];
      ThrownStays(table, chainId, front, k, now);
    }
  }

  lemma SetsGrow(events: seq<DecodedEvent>, e: DecodedEvent)
    ensures UsersOf(events + [e])
            == UsersOf(events) + if e.eventName == PositionUpdated && Present(e.userAddress)
                                 then {Lower(e.userAddress.value)} else {}
    ensures ExecIdsOf(events + [e])
            == ExecIdsOf(events) + if Present(e.execId) then {Lower(e.execId.value)} else {}
  {
    assert forall x :: x in events + [e] <==> x in events || x == e;
  }

  /** The steps of a turn that fetches so many logs. */
  function TurnSteps(chainId: ChainId, latestBlock: nat, count: nat, now: nat): seq<Step> {
    [ReadCursor(0, chainId, latestBlock), Fetch(0, true)] + Repeat(PersistNext(0, now), count) + [WriteCursor(0)]
  }

  lemma {:induction false} ExecConcat(world: World, settings: Settings, s: State, a: seq<Step>, b: seq<Step>)
    ensures Exec(world, settings, s, a + b) == Exec(world, settings, Exec(world, settings, s, a), b)
  {
    hide Next;
    if b == [] {
      assert a + b == a;
    } else {
      ExecConcat(world, settings, s, a, b[..|b| - 1]);
      assert (a + b)[..|a + b| - 1] == a + b[..|b| - 1];
    }
  }

  lemma NoSteps(world: World, settings: Settings, s: State)
    ensures Exec(world, settings, s, []) == s
  {
  }

  lemma TurnRuns(world: World, settings: Settings, s: State, chainId: ChainId, latestBlock: nat, now: nat)
    requires s.phases == map[] && chainId in world
    requires NextBlock(s, chainId, world[chainId].startBlock) <= SafeBlock(settings, latestBlock)
    ensures var fromBlock := NextBlock(s, chainId, world[chainId].startBlock);
            var toBlock := Min(fromBlock + settings.blockWindow - 1, SafeBlock(settings, latestBlock));
            var logs := LogsBetween(world[chainId].logs, fromBlock, toBlock);
            var (table, thrown) := PersistAll(s.table, chainId, logs, now);
            var s' := Exec(world, settings, s, TurnSteps(chainId, latestBlock, |logs|, now));
            s'.table == table && s'.cursors == if thrown.None? then s.cursors[chainId := toBlock] else s.cursors
  {
    hide PersistAll, LogsBetween, PersistLog, Exec, Next;
    var fromBlock := NextBlock(s, chainId, world[chainId].startBlock);
    var toBlock := Min(fromBlock + settings.blockWindow - 1, SafeBlock(settings, latestBlock));
    var logs := LogsBetween(world[chainId].logs, fromBlock, toBlock);
    var opening := [ReadCursor(0, chainId, latestBlock), Fetch(0, true)];
    var s2 := Exec(world, settings, s, opening);
    TurnOpens(world, settings, s, chainId, latestBlock);
    var repeated := Repeat(PersistNext(0, now), |logs|);
    assert PhaseOf(s2, 0) == Persisting(chainId, fromBlock, toBlock, 0);
    PersistRuns(world, settings, s2, 0, now, |logs|);
    assert logs[..|logs|] == logs;
    ExecConcat(world, settings, s, opening, repeated);
    ExecSnoc(world, settings, s, opening + repeated, WriteCursor(0));
    Finishes(world, settings, Exec(world, settings, s, opening + repeated), chainId, fromBlock, toBlock);
  }

  lemma Finishes(world: World, settings: Settings, s: State, chainId: ChainId, fromBlock: int, toBlock: int)
    requires chainId in world
    ensures PhaseOf(s, 0) == Idle ==> Next(world, settings, s, WriteCursor(0)) == s
    ensures PhaseOf(s, 0)
            == Persisting(chainId, fromBlock, toBlock, |LogsBetween(world[chainId].logs, fromBlock, toBlock)|)
            ==> Next(world, settings, s, WriteCursor(0))
                == s.(cursors := s.cursors[chainId := toBlock], phases := s.phases[0 := Idle])
  {
    hide LogsBetween;
  }

  lemma TurnOpens(world: World, settings: Settings, s: State, chainId: ChainId, latestBlock: nat)
    requires s.phases == map[] && chainId in world
    requires NextBlock(s, chainId, world[chainId].startBlock) <= SafeBlock(settings, latestBlock)
    ensures var fromBlock := NextBlock(s, chainId, world[chainId].startBlock);
            var toBlock := Min(fromBlock + settings.blockWindow - 1, SafeBlock(settings, latestBlock));
            var s' := Exec(world, settings, s, [ReadCursor(0, chainId, latestBlock), Fetch(0, true)]);
            && s'.table == s.table && s'.cursors == s.cursors
            && PhaseOf(s', 0) == Persisting(chainId, fromBlock, toBlock, 0)
  {
    hide PersistAll, LogsBetween, PersistLog;
    var read, fetch := ReadCursor(0, chainId, latestBlock), Fetch(0, true);
    assert [read][..0] == [] && [read, fetch][..1] == [read];
    assert Exec(world, settings, s, [read]) == Next(world, settings, s, read);
    assert PhaseOf(Next(world, settings, s, read), 0).Fetching?;
  }
}
