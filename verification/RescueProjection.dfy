/**
 The projection of an execution's events: sort the rows, fold them into one record, and read a status off it.
 */
module RescueProjection {
  import opened Common
  import opened AbiWords
  import opened EventDecoder
  import opened RescueIndexer
  import StableSort

  datatype Status = NoStatus | InProgress | CompletedStatus | FailedStatus

  datatype Flags = Flags(initiated: bool, rescueCompleted: bool, rescueFailed: bool,
                         crossChainInitiated: bool, crossChainCompleted: bool, crossChainFailed: bool)

  datatype Projection = Projection(
    userAddress: Option<string>, sourceChainId: Option<nat>, destinationChainId: Option<nat>, mode: Option<string>,
    ccipMessageId: Option<string>, sourceTxHash: Option<string>, lastEventAt: Option<nat>, has: Flags)

  const EMPTY: Projection :=
    Projection(None, None, None, None, None, None, None, Flags(false, false, false, false, false, false))

  /** A chain id counts as present unless it is missing or 0. */
  predicate PresentId(id: Option<nat>) {
    id.Some? && id.value != 0
  }

  // ---- the mode named in a log entry ----

  /** The text, in lower case, stands at the start of the bytes, whatever their case. */
  predicate StartsWith(bytes: seq<Byte>, text: string) {
    |text| <= |bytes|
    && forall i :: 0 <= i < |text| ==> LowerChar(bytes[i] as char) == text[i]
  }

  /** The first match of mode=TOP_UP or mode=REPAY, in any case. */
  function ExtractMode(details: seq<Byte>): Option<string> {
    if details == [] then None
    else if StartsWith(details, "mode=top_up") then Some("TOP_UP")
    else if StartsWith(details, "mode=repay") then Some("REPAY")
    else ExtractMode(details[1..])
  }

  // ---- one row ----

  function SourceChainAfter(id: Option<nat>, row: Row): Option<nat> {
    if PresentId(id) then id else Some(row.chainId)
  }

  function SourceTxAfter(hash: Option<string>, row: Row): Option<string> {
    if Present(hash) then hash else Some(row.txHash)
  }

  /** A text once present stays; until then a row's own may fill it. */
  function TextAfter(text: Option<string>, own: Option<string>): Option<string> {
    if !Present(text) && Present(own) then Some(Lower(own.value)) else text
  }

  function FlagsAfter(has: Flags, name: EventName): Flags {
    Flags(has.initiated || name == RescueInitiated,
          has.rescueCompleted || name == RescueCompleted,
          has.rescueFailed || name == RescueFailed,
          has.crossChainInitiated || name == CrossChainInitiated,
          has.crossChainCompleted || name == CrossChainCompleted,
          has.crossChainFailed || name == CrossChainDestinationFailed || name == MessageFailed)
  }

  /** The destination after a row: the chain a selector names, or the chain that completed the crossing. */
  function DestinationAfter(selectors: map<nat, nat>, destination: Option<nat>, row: Row): Option<nat> {
    if row.event.eventName == CrossChainInitiated then
      if row.event.payload.CrossInitiated? && row.event.payload.targetChain in selectors
      then Some(selectors[row.event.payload.targetChain]) else destination
    else if row.event.eventName == CrossChainCompleted then Some(row.chainId)
    else destination
  }

  function ModeAfter(mode: Option<string>, row: Row): Option<string> {
    if Present(mode) || row.event.eventName != LogEntryAdded || !row.event.payload.LogEntry? then mode
    else if ExtractMode(row.event.payload.details).Some? then ExtractMode(row.event.payload.details)
    else mode
  }

  function Apply(selectors: map<nat, nat>, p: Projection, row: Row): Projection {
    Projection(TextAfter(p.userAddress, row.event.userAddress), SourceChainAfter(p.sourceChainId, row),
               DestinationAfter(selectors, p.destinationChainId, row), ModeAfter(p.mode, row),
               TextAfter(p.ccipMessageId, row.event.messageId), SourceTxAfter(p.sourceTxHash, row),
               Some(row.indexedAt), FlagsAfter(p.has, row.event.eventName))
  }

  function Reduce(selectors: map<nat, nat>, rows: seq<Row>): Projection {
    if rows == [] then EMPTY else Apply(selectors, Reduce(selectors, rows[..|rows| - 1]), rows[|rows| - 1])
  }

  method RaiseFlags(has: Flags, name: EventName) returns (raised: Flags)
    ensures raised == FlagsAfter(has, name)
  {
    raised := has;
    if name == RescueInitiated {
      raised := raised.(initiated := true);
    }
    if name == RescueCompleted {
      raised := raised.(rescueCompleted := true);
    }
    if name == RescueFailed {
      raised := raised.(rescueFailed := true);
    }
    if name == CrossChainInitiated {
      raised := raised.(crossChainInitiated := true);
    }
    if name == CrossChainCompleted {
      raised := raised.(crossChainCompleted := true);
    }
    if name == CrossChainDestinationFailed || name == MessageFailed {
      raised := raised.(crossChainFailed := true);
    }
  }

  method ReadDestination(selectors: map<nat, nat>, destination: Option<nat>, event: Row) returns (r: Option<nat>)
    ensures r == DestinationAfter(selectors, destination, event)
  {
    r := destination;
    if event.event.eventName == CrossChainInitiated {
      if event.event.payload.CrossInitiated? && event.event.payload.targetChain in selectors {
        r := Some(selectors[event.event.payload.targetChain]);
      }
    }
    if event.event.eventName == CrossChainCompleted {
      r := Some(event.chainId);
    }
  }

  method ReadMode(mode: Option<string>, event: Row) returns (r: Option<string>)
    ensures r == ModeAfter(mode, event)
  {
    r := mode;
    if !Present(mode) && event.event.eventName == LogEntryAdded && event.event.payload.LogEntry? {
      var parsed := ExtractMode(event.event.payload.details);
      if parsed.Some? {
        r := parsed;
      }
    }
  }

  method ReduceProjection(selectors: map<nat, nat>, events: seq<Row>) returns (initial: Projection)
    ensures initial == Reduce(selectors, events)
  {
    hide ExtractMode, Lower, FlagsAfter, ModeAfter, DestinationAfter;
    var userAddress: Option<string>, ccipMessageId: Option<string>, sourceTxHash: Option<string> := None, None, None;
    var mode: Option<string>, sourceChainId: Option<nat>, destinationChainId: Option<nat> := None, None, None;
    var lastEventAt: Option<nat>, has := None, EMPTY.has;
    for i := 0 to |events|
      invariant Projection(userAddress, sourceChainId, destinationChainId, mode, ccipMessageId, sourceTxHash,
                           lastEventAt, has) == Reduce(selectors, events[..i])
    {
      assert events[..i + 1][..i] == events[..i];
      var event := events[i];
      if !PresentId(sourceChainId) {
        sourceChainId := Some(event.chainId);
      }
      if !Present(sourceTxHash) {
        sourceTxHash := Some(event.txHash);
      }
      if !Present(userAddress) && Present(event.event.userAddress) {
        userAddress := Some(Lower(event.event.userAddress.value));
      }
      lastEventAt := Some(event.indexedAt);
      if Present(event.event.messageId) && !Present(ccipMessageId) {
        ccipMessageId := Some(Lower(event.event.messageId.value));
      }
      has := RaiseFlags(has, event.event.eventName);
      destinationChainId := ReadDestination(selectors, destinationChainId, event);
      mode := ReadMode(mode, event);
    }
    assert events[..|events|] == events;
    initial := Projection(userAddress, sourceChainId, destinationChainId, mode, ccipMessageId, sourceTxHash,
                          lastEventAt, has);
  }

  // ---- the status ----

  function ComputeStatus(p: Projection): Status {
    if p.has.rescueFailed || p.has.crossChainFailed then FailedStatus
    else if p.has.crossChainInitiated && !p.has.crossChainCompleted then InProgress
    else if p.has.crossChainCompleted then CompletedStatus
    else if p.has.rescueCompleted then CompletedStatus
    else if p.has.initiated then InProgress
    else NoStatus
  }

  // ---- the timeline ----

  /** Earlier or at the same time: by time of indexing, chain, block and log index. */
  predicate AtMostAsLate(a: Row, b: Row) {
    if a.indexedAt != b.indexedAt then a.indexedAt < b.indexedAt
    else if a.chainId != b.chainId then a.chainId < b.chainId
    else if a.blockNumber != b.blockNumber then a.blockNumber < b.blockNumber
    else a.logIndex <= b.logIndex
  }

  function SortEvents(rows: seq<Row>): seq<Row> {
    StableSort.Sort(AtMostAsLate, rows)
  }

  const ZERO_ADDRESS := "0x0000000000000000000000000000000000000000"

  datatype Execution = Execution(userAddress: string, status: Status, projection: Projection)

  function Project(selectors: map<nat, nat>, rows: seq<Row>): Execution {
    var p := Reduce(selectors, SortEvents(rows));
    Execution(if p.userAddress.Some? then p.userAddress.value else ZERO_ADDRESS, ComputeStatus(p), p)
  }

  class RescueProjectionService {
    const selectors: map<nat, nat>
    var executions: map<string, Execution>

    constructor (selectors: map<nat, nat>)
      ensures this.selectors == selectors && executions == map[]
    {
      this.selectors := selectors;
      executions := map[];
    }

    /** The rows are those of the execution, in the order the database happens to return them. */
    method ProjectExec(execId: string, rows: seq<Row>) returns (changed: bool)
      modifies this`executions
      ensures changed <==> rows != []
      ensures executions == if rows == [] then old(executions) else old(executions)[execId := Project(selectors, rows)]
    {
      if |rows| == 0 {
        return false;
      }
      var sorted := SortEvents(rows);
      var projection := ReduceProjection(selectors, sorted);
      var status := ComputeStatus(projection);
      var user := if projection.userAddress.Some? then projection.userAddress.value else ZERO_ADDRESS;
      executions := executions[execId := Execution(user, status, projection)];
      changed := true;
    }
  }
}
