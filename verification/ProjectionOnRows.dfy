/**
 The projection's fields in terms of the rows of an execution: which row each is taken from.
 */
module ProjectionOnRows {
  import opened Common
  import opened AbiWords
  import opened EventDecoder
  import opened RescueIndexer
  import opened RescueProjection
  import opened ProjectionTheorems
  import StableSort

  // ---- the timeline ----

  /** The timeline ascends by time of indexing, among equal times by chain, then by block, then by log index. */
  lemma TimelineAscends(rows: seq<Row>, i: nat, j: nat)
    requires i < j < |SortEvents(rows)|
    ensures var a, b := SortEvents(rows)[i], SortEvents(rows)[j];
            && a.indexedAt <= b.indexedAt
            && (a.indexedAt == b.indexedAt ==> a.chainId <= b.chainId)
            && (a.indexedAt == b.indexedAt && a.chainId == b.chainId ==> a.blockNumber <= b.blockNumber)
            && (a.indexedAt == b.indexedAt && a.chainId == b.chainId && a.blockNumber == b.blockNumber ==>
                  a.logIndex <= b.logIndex)
  {
    LatenessIsPreorder();
    StableSort.SortSorted(AtMostAsLate, rows);
    assert AtMostAsLate(SortEvents(rows)[i], SortEvents(rows)[j]);
  }

  lemma {:induction false} FirstOf(rows: seq<Row>, has: Row -> bool) returns (at: nat)
    requires exists row :: row in rows && has(row)
    ensures at < |rows| && has(rows[at]) && forall i :: 0 <= i < at ==> !has(rows[i])
  {
    if has(rows[0]) {
      at := 0;
    } else {
      at := FirstOf(rows[1..], has);
      at := at + 1;
      assert forall i :: 0 < i < at ==> rows[i] == rows[1..][i - 1];
    }
  }

  /** The first row of its kind in the timeline is one that no other of its kind goes before. */
  lemma EarliestOf(rows: seq<Row>, has: Row -> bool) returns (at: nat)
    requires exists row :: row in rows && has(row)
    ensures at < |SortEvents(rows)| && has(SortEvents(rows)[at]) && SortEvents(rows)[at] in rows
    ensures forall i :: 0 <= i < at ==> !has(SortEvents(rows)[i])
    ensures forall row :: row in rows && has(row) ==> AtMostAsLate(SortEvents(rows)[at], row)
  {
    var sorted := SortEvents(rows);
    LatenessIsPreorder();
    StableSort.SortSorted(AtMostAsLate, rows);
    forall row
      ensures row in sorted <==> row in rows
    {
      StableSort.SortMembers(AtMostAsLate, rows, row);
    }
    hide StableSort.Sort;
    var known :| known in rows && has(known);
    assert known in sorted;
    at := FirstOf(sorted, has);
    forall row | row in rows && has(row)
      ensures AtMostAsLate(sorted[at], row)
    {
      var i :| 0 <= i < |sorted| && sorted[i] == row;
      assert i == at || AtMostAsLate(sorted[at], sorted[i]);
    }
  }

  // ---- user and message ----

  predicate NamesUser(row: Row) {
    row.event.userAddress.Some? && row.event.userAddress.value != ""
  }

  predicate NamesMessage(row: Row) {
    row.event.messageId.Some? && row.event.messageId.value != ""
  }

  lemma {:induction false} FirstUserStays(selectors: map<nat, nat>, rows: seq<Row>, at: nat)
    requires at <= |rows| && forall i :: 0 <= i < at ==> !NamesUser(rows[i])
    requires at < |rows| ==> NamesUser(rows[at])
    ensures Reduce(selectors, rows).userAddress
            == if at < |rows| then Some(Lower(rows[at].event.userAddress.value)) else None
  {
    hide ModeAfter, DestinationAfter, FlagsAfter, Lower;
    if rows != [] {
      var front := rows[..|rows| - 1];
      FirstUserStays(selectors, front, if at < |rows| then at else |front|);
    }
  }

  lemma {:induction false} FirstMessageStays(selectors: map<nat, nat>, rows: seq<Row>, at: nat)
    requires at <= |rows| && forall i :: 0 <= i < at ==> !NamesMessage(rows[i])
    requires at < |rows| ==> NamesMessage(rows[at])
    ensures Reduce(selectors, rows).ccipMessageId
            == if at < |rows| then Some(Lower(rows[at].event.messageId.value)) else None
  {
    hide ModeAfter, DestinationAfter, FlagsAfter, Lower;
    if rows != [] {
      var front := rows[..|rows| - 1];
      FirstMessageStays(selectors, front, if at < |rows| then at else |front|);
    }
  }

  /** The user of an execution is that of an earliest row that names one, in lower case, and the zero address
      when no row does. */
  lemma UserIsEarliest(selectors: map<nat, nat>, rows: seq<Row>)
    ensures if exists row :: row in rows && NamesUser(row) then
              exists row :: row in rows && NamesUser(row)
                            && (forall other :: other in rows && NamesUser(other) ==> AtMostAsLate(row, other))
                            && Project(selectors, rows).userAddress == Lower(row.event.userAddress.value)
            else Project(selectors, rows).userAddress == ZERO_ADDRESS
  {
    hide Reduce, SortEvents, Lower, AtMostAsLate;
    if exists row :: row in rows && NamesUser(row) {
      var at := EarliestOf(rows, NamesUser);
      FirstUserStays(selectors, SortEvents(rows), at);
    } else {
      SortedMembers(rows);
      FirstUserStays(selectors, SortEvents(rows), |SortEvents(rows)|);
    }
  }

  lemma MessageIsEarliest(selectors: map<nat, nat>, rows: seq<Row>)
    ensures if exists row :: row in rows && NamesMessage(row) then
              exists row :: row in rows && NamesMessage(row)
                            && (forall other :: other in rows && NamesMessage(other) ==> AtMostAsLate(row, other))
                            && Project(selectors, rows).projection.ccipMessageId
                               == Some(Lower(row.event.messageId.value))
            else Project(selectors, rows).projection.ccipMessageId == None
  {
    hide Reduce, SortEvents, Lower, AtMostAsLate;
    if exists row :: row in rows && NamesMessage(row) {
      var at := EarliestOf(rows, NamesMessage);
      FirstMessageStays(selectors, SortEvents(rows), at);
    } else {
      SortedMembers(rows);
      FirstMessageStays(selectors, SortEvents(rows), |SortEvents(rows)|);
    }
  }

  lemma SortedMembers(rows: seq<Row>)
    ensures forall row :: row in SortEvents(rows) <==> row in rows
  {
    forall row
      ensures row in SortEvents(rows) <==> row in rows
    {
      StableSort.SortMembers(AtMostAsLate, rows, row);
    }
  }

  // ---- mode ----

  function Letters(bytes: seq<Byte>): (text: string)
    ensures |text| == |bytes| && forall i :: 0 <= i < |bytes| ==> text[i] == bytes[i] as char
  {
    seq(|bytes|, i requires 0 <= i < |bytes| => bytes[i] as char)
  }

  /** A text stands at a place among the bytes, whatever the case of its letters. */
  ghost predicate StandsAt(details: seq<Byte>, at: nat, text: string) {
    at + |text| <= |details| && Lower(Letters(details[at..at + |text|])) == text
  }

  lemma StartIsPlace(details: seq<Byte>, at: nat, text: string)
    requires at <= |details|
    ensures StartsWith(details[at..], text) <==> StandsAt(details, at, text)
  {
    if at + |text| <= |details| {
      var part := Letters(details[at..at + |text|]);
      assert forall i :: 0 <= i < |text| ==> details[at..][i] == details[at..at + |text|][i];
      if StartsWith(details[at..], text) {
        assert Lower(part) == text;
      }
    }
  }

  /** The extracted mode is that of the first place where either is named, and there is none when neither is. */
  lemma {:induction false} ModeIsFirstNamed(details: seq<Byte>, at: nat)
    requires at <= |details|
    requires forall i :: 0 <= i < at ==> !StandsAt(details, i, "mode=top_up") && !StandsAt(details, i, "mode=repay")
    ensures StandsAt(details, at, "mode=top_up") ==> ExtractMode(details) == Some("TOP_UP")
    ensures StandsAt(details, at, "mode=repay") ==> ExtractMode(details) == Some("REPAY")
    ensures at == |details| ==> ExtractMode(details) == None
  {
    hide StartsWith, StandsAt, ExtractMode;
    SkipUnnamed(details, at);
    StartIsPlace(details, at, "mode=top_up");
    StartIsPlace(details, at, "mode=repay");
    NotBoth(details[at..]);
    ModeHere(details[at..]);
  }

  lemma ModeHere(details: seq<Byte>)
    ensures details == [] ==> ExtractMode(details) == None && !StartsWith(details, "mode=top_up")
                              && !StartsWith(details, "mode=repay")
    ensures StartsWith(details, "mode=top_up") ==> ExtractMode(details) == Some("TOP_UP")
    ensures StartsWith(details, "mode=repay") && !StartsWith(details, "mode=top_up") ==>
              ExtractMode(details) == Some("REPAY")
  {
  }

  lemma NotBoth(details: seq<Byte>)
    ensures !(StartsWith(details, "mode=top_up") && StartsWith(details, "mode=repay"))
  {
    assert "mode=top_up"[5] == 't' && "mode=repay"[5] == 'r';
  }

  lemma {:induction false} SkipUnnamed(details: seq<Byte>, at: nat)
    requires at <= |details|
    requires forall i :: 0 <= i < at ==> !StandsAt(details, i, "mode=top_up") && !StandsAt(details, i, "mode=repay")
    ensures ExtractMode(details) == ExtractMode(details[at..])
  {
    hide StartsWith, StandsAt;
    if at == 0 {
      assert details[0..] == details;
    } else {
      SkipUnnamed(details, at - 1);
      StartIsPlace(details, at - 1, "mode=top_up");
      StartIsPlace(details, at - 1, "mode=repay");
      assert details[at - 1..][1..] == details[at..];
    }
  }

  predicate NamesMode(row: Row) {
    row.event.eventName == LogEntryAdded && row.event.payload.LogEntry?
    && ExtractMode(row.event.payload.details).Some?
  }

  lemma {:induction false} FirstModeStays(selectors: map<nat, nat>, rows: seq<Row>, at: nat)
    requires at <= |rows| && forall i :: 0 <= i < at ==> !NamesMode(rows[i])
    requires at < |rows| ==> NamesMode(rows[at])
    ensures Reduce(selectors, rows).mode
            == if at < |rows| then ExtractMode(rows[at].event.payload.details) else None
  {
    hide TextAfter, DestinationAfter, FlagsAfter, ExtractMode;
    if rows != [] {
      var front, last := rows[..|rows| - 1], rows[|rows| - 1];
      FirstModeStays(selectors, front, if at < |rows| then at else |front|);
      if last.event.payload.LogEntry? {
        ModeIsPresent(last.event.payload.details);
      }
      if at < |rows| {
        ModeIsPresent(rows[at].event.payload.details);
      }
    }
  }

  lemma {:induction false} ModeIsPresent(details: seq<Byte>)
    ensures ExtractMode(details) in {None, Some("TOP_UP"), Some("REPAY")}
  {
    hide StartsWith;
    if details != [] {
      ModeIsPresent(details[1..]);
    }
  }

  /** The mode of an execution is that of an earliest log entry that names one. */
  lemma ModeIsEarliest(selectors: map<nat, nat>, rows: seq<Row>)
    ensures if exists row :: row in rows && NamesMode(row) then
              exists row :: row in rows && NamesMode(row)
                            && (forall other :: other in rows && NamesMode(other) ==> AtMostAsLate(row, other))
                            && Project(selectors, rows).projection.mode == ExtractMode(row.event.payload.details)
            else Project(selectors, rows).projection.mode == None
  {
    hide Reduce, SortEvents, ExtractMode, AtMostAsLate;
    if exists row :: row in rows && NamesMode(row) {
      var at := EarliestOf(rows, NamesMode);
      FirstModeStays(selectors, SortEvents(rows), at);
    } else {
      SortedMembers(rows);
      FirstModeStays(selectors, SortEvents(rows), |SortEvents(rows)|);
    }
  }

  // ---- destination ----

  /** The chain a row says the rescue goes to: where a crossing completed, or what its selector stands for. */
  function NamedDestination(selectors: map<nat, nat>, row: Row): Option<nat> {
    match row.event.eventName
    case CrossChainCompleted => Some(row.chainId)
    case CrossChainInitiated =>
      (match row.event.payload
       case CrossInitiated(targetChain, _) =>
         if targetChain in selectors then Some(selectors[targetChain]) else None
       case _ => None)
    case _ => None
  }

  /** The destination is the last one a row of the timeline names, if any does. */
  lemma {:induction false} DestinationIsLastNamed(selectors: map<nat, nat>, rows: seq<Row>, at: int)
    requires -1 <= at < |rows|
    requires at >= 0 ==> NamedDestination(selectors, rows[at]).Some?
    requires forall i :: at < i < |rows| ==> NamedDestination(selectors, rows[i]) == None
    ensures Reduce(selectors, rows).destinationChainId
            == if at >= 0 then NamedDestination(selectors, rows[at]) else None
  {
    hide TextAfter, ModeAfter, FlagsAfter;
    if rows != [] && at < |rows| - 1 {
      DestinationIsLastNamed(selectors, rows[..|rows| - 1], at);
    }
  }
}
