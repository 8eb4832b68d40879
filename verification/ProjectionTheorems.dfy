/**
 What the projection of an execution depends on, and how its status moves as events arrive.
 */
module ProjectionTheorems {
  import opened Common
  import opened AbiWords
  import opened EventDecoder
  import opened RescueIndexer
  import opened RescueProjection
  import StableSort

  // ---- flags and names ----

  function Names(rows: seq<Row>): set<EventName> {
    set row | row in rows :: row.event.eventName
  }

  lemma NamesSnoc(rows: seq<Row>)
    requires rows != []
    ensures Names(rows) == Names(rows[..|rows| - 1]) + {rows[|rows| - 1].event.eventName}
  {
    assert rows == rows[..|rows| - 1] + [rows[|rows| - 1]];
  }

  /** Each flag says that an event of its name is there. */
  lemma {:induction false} FlagsAreNames(selectors: map<nat, nat>, rows: seq<Row>)
    ensures var p, names := Reduce(selectors, rows), Names(rows);
            && (p.has.initiated <==> RescueInitiated in names)
            && (p.has.rescueCompleted <==> RescueCompleted in names)
            && (p.has.rescueFailed <==> RescueFailed in names)
            && (p.has.crossChainInitiated <==> CrossChainInitiated in names)
            && (p.has.crossChainCompleted <==> CrossChainCompleted in names)
            && (p.has.crossChainFailed <==> CrossChainDestinationFailed in names || MessageFailed in names)
  {
    hide Names, Lower, ModeAfter, DestinationAfter, TextAfter;
    if rows == [] {
      assert Names(rows) == {} by { NoNames(); }
    } else {
      FlagsAreNames(selectors, rows[..|rows| - 1]);
      NamesSnoc(rows);
    }
  }

  lemma NoNames()
    ensures Names([]) == {}
  {
  }

  /** The status a set of event names stands for. */
  function StatusOf(names: set<EventName>): Status {
    if RescueFailed in names || CrossChainDestinationFailed in names || MessageFailed in names then FailedStatus
    else if CrossChainCompleted in names then CompletedStatus
    else if CrossChainInitiated in names then InProgress
    else if RescueCompleted in names then CompletedStatus
    else if RescueInitiated in names then InProgress
    else NoStatus
  }

  /** The status depends on nothing but which events are there, and so not on their order or number. */
  lemma StatusIsOfNames(selectors: map<nat, nat>, rows: seq<Row>)
    ensures Project(selectors, rows).status == StatusOf(Names(rows))
  {
    hide Reduce;
    FlagsAreNames(selectors, SortEvents(rows));
    SortedNames(rows);
  }

  lemma SortedNames(rows: seq<Row>)
    ensures Names(SortEvents(rows)) == Names(rows)
  {
    forall row
      ensures row in SortEvents(rows) <==> row in rows
    {
      StableSort.SortMembers(AtMostAsLate, rows, row);
    }
  }

  // ---- order ----

  lemma LatenessIsPreorder()
    ensures StableSort.TotalPreorder(AtMostAsLate)
  {
  }

  predicate SameKey(a: Row, b: Row) {
    a.indexedAt == b.indexedAt && a.chainId == b.chainId && a.blockNumber == b.blockNumber && a.logIndex == b.logIndex
  }

  ghost predicate KeysDistinct(rows: seq<Row>) {
    forall a, b :: a in rows && b in rows && SameKey(a, b) ==> a == b
  }

  lemma KeysDecideRows(rows: seq<Row>)
    ensures KeysDistinct(rows) <==> StableSort.KeysDecide(AtMostAsLate, rows)
  {
    forall a, b
      ensures SameKey(a, b) <==> AtMostAsLate(a, b) && AtMostAsLate(b, a)
    {
    }
  }

  /** The timeline is the same for every order in which the rows come back exactly when no two different rows
      share time of indexing, chain, block and log index. */
  lemma TimelineIndependentIff(rows: seq<Row>)
    ensures KeysDistinct(rows)
            <==> forall t :: StableSort.Permutation(rows, t) ==> SortEvents(t) == SortEvents(rows)
  {
    hide AtMostAsLate;
    KeysDecideRows(rows);
    LatenessIsPreorder();
    StableSort.OrderIndependence(AtMostAsLate, rows);
  }

  /** Then every projected field is the same, too; the status is the same even when keys are shared. */
  lemma ProjectionIndependent(selectors: map<nat, nat>, rows: seq<Row>, t: seq<Row>)
    requires StableSort.Permutation(rows, t)
    ensures KeysDistinct(rows) ==> Project(selectors, t) == Project(selectors, rows)
    ensures Project(selectors, t).status == Project(selectors, rows).status
  {
    hide Reduce, SortEvents, KeysDistinct, Names, StableSort.Permutation;
    TimelineIndependentIff(rows);
    StatusIsOfNames(selectors, rows);
    StatusIsOfNames(selectors, t);
    PermutedNames(rows, t);
  }

  lemma PermutedNames(rows: seq<Row>, t: seq<Row>)
    requires StableSort.Permutation(rows, t)
    ensures Names(rows) == Names(t)
  {
    forall row
      ensures row in rows <==> row in t
    {
      assert row in multiset(rows) <==> row in multiset(t);
    }
  }

  // ---- fields ----

  lemma {:induction false} LastApplied(selectors: map<nat, nat>, rows: seq<Row>)
    requires rows != []
    ensures Reduce(selectors, rows).lastEventAt == Some(rows[|rows| - 1].indexedAt)
  {
    hide TextAfter, ModeAfter, DestinationAfter, FlagsAfter;
  }

  /** The time of the last event is the latest time of indexing among the rows. */
  lemma LastEventIsLatest(selectors: map<nat, nat>, rows: seq<Row>)
    requires rows != []
    ensures exists last :: last in rows && Project(selectors, rows).projection.lastEventAt == Some(last.indexedAt)
                           && forall row :: row in rows ==> row.indexedAt <= last.indexedAt
  {
    hide Reduce;
    var sorted := SortEvents(rows);
    LatenessIsPreorder();
    StableSort.SortSorted(AtMostAsLate, rows);
    forall row
      ensures row in sorted <==> row in rows
    {
      StableSort.SortMembers(AtMostAsLate, rows, row);
    }
    assert rows[0] in sorted;
    LastApplied(selectors, sorted);
    var last := sorted[|sorted| - 1];
    forall row | row in rows
      ensures row.indexedAt <= last.indexedAt
    {
      var i :| 0 <= i < |sorted| && sorted[i] == row;
      assert i == |sorted| - 1 || AtMostAsLate(sorted[i], last);
    }
  }

  lemma {:induction false} SourceIsFirst(selectors: map<nat, nat>, rows: seq<Row>)
    requires rows != [] && rows[0].chainId != 0 && rows[0].txHash != ""
    ensures Reduce(selectors, rows).sourceChainId == Some(rows[0].chainId)
    ensures Reduce(selectors, rows).sourceTxHash == Some(rows[0].txHash)
  {
    hide TextAfter, ModeAfter, DestinationAfter, FlagsAfter;
    if |rows| > 1 {
      SourceIsFirst(selectors, rows[..|rows| - 1]);
    } else {
      assert rows[..0] == [];
    }
  }

  /** Source chain and transaction are those of a row no other goes before. */
  lemma SourceIsEarliest(selectors: map<nat, nat>, rows: seq<Row>)
    requires rows != [] && forall row :: row in rows ==> row.chainId != 0 && row.txHash != ""
    ensures exists first :: first in rows && (forall row :: row in rows ==> AtMostAsLate(first, row))
                            && Project(selectors, rows).projection.sourceChainId == Some(first.chainId)
                            && Project(selectors, rows).projection.sourceTxHash == Some(first.txHash)
  {
    hide Reduce;
    var sorted := SortEvents(rows);
    LatenessIsPreorder();
    StableSort.SortSorted(AtMostAsLate, rows);
    forall row
      ensures row in sorted <==> row in rows
    {
      StableSort.SortMembers(AtMostAsLate, rows, row);
    }
    assert rows[0] in sorted;
    var first := sorted[0];
    assert first in rows;
    SourceIsFirst(selectors, sorted);
    forall row | row in rows
      ensures AtMostAsLate(first, row)
    {
      var i :| 0 <= i < |sorted| && sorted[i] == row;
      assert i == 0 || AtMostAsLate(sorted[0], sorted[i]);
    }
  }

  /** A completed crossing settles the destination: it is the chain of the last completion, unless a later
      initiation names another. */
  lemma {:induction false} DestinationIsLastWritten(selectors: map<nat, nat>, rows: seq<Row>, at: nat)
    requires at < |rows| && rows[at].event.eventName == CrossChainCompleted
    requires forall i :: at < i < |rows| ==> rows[i].event.eventName !in {CrossChainCompleted, CrossChainInitiated}
    ensures Reduce(selectors, rows).destinationChainId == Some(rows[at].chainId)
  {
    hide TextAfter, ModeAfter, FlagsAfter;
    if at < |rows| - 1 {
      DestinationIsLastWritten(selectors, rows[..|rows| - 1], at);
    }
  }

  // ---- the status as events arrive ----

  function Arrived(selectors: map<nat, nat>, rows: seq<Row>, k: nat): Status
    requires k <= |rows|
  {
    Project(selectors, rows[..k]).status
  }

  /** How far an execution has come; the status changes only when this grows. */
  function Stage(names: set<EventName>): nat {
    if RescueFailed in names || CrossChainDestinationFailed in names || MessageFailed in names then 5
    else if CrossChainCompleted in names then 4
    else if CrossChainInitiated in names then 3
    else if RescueCompleted in names then 2
    else if RescueInitiated in names then 1
    else 0
  }

  lemma StageGrows(names: set<EventName>, more: set<EventName>)
    requires names <= more
    ensures Stage(names) <= Stage(more) <= 5
    ensures StatusOf(names) != StatusOf(more) ==> Stage(names) < Stage(more)
  {
  }

  lemma PrefixNames(rows: seq<Row>, j: nat, k: nat)
    requires j <= k <= |rows|
    ensures Names(rows[..j]) <= Names(rows[..k])
  {
    assert rows[..j] == rows[..k][..j];
  }

  /** As events arrive: failed stays failed, a status is never lost again, and once a crossing completed the
      execution is completed or failed. */
  lemma StatusMovesOn(selectors: map<nat, nat>, rows: seq<Row>, j: nat, k: nat)
    requires j <= k <= |rows|
    ensures Arrived(selectors, rows, j) == FailedStatus ==> Arrived(selectors, rows, k) == FailedStatus
    ensures Arrived(selectors, rows, j) != NoStatus ==> Arrived(selectors, rows, k) != NoStatus
    ensures (exists i :: 0 <= i < j && rows[i].event.eventName == CrossChainCompleted) ==>
              Arrived(selectors, rows, k) in {CompletedStatus, FailedStatus}
  {
    hide Project;
    StatusIsOfNames(selectors, rows[..j]);
    StatusIsOfNames(selectors, rows[..k]);
    PrefixNames(rows, j, k);
    if i :| 0 <= i < j && rows[i].event.eventName == CrossChainCompleted {
      assert rows[..j][i] in rows[..j];
      assert CrossChainCompleted in Names(rows[..j]);
    }
  }

  function Changes(selectors: map<nat, nat>, rows: seq<Row>): nat {
    if rows == [] then 0
    else
      Changes(selectors, rows[..|rows| - 1])
      + (if Arrived(selectors, rows, |rows| - 1) != Arrived(selectors, rows, |rows|) then 1 else 0)
  }

  lemma {:induction false} ChangesWithinStage(selectors: map<nat, nat>, rows: seq<Row>)
    ensures Changes(selectors, rows) <= Stage(Names(rows))
  {
    hide Project, Names, Stage, StatusOf;
    if rows != [] {
      var front := rows[..|rows| - 1];
      ChangesWithinStage(selectors, front);
      StatusIsOfNames(selectors, front);
      StatusIsOfNames(selectors, rows);
      assert rows[..|rows|] == rows;
      NamesSnoc(rows);
      StageGrows(Names(front), Names(rows));
    }
  }

  /** Whatever arrives in whatever order, the status changes at most five times. */
  lemma FiveChanges(selectors: map<nat, nat>, rows: seq<Row>)
    ensures Changes(selectors, rows) <= 5
  {
    hide Project, Names;
    ChangesWithinStage(selectors, rows);
    StageGrows(Names(rows), Names(rows));
  }

  function Named(name: EventName): Row {
    Row(0, 1, 0, "", 0, "", DecodedEvent(name, None, None, None, Completed(0, 0)), 0)
  }

  function Changed(selectors: map<nat, nat>, rows: seq<Row>, row: Row): nat {
    if StatusOf(Names(rows)) != StatusOf(Names(rows + [row])) then 1 else 0
  }

  lemma ChangesSnoc(selectors: map<nat, nat>, rows: seq<Row>, row: Row)
    ensures Changes(selectors, rows + [row]) == Changes(selectors, rows) + Changed(selectors, rows, row)
    ensures Names(rows + [row]) == Names(rows) + {row.event.eventName}
  {
    hide Project, Names, StatusOf;
    var all := rows + [row];
    assert all[..|rows|] == rows && all[..|all|] == all;
    StatusIsOfNames(selectors, rows);
    StatusIsOfNames(selectors, all);
    NamesSnoc(all);
  }

  /** Five is reached: initiated, completed, then crossing, crossed, and failed after all. */
  lemma FiveChangesHappen(selectors: map<nat, nat>)
    ensures exists rows :: Changes(selectors, rows) == 5
  {
    hide Changes, Names;
    var a := [Named(RescueInitiated)];
    var b := a + [Named(RescueCompleted)];
    var c := b + [Named(CrossChainInitiated)];
    var d := c + [Named(CrossChainCompleted)];
    var e := d + [Named(RescueFailed)];
    NoChanges(selectors);
    NoNames();
    assert [] + a == a;
    ChangesSnoc(selectors, [], a[0]);
    ChangesSnoc(selectors, a, Named(RescueCompleted));
    ChangesSnoc(selectors, b, Named(CrossChainInitiated));
    ChangesSnoc(selectors, c, Named(CrossChainCompleted));
    ChangesSnoc(selectors, d, Named(RescueFailed));
    assert Changes(selectors, e) == 5;
  }

  lemma NoChanges(selectors: map<nat, nat>)
    ensures Changes(selectors, []) == 0
  {
  }
}
