/**
 From chain to queue: the indexer stores rows, the relay worker scans them for cross-chain messages that were
 initiated and not concluded, and seeds a job for each.
 */
module Pipeline {
  import opened Common
  import opened AbiWords
  import opened EventDecoder
  import I = RescueIndexer
  import T = IndexerTheorems
  import R = RelayQueue

  type Message = R.MessageId

  /** The order the database sorts message ids by. */
  type Order = (Message, Message) -> bool

  ghost predicate TotalOrder(before: Order) {
    && (forall a :: !before(a, a))
    && (forall a, b, c :: before(a, b) && before(b, c) ==> before(a, c))
    && (forall a, b :: a == b || before(a, b) || before(b, a))
  }

  // ---- the scan for unresolved messages ----

  predicate InitiatedRow(row: I.Row) {
    row.event.eventName == CrossChainInitiated && row.event.messageId.Some?
  }

  predicate ConcludingRow(row: I.Row) {
    row.event.eventName in {CrossChainCompleted, CrossChainDestinationFailed, MessageFailed}
    && row.event.messageId.Some?
  }

  predicate Concluded(table: I.Table, m: Message) {
    exists key :: key in table.rows && ConcludingRow(table.rows[key])
                  && Lower(table.rows[key].event.messageId.value) == Lower(m)
  }

  /** The rows that initiate a message. */
  function RowsInitiating(table: I.Table, m: Message): set<I.Key> {
    set key | key in table.rows && InitiatedRow(table.rows[key]) && table.rows[key].event.messageId.value == m
  }

  function UnresolvedIds(table: I.Table): set<Message> {
    set key | key in table.rows && InitiatedRow(table.rows[key])
              && !Concluded(table, table.rows[key].event.messageId.value) :: table.rows[key].event.messageId.value
  }

  function LowerText(t: Option<string>): Option<string> {
    if I.Present(t) then Some(Lower(t.value)) else None
  }

  function ScannedRow(row: I.Row): R.UnresolvedRow
    requires InitiatedRow(row)
  {
    R.UnresolvedRow(Lower(row.event.messageId.value), LowerText(row.event.execId), row.chainId,
                    if row.event.payload.CrossInitiated? then Some(row.event.payload.targetChain) else None)
  }

  /** A message is unresolved when a stored event initiates it and none, in whatever case it writes the id,
      completes it, fails it at its destination, or reports it failed. */
  lemma UnresolvedIff(table: I.Table, m: Message)
    ensures m in UnresolvedIds(table)
            <==> && (exists key :: key in table.rows && table.rows[key].event.messageId == Some(m)
                                   && table.rows[key].event.eventName == CrossChainInitiated)
                 && !exists key :: key in table.rows && table.rows[key].event.messageId.Some?
                                   && Lower(table.rows[key].event.messageId.value) == Lower(m)
                                   && (table.rows[key].event.eventName == CrossChainCompleted
                                       || table.rows[key].event.eventName == CrossChainDestinationFailed
                                       || table.rows[key].event.eventName == MessageFailed)
  {
    hide Lower;
    forall key | key in table.rows
      ensures table.rows[key].event.messageId == Some(m) && table.rows[key].event.eventName == CrossChainInitiated
              <==> InitiatedRow(table.rows[key]) && table.rows[key].event.messageId.value == m
    {
    }
  }

  /** What the scan hands the worker: the row's chain, its selector, and its ids in lower case, an empty execution id
      counting as none. */
  lemma ScannedFields(row: I.Row)
    requires InitiatedRow(row)
    ensures var scanned := ScannedRow(row);
            && row.event.messageId == Some(row.event.messageId.value)
            && scanned.messageId == Lower(row.event.messageId.value) && scanned.sourceChainId == row.chainId
            && (scanned.execId.None? <==> row.event.execId in {None, Some("")})
            && (scanned.execId.Some? ==> scanned.execId == Some(Lower(row.event.execId.value)))
            && (forall chain: nat, fee: nat :: row.event.payload == CrossInitiated(chain, fee) ==>
                  scanned.targetChain == Some(chain))
            && (!row.event.payload.CrossInitiated? ==> scanned.targetChain == None)
  {
    hide Lower;
  }

  lemma {:induction false} LatestExists(table: I.Table, keys: set<I.Key>)
    requires keys != {} && keys <= table.rows.Keys
    ensures exists key :: key in keys && forall k :: k in keys ==> table.rows[k].id <= table.rows[key].id
    decreases |keys|
  {
    var c :| c in keys;
    var rest := keys - {c};
    assert forall k :: k in keys ==> k == c || k in rest;
    if rest != {} {
      LatestExists(table, rest);
      var r :| r in rest && forall k :: k in rest ==> table.rows[k].id <= table.rows[r].id;
      var best := if table.rows[c].id <= table.rows[r].id then r else c;
      assert best in keys && forall k :: k in keys ==> table.rows[k].id <= table.rows[best].id;
    }
  }

  /** Of the rows that initiate a message, the one stored last. */
  ghost function LatestRow(table: I.Table, m: Message): (row: I.Row)
    requires RowsInitiating(table, m) != {}
    ensures exists key :: key in RowsInitiating(table, m) && row == table.rows[key]
    ensures forall k :: k in RowsInitiating(table, m) ==> table.rows[k].id <= row.id
  {
    var keys := RowsInitiating(table, m);
    LatestExists(table, keys);
    var key :| key in keys && forall k :: k in keys ==> table.rows[k].id <= table.rows[key].id;
    table.rows[key]
  }

  lemma {:induction false} LeastExists(before: Order, ids: set<Message>)
    requires TotalOrder(before) && ids != {}
    ensures exists m :: m in ids && forall n :: n in ids ==> n == m || before(m, n)
    decreases |ids|
  {
    var c :| c in ids;
    var rest := ids - {c};
    assert forall n :: n in ids ==> n == c || n in rest;
    if rest != {} {
      LeastExists(before, rest);
      var m :| m in rest && forall n :: n in rest ==> n == m || before(m, n);
      var least := if before(c, m) then c else m;
      assert least in ids && forall n :: n in ids ==> n == least || before(least, n);
    }
  }

  ghost function Least(before: Order, ids: set<Message>): (m: Message)
    requires TotalOrder(before) && ids != {}
    ensures m in ids && forall n :: n in ids ==> n == m || before(m, n)
  {
    LeastExists(before, ids);
    var m :| m in ids && forall n :: n in ids ==> n == m || before(m, n);
    m
  }

  /** ORDER BY */
  ghost function Ascending(before: Order, ids: set<Message>): (r: seq<Message>)
    requires TotalOrder(before)
    ensures |r| == |ids| && forall m :: m in r <==> m in ids
    decreases |ids|
  {
    if ids == {} then []
    else
      var m := Least(before, ids);
      [m] + Ascending(before, ids - {m})
  }

  function Limit<X>(s: seq<X>, n: nat): seq<X> {
    if n < |s| then s[..n] else s
  }

  /** One scan: the unresolved messages in order, as many as the limit allows, each with its latest row. */
  ghost function Scan(table: I.Table, before: Order, limit: nat): (rows: seq<R.UnresolvedRow>)
    requires TotalOrder(before)
  {
    var ids := Limit(Ascending(before, UnresolvedIds(table)), limit);
    seq(|ids|, i requires 0 <= i < |ids| =>
      assert ids[i] in UnresolvedIds(table);
      InitiatedOf(table, ids[i]);
      ScannedRow(LatestRow(table, ids[i])))
  }

  lemma InitiatedOf(table: I.Table, m: Message)
    requires m in UnresolvedIds(table)
    ensures RowsInitiating(table, m) != {} && InitiatedRow(LatestRow(table, m))
    ensures LatestRow(table, m).event.messageId.value == m
  {
    var key :| key in table.rows && InitiatedRow(table.rows[key]) && table.rows[key].event.messageId.value == m;
    assert key in RowsInitiating(table, m);
  }

  // ---- which messages a scan reaches ----

  /** How many unresolved messages come before one. */
  ghost function Rank(before: Order, ids: set<Message>, m: Message): nat {
    |set n | n in ids && before(n, m)|
  }

  lemma NoneBeforeLeast(before: Order, ids: set<Message>)
    requires TotalOrder(before) && ids != {}
    ensures Rank(before, ids, Least(before, ids)) == 0
  {
    var least := Least(before, ids);
    forall n | n in ids
      ensures !before(n, least)
    {
      assert n == least || before(least, n);
      assert !before(least, least);
    }
    assert (set n | n in ids && before(n, least)) == {};
  }

  lemma OneMoreBefore(before: Order, ids: set<Message>, m: Message)
    requires TotalOrder(before) && ids != {} && m in ids - {Least(before, ids)}
    ensures Rank(before, ids, m) == Rank(before, ids - {Least(before, ids)}, m) + 1
  {
    var least := Least(before, ids);
    var rest := ids - {least};
    hide TotalOrder;
    assert (set n | n in ids && before(n, m)) == (set n | n in rest && before(n, m)) + {least};
  }

  lemma {:induction false} RankIsPosition(before: Order, ids: set<Message>, i: nat)
    requires TotalOrder(before) && i < |ids|
    ensures Rank(before, ids, Ascending(before, ids)[i]) == i
    decreases i
  {
    hide Rank, TotalOrder;
    var rest := ids - {Least(before, ids)};
    if i == 0 {
      NoneBeforeLeast(before, ids);
    } else {
      RankIsPosition(before, rest, i - 1);
      assert Ascending(before, ids)[i] == Ascending(before, rest)[i - 1];
      OneMoreBefore(before, ids, Ascending(before, rest)[i - 1]);
    }
  }

  lemma LimitMembers<X>(s: seq<X>, n: nat, x: X)
    ensures x in Limit(s, n) <==> exists i :: 0 <= i < |s| && i < n && s[i] == x
  {
    if i :| 0 <= i < |s| && i < n && s[i] == x {
      assert Limit(s, n)[i] == x;
    }
  }

  /** The limit keeps exactly the messages of smaller rank. */
  lemma ReachedIffRank(before: Order, ids: set<Message>, limit: nat, m: Message)
    requires TotalOrder(before)
    ensures m in Limit(Ascending(before, ids), limit) <==> m in ids && Rank(before, ids, m) < limit
  {
    hide Rank, TotalOrder, Ascending, Limit;
    var all := Ascending(before, ids);
    LimitMembers(all, limit, m);
    forall i: nat | i < |all|
      ensures Rank(before, ids, all[i]) == i
    {
      RankIsPosition(before, ids, i);
    }
    if m in ids {
      var i :| 0 <= i < |all| && all[i] == m;
    }
  }

  lemma RankBelowSize(before: Order, ids: set<Message>, m: Message)
    requires TotalOrder(before) && m in ids
    ensures Rank(before, ids, m) < |ids|
  {
    var earlier := set n | n in ids && before(n, m);
    assert earlier <= ids - {m};
    SubsetSize(earlier, ids - {m});
  }

  // ---- a seed pass ----

  ghost predicate IdsLower(table: I.Table) {
    forall key :: key in table.rows && table.rows[key].event.messageId.Some? ==>
      Lower(table.rows[key].event.messageId.value) == table.rows[key].event.messageId.value
  }

  lemma {:induction false} SeedsInsert(cfg: R.Config, s: R.State, steps: seq<R.Step>, m: Message)
    requires forall i :: 0 <= i < |steps| ==> steps[i].Seed?
    ensures m in R.Exec(cfg, s, steps).jobs
            <==> m in s.jobs || exists i :: 0 <= i < |steps| && steps[i].row.messageId == m && steps[i].destination != 0
  {
    if steps != [] {
      var front := steps[..|steps| - 1];
      SeedsInsert(cfg, s, front, m);
      assert forall i :: 0 <= i < |front| ==> front[i] == steps[i];
    }
  }

  /** Seeding leaves every job there is as it is, but for its chains, execution and time of update. */
  lemma {:induction false} SeedsPreserve(cfg: R.Config, s: R.State, steps: seq<R.Step>, m: Message)
    requires forall i :: 0 <= i < |steps| ==> steps[i].Seed?
    requires m in s.jobs
    ensures var s' := R.Exec(cfg, s, steps);
            && s'.held == s.held && m in s'.jobs
            && s'.jobs[m].id == s.jobs[m].id && s'.jobs[m].status == s.jobs[m].status
            && s'.jobs[m].attemptCount == s.jobs[m].attemptCount
            && s'.jobs[m].nextAttemptAt == s.jobs[m].nextAttemptAt
  {
    if steps != [] {
      SeedsPreserve(cfg, s, steps[..|steps| - 1], m);
    }
  }

  /** After a seed pass an unresolved message has its one job exactly if it had one, or the scan reached it and
      its destination is known. */
  lemma SeedPassIff(cfg: R.Config, s: R.State, table: I.Table, before: Order, routes: R.Routes, m: Message)
    requires TotalOrder(before) && IdsLower(table) && m in UnresolvedIds(table)
    ensures RowsInitiating(table, m) != {} && InitiatedRow(LatestRow(table, m))
    ensures m in R.Exec(cfg, s, R.SeedSteps(routes, Scan(table, before, cfg.scanLimit))).jobs
            <==> m in s.jobs
                 || (Rank(before, UnresolvedIds(table), m) < cfg.scanLimit
                     && R.ResolveDestination(routes, ScannedRow(LatestRow(table, m))) != 0)
  {
    hide R.Exec, R.ResolveDestination, Ascending, UnresolvedIds, RowsInitiating, Limit;
    InitiatedOf(table, m);
    var ids := Limit(Ascending(before, UnresolvedIds(table)), cfg.scanLimit);
    var rows := Scan(table, before, cfg.scanLimit);
    var steps := R.SeedSteps(routes, rows);
    SeedsInsert(cfg, s, steps, m);
    ReachedIffRank(before, UnresolvedIds(table), cfg.scanLimit, m);
    forall i | 0 <= i < |ids|
      ensures steps[i].row.messageId == ids[i]
      ensures ids[i] == m ==> steps[i].destination == R.ResolveDestination(routes, ScannedRow(LatestRow(table, m)))
    {
      ScanRowIs(table, before, cfg.scanLimit, i);
    }
  }

  lemma ScanRowIs(table: I.Table, before: Order, limit: nat, i: nat)
    requires TotalOrder(before) && IdsLower(table)
    requires i < |Limit(Ascending(before, UnresolvedIds(table)), limit)|
    ensures var id := Limit(Ascending(before, UnresolvedIds(table)), limit)[i];
            && |Scan(table, before, limit)| == |Limit(Ascending(before, UnresolvedIds(table)), limit)|
            && RowsInitiating(table, id) != {} && InitiatedRow(LatestRow(table, id))
            && Scan(table, before, limit)[i] == ScannedRow(LatestRow(table, id))
            && Scan(table, before, limit)[i].messageId == id
  {
    var id := Limit(Ascending(before, UnresolvedIds(table)), limit)[i];
    assert id in UnresolvedIds(table);
    InitiatedOf(table, id);
  }

  /** With no more unresolved messages than the limit, each one with a known destination has its job. */
  lemma SeedPassReachesAll(cfg: R.Config, s: R.State, table: I.Table, before: Order, routes: R.Routes, m: Message)
    requires TotalOrder(before) && IdsLower(table) && m in UnresolvedIds(table)
    requires |UnresolvedIds(table)| <= cfg.scanLimit
    ensures RowsInitiating(table, m) != {} && InitiatedRow(LatestRow(table, m))
    ensures R.ResolveDestination(routes, ScannedRow(LatestRow(table, m))) != 0 ==>
              m in R.Exec(cfg, s, R.SeedSteps(routes, Scan(table, before, cfg.scanLimit))).jobs
  {
    hide *;
    SeedPassIff(cfg, s, table, before, routes, m);
    RankBelowSize(before, UnresolvedIds(table), m);
  }

  // ---- replayed logs ----

  /** Storing a settled log again leaves the unresolved messages as they are: no row, no message, no job. */
  lemma ReplayAddsNoMessage(table: I.Table, c: I.ChainId, log: RawLog, now: nat)
    requires T.Settled(table, c, log)
    ensures match I.PersistLog(table, c, log, now)
            case Err(_) => false
            case Ok(table') => table'.rows.Keys == table.rows.Keys && UnresolvedIds(table') == UnresolvedIds(table)
  {
    hide T.Settled, I.PersistLog, Concluded, UnresolvedIds;
    T.ReplayChangesNothing(table, c, log, now);
    match I.PersistLog(table, c, log, now)
    case Err(_) =>
    case Ok(table') => SameEvents(table, table');
  }

  lemma SameEvents(table: I.Table, table': I.Table)
    requires table'.rows.Keys == table.rows.Keys
    requires forall key :: key in table.rows ==> table'.rows[key].event == table.rows[key].event
    ensures UnresolvedIds(table') == UnresolvedIds(table)
  {
    hide Concluded;
    forall m
      ensures Concluded(table', m) == Concluded(table, m)
    {
      SameConclusion(table, table', m);
      SameConclusion(table', table, m);
    }
    assert forall key :: key in table.rows <==> key in table'.rows;
  }

  lemma SameConclusion(table: I.Table, table': I.Table, m: Message)
    requires table'.rows.Keys == table.rows.Keys
    requires forall key :: key in table.rows ==> table'.rows[key].event == table.rows[key].event
    ensures Concluded(table, m) ==> Concluded(table', m)
  {
    if Concluded(table, m) {
      var key :| key in table.rows && ConcludingRow(table.rows[key])
                 && Lower(table.rows[key].event.messageId.value) == Lower(m);
      assert key in table'.rows && ConcludingRow(table'.rows[key]);
    }
  }
}
