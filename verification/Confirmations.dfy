/**
 What any number of indexer processes never do to a chain's cursor, whatever they race for: move it to a block
 without its confirmations, or let two stored rows share an id.
 */
module Confirmations {
  import opened Common
  import opened AbiWords
  import opened EventDecoder
  import opened RescueIndexer

  /** So many confirmations lie above a block by some latest block that was read for the chain in a run; a chain
      too short to confirm anything is read up to block 0. */
  ghost predicate Confirmed(settings: Settings, steps: seq<Step>, c: ChainId, block: int) {
    block <= 0
    || exists step :: step in steps && step.ReadCursor? && step.chain == c
                      && block + settings.confirmations <= step.latestBlock
  }

  ghost predicate PhaseConfirmed(settings: Settings, steps: seq<Step>, phase: Phase) {
    phase.Idle? || Confirmed(settings, steps, phase.chain, phase.toBlock)
  }

  ghost predicate AllConfirmed(settings: Settings, steps: seq<Step>, s: State) {
    && (forall c :: c in s.cursors ==> Confirmed(settings, steps, c, s.cursors[c]))
    && (forall p :: p in s.phases ==> PhaseConfirmed(settings, steps, s.phases[p]))
  }

  lemma ConfirmedLater(settings: Settings, steps: seq<Step>, step: Step, s: State)
    requires AllConfirmed(settings, steps, s)
    ensures AllConfirmed(settings, steps + [step], s)
  {
    assert forall x :: x in steps ==> x in steps + [step];
    forall c, block: int | Confirmed(settings, steps, c, block)
      ensures Confirmed(settings, steps + [step], c, block)
    {
    }
  }

  lemma RangeConfirmed(settings: Settings, steps: seq<Step>, s: State, step: Step, startBlock: nat)
    requires step.ReadCursor? && step in steps
    ensures PhaseConfirmed(settings, steps, Range(settings, s, step.chain, startBlock, step.latestBlock))
  {
    var phase := Range(settings, s, step.chain, startBlock, step.latestBlock);
    if phase.Fetching? && phase.toBlock > 0 {
      assert phase.toBlock + settings.confirmations <= step.latestBlock;
    }
  }

  lemma StepConfirms(world: World, settings: Settings, steps: seq<Step>, s: State, step: Step)
    requires AllConfirmed(settings, steps, s) && step in steps
    ensures AllConfirmed(settings, steps, Next(world, settings, s, step))
  {
    hide PersistLog, LogsBetween, Confirmed, Range;
    var phase := PhaseOf(s, step.process);
    assert PhaseConfirmed(settings, steps, phase);
    if step.ReadCursor? && step.chain in world {
      RangeConfirmed(settings, steps, s, step, world[step.chain].startBlock);
    }
  }

  lemma {:induction false} RunsConfirm(world: World, settings: Settings, steps: seq<Step>)
    ensures AllConfirmed(settings, steps, Exec(world, settings, INITIAL, steps))
  {
    hide Next, Confirmed;
    if steps != [] {
      var before, last := steps[..|steps| - 1], steps[|steps| - 1];
      RunsConfirm(world, settings, before);
      var s := Exec(world, settings, INITIAL, before);
      assert before + [last] == steps;
      ConfirmedLater(settings, before, last, s);
      StepConfirms(world, settings, steps, s, last);
    }
  }

  /** In every run each cursor, and the end of each range a process is at work on, lies at or below the latest
      block of some read of that chain less the confirmations, or at or below block 0. */
  lemma {:induction false} CursorsAreConfirmed(world: World, settings: Settings, steps: seq<Step>, c: ChainId,
                                               block: int)
    requires var s := Exec(world, settings, INITIAL, steps);
             (c in s.cursors && s.cursors[c] == block)
             || exists p :: p in s.phases && !s.phases[p].Idle?
                            && s.phases[p].chain == c && s.phases[p].toBlock == block
    ensures block <= 0
            || exists step :: step in steps && step.ReadCursor? && step.chain == c
                              && block + settings.confirmations <= step.latestBlock
  {
    RunsConfirm(world, settings, steps);
    var s := Exec(world, settings, INITIAL, steps);
    assert Confirmed(settings, steps, c, block) by {
      hide Exec, Confirmed;
    }
  }

  // ---- row ids ----

  ghost predicate Numbered(table: Table) {
    && (forall key :: key in table.rows ==> table.rows[key].id < table.nextId)
    && (forall a, b :: a in table.rows && b in table.rows && table.rows[a].id == table.rows[b].id ==> a == b)
  }

  /** A stored row keeps its id, and no two rows ever share one. */
  ghost predicate IdsKept(before: Table, after: Table) {
    forall key :: key in before.rows ==> key in after.rows && after.rows[key].id == before.rows[key].id
  }

  lemma UpsertNumbers(table: Table, c: ChainId, log: RawLog, event: DecodedEvent, now: nat)
    requires Numbered(table)
    ensures Numbered(Upsert(table, c, log, event, now)) && IdsKept(table, Upsert(table, c, log, event, now))
  {
    hide KeyOf;
  }

  lemma StepNumbers(world: World, settings: Settings, s: State, step: Step)
    requires Numbered(s.table)
    ensures Numbered(Next(world, settings, s, step).table) && IdsKept(s.table, Next(world, settings, s, step).table)
  {
    hide DecodeIndexedEvent, LogsBetween, Upsert, Numbered, Range;
    var phase := PhaseOf(s, step.process);
    if step.PersistNext? && PersistingNow(world, s, step.process) && phase.done < |Fetched(world, phase)| {
      var log := Fetched(world, phase)[phase.done];
      var decoded := DecodeIndexedEvent(log);
      if decoded.Ok? && decoded.value.Some? {
        UpsertNumbers(s.table, phase.chain, log, decoded.value.value, step.now);
      }
    }
  }

  lemma {:induction false} RunsNumber(world: World, settings: Settings, steps: seq<Step>)
    ensures Numbered(Exec(world, settings, INITIAL, steps).table)
  {
    hide Next;
    if steps != [] {
      RunsNumber(world, settings, steps[..|steps| - 1]);
      StepNumbers(world, settings, Exec(world, settings, INITIAL, steps[..|steps| - 1]), steps[|steps| - 1]);
    }
  }

  /** In every run rows have ids of their own, and going on never changes one. */
  lemma {:induction false} RowIdsAreStable(world: World, settings: Settings, steps: seq<Step>, more: seq<Step>)
    ensures Numbered(Exec(world, settings, INITIAL, steps + more).table)
    ensures IdsKept(Exec(world, settings, INITIAL, steps).table, Exec(world, settings, INITIAL, steps + more).table)
  {
    hide Next, Numbered;
    RunsNumber(world, settings, steps + more);
    if more == [] {
      assert steps + more == steps;
    } else {
      var front := more[..|more| - 1];
      RowIdsAreStable(world, settings, steps, front);
      assert (steps + more)[..|steps + more| - 1] == steps + front;
      StepNumbers(world, settings, Exec(world, settings, INITIAL, steps + front), more[|more| - 1]);
    }
  }
}
