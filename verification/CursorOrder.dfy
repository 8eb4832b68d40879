/**
 When a chain's cursor only ever moves forward: not with several processes, and always with one.
 */
module CursorOrder {
  import opened Common
  import opened RescueIndexer

  ghost predicate CursorsKept(before: State, after: State) {
    forall c :: c in before.cursors ==> c in after.cursors && before.cursors[c] <= after.cursors[c]
  }

  /** No step of a run moves a cursor back. */
  ghost predicate Forward(world: World, settings: Settings, steps: seq<Step>) {
    steps == []
    || (Forward(world, settings, steps[..|steps| - 1])
        && CursorsKept(Exec(world, settings, INITIAL, steps[..|steps| - 1]), Exec(world, settings, INITIAL, steps)))
  }

  /** All steps are made by so many processes. */
  ghost predicate ByProcesses(steps: seq<Step>, n: nat) {
    forall i :: 0 <= i < |steps| ==> steps[i].process < n
  }

  // ---- one process ----

  /** What the process works on lies ahead of the chain's cursor. */
  predicate PhaseAhead(s: State, phase: Phase) {
    phase.Idle?
    || (phase.fromBlock <= phase.toBlock
        && (phase.chain in s.cursors ==> s.cursors[phase.chain] < phase.fromBlock))
  }

  ghost predicate Ahead(s: State) {
    && (forall p :: p in s.phases ==> p == 0)
    && PhaseAhead(s, PhaseOf(s, 0))
  }

  lemma AloneGoesAhead(world: World, settings: Settings, s: State, step: Step)
    requires settings.blockWindow > 0 && Ahead(s) && step.process == 0
    ensures Ahead(Next(world, settings, s, step)) && CursorsKept(s, Next(world, settings, s, step))
  {
    hide PersistLog, LogsBetween;
  }

  lemma {:induction false} AloneIsForward(world: World, settings: Settings, steps: seq<Step>)
    requires settings.blockWindow > 0 && ByProcesses(steps, 1)
    ensures Ahead(Exec(world, settings, INITIAL, steps)) && Forward(world, settings, steps)
  {
    hide Next;
    if steps != [] {
      var before := steps[..|steps| - 1];
      AloneIsForward(world, settings, before);
      AloneGoesAhead(world, settings, Exec(world, settings, INITIAL, before), steps[|steps| - 1]);
    }
  }

  // ---- an empty window ----

  /** With a window of no blocks every range is empty and ends where the chain has not begun. */
  predicate PhaseStill(world: World, phase: Phase) {
    phase.Idle? || (phase.chain in world && phase.toBlock == world[phase.chain].startBlock - 1)
  }

  ghost predicate Still(world: World, s: State) {
    && (forall c :: c in s.cursors ==> c in world && s.cursors[c] == world[c].startBlock - 1)
    && (forall p :: p in s.phases ==> PhaseStill(world, s.phases[p]))
  }

  lemma EmptyWindowStandsStill(world: World, settings: Settings, s: State, step: Step)
    requires settings.blockWindow == 0 && Still(world, s)
    ensures Still(world, Next(world, settings, s, step)) && CursorsKept(s, Next(world, settings, s, step))
  {
    hide PersistLog, LogsBetween;
    var phase := PhaseOf(s, step.process);
    assert PhaseStill(world, phase);
  }

  lemma {:induction false} EmptyWindowIsForward(world: World, settings: Settings, steps: seq<Step>)
    requires settings.blockWindow == 0
    ensures Still(world, Exec(world, settings, INITIAL, steps)) && Forward(world, settings, steps)
  {
    hide Next;
    if steps != [] {
      var before := steps[..|steps| - 1];
      EmptyWindowIsForward(world, settings, before);
      EmptyWindowStandsStill(world, settings, Exec(world, settings, INITIAL, before), steps[|steps| - 1]);
    }
  }

  lemma {:induction false} ForwardSpan(world: World, settings: Settings, a: seq<Step>, b: seq<Step>)
    requires Forward(world, settings, a + b)
    ensures CursorsKept(Exec(world, settings, INITIAL, a), Exec(world, settings, INITIAL, a + b))
  {
    hide Next;
    if b == [] {
      assert a + b == a;
    } else {
      assert (a + b)[..|a + b| - 1] == a + b[..|b| - 1];
      ForwardSpan(world, settings, a, b[..|b| - 1]);
    }
  }

  // ---- two processes ----

  /** A process indexes a range without logs. */
  lemma EmptyWindow(world: World, settings: Settings, s: State, p: Process)
    requires PhaseOf(s, p).Fetching? && PhaseOf(s, p).chain in world && world[PhaseOf(s, p).chain].logs == []
    ensures Exec(world, settings, s, [Fetch(p, true), WriteCursor(p)])
            == s.(cursors := s.cursors[PhaseOf(s, p).chain := PhaseOf(s, p).toBlock], phases := s.phases[p := Idle])
  {
    hide PersistLog;
    var phase, fetch, write := PhaseOf(s, p), Fetch(p, true), WriteCursor(p);
    var s1 := Next(world, settings, s, fetch);
    assert [fetch, write][..1] == [fetch] && [fetch][..0] == [];
    assert Exec(world, settings, s, [fetch]) == s1;
    assert s1.phases == s.phases[p := Persisting(phase.chain, phase.fromBlock, phase.toBlock, 0)];
    assert s1.phases[p := Idle] == s.phases[p := Idle];
  }

  lemma Reads(world: World, settings: Settings, s: State, p: Process, c: ChainId, latestBlock: nat)
    requires PhaseOf(s, p) == Idle && c in world
    ensures Exec(world, settings, s, [ReadCursor(p, c, latestBlock)])
            == s.(phases := s.phases[p := Range(settings, s, c, world[c].startBlock, latestBlock)])
  {
    var read := ReadCursor(p, c, latestBlock);
    assert [read][..0] == [];
  }

  /** Two processes read the same cursor; one indexes two windows before the other writes its first. */
  function Overtaking(c: ChainId, latestBlock: nat): seq<Step> {
    [ReadCursor(0, c, latestBlock)] + [ReadCursor(1, c, latestBlock)] + [Fetch(1, true), WriteCursor(1)]
    + [ReadCursor(1, c, latestBlock)] + [Fetch(1, true), WriteCursor(1)]
  }

  lemma CursorMovesBack(settings: Settings, c: ChainId)
    requires settings.blockWindow > 0
    ensures var world := map[c := Chain(0, [])];
            var steps := Overtaking(c, settings.confirmations + 2 * settings.blockWindow);
            var before := Exec(world, settings, INITIAL, steps);
            var after := Exec(world, settings, INITIAL, steps + [Fetch(0, true), WriteCursor(0)]);
            c in before.cursors && c in after.cursors && after.cursors[c] < before.cursors[c]
  {
    hide Next, Exec;
    var world, w := map[c := Chain(0, [])], settings.blockWindow;
    var latest := settings.confirmations + 2 * w;
    var read0, read1, index := [ReadCursor(0, c, latest)], [ReadCursor(1, c, latest)], [Fetch(1, true), WriteCursor(1)];
    var s1 := INITIAL.(phases := map[0 := Fetching(c, 0, w - 1)]);
    var s2 := INITIAL.(phases := map[0 := Fetching(c, 0, w - 1), 1 := Fetching(c, 0, w - 1)]);
    var s3 := State(Table(map[], 1), map[c := w - 1], map[0 := Fetching(c, 0, w - 1), 1 := Idle]);
    var s4 := s3.(phases := s3.phases[1 := Fetching(c, w, 2 * w - 1)]);
    var s5 := s3.(cursors := map[c := 2 * w - 1]);
    Reads(world, settings, INITIAL, 0, c, latest);
    Reads(world, settings, s1, 1, c, latest);
    EmptyWindow(world, settings, s2, 1);
    Reads(world, settings, s3, 1, c, latest);
    EmptyWindow(world, settings, s4, 1);
    EmptyWindow(world, settings, s5, 0);
    assert s2.phases[1 := Idle] == s3.phases && INITIAL.cursors[c := w - 1] == s3.cursors;
    assert s4.phases[1 := Idle] == s5.phases && s4.cursors[c := 2 * w - 1] == s5.cursors;
    ExecConcat(world, settings, INITIAL, read0, read1);
    ExecConcat(world, settings, INITIAL, read0 + read1, index);
    ExecConcat(world, settings, INITIAL, read0 + read1 + index, read1);
    ExecConcat(world, settings, INITIAL, read0 + read1 + index + read1, index);
    ExecConcat(world, settings, INITIAL, Overtaking(c, latest), [Fetch(0, true), WriteCursor(0)]);
  }

  /** In every run of so many processes, over every world, cursors only move forward exactly when there is at
      most one process or the window is empty. */
  lemma ForwardIff(settings: Settings, n: nat)
    ensures (forall world, steps :: ByProcesses(steps, n) ==> Forward(world, settings, steps))
            <==> n <= 1 || settings.blockWindow == 0
  {
    if settings.blockWindow == 0 {
      forall world, steps
        ensures Forward(world, settings, steps)
      {
        EmptyWindowIsForward(world, settings, steps);
      }
    } else if n <= 1 {
      forall world, steps | ByProcesses(steps, n)
        ensures Forward(world, settings, steps)
      {
        AloneIsForward(world, settings, steps);
      }
    } else {
      OvertakingIsNotForward(settings);
    }
  }

  lemma OvertakingIsNotForward(settings: Settings)
    requires settings.blockWindow > 0
    ensures exists world, steps :: ByProcesses(steps, 2) && !Forward(world, settings, steps)
  {
    hide Next, Exec, Forward, CursorsKept;
    var world := map[0 := Chain(0, [])];
    var steps := Overtaking(0, settings.confirmations + 2 * settings.blockWindow);
    var late := [Fetch(0, true), WriteCursor(0)];
    CursorMovesBack(settings, 0);
    assert ByProcesses(steps + late, 2);
    if Forward(world, settings, steps + late) {
      ForwardSpan(world, settings, steps, late);
      NotKept(Exec(world, settings, INITIAL, steps), Exec(world, settings, INITIAL, steps + late), 0);
    }
  }

  lemma NotKept(before: State, after: State, c: ChainId)
    requires c in before.cursors && c in after.cursors && after.cursors[c] < before.cursors[c]
    ensures !CursorsKept(before, after)
  {
  }
}
