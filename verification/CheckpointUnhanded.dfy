/**
 A run from a replica's making in which a point is taken between opening and the first drain, with no drain and
 no checkpoint under way: it names an entry the application was not given. It is accepted, and what it leaves
 restores a state that is not the history's.
 */
module CheckpointUnhanded {
  import opened Basics
  import opened CheckpointModel
  import opened CheckpointReplay
  import opened CheckpointRuns
  import opened CheckpointSteps
  import opened CheckpointState
  import opened CheckpointConf
  import opened CheckpointTheorems
  import opened CheckpointPaths
  import M = Membership

  const Alone: Conf := M.Conf([1], [], [], [], false)
  const Note: Entry := Entry(1, 1, Normal, [7])

  function Count(app: App, e: Entry): App { app + 1 }
  function Length(data: Bytes): App { |data| }
  function NoChange(conf: Conf, e: Entry): Option<Conf> { None }

  const Group: Env := Env(Config(1, false), Alone, 0, Count, Length, NoChange, [Note])

  lemma AloneDecides()
    ensures M.ConfFault(Alone) == None
  {
    assert M.Members([1]) == {1} && M.Members([]) == {};
  }

  lemma GroupIs()
    ensures Sane(Group) && ConfAt(Group, 0) == ConfAt(Group, 1) == Alone && AppAt(Group, 0) == 0 && AppAt(Group, 1) == 1
    ensures Committed(Group, [Note], 0, 1) && Committed(Group, [], 0, 0)
  {
    AloneDecides();
    hide M.ConfFault;
    assert ConfAt(Group, 0) == Alone && AppAt(Group, 0) == 0;
    assert ConfAt(Group, 1) == Alone && AppAt(Group, 1) == 1;
  }

  // ---------------------------------------------------------------- the run

  const Logs: Update := Update(None, [Note], None, [], Some(HardState(1, 1, 1)))

  const Filling: seq<Event> := [EvOpen(0), EvDrain, EvWrite(Logs), EvCrash(false)]
  /** The point is taken once the replica is open, before the first drain. */
  const Reopening: seq<Event> := [EvOpen(1)]
  const Taking: seq<Event> := [EvCapture([]), EvBegin(0, false), EvTake, EvFinish, EvCrash(false)]
  const Handing: seq<Event> := [EvOpen(1), EvDrain, EvHand]

  const Empty: Snapshot := Snapshot(1, 1, Alone, [])

  /** The one entry is committed, behind the image or past it, and nothing else is held. */
  ghost predicate Holds(n: Node, snapshot: Snapshot, entries: seq<Entry>) {
    && n.store.snapshot == snapshot && n.store.entries == entries && n.store.hard == HardState(1, 1, 1)
    && n.store.conf == Alone && n.required.None? && n.transition.None? && n.pending.None? && !n.unwritten
  }

  /** The replica read back, still to be opened. */
  ghost predicate Closed(y: System, snapshot: Snapshot, entries: seq<Entry>) {
    && Inv(Group, y) && Holds(y.node, snapshot, entries) && !y.node.up && y.node.drain.None?
    && y.node.delivered == snapshot.index && y.given == 0 && y.app == 0 && y.captures == []
    && y.node.kept == Some(Events(ImageIn(y.node.store), []))
  }

  /** The replica open, and what was delivered still to be handed over. */
  ghost predicate Unhanded(y: System, snapshot: Snapshot, entries: seq<Entry>) {
    && Inv(Group, y) && Holds(y.node, snapshot, entries) && y.node.up && !Busy(y.node)
    && y.node.delivered == 1 && y.given == 0 && y.app == 0 && y.captures == []
    && y.node.kept == Some(Events(ImageIn(y.node.store), entries))
  }

  // ---------------------------------------------------------------- its steps

  lemma LogsTaken(n: Node)
    requires n.store == NewStore(Alone) && !n.unwritten
    ensures Published(n.store, Logs) == n.store.(entries := [Note], hard := HardState(1, 1, 1))
    ensures Supplied(Group, n, Logs)
  {
    GroupIs();
    AloneDecides();
    hide M.ConfFault, Sane, ConfAt, AppAt;
    TakeAllAppends([], 0, [Note]);
    assert [] + [Note] == [Note];
    assert TakeAll([], [Note]) == [Note];
  }

  lemma StartMoves(y: System)
    requires y == Created(Group)
    ensures var z := CameUp(Group, y, 0); var d := Drained(z);
      && Moves(Group, y, EvOpen(0), z) && Moves(Group, z, EvDrain, d)
      && d.node.store == NewStore(Alone) && !d.node.unwritten && d.node.up && d.node.drain.Some?
      && d.node.pending.None? && d.node.required.None? && d.node.transition.None?
  {
  }

  lemma LogsMoves(y: System)
    requires y.node.store == NewStore(Alone) && !y.node.unwritten && y.node.up && y.node.drain.Some?
    requires y.node.pending.None? && y.node.required.None? && y.node.transition.None?
    ensures Moves(Group, y, EvWrite(Logs), Written(Group, y, Logs))
    ensures Holds(Written(Group, y, Logs).node, NO_SNAPSHOT, [Note])
  {
    LogsTaken(y.node);
    hide Supplied, Published, UpdateRecords;
  }

  lemma CrashMoves(y: System, snapshot: Snapshot, entries: seq<Entry>)
    requires Inv(Group, y) && Holds(y.node, snapshot, entries) && (snapshot.index > 0 ==> snapshot.conf == Alone)
    ensures Moves(Group, y, EvCrash(false), Crashed(Group, y, false))
    ensures Closed(Crashed(Group, y, false), snapshot, entries)
  {
    CrashKeeps(Group, y, false);
    hide Replayed, WellFormed, HoldsHistory, StoreFault, GatheredFits, EntryNamed;
  }

  lemma FillingHappens()
    ensures Happens(Group, Created(Group), Filling)
    ensures Closed(Reach(Group, Created(Group), Filling), NO_SNAPSHOT, [Note])
  {
    var y0 := Created(Group);
    var y1 := CameUp(Group, y0, 0);
    var y2 := Drained(y1);
    var y3 := Written(Group, y2, Logs);
    var y4 := Crashed(Group, y3, false);
    GroupIs();
    CreatedInv(Group);
    hide Inv, Sane, Moves, CameUp, Drained, Written, Crashed, Holds, Closed, Reach, Happens, Created, ConfAt, AppAt;
    StartMoves(y0);
    LogsMoves(y2);
    FilledInv(y0);
    CrashMoves(y3, NO_SNAPSHOT, [Note]);
    PassesHappens(Group, [y0, y1, y2, y3, y4], Filling);
  }

  lemma FilledInv(y: System)
    requires Sane(Group) && Inv(Group, y) && y == Created(Group)
    ensures Inv(Group, Written(Group, Drained(CameUp(Group, y, 0)), Logs))
  {
    StartMoves(y);
    LogsMoves(Drained(CameUp(Group, y, 0)));
    hide Inv, Sane, Written, Drained, CameUp, Created;
    StepKeeps(Group, y, EvOpen(0));
    StepKeeps(Group, CameUp(Group, y, 0), EvDrain);
    StepKeeps(Group, Drained(CameUp(Group, y, 0)), EvWrite(Logs));
  }

  lemma OpenMoves(y: System, snapshot: Snapshot, entries: seq<Entry>)
    requires Sane(Group) && Closed(y, snapshot, entries)
    requires (snapshot == NO_SNAPSHOT && entries == [Note]) || (snapshot == Empty && entries == [])
    ensures Moves(Group, y, EvOpen(1), CameUp(Group, y, 1)) && Unhanded(CameUp(Group, y, 1), snapshot, entries)
  {
    hide Inv, Sane, Over, AllAccepted;
    PageAccepted(entries);
    assert FirstPage(y.node, 1) == entries;
    OpenKeeps(Group, y, 1);
  }

  lemma PageAccepted(entries: seq<Entry>)
    requires entries == [Note] || entries == []
    ensures AllAccepted(Group, Alone, entries) && Over(Group, Alone, entries) == Alone
  {
    assert [Note][..0] == [] && Over(Group, Alone, []) == Alone;
  }

  lemma TakeMoves(y: System)
    requires Unhanded(y, NO_SNAPSHOT, [Note])
    ensures var c := Captured(y, []); var b := Begun(Group, c, Capture(Point(1, 1, Alone), []), false);
      && Moves(Group, y, EvCapture([]), c) && Moves(Group, c, EvBegin(0, false), b)
      && b.node == y.node.(pending := b.node.pending) && b.node.pending.Some? && b.node.pending.value.snapshot == Empty
      && c.captures == [Capture(Point(1, 1, Alone), [])]
  {
    AloneDecides();
    hide Inv, M.ConfFault, CheckpointRecords;
    assert PointOf(y.node) == Ok(Point(1, 1, Alone));
  }

  lemma FinishMoves(y: System)
    requires y.node.up && y.node.pending.Some? && y.node.pending.value.snapshot == Empty
    requires Holds(y.node.(pending := None), NO_SNAPSHOT, [Note])
    ensures var t := Step(Group, y, EvTake); var z := Finished(t);
      Moves(Group, y, EvTake, t) && Moves(Group, t, EvFinish, z) && Holds(z.node, Empty, [])
  {
    assert [Note][1..] == [] && Trimmed([], 1) == [] && Trimmed([Note], 1) == Trimmed([Note][1..], 1);
  }

  lemma TakenInv(y: System)
    requires Sane(Group) && Unhanded(y, NO_SNAPSHOT, [Note])
    ensures var c := Captured(y, []); var b := Begun(Group, c, Capture(Point(1, 1, Alone), []), false);
      Inv(Group, Finished(Step(Group, b, EvTake)))
  {
    TakeMoves(y);
    hide Inv, Sane, Begun, Captured, Finished, Step;
    var c := Captured(y, []);
    CaptureKeeps(Group, y, []);
    BeginKeeps(Group, c, Capture(Point(1, 1, Alone), []), false);
    TogglePending(Group, Begun(Group, c, Capture(Point(1, 1, Alone), []), false), EvTake);
    FinishKeeps(Group, Step(Group, Begun(Group, c, Capture(Point(1, 1, Alone), []), false), EvTake));
  }

  lemma TakingHappens(y: System)
    requires Sane(Group) && Unhanded(y, NO_SNAPSHOT, [Note])
    ensures Happens(Group, y, Taking) && Closed(Reach(Group, y, Taking), Empty, [])
  {
    var c := Captured(y, []);
    var b := Begun(Group, c, Capture(Point(1, 1, Alone), []), false);
    var t := Step(Group, b, EvTake);
    var f := Finished(t);
    TakeMoves(y);
    TakenInv(y);
    hide Inv, Sane, Moves, Begun, Captured, Finished, Step, Crashed, Closed, Reach, Happens;
    FinishMoves(b);
    CrashMoves(f, Empty, []);
    PassesHappens(Group, [y, c, b, t, f, Crashed(Group, f, false)], Taking);
  }

  lemma HandMoves(y: System)
    requires Unhanded(y, Empty, [])
    ensures var d := Drained(y); var z := HandedOver(Group, d);
      && Moves(Group, y, EvDrain, d) && Moves(Group, d, EvHand, z)
      && z.app == 0 && z.given == z.node.delivered == 1 && !Busy(z.node) && z.node.kept.None?
  {
    hide Inv;
  }

  lemma HandingHappens(y: System)
    requires Sane(Group) && Closed(y, Empty, [])
    ensures Happens(Group, y, Handing)
    ensures var z := Reach(Group, y, Handing);
      z.app == 0 && z.given == z.node.delivered == 1 && !Busy(z.node) && z.node.kept.None?
  {
    var u := CameUp(Group, y, 1);
    hide Inv, Sane, Moves, CameUp, Drained, HandedOver, Closed, Unhanded, Reach, Happens;
    OpenMoves(y, Empty, []);
    HandMoves(u);
    PassesHappens(Group, [y, u, Drained(u), HandedOver(Group, Drained(u))], Handing);
  }

  // ---------------------------------------------------------------- what it leaves

  const Whole: seq<Event> := Filling + Reopening + Taking + Handing

  /** The whole run can happen with no step of it refused. The point is asked for with no drain and no checkpoint
      under way, and names an entry the application was not given; reopened and handed everything that was
      kept, the application is in a state that is not the history's. */
  lemma UnhandedPointRestoresAnother()
    ensures Sane(Group) && Happens(Group, Created(Group), Whole)
    ensures var y := Reach(Group, Created(Group), Filling + Reopening);
      && y.node.up && !Busy(y.node) && y.given < y.node.delivered && PointOf(y.node).Ok?
      && Length([]) == y.app && !ImageFits(Group, PointOf(y.node).value, [])
    ensures var z := Reach(Group, Created(Group), Whole);
      && !Busy(z.node) && z.node.kept.None? && z.given == z.node.delivered == 1 && z.app != AppAt(Group, 1)
    ensures !StateGuarded(Group, Created(Group), Whole)
  {
    GroupIs();
    hide *;
    var y := Created(Group);
    FillingHappens();
    ReopeningHappens();
    var open := Filling + Reopening;
    UnhandedPoint(Reach(Group, y, open));
    TakingHappens(Reach(Group, y, open));
    HappensConcat(Group, y, open, Taking);
    HandingHappens(Reach(Group, y, open + Taking));
    HappensConcat(Group, y, open + Taking, Handing);
    NotGuarded(Filling + Reopening + Taking + Handing);
    assert Whole == Filling + Reopening + Taking + Handing by { WholeIs(); }
  }

  lemma WholeIs()
    ensures Whole == Filling + Reopening + Taking + Handing
  {
  }

  lemma ReopeningHappens()
    ensures Happens(Group, Created(Group), Filling + Reopening)
    ensures Unhanded(Reach(Group, Created(Group), Filling + Reopening), NO_SNAPSHOT, [Note])
  {
    GroupIs();
    FillingHappens();
    hide Inv, Sane, Moves, CameUp, Closed, Unhanded, Reach, Happens, Created, ConfAt, AppAt;
    var y := Reach(Group, Created(Group), Filling);
    OpenMoves(y, NO_SNAPSHOT, [Note]);
    PassesHappens(Group, [y, CameUp(Group, y, 1)], Reopening);
    HappensConcat(Group, Created(Group), Filling, Reopening);
  }

  lemma UnhandedPoint(y: System)
    requires Unhanded(y, NO_SNAPSHOT, [Note])
    ensures y.node.up && !Busy(y.node) && y.given < y.node.delivered && PointOf(y.node).Ok?
    ensures Length([]) == y.app && !ImageFits(Group, PointOf(y.node).value, [])
  {
    GroupIs();
    hide Inv, Sane, AppAt, ConfAt;
    assert PointOf(y.node) == Ok(Point(1, 1, Alone));
  }

  lemma NotGuarded(events: seq<Event>)
    requires Sane(Group) && Happens(Group, Created(Group), events)
    requires var z := Reach(Group, Created(Group), events); z.app == 0 && z.given == 1
    ensures !StateGuarded(Group, Created(Group), events) && AppAt(Group, 1) == 1
  {
    GroupIs();
    hide Sane, Happens, Reach, Created, ConfAt, AppAt, StateGuarded, GatheredFits, Given;
    StateIsHistory(Group, events, |events|);
    assert events[..|events|] == events;
  }
}
