/**
 A run from a replica's making in which a point is taken while a drain that applied a change waits for a
 write: it is accepted once the drain is done, and what it leaves names a configuration the history did not
 have there. The next committed change is refused over it, so the replica does not open again.
 */
module CheckpointWitness {
  import opened Basics
  import opened CheckpointModel
  import opened CheckpointReplay
  import opened CheckpointRuns
  import opened CheckpointSteps
  import opened CheckpointConf
  import opened CheckpointTheorems
  import opened CheckpointPaths
  import M = Membership

  /** One member, then both halves of a joint configuration, then the two. */
  const Alone: Conf := M.Conf([1], [], [], [], false)
  const Joint: Conf := M.Conf([1, 2], [1], [], [], false)
  const Both: Conf := M.Conf([1, 2], [], [], [], false)

  const Enter: Entry := Entry(1, 1, Change, [1])
  const Leave: Entry := Entry(2, 1, Change, [2])

  function Decide(conf: Conf, e: Entry): Option<Conf> {
    if conf == Alone && e.data == [1] then Some(Joint) else if conf == Joint && e.data == [2] then Some(Both) else None
  }

  function Count(app: App, e: Entry): App { app + 1 }
  function Length(data: Bytes): App { |data| }

  const Group: Env := Env(Config(1, false), Alone, 0, Count, Length, Decide, [Enter, Leave])

  /** The changes are what the core makes of an entry that adds a voter jointly and of one that leaves the
      joint configuration; left once, it cannot be left again. */
  lemma DecideIsCore()
    ensures M.CoreApply(M.RolesOf(Alone), M.Stated(M.Explicit, [M.AddNode(2)])) == Ok(M.RolesOf(Joint))
    ensures M.CoreApply(M.RolesOf(Joint), M.Encode(M.LeaveJoint)) == Ok(M.RolesOf(Both))
    ensures M.CoreApply(M.RolesOf(Both), M.Encode(M.LeaveJoint)) == Err(M.NotJoint)
  {
    var added := [M.AddNode(2)];
    assert added[1..] == [] && M.Standing(added) == added;
    var r := M.Roles({1}, {}, {}, {}, false);
    var j := M.Roles({1, 2}, {1}, {}, {}, false);
    var b := M.Roles({1, 2}, {}, {}, {}, false);
    assert M.RolesOf(Alone) == r && M.RolesOf(Joint) == j && M.RolesOf(Both) == b;
    assert M.CoreChanges(r.(outgoing := r.voters), added) == j by {
      assert M.CoreChange(r.(outgoing := r.voters), added[0]) == j;
    }
    assert j.(learners := j.learners + j.next, next := {}, outgoing := {}, autoLeave := false) == b;
  }

  lemma ConfsDecide()
    ensures M.ConfFault(Alone) == None && M.ConfFault(Joint) == None
    ensures M.ConfFault(Both) == None
  {
    assert M.Members([1]) == {1} && M.Members([1, 2]) == {1, 2} && M.Members([]) == {};
  }

  lemma GroupIs()
    ensures Sane(Group) && ConfAt(Group, 0) == Alone && ConfAt(Group, 1) == Joint && ConfAt(Group, 2) == Both
    ensures Committed(Group, [Enter, Leave], 0, 1) && Committed(Group, [Enter, Leave], 0, 2)
  {
    ConfsDecide();
    hide M.ConfFault;
    assert ConfAt(Group, 0) == Alone;
    assert ConfAt(Group, 1) == Joint;
    assert ConfAt(Group, 2) == Both;
  }

  // ---------------------------------------------------------------- the run

  const Logs: Update := Update(None, [Enter, Leave], None, [], Some(HardState(1, 1, 1)))
  const Commits: Update := CommitOnly(Some(HardState(1, 1, 2)))

  const Filling: seq<Event> := [EvDrain, EvWrite(Logs), EvApply, EvHand]
  const Setting: seq<Event> := [EvOpen(0)] + Filling
  /** The point is taken while the drain waits for its last write. */
  const Waiting: seq<Event> := [EvDrain, EvWrite(Commits), EvApply]
  const Taking: seq<Event> := [EvCapture([0]), EvWrite(Commits), EvHand]
  const Keeping: seq<Event> := [EvBegin(0, false), EvTake, EvFinish, EvCrash(false)]

  /** The replica with both entries logged. */
  function Logging(commit: nat, conf: Conf, delivered: nat, drain: Option<Drain>): Node {
    Node(Store(HardState(1, 1, commit), conf, [Enter, Leave], NO_SNAPSHOT, [], 0), None, None, delivered, false, None,
         drain, None, true)
  }

  /** The replica opened for the first time. */
  function Starting(drain: Option<Drain>): Node {
    Node(NewStore(Alone), None, None, 0, false, None, drain, if drain.Some? then None else Some(Events(None, [])), true)
  }

  const Early: Capture := Capture(Point(1, 1, Both), [0])
  const Kept: Snapshot := Snapshot(1, 1, Both, [0])

  /** The application was given what was delivered, at every moment of the run. */
  ghost predicate Is(y: System, n: Node, app: App, captures: seq<Capture>) {
    y.node == n && y.given == n.delivered && y.app == app && y.captures == captures
  }

  // ---------------------------------------------------------------- its steps

  lemma LogsTaken()
    ensures Published(NewStore(Alone), Logs) == Logging(1, Alone, 0, None).store
    ensures Supplied(Group, Starting(Some(Drain(0, Events(None, [])))), Logs)
  {
    GroupIs();
    ConfsDecide();
    hide M.ConfFault, Sane, ConfAt;
    TakeAllAppends([], 0, [Enter, Leave]);
    assert [] + [Enter, Leave] == [Enter, Leave];
    assert TakeAll([], [Enter, Leave]) == [Enter, Leave];
  }

  lemma CommitsTaken(n: Node)
    requires exists conf, drain ::
      && M.ConfFault(conf) == None && (n == Logging(1, conf, 1, drain) || n == Logging(2, conf, 1, drain))
    ensures Published(n.store, Commits) == n.store.(hard := HardState(1, 1, 2)) && Supplied(Group, n, Commits)
  {
    GroupIs();
    hide M.ConfFault, Sane, ConfAt;
  }

  lemma OneGiven(app: App, e: Entry)
    ensures Given(Group, app, Events(None, [e])) == app + 1
  {
    assert [e][..0] == [] && Folded(Group, app, []) == app && Folded(Group, app, [e]) == Group.step(app, e);
  }

  lemma OpenMoves(y: System)
    requires y == Created(Group)
    ensures Moves(Group, y, EvOpen(0), CameUp(Group, y, 0)) && Is(CameUp(Group, y, 0), Starting(None), 0, [])
  {
  }

  lemma DrainMoves(y: System)
    requires y.node.up && y.node.pending.None? && y.node.drain.None? && Outstanding(y.node) == Events(None, [])
    requires y.given == y.node.delivered
    ensures Moves(Group, y, EvDrain, Drained(y))
    ensures Is(Drained(y), y.node.(drain := Some(Drain(y.node.delivered, Events(None, []))), kept := None),
               y.app, y.captures)
  {
  }

  lemma LogsMoves(y: System)
    requires Is(y, Starting(Some(Drain(0, Events(None, [])))), 0, [])
    ensures Moves(Group, y, EvWrite(Logs), Written(Group, y, Logs))
    ensures Is(Written(Group, y, Logs), Logging(1, Alone, 0, Some(Drain(0, Events(None, [])))), 0, [])
  {
    LogsTaken();
    hide Supplied, Published, UpdateRecords;
  }

  lemma CommitsMoves(y: System, commit: nat, conf: Conf, drain: Drain)
    requires 1 <= commit <= 2 && M.ConfFault(conf) == None
    requires y.node == Logging(commit, conf, 1, Some(drain)) && y.given == 1
    ensures Moves(Group, y, EvWrite(Commits), Written(Group, y, Commits))
    ensures Is(Written(Group, y, Commits), Logging(2, conf, 1, Some(drain)), y.app, y.captures)
  {
    CommitsTaken(y.node);
    hide Supplied, Published, UpdateRecords, M.ConfFault;
  }

  lemma ApplyMoves(y: System, from: nat, e: Entry, conf: Conf)
    requires y.node == Logging(from + 1, conf, from, Some(Drain(from, Events(None, [])))) && y.given == from
    requires from < 2 && e == [Enter, Leave][from] && Decide(conf, e).Some?
    ensures Moves(Group, y, EvApply, AppliedNext(Group, y))
    ensures Is(AppliedNext(Group, y),
               Logging(from + 1, Decide(conf, e).value, from, Some(Drain(from + 1, Events(None, [e])))),
               y.app, y.captures)
  {
    assert [] + [e] == [e];
  }

  lemma HandMoves(y: System, from: nat, e: Entry, conf: Conf)
    requires y.node == Logging(from + 1, conf, from, Some(Drain(from + 1, Events(None, [e]))))
    ensures Moves(Group, y, EvHand, HandedOver(Group, y))
    ensures Is(HandedOver(Group, y), Logging(from + 1, conf, from + 1, None), y.app + 1, y.captures)
  {
    OneGiven(y.app, e);
    hide Given;
  }

  lemma FillingHappens(y: System)
    requires Is(y, Starting(None), 0, [])
    ensures Happens(Group, y, Filling)
    ensures Is(Reach(Group, y, Filling), Logging(1, Joint, 1, None), 1, [])
  {
    var y1 := Drained(y);
    var y2 := Written(Group, y1, Logs);
    var y3 := AppliedNext(Group, y2);
    var y4 := HandedOver(Group, y3);
    hide Moves, Drained, Written, AppliedNext, HandedOver, Reach, Happens;
    DrainMoves(y);
    LogsMoves(y1);
    ApplyMoves(y2, 0, Enter, Alone);
    HandMoves(y3, 0, Enter, Joint);
    PassesHappens(Group, [y, y1, y2, y3, y4], Filling);
  }

  lemma SettingHappens()
    ensures Happens(Group, Created(Group), Setting)
    ensures Is(Reach(Group, Created(Group), Setting), Logging(1, Joint, 1, None), 1, [])
  {
    hide Moves, CameUp, Reach, Happens, Created;
    var y := Created(Group);
    OpenMoves(y);
    PassesHappens(Group, [y, CameUp(Group, y, 0)], [EvOpen(0)]);
    FillingHappens(CameUp(Group, y, 0));
    HappensConcat(Group, y, [EvOpen(0)], Filling);
  }

  lemma CaptureMoves(y: System)
    requires y.node.store == Logging(2, Both, 1, None).store && y.node.delivered == 1 && y.node.up
    requires y.app == 1 && y.given == 1
    ensures Moves(Group, y, EvCapture([0]), Captured(y, [0]))
    ensures Is(Captured(y, [0]), y.node, 1, y.captures + [Early])
  {
  }

  lemma WaitingHappens(y: System)
    requires Is(y, Logging(1, Joint, 1, None), 1, [])
    ensures Happens(Group, y, Waiting)
    ensures Is(Reach(Group, y, Waiting), Logging(2, Both, 1, Some(Drain(2, Events(None, [Leave])))), 1, [])
  {
    var y1 := Drained(y);
    var y2 := Written(Group, y1, Commits);
    var y3 := AppliedNext(Group, y2);
    ConfsDecide();
    hide Moves, Drained, Written, AppliedNext, Reach, Happens, M.ConfFault;
    DrainMoves(y);
    CommitsMoves(y1, 1, Joint, Drain(1, Events(None, [])));
    ApplyMoves(y2, 1, Leave, Joint);
    PassesHappens(Group, [y, y1, y2, y3], Waiting);
  }

  lemma TakingHappens(y: System)
    requires Is(y, Logging(2, Both, 1, Some(Drain(2, Events(None, [Leave])))), 1, [])
    ensures Happens(Group, y, Taking)
    ensures Is(Reach(Group, y, Taking), Logging(2, Both, 2, None), 2, [Early])
  {
    var y1 := Captured(y, [0]);
    var y2 := Written(Group, y1, Commits);
    var y3 := HandedOver(Group, y2);
    ConfsDecide();
    hide Moves, Written, HandedOver, Captured, Reach, Happens, M.ConfFault;
    CaptureMoves(y);
    assert [] + [Early] == [Early];
    CommitsMoves(y1, 2, Both, Drain(2, Events(None, [Leave])));
    HandMoves(y2, 1, Leave, Both);
    PassesHappens(Group, [y, y1, y2, y3], Taking);
  }

  // ---------------------------------------------------------------- what it leaves

  lemma BeginMoves(y: System)
    requires Is(y, Logging(2, Both, 2, None), 2, [Early])
    ensures var z := Begun(Group, y, Early, false);
      && Moves(Group, y, EvBegin(0, false), z) && z.node.pending.Some? && z.node.pending.value.snapshot == Kept
      && z.node == y.node.(pending := z.node.pending)
  {
    ConfsDecide();
    hide M.ConfFault, CheckpointRecords;
  }

  lemma FinishMoves(y: System)
    requires y.node == Logging(2, Both, 2, None).(pending := y.node.pending)
    requires y.node.pending.Some? && y.node.pending.value.snapshot == Kept
    ensures var t := Step(Group, y, EvTake); var z := Finished(t);
      && Moves(Group, y, EvTake, t) && Moves(Group, t, EvFinish, z)
      && z.node.store.snapshot == Kept && z.node.store.hard.commit == 2 && !z.node.unwritten && z.node.required.None?
  {
  }

  /** The replica read back over the image, with the configuration it names, and one change committed past it. */
  ghost predicate Stuck(y: System) {
    && Inv(Group, y) && !y.node.up && y.node.required.None?
    && y.node.store.snapshot == Kept && y.node.store.conf == Both && y.node.store.hard.commit == 2
  }

  lemma ReadsOnImage(y: System)
    requires Inv(Group, y) && y.node.store.snapshot == Kept && y.node.store.hard.commit == 2 && !y.node.unwritten
    requires y.node.required.None?
    ensures Moves(Group, y, EvCrash(false), Crashed(Group, y, false)) && Stuck(Crashed(Group, y, false))
  {
    CrashKeeps(Group, y, false);
    hide Replayed, WellFormed, HoldsHistory, StoreFault, GatheredFits, EntryNamed;
  }

  lemma KeptInv(y: System)
    requires Inv(Group, y) && Early in y.captures
    ensures Inv(Group, Finished(Step(Group, Begun(Group, y, Early, false), EvTake)))
  {
    hide Inv;
    BeginKeeps(Group, y, Early, false);
    TogglePending(Group, Begun(Group, y, Early, false), EvTake);
    FinishKeeps(Group, Step(Group, Begun(Group, y, Early, false), EvTake));
  }

  lemma KeepingHappens(y: System)
    requires Inv(Group, y) && Is(y, Logging(2, Both, 2, None), 2, [Early])
    ensures Happens(Group, y, Keeping) && Stuck(Reach(Group, y, Keeping))
  {
    var y1 := Begun(Group, y, Early, false);
    var y2 := Step(Group, y1, EvTake);
    var y3 := Finished(y2);
    var y4 := Crashed(Group, y3, false);
    KeptInv(y);
    hide Inv, Moves, Begun, Step, Finished, Crashed, Reach, Happens, Stuck;
    BeginMoves(y);
    FinishMoves(y1);
    ReadsOnImage(y3);
    PassesHappens(Group, [y, y1, y2, y3, y4], Keeping);
  }

  /** Opening can stop only past the change, and over the image's configuration the change is refused. */
  lemma StuckIsRefused(y: System, through: nat)
    requires Stuck(y) && PageEnd(y.node, through)
    ensures through == 2 && Recovered(Group, y.node, through).Err?
  {
    FirstPageIs(Group, y.node, through);
    hide Inv, Replayed;
    assert through == 1 ==> FirstPage(y.node, through) == [];
    assert FirstPage(y.node, 2) == [Leave];
    assert [Leave][..0] == [] && !Accepts(Group, Over(Group, Both, []), Leave);
  }

  const Whole: seq<Event> := Setting + Waiting + Taking + Keeping

  /** The whole run can happen with no step of it refused, the application given what was delivered when the point
      is asked for; and then the replica never opens again, whatever is done. The image kept names a
      configuration that is not the history's there, over which the history's next entry is refused. */
  lemma MidDrainPointClosesForGood()
    ensures Sane(Group) && Happens(Group, Created(Group), Whole)
    ensures var y := Reach(Group, Created(Group), Setting + Waiting);
      y.node.up && y.node.drain.Some? && y.given == y.node.delivered == 1
    ensures var z := Reach(Group, Created(Group), Whole);
      && z.node.store.snapshot == Kept && Kept.conf == Both != ConfAt(Group, Kept.index)
      && !z.node.up && forall more :: Happens(Group, z, more) ==> Reach(Group, z, more) == z
    ensures !ConfGuarded(Group, Created(Group), Whole)
  {
    GroupIs();
    TakenHappens();
    assert Kept.conf == Both != ConfAt(Group, Kept.index) && Whole == Setting + Waiting + Taking + Keeping;
    hide *;
    var y, half := Created(Group), Setting + Waiting + Taking;
    KeepingHappens(Reach(Group, y, half));
    HappensConcat(Group, y, half, Keeping);
    var z := Reach(Group, y, Whole);
    StuckDown(z);
    forall more | Happens(Group, z, more)
      ensures Reach(Group, z, more) == z
    {
      StuckForGood(z, more);
    }
    NotGuarded(Whole);
  }

  lemma WaitHappens()
    ensures Happens(Group, Created(Group), Setting + Waiting)
    ensures var y := Reach(Group, Created(Group), Setting + Waiting);
      && Is(y, Logging(2, Both, 1, Some(Drain(2, Events(None, [Leave])))), 1, [])
      && y.node.up && y.node.drain.Some? && y.given == y.node.delivered == 1
  {
    hide Happens, Reach, Created;
    SettingHappens();
    WaitingHappens(Reach(Group, Created(Group), Setting));
    HappensConcat(Group, Created(Group), Setting, Waiting);
  }

  lemma TakenHappens()
    ensures Happens(Group, Created(Group), Setting + Waiting + Taking)
    ensures var y := Reach(Group, Created(Group), Setting + Waiting);
      y.node.up && y.node.drain.Some? && y.given == y.node.delivered == 1
    ensures var late := Reach(Group, Created(Group), Setting + Waiting + Taking);
      Inv(Group, late) && Is(late, Logging(2, Both, 2, None), 2, [Early])
  {
    GroupIs();
    CreatedInv(Group);
    hide *;
    var y := Created(Group);
    WaitHappens();
    TakingHappens(Reach(Group, y, Setting + Waiting));
    HappensConcat(Group, y, Setting + Waiting, Taking);
    ReachedInv(Group, y, Setting + Waiting + Taking);
  }

  lemma StuckDown(z: System)
    requires Stuck(z)
    ensures !z.node.up && z.node.store.snapshot == Kept
  {
    hide Inv;
  }

  lemma StuckForGood(z: System, more: seq<Event>)
    requires Stuck(z) && Happens(Group, z, more)
    ensures Reach(Group, z, more) == z
  {
    hide Inv, PageEnd, Recovered, Reach, Happens;
    forall through | PageEnd(z.node, through)
      ensures Recovered(Group, z.node, through).Err?
    {
      StuckIsRefused(z, through);
    }
    StaysDown(Group, z, more, |more|);
    assert more[..|more|] == more;
  }

  lemma NotGuarded(events: seq<Event>)
    requires Sane(Group) && Happens(Group, Created(Group), events) && Stuck(Reach(Group, Created(Group), events))
    ensures !ConfGuarded(Group, Created(Group), events)
  {
    GroupIs();
    hide Sane, Happens, Reach, Created, ConfAt, ConfGuarded;
    if ConfGuarded(Group, Created(Group), events) {
      StateIsHistory(Group, events, |events|);
      assert events[..|events|] == events;
      DownAtImage(Reach(Group, Created(Group), events));
    }
  }

  lemma DownAtImage(y: System)
    requires Stuck(y)
    ensures Applied(y.node) == 1
  {
    hide LiveFits, DiskFits, PendingFits, Replayed;
  }
}
