/**
 Every step of a replica keeps what holds throughout, openings, drains, checkpoints and crashes included.
 */
module CheckpointSteps {
  import opened Basics
  import opened CheckpointModel
  import opened CheckpointReplay
  import opened CheckpointRuns
  import Membership

  const IMAGE_BYTES: nat := 8 * 1024 * 1024

  datatype Event =
    | EvOpen(through: nat)
    | EvDrain
    | EvWrite(update: Update)
    | EvLearn(commit: nat)
    | EvApply
    | EvHand
    | EvFloor(hash: nat)
    | EvTransition(pair: Pair)
    | EvCapture(data: Bytes)
    | EvBegin(capture: nat, ready: bool)
    | EvCancel
    | EvTake
    | EvFinish
    | EvCrash(renewed: bool)

  // ---------------------------------------------------------------- the steps of a drain

  /** A replica read back is opened, unless a change is refused: it is then as it was. */
  function CameUp(env: Env, y: System, through: nat): System {
    if y.node.up || Recovered(env, y.node, through).Err? then y
    else y.(node := Recovered(env, y.node, through).value)
  }

  /** A drain begins with what opening kept. */
  function Drained(y: System): System {
    if y.node.drain.Some? then y
    else y.(node := y.node.(drain := Some(Drain(y.node.delivered, Outstanding(y.node))), kept := None))
  }

  /** A write made durable. A snapshot it installs replaces what the drain gathered. */
  function Written(env: Env, y: System, u: Update): System {
    var n := y.node;
    y.(stream := y.stream + UpdateRecords(env.config, u),
       node := n.(store := Published(n.store, u), unwritten := false,
                  drain := if u.snapshot.Some? then Some(Drain(u.snapshot.value.index, Events(u.snapshot, [])))
                           else n.drain))
  }

  function Learnt(y: System, commit: nat): System {
    var s := y.node.store;
    y.(node := y.node.(store := s.(hard := s.hard.(commit := commit)), unwritten := true))
  }

  /** The next committed entry applied: the configuration has it at once, the application only when the drain
      hands over. A change that is refused stops the drain. */
  function AppliedNext(env: Env, y: System): System {
    var n := y.node;
    var at := Applied(n) - n.store.snapshot.index;
    if n.drain.None? || Applied(n) >= n.store.hard.commit || at < 0 || at >= |n.store.entries| then y
    else if !Accepts(env, n.store.conf, n.store.entries[at]) then y
    else
      var e, d := n.store.entries[at], n.drain.value;
      y.(node := n.(store := n.store.(conf := Changed(env, n.store.conf, e)),
                    drain := Some(Drain(d.applied + 1, d.events.(entries := d.events.entries + [e])))))
  }

  /** The drain done: what it gathered is the application's. */
  function HandedOver(env: Env, y: System): System {
    if y.node.drain.None? then y
    else
      var d := y.node.drain.value;
      y.(node := y.node.(delivered := d.applied, drain := None), given := d.applied, app := Given(env, y.app, d.events))
  }

  // ---------------------------------------------------------------- the steps of a checkpoint

  /** The point of the delivered prefix, as it is asked for at any moment: with the configuration as it then
      is, which a drain under way may have moved on, and of a prefix the application may not have been given. */
  function PointOf(n: Node): Result<Point> {
    if !n.up then Err(Unopened)
    else if n.delivered == 0 || n.delivered > n.store.hard.commit then Err(CheckpointIndex)
    else
      var term := TermAt(n.store, n.delivered);
      if term.Err? then Err(term.error) else Ok(Point(n.delivered, term.value, n.store.conf))
  }

  function Captured(y: System, data: Bytes): System {
    var point := PointOf(y.node);
    if point.Err? then y else y.(captures := y.captures + [Capture(point.value, data)])
  }

  /** A drain or a checkpoint under way. */
  predicate Busy(n: Node) {
    n.pending.Some? || n.drain.Some?
  }

  function BeginFaultOf(n: Node, c: Capture, ready: bool): Option<Error> {
    var fault := BeginFault(n.store, n.delivered, Busy(n), ready, c.point, |c.data|, IMAGE_BYTES);
    if fault.Some? then fault
    else if Membership.ConfFault(c.point.conf).Some? then Some(Corruption)
    else None
  }

  function Begun(env: Env, y: System, c: Capture, ready: bool): System {
    var n := y.node;
    if BeginFaultOf(n, c, ready).Some? then y
    else
      var snapshot := Snapshot(c.point.index, c.point.term, c.point.conf, c.data);
      var records := CheckpointRecords(env.config, n.required, n.transition, n.store, snapshot);
      y.(node := n.(pending := Some(Pending(snapshot, records, false))))
  }

  /** The checkpoint durable: its records are the stream, and the log leaves what they hold. */
  function Finished(y: System): System {
    var n := y.node;
    if n.pending.None? || !n.pending.value.taken || Compact(n.store, n.pending.value.snapshot).Err? then y
    else
      y.(stream := n.pending.value.records,
         node := n.(store := Compact(n.store, n.pending.value.snapshot).value, unwritten := false, pending := None))
  }

  /** A crash, and the records read back: a checkpoint the log had taken is durable whole or not at all. */
  function Crashed(env: Env, y: System, renewed: bool): System {
    var stream := if renewed && y.node.pending.Some? then y.node.pending.value.records else y.stream;
    var node := Read(env, stream);
    if node.Err? then y else System(stream, node.value, 0, env.initial, [])
  }

  function Step(env: Env, y: System, ev: Event): System {
    if !y.node.up && !ev.EvOpen? && !ev.EvCrash? then y else Acted(env, y, ev)
  }

  function Acted(env: Env, y: System, ev: Event): System {
    var n := y.node;
    match ev
    case EvOpen(through) => CameUp(env, y, through)
    case EvDrain => Drained(y)
    case EvWrite(u) => Written(env, y, u)
    case EvLearn(commit) => Learnt(y, commit)
    case EvApply => AppliedNext(env, y)
    case EvHand => HandedOver(env, y)
    case EvFloor(hash) => y.(stream := y.stream + [Floor(hash)], node := n.(required := Some(hash)))
    case EvTransition(pair) => y.(stream := y.stream + [Transition(pair)], node := n.(transition := Some(pair)))
    case EvCapture(data) => Captured(y, data)
    case EvBegin(i, ready) => if i < |y.captures| then Begun(env, y, y.captures[i], ready) else y
    case EvCancel => if n.pending.Some? && !n.pending.value.taken then y.(node := n.(pending := None)) else y
    case EvTake => if n.pending.Some? then y.(node := n.(pending := Some(n.pending.value.(taken := true)))) else y
    case EvFinish => Finished(y)
    case EvCrash(renewed) => Crashed(env, y, renewed)
  }

  /** What can happen: opening stops where a page ends; while a checkpoint is pending nothing else changes the
      replica; but for a commit written behind, only a drain writes; what is written or learnt is what the
      core supplies; an image is of the application's state when it is captured, whatever is under way or
      still to be handed over. */
  ghost predicate Possible(env: Env, y: System, ev: Event) {
    var n := y.node;
    match ev
    case EvOpen(through) => PageEnd(n, through)
    case EvDrain => n.pending.None?
    case EvWrite(u) => n.pending.None? && Supplied(env, n, u) && (n.drain.None? ==> u == CommitOnly(u.hard))
    case EvLearn(commit) =>
      && n.pending.None? && n.store.hard.commit <= commit <= Last(n.store)
      && Committed(env, n.store.entries, n.store.snapshot.index, commit)
    case EvFloor(hash) => !Busy(n) && n.kept.None? && n.required.None?
    case EvTransition(pair) =>
      && !Busy(n) && n.kept.None? && n.required == Some(pair.predecessor) && n.transition.None?
      && pair.predecessor != pair.successor
    case EvCapture(data) => env.image(data) == y.app
    case EvCrash(renewed) => renewed ==> n.pending.Some? && n.pending.value.taken
    case _ => true
  }

  function CommitOnly(hard: Option<HardState>): Update {
    Update(None, [], None, [], hard)
  }

  // ---------------------------------------------------------------- writes

  lemma PublishedShape(n: Node, u: Update)
    requires WellFormed(n.store)
    requires var a := Installed(n.store, u.snapshot);
      u.entries != [] ==>
        a.hard.commit < u.entries[0].index <= Last(a) + 1 && Contiguous(u.entries, u.entries[0].index - 1)
    requires u.snapshot.Some? ==> n.store.hard.commit < u.snapshot.value.index
    requires forall i :: 0 <= i < |u.proposals| ==> Proposable(u.proposals[i])
    ensures Contiguous(Published(n.store, u).entries, Published(n.store, u).snapshot.index)
    ensures ProposalsFit(Published(n.store, u).proposals)
  {
    var a := Installed(n.store, u.snapshot);
    assert Contiguous(a.entries, a.snapshot.index) && a.snapshot.index <= a.hard.commit;
    LastOf(a);
    if u.entries != [] {
      TakeAllIs(a.entries, a.snapshot.index, u.entries, u.entries[0].index - 1);
    }
    if u.released.Some? {
      AboveFits(a.proposals, u.released.value);
      HoldAllFits(Above(a.proposals, u.released.value), u.proposals);
    } else {
      HoldAllFits(a.proposals, u.proposals);
    }
  }

  lemma InstalledGathers(env: Env, given: nat, n: Node, snapshot: Snapshot)
    requires given <= n.delivered < snapshot.index <= |env.history| && n.store.snapshot == snapshot
    requires n.drain == Some(Drain(snapshot.index, Events(Some(snapshot), []))) && n.kept.None?
    ensures GatheredFits(env, given, n)
  {
  }

  lemma WrittenGathers(env: Env, y: System, u: Update)
    requires LiveFits(env, y) && Possible(env, y, EvWrite(u))
    ensures GatheredFits(env, y.given, Written(env, y, u).node)
  {
    PublishedFrame(y.node.store, u);
    if u.snapshot.Some? {
      hide Published, StoreFault, WellFormed, HoldsHistory, UpdateRecords, TermsBound, Committed;
      InstalledGathers(env, y.given, Written(env, y, u).node, u.snapshot.value);
    }
  }

  lemma WrittenWellFormed(env: Env, n: Node, u: Update)
    requires WellFormed(n.store) && Supplied(env, n, u)
    ensures WellFormed(Published(n.store, u))
  {
    PublishedShape(n, u);
    hide StoreFault, Published, Contiguous, TermsBound, ProposalsFit, Committed, SnapshotFits;
  }

  lemma WrittenLive(env: Env, y: System, u: Update)
    requires Inv(env, y) && Possible(env, y, EvWrite(u))
    ensures LiveFits(env, Written(env, y, u))
  {
    WrittenWellFormed(env, y.node, u);
    PublishedFrame(y.node.store, u);
    WrittenHistory(env, y.node, u);
    ClassicHoldsNothing(env, y.node.store, u);
    WrittenGathers(env, y, u);
    hide GatheredFits, StoreFault, Published, WellFormed, TermsBound, Committed, HoldsHistory, DiskFits, PendingFits,
      DownFits, ImageFits;
  }

  lemma WrittenHistory(env: Env, n: Node, u: Update)
    requires HoldsHistory(env, n.store) && Supplied(env, n, u)
    ensures HoldsHistory(env, Published(n.store, u))
    ensures Published(n.store, u).snapshot.index <= Published(n.store, u).hard.commit
    ensures n.store.hard.commit <= Published(n.store, u).hard.commit
  {
    PublishedFrame(n.store, u);
    hide StoreFault, Published, Contiguous, TermsBound, Committed, AppAt, Proposable;
  }

  lemma PublishedFrame(s: Store, u: Update)
    ensures var t := Published(s, u); var a := Installed(s, u.snapshot);
      t.snapshot == a.snapshot && t.conf == a.conf && t.hard == if u.hard.Some? then u.hard.value else a.hard
  {
    hide TakeAll, HoldAll, Above;
  }

  lemma ClassicHoldsNothing(env: Env, s: Store, u: Update)
    requires (!env.config.fast ==> s.proposals == [] && u.proposals == [])
    ensures !env.config.fast ==> Published(s, u).proposals == []
  {
  }

  /** What is on disk goes on following what is in memory. */
  lemma StoredFollows(env: Env, t: Store, n: Node, u: Update)
    requires Follows(env, t, n.store, n.unwritten) && (u.hard.None? ==> !n.unwritten)
    requires u.snapshot.Some? ==> n.store.hard.commit < u.snapshot.value.index
    requires u.hard.Some? ==> HardFollows(Installed(n.store, u.snapshot).hard, u.hard.value)
    requires !env.config.fast ==> n.store.proposals == [] && u.proposals == []
    ensures Follows(env, Stored(env.config, t, u), Published(n.store, u), false)
  {
    hide TakeAll;
  }

  lemma StoredOpens(env: Env, t: Store, s: Store)
    requires Follows(env, t, s, false) && StoreFault(s) == None && Membership.ConfFault(t.conf) == None
    ensures StoreFault(t) == None
  {
    hide Membership.ConfFault;
  }

  lemma WrittenDisk(env: Env, y: System, u: Update)
    requires Sane(env) && Inv(env, y) && Possible(env, y, EvWrite(u))
    ensures DiskFits(env, Written(env, y, u))
  {
    var m, n := Replayed(env, y.stream).value, y.node;
    StoredFollows(env, m.store, n, u);
    var t := Stored(env.config, m.store, u);
    assert Membership.ConfFault(t.conf) == None by { StoredConf(env, m.store, u); }
    StoredOpens(env, t, Published(n.store, u));
    WrittenReplays(env, y, m, u);
  }

  lemma StoredConf(env: Env, t: Store, u: Update)
    requires StoreFault(t) == None && (u.snapshot.Some? ==> Membership.ConfFault(u.snapshot.value.conf) == None)
    ensures Membership.ConfFault(Stored(env.config, t, u).conf) == None
  {
    hide TakeAll, HoldAll, Membership.ConfFault;
  }

  lemma WrittenReplays(env: Env, y: System, m: Member, u: Update)
    requires Sane(env) && Inv(env, y) && Possible(env, y, EvWrite(u)) && Replayed(env, y.stream) == Ok(m)
    requires StoreFault(Stored(env.config, m.store, u)) == None
    ensures Replayed(env, Written(env, y, u).stream) == Ok(m.(store := Stored(env.config, m.store, u)))
  {
    var n := y.node;
    assert Contiguous(m.store.entries, m.store.snapshot.index);
    var a, b := Installed(m.store, u.snapshot), Installed(n.store, u.snapshot);
    assert a.hard.commit <= b.hard.commit && a.hard.term == b.hard.term && a.hard.vote == b.hard.vote;
    assert Last(a) == Last(b) && a.snapshot == b.snapshot;
    hide StoreFault, Stored, UpdateRecords, Replay, Membership.ConfFault;
    UpdateReplays(env, m, u);
    ReplayConcat(Ok(NewMember(env.bootstrap)), y.stream, UpdateRecords(env.config, u));
  }

  lemma WriteKeeps(env: Env, y: System, u: Update)
    requires Sane(env) && Inv(env, y) && y.node.up && Possible(env, y, EvWrite(u))
    ensures Inv(env, Written(env, y, u))
  {
    WrittenLive(env, y, u);
    WrittenDisk(env, y, u);
    hide LiveFits, DiskFits, EntryNamed, StoreFault, Published, UpdateRecords;
  }

  // ---------------------------------------------------------------- the other steps of a drain

  lemma DrainKeeps(env: Env, y: System)
    requires Inv(env, y) && y.node.up && y.node.pending.None?
    ensures Inv(env, Drained(y))
  {
    hide Replayed, WellFormed, HoldsHistory, Follows, EntryNamed, StoreFault;
  }

  lemma LearnKeeps(env: Env, y: System, commit: nat)
    requires Inv(env, y) && y.node.up && Possible(env, y, EvLearn(commit))
    ensures Inv(env, Learnt(y, commit))
  {
    LearntLive(env, y, commit);
    hide Replayed, StoreFault, LiveFits, EntryNamed;
  }

  lemma LearntLive(env: Env, y: System, commit: nat)
    requires LiveFits(env, y) && Possible(env, y, EvLearn(commit))
    ensures LiveFits(env, Learnt(y, commit))
  {
    GatheredOver(env, y.given, y.node, Learnt(y, commit).node);
    hide Membership.ConfFault, GatheredFits, Committed;
  }

  /** The next entry to apply is the history's. */
  lemma NextApplied(env: Env, y: System)
    requires LiveFits(env, y) && Applied(y.node) < y.node.store.hard.commit
    ensures var n := y.node; var at := Applied(n) - n.store.snapshot.index;
      0 <= at < |n.store.entries| && Applied(n) < |env.history| && n.store.entries[at] == env.history[Applied(n)]
  {
    LastOf(y.node.store);
  }

  /** What was gathered fits as long as it, the marks and the image are the same. */
  lemma GatheredOver(env: Env, given: nat, n: Node, t: Node)
    requires GatheredFits(env, given, n) && n.store.snapshot.index <= t.store.snapshot.index
    requires t.delivered == n.delivered && t.drain == n.drain && t.kept == n.kept
    ensures GatheredFits(env, given, t)
  {
  }

  lemma GatheredOne(env: Env, given: nat, n: Node, t: Node)
    requires GatheredFits(env, given, n) && n.drain.Some? && n.drain.value.applied < |env.history|
    requires var d, e := n.drain.value, env.history[n.drain.value.applied];
      t.drain == Some(Drain(d.applied + 1, d.events.(entries := d.events.entries + [e])))
    requires t.delivered == n.delivered && t.kept == n.kept && t.store.snapshot == n.store.snapshot
    ensures GatheredFits(env, given, t)
  {
    var d := n.drain.value;
    var from := From(given, d.events);
    assert env.history[from..d.applied + 1] == env.history[from..d.applied] + [env.history[d.applied]];
  }

  lemma WellFormedConf(s: Store, conf: Conf)
    requires WellFormed(s) && Membership.ConfFault(conf) == None
    ensures WellFormed(s.(conf := conf))
  {
    hide Membership.ConfFault;
  }

  lemma HistoryConf(env: Env, s: Store, conf: Conf)
    requires HoldsHistory(env, s)
    ensures HoldsHistory(env, s.(conf := conf))
  {
  }

  lemma ChangedDecides(env: Env, conf: Conf, e: Entry)
    requires Sane(env) && Membership.ConfFault(conf) == None
    ensures Membership.ConfFault(Changed(env, conf, e)) == None
  {
    hide Membership.ConfFault, ConfAt;
  }

  /** What applying the next entry changes. */
  lemma AppliedIs(env: Env, y: System)
    requires LiveFits(env, y) && AppliedNext(env, y) != y
    ensures y.node.drain.Some? && Applied(y.node) < y.node.store.hard.commit && Applied(y.node) < |env.history|
    ensures var n, e, d := y.node, env.history[Applied(y.node)], y.node.drain.value;
      && Accepts(env, n.store.conf, e)
      && AppliedNext(env, y) == y.(node := n.(
           store := n.store.(conf := Changed(env, n.store.conf, e)),
           drain := Some(Drain(d.applied + 1, d.events.(entries := d.events.entries + [e])))))
  {
    NextApplied(env, y);
    hide LiveFits, Accepts, Changed;
  }

  lemma AppliedStore(env: Env, s: Store, e: Entry)
    requires Sane(env) && WellFormed(s) && HoldsHistory(env, s)
    ensures var t := s.(conf := Changed(env, s.conf, e)); WellFormed(t) && HoldsHistory(env, t)
  {
    assert Membership.ConfFault(s.conf) == None;
    hide HoldsHistory, WellFormed, Changed, Sane;
    ChangedDecides(env, s.conf, e);
    WellFormedConf(s, Changed(env, s.conf, e));
    HistoryConf(env, s, Changed(env, s.conf, e));
  }

  lemma AppliedLive(env: Env, y: System)
    requires Sane(env) && LiveFits(env, y) && AppliedNext(env, y) != y
    ensures LiveFits(env, AppliedNext(env, y))
  {
    hide WellFormed, HoldsHistory, GatheredFits, Changed, Sane, AppliedNext, Accepts;
    AppliedIs(env, y);
    AppliedStore(env, y.node.store, env.history[Applied(y.node)]);
    GatheredOne(env, y.given, y.node, AppliedNext(env, y).node);
  }

  /** The configuration in memory and the drain are not on disk. */
  lemma AppliedDisk(env: Env, y: System)
    requires DiskFits(env, y)
    ensures DiskFits(env, AppliedNext(env, y))
  {
    hide Replayed, StoreFault, Accepts, Changed;
  }

  lemma ApplyKeeps(env: Env, y: System)
    requires Sane(env) && Inv(env, y)
    ensures Inv(env, AppliedNext(env, y))
  {
    AppliedDisk(env, y);
    if AppliedNext(env, y) != y {
      AppliedLive(env, y);
      hide LiveFits, DiskFits, EntryNamed, Sane, Replayed;
    }
  }

  lemma HandKeeps(env: Env, y: System)
    requires Inv(env, y)
    ensures Inv(env, HandedOver(env, y))
  {
    hide Replayed, WellFormed, HoldsHistory, Follows, EntryNamed, StoreFault, Given;
  }

  lemma DeclareKeeps(env: Env, y: System, ev: Event)
    requires Inv(env, y) && y.node.up && Possible(env, y, ev) && (ev.EvFloor? || ev.EvTransition?)
    ensures Inv(env, Step(env, y, ev))
  {
    DeclaredDisk(env, y, ev);
    GatheredOver(env, y.given, y.node, Step(env, y, ev).node);
    hide DiskFits, Replayed, StoreFault, WellFormed, HoldsHistory, EntryNamed, GatheredFits;
  }

  lemma DeclaredDisk(env: Env, y: System, ev: Event)
    requires DiskFits(env, y) && y.node.up && Possible(env, y, ev) && (ev.EvFloor? || ev.EvTransition?)
    ensures DiskFits(env, Step(env, y, ev))
  {
    var m := Replayed(env, y.stream).value;
    var r := if ev.EvFloor? then Floor(ev.hash) else Transition(ev.pair);
    ReplayConcat(Ok(NewMember(env.bootstrap)), y.stream, [r]);
    ReplayOneRecord(m, r);
    hide Replay, StoreFault;
  }

  // ---------------------------------------------------------------- points and checkpoints

  /** The delivered prefix of an open replica has a point unless nothing was delivered or a drain installed a
      snapshot past it; the point names the history's entry, with the configuration as it is in memory. */
  lemma PointIs(env: Env, y: System)
    requires Inv(env, y)
    ensures PointOf(y.node).Ok? <==>
      y.node.up && y.node.delivered > 0 && y.node.store.snapshot.index <= y.node.delivered
    ensures PointOf(y.node).Ok? ==>
      var point := PointOf(y.node).value;
      EntryNamed(env, point) && point.index == y.node.delivered && point.conf == y.node.store.conf
    ensures PointOf(y.node).Err? ==>
      PointOf(y.node).error ==
        if !y.node.up then Unopened else if y.node.delivered == 0 then CheckpointIndex else Compacted
  {
    LastOf(y.node.store);
    hide Replayed, StoreFault;
  }

  lemma CaptureKeeps(env: Env, y: System, data: Bytes)
    requires Inv(env, y)
    ensures Inv(env, Captured(y, data))
  {
    PointIs(env, y);
    hide LiveFits, DiskFits, EntryNamed, Replayed;
  }

  /** A pending checkpoint changes neither what is in memory nor what is on disk. */
  lemma PendingOnly(env: Env, y: System, pending: Option<Pending>)
    requires LiveFits(env, y) && DiskFits(env, y)
    ensures var z := y.(node := y.node.(pending := pending)); LiveFits(env, z) && DiskFits(env, z)
  {
    GatheredOver(env, y.given, y.node, y.node.(pending := pending));
    hide Replayed, StoreFault, WellFormed, HoldsHistory, Follows, GatheredFits;
  }

  lemma BeginKeeps(env: Env, y: System, c: Capture, ready: bool)
    requires Inv(env, y) && c in y.captures
    ensures Inv(env, Begun(env, y, c, ready))
  {
    PendingOnly(env, y, Begun(env, y, c, ready).node.pending);
    hide LiveFits, DiskFits, CheckpointRecords;
  }

  /** What any point, captured or not, is refused with: other work is under way; it does not name an entry of the
      history that was delivered and is still held, with the configuration in memory; or its image is too long. */
  ghost function BeginRefusal(env: Env, y: System, c: Capture, ready: bool): Option<Error> {
    var n, at := y.node, c.point.index;
    if n.pending.Some? || n.drain.Some? then Some(PersistencePending)
    else if ready || !(0 < at <= n.delivered && n.store.snapshot.index <= at <= |env.history|)
            || c.point != Point(at, env.history[at - 1].term, n.store.conf)
    then Some(CheckpointIndex)
    else if |c.data| > IMAGE_BYTES then Some(Capacity)
    else None
  }

  /** A point captured in this incarnation is accepted exactly when nothing else is being written, no
      newer snapshot stands, the configuration in memory is the one captured and the image is not too long:
      its entry is always still the one captured. */
  lemma BeginExactly(env: Env, y: System, c: Capture, ready: bool)
    requires Inv(env, y)
    ensures BeginFaultOf(y.node, c, ready) == BeginRefusal(env, y, c, ready)
    ensures c in y.captures ==>
      (BeginRefusal(env, y, c, ready) == None <==>
         && !Busy(y.node) && !ready && y.node.store.snapshot.index <= c.point.index
         && c.point.conf == y.node.store.conf && |c.data| <= IMAGE_BYTES)
  {
    LastOf(y.node.store);
    assert Membership.ConfFault(y.node.store.conf) == None;
    hide Replayed, Membership.ConfFault;
  }

  /** The records of a pending checkpoint read back as the log it leaves. */
  lemma PendingReplays(env: Env, y: System)
    requires Inv(env, y) && y.node.pending.Some?
    ensures var n, p := y.node, y.node.pending.value;
      var left := Left(env.config, n.store, p.snapshot);
      && Replayed(env, p.records) ==
         Ok(Member(Some(env.config.id), env.config.fast, n.required, n.transition, left))
      && Compact(n.store, p.snapshot).Ok?
      && left == Compact(n.store, p.snapshot).value.(released := if env.config.fast then n.store.released else 0)
      && WellFormed(left)
  {
    hide Replay, CheckpointRecords, Compact, WellFormed, HoldsHistory;
    var n, p := y.node, y.node.pending.value;
    CheckpointReplays(env.config, n.required, n.transition, n.store, p.snapshot, env.bootstrap);
    CompactLeaves(env.config, n.store, p.snapshot);
    LeftIsWellFormed(env.config, n.store, p.snapshot);
  }

  lemma LeftHoldsHistory(env: Env, s: Store, snapshot: Snapshot)
    requires WellFormed(s) && HoldsHistory(env, s) && MayCompact(s, snapshot)
    requires EntryNamed(env, PointOn(snapshot))
    ensures HoldsHistory(env, Left(env.config, s, snapshot))
  {
    LastOf(s);
    TailIs(s.entries, s.snapshot.index, snapshot.index);
    hide WellFormed, After, Trimmed, Contiguous, Committed;
    CommittedTail(env, s.entries, s.snapshot.index, s.hard.commit, snapshot.index);
  }

  lemma CommittedTail(env: Env, entries: seq<Entry>, from: nat, commit: nat, index: nat)
    requires Committed(env, entries, from, commit) && from <= index <= from + |entries|
    ensures Committed(env, entries[index - from..], index, commit)
  {
  }

  lemma FinishKeeps(env: Env, y: System)
    requires Inv(env, y)
    ensures Inv(env, Finished(y))
  {
    if y.node.pending.Some? && y.node.pending.value.taken {
      hide LiveFits, DiskFits, EntryNamed, Replayed, CheckpointRecords, Compact;
      FinishedLive(env, y);
      FinishedDisk(env, y);
    }
  }

  lemma FinishedIs(env: Env, y: System)
    requires Inv(env, y) && y.node.pending.Some? && y.node.pending.value.taken
    ensures var n, p := y.node, y.node.pending.value;
      var t := Left(env.config, n.store, p.snapshot).(released := n.store.released);
      && WellFormed(t) && HoldsHistory(env, t) && t.proposals == n.store.proposals && t.hard == n.store.hard
      && t.snapshot == p.snapshot
      && Finished(y) == y.(stream := p.records, node := n.(store := t, unwritten := false, pending := None))
  {
    PendingReplays(env, y);
    LeftHoldsHistory(env, y.node.store, y.node.pending.value.snapshot);
    var t := Left(env.config, y.node.store, y.node.pending.value.snapshot);
    WellFormedReleased(t, y.node.store.released);
    hide Replayed, StoreFault, CheckpointRecords, Compact, WellFormed, Committed, GatheredFits, DownFits, DiskFits,
      After;
  }

  /** The log once a pending checkpoint is durable: the entries through its image's index are gone. */
  ghost function Shortened(y: System): System
    requires y.node.pending.Some?
  {
    var n, p := y.node, y.node.pending.value;
    var from := n.store.snapshot.index;
    var rest := if from <= p.snapshot.index <= from + |n.store.entries| then n.store.entries[p.snapshot.index - from..]
                else [];
    y.(stream := p.records,
       node := n.(store := n.store.(entries := rest, snapshot := p.snapshot), unwritten := false, pending := None))
  }

  lemma ShortensExactly(env: Env, y: System)
    requires Inv(env, y) && y.node.pending.Some?
    ensures Finished(Acted(env, y, EvTake)) == Shortened(y)
  {
    hide Inv, Finished, HoldsHistory, WellFormed, After, Trimmed, Contiguous;
    PendingWithin(env, y);
    var s, p := y.node.store, y.node.pending.value;
    TogglePending(env, y, EvTake);
    FinishedIs(env, Acted(env, y, EvTake));
    TailIs(s.entries, s.snapshot.index, p.snapshot.index);
  }

  lemma PendingWithin(env: Env, y: System)
    requires Inv(env, y) && y.node.pending.Some?
    ensures var s, p := y.node.store, y.node.pending.value;
      && Contiguous(s.entries, s.snapshot.index) && p.snapshot.conf == s.conf
      && s.snapshot.index <= p.snapshot.index <= s.snapshot.index + |s.entries|
  {
    LastOf(y.node.store);
    hide DiskFits, HoldsHistory, GatheredFits, CheckpointRecords, EntryNamed, StoreFault;
  }

  lemma FinishedLive(env: Env, y: System)
    requires Inv(env, y) && y.node.pending.Some? && y.node.pending.value.taken
    ensures LiveFits(env, Finished(y))
  {
    FinishedIs(env, y);
    GatheredOver(env, y.given, y.node, Finished(y).node);
    hide Finished, WellFormed, HoldsHistory, GatheredFits, DiskFits, DownFits, Left, CheckpointRecords;
  }

  lemma FinishedDisk(env: Env, y: System)
    requires Inv(env, y) && y.node.pending.Some? && y.node.pending.value.taken
    ensures DiskFits(env, Finished(y))
  {
    FinishedIs(env, y);
    PendingReplays(env, y);
    hide Finished, HoldsHistory, GatheredFits, DownFits, Replayed, CheckpointRecords, Compact, StoreFault, After;
  }

  lemma WellFormedReleased(s: Store, released: nat)
    requires WellFormed(s)
    ensures WellFormed(s.(released := released))
  {
  }

  // ---------------------------------------------------------------- crashes

  /** What reading a member's records back gives fits as the member did. */
  lemma ReadBackFits(env: Env, m: Member, stream: seq<Record>)
    requires Replayed(env, stream) == Ok(m) && m.identity == Some(env.config.id) && m.fast == env.config.fast
    requires WellFormed(m.store) && HoldsHistory(env, m.store) && DecodersFit(m.required, m.transition)
    requires (!env.config.fast ==> m.store.proposals == [])
    requires m.store.conf == if m.store.snapshot.index == 0 then env.bootstrap else m.store.snapshot.conf
    ensures Read(env, stream) == Ok(ReadBack(m)) && Inv(env, Restarted(env, stream, m))
  {
    hide Replayed;
  }

  lemma DiskMemberFits(env: Env, y: System)
    requires Inv(env, y)
    ensures var m := Replayed(env, y.stream).value;
      && m.identity == Some(env.config.id) && m.fast == env.config.fast && WellFormed(m.store)
      && HoldsHistory(env, m.store)
      && DecodersFit(m.required, m.transition) && (!env.config.fast ==> m.store.proposals == [])
      && m.store.conf == if m.store.snapshot.index == 0 then env.bootstrap else m.store.snapshot.conf
  {
    hide Replayed, Membership.ConfFault;
  }

  lemma CrashKeeps(env: Env, y: System, renewed: bool)
    requires Inv(env, y) && (renewed ==> y.node.pending.Some? && y.node.pending.value.taken)
    ensures Inv(env, Crashed(env, y, renewed)) && !Crashed(env, y, renewed).node.up
    ensures Crashed(env, y, renewed).stream == if renewed then y.node.pending.value.records else y.stream
  {
    if renewed {
      PendingReplays(env, y);
      LeftHoldsHistory(env, y.node.store, y.node.pending.value.snapshot);
      hide WellFormed, HoldsHistory, Replayed, CheckpointRecords, Compact, StoreFault;
      var p := y.node.pending.value;
      var m := Replayed(env, p.records).value;
      assert m.store.snapshot.index != 0;
      ReadBackFits(env, m, p.records);
    } else {
      DiskMemberFits(env, y);
      hide WellFormed, HoldsHistory, Replayed, StoreFault;
      ReadBackFits(env, Replayed(env, y.stream).value, y.stream);
    }
  }

  // ---------------------------------------------------------------- openings

  /** What opening applies is the history after the image. */
  lemma FirstPageIs(env: Env, n: Node, through: nat)
    requires WellFormed(n.store) && HoldsHistory(env, n.store) && PageEnd(n, through)
    ensures n.store.snapshot.index <= through <= |env.history|
    ensures FirstPage(n, through) == env.history[n.store.snapshot.index..through]
  {
    hide StoreFault, TermsBound, ProposalsFit, Contiguous;
  }

  lemma {:induction false} OverDecides(env: Env, conf: Conf, entries: seq<Entry>)
    requires Sane(env) && Membership.ConfFault(conf) == None
    ensures Membership.ConfFault(Over(env, conf, entries)) == None
  {
    hide Membership.ConfFault, Sane, Changed;
    if entries != [] {
      OverDecides(env, conf, entries[..|entries| - 1]);
      ChangedDecides(env, Over(env, conf, entries[..|entries| - 1]), entries[|entries| - 1]);
    }
  }

  lemma OpenedLive(env: Env, y: System, through: nat)
    requires Sane(env) && Inv(env, y) && !y.node.up && PageEnd(y.node, through)
    requires Recovered(env, y.node, through).Ok?
    ensures LiveFits(env, CameUp(env, y, through))
  {
    var s, page := y.node.store, FirstPage(y.node, through);
    FirstPageIs(env, y.node, through);
    OverDecides(env, s.conf, page);
    WellFormedConf(s, Over(env, s.conf, page));
    HistoryConf(env, s, Over(env, s.conf, page));
    hide WellFormed, HoldsHistory, Over, AllAccepted, FirstPage, Sane, DiskFits, PendingFits, Replayed;
  }

  lemma OpenKeeps(env: Env, y: System, through: nat)
    requires Sane(env) && Inv(env, y) && PageEnd(y.node, through)
    ensures Inv(env, CameUp(env, y, through))
  {
    if !y.node.up && Recovered(env, y.node, through).Ok? {
      OpenedLive(env, y, through);
      hide LiveFits, Over, AllAccepted, FirstPage, Sane, Replayed, StoreFault, PageEnd;
    }
  }

  lemma StepKeeps(env: Env, y: System, ev: Event)
    requires Sane(env) && Inv(env, y) && Possible(env, y, ev)
    ensures Inv(env, Step(env, y, ev))
  {
    if !y.node.up && !ev.EvOpen? && !ev.EvCrash? {
      return;
    }
    match ev
    case EvOpen(through) => OpenKeeps(env, y, through);
    case EvDrain => DrainKeeps(env, y);
    case EvWrite(u) => WriteKeeps(env, y, u);
    case EvLearn(commit) => LearnKeeps(env, y, commit);
    case EvApply => ApplyKeeps(env, y);
    case EvHand => HandKeeps(env, y);
    case EvFloor(_) => DeclareKeeps(env, y, ev);
    case EvTransition(_) => DeclareKeeps(env, y, ev);
    case EvCapture(data) => CaptureKeeps(env, y, data);
    case EvBegin(i, ready) =>
      if i < |y.captures| {
        BeginKeeps(env, y, y.captures[i], ready);
      }
    case EvCancel => TogglePending(env, y, ev);
    case EvTake => TogglePending(env, y, ev);
    case EvFinish => FinishKeeps(env, y);
    case EvCrash(renewed) => CrashKeeps(env, y, renewed);
  }

  lemma TogglePending(env: Env, y: System, ev: Event)
    requires Inv(env, y) && (ev.EvCancel? || ev.EvTake?)
    ensures Inv(env, Acted(env, y, ev)) && Inv(env, Step(env, y, ev))
  {
    hide LiveFits, DiskFits, CheckpointRecords, EntryNamed, Replayed;
    PendingOnly(env, y, Acted(env, y, ev).node.pending);
  }
}
