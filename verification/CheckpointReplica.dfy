/**
 Opening, a drain's entries applied one by one and handed over, and the checkpoint as the replica makes it: its
 records gathered entry by entry, the pending checkpoint taken and put back, and the log's front given up
 once the records are durable. Every method keeps what every step of a run keeps, and a replica whose log
 failed it can be opened again from what it left.
 */
module CheckpointReplica {
  import opened Basics
  import opened CheckpointModel
  import opened CheckpointReplay
  import opened CheckpointRuns
  import opened CheckpointSteps
  import opened CheckpointState
  import opened CheckpointConf
  import opened CheckpointTheorems
  import Membership

  /** What the log answers the records it is given, and what it then says of them. A write it lost is on disk
      whole or not at all. */
  datatype Admission = Took | NoRoom | Refused
  datatype Completion = NotYet | Durable | Lost(kept: bool)

  class Replica {
    const config: Config
    /** The group's history, the application's state and the points captured. */
    ghost const env: Env
    ghost var given: nat
    ghost var app: App
    ghost var captures: seq<Capture>
    var hard: HardState
    var conf: Conf
    var entries: seq<Entry>
    var snapshot: Snapshot
    var proposals: seq<Entry>
    var released: nat
    var required: Option<nat>
    var transition: Option<Pair>
    var delivered: nat
    var unwritten: bool
    var pending: Option<Pending>
    var drain: Option<Drain>
    var kept: Option<Events>
    var up: bool
    var failed: bool
    /** The group's durable records. */
    var stream: seq<Record>

    function TheStore(): Store
      reads this
    {
      Store(hard, conf, entries, snapshot, proposals, released)
    }

    function View(): Node
      reads this
    {
      Node(TheStore(), required, transition, delivered, unwritten, pending, drain, kept, up)
    }

    ghost function Sys(): System
      reads this
    {
      System(stream, View(), given, app, captures)
    }

    /** A member read back, still to be opened. */
    constructor (ghost e: Env, c: Config, n: Node, records: seq<Record>)
      ensures env == e && config == c && !failed && Sys() == System(records, n, 0, e.initial, [])
    {
      env, config, given, app, captures, failed := e, c, 0, e.initial, [], false;
      hard, conf, entries, snapshot := n.store.hard, n.store.conf, n.store.entries, n.store.snapshot;
      proposals, released, required, transition := n.store.proposals, n.store.released, n.required, n.transition;
      delivered, unwritten, pending, drain, stream := n.delivered, n.unwritten, n.pending, n.drain, records;
      kept, up := n.kept, n.up;
    }

    /** Opens a member read back: a drain applies the committed entries of a page, and what it gathered is kept for
        the first drain of the owner's. It opens exactly when no change of the page is refused; otherwise the
        replica fails, with its records as they were. */
    method Recover(through: nat, change: (Conf, Entry) -> Option<Conf>) returns (r: Result<bool>)
      requires !up && !failed && drain.None? && change == env.change
      requires snapshot.index <= through <= snapshot.index + |entries|
      modifies `conf, `drain, `kept, `delivered, `up, `failed
      ensures Inv(env, old(Sys())) ==>
        r == if AllAccepted(env, old(conf), old(FirstPage(View(), through))) then Ok(true) else Err(ChangeRefused)
      ensures Inv(env, old(Sys())) && r.Ok? ==> Sys() == CameUp(env, old(Sys()), through) && up && delivered == through
      ensures Sane(env) && Inv(env, old(Sys())) && old(PageEnd(View(), through)) && r.Ok? ==> Inv(env, Sys())
      ensures r.Err? <==> failed
      ensures failed ==> !up
    {
      hide Inv, Sane, PageEnd, AllAccepted, Over, CameUp, Gathering, FirstPage, Contiguous;
      RecoverHolds(env, Sys(), through);
      r := KeepPage(FirstPage(View(), through), change);
    }

    /** The drain that opening makes: the page is applied, delivered and kept. */
    method KeepPage(page: seq<Entry>, change: (Conf, Entry) -> Option<Conf>) returns (r: Result<bool>)
      requires !up && !failed && drain.None? && change == env.change
      modifies `conf, `drain, `kept, `delivered, `up, `failed
      ensures r.Ok? <==> Contiguous(page, old(delivered)) && AllAccepted(env, old(conf), page)
      ensures r.Ok? ==> r.value
      ensures r.Ok? ==>
        var g := Gathering(Drain(old(delivered), old(Outstanding(View()))), page);
        && conf == Over(env, old(conf), page) && delivered == g.applied && kept == Some(g.events)
        && drain.None? && up
      ensures r.Err? && Contiguous(page, old(delivered)) ==> r.error == ChangeRefused
      ensures r.Err? <==> failed
      ensures failed ==> !up
    {
      hide Inv, Sane, AllAccepted, Over, Gathering, Contiguous, Following;
      drain := Some(Drain(delivered, if kept.Some? then kept.value else Events(None, [])));
      kept := None;
      r := ApplyEntries(page, change);
      if r.Err? {
        return;
      }
      kept := Some(drain.value.events);
      delivered := drain.value.applied;
      drain := None;
      up := true;
    }

    /** A drain begins where the last one handed over, with what opening kept. */
    method StartDrain()
      requires drain.None?
      modifies `drain, `kept
      ensures Sys() == Drained(old(Sys())) && drain == Some(Drain(delivered, old(Outstanding(View())))) && kept.None?
      ensures Inv(env, old(Sys())) && up && pending.None? ==> Inv(env, Sys())
    {
      StartHolds(env, Sys());
      hide Inv;
      drain := Some(Drain(delivered, if kept.Some? then kept.value else Events(None, [])));
      kept := None;
    }

    /** Applies committed entries in a drain, each change at once. They are all applied exactly when they follow
        what was applied and no change among them is refused; otherwise the replica fails. */
    method ApplyEntries(batch: seq<Entry>, change: (Conf, Entry) -> Option<Conf>) returns (r: Result<bool>)
      requires drain.Some? && !failed && change == env.change
      modifies `conf, `drain, `failed
      ensures r.Ok? <==> Contiguous(batch, old(drain).value.applied) && AllAccepted(env, old(conf), batch)
      ensures r.Ok? ==> r.value
      ensures r.Ok? ==> drain == Some(Gathering(old(drain).value, batch)) && conf == Over(env, old(conf), batch)
      ensures r.Err? && Contiguous(batch, old(drain).value.applied) ==> r.error == ChangeRefused
      ensures r.Err? && AllAccepted(env, old(conf), batch) ==> r.error == Corruption
      ensures r.Err? <==> failed
      ensures Sane(env) && Inv(env, old(Sys())) && r.Ok? && Following(old(View()), batch) ==> Inv(env, Sys())
    {
      GatheredHolds(env, Sys(), batch);
      NothingGathered(drain.value);
      hide Inv, Sane, Following, AllAccepted, Contiguous;
      for i := 0 to |batch|
        invariant drain == Some(Gathering(old(drain).value, batch[..i])) && conf == Over(env, old(conf), batch[..i])
        invariant Contiguous(batch[..i], old(drain).value.applied) && AllAccepted(env, old(conf), batch[..i])
        invariant !failed
      {
        var e, d := batch[i], drain.value;
        OneMore(env, old(conf), old(drain).value, batch, i);
        if e.index != d.applied + 1 {
          failed := true;
          return Err(Corruption);
        }
        if e.kind == Change {
          var made := change(conf, e);
          if made.None? {
            failed := true;
            return Err(ChangeRefused);
          }
          conf := made.value;
        }
        drain := Some(Drain(e.index, d.events.(entries := d.events.entries + [e])));
      }
      assert batch[..|batch|] == batch;
      return Ok(true);
    }

    /** What the drain gathered leaves for the application, and only now is it delivered. */
    method HandOver() returns (events: Events)
      requires drain.Some?
      modifies `drain, `delivered, `given, `app
      ensures events == old(drain).value.events && Sys() == HandedOver(env, old(Sys()))
      ensures given == delivered == old(Applied(View())) && drain.None?
      ensures Inv(env, old(Sys())) ==> Inv(env, Sys())
      ensures Inv(env, old(Sys())) && StateFits(env, old(Sys())) ==>
        delivered <= |env.history| && app == AppAt(env, delivered)
    {
      hide Inv, StateFits, Given, AppAt;
      HandHolds(env, Sys());
      events := drain.value.events;
      given, app := drain.value.applied, Given(env, app, events);
      delivered := drain.value.applied;
      drain := None;
    }

    /** The point of the delivered prefix: there is one once the replica is open, anything was delivered and no
        drain installed a snapshot past it. Its entry is the history's. The application's state is of it exactly
        when nothing is owed to the application, and the configuration exactly when no drain under way has moved
        it; so both, with no drain under way, where the application was given what was delivered. */
    method CheckpointPoint() returns (r: Result<Point>)
      ensures failed ==> r == Err(Failed)
      ensures !failed && !up ==> r == Err(Unopened)
      ensures !failed && Inv(env, Sys()) ==> (r.Ok? <==> up && delivered > 0 && snapshot.index <= delivered)
      ensures !failed && up && Inv(env, Sys()) && r.Err? ==>
        r.error == if delivered == 0 then CheckpointIndex else Compacted
      ensures Inv(env, Sys()) && r.Ok? ==>
        && 0 < r.value.index == delivered <= |env.history| && r.value.term == env.history[delivered - 1].term
        && r.value.conf == conf
      ensures Inv(env, Sys()) && StateFits(env, Sys()) && r.Ok? ==>
        && (app == AppAt(env, delivered) <==> Unowed(env, Sys()))
        && (given == delivered ==> app == AppAt(env, delivered))
      ensures Inv(env, Sys()) && ConfFits(env, Sys()) && r.Ok? ==>
        && (r.value.conf == ConfAt(env, delivered) <==> Unmoved(env, View()))
        && (drain.None? ==> r.value.conf == ConfAt(env, delivered))
    {
      if failed {
        return Err(Failed);
      }
      PointNames(env, Sys());
      PointStateHolds(env, Sys());
      PointConfHolds(env, Sys());
      hide Inv, StateFits, ConfFits, Unowed, Unmoved, AppAt, ConfAt;
      if !up {
        return Err(Unopened);
      }
      if delivered == 0 || delivered > hard.commit {
        return Err(CheckpointIndex);
      }
      var term := TermAt(TheStore(), delivered);
      return if term.Err? then Err(term.error) else Ok(Point(delivered, term.value, conf));
    }

    /** Everything a checkpoint at `image` writes. */
    method Gather(image: Snapshot) returns (records: seq<Record>)
      ensures records == CheckpointRecords(config, required, transition, TheStore(), image)
    {
      records := [Identity(config.id)];
      if config.fast {
        records := records + [FastTrack];
      }
      if required.Some? {
        records := records + [Floor(required.value)];
      }
      if transition.Some? {
        records := records + [Transition(transition.value)];
      }
      assert records == Opening(config, required, transition);
      records := records + [Snapshotted(image)];
      ghost var opening := records;
      for i := 0 to |entries|
        invariant records == opening + LoggedAll(After(entries[..i], image.index))
      {
        AfterNext(entries, i, image.index);
        if entries[i].index > image.index {
          LoggedNext(After(entries[..i], image.index), entries[i]);
          records := records + [Logged(entries[i])];
        }
      }
      assert entries[..|entries|] == entries;
      if config.fast && released > 0 {
        records := records + [Released(released)];
      }
      ghost var logged := records;
      for i := 0 to |proposals|
        invariant records == logged + ProposedAll(proposals[..i])
      {
        assert ProposedAll(proposals[..i + 1]) == ProposedAll(proposals[..i]) + [Proposed(proposals[i])];
        records := records + [Proposed(proposals[i])];
      }
      assert proposals[..|proposals|] == proposals;
      records := records + [Hard(hard)];
    }

    /** Prepares a checkpoint of a captured point, or says why not and changes nothing. */
    method BeginFrom(c: Capture, ready: bool) returns (r: Result<bool>)
      requires env.config == config
      modifies `pending
      ensures old(failed) ==> r == Err(Failed) && pending == old(pending)
      ensures !old(failed) && !up ==> r == Err(Unopened) && pending == old(pending)
      ensures !old(failed) && up ==>
        && Sys() == Begun(env, old(Sys()), c, ready)
        && r == match BeginFaultOf(old(View()), c, ready) case Some(fault) => Err(fault) case None => Ok(true)
      ensures Inv(env, old(Sys())) && c in captures ==> Inv(env, Sys())
      ensures r.Ok? ==>
        var image := Snapshot(c.point.index, c.point.term, c.point.conf, c.data);
        pending == Some(Pending(image, CheckpointRecords(config, required, transition, TheStore(), image), false))
      ensures Inv(env, old(Sys())) && !old(failed) && up ==>
        r == match BeginRefusal(env, old(Sys()), c, ready) case Some(fault) => Err(fault) case None => Ok(true)
      ensures Inv(env, old(Sys())) && c in captures && !old(failed) && up ==>
        (r.Ok? <==>
           && !Busy(old(View())) && !ready && snapshot.index <= c.point.index
           && c.point.conf == conf && |c.data| <= IMAGE_BYTES)
    {
      if failed {
        return Err(Failed);
      }
      BeginHolds(env, Sys(), c, ready);
      hide Inv, BeginRefusal;
      if !up {
        return Err(Unopened);
      }
      if pending.Some? || drain.Some? {
        return Err(PersistencePending);
      }
      if c.point.index == 0 || c.point.index > delivered || c.point.index > hard.commit
         || c.point.index < snapshot.index || ready || c.point.conf != conf {
        return Err(CheckpointIndex);
      }
      var term := TermAt(TheStore(), c.point.index);
      if term.Err? {
        return Err(term.error);
      }
      if term.value != c.point.term {
        return Err(CheckpointIndex);
      }
      if |c.data| > IMAGE_BYTES {
        return Err(Capacity);
      }
      if Membership.ConfFault(c.point.conf).Some? {
        return Err(Corruption);
      }
      var image := Snapshot(c.point.index, c.point.term, c.point.conf, c.data);
      var records := Gather(image);
      pending := Some(Pending(image, records, false));
      return Ok(true);
    }

    /** Interest may be given up only before the log took the write. */
    method CancelUnadmitted() returns (cancelled: bool)
      modifies `pending
      ensures cancelled == (old(pending).Some? && !old(pending).value.taken)
      ensures Sys() == Acted(env, old(Sys()), EvCancel)
      ensures pending == if cancelled then None else old(pending)
      ensures Inv(env, old(Sys())) ==> Inv(env, Sys())
    {
      ToggleHolds(env, Sys(), EvCancel);
      hide Inv;
      if pending.Some? && !pending.value.taken {
        pending := None;
        return true;
      }
      return false;
    }

    /** Gives up the log's front. */
    method Compacting(image: Snapshot) returns (r: Result<bool>)
      modifies `entries, `snapshot, `conf
      ensures match Compact(old(TheStore()), image)
        case Ok(store) => r == Ok(true) && TheStore() == store
        case Err(error) => r == Err(error) && TheStore() == old(TheStore())
    {
      var term := TermAt(TheStore(), image.index);
      if term.Err? {
        return Err(term.error);
      }
      if term.value != image.term {
        return Err(Corruption);
      }
      while entries != [] && entries[0].index <= image.index
        invariant Trimmed(entries, image.index) == Trimmed(old(entries), image.index)
        invariant snapshot == old(snapshot) && conf == old(conf)
        decreases |entries|
      {
        entries := entries[1..];
      }
      snapshot := image;
      conf := image.conf;
      return Ok(true);
    }

    /** One poll: the records are given to the log, and once they are durable they are the stream and the log
        is compacted. A log with no room, or not done, is asked again; one that refuses or loses the write
        fails the replica. Whichever stream the disk kept is then read back, and opens wherever opening stops if
        the configurations kept were the history's. */
    method Progress(admission: Admission, completion: Completion) returns (r: Result<bool>)
      modifies `stream, `entries, `snapshot, `conf, `unwritten, `pending, `failed
      ensures old(failed) ==> r == Err(Failed) && Sys() == old(Sys()) && failed
      ensures !old(failed) && !up ==> r == Err(Unopened) && Sys() == old(Sys()) && !failed
      ensures old(pending).None? && !old(failed) && up ==> r == Ok(true) && Sys() == old(Sys()) && !failed
      ensures Inv(env, old(Sys())) && !failed ==> Inv(env, Sys())
      ensures r == Ok(false) ==> !failed && pending.Some? && stream == old(stream)
      ensures Inv(env, old(Sys())) && r == Ok(true) && old(pending).Some? ==>
        pending.None? && stream == old(pending).value.records && snapshot == old(pending).value.snapshot
      ensures r.Err? <==> failed || !up
      ensures Inv(env, old(Sys())) && !old(failed) && failed ==> Read(env, stream).Ok?
      ensures Sane(env) && Inv(env, old(Sys())) && ConfFits(env, old(Sys())) && !old(failed) && failed ==>
        Opens(env, stream)
      ensures Inv(env, old(Sys())) && !old(failed) && old(pending).Some? ==>
        && (failed <==> (!old(pending).value.taken && admission.Refused?)
                        || ((old(pending).value.taken || admission.Took?) && completion.Lost?))
        && (!failed ==> ProgressGives(old(Sys()), admission, completion, Sys(), r))
    {
      if failed {
        return Err(Failed);
      }
      ReadsHolds(env, Sys());
      OpensHolds(env, Sys());
      DownHolds(env, Sys());
      hide Inv, Sane, ConfFits, Read, Opens;
      if !up {
        return Err(Unopened);
      }
      if pending.None? {
        return Ok(true);
      }
      r := Advance(admission, completion);
    }

    /** One poll of a pending checkpoint. */
    method Advance(admission: Admission, completion: Completion) returns (r: Result<bool>)
      requires pending.Some? && !failed
      modifies `stream, `entries, `snapshot, `conf, `unwritten, `pending, `failed
      ensures Inv(env, old(Sys())) && !failed ==> Inv(env, Sys())
      ensures r == Ok(false) ==> pending.Some? && stream == old(stream)
      ensures Inv(env, old(Sys())) && r == Ok(true) ==>
        pending.None? && stream == old(pending).value.records && snapshot == old(pending).value.snapshot
      ensures r.Err? <==> failed
      ensures failed ==> stream == old(stream) || stream == old(pending).value.records
      ensures Inv(env, old(Sys())) ==>
        && (failed <==> (!old(pending).value.taken && admission.Refused?)
                        || ((old(pending).value.taken || admission.Took?) && completion.Lost?))
        && (!failed ==> ProgressGives(old(Sys()), admission, completion, Sys(), r))
    {
      ProgressHolds(env, Sys());
      hide Inv, Compact, Finished, Acted, Shortened;
      r := Admit(admission);
      if r == Ok(true) {
        r := Complete(completion);
      }
    }

    /** Gives the records to the log, unless it has them. */
    method Admit(admission: Admission) returns (r: Result<bool>)
      requires pending.Some? && !failed
      modifies `pending, `failed
      ensures old(pending).value.taken || admission.Took? ==>
        && r == Ok(true) && Sys() == Acted(env, old(Sys()), EvTake) && !failed
        && pending == Some(old(pending).value.(taken := true))
      ensures !old(pending).value.taken && admission.NoRoom? ==> r == Ok(false) && Sys() == old(Sys()) && !failed
      ensures !old(pending).value.taken && admission.Refused? ==> r.Err? && failed && pending.None?
    {
      var work := pending.value;
      pending := None;
      if !work.taken {
        match admission {
          case NoRoom =>
            pending := Some(work);
            return Ok(false);
          case Refused =>
            failed := true;
            return Err(Unavailable);
          case Took =>
            work := work.(taken := true);
        }
      }
      pending := Some(work);
      return Ok(true);
    }

    /** Looks whether the records the log took are durable. */
    method Complete(completion: Completion) returns (r: Result<bool>)
      requires pending.Some? && pending.value.taken && !failed
      modifies `stream, `entries, `snapshot, `conf, `unwritten, `pending, `failed
      ensures completion.NotYet? ==> r == Ok(false) && Sys() == old(Sys()) && !failed
      ensures completion.Lost? ==>
        r.Err? && failed && stream == if completion.kept then old(pending).value.records else old(stream)
      ensures completion.Durable? && Compact(old(TheStore()), old(pending).value.snapshot).Ok? ==>
        r == Ok(true) && Sys() == Finished(old(Sys())) && !failed
      ensures (r.Err? <==> failed) && (completion.Durable? ==> r != Ok(false) && stream == old(pending).value.records)
    {
      hide Compact;
      var work := pending.value;
      pending := None;
      match completion {
        case NotYet =>
          pending := Some(work);
          return Ok(false);
        case Lost(kept) =>
          stream := if kept then work.records else stream;
          failed := true;
          return Err(Unavailable);
        case Durable =>
          r := Publish(work);
      }
    }

    /** The records are durable: they are the stream, and the log gives up what they hold. */
    method Publish(work: Pending) returns (r: Result<bool>)
      requires !failed
      modifies `stream, `entries, `snapshot, `conf, `unwritten, `failed
      ensures stream == work.records
      ensures match Compact(old(TheStore()), work.snapshot)
        case Ok(store) => r == Ok(true) && TheStore() == store && !unwritten && !failed
        case Err(error) => r == Err(error) && failed
    {
      stream := work.records;
      hide Compact;
      r := Compacting(work.snapshot);
      if r.Ok? {
        unwritten := false;
      } else {
        failed := true;
      }
    }
  }

  /** What a drain has gathered once it applied the entries. */
  function Gathering(d: Drain, given: seq<Entry>): Drain {
    Drain(d.applied + |given|, d.events.(entries := d.events.entries + given))
  }

  /** The entries are the log's next committed ones. */
  ghost predicate Following(n: Node, given: seq<Entry>) {
    var at := Applied(n) - n.store.snapshot.index;
    && 0 <= at && at + |given| <= |n.store.entries| && Applied(n) + |given| <= n.store.hard.commit
    && given == n.store.entries[at..at + |given|]
  }

  lemma OneMore(env: Env, conf: Conf, d: Drain, given: seq<Entry>, i: nat)
    requires i < |given| && Contiguous(given[..i], d.applied) && AllAccepted(env, conf, given[..i])
    ensures var e := given[i];
      && Over(env, conf, given[..i + 1]) == Changed(env, Over(env, conf, given[..i]), e)
      && (e.index == d.applied + i + 1 ==>
            Gathering(d, given[..i + 1]) == var g := Gathering(d, given[..i]);
              Drain(e.index, g.events.(entries := g.events.entries + [e])))
      && (Contiguous(given[..i + 1], d.applied) <==> e.index == d.applied + i + 1)
      && (AllAccepted(env, conf, given[..i + 1]) <==> Accepts(env, Over(env, conf, given[..i]), e))
      && (Contiguous(given, d.applied) ==> e.index == d.applied + i + 1)
      && (AllAccepted(env, conf, given) ==> Accepts(env, Over(env, conf, given[..i]), e))
  {
    assert given[..i + 1][..i] == given[..i];
    assert given[..i + 1] == given[..i] + [given[i]];
    assert forall j :: 0 <= j <= i ==> given[..i + 1][..j] == given[..j];
    assert forall j :: 0 <= j <= i ==> given[..i][..j] == given[..j];
    hide Accepts, Changed;
  }

  /** The replica once its drain applied the entries. */
  function Applying(env: Env, y: System, given: seq<Entry>): System
    requires y.node.drain.Some?
  {
    var n := y.node;
    y.(node := n.(store := n.store.(conf := Over(env, n.store.conf, given)),
                  drain := Some(Gathering(n.drain.value, given))))
  }

  lemma NothingGathered(d: Drain)
    ensures Gathering(d, []) == d
  {
    assert d.events.entries + [] == d.events.entries;
  }

  /** All but the last of the log's next committed entries, and the last. */
  lemma FollowingFront(env: Env, n: Node, conf: Conf, given: seq<Entry>)
    requires Following(n, given) && given != [] && AllAccepted(env, conf, given)
    ensures var k := |given| - 1; var at := Applied(n) + k - n.store.snapshot.index;
      && Following(n, given[..k]) && AllAccepted(env, conf, given[..k])
      && Applied(n) + k < n.store.hard.commit && 0 <= at < |n.store.entries| && n.store.entries[at] == given[k]
      && Accepts(env, Over(env, conf, given[..k]), given[k])
  {
    var k := |given| - 1;
    assert forall j :: 0 <= j < k ==> given[..k][..j] == given[..j] && given[..k][j] == given[j];
    hide Accepts, Over;
  }

  /** The last of them is one step of the drain more. */
  lemma ApplyingOne(env: Env, y: System, given: seq<Entry>)
    requires y.node.drain.Some? && Following(y.node, given) && given != []
    requires AllAccepted(env, y.node.store.conf, given)
    ensures var front := given[..|given| - 1];
      && Following(y.node, front) && AllAccepted(env, y.node.store.conf, front)
      && AppliedNext(env, Applying(env, y, front)) == Applying(env, y, given)
  {
    FollowingFront(env, y.node, y.node.store.conf, given);
    LastGathered(env, y.node.store.conf, y.node.drain.value, given);
    hide Accepts, Changed, Following, AllAccepted, Over, Gathering;
  }

  lemma LastGathered(env: Env, conf: Conf, d: Drain, given: seq<Entry>)
    requires given != []
    ensures var front, last := given[..|given| - 1], given[|given| - 1];
      var g := Gathering(d, front);
      && Over(env, conf, given) == Changed(env, Over(env, conf, front), last)
      && Gathering(d, given) == Drain(g.applied + 1, g.events.(entries := g.events.entries + [last]))
      && g.applied == d.applied + |front|
  {
    var k := |given| - 1;
    assert given[..k] + [given[k]] == given;
    Regrouped(d.events.entries, given[..k], [given[k]]);
    hide Changed;
  }

  lemma {:induction false} AllGathered(env: Env, y: System, given: seq<Entry>)
    requires Sane(env) && Inv(env, y) && y.node.drain.Some? && Following(y.node, given)
    requires AllAccepted(env, y.node.store.conf, given)
    ensures Inv(env, Applying(env, y, given))
    decreases |given|
  {
    hide Inv, Sane, Following, AllAccepted, AppliedNext, Applying;
    if given == [] {
      NoneApplied(env, y);
    } else {
      ApplyingOne(env, y, given);
      var front := given[..|given| - 1];
      AllGathered(env, y, front);
      ApplyKeeps(env, Applying(env, y, front));
    }
  }

  lemma NoneApplied(env: Env, y: System)
    requires y.node.drain.Some?
    ensures Applying(env, y, []) == y
  {
    NothingGathered(y.node.drain.value);
  }

  lemma GatheredHolds(env: Env, y: System, given: seq<Entry>)
    requires y.node.drain.Some?
    ensures Sane(env) && Inv(env, y) && Following(y.node, given) && AllAccepted(env, y.node.store.conf, given) ==>
      Inv(env, Applying(env, y, given))
  {
    hide *;
    if Sane(env) && Inv(env, y) && Following(y.node, given) && AllAccepted(env, y.node.store.conf, given) {
      AllGathered(env, y, given);
    }
  }

  lemma RecoverHolds(env: Env, y: System, through: nat)
    requires !y.node.up
    ensures Inv(env, y) ==>
      && y.node.kept.Some? && Contiguous(FirstPage(y.node, through), y.node.delivered)
      && (AllAccepted(env, y.node.store.conf, FirstPage(y.node, through)) ==>
            var page := FirstPage(y.node, through);
            var g := Gathering(Drain(y.node.delivered, y.node.kept.value), page);
            && (y.node.store.snapshot.index <= through <= y.node.store.snapshot.index + |y.node.store.entries| ==>
                  g.applied == through)
            && CameUp(env, y, through) == y.(node := y.node.(
                 store := y.node.store.(conf := Over(env, y.node.store.conf, page)), delivered := through,
                 kept := Some(g.events), up := true)))
    ensures Sane(env) && Inv(env, y) && PageEnd(y.node, through) ==> Inv(env, CameUp(env, y, through))
  {
    hide Sane, AllAccepted, Over, Replayed, StoreFault, HoldsHistory, GatheredFits, EntryNamed;
    if Inv(env, y) {
      ContiguousPrefix(y.node.store.entries, y.node.store.snapshot.index, |FirstPage(y.node, through)|);
      assert [] + FirstPage(y.node, through) == FirstPage(y.node, through);
      if Sane(env) && PageEnd(y.node, through) {
        OpenKeeps(env, y, through);
      }
    }
  }

  lemma StartHolds(env: Env, y: System)
    ensures Inv(env, y) && y.node.up && y.node.pending.None? ==> Inv(env, Drained(y))
  {
    hide Inv, Drained;
    if Inv(env, y) && y.node.up && y.node.pending.None? {
      DrainKeeps(env, y);
    }
  }

  lemma HandHolds(env: Env, y: System)
    requires y.node.drain.Some?
    ensures Inv(env, y) ==> Inv(env, HandedOver(env, y))
    ensures Inv(env, y) && StateFits(env, y) ==>
      var z := HandedOver(env, y);
      z.node.delivered <= |env.history| && z.app == AppAt(env, z.node.delivered)
  {
    hide Inv, StateFits, Given, AppAt;
    if Inv(env, y) {
      HandKeeps(env, y);
      if StateFits(env, y) {
        GivenIs(env, y);
      }
    }
  }

  /** An open replica's delivered prefix has a point once anything was delivered and no snapshot is past it. */
  lemma PointNames(env: Env, y: System)
    ensures Inv(env, y) ==>
      && (PointOf(y.node).Ok? <==>
            y.node.up && y.node.delivered > 0 && y.node.store.snapshot.index <= y.node.delivered)
      && (PointOf(y.node).Ok? ==>
            && 0 < y.node.delivered <= |env.history|
            && PointOf(y.node).value.term == env.history[y.node.delivered - 1].term)
      && (PointOf(y.node).Err? && y.node.up ==>
            PointOf(y.node).error == if y.node.delivered == 0 then CheckpointIndex else Compacted)
  {
    hide Inv, PointOf;
    if Inv(env, y) {
      PointIs(env, y);
    }
  }

  lemma PointStateHolds(env: Env, y: System)
    ensures Inv(env, y) && StateFits(env, y) && PointOf(y.node).Ok? ==>
      && y.node.delivered <= |env.history|
      && (y.app == AppAt(env, y.node.delivered) <==> Unowed(env, y))
      && (y.given == y.node.delivered ==> y.app == AppAt(env, y.node.delivered))
  {
    hide Inv, StateFits, PointOf, Given, AppAt;
    if Inv(env, y) && StateFits(env, y) && PointOf(y.node).Ok? {
      OwedIs(env, y);
      if y.given == y.node.delivered {
        OwedNothing(env, y);
      }
    }
  }

  lemma PointConfHolds(env: Env, y: System)
    ensures Inv(env, y) && ConfFits(env, y) && PointOf(y.node).Ok? ==>
      && y.node.delivered <= |env.history|
      && (y.node.store.conf == ConfAt(env, y.node.delivered) <==> Unmoved(env, y.node))
      && (y.node.drain.None? ==> y.node.store.conf == ConfAt(env, y.node.delivered))
  {
    hide Inv, ConfFits, PointOf, Over, ConfAt;
    if Inv(env, y) && ConfFits(env, y) && PointOf(y.node).Ok? {
      MovedExactly(env, y);
    }
  }

  lemma BeginHolds(env: Env, y: System, c: Capture, ready: bool)
    ensures Inv(env, y) ==> BeginFaultOf(y.node, c, ready) == BeginRefusal(env, y, c, ready)
    ensures Inv(env, y) && c in y.captures ==>
      && Inv(env, Begun(env, y, c, ready))
      && (BeginFaultOf(y.node, c, ready) == None <==>
            && !Busy(y.node) && !ready && y.node.store.snapshot.index <= c.point.index
            && c.point.conf == y.node.store.conf && |c.data| <= IMAGE_BYTES)
  {
    hide Inv, Begun, BeginFaultOf, BeginRefusal;
    if Inv(env, y) {
      BeginExactly(env, y, c, ready);
      if c in y.captures {
        BeginKeeps(env, y, c, ready);
      }
    }
  }

  lemma ToggleHolds(env: Env, y: System, ev: Event)
    requires ev.EvCancel? || ev.EvTake?
    ensures Inv(env, y) ==> Inv(env, Acted(env, y, ev))
  {
    hide Inv, Acted;
    if Inv(env, y) {
      TogglePending(env, y, ev);
    }
  }

  /** What a poll of a pending checkpoint may leave: taken, or finished. */
  lemma ProgressHolds(env: Env, y: System)
    requires y.node.pending.Some?
    ensures Inv(env, y) ==>
      var taken := Acted(env, y, EvTake); var done := Finished(taken);
      && Inv(env, taken) && Inv(env, done) && Compact(y.node.store, y.node.pending.value.snapshot).Ok?
      && done.stream == y.node.pending.value.records && done.node.pending.None?
      && done.node.store.snapshot == y.node.pending.value.snapshot
      && taken == y.(node := y.node.(pending := Some(y.node.pending.value.(taken := true)))) && done == Shortened(y)
  {
    hide Inv;
    if Inv(env, y) {
      TogglePending(env, y, EvTake);
      FinishKeeps(env, Acted(env, y, EvTake));
      PendingReplays(env, y);
      ShortensExactly(env, y);
    }
  }

  /** What a poll that does not fail answers and leaves. */
  ghost predicate ProgressGives(y: System, admission: Admission, completion: Completion, z: System, r: Result<bool>)
    requires y.node.pending.Some?
  {
    var p := y.node.pending.value;
    if !p.taken && admission.NoRoom? then r == Ok(false) && z == y
    else if completion.NotYet? then
      r == Ok(false) && z == y.(node := y.node.(pending := Some(p.(taken := true))))
    else r == Ok(true) && z == Shortened(y)
  }

  lemma DownHolds(env: Env, y: System)
    ensures Inv(env, y) && y.node.pending.Some? ==> y.node.up
  {
    hide LiveFits, DiskFits, PendingFits, Replayed;
  }

  /** Both streams are read back. */
  lemma ReadsHolds(env: Env, y: System)
    ensures Inv(env, y) ==>
      Read(env, y.stream).Ok? && (y.node.pending.Some? ==> Read(env, y.node.pending.value.records).Ok?)
  {
    hide Inv, Read, Crashed;
    if Inv(env, y) {
      CrashReads(env, y, false);
      if y.node.pending.Some? {
        TogglePending(env, y, EvTake);
        CrashReads(env, Acted(env, y, EvTake), true);
      }
    }
  }

  /** And open, if the configurations kept are the history's. */
  lemma OpensHolds(env: Env, y: System)
    ensures Sane(env) && Inv(env, y) && ConfFits(env, y) ==>
      Opens(env, y.stream) && (y.node.pending.Some? ==> Opens(env, y.node.pending.value.records))
  {
    hide Inv, Sane, ConfFits, Opens;
    if Sane(env) && Inv(env, y) && ConfFits(env, y) {
      StreamOpens(env, y, false);
      if y.node.pending.Some? {
        TogglePending(env, y, EvTake);
        TakenConf(env, y);
        StreamOpens(env, Acted(env, y, EvTake), true);
      }
    }
  }

  lemma TakenConf(env: Env, y: System)
    requires ConfFits(env, y)
    ensures ConfFits(env, Acted(env, y, EvTake))
  {
    hide ConfAt;
  }

  lemma {:induction false} AfterNext(entries: seq<Entry>, i: nat, index: nat)
    requires i < |entries|
    ensures After(entries[..i + 1], index) ==
      After(entries[..i], index) + if entries[i].index > index then [entries[i]] else []
    decreases i
  {
    if i == 0 {
      assert entries[..1] == [entries[0]] && entries[..0] == [] && [entries[0]][1..] == [];
    } else {
      AfterNext(entries[1..], i - 1, index);
      assert entries[..i + 1][1..] == entries[1..][..i] && entries[..i][1..] == entries[1..][..i - 1];
      assert entries[..i + 1][0] == entries[0] == entries[..i][0];
    }
  }

  lemma LoggedNext(entries: seq<Entry>, e: Entry)
    ensures LoggedAll(entries + [e]) == LoggedAll(entries) + [Logged(e)]
  {
  }
}
