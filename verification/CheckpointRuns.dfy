/**
 A replica over time: opened, drains that write, learn commits and apply entries and then hand over what
 they gathered, points captured, checkpoints begun, cancelled, taken and finished, and crashes in between.
 Throughout, what is on disk can be read back and stands for the same log as what is in memory. The
 application's state and the configuration are the group's history as long as no point was captured that
 does not fit.
 */
module CheckpointRuns {
  import opened Basics
  import opened CheckpointModel
  import opened CheckpointReplay
  import Membership

  /** The application's state, as a value. */
  type App = nat

  /** The group: its configuration at the start, its committed history, how the application and the
      configuration follow it, and the state an image stands for. A change of configuration can be refused. */
  datatype Env = Env(
    config: Config, bootstrap: Conf, initial: App, step: (App, Entry) -> App, image: Bytes -> App,
    change: (Conf, Entry) -> Option<Conf>, history: seq<Entry>)

  function AppAt(env: Env, k: nat): App
    requires k <= |env.history|
  {
    if k == 0 then env.initial else env.step(AppAt(env, k - 1), env.history[k - 1])
  }

  /** Whether the entry may be applied over the configuration. */
  predicate Accepts(env: Env, conf: Conf, e: Entry) {
    e.kind == Change ==> env.change(conf, e).Some?
  }

  /** The configuration once the entry is applied over it; one refused leaves it. */
  function Changed(env: Env, conf: Conf, e: Entry): Conf {
    if e.kind == Change && env.change(conf, e).Some? then env.change(conf, e).value else conf
  }

  function ConfAt(env: Env, k: nat): Conf
    requires k <= |env.history|
  {
    if k == 0 then env.bootstrap else Changed(env, ConfAt(env, k - 1), env.history[k - 1])
  }

  /** The configuration once the entries are applied over it in order. */
  function Over(env: Env, conf: Conf, entries: seq<Entry>): Conf {
    if entries == [] then conf else Changed(env, Over(env, conf, entries[..|entries| - 1]), entries[|entries| - 1])
  }

  /** Each entry may be applied over the configuration those before it leave. */
  predicate AllAccepted(env: Env, conf: Conf, entries: seq<Entry>) {
    forall j :: 0 <= j < |entries| ==> Accepts(env, Over(env, conf, entries[..j]), entries[j])
  }

  /** The group starts with a configuration that can decide and a change makes no other; its history is
      numbered, and each of its changes was accepted where it stands. */
  ghost predicate Sane(env: Env) {
    && Membership.ConfFault(env.bootstrap) == None
    && (forall conf, e :: Membership.ConfFault(conf) == None && env.change(conf, e).Some? ==>
          Membership.ConfFault(env.change(conf, e).value) == None)
    && (forall i :: 0 <= i < |env.history| ==> env.history[i].index == i + 1)
    && (forall k :: 0 <= k < |env.history| ==> Accepts(env, ConfAt(env, k), env.history[k]))
  }

  // ---------------------------------------------------------------- the replica

  datatype Pending = Pending(snapshot: Snapshot, records: seq<Record>, taken: bool)

  /** What a drain gathered for the application: an image it installed, and the entries applied since. */
  datatype Events = Events(snapshot: Option<Snapshot>, entries: seq<Entry>)

  /** A drain under way: how far it has applied, and what it gathered. */
  datatype Drain = Drain(applied: nat, events: Events)

  /** The replica. The configuration follows what is applied; `delivered` moves only once the drain that
      applied it hands over. What opening gathered is `kept` for the first drain. A replica that is not `up`
      was read back and is still to be opened: it answers nothing. */
  datatype Node = Node(
    store: Store, required: Option<nat>, transition: Option<Pair>, delivered: nat, unwritten: bool,
    pending: Option<Pending>, drain: Option<Drain>, kept: Option<Events>, up: bool)

  function Applied(n: Node): nat {
    if n.drain.Some? then n.drain.value.applied else n.delivered
  }

  /** What was gathered and not handed over. */
  function Outstanding(n: Node): Events {
    if n.drain.Some? then n.drain.value.events else if n.kept.Some? then n.kept.value else Events(None, [])
  }

  datatype Capture = Capture(point: Point, data: Bytes)

  /** What is durable, the replica, how far its application was given the history and the state it is in, and
      the points captured with their images. */
  datatype System = System(stream: seq<Record>, node: Node, given: nat, app: App, captures: seq<Capture>)

  function Replayed(env: Env, stream: seq<Record>): Result<Member> {
    Replay(Ok(NewMember(env.bootstrap)), stream)
  }

  function ImageIn(s: Store): Option<Snapshot> {
    if s.snapshot.index == 0 then None else Some(s.snapshot)
  }

  /** A member read back and still to be opened; its image is kept for the first drain. */
  function ReadBack(m: Member): Node {
    Node(m.store, m.required, m.transition, m.store.snapshot.index, false, None, None,
         Some(Events(ImageIn(m.store), [])), false)
  }

  /** What an image says was applied through its index. */
  function AppOf(env: Env, snapshot: Snapshot): App {
    if snapshot.index == 0 then env.initial else env.image(snapshot.data)
  }

  function Folded(env: Env, app: App, entries: seq<Entry>): App {
    if entries == [] then app else env.step(Folded(env, app, entries[..|entries| - 1]), entries[|entries| - 1])
  }

  /** The application's state once it takes what a drain gathered. */
  function Given(env: Env, app: App, events: Events): App {
    Folded(env, if events.snapshot.Some? then env.image(events.snapshot.value.data) else app, events.entries)
  }

  /** Whether the records are this member's and can be read back. */
  function Read(env: Env, stream: seq<Record>): Result<Node> {
    var m := Replayed(env, stream);
    if m.Err? then Err(m.error)
    else if m.value.identity != Some(env.config.id) || m.value.fast != env.config.fast then Err(Corruption)
    else if StoreFault(m.value.store).Some? then Err(StoreFault(m.value.store).value)
    else Ok(ReadBack(m.value))
  }

  /** The entries opening applies through an index. */
  function FirstPage(n: Node, through: nat): seq<Entry> {
    var at := n.store.snapshot.index;
    if at <= through <= at + |n.store.entries| then n.store.entries[..through - at] else []
  }

  /** Where opening may stop: with everything committed applied, or with a page that gives the application
      something. Where a decoder is required opening waits for its confirmation, which may put the drain off. */
  ghost predicate PageEnd(n: Node, through: nat) {
    var at := n.store.snapshot.index;
    && at <= through <= n.store.hard.commit && through <= at + |n.store.entries|
    && (|| through == n.store.hard.commit
        || (exists e <- FirstPage(n, through) :: e.kind == Normal && e.data != [])
        || (n.required.Some? && through == at))
  }

  /** A member read back is opened: the committed entries of a page are applied over the image's configuration
      and kept, with the image, for the first drain. A change that is refused fails the opening. */
  function Recovered(env: Env, n: Node, through: nat): Result<Node> {
    var page := FirstPage(n, through);
    if !AllAccepted(env, n.store.conf, page) then Err(ChangeRefused)
    else
      Ok(n.(store := n.store.(conf := Over(env, n.store.conf, page)), delivered := through,
            kept := Some(Events(ImageIn(n.store), page)), up := true))
  }

  /** The records open wherever opening may stop. */
  ghost predicate Opens(env: Env, stream: seq<Record>) {
    && Read(env, stream).Ok?
    && forall through :: PageEnd(Read(env, stream).value, through) ==>
         Recovered(env, Read(env, stream).value, through).Ok?
  }

  // ---------------------------------------------------------------- one write of the replica's

  datatype Update = Update(
    snapshot: Option<Snapshot>, entries: seq<Entry>, released: Option<nat>, proposals: seq<Entry>,
    hard: Option<HardState>)

  function UpdateRecords(c: Config, u: Update): seq<Record> {
    (if u.snapshot.Some? then [Snapshotted(u.snapshot.value)] else []) + LoggedAll(u.entries)
    + (if u.released.Some? && c.fast then [Released(u.released.value)] else [])
    + ProposedAll(u.proposals) + (if u.hard.Some? then [Hard(u.hard.value)] else [])
  }

  function Installed(s: Store, snapshot: Option<Snapshot>): Store {
    if snapshot.None? then s
    else s.(entries := [], conf := snapshot.value.conf, snapshot := snapshot.value,
            hard := s.hard.(commit := Max(s.hard.commit, snapshot.value.index)))
  }

  /** Each entry replaces what the log held at and after its index. */
  function TakeAll(entries: seq<Entry>, more: seq<Entry>): seq<Entry>
    decreases |more|
  {
    if more == [] then entries else TakeAll(Below(entries, more[0].index) + [more[0]], more[1..])
  }

  function HoldAll(proposals: seq<Entry>, more: seq<Entry>): seq<Entry>
    decreases |more|
  {
    if more == [] then proposals else HoldAll(Held(proposals, more[0]), more[1..])
  }

  /** The store once the write is durable. */
  function Published(s: Store, u: Update): Store {
    var a := Installed(s, u.snapshot);
    var b := a.(entries := TakeAll(a.entries, u.entries));
    var d := if u.released.Some? then Release(b, u.released.value) else b;
    var e := d.(proposals := HoldAll(d.proposals, u.proposals));
    if u.hard.Some? then e.(hard := u.hard.value) else e
  }

  // ---------------------------------------------------------------- what holds throughout

  /** Entries following `from` are the group's through `commit`. */
  ghost predicate Committed(env: Env, entries: seq<Entry>, from: nat, commit: nat) {
    && commit <= |env.history|
    && forall i :: 0 <= i < |entries| && from + 1 + i <= commit ==> entries[i] == env.history[from + i]
  }

  /** The committed entries are the group's history, and the image stands at one of them. */
  ghost predicate HoldsHistory(env: Env, s: Store) {
    && s.snapshot.index <= s.hard.commit && Committed(env, s.entries, s.snapshot.index, s.hard.commit)
    && (s.snapshot.index > 0 ==> s.snapshot.term == env.history[s.snapshot.index - 1].term)
  }

  /** Where what was gathered begins: at an image, or at what the application was given. */
  function From(given: nat, events: Events): nat {
    if events.snapshot.Some? then events.snapshot.value.index else given
  }

  /** What was gathered and not handed over is the history, from what the application was given, or from an
      image past it, to what was applied. */
  ghost predicate GatheredFits(env: Env, given: nat, n: Node) {
    var o := Outstanding(n);
    && given <= From(given, o) <= Applied(n) <= |env.history| && given <= n.delivered <= Applied(n)
    && o.entries == env.history[From(given, o)..Applied(n)]
    && (o.snapshot.Some? ==> o.snapshot.value.index <= n.store.snapshot.index)
    && (n.drain.Some? ==> n.kept.None?)
  }

  ghost predicate LiveFits(env: Env, y: System) {
    var s := y.node.store;
    && WellFormed(s) && HoldsHistory(env, s) && (!env.config.fast ==> s.proposals == [])
    && s.snapshot.index <= Applied(y.node) <= s.hard.commit && GatheredFits(env, y.given, y.node)
    && DecodersFit(y.node.required, y.node.transition)
  }

  /** The store on disk is the store in memory but for a commit not yet written and the configuration,
      which is the image's until opening applies what follows it. */
  ghost predicate Follows(env: Env, t: Store, s: Store, unwritten: bool) {
    && t.snapshot == s.snapshot && t.entries == s.entries && t.proposals == s.proposals
    && (env.config.fast ==> t.released == s.released)
    && t.hard.term == s.hard.term && t.hard.vote == s.hard.vote
    && t.snapshot.index <= t.hard.commit <= s.hard.commit && (!unwritten ==> t.hard.commit == s.hard.commit)
    && t.conf == if t.snapshot.index == 0 then env.bootstrap else t.snapshot.conf
  }

  ghost predicate MemberFits(env: Env, m: Member, n: Node) {
    && m.identity == Some(env.config.id) && m.fast == env.config.fast
    && m.required == n.required && m.transition == n.transition
    && Follows(env, m.store, n.store, n.unwritten) && StoreFault(m.store) == None
  }

  ghost predicate DiskFits(env: Env, y: System) {
    Replayed(env, y.stream).Ok? && MemberFits(env, Replayed(env, y.stream).value, y.node)
  }

  /** The point names an entry of the history. */
  ghost predicate EntryNamed(env: Env, point: Point) {
    0 < point.index <= |env.history| && point.term == env.history[point.index - 1].term
  }

  /** And the image is the history's through it. */
  ghost predicate ImageFits(env: Env, point: Point, data: Bytes) {
    EntryNamed(env, point) && env.image(data) == AppAt(env, point.index)
  }

  /** And so is its configuration. */
  ghost predicate PointFits(env: Env, point: Point, data: Bytes) {
    ImageFits(env, point, data) && point.conf == ConfAt(env, point.index)
  }

  function PointOn(snapshot: Snapshot): Point {
    Point(snapshot.index, snapshot.term, snapshot.conf)
  }

  ghost predicate PendingFits(env: Env, n: Node) {
    n.pending.Some? ==>
      var p := n.pending.value;
      && n.drain.None? && MayCompact(n.store, p.snapshot) && EntryNamed(env, PointOn(p.snapshot))
      && p.snapshot.conf == n.store.conf && p.snapshot.index <= n.delivered
      && p.records == CheckpointRecords(env.config, n.required, n.transition, n.store, p.snapshot)
  }

  /** A replica that is not up is what its records say, and its application is new. */
  ghost predicate DownFits(env: Env, y: System) {
    !y.node.up ==> Replayed(env, y.stream).Ok? && y == Restarted(env, y.stream, Replayed(env, y.stream).value)
  }

  function Restarted(env: Env, stream: seq<Record>, m: Member): System {
    System(stream, ReadBack(m), 0, env.initial, [])
  }

  /** What holds in every state of every run. */
  ghost predicate Inv(env: Env, y: System) {
    && LiveFits(env, y) && DiskFits(env, y) && PendingFits(env, y.node) && DownFits(env, y)
    && forall c <- y.captures :: EntryNamed(env, c.point) && c.point.index <= y.node.delivered
  }

  /** The image is the history's through its index. */
  ghost predicate SnapshotStateFits(env: Env, snapshot: Snapshot) {
    snapshot.index <= |env.history| && AppOf(env, snapshot) == AppAt(env, snapshot.index)
  }

  /** The state is the history's wherever one is kept: the application's, and that of every image: the one
      installed, one to be handed over, a pending checkpoint's and those captured. This holds as long as no
      image was captured that is of another state. */
  ghost predicate StateFits(env: Env, y: System) {
    && y.given <= |env.history| && y.app == AppAt(env, y.given)
    && SnapshotStateFits(env, y.node.store.snapshot)
    && (Outstanding(y.node).snapshot.Some? ==>
          var image := Outstanding(y.node).snapshot.value; SnapshotStateFits(env, image) && image.index > 0)
    && (y.node.pending.Some? ==> SnapshotStateFits(env, y.node.pending.value.snapshot))
    && forall c <- y.captures :: c.point.index <= |env.history| && env.image(c.data) == AppAt(env, c.point.index)
  }

  ghost predicate SnapshotConfFits(env: Env, snapshot: Snapshot) {
    snapshot.index > 0 ==> snapshot.index <= |env.history| && snapshot.conf == ConfAt(env, snapshot.index)
  }

  /** The configuration is the history's wherever one is kept: in memory, with the image, with a pending
      checkpoint and with the points captured. This holds as long as no point was captured that names
      another configuration. */
  ghost predicate ConfFits(env: Env, y: System) {
    && Applied(y.node) <= |env.history| && y.node.store.conf == ConfAt(env, Applied(y.node))
    && SnapshotConfFits(env, y.node.store.snapshot)
    && (y.node.pending.Some? ==> SnapshotConfFits(env, y.node.pending.value.snapshot))
    && forall c <- y.captures :: c.point.index <= |env.history| && c.point.conf == ConfAt(env, c.point.index)
  }

  // ---------------------------------------------------------------- entries replacing a tail

  lemma {:induction false} BelowIs(entries: seq<Entry>, from: nat, index: nat)
    requires Contiguous(entries, from) && from < index <= from + |entries| + 1
    ensures Below(entries, index) == entries[..index - from - 1]
    decreases |entries|
  {
    if entries == [] || entries[|entries| - 1].index < index {
      assert entries[..|entries|] == entries;
    } else {
      var front := entries[..|entries| - 1];
      BelowIs(front, from, index);
      assert front[..index - from - 1] == entries[..index - from - 1];
    }
  }

  lemma ContiguousPrefix(entries: seq<Entry>, from: nat, k: nat)
    requires Contiguous(entries, from) && k <= |entries|
    ensures Contiguous(entries[..k], from)
  {
  }

  lemma ContiguousConcat(entries: seq<Entry>, from: nat, more: seq<Entry>)
    requires Contiguous(entries, from) && Contiguous(more, from + |entries|)
    ensures Contiguous(entries + more, from)
  {
  }

  /** The first of entries that follow each other, and the rest. */
  lemma ContiguousRest(more: seq<Entry>, at: nat)
    requires Contiguous(more, at) && more != []
    ensures more[0].index == at + 1 && Contiguous([more[0]], at) && Contiguous(more[1..], at + 1)
    ensures [more[0]] + more[1..] == more
  {
  }

  lemma Regrouped(a: seq<Entry>, b: seq<Entry>, c: seq<Entry>)
    ensures a + b + c == a + (b + c)
  {
  }

  lemma {:induction false} TakeAllAppends(entries: seq<Entry>, from: nat, more: seq<Entry>)
    requires Contiguous(entries, from) && Contiguous(more, from + |entries|)
    ensures TakeAll(entries, more) == entries + more
    decreases |more|
  {
    hide Contiguous, Below;
    if more == [] {
      assert entries + more == entries;
    } else {
      ContiguousRest(more, from + |entries|);
      BelowIs(entries, from, more[0].index);
      assert entries[..|entries|] == entries;
      ContiguousConcat(entries, from, [more[0]]);
      TakeAllAppends(entries + [more[0]], from, more[1..]);
      Regrouped(entries, [more[0]], more[1..]);
    }
  }

  /** Entries that follow each other from somewhere within the log: the log up to there, then they. */
  lemma TakeAllIs(entries: seq<Entry>, from: nat, more: seq<Entry>, at: nat)
    requires Contiguous(entries, from) && from <= at <= from + |entries| && Contiguous(more, at) && more != []
    ensures TakeAll(entries, more) == entries[..at - from] + more
    ensures Contiguous(entries[..at - from] + more, from)
  {
    hide Contiguous, Below;
    ContiguousRest(more, at);
    BelowIs(entries, from, at + 1);
    var kept := entries[..at - from];
    ContiguousPrefix(entries, from, at - from);
    ContiguousConcat(kept, from, [more[0]]);
    ContiguousConcat(kept, from, more);
    TakeAllAppends(kept + [more[0]], from, more[1..]);
    Regrouped(kept, [more[0]], more[1..]);
  }

  lemma FirstTaken(m: Member, e: Entry)
    requires Contiguous(m.store.entries, m.store.snapshot.index)
    requires m.store.hard.commit < e.index <= Last(m.store) + 1 && m.store.snapshot.index < e.index
    ensures var s := m.store; var kept := s.entries[..e.index - 1 - s.snapshot.index];
      && ReplayOne(m, Logged(e)) == Ok(m.(store := s.(entries := kept + [e]))) && Below(s.entries, e.index) == kept
      && Contiguous(kept + [e], s.snapshot.index)
  {
    LastOf(m.store);
    BelowIs(m.store.entries, m.store.snapshot.index, e.index);
  }

  lemma LoggedFirst(more: seq<Entry>)
    requires more != []
    ensures LoggedAll(more) == [Logged(more[0])] + LoggedAll(more[1..])
  {
  }

  lemma NothingLogged(m: Member)
    ensures LoggedAll([]) == [] && Replay(Ok(m), []) == Ok(m)
  {
  }

  /** Read back, they replace the same tail. */
  lemma TakenReplays(m: Member, more: seq<Entry>, at: nat)
    requires Contiguous(m.store.entries, m.store.snapshot.index) && Contiguous(more, at)
    requires m.store.hard.commit <= at <= Last(m.store) && m.store.snapshot.index <= at
    ensures Replay(Ok(m), LoggedAll(more)) == Ok(m.(store := m.store.(entries := TakeAll(m.store.entries, more))))
  {
    hide Replay, ReplayOne, LoggedAll, Below, Contiguous;
    if more == [] {
      NothingLogged(m);
    } else {
      var s, e := m.store, more[0];
      ContiguousRest(more, at);
      FirstTaken(m, e);
      LastOf(m.store);
      var kept := s.entries[..at - s.snapshot.index];
      var next := m.(store := s.(entries := kept + [e]));
      assert Last(next.store) == at + 1;
      LoggedFirst(more);
      ReplayConcat(Ok(m), [Logged(e)], LoggedAll(more[1..]));
      ReplayOneRecord(m, Logged(e));
      EntriesReplay(next, more[1..]);
      TakeAllAppends(kept + [e], s.snapshot.index, more[1..]);
    }
  }

  lemma {:induction false} HoldAllReplays(m: Member, more: seq<Entry>)
    requires m.fast || more == []
    requires forall i :: 0 <= i < |more| ==> Proposable(more[i])
    ensures Replay(Ok(m), ProposedAll(more)) == Ok(m.(store := m.store.(proposals := HoldAll(m.store.proposals, more))))
    decreases |more|
  {
    if more != [] {
      assert ProposedAll(more)[0] == Proposed(more[0]) && ProposedAll(more)[1..] == ProposedAll(more[1..]);
      HoldAllReplays(m.(store := Hold(m.store, more[0])), more[1..]);
    }
  }

  lemma FitRest(proposals: seq<Entry>)
    requires ProposalsFit(proposals) && proposals != []
    ensures ProposalsFit(proposals[1..]) && Proposable(proposals[0])
    ensures forall p <- proposals[1..] :: p.index != proposals[0].index
  {
  }

  lemma FitFirst(p: Entry, rest: seq<Entry>)
    requires ProposalsFit(rest) && Proposable(p) && forall q <- rest :: q.index != p.index
    ensures ProposalsFit([p] + rest)
  {
    assert forall j :: 0 <= j < |rest| ==> rest[j] in rest;
  }

  lemma {:induction false} HeldFits(proposals: seq<Entry>, e: Entry)
    requires ProposalsFit(proposals) && Proposable(e)
    ensures ProposalsFit(Held(proposals, e))
    ensures forall p <- Held(proposals, e) :: p == e || p in proposals
  {
    if proposals == [] {
    } else {
      FitRest(proposals);
      HeldFits(proposals[1..], e);
      hide ProposalsFit, Proposable;
      if proposals[0].index == e.index {
        FitFirst(e, proposals[1..]);
      } else {
        FitFirst(proposals[0], Held(proposals[1..], e));
      }
    }
  }

  lemma {:induction false} HoldAllFits(proposals: seq<Entry>, more: seq<Entry>)
    requires ProposalsFit(proposals) && forall i :: 0 <= i < |more| ==> Proposable(more[i])
    ensures ProposalsFit(HoldAll(proposals, more))
    decreases |more|
  {
    if more != [] {
      HeldFits(proposals, more[0]);
      HoldAllFits(Held(proposals, more[0]), more[1..]);
    }
  }

  lemma {:induction false} AboveFits(proposals: seq<Entry>, through: nat)
    requires ProposalsFit(proposals)
    ensures ProposalsFit(Above(proposals, through)) && forall p <- Above(proposals, through) :: p in proposals
  {
    if proposals != [] {
      FitRest(proposals);
      AboveFits(proposals[1..], through);
      hide ProposalsFit, Proposable;
      FitFirst(proposals[0], Above(proposals[1..], through));
    }
  }

  // ---------------------------------------------------------------- a write made durable

  /** A snapshot the group sends: its image is the history's through its index, past all that is committed. */
  ghost predicate SnapshotFits(env: Env, s: Store, snapshot: Snapshot) {
    && s.hard.commit < snapshot.index && ImageFits(env, PointOn(snapshot), snapshot.data)
    && Membership.ConfFault(snapshot.conf) == None
  }

  ghost predicate HardFollows(s: HardState, t: HardState) {
    s.commit <= t.commit && s.term <= t.term && (t.term == s.term && s.vote != 0 ==> t.vote == s.vote)
  }

  /** What the core gives to write: a snapshot past the commit, entries that follow each other from within
      the log and past the commit, a hard state that goes on from the one stored, and a store that adds up
      and whose committed entries are the group's. A commit learnt and not written is stated with it. */
  ghost predicate Supplied(env: Env, n: Node, u: Update) {
    var a := Installed(n.store, u.snapshot);
    var t := Published(n.store, u);
    && (u.snapshot.Some? ==> SnapshotFits(env, n.store, u.snapshot.value))
    && (u.entries != [] ==>
          a.hard.commit < u.entries[0].index <= Last(a) + 1 && Contiguous(u.entries, u.entries[0].index - 1))
    && (u.hard.Some? ==> HardFollows(a.hard, u.hard.value)) && (u.hard.None? ==> !n.unwritten)
    && (forall i :: 0 <= i < |u.proposals| ==> Proposable(u.proposals[i])) && (!env.config.fast ==> u.proposals == [])
    && StoreFault(t) == None && t.snapshot.term <= t.hard.term < U64_MAX && TermsBound(t.entries, t.hard.term)
    && Committed(env, t.entries, t.snapshot.index, t.hard.commit)
  }

  /** The store on disk after the write: a release is written only where there is a fast track. */
  function Stored(c: Config, s: Store, u: Update): Store {
    Published(s, if c.fast then u else u.(released := None))
  }

  lemma InstalledReplays(env: Env, m: Member, snapshot: Snapshot)
    requires Membership.ConfFault(snapshot.conf) == None && m.store.snapshot.index <= snapshot.index
    ensures ReplayOne(m, Snapshotted(snapshot)) == Ok(m.(store := Installed(m.store, Some(snapshot))))
  {
  }

  /** The four parts of a write before its hard state, read back one after another. */
  lemma PartsReplay(env: Env, m: Member, u: Update)
    requires m.fast == env.config.fast && Contiguous(m.store.entries, m.store.snapshot.index)
    requires u.snapshot.Some? ==>
      Membership.ConfFault(u.snapshot.value.conf) == None && m.store.snapshot.index <= u.snapshot.value.index
    requires var a := Installed(m.store, u.snapshot);
      u.entries != [] ==> a.hard.commit < u.entries[0].index <= Last(a) + 1 && a.snapshot.index < u.entries[0].index
                          && Contiguous(u.entries, u.entries[0].index - 1)
    requires (forall i :: 0 <= i < |u.proposals| ==> Proposable(u.proposals[i]))
    requires (!env.config.fast ==> u.proposals == [])
    requires u.hard.None?
    ensures Replay(Ok(m), UpdateRecords(env.config, u)) == Ok(m.(store := Stored(env.config, m.store, u)))
  {
    var c := env.config;
    var r1 := if u.snapshot.Some? then [Snapshotted(u.snapshot.value)] else [];
    var r2 := LoggedAll(u.entries);
    var r3 := if u.released.Some? && c.fast then [Released(u.released.value)] else [];
    var r4 := ProposedAll(u.proposals);
    var m1 := m.(store := Installed(m.store, u.snapshot));
    var m2 := m1.(store := m1.store.(entries := TakeAll(m1.store.entries, u.entries)));
    var m3 := if u.released.Some? && c.fast then m2.(store := Release(m2.store, u.released.value)) else m2;
    assert Replay(Ok(m), r1) == Ok(m1) by {
      if u.snapshot.Some? {
        InstalledReplays(env, m, u.snapshot.value);
        ReplayOneRecord(m, Snapshotted(u.snapshot.value));
      }
    }
    assert Replay(Ok(m1), r2) == Ok(m2) by { PartTaken(m1, u.entries); }
    assert Replay(Ok(m2), r3) == Ok(m3) by {
      if u.released.Some? && c.fast {
        ReplayOneRecord(m2, Released(u.released.value));
      }
    }
    HoldAllReplays(m3, u.proposals);
    hide Replay, LoggedAll, ProposedAll, TakeAll, HoldAll, Contiguous;
    ReplayConcat(Ok(m), r1, r2);
    ReplayConcat(Ok(m), r1 + r2, r3);
    ReplayConcat(Ok(m), r1 + r2 + r3, r4);
    assert UpdateRecords(c, u) == r1 + r2 + r3 + r4;
  }

  lemma PartTaken(m: Member, entries: seq<Entry>)
    requires Contiguous(m.store.entries, m.store.snapshot.index)
    requires entries != [] ==>
      m.store.hard.commit < entries[0].index <= Last(m.store) + 1 && m.store.snapshot.index < entries[0].index
                               && Contiguous(entries, entries[0].index - 1)
    ensures Replay(Ok(m), LoggedAll(entries)) == Ok(m.(store := m.store.(entries := TakeAll(m.store.entries, entries))))
  {
    if entries == [] {
      assert LoggedAll(entries) == [];
    } else {
      TakenReplays(m, entries, entries[0].index - 1);
    }
  }

  /** And with its hard state, if that goes on from the one stored and the result can be opened. */
  lemma UpdateReplays(env: Env, m: Member, u: Update)
    requires m.fast == env.config.fast && Contiguous(m.store.entries, m.store.snapshot.index)
    requires u.snapshot.Some? ==>
      Membership.ConfFault(u.snapshot.value.conf) == None && m.store.snapshot.index <= u.snapshot.value.index
    requires var a := Installed(m.store, u.snapshot);
      && (u.entries != [] ==> a.hard.commit < u.entries[0].index <= Last(a) + 1 && a.snapshot.index < u.entries[0].index
                              && Contiguous(u.entries, u.entries[0].index - 1))
      && (u.hard.Some? ==> HardFollows(a.hard, u.hard.value))
    requires (forall i :: 0 <= i < |u.proposals| ==> Proposable(u.proposals[i]))
    requires (!env.config.fast ==> u.proposals == [])
    requires StoreFault(Stored(env.config, m.store, u)) == None
    ensures Replay(Ok(m), UpdateRecords(env.config, u)) == Ok(m.(store := Stored(env.config, m.store, u)))
  {
    var v := u.(hard := None);
    PartsReplay(env, m, v);
    if u.hard.Some? {
      HardLast(env.config, u);
      HardStored(env.config, m.store, u);
      hide Replay, Contiguous, StoreFault, UpdateRecords, Stored, Installed;
      var front := UpdateRecords(env.config, v);
      var n := m.(store := Stored(env.config, m.store, v));
      ReplayConcat(Ok(m), front, [Hard(u.hard.value)]);
      ReplayOneRecord(n, Hard(u.hard.value));
    }
  }

  lemma HardLast(c: Config, u: Update)
    requires u.hard.Some?
    ensures UpdateRecords(c, u) == UpdateRecords(c, u.(hard := None)) + [Hard(u.hard.value)]
  {
    hide LoggedAll, ProposedAll;
    var front := UpdateRecords(c, u.(hard := None));
    assert front + [] == front;
  }

  lemma HardStored(c: Config, s: Store, u: Update)
    requires u.hard.Some?
    ensures var t := Stored(c, s, u.(hard := None));
      t.hard == Installed(s, u.snapshot).hard && Stored(c, s, u) == t.(hard := u.hard.value)
  {
    hide TakeAll, HoldAll;
  }
}
