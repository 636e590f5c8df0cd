/**
 The records of a checkpoint read back as exactly the log it leaves: the image, every entry after it,
 the hard state, what is held and released, and what the group's decoders require.
 */
module CheckpointReplay {
  import opened Basics
  import opened CheckpointModel
  import Membership

  // ---------------------------------------------------------------- a store that adds up

  /** Entries follow each other from the one after the snapshot. */
  ghost predicate Contiguous(entries: seq<Entry>, from: nat) {
    forall i :: 0 <= i < |entries| ==> entries[i].index == from + 1 + i
  }

  ghost predicate TermsBound(entries: seq<Entry>, term: nat) {
    forall i :: 0 <= i < |entries| ==> entries[i].term <= term
  }

  /** At most one proposal an index, each of a kind the fast track takes. */
  ghost predicate ProposalsFit(proposals: seq<Entry>) {
    && (forall i :: 0 <= i < |proposals| ==> Proposable(proposals[i]))
    && (forall i, j :: 0 <= i < j < |proposals| ==> proposals[i].index != proposals[j].index)
  }

  ghost predicate WellFormed(s: Store) {
    && StoreFault(s) == None && Contiguous(s.entries, s.snapshot.index)
    && TermsBound(s.entries, s.hard.term) && s.snapshot.term <= s.hard.term < U64_MAX && ProposalsFit(s.proposals)
  }

  ghost predicate DecodersFit(required: Option<nat>, transition: Option<Pair>) {
    transition.Some? ==>
      required == Some(transition.value.predecessor) && transition.value.predecessor != transition.value.successor
  }

  lemma LastOf(s: Store)
    requires Contiguous(s.entries, s.snapshot.index)
    ensures Last(s) == s.snapshot.index + |s.entries|
  {
  }

  /** Which record may follow those a member was read from: a group states its identity, fast track, floor and
      transition once each and in that order of need; an image does not go back; an entry is within or right after the
      log, and what is committed stays; and a hard state goes on from the one before it, within the log. */
  ghost predicate MayFollow(m: Member, r: Record) {
    var s := m.store;
    var end := s.snapshot.index + |s.entries|;
    match r
    case Identity(_) => m.identity.None?
    case FastTrack => m.identity.Some? && !m.fast
    case Floor(_) => m.identity.Some? && m.required.None?
    case Transition(pair) =>
      && m.identity.Some? && m.transition.None? && m.required == Some(pair.predecessor)
      && pair.predecessor != pair.successor
    case Snapshotted(image) => s.snapshot.index <= image.index && Membership.ConfFault(image.conf) == None
    case Logged(e) =>
      || e.index <= s.snapshot.index || s.hard.commit < e.index <= end + 1
      || (s.snapshot.index < e.index <= end && e.index <= s.hard.commit
          && s.entries[e.index - s.snapshot.index - 1].term == e.term)
    case Released(_) => m.fast
    case Proposed(e) => m.fast && e.kind.Normal? && |e.data| > 0
    case Hard(hard) =>
      && s.hard.commit <= hard.commit <= end && s.hard.term <= hard.term != U64_MAX
      && (hard.term == s.hard.term && s.hard.vote != 0 ==> hard.vote == s.hard.vote)
  }

  /** A record is read back exactly where it may follow, and is otherwise corrupt. */
  lemma FollowsExactly(m: Member, r: Record)
    requires Contiguous(m.store.entries, m.store.snapshot.index) && StoreFault(m.store) == None
    ensures ReplayOne(m, r).Ok? <==> MayFollow(m, r)
    ensures ReplayOne(m, r).Err? ==> ReplayOne(m, r).error == Corruption
  {
    LastOf(m.store);
    hide Membership.ConfFault;
  }

  /** What is after an index of a contiguous log is its tail, however it is taken. */
  lemma {:induction false} TailIs(entries: seq<Entry>, from: nat, index: nat)
    requires Contiguous(entries, from) && from <= index <= from + |entries|
    ensures After(entries, index) == Trimmed(entries, index) == entries[index - from..]
    ensures Contiguous(entries[index - from..], index)
    decreases |entries|
  {
    if entries == [] {
    } else if index == from {
      TailIs(entries[1..], from + 1, from + 1);
      AfterAll(entries, index);
    } else {
      TailIs(entries[1..], from + 1, index);
      assert entries[1..][index - from - 1..] == entries[index - from..];
    }
  }

  lemma {:induction false} AfterAll(entries: seq<Entry>, index: nat)
    requires forall i :: 0 <= i < |entries| ==> entries[i].index > index
    ensures After(entries, index) == entries
  {
    if entries != [] {
      AfterAll(entries[1..], index);
    }
  }

  // ---------------------------------------------------------------- reading each part back

  lemma OpeningReplays(c: Config, required: Option<nat>, transition: Option<Pair>, conf: Conf)
    requires DecodersFit(required, transition)
    ensures Replay(Ok(NewMember(conf)), Opening(c, required, transition)) ==
      Ok(Member(Some(c.id), c.fast, required, transition, NewStore(conf)))
  {
    var a := [Identity(c.id)];
    var b := if c.fast then [FastTrack] else [];
    var d := if required.Some? then [Floor(required.value)] else [];
    var e := if transition.Some? then [Transition(transition.value)] else [];
    var m := Ok(NewMember(conf));
    ReplayConcat(m, a, b);
    ReplayConcat(m, a + b, d);
    ReplayConcat(m, a + b + d, e);
    ReplayOneRecord(NewMember(conf), Identity(c.id));
    var m1 := Replay(m, a).value;
    ReplayOneRecord(m1, FastTrack);
    var m2 := Replay(m, a + b).value;
    if required.Some? {
      ReplayOneRecord(m2, Floor(required.value));
    }
    var m3 := Replay(m, a + b + d).value;
    if transition.Some? {
      ReplayOneRecord(m3, Transition(transition.value));
    }
  }

  /** Entries after the log's last, taken one by one. */
  lemma {:induction false} EntriesReplay(m: Member, entries: seq<Entry>)
    requires Contiguous(m.store.entries, m.store.snapshot.index) && Contiguous(entries, Last(m.store))
    requires m.store.hard.commit <= Last(m.store)
    ensures Replay(Ok(m), LoggedAll(entries)) == Ok(m.(store := m.store.(entries := m.store.entries + entries)))
    decreases |entries|
  {
    LastOf(m.store);
    if entries == [] {
      assert m.store.entries + [] == m.store.entries;
    } else {
      var e := entries[0];
      assert Append(m.store, e) == Ok(m.store.(entries := m.store.entries + [e]));
      var next := m.(store := m.store.(entries := m.store.entries + [e]));
      assert LoggedAll(entries)[0] == Logged(e) && LoggedAll(entries)[1..] == LoggedAll(entries[1..]);
      assert Last(next.store) == e.index;
      EntriesReplay(next, entries[1..]);
      assert m.store.entries + [e] + entries[1..] == m.store.entries + entries;
    }
  }

  lemma {:induction false} HeldAppends(proposals: seq<Entry>, e: Entry)
    requires forall i :: 0 <= i < |proposals| ==> proposals[i].index != e.index
    ensures Held(proposals, e) == proposals + [e]
  {
    if proposals != [] {
      HeldAppends(proposals[1..], e);
    }
  }

  /** Proposals of indexes not held yet, held one by one. */
  lemma {:induction false} ProposalsReplay(m: Member, proposals: seq<Entry>)
    requires m.fast && ProposalsFit(m.store.proposals + proposals)
    ensures Replay(Ok(m), ProposedAll(proposals)) ==
      Ok(m.(store := m.store.(proposals := m.store.proposals + proposals)))
    decreases |proposals|
  {
    if proposals == [] {
      assert m.store.proposals + [] == m.store.proposals;
    } else {
      var e, held := proposals[0], m.store.proposals;
      var all := held + proposals;
      assert all[|held|] == e && forall i :: 0 <= i < |held| ==> all[i] == held[i];
      HeldAppends(held, e);
      var next := m.(store := m.store.(proposals := held + [e]));
      assert ProposedAll(proposals)[0] == Proposed(e) && ProposedAll(proposals)[1..] == ProposedAll(proposals[1..]);
      assert held + [e] + proposals[1..] == all;
      ProposalsReplay(next, proposals[1..]);
    }
  }

  // ---------------------------------------------------------------- a checkpoint read back

  /** The store a checkpoint leaves; a group without the fast track keeps no release. */
  ghost function Left(c: Config, s: Store, snapshot: Snapshot): Store {
    s.(entries := After(s.entries, snapshot.index), snapshot := snapshot, conf := snapshot.conf,
       released := if c.fast then s.released else 0)
  }

  /** The snapshot names an entry the log has committed, in its term, with a configuration that can decide. */
  ghost predicate MayCompact(s: Store, snapshot: Snapshot) {
    && s.snapshot.index <= snapshot.index <= s.hard.commit && TermAt(s, snapshot.index) == Ok(snapshot.term)
    && Membership.ConfFault(snapshot.conf) == None
  }

  lemma PointTermBound(s: Store, snapshot: Snapshot)
    requires WellFormed(s) && MayCompact(s, snapshot)
    ensures snapshot.term <= s.hard.term
  {
    LastOf(s);
  }

  /** The image and the entries after it. */
  lemma ImageReplays(m: Member, s: Store, snapshot: Snapshot)
    requires WellFormed(s) && MayCompact(s, snapshot) && m.store == NewStore(m.store.conf)
    ensures Replay(Ok(m), [Snapshotted(snapshot)] + LoggedAll(After(s.entries, snapshot.index))) ==
      Ok(m.(store := Store(HardState(0, 0, snapshot.index), snapshot.conf, After(s.entries, snapshot.index), snapshot,
                           [], 0)))
  {
    var tail := After(s.entries, snapshot.index);
    LastOf(s);
    TailIs(s.entries, s.snapshot.index, snapshot.index);
    var base := m.(store := Store(HardState(0, 0, snapshot.index), snapshot.conf, [], snapshot, [], 0));
    assert ReplayOne(m, Snapshotted(snapshot)) == Ok(base);
    hide WellFormed, Replay, ReplayOne, MayCompact, After, Trimmed, LoggedAll;
    ReplayConcat(Ok(m), [Snapshotted(snapshot)], LoggedAll(tail));
    ReplayOneRecord(m, Snapshotted(snapshot));
    EntriesReplay(base, tail);
    assert [] + tail == tail;
  }

  /** What was released, what is held, and the hard state. */
  lemma RestReplays(c: Config, m: Member, s: Store)
    requires m.fast == c.fast && ProposalsFit(s.proposals) && (!c.fast ==> s.proposals == [])
    requires m.store.proposals == [] && m.store.released == 0
    requires m.store.hard == HardState(0, 0, m.store.snapshot.index) && m.store.snapshot.index <= s.hard.commit
    requires StoreFault(m.store.(hard := s.hard)) == None
    ensures var release := if c.fast && s.released > 0 then [Released(s.released)] else [];
      Replay(Ok(m), release + ProposedAll(s.proposals) + [Hard(s.hard)]) ==
        Ok(m.(store := m.store.(hard := s.hard, proposals := s.proposals,
                                released := if c.fast then s.released else 0)))
  {
    var release := if c.fast && s.released > 0 then [Released(s.released)] else [];
    var m1 := m.(store := m.store.(released := if c.fast then s.released else 0));
    var m2 := m1.(store := m1.store.(proposals := s.proposals));
    ReplayConcat(Ok(m), release, ProposedAll(s.proposals));
    ReplayConcat(Ok(m), release + ProposedAll(s.proposals), [Hard(s.hard)]);
    assert Replay(Ok(m), release) == Ok(m1) by { ReplayOneRecord(m, Released(s.released)); }
    assert Replay(Ok(m1), ProposedAll(s.proposals)) == Ok(m2) by {
      assert [] + s.proposals == s.proposals;
      if c.fast {
        ProposalsReplay(m1, s.proposals);
      }
    }
    ReplayOneRecord(m2, Hard(s.hard));
  }

  /** The tail behind the snapshot can be opened. */
  lemma TailFault(s: Store, snapshot: Snapshot, t: Store)
    requires WellFormed(s) && MayCompact(s, snapshot)
    requires t.hard == s.hard && t.conf == snapshot.conf && t.snapshot == snapshot
    requires t.entries == After(s.entries, snapshot.index)
    ensures StoreFault(t) == None && Contiguous(t.entries, snapshot.index) && TermsBound(t.entries, t.hard.term)
  {
    LastOf(s);
    TailIs(s.entries, s.snapshot.index, snapshot.index);
    PointTermBound(s, snapshot);
    LastOf(t);
    assert forall i :: 0 <= i < |t.entries| ==> t.entries[i] == s.entries[i + snapshot.index - s.snapshot.index];
  }

  function Image(s: Store, snapshot: Snapshot): seq<Record> {
    [Snapshotted(snapshot)] + LoggedAll(After(s.entries, snapshot.index))
  }

  function Rest(c: Config, s: Store): seq<Record> {
    (if c.fast && s.released > 0 then [Released(s.released)] else []) + ProposedAll(s.proposals) + [Hard(s.hard)]
  }

  lemma RecordsInParts(c: Config, required: Option<nat>, transition: Option<Pair>, s: Store, snapshot: Snapshot)
    ensures CheckpointRecords(c, required, transition, s, snapshot) ==
      Opening(c, required, transition) + Image(s, snapshot) + Rest(c, s)
  {
    hide Opening, LoggedAll, ProposedAll, After;
    var a, b := Opening(c, required, transition), LoggedAll(After(s.entries, snapshot.index));
    var release := if c.fast && s.released > 0 then [Released(s.released)] else [];
    Regroup(a, [Snapshotted(snapshot)], b, release, ProposedAll(s.proposals), [Hard(s.hard)]);
  }

  lemma Regroup(a: seq<Record>, b: seq<Record>, c: seq<Record>, d: seq<Record>, e: seq<Record>, f: seq<Record>)
    ensures a + b + c + d + e + f == a + (b + c) + (d + e + f)
  {
  }

  /** The log compacted in place is what the records leave. */
  lemma CompactLeaves(c: Config, s: Store, snapshot: Snapshot)
    requires WellFormed(s) && MayCompact(s, snapshot)
    ensures Compact(s, snapshot).Ok? && Left(c, s, snapshot) ==
      Compact(s, snapshot).value.(released := if c.fast then s.released else 0)
  {
    LastOf(s);
    TailIs(s.entries, s.snapshot.index, snapshot.index);
  }

  /** The records of a checkpoint, read back from nothing, are exactly what the checkpoint leaves. */
  lemma CheckpointReplays(c: Config, required: Option<nat>, transition: Option<Pair>, s: Store, snapshot: Snapshot,
                          conf: Conf)
    requires WellFormed(s) && DecodersFit(required, transition) && MayCompact(s, snapshot)
    requires (!c.fast ==> s.proposals == [])
    ensures Replay(Ok(NewMember(conf)), CheckpointRecords(c, required, transition, s, snapshot)) ==
      Ok(Member(Some(c.id), c.fast, required, transition, Left(c, s, snapshot)))
  {
    var m0 := Ok(NewMember(conf));
    var m1 := Member(Some(c.id), c.fast, required, transition, NewStore(conf));
    var left := After(s.entries, snapshot.index);
    var m2 := m1.(store := Store(HardState(0, 0, snapshot.index), snapshot.conf, left, snapshot, [], 0));
    assert ProposalsFit(s.proposals);
    TailFault(s, snapshot, m2.store.(hard := s.hard));
    hide Replay, Opening, LoggedAll, ProposedAll, After, StoreFault, WellFormed, ProposalsFit, CheckpointRecords;
    RecordsInParts(c, required, transition, s, snapshot);
    OpeningReplays(c, required, transition, conf);
    ImageReplays(m1, s, snapshot);
    RestReplays(c, m2, s);
    ReplayConcat(m0, Opening(c, required, transition), Image(s, snapshot));
    ReplayConcat(m0, Opening(c, required, transition) + Image(s, snapshot), Rest(c, s));
  }

  /** What a checkpoint leaves adds up as what it replaced did. */
  lemma LeftIsWellFormed(c: Config, s: Store, snapshot: Snapshot)
    requires WellFormed(s) && MayCompact(s, snapshot)
    ensures WellFormed(Left(c, s, snapshot))
  {
    PointTermBound(s, snapshot);
    TailFault(s, snapshot, Left(c, s, snapshot));
  }
}
