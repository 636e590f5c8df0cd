/**
 What a replica's records mean: the state and the configuration the image restores with the entries after it.
 The records a checkpoint writes mean what the records they replace mean exactly if its point fits.
 */
module CheckpointMeaning {
  import opened Basics
  import opened CheckpointModel
  import opened CheckpointReplay
  import opened CheckpointRuns
  import opened CheckpointSteps

  /** The application's state once the entries through `k` are applied over the image. */
  function Restored(env: Env, s: Store, k: nat): App
    requires s.snapshot.index <= k <= s.snapshot.index + |s.entries|
  {
    if k == s.snapshot.index then AppOf(env, s.snapshot)
    else env.step(Restored(env, s, k - 1), s.entries[k - s.snapshot.index - 1])
  }

  /** The configuration once they are, from the one opening starts with. */
  function RestoredConf(env: Env, s: Store, k: nat): Conf
    requires s.snapshot.index <= k <= s.snapshot.index + |s.entries|
  {
    if k == s.snapshot.index then s.conf
    else Changed(env, RestoredConf(env, s, k - 1), s.entries[k - s.snapshot.index - 1])
  }

  /** An image with the entries after it, through an index they share with the history, is the history if it is
      where the image stands; and so is the configuration. */
  lemma {:induction false} RestoredIsHistory(env: Env, s: Store, k: nat)
    requires s.snapshot.index <= k <= |env.history| && k <= s.snapshot.index + |s.entries|
    requires Committed(env, s.entries, s.snapshot.index, k)
    ensures AppOf(env, s.snapshot) == AppAt(env, s.snapshot.index) ==> Restored(env, s, k) == AppAt(env, k)
    ensures s.conf == ConfAt(env, s.snapshot.index) ==> RestoredConf(env, s, k) == ConfAt(env, k)
    decreases k
  {
    hide Changed, AppOf;
    if k > s.snapshot.index {
      RestoredIsHistory(env, s, k - 1);
    }
  }

  lemma CommittedIsHeld(env: Env, y: System)
    requires Inv(env, y)
    ensures var s := y.node.store; s.hard.commit <= |env.history| && s.hard.commit <= s.snapshot.index + |s.entries|
  {
    LastOf(y.node.store);
  }

  lemma DiskRestores(env: Env, y: System, k: nat)
    requires Inv(env, y) && y.node.store.snapshot.index <= k <= y.node.store.hard.commit
    ensures var m := Replayed(env, y.stream);
      && m.Ok? && m.value.store.snapshot.index <= k <= m.value.store.snapshot.index + |m.value.store.entries|
      && k <= |env.history|
      && (SnapshotStateFits(env, y.node.store.snapshot) ==> Restored(env, m.value.store, k) == AppAt(env, k))
      && (SnapshotConfFits(env, y.node.store.snapshot) ==> RestoredConf(env, m.value.store, k) == ConfAt(env, k))
  {
    DiskHolds(env, y);
    var t := Replayed(env, y.stream).value.store;
    CommittedShorter(env, t.entries, t.snapshot.index, y.node.store.hard.commit, k);
    hide Inv, Replayed, AppAt, AppOf, ConfAt, Committed;
    RestoredIsHistory(env, t, k);
  }

  /** The two streams state the same member: who it is, what its decoders require, its term and vote, what
      it holds and released, and every entry after the point; the new one at least as far committed. */
  ghost predicate SameButCompacted(c: Config, a: Member, b: Member, point: nat) {
    && b.identity == a.identity && b.fast == a.fast && b.required == a.required && b.transition == a.transition
    && b.store.hard.term == a.store.hard.term && b.store.hard.vote == a.store.hard.vote
    && a.store.hard.commit <= b.store.hard.commit
    && b.store.proposals == a.store.proposals && (c.fast ==> b.store.released == a.store.released)
    && b.store.entries == After(a.store.entries, point) && b.store.snapshot.index == point
  }

  /** A checkpoint that is pending may become durable or not: the stream it would replace and the one it
      would write are read back as the same member, and through every entry committed from the point on each
      restores the history's state where its image is, and the history's configuration where it names it. */
  lemma CheckpointMeansTheSame(env: Env, y: System, k: nat)
    requires Inv(env, y) && y.node.pending.Some?
    requires y.node.pending.value.snapshot.index <= k <= y.node.store.hard.commit
    ensures var p := y.node.pending.value;
      var a := Replayed(env, y.stream); var b := Replayed(env, p.records);
      && a.Ok? && b.Ok? && SameButCompacted(env.config, a.value, b.value, p.snapshot.index)
      && a.value.store.snapshot.index <= k <= a.value.store.snapshot.index + |a.value.store.entries|
      && k <= b.value.store.snapshot.index + |b.value.store.entries| && k <= |env.history|
      && (SnapshotStateFits(env, y.node.store.snapshot) ==> Restored(env, a.value.store, k) == AppAt(env, k))
      && (SnapshotStateFits(env, p.snapshot) ==> Restored(env, b.value.store, k) == AppAt(env, k))
      && (SnapshotConfFits(env, y.node.store.snapshot) ==> RestoredConf(env, a.value.store, k) == ConfAt(env, k))
      && (SnapshotConfFits(env, p.snapshot) ==> RestoredConf(env, b.value.store, k) == ConfAt(env, k))
  {
    DiskRestores(env, y, k);
    PendingRestores(env, y, k);
    PendingSameMember(env, y);
    hide Replayed, Inv, SameButCompacted, SnapshotStateFits, SnapshotConfFits;
  }

  /** The two logs restore the same state through each index of the range. */
  ghost predicate SameStates(env: Env, a: Store, b: Store, from: nat, through: nat)
    requires a.snapshot.index <= from && through <= a.snapshot.index + |a.entries|
    requires b.snapshot.index <= from && through <= b.snapshot.index + |b.entries|
  {
    forall k :: from <= k <= through ==> Restored(env, a, k) == Restored(env, b, k)
  }

  ghost predicate SameConfs(env: Env, a: Store, b: Store, from: nat, through: nat)
    requires a.snapshot.index <= from && through <= a.snapshot.index + |a.entries|
    requires b.snapshot.index <= from && through <= b.snapshot.index + |b.entries|
  {
    forall k :: from <= k <= through ==> RestoredConf(env, a, k) == RestoredConf(env, b, k)
  }

  ghost predicate BothHold(env: Env, a: Store, b: Store, through: nat) {
    && a.snapshot.index <= b.snapshot.index <= through <= |env.history|
    && through <= a.snapshot.index + |a.entries| && through <= b.snapshot.index + |b.entries|
    && Committed(env, a.entries, a.snapshot.index, through) && Committed(env, b.entries, b.snapshot.index, through)
  }

  lemma BothRestore(env: Env, a: Store, b: Store, through: nat, k: nat)
    requires BothHold(env, a, b, through) && b.snapshot.index <= k <= through
    ensures AppOf(env, a.snapshot) == AppAt(env, a.snapshot.index) ==> Restored(env, a, k) == AppAt(env, k)
    ensures AppOf(env, b.snapshot) == AppAt(env, b.snapshot.index) ==> Restored(env, b, k) == AppAt(env, k)
    ensures a.conf == ConfAt(env, a.snapshot.index) ==> RestoredConf(env, a, k) == ConfAt(env, k)
    ensures b.conf == ConfAt(env, b.snapshot.index) ==> RestoredConf(env, b, k) == ConfAt(env, k)
  {
    CommittedShorter(env, a.entries, a.snapshot.index, through, k);
    CommittedShorter(env, b.entries, b.snapshot.index, through, k);
    hide Committed, AppOf, AppAt, ConfAt;
    RestoredIsHistory(env, a, k);
    RestoredIsHistory(env, b, k);
  }

  /** Logs that hold the history's entries, the one over a right image, restore the same states exactly if the
      other's image is right too. */
  lemma SameStatesExactly(env: Env, a: Store, b: Store, through: nat)
    requires BothHold(env, a, b, through) && AppOf(env, a.snapshot) == AppAt(env, a.snapshot.index)
    ensures SameStates(env, a, b, b.snapshot.index, through) <==> AppOf(env, b.snapshot) == AppAt(env, b.snapshot.index)
  {
    var at := b.snapshot.index;
    assert Restored(env, b, at) == AppOf(env, b.snapshot);
    BothRestore(env, a, b, through, at);
    hide Committed, AppOf, AppAt, Restored;
    if AppOf(env, b.snapshot) == AppAt(env, at) {
      forall k | at <= k <= through
        ensures Restored(env, a, k) == Restored(env, b, k)
      {
        BothRestore(env, a, b, through, k);
      }
    } else {
      assert Restored(env, a, at) != Restored(env, b, at);
    }
  }

  /** And the same configurations exactly if the other's is. */
  lemma SameConfsExactly(env: Env, a: Store, b: Store, through: nat)
    requires BothHold(env, a, b, through) && a.conf == ConfAt(env, a.snapshot.index)
    ensures SameConfs(env, a, b, b.snapshot.index, through) <==> b.conf == ConfAt(env, b.snapshot.index)
  {
    var at := b.snapshot.index;
    assert RestoredConf(env, b, at) == b.conf;
    BothRestore(env, a, b, through, at);
    hide Committed, ConfAt, RestoredConf, AppOf, AppAt, Restored;
    if b.conf == ConfAt(env, at) {
      forall k | at <= k <= through
        ensures RestoredConf(env, a, k) == RestoredConf(env, b, k)
      {
        BothRestore(env, a, b, through, k);
      }
    } else {
      assert RestoredConf(env, a, at) != RestoredConf(env, b, at);
    }
  }

  lemma CommittedShorter(env: Env, entries: seq<Entry>, from: nat, commit: nat, k: nat)
    requires Committed(env, entries, from, commit) && k <= commit
    ensures Committed(env, entries, from, k)
  {
  }

  /** So over a right image the two streams restore the same state through every entry committed from the point
      on exactly when the checkpoint's image was the history's there, and the same configuration exactly when
      its point named the history's. */
  lemma CheckpointExactly(env: Env, y: System)
    requires Inv(env, y) && y.node.pending.Some?
    ensures var p, commit := y.node.pending.value, y.node.store.hard.commit;
      var a := Replayed(env, y.stream); var b := Replayed(env, p.records);
      && a.Ok? && b.Ok? && b.value.store.snapshot.index == p.snapshot.index
      && BothHold(env, a.value.store, b.value.store, commit)
      && (SnapshotStateFits(env, y.node.store.snapshot) ==>
            (SameStates(env, a.value.store, b.value.store, p.snapshot.index, commit) <==>
             SnapshotStateFits(env, p.snapshot)))
      && (SnapshotConfFits(env, y.node.store.snapshot) ==>
            (SameConfs(env, a.value.store, b.value.store, p.snapshot.index, commit) <==>
             SnapshotConfFits(env, p.snapshot)))
  {
    var p, commit := y.node.pending.value, y.node.store.hard.commit;
    PendingWithin(env, y);
    DiskHolds(env, y);
    PendingHolds(env, y);
    hide Inv, Replayed, ConfAt, AppAt, AppOf, Committed, SameStates, SameConfs;
    var a, b := Replayed(env, y.stream).value.store, Replayed(env, p.records).value.store;
    if SnapshotStateFits(env, y.node.store.snapshot) {
      SameStatesExactly(env, a, b, commit);
    }
    if SnapshotConfFits(env, y.node.store.snapshot) {
      SameConfsExactly(env, a, b, commit);
    }
  }

  lemma DiskHolds(env: Env, y: System)
    requires Inv(env, y)
    ensures var m := Replayed(env, y.stream);
      && m.Ok? && y.node.store.hard.commit <= |env.history| && m.value.store.snapshot == y.node.store.snapshot
      && y.node.store.hard.commit <= m.value.store.snapshot.index + |m.value.store.entries|
      && Committed(env, m.value.store.entries, m.value.store.snapshot.index, y.node.store.hard.commit)
      && (SnapshotConfFits(env, y.node.store.snapshot) ==>
            m.value.store.conf == ConfAt(env, m.value.store.snapshot.index))
  {
    CommittedIsHeld(env, y);
    DiskMemberFits(env, y);
    assert ConfAt(env, 0) == env.bootstrap;
    hide Replayed, StoreFault, GatheredFits, PendingFits, DownFits, WellFormed, Committed;
  }

  lemma PendingHolds(env: Env, y: System)
    requires Inv(env, y) && y.node.pending.Some?
    ensures var p, m := y.node.pending.value, Replayed(env, y.node.pending.value.records);
      && m.Ok? && y.node.store.hard.commit <= |env.history| && m.value.store.snapshot == p.snapshot
      && m.value.store.conf == p.snapshot.conf
      && y.node.store.hard.commit <= m.value.store.snapshot.index + |m.value.store.entries|
      && Committed(env, m.value.store.entries, m.value.store.snapshot.index, y.node.store.hard.commit)
  {
    var p := y.node.pending.value;
    PendingReplays(env, y);
    LeftHoldsHistory(env, y.node.store, p.snapshot);
    LastOf(Left(env.config, y.node.store, p.snapshot));
    hide Replayed, StoreFault, CheckpointRecords, Compact, Committed, After;
  }

  lemma PendingWithin(env: Env, y: System)
    requires Inv(env, y) && y.node.pending.Some?
    ensures 0 < y.node.pending.value.snapshot.index <= y.node.store.hard.commit
    ensures Replayed(env, y.stream).Ok? && Replayed(env, y.stream).value.store.snapshot == y.node.store.snapshot
    ensures y.node.store.snapshot.index <= y.node.pending.value.snapshot.index
  {
    hide Replayed, StoreFault, CheckpointRecords, WellFormed, GatheredFits, DownFits, HoldsHistory;
  }

  lemma PendingRestores(env: Env, y: System, k: nat)
    requires Inv(env, y) && y.node.pending.Some?
    requires y.node.pending.value.snapshot.index <= k <= y.node.store.hard.commit
    ensures y.node.store.snapshot.index <= y.node.pending.value.snapshot.index
    ensures var m := Replayed(env, y.node.pending.value.records);
      && m.Ok? && m.value.store.snapshot.index <= k <= m.value.store.snapshot.index + |m.value.store.entries|
      && k <= |env.history|
      && (SnapshotStateFits(env, y.node.pending.value.snapshot) ==> Restored(env, m.value.store, k) == AppAt(env, k))
      && (SnapshotConfFits(env, y.node.pending.value.snapshot) ==>
            RestoredConf(env, m.value.store, k) == ConfAt(env, k))
  {
    PendingWithin(env, y);
    PendingHolds(env, y);
    var t := Replayed(env, y.node.pending.value.records).value.store;
    CommittedShorter(env, t.entries, t.snapshot.index, y.node.store.hard.commit, k);
    hide Inv, Replayed, AppAt, AppOf, ConfAt, Committed;
    RestoredIsHistory(env, t, k);
  }

  lemma PendingSameMember(env: Env, y: System)
    requires Inv(env, y) && y.node.pending.Some?
    ensures Replayed(env, y.stream).Ok? && Replayed(env, y.node.pending.value.records).Ok?
    ensures var p := y.node.pending.value;
      SameButCompacted(env.config, Replayed(env, y.stream).value, Replayed(env, p.records).value, p.snapshot.index)
  {
    PendingReplays(env, y);
    hide Replayed, WellFormed, StoreFault, CheckpointRecords, Compact, After;
  }
}
