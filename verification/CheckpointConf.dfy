/**
 The configuration a checkpoint names. A drain applies a change at once and moves what was delivered only
 when it hands over, so a point asked for in between pairs the delivered entry with a later configuration.
 What is restored from such a point may refuse the history's next change, and then it does not open.
 */
module CheckpointConf {
  import opened Basics
  import opened CheckpointModel
  import opened CheckpointReplay
  import opened CheckpointRuns
  import opened CheckpointSteps
  import opened CheckpointState
  import Membership

  lemma {:induction false} OverHistory(env: Env, from: nat, through: nat)
    requires from <= through <= |env.history|
    ensures Over(env, ConfAt(env, from), env.history[from..through]) == ConfAt(env, through)
    decreases through
  {
    hide Changed;
    if from < through {
      OverHistory(env, from, through - 1);
      assert env.history[from..through][..through - 1 - from] == env.history[from..through - 1];
    }
  }

  /** Entries that change no configuration leave it. */
  lemma {:induction false} PlainEntriesLeaveConf(env: Env, conf: Conf, entries: seq<Entry>)
    requires forall e <- entries :: e.kind == Normal
    ensures Over(env, conf, entries) == conf
  {
    if entries != [] {
      PlainEntriesLeaveConf(env, conf, entries[..|entries| - 1]);
    }
  }

  // ---------------------------------------------------------------- one point

  /** What was applied past what was delivered leaves the configuration as it was. */
  ghost predicate Unmoved(env: Env, n: Node)
    requires n.delivered <= |env.history|
  {
    Over(env, ConfAt(env, n.delivered), Late(n)) == ConfAt(env, n.delivered)
  }

  /** The configuration in memory is the delivered entry's exactly when it has not moved past it: always with no
      drain under way. */
  lemma MovedExactly(env: Env, y: System)
    requires Inv(env, y) && ConfFits(env, y) && PointOf(y.node).Ok?
    ensures y.node.delivered <= |env.history|
    ensures y.node.store.conf == ConfAt(env, y.node.delivered) <==> Unmoved(env, y.node)
    ensures y.node.drain.None? ==> Unmoved(env, y.node)
    ensures (forall e <- Late(y.node) :: e.kind == Normal) ==> Unmoved(env, y.node)
  {
    var n := y.node;
    PointDivides(env, y);
    OverHistory(env, n.delivered, Applied(n));
    if forall e <- Late(n) :: e.kind == Normal {
      PlainEntriesLeaveConf(env, ConfAt(env, n.delivered), Late(n));
    }
    hide Inv, Over, ConfAt, PointOf, Late, Owed;
  }

  /** The point taken with an image of the application's state is the history's exactly when nothing is owed to
      the application and the configuration has not moved: always with nothing under way and nothing still to
      be handed over, and so with no drain under way where the application was given what was delivered. */
  lemma PointFitsExactly(env: Env, y: System, data: Bytes)
    requires Inv(env, y) && StateFits(env, y) && ConfFits(env, y)
    requires env.image(data) == y.app && PointOf(y.node).Ok?
    ensures y.node.delivered <= |env.history|
    ensures PointFits(env, PointOf(y.node).value, data) <==> Unowed(env, y) && Unmoved(env, y.node)
    ensures y.node.drain.None? && y.node.kept.None? ==> PointFits(env, PointOf(y.node).value, data)
    ensures y.node.drain.None? && y.given == y.node.delivered ==> PointFits(env, PointOf(y.node).value, data)
  {
    PointIs(env, y);
    ImageFitsExactly(env, y, data);
    MovedExactly(env, y);
    hide Inv, StateFits, ConfFits, Unowed, Unmoved, ConfAt, PointOf, ImageFits;
  }

  // ---------------------------------------------------------------- openings

  lemma HistoryAccepts(env: Env, from: nat, through: nat)
    requires Sane(env) && from <= through <= |env.history|
    ensures AllAccepted(env, ConfAt(env, from), env.history[from..through])
  {
    hide Accepts, Over, ConfAt, Sane;
    var page := env.history[from..through];
    forall j | 0 <= j < |page|
      ensures Accepts(env, Over(env, ConfAt(env, from), page[..j]), page[j])
    {
      assert page[..j] == env.history[from..from + j];
      OverHistory(env, from, from + j);
      HistoryAccepted(env, from + j);
    }
  }

  lemma HistoryAccepted(env: Env, k: nat)
    requires Sane(env) && k < |env.history|
    ensures Accepts(env, ConfAt(env, k), env.history[k])
  {
    hide Accepts, ConfAt, Membership.ConfFault;
  }

  /** A replica read back is opened, wherever opening stops, exactly when the image's configuration accepts each
      change of the history applied; so always where the image names the history's, with the history's then. */
  lemma OpensExactly(env: Env, y: System, through: nat)
    requires Sane(env) && Inv(env, y) && !y.node.up && PageEnd(y.node, through)
    ensures var at := y.node.store.snapshot.index; var z := CameUp(env, y, through);
      && at <= through <= |env.history|
      && (z.node.up <==> AllAccepted(env, y.node.store.conf, env.history[at..through]))
      && (z.node.up ==>
            z.node.delivered == through && z.node.store.conf == Over(env, y.node.store.conf, env.history[at..through]))
      && (ConfFits(env, y) ==> z.node.up && z.node.store.conf == ConfAt(env, through))
  {
    var at := y.node.store.snapshot.index;
    FirstPageIs(env, y.node, through);
    HistoryAccepts(env, at, through);
    OverHistory(env, at, through);
    assert Applied(y.node) == at;
    hide Inv, Sane, AllAccepted, Over, ConfAt, FirstPage, PageEnd;
  }

  /** Nor is any change refused later, where every configuration kept is the history's: what is committed and
      not applied is accepted in order. */
  lemma NoneRefused(env: Env, y: System)
    requires Sane(env) && Inv(env, y) && ConfFits(env, y)
    ensures var s, at := y.node.store, Applied(y.node);
      && s.snapshot.index <= at <= s.hard.commit <= s.snapshot.index + |s.entries|
      && AllAccepted(env, s.conf, s.entries[at - s.snapshot.index..s.hard.commit - s.snapshot.index])
  {
    hide LiveFits, DiskFits, PendingFits, DownFits, EntryNamed, Committed, AllAccepted, ConfAt, Sane;
    CommitHeld(env, y);
    RestAccepted(env, y.node.store, Applied(y.node));
  }

  lemma RestAccepted(env: Env, s: Store, at: nat)
    requires Sane(env) && s.snapshot.index <= at <= s.hard.commit <= s.snapshot.index + |s.entries|
    requires Committed(env, s.entries, s.snapshot.index, s.hard.commit) && s.conf == ConfAt(env, at)
    ensures AllAccepted(env, s.conf, s.entries[at - s.snapshot.index..s.hard.commit - s.snapshot.index])
  {
    hide AllAccepted, ConfAt, Sane;
    CommittedSlice(env, s.entries, s.snapshot.index, s.hard.commit, at);
    HistoryAccepts(env, at, s.hard.commit);
  }

  lemma CommitHeld(env: Env, y: System)
    requires LiveFits(env, y)
    ensures var s := y.node.store;
      && s.snapshot.index <= Applied(y.node) <= s.hard.commit <= s.snapshot.index + |s.entries|
      && Committed(env, s.entries, s.snapshot.index, s.hard.commit)
  {
    LastOf(y.node.store);
    hide GatheredFits, Committed, Contiguous, TermsBound, ProposalsFit, Membership.ConfFault, DecodersFit;
  }

  lemma CommittedSlice(env: Env, entries: seq<Entry>, from: nat, commit: nat, at: nat)
    requires Committed(env, entries, from, commit) && from <= at <= commit <= from + |entries|
    ensures entries[at - from..commit - from] == env.history[at..commit]
  {
  }

  // ---------------------------------------------------------------- every step

  /** A point is captured only where the configuration has not moved, and a snapshot the group sends names the
      history's configuration. */
  ghost predicate ConfSound(env: Env, y: System, ev: Event) {
    match ev
    case EvCapture(_) => PointOf(y.node).Ok? ==> y.node.delivered <= |env.history| && Unmoved(env, y.node)
    case EvWrite(u) => u.snapshot.Some? ==> SnapshotConfFits(env, u.snapshot.value)
    case _ => true
  }

  /** Every configuration kept goes on being the history's exactly if the step is such. */
  lemma StepKeepsConf(env: Env, y: System, ev: Event)
    requires Sane(env) && Inv(env, y) && ConfFits(env, y) && Possible(env, y, ev)
    ensures ConfFits(env, Step(env, y, ev)) <==> ConfSound(env, y, ev)
  {
    if !y.node.up && !ev.EvOpen? && !ev.EvCrash? {
      return;
    }
    match ev
    case EvOpen(through) =>
      if !y.node.up {
        OpenedConf(env, y, through);
      }
    case EvWrite(u) => WrittenConf(env, y, u);
    case EvApply => AppliedConf(env, y);
    case EvCapture(data) => CapturedConf(env, y, data);
    case EvBegin(i, ready) =>
      if i < |y.captures| {
        BegunConf(env, y, y.captures[i], ready);
      }
    case EvFinish => FinishedConf(env, y);
    case EvCrash(renewed) => CrashedConf(env, y, renewed);
    case _ => RestConf(env, y, ev);
  }

  lemma OpenedConf(env: Env, y: System, through: nat)
    requires Sane(env) && Inv(env, y) && ConfFits(env, y) && !y.node.up && PageEnd(y.node, through)
    ensures ConfFits(env, CameUp(env, y, through))
  {
    OpensExactly(env, y, through);
    hide Inv, Sane, AllAccepted, Over, ConfAt, FirstPage, PageEnd;
  }

  lemma WrittenConf(env: Env, y: System, u: Update)
    requires ConfFits(env, y) && Possible(env, y, EvWrite(u))
    ensures ConfFits(env, Written(env, y, u)) <==> ConfSound(env, y, EvWrite(u))
  {
    PublishedFrame(y.node.store, u);
    hide Published, UpdateRecords, StoreFault, TermsBound, Committed, Contiguous, ConfAt, AppAt;
  }

  lemma AppliedConf(env: Env, y: System)
    requires Inv(env, y) && ConfFits(env, y)
    ensures ConfFits(env, AppliedNext(env, y))
  {
    if AppliedNext(env, y) != y {
      AppliedIs(env, y);
      hide Inv, LiveFits, AppliedNext, Accepts, Changed;
    }
  }

  lemma CapturedConf(env: Env, y: System, data: Bytes)
    requires Inv(env, y) && ConfFits(env, y)
    ensures ConfFits(env, Captured(y, data)) <==> ConfSound(env, y, EvCapture(data))
  {
    if PointOf(y.node).Ok? {
      PointIs(env, y);
      MovedExactly(env, y);
      hide Inv, Unmoved, ConfAt, PointOf;
      var c := Capture(PointOf(y.node).value, data);
      assert Captured(y, data).captures == y.captures + [c];
      assert c in Captured(y, data).captures;
    }
  }

  lemma BegunConf(env: Env, y: System, c: Capture, ready: bool)
    requires ConfFits(env, y) && c in y.captures
    ensures ConfFits(env, Begun(env, y, c, ready))
  {
    hide BeginFaultOf, CheckpointRecords, ConfAt;
  }

  lemma FinishedConf(env: Env, y: System)
    requires Inv(env, y) && ConfFits(env, y)
    ensures ConfFits(env, Finished(y))
  {
    hide LiveFits, DiskFits, EntryNamed, DownFits, MayCompact, CheckpointRecords, Trimmed, TermAt, ConfAt;
  }

  lemma CrashedConf(env: Env, y: System, renewed: bool)
    requires Inv(env, y) && ConfFits(env, y) && Possible(env, y, EvCrash(renewed))
    ensures ConfFits(env, Crashed(env, y, renewed))
  {
    if renewed {
      PendingReplays(env, y);
    } else {
      DiskMemberFits(env, y);
    }
    assert ConfAt(env, 0) == env.bootstrap;
    hide Replayed, WellFormed, HoldsHistory, LiveFits, StoreFault, CheckpointRecords, ConfAt, EntryNamed, DownFits;
  }

  lemma RestConf(env: Env, y: System, ev: Event)
    requires ConfFits(env, y)
    requires !ev.EvOpen? && !ev.EvWrite? && !ev.EvApply? && !ev.EvCapture? && !ev.EvBegin? && !ev.EvFinish?
    requires !ev.EvCrash?
    ensures ConfFits(env, Acted(env, y, ev))
  {
    hide ConfAt, Given;
  }
}
