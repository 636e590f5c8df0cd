/**
 What a checkpoint promises over whole runs: what is gathered for the application is always the group's
 history, and the records a checkpoint writes mean what the records they replace mean, on either side of a
 crash. The application's state and the configuration are the history's, and the replica always opens again,
 where every point captured fits.
 */
module CheckpointTheorems {
  import opened Basics
  import opened CheckpointModel
  import opened CheckpointReplay
  import opened CheckpointRuns
  import opened CheckpointSteps
  import opened CheckpointState
  import opened CheckpointConf
  import Membership

  // ---------------------------------------------------------------- runs

  function Reach(env: Env, y: System, events: seq<Event>): System {
    if events == [] then y else Step(env, Reach(env, y, events[..|events| - 1]), events[|events| - 1])
  }

  /** Each event can happen where it happens. */
  ghost predicate Happens(env: Env, y: System, events: seq<Event>) {
    forall i :: 0 <= i < |events| ==> Possible(env, Reach(env, y, events[..i]), events[i])
  }

  /** A replica just made: its first records are written, and it is still to be opened. */
  function Created(env: Env): System {
    Restarted(env, Opening(env.config, None, None),
              Member(Some(env.config.id), env.config.fast, None, None, NewStore(env.bootstrap)))
  }

  lemma CreatedInv(env: Env)
    requires Sane(env)
    ensures Inv(env, Created(env)) && StateFits(env, Created(env)) && ConfFits(env, Created(env))
  {
    var stream := Opening(env.config, None, None);
    var m := Member(Some(env.config.id), env.config.fast, None, None, NewStore(env.bootstrap));
    OpeningReplays(env.config, None, None, env.bootstrap);
    NewStoreFits(env);
    assert ConfAt(env, 0) == env.bootstrap && AppAt(env, 0) == env.initial;
    hide Replay, Opening, WellFormed, HoldsHistory, ConfAt, AppAt, Inv, Sane;
    ReadBackFits(env, m, stream);
  }

  lemma NewStoreFits(env: Env)
    requires Sane(env)
    ensures WellFormed(NewStore(env.bootstrap)) && HoldsHistory(env, NewStore(env.bootstrap))
  {
    hide Membership.ConfFault, ConfAt;
  }

  lemma {:induction false} RunsKeepInv(env: Env, y: System, events: seq<Event>, i: nat)
    requires Sane(env) && Inv(env, y) && Happens(env, y, events) && i <= |events|
    ensures Inv(env, Reach(env, y, events[..i]))
  {
    hide Inv, Step, Possible, Sane;
    if i == 0 {
      assert events[..0] == [];
    } else {
      RunsKeepInv(env, y, events, i - 1);
      assert events[..i][..i - 1] == events[..i - 1] && events[..i][i - 1] == events[i - 1];
      StepKeeps(env, Reach(env, y, events[..i - 1]), events[i - 1]);
    }
  }

  // ---------------------------------------------------------------- runs whose points fit

  /** Each point is captured where nothing is owed to the application. */
  ghost predicate StateGuarded(env: Env, y: System, events: seq<Event>) {
    forall i :: 0 <= i < |events| ==> StateSound(env, Reach(env, y, events[..i]), events[i])
  }

  /** Each point is captured where the configuration has not moved, and each snapshot the group sends names the
      history's. */
  ghost predicate ConfGuarded(env: Env, y: System, events: seq<Event>) {
    forall i :: 0 <= i < |events| ==> ConfSound(env, Reach(env, y, events[..i]), events[i])
  }

  lemma {:induction false} GuardedKeepState(env: Env, y: System, events: seq<Event>, i: nat)
    requires Sane(env) && Inv(env, y) && StateFits(env, y) && i <= |events|
    requires Happens(env, y, events) && StateGuarded(env, y, events)
    ensures StateFits(env, Reach(env, y, events[..i]))
  {
    hide Inv, StateFits, Step, Possible, StateSound, Sane;
    if i == 0 {
      assert events[..0] == [];
    } else {
      GuardedKeepState(env, y, events, i - 1);
      RunsKeepInv(env, y, events, i - 1);
      assert events[..i][..i - 1] == events[..i - 1] && events[..i][i - 1] == events[i - 1];
      StepKeepsState(env, Reach(env, y, events[..i - 1]), events[i - 1]);
    }
  }

  lemma {:induction false} GuardedKeepConf(env: Env, y: System, events: seq<Event>, i: nat)
    requires Sane(env) && Inv(env, y) && ConfFits(env, y) && i <= |events|
    requires Happens(env, y, events) && ConfGuarded(env, y, events)
    ensures ConfFits(env, Reach(env, y, events[..i]))
  {
    hide Inv, ConfFits, Step, Possible, ConfSound, Sane;
    if i == 0 {
      assert events[..0] == [];
    } else {
      GuardedKeepConf(env, y, events, i - 1);
      RunsKeepInv(env, y, events, i - 1);
      assert events[..i][..i - 1] == events[..i - 1] && events[..i][i - 1] == events[i - 1];
      StepKeepsConf(env, Reach(env, y, events[..i - 1]), events[i - 1]);
    }
  }

  /** The first step that is not such leaves a state, or a configuration, that is not the history's. */
  lemma UnguardedBreaks(env: Env, y: System, front: seq<Event>, last: Event)
    requires Sane(env) && Inv(env, y) && Happens(env, y, front) && Possible(env, Reach(env, y, front), last)
    ensures StateFits(env, y) && StateGuarded(env, y, front) ==>
      (StateFits(env, Reach(env, y, front + [last])) <==> StateSound(env, Reach(env, y, front), last))
    ensures ConfFits(env, y) && ConfGuarded(env, y, front) ==>
      (ConfFits(env, Reach(env, y, front + [last])) <==> ConfSound(env, Reach(env, y, front), last))
  {
    ReachOneMore(env, y, front, last);
    assert front[..|front|] == front;
    hide *;
    RunsKeepInv(env, y, front, |front|);
    if StateFits(env, y) && StateGuarded(env, y, front) {
      GuardedKeepState(env, y, front, |front|);
      StepKeepsState(env, Reach(env, y, front), last);
    }
    if ConfFits(env, y) && ConfGuarded(env, y, front) {
      GuardedKeepConf(env, y, front, |front|);
      StepKeepsConf(env, Reach(env, y, front), last);
    }
  }

  lemma ReachOneMore(env: Env, y: System, front: seq<Event>, last: Event)
    ensures Reach(env, y, front + [last]) == Step(env, Reach(env, y, front), last)
  {
    hide Step;
    assert (front + [last])[..|front|] == front;
  }

  /** Each point is asked for with no drain under way, as the fleet waits for, and by an owner whose application
      was given what was delivered, as the owner checks; and each snapshot the group sends names the history's
      configuration. */
  ghost predicate Quiet(env: Env, y: System, events: seq<Event>) {
    && (forall i :: 0 <= i < |events| && events[i].EvCapture? ==>
          var z := Reach(env, y, events[..i]); z.node.drain.None? && z.given == z.node.delivered)
    && (forall i :: 0 <= i < |events| && events[i].EvWrite? && events[i].update.snapshot.Some? ==>
          SnapshotConfFits(env, events[i].update.snapshot.value))
  }

  /** That is enough. */
  lemma QuietIsGuarded(env: Env, y: System, events: seq<Event>)
    requires Sane(env) && Inv(env, y) && StateFits(env, y) && ConfFits(env, y)
    requires Happens(env, y, events) && Quiet(env, y, events)
    ensures StateGuarded(env, y, events) && ConfGuarded(env, y, events)
  {
    forall i | 0 <= i < |events|
      ensures StateSound(env, Reach(env, y, events[..i]), events[i])
      ensures ConfSound(env, Reach(env, y, events[..i]), events[i])
    {
      hide Inv, StateFits, ConfFits, Happens, Sane, StateSound, ConfSound;
      QuietTo(env, y, events, i);
      QuietStep(env, y, events, i);
    }
  }

  lemma {:induction false} QuietTo(env: Env, y: System, events: seq<Event>, i: nat)
    requires Sane(env) && Inv(env, y) && StateFits(env, y) && ConfFits(env, y) && i <= |events|
    requires Happens(env, y, events) && Quiet(env, y, events)
    ensures StateFits(env, Reach(env, y, events[..i])) && ConfFits(env, Reach(env, y, events[..i]))
  {
    hide Inv, StateFits, ConfFits, Step, Possible, StateSound, ConfSound, Sane;
    if i == 0 {
      assert events[..0] == [];
    } else {
      QuietTo(env, y, events, i - 1);
      QuietStep(env, y, events, i - 1);
      RunsKeepInv(env, y, events, i - 1);
      assert events[..i][..i - 1] == events[..i - 1] && events[..i][i - 1] == events[i - 1];
      StepKeepsState(env, Reach(env, y, events[..i - 1]), events[i - 1]);
      StepKeepsConf(env, Reach(env, y, events[..i - 1]), events[i - 1]);
    }
  }

  lemma QuietStep(env: Env, y: System, events: seq<Event>, i: nat)
    requires Sane(env) && Inv(env, y) && i < |events| && Happens(env, y, events) && Quiet(env, y, events)
    requires var z := Reach(env, y, events[..i]); StateFits(env, z) && ConfFits(env, z)
    ensures StateSound(env, Reach(env, y, events[..i]), events[i])
    ensures ConfSound(env, Reach(env, y, events[..i]), events[i])
  {
    var z := Reach(env, y, events[..i]);
    RunsKeepInv(env, y, events, i);
    hide Inv, StateFits, ConfFits, Happens, Sane, Reach, PointOf, Unowed, Unmoved, SnapshotConfFits;
    if events[i].EvCapture? && PointOf(z.node).Ok? {
      OwedNothing(env, z);
      MovedExactly(env, z);
    }
  }

  // ---------------------------------------------------------------- the state and the configuration

  /** Whatever was opened, written, delivered, checkpointed or lost, what was gathered and not handed over is
      exactly the group's history from what the application was given, or from an image, to what was applied.
      With points captured where nothing is owed, the application's state is the history through what it was
      given, and what was gathered takes it to what was applied; with points captured where the configuration
      had not moved, the configuration is the history's through what was applied. */
  lemma StateIsHistory(env: Env, events: seq<Event>, i: nat)
    requires Sane(env) && Happens(env, Created(env), events) && i <= |events|
    ensures var z := Reach(env, Created(env), events[..i]);
      && z.given <= z.node.delivered <= Applied(z.node) <= |env.history| && GatheredFits(env, z.given, z.node)
      && (z.node.drain.None? && z.node.kept.None? ==> z.given == z.node.delivered)
      && (StateGuarded(env, Created(env), events) ==>
            && z.app == AppAt(env, z.given)
            && Given(env, z.app, Outstanding(z.node)) == AppAt(env, Applied(z.node)))
      && (ConfGuarded(env, Created(env), events) ==> z.node.store.conf == ConfAt(env, Applied(z.node)))
  {
    CreatedInv(env);
    hide Inv, StateFits, ConfFits, Reach, Happens, StateGuarded, ConfGuarded, Created, Sane, Given, AppAt, ConfAt;
    RunsKeepInv(env, Created(env), events, i);
    var z := Reach(env, Created(env), events[..i]);
    GatheredIs(env, z);
    if StateGuarded(env, Created(env), events) {
      GuardedKeepState(env, Created(env), events, i);
      StateIs(env, z);
    }
    if ConfGuarded(env, Created(env), events) {
      GuardedKeepConf(env, Created(env), events, i);
      ConfIs(env, z);
    }
  }

  lemma GatheredIs(env: Env, y: System)
    requires Inv(env, y)
    ensures y.given <= y.node.delivered <= Applied(y.node) <= |env.history| && GatheredFits(env, y.given, y.node)
    ensures y.node.drain.None? && y.node.kept.None? ==> y.given == y.node.delivered
  {
    NothingOwed(env, y);
    hide WellFormed, HoldsHistory, DiskFits, PendingFits, DownFits, EntryNamed;
  }

  lemma StateIs(env: Env, y: System)
    requires Inv(env, y) && StateFits(env, y)
    ensures y.given <= Applied(y.node) <= |env.history| && y.app == AppAt(env, y.given)
    ensures Given(env, y.app, Outstanding(y.node)) == AppAt(env, Applied(y.node))
  {
    GivenIs(env, y);
    hide Inv, Given, AppAt;
  }

  lemma ConfIs(env: Env, y: System)
    requires ConfFits(env, y)
    ensures Applied(y.node) <= |env.history| && y.node.store.conf == ConfAt(env, Applied(y.node))
  {
    hide ConfAt;
  }

  /** And then no committed change is ever refused, neither by a drain nor by an opening. */
  lemma ChangesAreAccepted(env: Env, events: seq<Event>, i: nat)
    requires Sane(env) && Happens(env, Created(env), events) && i <= |events|
    requires ConfGuarded(env, Created(env), events)
    ensures var z := Reach(env, Created(env), events[..i]); var s, at := z.node.store, Applied(z.node);
      && s.snapshot.index <= at <= s.hard.commit <= s.snapshot.index + |s.entries|
      && AllAccepted(env, s.conf, s.entries[at - s.snapshot.index..s.hard.commit - s.snapshot.index])
  {
    hide *;
    CreatedInv(env);
    RunsKeepInv(env, Created(env), events, i);
    GuardedKeepConf(env, Created(env), events, i);
    NoneRefused(env, Reach(env, Created(env), events[..i]));
  }

  // ---------------------------------------------------------------- opening again

  /** After a crash in any run the records are read back, whichever of the two streams the disk kept, and the
      replica opens, wherever opening stops, exactly when the image's configuration accepts each change of the
      history after it. It always does in a run whose points named the history's configurations, and then with
      the history's. What it keeps for the first drain takes a new application to the history, in a run whose
      images were. */
  lemma EitherSideOpens(env: Env, events: seq<Event>, i: nat, renewed: bool, through: nat)
    requires Sane(env) && Happens(env, Created(env), events) && i <= |events|
    requires var y := Reach(env, Created(env), events[..i]);
      && (renewed ==> y.node.pending.Some? && y.node.pending.value.taken)
      && PageEnd(Crashed(env, y, renewed).node, through)
    ensures var y := Reach(env, Created(env), events[..i]); var z := Crashed(env, y, renewed);
      var u := CameUp(env, z, through); var image := z.node.store.snapshot;
      && z.stream == (if renewed then y.node.pending.value.records else y.stream) && Read(env, z.stream) == Ok(z.node)
      && PageEnd(z.node, z.node.store.hard.commit) && image.index <= through <= |env.history|
      && (u.node.up <==>
            AllAccepted(env, if image.index == 0 then env.bootstrap else image.conf, env.history[image.index..through]))
      && (ConfGuarded(env, Created(env), events) ==> u.node.up && u.node.store.conf == ConfAt(env, through))
      && (StateGuarded(env, Created(env), events) && u.node.up ==>
            Given(env, env.initial, Outstanding(u.node)) == AppAt(env, through) && u.node.delivered == through)
  {
    CreatedInv(env);
    var y := Reach(env, Created(env), events[..i]);
    hide *;
    RunsKeepInv(env, Created(env), events, i);
    CrashOpens(env, y, renewed, through);
    if ConfGuarded(env, Created(env), events) {
      GuardedKeepConf(env, Created(env), events, i);
      CrashOpensConf(env, y, renewed, through);
    }
    if StateGuarded(env, Created(env), events) {
      GuardedKeepState(env, Created(env), events, i);
      CrashOpensState(env, y, renewed, through);
    }
  }

  lemma CrashOpens(env: Env, y: System, renewed: bool, through: nat)
    requires Sane(env) && Inv(env, y) && (renewed ==> y.node.pending.Some? && y.node.pending.value.taken)
    requires PageEnd(Crashed(env, y, renewed).node, through)
    ensures var z := Crashed(env, y, renewed); var u := CameUp(env, z, through); var image := z.node.store.snapshot;
      && z.stream == (if renewed then y.node.pending.value.records else y.stream) && Read(env, z.stream) == Ok(z.node)
      && PageEnd(z.node, z.node.store.hard.commit) && image.index <= through <= |env.history|
      && (u.node.up <==>
            AllAccepted(env, if image.index == 0 then env.bootstrap else image.conf, env.history[image.index..through]))
      && (u.node.up ==> u.node.delivered == through == Applied(u.node))
  {
    hide Inv, Sane, Crashed, AllAccepted, PageEnd, Over, FirstPage;
    CrashReads(env, y, renewed);
    var z := Crashed(env, y, renewed);
    OpensExactly(env, z, through);
    DownConf(env, z);
  }

  lemma CrashReads(env: Env, y: System, renewed: bool)
    requires Inv(env, y) && (renewed ==> y.node.pending.Some? && y.node.pending.value.taken)
    ensures var z := Crashed(env, y, renewed);
      && Inv(env, z) && !z.node.up && Read(env, z.stream) == Ok(z.node)
      && PageEnd(z.node, z.node.store.hard.commit)
      && z.stream == if renewed then y.node.pending.value.records else y.stream
  {
    CrashKeeps(env, y, renewed);
    hide Replayed, StoreFault, LiveFits, DiskFits, PendingFits, EntryNamed, PageEnd;
    MayStopAtCommit(env, Crashed(env, y, renewed));
  }

  lemma DownConf(env: Env, y: System)
    requires Inv(env, y) && !y.node.up
    ensures var s := y.node.store; s.conf == if s.snapshot.index == 0 then env.bootstrap else s.snapshot.conf
  {
    hide Replayed, StoreFault, LiveFits, PendingFits, EntryNamed;
  }

  lemma CrashOpensConf(env: Env, y: System, renewed: bool, through: nat)
    requires Sane(env) && Inv(env, y) && ConfFits(env, y)
    requires (renewed ==> y.node.pending.Some? && y.node.pending.value.taken)
    requires PageEnd(Crashed(env, y, renewed).node, through)
    ensures var u := CameUp(env, Crashed(env, y, renewed), through);
      u.node.up && through <= |env.history| && u.node.store.conf == ConfAt(env, through)
  {
    hide Inv, ConfFits, Sane, Crashed, CameUp, AllAccepted, PageEnd, Over, FirstPage, ConfAt;
    CrashReads(env, y, renewed);
    CrashedConf(env, y, renewed);
    OpensExactly(env, Crashed(env, y, renewed), through);
  }

  /** So whichever stream the disk kept opens wherever opening stops. */
  lemma StreamOpens(env: Env, y: System, renewed: bool)
    requires Sane(env) && Inv(env, y) && ConfFits(env, y)
    requires (renewed ==> y.node.pending.Some? && y.node.pending.value.taken)
    ensures Opens(env, if renewed then y.node.pending.value.records else y.stream)
  {
    hide Inv, ConfFits, Sane, Crashed, PageEnd, Read, Recovered, ConfAt;
    CrashReads(env, y, renewed);
    var z := Crashed(env, y, renewed);
    forall through | PageEnd(z.node, through)
      ensures Recovered(env, z.node, through).Ok?
    {
      CrashOpensConf(env, y, renewed, through);
    }
  }

  lemma CrashOpensState(env: Env, y: System, renewed: bool, through: nat)
    requires Sane(env) && Inv(env, y) && StateFits(env, y)
    requires (renewed ==> y.node.pending.Some? && y.node.pending.value.taken)
    requires PageEnd(Crashed(env, y, renewed).node, through)
    ensures var u := CameUp(env, Crashed(env, y, renewed), through);
      u.node.up ==>
        && u.node.delivered == through <= |env.history|
        && Given(env, env.initial, Outstanding(u.node)) == AppAt(env, through)
  {
    hide Inv, StateFits, Sane, Crashed, AllAccepted, PageEnd, Recovered, Given, AppAt;
    var z := Crashed(env, y, renewed);
    var u := CameUp(env, z, through);
    CrashReads(env, y, renewed);
    CrashedState(env, y, renewed);
    CrashOpens(env, y, renewed, through);
    DownApp(env, z);
    if u.node.up {
      OpenKeeps(env, z, through);
      RestState(env, z, EvOpen(through));
      StateIs(env, u);
    }
  }

  lemma DownApp(env: Env, y: System)
    requires Inv(env, y) && !y.node.up
    ensures y.app == env.initial
  {
    hide Replayed, StoreFault, LiveFits, PendingFits, EntryNamed;
  }

  /** Opening may always stop with everything committed applied. */
  lemma MayStopAtCommit(env: Env, y: System)
    requires LiveFits(env, y)
    ensures PageEnd(y.node, y.node.store.hard.commit)
  {
    CommitHeld(env, y);
    hide LiveFits, FirstPage;
  }

  /** A replica read back that is refused wherever opening stops stays as it is, whatever is done. */
  lemma {:induction false} StaysDown(env: Env, y: System, events: seq<Event>, i: nat)
    requires Inv(env, y) && !y.node.up && Happens(env, y, events) && i <= |events|
    requires forall through :: PageEnd(y.node, through) ==> Recovered(env, y.node, through).Err?
    ensures Reach(env, y, events[..i]) == y
  {
    hide Inv, Recovered, PageEnd, Step, Possible;
    if i == 0 {
      assert events[..0] == [];
    } else {
      StaysDown(env, y, events, i - 1);
      assert events[..i][..i - 1] == events[..i - 1] && events[..i][i - 1] == events[i - 1];
      DownStep(env, y, events[i - 1]);
    }
  }

  lemma DownStep(env: Env, y: System, ev: Event)
    requires Inv(env, y) && !y.node.up && Possible(env, y, ev)
    requires forall through :: PageEnd(y.node, through) ==> Recovered(env, y.node, through).Err?
    ensures Step(env, y, ev) == y
  {
    hide LiveFits, DiskFits, Recovered, PageEnd, Replayed, StoreFault, EntryNamed;
    if ev.EvCrash? {
      DownReads(env, y);
    }
  }

  lemma DownReads(env: Env, y: System)
    requires Inv(env, y) && !y.node.up
    ensures y.node.pending.None? && Read(env, y.stream) == Ok(y.node)
    ensures y == System(y.stream, y.node, 0, env.initial, [])
  {
    hide Replayed, StoreFault, LiveFits, EntryNamed;
  }

  /** So it opens in some run exactly when some page is accepted whole. */
  lemma OpensAgainExactly(env: Env, y: System)
    requires Sane(env) && Inv(env, y) && !y.node.up
    ensures (exists events :: Happens(env, y, events) && Reach(env, y, events).node.up) <==>
      exists through :: PageEnd(y.node, through) && Recovered(env, y.node, through).Ok?
  {
    hide Inv, Sane, PageEnd, Recovered;
    if through :| PageEnd(y.node, through) && Recovered(env, y.node, through).Ok? {
      var events := [EvOpen(through)];
      assert events[..0] == [] && Reach(env, y, []) == y;
      assert Reach(env, y, events) == Step(env, y, events[0]);
      UpAfter(env, y, through);
      assert Happens(env, y, events) && Reach(env, y, events).node.up;
    } else {
      forall events | Happens(env, y, events)
        ensures !Reach(env, y, events).node.up
      {
        StaysDown(env, y, events, |events|);
        assert events[..|events|] == events;
      }
    }
  }

  lemma UpAfter(env: Env, y: System, through: nat)
    requires !y.node.up && Recovered(env, y.node, through).Ok?
    ensures CameUp(env, y, through).node.up
  {
    hide AllAccepted, Over;
  }
}
