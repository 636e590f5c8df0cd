/**
 That a replica gets on: an open one can always deliver everything committed, and then write a checkpoint of it
 that leaves only what follows.
 */
module CheckpointProgress {
  import opened Basics
  import opened CheckpointModel
  import opened CheckpointReplay
  import opened CheckpointRuns
  import opened CheckpointSteps
  import opened CheckpointState
  import opened CheckpointConf
  import opened CheckpointTheorems

  /** Open, with no checkpoint pending, and with every state and configuration kept the history's. */
  ghost predicate Running(env: Env, y: System) {
    Sane(env) && Inv(env, y) && StateFits(env, y) && ConfFits(env, y) && y.node.up && y.node.pending.None?
  }

  /** A step that captures and writes nothing keeps that. */
  lemma RunsOn(env: Env, y: System, ev: Event)
    requires Running(env, y)
    requires ev.EvDrain? || ev.EvApply? || ev.EvHand? || (ev.EvLearn? && Possible(env, y, ev))
    ensures Possible(env, y, ev) && Step(env, y, ev) == Acted(env, y, ev)
    ensures Sane(env) && Inv(env, Step(env, y, ev)) && StateFits(env, Step(env, y, ev))
    ensures ConfFits(env, Step(env, y, ev))
  {
    hide Inv, Sane, StateFits, ConfFits, Acted;
    StepKeeps(env, y, ev);
    StepKeepsState(env, y, ev);
    StepKeepsConf(env, y, ev);
  }

  lemma {:induction false} FirstThen(env: Env, y: System, ev: Event, rest: seq<Event>)
    requires Possible(env, y, ev) && Happens(env, Step(env, y, ev), rest)
    ensures Happens(env, y, [ev] + rest) && Reach(env, y, [ev] + rest) == Reach(env, Step(env, y, ev), rest)
  {
    hide Possible, Step;
    ReachFirst(env, y, ev, rest);
    var events := [ev] + rest;
    forall i | 0 <= i < |events|
      ensures Possible(env, Reach(env, y, events[..i]), events[i])
    {
      if i == 0 {
        assert events[..0] == [];
      } else {
        assert events[..i] == [ev] + rest[..i - 1];
        ReachFirst(env, y, ev, rest[..i - 1]);
      }
    }
  }

  lemma {:induction false} ReachFirst(env: Env, y: System, ev: Event, rest: seq<Event>)
    ensures Reach(env, y, [ev] + rest) == Reach(env, Step(env, y, ev), rest)
  {
    hide Step;
    if rest == [] {
      assert [ev] + rest == [ev] && [ev][..0] == [];
    } else {
      ReachFirst(env, y, ev, rest[..|rest| - 1]);
      assert ([ev] + rest)[..|rest|] == [ev] + rest[..|rest| - 1];
    }
  }

  // ---------------------------------------------------------------- everything committed is delivered

  lemma AppliesOne(env: Env, y: System)
    requires Running(env, y) && y.node.drain.Some? && Applied(y.node) < y.node.store.hard.commit
    ensures var z := Step(env, y, EvApply);
      && Possible(env, y, EvApply) && Running(env, z) && z.node.drain.Some? && z.node.kept == y.node.kept
      && Applied(z.node) == Applied(y.node) + 1 && z.node.store.hard == y.node.store.hard
  {
    hide Inv, Sane, StateFits, ConfFits, Accepts, Changed;
    RunsOn(env, y, EvApply);
    NextAccepted(env, y);
  }

  lemma NextAccepted(env: Env, y: System)
    requires Running(env, y) && y.node.drain.Some? && Applied(y.node) < y.node.store.hard.commit
    ensures var s, at := y.node.store, Applied(y.node) - y.node.store.snapshot.index;
      0 <= at < |s.entries| && Accepts(env, s.conf, s.entries[at])
  {
    hide Inv, Sane, StateFits, ConfFits, Accepts, Over;
    NoneRefused(env, y);
    var s, at := y.node.store, Applied(y.node) - y.node.store.snapshot.index;
    var rest := s.entries[at..s.hard.commit - s.snapshot.index];
    assert rest[..0] == [] && rest[0] == s.entries[at];
    OverNothing(env, s.conf);
  }

  lemma OverNothing(env: Env, conf: Conf)
    ensures Over(env, conf, []) == conf
  {
  }

  lemma {:induction false} AppliesAll(env: Env, y: System) returns (events: seq<Event>)
    requires Running(env, y) && y.node.drain.Some? && Applied(y.node) <= y.node.store.hard.commit
    ensures Happens(env, y, events)
    ensures var z := Reach(env, y, events);
      && Running(env, z) && z.node.drain.Some? && z.node.kept == y.node.kept
      && Applied(z.node) == z.node.store.hard.commit == y.node.store.hard.commit
    decreases y.node.store.hard.commit - Applied(y.node)
  {
    hide Running, Step, Possible;
    if Applied(y.node) == y.node.store.hard.commit {
      events := [];
    } else {
      AppliesOne(env, y);
      var rest := AppliesAll(env, Step(env, y, EvApply));
      FirstThen(env, y, EvApply, rest);
      events := [EvApply] + rest;
    }
  }

  /** Applied to the commit and handed over. */
  ghost predicate Caught(env: Env, y: System, commit: nat) {
    && Running(env, y) && y.node.drain.None? && y.node.kept.None?
    && y.node.delivered == y.given == y.node.store.hard.commit == commit <= |env.history|
    && y.app == AppAt(env, commit)
  }

  lemma HandsOver(env: Env, y: System)
    requires Running(env, y) && y.node.drain.Some? && Applied(y.node) == y.node.store.hard.commit
    ensures Possible(env, y, EvHand) && Caught(env, Step(env, y, EvHand), y.node.store.hard.commit)
  {
    hide Inv, Sane, StateFits, ConfFits, Given, AppAt;
    RunsOn(env, y, EvHand);
    GatheredIs(env, y);
    StateIs(env, y);
  }

  lemma AppliedWithin(env: Env, y: System)
    requires Inv(env, y)
    ensures Applied(y.node) <= y.node.store.hard.commit
  {
    hide WellFormed, HoldsHistory, GatheredFits, DiskFits, PendingFits, DownFits, EntryNamed;
  }

  /** An open replica can hand over everything committed, whatever drain is under way: its application then has the
      history through the commit. */
  lemma Delivers(env: Env, y: System) returns (events: seq<Event>)
    requires Running(env, y)
    ensures Happens(env, y, events) && Caught(env, Reach(env, y, events), y.node.store.hard.commit)
  {
    var begun := y;
    AppliedWithin(env, y);
    if y.node.drain.None? {
      begun := Step(env, y, EvDrain);
      RunsOn(env, y, EvDrain);
    }
    assert Running(env, begun) && begun.node.drain.Some? && begun.node.store == y.node.store;
    assert Applied(begun.node) == Applied(y.node);
    hide Running, Step, Possible, Caught;
    var applied := AppliesAll(env, begun);
    var z := Reach(env, begun, applied);
    HandsOver(env, z);
    HappensThen(env, begun, applied, EvHand);
    events := applied + [EvHand];
    if y.node.drain.None? {
      PossibleDrain(env, y);
      FirstThen(env, y, EvDrain, events);
      events := [EvDrain] + events;
    }
  }

  /** So once a commit is learnt, everything through it can be handed over. */
  lemma LearntIsDelivered(env: Env, y: System, commit: nat) returns (events: seq<Event>)
    requires Running(env, y) && Possible(env, y, EvLearn(commit))
    ensures Happens(env, y, events) && Caught(env, Reach(env, y, events), commit)
  {
    RunsOn(env, y, EvLearn(commit));
    var z := Step(env, y, EvLearn(commit));
    assert Running(env, z) && z.node.store.hard.commit == commit;
    hide Running, Step, Possible, Caught;
    var rest := Delivers(env, z);
    FirstThen(env, y, EvLearn(commit), rest);
    events := [EvLearn(commit)] + rest;
  }

  lemma PossibleDrain(env: Env, y: System)
    requires Running(env, y)
    ensures Possible(env, y, EvDrain)
  {
    hide Inv, Sane, StateFits, ConfFits;
  }

  lemma HappensThen(env: Env, y: System, front: seq<Event>, last: Event)
    requires Happens(env, y, front) && Possible(env, Reach(env, y, front), last)
    ensures Happens(env, y, front + [last]) && Reach(env, y, front + [last]) == Step(env, Reach(env, y, front), last)
  {
    hide Possible, Step;
    ReachOneMore(env, y, front, last);
    var events := front + [last];
    forall i | 0 <= i < |events|
      ensures Possible(env, Reach(env, y, events[..i]), events[i])
    {
      assert events[..i] == if i < |front| then front[..i] else front;
    }
  }

  // ---------------------------------------------------------------- and checkpointed

  /** A point is captured with an image of the application's state, and its checkpoint is begun, taken and finished. */
  function Course(captured: nat, data: Bytes): seq<Event> {
    [EvCapture(data), EvBegin(captured, false), EvTake, EvFinish]
  }

  /** What it leaves: the image of the history through the delivered entry, the entries after it and no others. */
  ghost predicate Compacted(env: Env, y: System, data: Bytes, z: System)
    requires 0 < y.node.delivered <= |env.history|
  {
    var at := y.node.delivered;
    && z.node.store.snapshot == Snapshot(at, env.history[at - 1].term, ConfAt(env, at), data)
    && z.node.store.hard == y.node.store.hard && z.node.pending.None?
    && y.node.store.snapshot.index <= at <= y.node.store.snapshot.index + |y.node.store.entries|
    && z.node.store.entries == y.node.store.entries[at - y.node.store.snapshot.index..]
  }

  lemma CapturesPoint(env: Env, y: System, data: Bytes)
    requires Caught(env, y, y.node.delivered) && y.node.delivered > 0 && env.image(data) == y.app
    ensures var z := Step(env, y, EvCapture(data)); var at := y.node.delivered;
      && Possible(env, y, EvCapture(data)) && Inv(env, z) && at <= |env.history|
      && z == y.(captures := y.captures + [Capture(Point(at, env.history[at - 1].term, y.node.store.conf), data)])
      && y.node.store.conf == ConfAt(env, at)
  {
    hide Inv, Sane, StateFits, ConfFits, AppAt, ConfAt;
    StepKeeps(env, y, EvCapture(data));
    PointIs(env, y);
    ImageBehind(env, y);
    ConfIs(env, y);
  }

  lemma ImageBehind(env: Env, y: System)
    requires Inv(env, y) && y.node.drain.None?
    ensures y.node.store.snapshot.index <= y.node.delivered
  {
    hide WellFormed, HoldsHistory, GatheredFits, DiskFits, PendingFits, DownFits, EntryNamed;
  }

  lemma BeginsPoint(env: Env, y: System, i: nat, data: Bytes)
    requires Sane(env) && Inv(env, y) && y.node.up && y.node.pending.None? && y.node.drain.None? && i < |y.captures|
    requires |data| <= IMAGE_BYTES && 0 < y.node.delivered <= |env.history|
    requires var at := y.node.delivered;
      y.captures[i] == Capture(Point(at, env.history[at - 1].term, y.node.store.conf), data)
    ensures Inv(env, Step(env, y, EvBegin(i, false)))
    ensures var z := Step(env, y, EvBegin(i, false)); var at := y.node.delivered;
      var image := Snapshot(at, env.history[at - 1].term, y.node.store.conf, data);
      var records := CheckpointRecords(env.config, y.node.required, y.node.transition, y.node.store, image);
      z == y.(node := y.node.(pending := Some(Pending(image, records, false))))
  {
    hide Inv, Sane, CheckpointRecords;
    ImageBehind(env, y);
    BeginExactly(env, y, y.captures[i], false);
    StepKeeps(env, y, EvBegin(i, false));
  }

  /** An open replica that has handed over everything committed, something at least, can checkpoint it: with any image
      of the application's state that fits, what is left is that image and the entries after it. */
  lemma Checkpoints(env: Env, y: System, data: Bytes)
    requires Caught(env, y, y.node.delivered) && y.node.delivered > 0
    requires env.image(data) == y.app && |data| <= IMAGE_BYTES
    ensures var events := Course(|y.captures|, data);
      Happens(env, y, events) && Compacted(env, y, data, Reach(env, y, events))
  {
    hide Step, Compacted, Caught;
    CapturesPoint(env, y, data);
    CourseLeaves(env, y, data);
    FourSteps(env, y, Course(|y.captures|, data));
  }

  lemma CourseLeaves(env: Env, y: System, data: Bytes)
    requires Caught(env, y, y.node.delivered) && y.node.delivered > 0
    requires env.image(data) == y.app && |data| <= IMAGE_BYTES
    ensures y.node.delivered <= |env.history|
    ensures var a := Step(env, y, EvCapture(data)); var b := Step(env, a, EvBegin(|y.captures|, false));
      Compacted(env, y, data, Step(env, Step(env, b, EvTake), EvFinish))
  {
    hide Inv, Sane, StateFits, ConfFits, AppAt, ConfAt, CheckpointRecords, Finished, Begun, Captured, Contiguous;
    CapturesPoint(env, y, data);
    var a := Step(env, y, EvCapture(data));
    BeginsPoint(env, a, |y.captures|, data);
    var b := Step(env, a, EvBegin(|y.captures|, false));
    ShortensExactly(env, b);
    PendingWithin(env, b);
  }

  lemma FourSteps(env: Env, y: System, events: seq<Event>)
    requires |events| == 4 && Possible(env, y, events[0])
    requires !events[1].EvOpen? && !events[2].EvOpen? && !events[3].EvOpen?
    requires forall z :: Possible(env, z, events[1]) && Possible(env, z, events[2]) && Possible(env, z, events[3])
    ensures Happens(env, y, events)
    ensures Reach(env, y, events) ==
      Step(env, Step(env, Step(env, Step(env, y, events[0]), events[1]), events[2]), events[3])
  {
    hide Step, Possible;
    HappensNothing(env, y);
    assert [] + [events[0]] == events[..1] && events[..1] + [events[1]] == events[..2];
    assert events[..2] + [events[2]] == events[..3] && events[..3] + [events[3]] == events;
    HappensThen(env, y, [], events[0]);
    HappensThen(env, y, events[..1], events[1]);
    HappensThen(env, y, events[..2], events[2]);
    HappensThen(env, y, events[..3], events[3]);
  }

  lemma HappensNothing(env: Env, y: System)
    ensures Happens(env, y, []) && Reach(env, y, []) == y
  {
  }
}
