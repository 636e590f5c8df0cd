/**
 Runs of the decoder gate: confirmations, staged writes, polls, the log's syncs and crashes in any
 order. What is required only ever advances from nothing to the floor to its one successor, a member
 says it decodes only what its durable records state, and what it recovers it recovers whole.
 */
module DecoderRuns {
  import opened Basics
  import opened Decoder

  // ---------------------------------------------------------------- the invariant

  predicate Ordered(pair: Pair) {
    pair.predecessor != pair.successor
  }

  ghost predicate GateFits(g: Gate) {
    && (g.compiled.Some? ==> g.confirmed == Some(g.compiled.value.predecessor) && Ordered(g.compiled.value))
    && (g.transition.Some? ==> g.required == Some(g.transition.value.predecessor) && Ordered(g.transition.value))
    && (g.transition.Some? && g.compiled.Some? ==> g.compiled == g.transition)
    && (g.required.Some? && g.confirmed.Some? ==> g.confirmed == g.required)
  }

  /** A write the gate may make: the floor it confirmed where there is none, or the transition it compiled
      from the floor it has, where there is none. */
  ghost predicate IntentFits(g: Gate, intent: Intent) {
    match intent
    case Baseline(hash) => g.required.None? && g.transition.None? && g.confirmed == Some(hash)
    case Transition(pair) => g.required == Some(pair.predecessor) && g.transition.None? && g.compiled == Some(pair)
  }

  ghost function StatedBy(g: Gate): Stated {
    Stated(true, g.required, g.transition)
  }

  /** The records state what the gate states, and of the one write under way, `unseen`, either it is in the
      log's hands or they state it too. */
  ghost predicate RecordsFit(y: System, unseen: Option<Intent>) {
    match unseen
    case None => Replay(y.durable) == Ok(StatedBy(y.node.gate)) && y.queue.None?
    case Some(intent) =>
      && IntentFits(y.node.gate, intent) && RecordOf(y.group, intent).Ok?
      && (|| (Replay(y.durable) == Ok(StatedBy(y.node.gate)) && y.queue == Some(RecordOf(y.group, intent).value))
          || (Replay(y.durable) == Ok(StatedBy(Written(y.node.gate, intent))) && y.queue.None?))
  }

  ghost predicate InvWith(y: System, unseen: Option<Intent>) {
    && GateFits(y.node.gate)
    && (y.node.write.Some? ==> IntentFits(y.node.gate, y.node.write.value.intent))
    && RecordsFit(y, unseen)
    && (!y.node.failed ==>
          unseen == if y.node.write.Some? && y.node.write.value.taken then Some(y.node.write.value.intent) else None)
  }

  ghost predicate Inv(y: System) {
    exists unseen :: InvWith(y, unseen)
  }

  /** A group just made: its identity written and nothing stated. */
  function NewGroup(group: nat, identity: Record): System {
    System(group, NewNode(Stated(true, None, None)), [identity], None)
  }

  lemma OpenedInv(group: nat, identity: Record)
    requires identity.kind == Identity
    ensures Inv(NewGroup(group, identity))
  {
    var y := NewGroup(group, identity);
    assert [identity][..0] == [];
    assert Replay([identity]) == Ok(Stated(true, None, None));
    assert InvWith(y, None);
  }

  // ---------------------------------------------------------------- records replayed

  lemma ReplayAppend(records: seq<Record>, r: Record)
    requires Replay(records).Ok?
    ensures Replay(records + [r]) == ReplayRecord(Replay(records).value, r)
  {
    assert (records + [r])[..|records|] == records;
  }

  lemma ReplayWritten(g: Gate, group: nat, intent: Intent)
    requires GateFits(g) && IntentFits(g, intent) && RecordOf(group, intent).Ok?
    ensures ReplayRecord(StatedBy(g), RecordOf(group, intent).value) == Ok(StatedBy(Written(g, intent)))
  {
    var r := RecordOf(group, intent).value;
    if intent.Baseline? {
      FloorReadsBack(r, intent.hash);
    } else {
      TransitionReadsBack(r, intent.pair);
    }
  }

  lemma FittingHasRecord(g: Gate, group: nat, intent: Intent)
    requires GateFits(g) && IntentFits(g, intent)
    ensures RecordOf(group, intent).Ok?
  {
  }

  lemma WrittenFits(g: Gate, intent: Intent)
    requires GateFits(g) && IntentFits(g, intent)
    ensures GateFits(Written(g, intent))
  {
  }

  // ---------------------------------------------------------------- what every step keeps

  /** A floor or a transition once stated is stated ever after. */
  ghost predicate Extends(y: System, z: System) {
    && (y.node.gate.required.Some? ==> z.node.gate.required == y.node.gate.required)
    && (y.node.gate.transition.Some? ==> z.node.gate.transition == y.node.gate.transition)
  }

  lemma ConfirmKeeps(y: System, unseen: Option<Intent>, g: Gate, drain: Drain)
    requires InvWith(y, unseen) && !y.node.failed
    requires
      || (exists hash :: Confirm(y.node.gate, hash) == Ok(g))
      || (exists pair :: ConfirmPair(y.node.gate, pair) == Ok(g))
    ensures var z := y.(node := Rebuilt(y.node.(gate := g), drain)); InvWith(z, unseen) && Extends(y, z)
  {
  }

  lemma StageKeeps(y: System, unseen: Option<Intent>, wanted: Result<Option<Intent>>, refused: bool)
    requires InvWith(y, unseen)
    requires wanted.Ok? && wanted.value.Some? && y.node.write.None? ==> IntentFits(y.node.gate, wanted.value.value)
    ensures var z := y.(node := Staged(y.node, y.group, wanted, refused)); InvWith(z, unseen) && Extends(y, z)
  {
    hide Replay, RecordOf;
  }

  lemma SyncKeeps(y: System, unseen: Option<Intent>)
    requires InvWith(y, unseen)
    ensures InvWith(Synced(y), unseen) && Extends(y, Synced(y))
  {
    if y.queue.Some? {
      ReplayAppend(y.durable, y.queue.value);
      ReplayWritten(y.node.gate, y.group, unseen.value);
    }
  }

  /** A write given to the log. */
  lemma GiveKeeps(y: System, unseen: Option<Intent>)
    requires InvWith(y, unseen) && !y.node.failed && y.node.write.Some? && !y.node.write.value.taken
    ensures var intent := y.node.write.value.intent;
      RecordOf(y.group, intent).Ok?
      && var given := Some(RecordOf(y.group, intent).value);
      var z := y.(node := y.node.(write := Some(Pending(intent, true))), queue := given);
      InvWith(z, Some(intent)) && Extends(y, z)
  {
    FittingHasRecord(y.node.gate, y.group, y.node.write.value.intent);
    hide Replay;
  }

  /** A write observed durable. */
  lemma ObserveKeeps(y: System)
    requires !y.node.failed && y.node.write.Some? && y.node.write.value.taken && y.queue.None?
    requires InvWith(y, Some(y.node.write.value.intent))
    ensures var z := y.(node := y.node.(gate := Written(y.node.gate, y.node.write.value.intent), write := None));
      InvWith(z, None) && Extends(y, z)
  {
    var intent := y.node.write.value.intent;
    WrittenFits(y.node.gate, intent);
    hide Replay;
    assert StatedBy(y.node.gate) != StatedBy(Written(y.node.gate, intent));
  }

  lemma FailKeeps(y: System, unseen: Option<Intent>)
    requires InvWith(y, unseen)
    ensures var z := y.(node := y.node.(write := None, failed := true)); InvWith(z, unseen) && Extends(y, z)
  {
    hide Replay, RecordOf;
  }

  lemma PollKeeps(y: System, unseen: Option<Intent>, ev: Event)
    requires InvWith(y, unseen) && ev.EvPoll? && Possible(y, ev)
    ensures Inv(Step(y, ev)) && Extends(y, Step(y, ev))
  {
    hide InvWith;
    var n := y.node;
    var z := Step(y, ev);
    if CheckFault(n).Some? || n.write.None? || ev.refused || (!n.write.value.taken && ev.admission == NoRoom) {
      assert z == y && InvWith(z, unseen);
    } else if !n.write.value.taken && ev.admission == Broken {
      FailKeeps(y, unseen);
    } else if !n.write.value.taken {
      GiveKeeps(y, unseen);
      var intent := n.write.value.intent;
      var given := y.(node := n.(write := Some(Pending(intent, true))), queue := Some(RecordOf(y.group, intent).value));
      if !ev.blocking || ev.completion.NotYet? {
        assert z == given && InvWith(z, Some(intent));
      } else if ev.completion.Lost? {
        FailKeeps(given, Some(intent));
      } else {
        SyncKeeps(given, Some(intent));
        ObserveKeeps(Synced(given));
      }
    } else {
      TakenIsUnseen(y, unseen);
      PollTaken(y, ev);
    }
  }

  lemma TakenIsUnseen(y: System, unseen: Option<Intent>)
    requires InvWith(y, unseen) && !y.node.failed && y.node.write.Some? && y.node.write.value.taken
    ensures unseen == Some(y.node.write.value.intent)
  {
  }

  lemma PollTaken(y: System, ev: Event)
    requires ev.EvPoll? && Possible(y, ev) && CheckFault(y.node).None? && !ev.refused
    requires y.node.write.Some? && y.node.write.value.taken && InvWith(y, Some(y.node.write.value.intent))
    ensures Inv(Step(y, ev)) && Extends(y, Step(y, ev))
  {
    hide InvWith;
    var unseen := Some(y.node.write.value.intent);
    var z := Step(y, ev);
    match ev.completion
    case NotYet => assert z == y && InvWith(z, unseen);
    case Lost => FailKeeps(y, unseen);
    case Durable => ObserveKeeps(y);
  }

  /** A crash loses what was confirmed and what was not durable; the records are read back whole, and
      state what the gate stated or one write more. */
  lemma CrashKeeps(y: System, unseen: Option<Intent>)
    requires InvWith(y, unseen)
    ensures Replay(y.durable).Ok? && InvWith(Step(y, EvCrash), None) && Extends(y, Step(y, EvCrash))
  {
    if unseen.Some? {
      WrittenFits(y.node.gate, unseen.value);
    }
    hide Replay, RecordOf;
  }

  lemma StepKeeps(y: System, ev: Event)
    requires Inv(y) && Possible(y, ev)
    ensures Inv(Step(y, ev)) && Extends(y, Step(y, ev))
  {
    hide InvWith, Replay, Extends;
    var unseen :| InvWith(y, unseen);
    var z := Step(y, ev);
    match ev
    case EvConfirm(hash, drain) =>
      if z == y {
        ExtendsSelf(y);
      } else {
        ConfirmKeeps(y, unseen, Confirm(y.node.gate, hash).value, drain);
        assert InvWith(z, unseen);
      }
    case EvConfirmPair(pair, drain) =>
      if z == y {
        ExtendsSelf(y);
      } else {
        ConfirmKeeps(y, unseen, ConfirmPair(y.node.gate, pair).value, drain);
        assert InvWith(z, unseen);
      }
    case EvBeginFloor(hash, refused) =>
      GateOf(y, unseen);
      StageKeeps(y, unseen, FloorWrite(y.node.gate, hash, IntentOf(y.node.write)), refused);
    case EvBeginTransition(refused) =>
      GateOf(y, unseen);
      StageKeeps(y, unseen, TransitionWrite(y.node.gate, IntentOf(y.node.write)), refused);
    case EvPoll(_, _, _, _) => PollKeeps(y, unseen, ev);
    case EvSync => SyncKeeps(y, unseen);
    case EvCrash => CrashKeeps(y, unseen);
  }

  lemma GateOf(y: System, unseen: Option<Intent>)
    requires InvWith(y, unseen)
    ensures GateFits(y.node.gate)
  {
  }

  lemma ExtendsSelf(y: System)
    ensures Extends(y, y)
  {
  }

  // ---------------------------------------------------------------- runs

  function Reach(y: System, events: seq<Event>): System {
    if events == [] then y else Step(Reach(y, events[..|events| - 1]), events[|events| - 1])
  }

  /** Each event can happen where it happens. */
  ghost predicate Happens(y: System, events: seq<Event>) {
    forall i :: 0 <= i < |events| ==> Possible(Reach(y, events[..i]), events[i])
  }

  lemma ReachStep(y: System, events: seq<Event>, i: nat)
    requires i < |events|
    ensures Reach(y, events[..i + 1]) == Step(Reach(y, events[..i]), events[i])
  {
    hide Step;
    assert events[..i + 1][..i] == events[..i];
  }

  lemma {:induction false} RunsKeepInv(y: System, events: seq<Event>, i: nat)
    requires Inv(y) && Happens(y, events) && i <= |events|
    ensures Inv(Reach(y, events[..i]))
  {
    hide Inv, Step, Possible;
    if i > 0 {
      RunsKeepInv(y, events, i - 1);
      ReachStep(y, events, i - 1);
      StepKeeps(Reach(y, events[..i - 1]), events[i - 1]);
    } else {
      assert events[..0] == [];
    }
  }

  lemma {:induction false} RunsExtend(y: System, events: seq<Event>, i: nat, j: nat)
    requires Inv(y) && Happens(y, events) && i <= j <= |events|
    ensures Extends(Reach(y, events[..i]), Reach(y, events[..j]))
    decreases j
  {
    hide Inv, Step, Possible;
    if i < j {
      RunsExtend(y, events, i, j - 1);
      RunsKeepInv(y, events, j - 1);
      ReachStep(y, events, j - 1);
      StepKeeps(Reach(y, events[..j - 1]), events[j - 1]);
    }
  }

  /** Where nothing is effective, no one step makes a transition so. */
  lemma FloorComesFirst(y: System, ev: Event)
    requires Inv(y) && Possible(y, ev) && Effective(y.node.gate) == None
    ensures Step(y, ev).node.gate.transition.None?
  {
    hide Replay;
    var unseen :| InvWith(y, unseen);
    if ev.EvCrash? {
      CrashKeeps(y, unseen);
    }
  }

  lemma FitsAt(y: System)
    requires Inv(y)
    ensures GateFits(y.node.gate)
  {
    var unseen :| InvWith(y, unseen);
  }

  ghost predicate EffectiveAt(y: System, events: seq<Event>, k: nat, hash: Hash)
    requires k <= |events|
  {
    Effective(Reach(y, events[..k]).node.gate) == Some(hash)
  }

  /** Between a moment with nothing effective and one with a transition, its predecessor was. */
  lemma {:induction false} FloorBetween(y: System, events: seq<Event>, i: nat, j: nat) returns (k: nat)
    requires Inv(y) && Happens(y, events) && i <= j <= |events|
    requires Effective(Reach(y, events[..i]).node.gate) == None && Reach(y, events[..j]).node.gate.transition.Some?
    ensures i < k < j && Reach(y, events[..k]).node.gate.transition.None?
    ensures EffectiveAt(y, events, k, Reach(y, events[..j]).node.gate.transition.value.predecessor)
    decreases j
  {
    hide Inv, Reach, Step, Possible;
    assert i < j;
    var before := Reach(y, events[..j - 1]);
    RunsKeepInv(y, events, j - 1);
    RunsKeepInv(y, events, j);
    RunsExtend(y, events, j - 1, j);
    FitsAt(Reach(y, events[..j]));
    if before.node.gate.transition.Some? {
      k := FloorBetween(y, events, i, j - 1);
    } else {
      k := j - 1;
      ReachStep(y, events, j - 1);
      if Effective(before.node.gate) == None {
        FloorComesFirst(before, events[j - 1]);
      }
    }
  }

  /** What is effective moves only from none to a floor, and from a floor to the successor of the one
      transition that names it: a successor that none preceded had its predecessor effective in between.
      It never moves back, whatever crashes come between. */
  lemma EffectiveOnlyAdvances(y: System, events: seq<Event>, i: nat, j: nat)
    requires Inv(y) && Happens(y, events) && i <= j <= |events|
    ensures var g := Reach(y, events[..i]).node.gate; var h := Reach(y, events[..j]).node.gate;
      || Effective(h) == Effective(g)
      || (Effective(g) == None && h.transition.None? && Effective(h) == h.required)
      || (Effective(g) == None && h.transition.Some? && Effective(h) == Some(h.transition.value.successor)
          && exists k :: i < k < j && EffectiveAt(y, events, k, h.transition.value.predecessor))
      || (g.transition.None? && h.transition.Some? && Effective(g) == Some(h.transition.value.predecessor)
          && Effective(h) == Some(h.transition.value.successor))
  {
    RunsExtend(y, events, i, j);
    RunsKeepInv(y, events, j);
    FitsAt(Reach(y, events[..j]));
    hide Inv, Reach, Happens, Step;
    if Effective(Reach(y, events[..i]).node.gate) == None && Reach(y, events[..j]).node.gate.transition.Some? {
      var k := FloorBetween(y, events, i, j);
    }
  }

  /** From a group's making on: its records are read back whole and state what is effective, and a successor
      is effective only after its predecessor was. */
  lemma NewGroupAdvances(group: nat, identity: Record, events: seq<Event>, j: nat)
    requires identity.kind == Identity && Happens(NewGroup(group, identity), events) && j <= |events|
    ensures var y := NewGroup(group, identity); var z := Reach(y, events[..j]);
      && Inv(z) && Replay(z.durable).Ok?
      && (z.node.gate.transition.Some? ==>
            exists k :: 0 < k < j && EffectiveAt(y, events, k, z.node.gate.transition.value.predecessor))
  {
    var y := NewGroup(group, identity);
    OpenedInv(group, identity);
    RunsKeepInv(y, events, j);
    RecoversWhole(y, events, j);
    assert events[..0] == [];
    assert Reach(y, events[..0]) == y;
    hide Inv, Reach, Happens, Step, Replay;
    if Reach(y, events[..j]).node.gate.transition.Some? {
      var k := FloorBetween(y, events, 0, j);
    }
  }

  /** A member says it decodes a hash only once its durable records state it. */
  lemma ReadyIsDurable(y: System, events: seq<Event>, i: nat, hash: Hash)
    requires Inv(y) && Happens(y, events) && i <= |events|
    requires FloorReady(Reach(y, events[..i]).node, hash)
    ensures var z := Reach(y, events[..i]); var stated := Replay(z.durable);
      && stated.Ok?
      && (|| stated.value.required == Some(hash)
          || (stated.value.transition.Some? && stated.value.transition.value.successor == hash))
  {
    RunsKeepInv(y, events, i);
    var z := Reach(y, events[..i]);
    hide Reach, Happens, Replay;
    var unseen :| InvWith(z, unseen);
  }

  /** Whatever happened, the durable records can be read back, and a reopened group's gate states them. */
  lemma RecoversWhole(y: System, events: seq<Event>, i: nat)
    requires Inv(y) && Happens(y, events) && i <= |events|
    ensures var z := Reach(y, events[..i]); var stated := Replay(z.durable);
      stated.Ok? && stated.value.identity && Step(z, EvCrash).node == NewNode(stated.value)
  {
    RunsKeepInv(y, events, i);
    var z := Reach(y, events[..i]);
    hide Reach, Happens, Replay;
    var unseen :| InvWith(z, unseen);
  }

  /** With nothing staged, the durable records state exactly what the gate does. */
  lemma SettledIsDurable(y: System)
    requires Inv(y) && !y.node.failed && y.node.write.None?
    ensures Replay(y.durable) == Ok(StatedBy(y.node.gate))
  {
    var unseen :| InvWith(y, unseen);
  }

  // ---------------------------------------------------------------- confirming

  /** A gate that requires a transition is confirmed only by registering that same ordered pair. */
  lemma ConfirmedOnlyByPair(y: System, ev: Event)
    requires Inv(y) && Possible(y, ev) && y.node.gate.transition.Some?
    requires !Confirmed(y.node.gate) && Confirmed(Step(y, ev).node.gate)
    ensures ev.EvConfirmPair? && Some(ev.pair) == y.node.gate.transition
  {
    hide Replay;
    var unseen :| InvWith(y, unseen);
    if ev.EvCrash? {
      CrashKeeps(y, unseen);
    }
  }

  /** A group reopened with a durable transition is not confirmed, refuses every single hash and every
      other pair, and is confirmed by that pair. */
  lemma ReopenedNeedsPair(stated: Stated, hash: Hash, pair: Pair)
    requires stated.transition.Some? && stated.required == Some(stated.transition.value.predecessor)
    requires stated.transition.value.predecessor != stated.transition.value.successor
    ensures var g := NewNode(stated).gate;
      && !Confirmed(g) && Confirm(g, hash).Err?
      && (ConfirmPair(g, pair).Ok? <==> Some(pair) == stated.transition)
      && (ConfirmPair(g, pair).Ok? ==> Confirmed(ConfirmPair(g, pair).value))
  {
  }

  /** A group reopened with a floor alone is confirmed exactly by that hash, alone or as a predecessor. */
  lemma ReopenedNeedsFloor(stated: Stated, hash: Hash, pair: Pair)
    requires stated.required.Some? && stated.transition.None?
    ensures var g := NewNode(stated).gate;
      && !Confirmed(g)
      && (Confirm(g, hash).Ok? <==> Some(hash) == stated.required)
      && (ConfirmPair(g, pair).Ok? <==> Some(pair.predecessor) == stated.required && pair.predecessor != pair.successor)
      && (Confirm(g, hash).Ok? ==> Confirmed(Confirm(g, hash).value))
      && (ConfirmPair(g, pair).Ok? ==> Confirmed(ConfirmPair(g, pair).value))
  {
  }
}
