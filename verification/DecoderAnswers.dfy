/**
 What each call on a decoder gate answers and leaves, exactly, from any state that meets the invariant, and that
 every transition the records permit can be brought into effect.
 */
module DecoderAnswers {
  import opened Basics
  import opened Decoder
  import opened DecoderRuns

  ghost predicate Denied(y: System, z: System, r: Result<bool>, error: Error) {
    z == y && r == Err(error)
  }

  // ---------------------------------------------------------------- which records are read back

  ghost predicate HasKind(records: seq<Record>, kind: Kind) {
    exists i :: 0 <= i < |records| && records[i].kind == kind
  }

  ghost predicate HasFloor(records: seq<Record>, hash: Hash) {
    exists i :: 0 <= i < |records| && records[i].kind == DecoderFloor && DecodeFloor(records[i]) == Ok(hash)
  }

  ghost predicate HasTransition(records: seq<Record>, pair: Pair) {
    exists i :: 0 <= i < |records| && records[i].kind == DecoderTransition && DecodeTransition(records[i]) == Ok(pair)
  }

  /** A record that may follow those before it: one identity, then one floor, then one transition from it. */
  ghost predicate MayFollow(before: seq<Record>, r: Record) {
    match r.kind
    case Identity => !HasKind(before, Identity)
    case DecoderFloor => HasKind(before, Identity) && !HasKind(before, DecoderFloor) && DecodeFloor(r).Ok?
    case DecoderTransition =>
      && !HasKind(before, DecoderTransition) && DecodeTransition(r).Ok?
      && HasFloor(before, DecodeTransition(r).value.predecessor)
    case Other => true
  }

  ghost predicate Orderly(records: seq<Record>) {
    forall i :: 0 <= i < |records| ==> MayFollow(records[..i], records[i])
  }

  /** What the records state is what is in them. */
  ghost predicate StatesThem(records: seq<Record>, s: Stated) {
    && (s.identity <==> HasKind(records, Identity)) && (s.required.Some? ==> s.identity)
    && (s.required.Some? <==> HasKind(records, DecoderFloor))
    && (forall hash :: s.required == Some(hash) <==> HasFloor(records, hash))
    && (s.transition.Some? <==> HasKind(records, DecoderTransition))
    && (forall pair :: s.transition == Some(pair) <==> HasTransition(records, pair))
  }

  lemma OneRecordMore(records: seq<Record>, r: Record)
    ensures var all := records + [r];
      && (forall kind :: HasKind(all, kind) <==> HasKind(records, kind) || r.kind == kind)
      && (forall hash :: HasFloor(all, hash) <==>
            HasFloor(records, hash) || (r.kind == DecoderFloor && DecodeFloor(r) == Ok(hash)))
      && (forall pair :: HasTransition(all, pair) <==>
            HasTransition(records, pair) || (r.kind == DecoderTransition && DecodeTransition(r) == Ok(pair)))
  {
    hide DecodeFloor, DecodeTransition;
    var all := records + [r];
    assert all[|records|] == r && forall i :: 0 <= i < |records| ==> all[i] == records[i];
  }

  lemma OrderlyMore(records: seq<Record>, r: Record)
    ensures Orderly(records + [r]) <==> Orderly(records) && MayFollow(records, r)
  {
    hide MayFollow;
    var all := records + [r];
    assert all[..|records|] == records && all[|records|] == r;
    assert forall i :: 0 <= i < |records| ==> all[..i] == records[..i] && all[i] == records[i];
  }

  /** A group's records are read back if and only if each may follow those before it, as what is in them; any others
      are corrupt. */
  lemma {:induction false} ReplayExactly(records: seq<Record>)
    ensures Orderly(records) ==> Replay(records).Ok? && StatesThem(records, Replay(records).value)
    ensures !Orderly(records) ==> Replay(records) == Err(Corruption)
  {
    if records != [] {
      var before, last := records[..|records| - 1], records[|records| - 1];
      assert before + [last] == records;
      ReplayExactly(before);
      OrderlyMore(before, last);
      OneRecordMore(before, last);
      hide Orderly, Replay, HasKind, HasFloor, HasTransition;
      if Orderly(before) {
        ReplayAppend(before, last);
        RecordExactly(before, Replay(before).value, last);
      } else {
        ReplayStops(before, last);
      }
    }
  }

  lemma ReplayStops(records: seq<Record>, r: Record)
    requires Replay(records).Err?
    ensures Replay(records + [r]) == Replay(records)
  {
    assert (records + [r])[..|records|] == records;
  }

  lemma RecordExactly(records: seq<Record>, s: Stated, r: Record)
    requires StatesThem(records, s)
    ensures var t := ReplayRecord(s, r);
      && (MayFollow(records, r) ==>
            && t.Ok? && t.value.identity == (s.identity || r.kind == Identity)
            && t.value.required == (if r.kind == DecoderFloor then Some(DecodeFloor(r).value) else s.required)
            && t.value.transition ==
               (if r.kind == DecoderTransition then Some(DecodeTransition(r).value) else s.transition))
      && (!MayFollow(records, r) ==> t == Err(Corruption))
  {
    hide HasKind, HasFloor, HasTransition;
  }

  // ---------------------------------------------------------------- confirming

  /** What is confirmed differs from what is required or was confirmed before, or a transition needs its pair. */
  ghost predicate Contradicts(g: Gate, hash: Hash) {
    || (g.required.Some? && g.required != Some(hash)) || (g.confirmed.Some? && g.confirmed != Some(hash))
    || (g.transition.Some? && g.compiled.None?)
  }

  ghost predicate ContradictsPair(g: Gate, pair: Pair) {
    || pair.predecessor == pair.successor
    || (g.required.Some? && g.required != Some(pair.predecessor))
    || (g.confirmed.Some? && g.confirmed != Some(pair.predecessor))
    || (g.compiled.Some? && g.compiled != Some(pair)) || (g.transition.Some? && g.transition != Some(pair))
  }

  /** A confirmation taken: a recovery that waited for it is rebuilt by the drain, or is refused. */
  ghost predicate TakenGives(y: System, g: Gate, drain: Drain, z: System, r: Result<bool>) {
    var n := y.node.(gate := g);
    if !n.rebuild then r == Ok(true) && z == y.(node := n)
    else match drain
      case Drains => r == Ok(true) && z == y.(node := n.(rebuild := false))
      case Deferred => r == Err(Refused) && z == y.(node := n)
      case Breaks => r == Err(Refused) && z == y.(node := n.(failed := true))
  }

  ghost predicate ConfirmGives(y: System, hash: Hash, drain: Drain, z: System, r: Result<bool>) {
    var g := y.node.gate;
    if y.node.failed then Denied(y, z, r, Failed)
    else if Contradicts(g, hash) then Denied(y, z, r, Mismatch)
    else TakenGives(y, g.(confirmed := Some(hash)), drain, z, r)
  }

  ghost predicate ConfirmPairGives(y: System, pair: Pair, drain: Drain, z: System, r: Result<bool>) {
    var g := y.node.gate;
    if y.node.failed then Denied(y, z, r, Failed)
    else if ContradictsPair(g, pair) then Denied(y, z, r, Mismatch)
    else TakenGives(y, g.(compiled := Some(pair), confirmed := Some(pair.predecessor)), drain, z, r)
  }

  lemma TakenExactly(y: System, g: Gate, drain: Drain)
    requires Confirmed(g)
    ensures TakenGives(y, g, drain, y.(node := Rebuilt(y.node.(gate := g), drain)),
                       if y.node.rebuild && drain != Drains then Err(Refused) else Ok(true))
  {
  }

  lemma ConfirmExactly(y: System, hash: Hash)
    requires Inv(y)
    ensures Confirm(y.node.gate, hash) ==
      if Contradicts(y.node.gate, hash) then Err(Mismatch) else Ok(y.node.gate.(confirmed := Some(hash)))
    ensures !Contradicts(y.node.gate, hash) ==> Confirmed(y.node.gate.(confirmed := Some(hash)))
  {
    FitsAt(y);
    hide Inv;
  }

  lemma ConfirmPairExactly(y: System, pair: Pair)
    requires Inv(y)
    ensures var g := y.node.gate.(compiled := Some(pair), confirmed := Some(pair.predecessor));
      && ConfirmPair(y.node.gate, pair) == (if ContradictsPair(y.node.gate, pair) then Err(Mismatch) else Ok(g))
      && (!ContradictsPair(y.node.gate, pair) ==> Confirmed(g))
  {
    FitsAt(y);
    hide Inv;
  }

  // ---------------------------------------------------------------- staging

  /** Why no call gets past the gate: the member failed, or what is required is not confirmed. */
  ghost function Barred(n: Node): Option<Error> {
    if n.failed then Some(Failed)
    else if (n.gate.required.Some? && n.gate.confirmed.None?) || (n.gate.transition.Some? && n.gate.compiled.None?)
    then Some(Unconfirmed)
    else None
  }

  lemma BarredExactly(y: System)
    requires Inv(y)
    ensures CheckFault(y.node) == Barred(y.node)
  {
    FitsAt(y);
    hide Inv;
  }

  ghost predicate Stages(y: System, intent: Intent, refused: bool, z: System, r: Result<bool>) {
    if refused then Denied(y, z, r, PersistencePending)
    else r == Ok(true) && z == y.(node := y.node.(write := Some(Pending(intent, false))))
  }

  /** A floor is staged exactly when it is confirmed, nothing is required or staged and other work allows it; where
      it is required or staged already, nothing is done. */
  ghost predicate BeginFloorGives(y: System, hash: Hash, refused: bool, z: System, r: Result<bool>) {
    var n := y.node;
    if Barred(n).Some? then Denied(y, z, r, Barred(n).value)
    else if n.gate.confirmed != Some(hash) then Denied(y, z, r, Unconfirmed)
    else if n.gate.required.Some? || n.write.Some? then z == y && r == Ok(true)
    else Stages(y, Baseline(hash), refused, z, r)
  }

  /** The compiled transition is staged exactly when its floor is required, no transition is and none is staged. */
  ghost predicate BeginTransitionGives(y: System, refused: bool, z: System, r: Result<bool>) {
    var n := y.node;
    if Barred(n).Some? then Denied(y, z, r, Barred(n).value)
    else if n.gate.compiled.None? then Denied(y, z, r, Unconfirmed)
    else if n.gate.required.None? then Denied(y, z, r, if n.write.Some? then PersistencePending else Unconfirmed)
    else if n.gate.transition.Some? || n.write.Some? then z == y && r == Ok(true)
    else Stages(y, Transition(n.gate.compiled.value), refused, z, r)
  }

  lemma FloorExactly(y: System, hash: Hash)
    requires Inv(y) && Barred(y.node).None?
    ensures var n := y.node;
      FloorWrite(n.gate, hash, IntentOf(n.write)) ==
        if n.gate.confirmed != Some(hash) then Err(Unconfirmed)
        else if n.gate.required.Some? || n.write.Some? then Ok(None)
        else Ok(Some(Baseline(hash)))
    ensures RecordOf(y.group, Baseline(hash)).Ok?
  {
    hide Replay;
    var unseen :| InvWith(y, unseen);
  }

  lemma TransitionExactly(y: System)
    requires Inv(y) && Barred(y.node).None?
    ensures var n := y.node;
      TransitionWrite(n.gate, IntentOf(n.write)) ==
        if n.gate.compiled.None? then Err(Unconfirmed)
        else if n.gate.required.None? then Err(if n.write.Some? then PersistencePending else Unconfirmed)
        else if n.gate.transition.Some? || n.write.Some? then Ok(None)
        else Ok(Some(Transition(n.gate.compiled.value)))
    ensures y.node.gate.compiled.Some? ==> RecordOf(y.group, Transition(y.node.gate.compiled.value)).Ok?
  {
    hide Replay;
    var unseen :| InvWith(y, unseen);
  }

  // ---------------------------------------------------------------- polling

  /** The state once the log was given the staged write. */
  ghost function Given(y: System): System
    requires y.node.write.Some? && RecordOf(y.group, y.node.write.value.intent).Ok?
  {
    var pending := y.node.write.value;
    if pending.taken then y
    else y.(node := y.node.(write := Some(Pending(pending.intent, true))),
            queue := Some(RecordOf(y.group, pending.intent).value))
  }

  /** A write the log has: it waits, is lost and fails the member, or is durable and the gate's. */
  ghost predicate WatchGives(y: System, completion: Completion, z: System, r: Result<bool>)
    requires y.node.write.Some?
  {
    var n := y.node;
    match completion
    case NotYet => z == y && r == Ok(false)
    case Lost => r == Err(Failed) && z == y.(node := n.(write := None, failed := true))
    case Durable =>
      var g := match n.write.value.intent
        case Baseline(hash) => n.gate.(required := Some(hash))
        case Transition(pair) => n.gate.(transition := Some(pair));
      var durable := if y.queue.Some? then y.durable + [y.queue.value] else y.durable;
      r == Ok(true) && z == System(y.group, n.(gate := g, write := None), durable, None)
  }

  /** A poll answers yes with nothing staged, or once the staged write is durable; it gives the log a write it does
      not have yet, and waits for one it has just given only where it blocks. */
  ghost predicate PollGives(y: System, blocking: bool, refused: bool, admission: Admission, completion: Completion,
                            z: System, r: Result<bool>)
  {
    var n := y.node;
    if Barred(n).Some? then Denied(y, z, r, Barred(n).value)
    else if n.write.None? then z == y && r == Ok(true)
    else if refused then Denied(y, z, r, PersistencePending)
    else if !n.write.value.taken && admission.NoRoom? then z == y && r == Ok(false)
    else if !n.write.value.taken && admission.Broken? then
      r == Err(Failed) && z == y.(node := n.(write := None, failed := true))
    else
      && RecordOf(y.group, n.write.value.intent).Ok?
      && if !n.write.value.taken && !blocking then z == Given(y) && r == Ok(false)
         else WatchGives(Given(y), completion, z, r)
  }

  lemma StagedHasRecord(y: System)
    requires Inv(y) && y.node.write.Some?
    ensures RecordOf(y.group, y.node.write.value.intent).Ok?
  {
    var unseen :| InvWith(y, unseen);
    FittingHasRecord(y.node.gate, y.group, y.node.write.value.intent);
  }

  // ---------------------------------------------------------------- what the records permit can be brought about

  const WRITES: Event := EvPoll(true, false, Taken, Durable)

  /** The pair is registered, its floor staged and written, and then the transition. */
  function Course(pair: Pair): seq<Event> {
    [EvConfirmPair(pair, Drains), EvBeginFloor(pair.predecessor, false), WRITES, EvBeginTransition(false), WRITES]
  }

  /** A gate with nothing confirmed yet, nothing staged, and records the pair agrees with. */
  ghost predicate Open(y: System, pair: Pair) {
    && Inv(y) && Ordered(pair) && !y.node.failed && y.node.write.None? && y.queue.None?
    && y.node.gate.confirmed.None? && y.node.gate.compiled.None?
    && (y.node.gate.required.Some? ==> y.node.gate.required == Some(pair.predecessor))
    && (y.node.gate.transition.Some? ==> y.node.gate.transition == Some(pair))
  }

  /** Registering the pair. */
  lemma Registers(y: System, pair: Pair)
    requires Open(y, pair)
    ensures var z := Step(y, EvConfirmPair(pair, Drains)); var g := y.node.gate;
      z == y.(node := Node(Gate(g.required, Some(pair.predecessor), Some(pair), g.transition), None, false, false))
  {
    hide Inv;
  }

  /** Staging a write and finishing it with one poll that blocks. */
  lemma Finishes(y: System, begin: Event, intent: Intent)
    requires Inv(y) && CheckFault(y.node).None? && y.node.write.None? && y.queue.None? && RecordOf(y.group, intent).Ok?
    requires Step(y, begin) == y.(node := y.node.(write := Some(Pending(intent, false))))
    ensures Possible(Step(y, begin), WRITES)
    ensures var z := Step(Step(y, begin), WRITES);
      z.node == y.node.(gate := Written(y.node.gate, intent)) && z.queue.None? && z.group == y.group
  {
    hide Inv;
  }

  lemma SkipsWrite(y: System)
    requires y.node.write.None? && y.queue.None?
    ensures Possible(y, WRITES) && Step(y, WRITES) == y
  {
  }

  /** From a gate that is registered, with its floor required or not. */
  lemma WritesFloor(y: System, pair: Pair)
    requires Inv(y) && !y.node.failed && y.node.write.None? && y.queue.None? && Ordered(pair)
    requires y.node.gate.confirmed == Some(pair.predecessor) && y.node.gate.compiled == Some(pair)
    requires y.node.gate.required.None? || y.node.gate.required == Some(pair.predecessor)
    requires y.node.gate.transition.None? || y.node.gate.transition == Some(pair)
    ensures var begun := Step(y, EvBeginFloor(pair.predecessor, false)); var z := Step(begun, WRITES);
      && Possible(begun, WRITES) && z.queue.None? && z.group == y.group
      && z.node == y.node.(gate := y.node.gate.(required := Some(pair.predecessor)))
  {
    FloorExactly(y, pair.predecessor);
    FitsAt(y);
    if y.node.gate.required.None? {
      Finishes(y, EvBeginFloor(pair.predecessor, false), Baseline(pair.predecessor));
    } else {
      SkipsWrite(y);
    }
    hide Inv;
  }

  lemma WritesTransition(y: System, pair: Pair)
    requires Inv(y) && !y.node.failed && y.node.write.None? && y.queue.None? && Ordered(pair)
    requires y.node.gate.confirmed == y.node.gate.required == Some(pair.predecessor)
    requires y.node.gate.compiled == Some(pair)
    requires y.node.gate.transition.None? || y.node.gate.transition == Some(pair)
    ensures var begun := Step(y, EvBeginTransition(false)); var z := Step(begun, WRITES);
      && Possible(begun, WRITES) && z.node == y.node.(gate := y.node.gate.(transition := Some(pair)))
  {
    TransitionExactly(y);
    if y.node.gate.transition.None? {
      Finishes(y, EvBeginTransition(false), Transition(pair));
    } else {
      SkipsWrite(y);
    }
    hide Inv;
  }

  /** Whatever its records state, a group just opened is brought by its course to any transition they agree with:
      first the floor is ready, and effective unless the transition was, and then the successor is both. */
  lemma CourseReaches(y: System, pair: Pair)
    requires Open(y, pair)
    ensures Happens(y, Course(pair))
    ensures var z := Reach(y, Course(pair)[..3]);
      && FloorReady(z.node, pair.predecessor)
      && (y.node.gate.transition.None? ==> Effective(z.node.gate) == Some(pair.predecessor))
    ensures var z := Reach(y, Course(pair)[..5]);
      FloorReady(z.node, pair.successor) && Effective(z.node.gate) == Some(pair.successor)
  {
    hide Inv, Possible, Step;
    var events := Course(pair);
    assert events[..0] == [];
    var a := Step(y, events[0]);
    assert Possible(y, events[0]) by { PossibleUnpolled(y, events[0]); }
    ReachStep(y, events, 0);
    Registers(y, pair);
    StepKeeps(y, events[0]);
    WritesFloor(a, pair);
    var b := Step(a, events[1]);
    assert Possible(a, events[1]) by { PossibleUnpolled(a, events[1]); }
    ReachStep(y, events, 1);
    StepKeeps(a, events[1]);
    var c := Step(b, events[2]);
    ReachStep(y, events, 2);
    StepKeeps(b, events[2]);
    WritesTransition(c, pair);
    var d := Step(c, events[3]);
    assert Possible(c, events[3]) by { PossibleUnpolled(c, events[3]); }
    ReachStep(y, events, 3);
    ReachStep(y, events, 4);
  }

  lemma PossibleUnpolled(y: System, ev: Event)
    requires !ev.EvPoll?
    ensures Possible(y, ev)
  {
  }

  /** From a group's making, the floor and then its successor become effective, and each is ready. */
  lemma NewGroupReaches(group: nat, identity: Record, pair: Pair)
    requires identity.kind == Identity && Ordered(pair)
    ensures var y := NewGroup(group, identity);
      && Happens(y, Course(pair))
      && (var z := Reach(y, Course(pair)[..3]);
          FloorReady(z.node, pair.predecessor) && Effective(z.node.gate) == Some(pair.predecessor))
      && (var z := Reach(y, Course(pair)[..5]);
          FloorReady(z.node, pair.successor) && Effective(z.node.gate) == Some(pair.successor))
  {
    OpenedInv(group, identity);
    hide Inv, Happens, Reach, FloorReady, Course;
    CourseReaches(NewGroup(group, identity), pair);
  }

  /** And so it is from any moment of any run, once the group is reopened: a member that failed, or lost what it
      staged, comes to every transition its durable records agree with. */
  lemma ReopenedReaches(y: System, events: seq<Event>, i: nat, pair: Pair)
    requires Inv(y) && Happens(y, events) && i <= |events| && Ordered(pair)
    requires var stated := Replay(Reach(y, events[..i]).durable);
      stated.Ok? ==> (stated.value.required.Some? ==> stated.value.required == Some(pair.predecessor))
                     && (stated.value.transition.Some? ==> stated.value.transition == Some(pair))
    ensures var x := Step(Reach(y, events[..i]), EvCrash);
      && Happens(x, Course(pair)) && FloorReady(Reach(x, Course(pair)[..5]).node, pair.successor)
  {
    hide Inv, Happens, Reach, FloorReady, Course, Replay;
    RunsKeepInv(y, events, i);
    RecoversWhole(y, events, i);
    var z := Reach(y, events[..i]);
    PossibleUnpolled(z, EvCrash);
    StepKeeps(z, EvCrash);
    CourseReaches(Step(z, EvCrash), pair);
  }
}
