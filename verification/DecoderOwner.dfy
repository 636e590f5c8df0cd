/**
 The decoder gate as its owner works it: fields changed in place, one staged write at a time. Every
 method is proved to make exactly the step of the model that its event names, and so to keep what every
 step keeps, and to answer what its caller may rely on.
 */
module DecoderOwner {
  import opened Basics
  import opened Decoder
  import opened DecoderRuns
  import opened DecoderAnswers
  import Spec = Decoder

  class Owner {
    const group: nat
    var required: Option<Hash>
    var confirmed: Option<Hash>
    var compiled: Option<Pair>
    var transition: Option<Pair>
    var write: Option<Pending>
    var failed: bool
    var rebuild: bool
    /** What the group's log made durable, and what it has taken and not yet made durable. */
    var durable: seq<Record>
    var queue: Option<Record>

    function TheGate(): Gate
      reads this
    {
      Gate(required, confirmed, compiled, transition)
    }

    ghost function View(): System
      reads this
    {
      System(group, Node(TheGate(), write, failed, rebuild), durable, queue)
    }

    /** Opens a group from its durable records. */
    constructor (g: nat, records: seq<Record>)
      requires Spec.Replay(records).Ok?
      ensures View() == System(g, NewNode(Spec.Replay(records).value), records, None)
    {
      var stated := Spec.Replay(records).value;
      group := g;
      required, transition := stated.required, stated.transition;
      confirmed, compiled, write, failed, rebuild := None, None, None, false, stated.required.Some?;
      durable, queue := records, None;
    }

    method FinishConfirmation(drain: Drain) returns (r: Result<bool>)
      modifies `rebuild, `failed
      ensures View() == old(View()).(node := Rebuilt(old(View()).node, drain))
      ensures r == if old(rebuild) && Confirmed(TheGate()) && drain != Drains then Err(Refused) else Ok(true)
      ensures r.Ok? ==> failed == old(failed) && (Confirmed(TheGate()) ==> !rebuild)
    {
      if !rebuild || !Confirmed(TheGate()) {
        return Ok(true);
      }
      match drain {
        case Drains =>
          rebuild := false;
          return Ok(true);
        case Deferred =>
          return Err(Refused);
        case Breaks =>
          failed := true;
          return Err(Refused);
      }
    }

    method Confirm(hash: Hash, drain: Drain) returns (r: Result<bool>)
      modifies `confirmed, `rebuild, `failed
      ensures View() == Step(old(View()), EvConfirm(hash, drain))
      ensures old(failed) ==> r == Err(Failed)
      ensures !old(failed) && Spec.Confirm(old(TheGate()), hash).Err? ==> r == Err(Mismatch)
      ensures Inv(old(View())) ==> Inv(View()) && Extends(old(View()), View())
      ensures r.Ok? ==> confirmed == Some(hash) && Confirmed(TheGate()) && !rebuild && !failed
      ensures Inv(old(View())) ==> ConfirmGives(old(View()), hash, drain, View(), r)
    {
      EventKeeps(View(), EvConfirm(hash, drain));
      ConfirmHolds(View(), hash, drain);
      hide Inv, Extends, Rebuilt, TakenGives, Contradicts;
      if failed {
        return Err(Failed);
      }
      if (required.Some? && required.value != hash) || (confirmed.Some? && confirmed.value != hash)
         || (transition.Some? && compiled != transition) {
        return Err(Mismatch);
      }
      confirmed := Some(hash);
      r := FinishConfirmation(drain);
    }

    method ConfirmPair(pair: Pair, drain: Drain) returns (r: Result<bool>)
      modifies `confirmed, `compiled, `rebuild, `failed
      ensures View() == Step(old(View()), EvConfirmPair(pair, drain))
      ensures old(failed) ==> r == Err(Failed)
      ensures !old(failed) && Spec.ConfirmPair(old(TheGate()), pair).Err? ==> r == Err(Mismatch)
      ensures Inv(old(View())) ==> Inv(View()) && Extends(old(View()), View())
      ensures r.Ok? ==> compiled == Some(pair) && Confirmed(TheGate()) && !rebuild && !failed
      ensures Inv(old(View())) ==> ConfirmPairGives(old(View()), pair, drain, View(), r)
    {
      EventKeeps(View(), EvConfirmPair(pair, drain));
      ConfirmPairHolds(View(), pair, drain);
      hide Inv, Extends, Rebuilt, TakenGives, ContradictsPair;
      if failed {
        return Err(Failed);
      }
      if pair.predecessor == pair.successor
         || (required.Some? && required.value != pair.predecessor)
         || (confirmed.Some? && confirmed.value != pair.predecessor)
         || (compiled.Some? && compiled.value != pair)
         || (transition.Some? && transition.value != pair) {
        return Err(Mismatch);
      }
      compiled, confirmed := Some(pair), Some(pair.predecessor);
      r := FinishConfirmation(drain);
    }

    function Check(): Option<Error>
      reads this
    {
      if failed then Some(Failed) else if !Confirmed(TheGate()) then Some(Unconfirmed) else None
    }

    method Stage(wanted: Result<Option<Intent>>, refused: bool) returns (r: Result<bool>)
      requires Check().None?
      modifies `write
      ensures View() == old(View()).(node := Staged(old(View()).node, group, wanted, refused))
      ensures r ==
        if wanted.Err? then Err(wanted.error)
        else if wanted.value.None? then Ok(true)
        else if old(write).Some? || refused then Err(PersistencePending)
        else
          var record := RecordOf(group, wanted.value.value);
          if record.Err? then Err(record.error) else Ok(true)
    {
      if wanted.Err? {
        return Err(wanted.error);
      }
      if wanted.value.None? {
        return Ok(true);
      }
      if write.Some? || refused {
        return Err(PersistencePending);
      }
      var record := RecordOf(group, wanted.value.value);
      if record.Err? {
        return Err(record.error);
      }
      write := Some(Pending(wanted.value.value, false));
      return Ok(true);
    }

    method BeginFloor(hash: Hash, refused: bool) returns (r: Result<bool>)
      modifies `write
      ensures View() == Step(old(View()), EvBeginFloor(hash, refused))
      ensures old(Check()).Some? ==> r == Err(old(Check()).value)
      ensures r.Ok? && write != old(write) ==> write == Some(Pending(Baseline(hash), false))
      ensures Inv(old(View())) ==> Inv(View()) && Extends(old(View()), View())
      ensures r.Ok? ==> required == Some(hash) || IntentOf(write) == Some(Baseline(hash))
      ensures Inv(old(View())) ==> BeginFloorGives(old(View()), hash, refused, View(), r)
    {
      EventKeeps(View(), EvBeginFloor(hash, refused));
      FloorHolds(View(), hash);
      hide Inv, Extends, RecordOf;
      if Check().Some? {
        return Err(Check().value);
      }
      r := Stage(FloorWrite(TheGate(), hash, IntentOf(write)), refused);
    }

    method BeginTransition(refused: bool) returns (r: Result<bool>)
      modifies `write
      ensures View() == Step(old(View()), EvBeginTransition(refused))
      ensures old(Check()).Some? ==> r == Err(old(Check()).value)
      ensures r.Ok? && write != old(write) ==>
        compiled.Some? && write == Some(Pending(Transition(compiled.value), false))
      ensures Inv(old(View())) ==> Inv(View()) && Extends(old(View()), View())
      ensures r.Ok? ==>
        compiled.Some? && (transition == compiled || IntentOf(write) == Some(Transition(compiled.value)))
      ensures Inv(old(View())) ==> BeginTransitionGives(old(View()), refused, View(), r)
    {
      EventKeeps(View(), EvBeginTransition(refused));
      TransitionHolds(View());
      hide Inv, Extends, RecordOf;
      if Check().Some? {
        return Err(Check().value);
      }
      r := Stage(TransitionWrite(TheGate(), IntentOf(write)), refused);
    }

    /** The log makes durable what it took. */
    method Sync()
      modifies `durable, `queue
      ensures View() == Step(old(View()), EvSync)
      ensures Inv(old(View())) ==> Inv(View()) && Extends(old(View()), View())
    {
      EventKeeps(View(), EvSync);
      hide Inv, Extends;
      if queue.Some? {
        durable, queue := durable + [queue.value], None;
      }
    }

    /** Answers whether nothing is staged any more: true only once the write is durable. */
    method Poll(blocking: bool, refused: bool, admission: Admission, completion: Completion) returns (r: Result<bool>)
      requires Possible(View(), EvPoll(blocking, refused, admission, completion))
      modifies this
      ensures View() == Step(old(View()), EvPoll(blocking, refused, admission, completion))
      ensures r == Ok(true) ==> write.None? && !failed
      ensures r == Ok(false) ==> write.Some?
      ensures Inv(old(View())) ==> Inv(View()) && Extends(old(View()), View())
      ensures Inv(old(View())) && r == Ok(true) ==>
        Spec.Replay(durable) == Ok(Stated(true, required, transition))
      ensures Inv(old(View())) ==> PollGives(old(View()), blocking, refused, admission, completion, View(), r)
    {
      hide Inv, Extends, Spec.Replay, RecordOf;
      PollHolds(View(), blocking, refused, admission, completion);
      if Check().Some? {
        return Err(Check().value);
      }
      if write.None? {
        return Ok(true);
      }
      if refused {
        return Err(PersistencePending);
      }
      var pending := write.value;
      write := None;
      if !pending.taken {
        if admission == NoRoom {
          write := Some(pending);
          return Ok(false);
        }
        if admission == Broken {
          failed := true;
          return Err(Failed);
        }
        var record := RecordOf(group, pending.intent);
        if record.Ok? {
          queue := Some(record.value);
          pending := pending.(taken := true);
        }
        if !blocking {
          write := Some(pending);
          return Ok(false);
        }
      }
      r := Observe(pending, completion);
    }

    /** Looks whether the write given to the log is durable; only then is what it states the gate's. */
    method Observe(pending: Pending, completion: Completion) returns (r: Result<bool>)
      requires write.None? && !failed
      modifies `write, `failed, `required, `transition, `durable, `queue
      ensures var was := old(View());
        match completion
        case NotYet => r == Ok(false) && View() == was.(node := was.node.(write := Some(pending)))
        case Lost => r == Err(Failed) && View() == was.(node := was.node.(failed := true))
        case Durable =>
          && r == Ok(true)
          && View() == Synced(was).(node := was.node.(gate := Written(was.node.gate, pending.intent)))
    {
      match completion {
        case NotYet =>
          write := Some(pending);
          return Ok(false);
        case Lost =>
          failed := true;
          return Err(Failed);
        case Durable =>
          Sync();
          match pending.intent {
            case Baseline(hash) => required := Some(hash);
            case Transition(pair) => transition := Some(pair);
          }
          return Ok(true);
      }
    }
  }

  lemma EventKeeps(y: System, ev: Event)
    ensures Inv(y) && Possible(y, ev) ==> Inv(Step(y, ev)) && Extends(y, Step(y, ev))
  {
    hide Inv, Extends, Possible, Step;
    if Inv(y) && Possible(y, ev) {
      StepKeeps(y, ev);
    }
  }

  lemma ConfirmHolds(y: System, hash: Hash, drain: Drain)
    ensures var g := y.node.gate; var h := g.(confirmed := Some(hash));
      Inv(y) ==>
        && Spec.Confirm(g, hash) == (if Contradicts(g, hash) then Err(Mismatch) else Ok(h))
        && (!Contradicts(g, hash) ==>
              TakenGives(y, h, drain, y.(node := Rebuilt(y.node.(gate := h), drain)),
                         if y.node.rebuild && drain != Drains then Err(Refused) else Ok(true)))
  {
    hide Inv, TakenGives;
    if Inv(y) {
      ConfirmExactly(y, hash);
      if !Contradicts(y.node.gate, hash) {
        TakenExactly(y, y.node.gate.(confirmed := Some(hash)), drain);
      }
    }
  }

  lemma ConfirmPairHolds(y: System, pair: Pair, drain: Drain)
    ensures var g := y.node.gate; var h := g.(compiled := Some(pair), confirmed := Some(pair.predecessor));
      Inv(y) ==>
        && Spec.ConfirmPair(g, pair) == (if ContradictsPair(g, pair) then Err(Mismatch) else Ok(h))
        && (!ContradictsPair(g, pair) ==>
              TakenGives(y, h, drain, y.(node := Rebuilt(y.node.(gate := h), drain)),
                         if y.node.rebuild && drain != Drains then Err(Refused) else Ok(true)))
  {
    hide Inv, TakenGives;
    if Inv(y) {
      ConfirmPairExactly(y, pair);
      if !ContradictsPair(y.node.gate, pair) {
        TakenExactly(y, y.node.gate.(compiled := Some(pair), confirmed := Some(pair.predecessor)), drain);
      }
    }
  }

  lemma FloorHolds(y: System, hash: Hash)
    ensures var n := y.node;
      Inv(y) ==>
        && CheckFault(n) == Barred(n) && RecordOf(y.group, Baseline(hash)).Ok?
        && (Barred(n).None? ==>
              FloorWrite(n.gate, hash, IntentOf(n.write)) ==
                if n.gate.confirmed != Some(hash) then Err(Unconfirmed)
                else if n.gate.required.Some? || n.write.Some? then Ok(None)
                else Ok(Some(Baseline(hash))))
  {
    hide Inv;
    if Inv(y) {
      BarredExactly(y);
      if Barred(y.node).None? {
        FloorExactly(y, hash);
      }
    }
  }

  lemma TransitionHolds(y: System)
    ensures var n := y.node;
      Inv(y) ==>
        && CheckFault(n) == Barred(n)
        && (Barred(n).None? ==>
              && TransitionWrite(n.gate, IntentOf(n.write)) ==
                   (if n.gate.compiled.None? then Err(Unconfirmed)
                    else if n.gate.required.None? then Err(if n.write.Some? then PersistencePending else Unconfirmed)
                    else if n.gate.transition.Some? || n.write.Some? then Ok(None)
                    else Ok(Some(Transition(n.gate.compiled.value))))
              && (n.gate.compiled.Some? ==> RecordOf(y.group, Transition(n.gate.compiled.value)).Ok?))
  {
    hide Inv;
    if Inv(y) {
      BarredExactly(y);
      if Barred(y.node).None? {
        TransitionExactly(y);
      }
    }
  }

  /** With nothing staged any more after a poll, what the gate states is durable. */
  lemma PollHolds(y: System, blocking: bool, refused: bool, admission: Admission, completion: Completion)
    ensures var ev := EvPoll(blocking, refused, admission, completion); var z := Step(y, ev);
      Inv(y) && Possible(y, ev) ==>
        && Inv(z) && Extends(y, z)
        && (!z.node.failed && z.node.write.None? ==> Spec.Replay(z.durable) == Ok(StatedBy(z.node.gate)))
        && CheckFault(y.node) == Barred(y.node)
        && (y.node.write.Some? ==> RecordOf(y.group, y.node.write.value.intent).Ok?)
  {
    hide Inv, Extends, Possible, Step, Spec.Replay, RecordOf;
    if Inv(y) {
      BarredExactly(y);
      if y.node.write.Some? {
        StagedHasRecord(y);
      }
    }
    var ev := EvPoll(blocking, refused, admission, completion);
    EventKeeps(y, ev);
    var z := Step(y, ev);
    if Inv(z) && !z.node.failed && z.node.write.None? {
      SettledIsDurable(z);
    }
  }
}
