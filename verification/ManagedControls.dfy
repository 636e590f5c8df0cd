/**
 A saved seal and a saved close can be completed like a saved acknowledgment: whatever calls and crashes come
 between, while one is pending its answer is taken; a seal's exactly unless another receipt was saved.
 */
module ManagedControls {
  import opened Basics
  import opened ManagedModel
  import opened ManagedSafety
  import opened ManagedCalls
  import opened ManagedRuns
  import opened ManagedTheorems
  import opened ManagedAcknowledge

  // ---------------------------------------------------------------- while it is pending

  /** The marks a pending control was saved over. */
  ghost predicate MarksStay(s: State, t: State) {
    t.retired == s.retired && t.revision == s.revision && MarksExtend(s, t)
  }

  lemma {:induction false} PendingMarksStay(env: Env, d: Disk, events: seq<Event>, i: nat, j: nat, c: Control)
    requires Inv(env, d) && i <= j <= |events|
    requires forall k :: i <= k <= j ==> At(env, d, events, k).state.control == Some(c)
    ensures MarksStay(At(env, d, events, i).state, At(env, d, events, j).state)
    decreases j
  {
    hide Inv, Step, Reach, EntriesExtend, FilesExtend;
    if i < j {
      PendingMarksStay(env, d, events, i, j - 1, c);
      var before := At(env, d, events, j - 1);
      RunsKeepInv(env, d, events, j - 1);
      AtStep(env, d, events, j - 1);
      StepKeeps(env, before, events[j - 1]);
      StepSettles(env, before, events[j - 1]);
    }
  }

  /** The answer is to this control and newer than the last. */
  ghost predicate Answers(env: Env, s: State, c: Control, r: ControlReceipt) {
    && AnswersControl(env, c, r) && PriorIndex(s).Ok? && r.raftIndex > PriorIndex(s).value
    && s.lastControl != Some(r)
  }

  lemma AnswersLoaded(env: Env, s: State, t: State, c: Control, r: ControlReceipt)
    requires Answers(env, s, c, r) && t == s.(garbage := s.retired)
    ensures Answers(env, t, c, r)
  {
  }

  /** A call run over what loading leaves. */
  lemma RunSplits(env: Env, d: Disk, call: Call, o: nat)
    requires Inv(env, d) && Loads(env, call)
    ensures var loaded := After(d, Load(env, d).writes);
      && Inv(env, loaded) && loaded.state == d.state.(garbage := d.state.retired)
      && (d.state.retired < o ==> ReceiptAt(loaded, o) == ReceiptAt(d, o))
      && RunOf(env, d, call).answer == Act(env, loaded, call).answer
      && Step(env, d, Completed(call)) == After(loaded, Act(env, loaded, call).writes)
  {
    hide Inv, Fault, Sound;
    LoadSound(env, d);
    hide Load, Act;
    var loaded := After(d, Load(env, d).writes);
    AfterConcat(d, Load(env, d).writes, Act(env, loaded, call).writes);
  }

  // ---------------------------------------------------------------- a close

  ghost predicate CloseStands(s: State, c: Command) {
    && c.Close? && StreamOf(s) == Ok(c.stream) && c.expectedRevision == s.revision
    && s.stopped && s.retired == s.frontier == c.issuedThrough
  }

  /** Preparing a close saves it standing. */
  lemma PreparedCloseStands(env: Env, d: Disk, id: nat)
    requires Inv(env, d) && RunOf(env, d, CallPrepareClose(id)).answer.Ok?
    ensures var answer := RunOf(env, d, CallPrepareClose(id)).answer.value;
      var e := Step(env, d, Completed(CallPrepareClose(id)));
      answer.Asked? && e.state.control == Some(answer.control) && CloseStands(e.state, answer.control.command)
  {
    CompletedSplits(env, d, CallPrepareClose(id));
    var loaded := After(d, Load(env, d).writes);
    hide RunOf, Load, Step, Inv, Fault, ControlFault, After;
    var s := loaded.state;
    var command := Close(StreamOf(s).value, s.revision, s.frontier);
    AfterOne(loaded, Save(s.(control := Some(Control(s.context, id, command)))));
  }

  lemma CloseKeepsStanding(env: Env, s: State, t: State, c: Command)
    requires CloseStands(s, c) && MarksStay(s, t) && s.registered.Some?
    ensures CloseStands(t, c)
  {
  }

  lemma StandingCloses(env: Env, d: Disk, r: ControlReceipt)
    requires Inv(env, d) && d.state.control.Some? && Answers(env, d.state, d.state.control.value, r)
    requires CloseStands(d.state, d.state.control.value.command)
    requires var stream := d.state.control.value.command.stream; r.outcome == Closed(stream, stream.generation)
    ensures RecordControl(env, d, r) ==
      Run([Save(d.state.(closed := true, control := None, lastControl := Some(r)))], Ok(Done))
  {
    PendingIsRegistered(env, d);
    hide EntriesFit, FilesBetween, EntryValid, AnswersControl;
  }

  /** A saved close that is still pending is completed by its answer: the stream is closed and nothing else
      changes. */
  lemma SavedCloseCompletes(env: Env, d: Disk, events: seq<Event>, i: nat, j: nat, c: Control, r: ControlReceipt)
    requires Inv(env, d) && i <= j <= |events| && CloseStands(At(env, d, events, i).state, c.command)
    requires forall k :: i <= k <= j ==> At(env, d, events, k).state.control == Some(c)
    requires Answers(env, At(env, d, events, j).state, c, r)
    requires r.outcome == Closed(c.command.stream, c.command.stream.generation)
    ensures var s := At(env, d, events, j); var after := Step(env, s, Completed(CallRecordControl(r)));
      && RunOf(env, s, CallRecordControl(r)).answer == Ok(Done)
      && after.state ==
         s.state.(garbage := s.state.retired, closed := true, control := None, lastControl := Some(r))
  {
    RunsKeepInv(env, d, events, i);
    RunsKeepInv(env, d, events, j);
    PendingMarksStay(env, d, events, i, j, c);
    hide *;
    PendingIsRegistered(env, At(env, d, events, i));
    CloseKeepsStanding(env, At(env, d, events, i).state, At(env, d, events, j).state, c.command);
    CloseAnswered(env, At(env, d, events, j), c, r);
  }

  lemma CloseAnswered(env: Env, d: Disk, c: Control, r: ControlReceipt)
    requires Inv(env, d) && d.state.control == Some(c) && CloseStands(d.state, c.command)
    requires Answers(env, d.state, c, r) && r.outcome == Closed(c.command.stream, c.command.stream.generation)
    ensures var after := Step(env, d, Completed(CallRecordControl(r)));
      && RunOf(env, d, CallRecordControl(r)).answer == Ok(Done)
      && after.state ==
         d.state.(garbage := d.state.retired, closed := true, control := None, lastControl := Some(r))
  {
    hide Inv, Load, RecordControl, RunOf, Step, After, Answers, CloseStands;
    RunSplits(env, d, CallRecordControl(r), 0);
    var loaded := After(d, Load(env, d).writes);
    CloseLoaded(env, d.state, loaded.state, c.command);
    AnswersLoaded(env, d.state, loaded.state, c, r);
    StandingCloses(env, loaded, r);
    AfterOne(loaded, Save(loaded.state.(closed := true, control := None, lastControl := Some(r))));
  }

  lemma CloseLoaded(env: Env, s: State, t: State, c: Command)
    requires CloseStands(s, c) && t == s.(garbage := s.retired)
    ensures CloseStands(t, c)
  {
  }

  // ---------------------------------------------------------------- a seal

  ghost predicate SealStands(s: State, c: Command) {
    c.SealOne? && c.expectedRevision == s.revision
  }

  /** Preparing a seal saves it standing. */
  lemma PreparedSealStands(env: Env, d: Disk, operation: OperationId, id: nat)
    requires Inv(env, d) && RunOf(env, d, CallPrepareSeal(operation, id)).answer.Ok?
    ensures var answer := RunOf(env, d, CallPrepareSeal(operation, id)).answer.value;
      var e := Step(env, d, Completed(CallPrepareSeal(operation, id)));
      answer.Asked? && e.state.control == Some(answer.control) && SealStands(e.state, answer.control.command)
  {
    CompletedSplits(env, d, CallPrepareSeal(operation, id));
    var loaded := After(d, Load(env, d).writes);
    hide RunOf, Load, Step, Inv, After;
    SealSaves(env, loaded, operation, id);
  }

  lemma SealSaves(env: Env, d: Disk, operation: OperationId, id: nat)
    requires PrepareSeal(env, d, operation, id).answer.Ok?
    ensures var run := PrepareSeal(env, d, operation, id); var s := After(d, run.writes).state;
      run.answer.value.Asked? && s.control == Some(run.answer.value.control) && SealStands(s, s.control.value.command)
  {
    hide Fault, ControlFault, After, Binding, Index;
    AfterOne(d, PrepareSeal(env, d, operation, id).writes[0]);
  }

  /** The registry's answer to a seal: a receipt of exactly what was sealed. */
  ghost predicate SealedBy(env: Env, c: Command, r: ControlReceipt) {
    && c.SealOne? && r.outcome.Sealed? && r.outcome.receipt.raftIndex <= r.raftIndex
    && Proves(env, r.outcome.receipt, c.key, c.family, c.hash)
  }

  /** No receipt but this one is saved for the ordinal. */
  ghost predicate NoOther(d: Disk, o: nat, r: Receipt) {
    ReceiptAt(d, o) == None || ReceiptAt(d, o) == Some(r)
  }

  /** A pending seal's entry is found. */
  lemma SealedFound(env: Env, d: Disk)
    requires Inv(env, d) && d.state.control.Some? && d.state.control.value.command.SealOne?
    ensures var c := d.state.control.value.command;
      && Holds(d.state, c.key.ordinal) && Index(d.state, IdOf(c.key)) == Ok(c.key.ordinal - d.state.retired - 1)
      && EntryAt(d.state, c.key.ordinal).key == c.key && EntryAt(d.state, c.key.ordinal).seal.Some?
  {
    var c := d.state.control.value.command;
    WindowOf(env, d.state);
    var e := EntryAt(d.state, c.key.ordinal);
    assert e in d.state.entries && e.key == c.key;
    assert EntryValid(e, StreamOf(d.state).value, c.key.ordinal);
    assert KeyOf(IdOf(c.key), d.state.context) == c.key;
    IndexFindsLive(env, d.state, IdOf(c.key));
    hide Fault, EntryValid, Index;
  }

  lemma WriteReceiptWhen(env: Env, d: Disk, o: nat, r: Receipt)
    requires Inv(env, d) && Holds(d.state, o)
    ensures var e := EntryAt(d.state, o);
      && e.key.ordinal == o
      && (WriteReceipt(env, d, e, r).answer.Ok? <==> NoOther(d, o, r))
      && (NoOther(d, o, r) ==> ReceiptAt(After(d, WriteReceipt(env, d, e, r).writes), o) == Some(r)
                               && After(d, WriteReceipt(env, d, e, r).writes).state == d.state)
  {
    WindowOf(env, d.state);
    var e := EntryAt(d.state, o);
    assert EntryFits(env, PreparedAt(d, o), ReceiptAt(d, o), e);
    hide Fault;
    AfterNone(d);
    AfterOne(d, PutReceipt(o, r));
  }

  /** The state a seal's answer leaves: its entry carries the receipt's hash. */
  function Settled(env: Env, s: State, c: Command, r: ControlReceipt): State
    requires c.SealOne? && r.outcome.Sealed? && Holds(s, c.key.ordinal)
  {
    var i := c.key.ordinal - s.retired - 1;
    s.(entries := s.entries[i := s.entries[i].(receipt := Some(env.receiptHash(r.outcome.receipt)))],
       revision := s.revision + 1, control := None, lastControl := Some(r))
  }

  lemma SettledIsValid(env: Env, d: Disk, c: Command, r: ControlReceipt)
    requires Inv(env, d) && d.state.registered.Some? && c.SealOne? && r.outcome.Sealed?
    requires Holds(d.state, c.key.ordinal) && EntryAt(d.state, c.key.ordinal).seal.Some?
    ensures Fault(env, Settled(env, d.state, c, r)) == None
  {
    WindowOf(env, d.state);
    var s, t := d.state, Settled(env, d.state, c, r);
    assert StreamOf(t) == StreamOf(s);
    assert EntriesValid(t.entries, StreamOf(t).value, t.retired);
  }

  lemma StandingSeals(env: Env, d: Disk, r: ControlReceipt)
    requires Inv(env, d) && d.state.control.Some? && Answers(env, d.state, d.state.control.value, r)
    requires SealStands(d.state, d.state.control.value.command) && SealedBy(env, d.state.control.value.command, r)
    requires d.state.revision < U64_MAX
    ensures var c := d.state.control.value.command; var run := RecordControl(env, d, r);
      && Holds(d.state, c.key.ordinal)
      && (run.answer == Ok(Done) <==> NoOther(d, c.key.ordinal, r.outcome.receipt))
      && (run.answer == Ok(Done) ==>
            && After(d, run.writes).state == Settled(env, d.state, c, r)
            && ReceiptAt(After(d, run.writes), c.key.ordinal) == Some(r.outcome.receipt))
      && (run.answer != Ok(Done) ==> run.writes == [] && run.answer.Err?)
  {
    var c := d.state.control.value.command;
    SealRuns(env, d, r);
    WriteReceiptWhen(env, d, c.key.ordinal, r.outcome.receipt);
    var written := WriteReceipt(env, d, EntryAt(d.state, c.key.ordinal), r.outcome.receipt);
    assert written.answer.Err? ==> written.writes == [];
    hide *;
    FollowedSave(d, written, Settled(env, d.state, c, r));
  }

  lemma FollowedSave(d: Disk, first: Run, s: State)
    requires first.answer.Err? ==> first.writes == []
    ensures var run := Follow(first, Run([Save(s)], Ok(Done)));
      && (run.answer == Ok(Done) <==> first.answer.Ok?) && (first.answer.Err? ==> run.writes == [] && run.answer.Err?)
      && (first.answer.Ok? ==>
            After(d, run.writes).state == s && After(d, run.writes).receipts == After(d, first.writes).receipts)
      && (forall o :: first.answer.Ok? ==> ReceiptAt(After(d, run.writes), o) == ReceiptAt(After(d, first.writes), o))
  {
    AfterConcat(d, first.writes, [Save(s)]);
    AfterOne(After(d, first.writes), Save(s));
    hide After;
  }

  /** What recording a standing seal's answer runs: the receipt written, then the state. */
  lemma SealRuns(env: Env, d: Disk, r: ControlReceipt)
    requires Inv(env, d) && d.state.control.Some? && Answers(env, d.state, d.state.control.value, r)
    requires SealStands(d.state, d.state.control.value.command) && SealedBy(env, d.state.control.value.command, r)
    requires d.state.revision < U64_MAX
    ensures var c := d.state.control.value.command;
      && Holds(d.state, c.key.ordinal)
      && RecordControl(env, d, r) ==
         Follow(WriteReceipt(env, d, EntryAt(d.state, c.key.ordinal), r.outcome.receipt),
                Run([Save(Settled(env, d.state, c, r))], Ok(Done)))
  {
    PendingIsRegistered(env, d);
    SealedFound(env, d);
    SettledIsValid(env, d, d.state.control.value.command, r);
    hide Inv, Fault, Index, Proves, AnswersControl, WriteReceipt;
  }

  /** A saved seal that is still pending is completed by its answer exactly unless another receipt was saved
      for the ordinal meanwhile: the receipt is then the one kept, the entry carries its hash, and no mark
      moves; otherwise the answer is refused and nothing is written but what loading does. */
  lemma SavedSealCompletes(env: Env, d: Disk, events: seq<Event>, i: nat, j: nat, c: Control, r: ControlReceipt)
    requires Inv(env, d) && i <= j <= |events| && SealStands(At(env, d, events, i).state, c.command)
    requires forall k :: i <= k <= j ==> At(env, d, events, k).state.control == Some(c)
    requires Answers(env, At(env, d, events, j).state, c, r) && SealedBy(env, c.command, r)
    requires At(env, d, events, j).state.revision < U64_MAX
    ensures var s := At(env, d, events, j); var after := Step(env, s, Completed(CallRecordControl(r)));
      var loaded := s.state.(garbage := s.state.retired); var o := c.command.key.ordinal;
      && Holds(s.state, o)
      && (RunOf(env, s, CallRecordControl(r)).answer == Ok(Done) <==> NoOther(s, o, r.outcome.receipt))
      && (NoOther(s, o, r.outcome.receipt) ==>
            after.state == Settled(env, loaded, c.command, r) && ReceiptAt(after, o) == Some(r.outcome.receipt))
      && (!NoOther(s, o, r.outcome.receipt) ==> after.state == loaded && ReceiptAt(after, o) == ReceiptAt(s, o))
  {
    RunsKeepInv(env, d, events, j);
    PendingMarksStay(env, d, events, i, j, c);
    hide *;
    SealKeepsStanding(At(env, d, events, i).state, At(env, d, events, j).state, c.command);
    SealAnswered(env, At(env, d, events, j), c, r);
  }

  lemma SealKeepsStanding(s: State, t: State, c: Command)
    requires SealStands(s, c) && MarksStay(s, t)
    ensures SealStands(t, c)
  {
  }

  lemma SealAnswered(env: Env, d: Disk, c: Control, r: ControlReceipt)
    requires Inv(env, d) && d.state.control == Some(c) && SealStands(d.state, c.command)
    requires Answers(env, d.state, c, r) && SealedBy(env, c.command, r) && d.state.revision < U64_MAX
    ensures var after := Step(env, d, Completed(CallRecordControl(r)));
      var loaded := d.state.(garbage := d.state.retired); var o := c.command.key.ordinal;
      && Holds(d.state, o)
      && (RunOf(env, d, CallRecordControl(r)).answer == Ok(Done) <==> NoOther(d, o, r.outcome.receipt))
      && (NoOther(d, o, r.outcome.receipt) ==>
            after.state == Settled(env, loaded, c.command, r) && ReceiptAt(after, o) == Some(r.outcome.receipt))
      && (!NoOther(d, o, r.outcome.receipt) ==> after.state == loaded && ReceiptAt(after, o) == ReceiptAt(d, o))
  {
    hide Inv, Load, RecordControl, RunOf, Step, After, Answers, SealedBy, Settled, ReceiptAt;
    RunSplits(env, d, CallRecordControl(r), c.command.key.ordinal);
    var loaded := After(d, Load(env, d).writes);
    AnswersLoaded(env, d.state, loaded.state, c, r);
    StandingSeals(env, loaded, r);
    AfterNone(loaded);
  }
}
