/**
 A saved acknowledgment can always be completed: whatever calls and crashes come between, while it is
 pending its manifest still names the saved receipts, and its answer retires exactly its prefix.
 */
module ManagedAcknowledge {
  import opened Basics
  import opened ManagedModel
  import opened ManagedSafety
  import opened ManagedCalls
  import opened ManagedRuns
  import opened ManagedTheorems

  // ---------------------------------------------------------------- a manifest that still stands

  /** The acknowledgment names this ordinal's saved receipt, which can be read. */
  ghost predicate Acked(env: Env, d: Disk, o: nat, ack: Ack) {
    && Holds(d.state, o) && o in d.receipts
    && (EntryAt(d.state, o).prepared || EntryAt(d.state, o).seal.Some?)
    && ack == Ack(d.receipts[o].key, env.receiptHash(d.receipts[o]))
  }

  ghost predicate Stands(env: Env, d: Disk, c: Command) {
    && c.Acknowledge? && StreamOf(d.state) == Ok(c.stream) && c.expectedRevision == d.state.revision
    && c.receipts != [] && c.through == d.state.retired + |c.receipts|
    && forall i :: 0 <= i < |c.receipts| ==> Acked(env, d, d.state.retired + 1 + i, c.receipts[i])
  }

  lemma AckedExtends(env: Env, d: Disk, e: Disk, o: nat, ack: Ack)
    requires Acked(env, d, o, ack) && Extends(d, e) && e.state.retired == d.state.retired
    ensures Acked(env, e, o, ack)
  {
  }

  /** It stands as long as the store only binds more, with the retired mark and the revision as they were. */
  lemma StandsExtends(env: Env, d: Disk, e: Disk, c: Command)
    requires Stands(env, d, c) && Extends(d, e) && d.state.registered.Some?
    requires e.state.retired == d.state.retired && e.state.revision == d.state.revision
    ensures Stands(env, e, c)
  {
    assert StreamOf(e.state) == StreamOf(d.state);
    forall i | 0 <= i < |c.receipts|
      ensures Acked(env, e, e.state.retired + 1 + i, c.receipts[i])
    {
      AckedExtends(env, d, e, d.state.retired + 1 + i, c.receipts[i]);
    }
  }

  // ---------------------------------------------------------------- gathering it

  /** A gathered manifest names, in order, the receipts read for the leading entries. */
  lemma {:induction false} ManifestGathers(env: Env, d: Disk, entries: seq<Entry>, maximum: nat, i: nat)
    requires Manifest(env, d, entries, maximum).Ok? && i < |Manifest(env, d, entries, maximum).value|
    ensures var acks := Manifest(env, d, entries, maximum).value;
      && |acks| <= |entries| && SavedReceipt(env, d, entries[i]).Ok? && SavedReceipt(env, d, entries[i]).value.Some?
      && var r := SavedReceipt(env, d, entries[i]).value.value; acks[i] == Ack(r.key, env.receiptHash(r))
    decreases maximum
  {
    hide SavedReceipt;
    var rest := Manifest(env, d, entries[1..], maximum - 1).value;
    if i > 0 {
      ManifestGathers(env, d, entries[1..], maximum - 1, i - 1);
    } else if rest != [] {
      ManifestGathers(env, d, entries[1..], maximum - 1, 0);
    }
  }

  /** A receipt read for an entry is its file's and carries its key. */
  lemma ReadIsSaved(env: Env, d: Disk, o: nat)
    requires Inv(env, d) && Holds(d.state, o)
    requires SavedReceipt(env, d, EntryAt(d.state, o)).Ok? && SavedReceipt(env, d, EntryAt(d.state, o)).value.Some?
    ensures var r := SavedReceipt(env, d, EntryAt(d.state, o)).value.value;
      Acked(env, d, o, Ack(r.key, env.receiptHash(r))) && r.key.ordinal == o
  {
    WindowOf(env, d.state);
    ReceiptReadableWhen(env, d, o);
    assert EntryFits(env, PreparedAt(d, o), ReceiptAt(d, o), EntryAt(d.state, o));
    hide Fault, SavedReceipt;
  }

  lemma GatheredStands(env: Env, d: Disk, acks: seq<Ack>, maximum: nat)
    requires Inv(env, d) && Manifest(env, d, d.state.entries, maximum) == Ok(acks) && acks != []
    ensures Stands(env, d, Acknowledge(StreamOf(d.state).value, d.state.revision, acks[|acks| - 1].key.ordinal, acks))
  {
    WindowOf(env, d.state);
    hide Inv, Fault, Manifest, SavedReceipt, Acked, EntryValid;
    forall i | 0 <= i < |acks|
      ensures Acked(env, d, d.state.retired + 1 + i, acks[i]) && acks[i].key.ordinal == d.state.retired + 1 + i
    {
      GatheredAcked(env, d, acks, maximum, i);
    }
  }

  lemma GatheredAcked(env: Env, d: Disk, acks: seq<Ack>, maximum: nat, i: nat)
    requires Inv(env, d) && Manifest(env, d, d.state.entries, maximum) == Ok(acks) && i < |acks|
    ensures Acked(env, d, d.state.retired + 1 + i, acks[i]) && acks[i].key.ordinal == d.state.retired + 1 + i
  {
    hide Inv, Fault, Manifest, SavedReceipt, Acked;
    ManifestGathers(env, d, d.state.entries, maximum, i);
    assert EntryAt(d.state, d.state.retired + 1 + i) == d.state.entries[i];
    ReadIsSaved(env, d, d.state.retired + 1 + i);
  }

  // ---------------------------------------------------------------- while it is pending

  /** A save that leaves the pending control leaves the retired mark and the revision. */
  ghost predicate KeepsPending(s: State, w: Write) {
    w.Save? && w.state.control == s.control ==> w.state.retired == s.retired && w.state.revision == s.revision
  }

  lemma ActKeepsPending(env: Env, d: Disk, call: Call)
    requires d.state.control.Some? && d.state.registered.Some?
    ensures forall w <- Act(env, d, call).writes :: KeepsPending(d.state, w)
  {
    hide Fault, Prepare, RecordReceipt, RegistrationFault, RecordAcknowledged, RecordSealed, RecordClosed,
      AnswersControl, StreamOf;
    match call
    case CallPrepare(id, intent, expand) =>
      if env.digest(intent).Some? {
        PrepareKeepsPending(env, d, id, intent, env.digest(intent).value, expand);
      }
    case CallRecordReceipt(id, r) => RecordReceiptKeepsPending(env, d, id, r);
    case CallRecordControl(r) => RecordControlAnswers(env, d, r);
    case _ =>
  }

  lemma PrepareKeepsPending(env: Env, d: Disk, id: OperationId, intent: Intent, digest: Hash,
                            expand: Key -> Result<Request>)
    ensures forall w <- Prepare(env, d, id, intent, digest, expand).writes :: KeepsPending(d.state, w)
  {
    hide Fault, PreparedFault, StreamOf;
  }

  lemma RecordReceiptKeepsPending(env: Env, d: Disk, id: OperationId, r: Receipt)
    ensures forall w <- RecordReceipt(env, d, id, r).writes :: KeepsPending(d.state, w)
  {
    hide Fault, ReadPrepared, ProvesRequest, StreamOf;
  }

  /** Recording an answer saves no state that still has the control pending. */
  lemma RecordControlAnswers(env: Env, d: Disk, receipt: ControlReceipt)
    requires d.state.control.Some?
    ensures forall w <- RecordControl(env, d, receipt).writes :: w.Save? ==> w.state.control.None?
  {
    hide Fault, ManifestFault, Proves, AnswersControl, StreamOf;
  }

  ghost predicate Settles(s: State, t: State) {
    t.control == s.control ==> t.retired == s.retired && t.revision == s.revision
  }

  lemma {:induction false} PendingSettles(d: Disk, writes: seq<Write>)
    requires forall w <- writes :: KeepsPending(d.state, w)
    ensures Settles(d.state, After(d, writes).state)
    decreases |writes|
  {
    if writes != [] {
      PendingSettles(d, writes[..|writes| - 1]);
      assert writes[|writes| - 1] in writes;
    }
  }

  lemma StepSettles(env: Env, d: Disk, ev: Event)
    requires Inv(env, d) && d.state.control.Some?
    ensures Settles(d.state, Step(env, d, ev).state)
  {
    PendingIsRegistered(env, d);
    LoadSound(env, d);
    LoadKeepsPending(env, d);
    hide Inv, Load, Sound;
    var loaded := After(d, Load(env, d).writes);
    ActKeepsPending(env, loaded, ev.call);
    hide Act, KeepsPending;
    forall w | w in Made(env, d, ev)
      ensures KeepsPending(d.state, w)
    {
      assert w in RunOf(env, d, ev.call).writes;
      if w in Act(env, loaded, ev.call).writes {
        KeepsPendingLoaded(d.state, loaded.state, w);
      }
    }
    PendingSettles(d, Made(env, d, ev));
  }

  lemma KeepsPendingLoaded(s: State, t: State, w: Write)
    requires KeepsPending(t, w) && t.control == s.control && t.retired == s.retired && t.revision == s.revision
    ensures KeepsPending(s, w)
  {
  }

  lemma LoadKeepsPending(env: Env, d: Disk)
    ensures forall w <- Load(env, d).writes :: KeepsPending(d.state, w)
  {
    hide Fault, FilesPresent;
    if d.state.garbage <= d.state.retired {
      CleanupSavesNothing(d.state.garbage, d.state.retired);
    }
  }

  /** While the control stays pending its manifest stands, over any events. */
  lemma {:induction false} PendingStands(env: Env, d: Disk, events: seq<Event>, i: nat, j: nat, c: Control)
    requires Inv(env, d) && i <= j <= |events| && Stands(env, At(env, d, events, i), c.command)
    requires forall k :: i <= k <= j ==> At(env, d, events, k).state.control == Some(c)
    ensures Stands(env, At(env, d, events, j), c.command)
    decreases j
  {
    hide Inv, Step, Stands, Reach, MarksExtend, EntriesExtend, FilesExtend;
    if i < j {
      PendingStands(env, d, events, i, j - 1, c);
      var before := At(env, d, events, j - 1);
      RunsKeepInv(env, d, events, j - 1);
      AtStep(env, d, events, j - 1);
      StepKeeps(env, before, events[j - 1]);
      StepSettles(env, before, events[j - 1]);
      PendingIsRegistered(env, before);
      StandsExtends(env, before, At(env, d, events, j), c.command);
    }
  }

  lemma PendingIsRegistered(env: Env, d: Disk)
    requires Inv(env, d) && d.state.control.Some?
    ensures d.state.registered.Some?
  {
  }

  // ---------------------------------------------------------------- completing it

  /** The answer the registry gives a saved acknowledgment it committed. */
  ghost predicate AnswersAck(env: Env, s: State, c: Control, r: ControlReceipt) {
    && c.command.Acknowledge? && AnswersControl(env, c, r) && PriorIndex(s).Ok? && r.raftIndex > PriorIndex(s).value
    && r.outcome == Acknowledged(c.command.stream, s.revision + 1, c.command.through)
  }

  ghost predicate ReadsAs(env: Env, d: Disk, e: Entry, ack: Ack) {
    var saved := SavedReceipt(env, d, e);
    saved.Ok? && saved.value.Some? && ack == Ack(saved.value.value.key, env.receiptHash(saved.value.value))
  }

  lemma {:induction false} StandingChecks(env: Env, d: Disk, entries: seq<Entry>, acks: seq<Ack>)
    requires |acks| <= |entries|
    requires forall i :: 0 <= i < |acks| ==> ReadsAs(env, d, entries[i], acks[i])
    ensures ManifestFault(env, d, entries, acks) == None
    decreases |acks|
  {
    hide SavedReceipt;
    if acks != [] {
      forall i | 0 <= i < |acks[1..]|
        ensures ReadsAs(env, d, entries[1..][i], acks[1..][i])
      {
        assert acks[1..][i] == acks[i + 1] && entries[1..][i] == entries[i + 1];
      }
      StandingChecks(env, d, entries[1..], acks[1..]);
    }
  }

  lemma StandingReads(env: Env, d: Disk, c: Command)
    requires Inv(env, d) && Stands(env, d, c)
    ensures |c.receipts| <= |d.state.entries| && ManifestFault(env, d, d.state.entries, c.receipts) == None
  {
    WindowOf(env, d.state);
    var last := |c.receipts| - 1;
    assert Acked(env, d, d.state.retired + 1 + last, c.receipts[last]);
    hide Fault, EntriesFit, FilesBetween, ControlFits, SavedReceipt, ManifestFault;
    forall i | 0 <= i < |c.receipts|
      ensures ReadsAs(env, d, d.state.entries[i], c.receipts[i])
    {
      var o := d.state.retired + 1 + i;
      assert Acked(env, d, o, c.receipts[i]);
      ReceiptReadableWhen(env, d, o);
      assert EntryAt(d.state, o) == d.state.entries[i];
    }
    StandingChecks(env, d, d.state.entries, c.receipts);
  }

  function Drained(s: State, c: Command, r: ControlReceipt): State
    requires c.Acknowledge? && |c.receipts| <= |s.entries|
  {
    s.(entries := s.entries[|c.receipts|..], retired := c.through, revision := s.revision + 1,
       control := None, lastControl := Some(r))
  }

  lemma DrainedIsValid(env: Env, d: Disk, c: Command, r: ControlReceipt)
    requires Inv(env, d) && Stands(env, d, c) && d.state.garbage == d.state.retired && |c.receipts| <= |d.state.entries|
    requires d.state.registered.Some?
    ensures Fault(env, Drained(d.state, c, r)) == None
  {
    WindowOf(env, d.state);
    var s, t := d.state, Drained(d.state, c, r);
    assert StreamOf(t) == StreamOf(s);
    forall i | 0 <= i < |t.entries|
      ensures EntryValid(t.entries[i], StreamOf(t).value, t.retired + 1 + i)
    {
      assert t.entries[i] == s.entries[i + |c.receipts|];
      assert EntryValid(s.entries[i + |c.receipts|], StreamOf(s).value, s.retired + 1 + (i + |c.receipts|));
    }
    hide EntryValid;
  }

  lemma StandingCompletes(env: Env, d: Disk, r: ControlReceipt)
    requires Inv(env, d) && d.state.control.Some? && d.state.garbage == d.state.retired && d.state.revision < U64_MAX
    requires Stands(env, d, d.state.control.value.command) && AnswersAck(env, d.state, d.state.control.value, r)
    requires d.state.lastControl != Some(r)
    ensures |d.state.control.value.command.receipts| <= |d.state.entries|
    ensures RecordControl(env, d, r) == Run([Save(Drained(d.state, d.state.control.value.command, r))], Ok(Done))
  {
    var c := d.state.control.value.command;
    WindowOf(env, d.state);
    StandingReads(env, d, c);
    PendingIsRegistered(env, d);
    DrainedIsValid(env, d, c, r);
    hide Inv, Fault, ManifestFault, StreamOf, AnswersControl;
  }

  /** A saved acknowledgment that is still pending is completed by its answer, whatever happened since it
      was saved: exactly the ordinals its manifest names are retired, and nothing else changes place. */
  lemma SavedAcknowledgmentCompletes(env: Env, d: Disk, events: seq<Event>, i: nat, j: nat, c: Control,
                                     r: ControlReceipt)
    requires Inv(env, d) && i <= j <= |events| && Stands(env, At(env, d, events, i), c.command)
    requires forall k :: i <= k <= j ==> At(env, d, events, k).state.control == Some(c)
    requires var before := At(env, d, events, j);
      before.state.revision < U64_MAX && before.state.lastControl != Some(r) && AnswersAck(env, before.state, c, r)
    ensures var before := At(env, d, events, j); var after := Step(env, before, Completed(CallRecordControl(r)));
      && RunOf(env, before, CallRecordControl(r)).answer == Ok(Done)
      && |c.command.receipts| <= |before.state.entries|
      && after.state.retired == c.command.through == before.state.retired + |c.command.receipts|
      && after.state.entries == before.state.entries[|c.command.receipts|..]
      && after.state.frontier == before.state.frontier
      && after.state.control.None?
  {
    hide Reach, Stands, AnswersAck;
    PendingStands(env, d, events, i, j, c);
    RunsKeepInv(env, d, events, j);
    var before := At(env, d, events, j);
    PendingIsRegistered(env, before);
    hide Inv;
    LoadSound(env, before);
    var loaded := After(before, Load(env, before).writes);
    SoundEnds(env, before, Load(env, before));
    StandsExtends(env, before, loaded, c.command);
    LoadedAnswers(env, before.state, loaded.state, c, r);
    hide Load;
    StandingCompletes(env, loaded, r);
    StandingLength(env, loaded, c.command);
    hide RecordControl;
    CompletedSplits(env, before, CallRecordControl(r));
    AfterOne(loaded, Save(Drained(loaded.state, c.command, r)));
  }

  lemma StandingLength(env: Env, d: Disk, c: Command)
    requires Stands(env, d, c)
    ensures c.Acknowledge? && c.through == d.state.retired + |c.receipts|
  {
  }

  lemma LoadedAnswers(env: Env, s: State, t: State, c: Control, r: ControlReceipt)
    requires AnswersAck(env, s, c, r) && t == s.(garbage := s.retired)
    ensures AnswersAck(env, t, c, r)
  {
  }

  /** And preparing one saves it standing. */
  lemma PreparedStands(env: Env, d: Disk, id: nat, maximum: nat)
    requires Inv(env, d) && RunOf(env, d, CallPrepareAcknowledgment(id, maximum)).answer.Ok?
    ensures var answer := RunOf(env, d, CallPrepareAcknowledgment(id, maximum)).answer.value;
      var e := Step(env, d, Completed(CallPrepareAcknowledgment(id, maximum)));
      answer.Asked? && e.state.control == Some(answer.control) && Stands(env, e, answer.control.command)
  {
    CompletedSplits(env, d, CallPrepareAcknowledgment(id, maximum));
    hide RunOf, Load, Step, PrepareAcknowledgment, Inv, Stands;
    AskedStands(env, After(d, Load(env, d).writes), id, maximum);
  }

  lemma AskedStands(env: Env, d: Disk, id: nat, maximum: nat)
    requires Inv(env, d) && PrepareAcknowledgment(env, d, id, maximum).answer.Ok?
    ensures var run := PrepareAcknowledgment(env, d, id, maximum); var e := After(d, run.writes);
      && run.answer.value.Asked? && e.state.control == Some(run.answer.value.control)
      && Stands(env, e, run.answer.value.control.command)
  {
    hide Inv, Fault, Manifest, Stands, ControlFault, StreamOf, After;
    var acks := Manifest(env, d, d.state.entries, maximum).value;
    GatheredStands(env, d, acks, maximum);
    var command := Acknowledge(StreamOf(d.state).value, d.state.revision, acks[|acks| - 1].key.ordinal, acks);
    var s := d.state.(control := Some(Control(d.state.context, id, command)));
    AfterOne(d, Save(s));
    StandsWithControl(env, d, s, command);
  }

  lemma StandsWithControl(env: Env, d: Disk, s: State, c: Command)
    requires Stands(env, d, c) && s == d.state.(control := s.control)
    ensures Stands(env, d.(state := s), c)
  {
    forall i | 0 <= i < |c.receipts|
      ensures Acked(env, d.(state := s), s.retired + 1 + i, c.receipts[i])
    {
      assert Acked(env, d, d.state.retired + 1 + i, c.receipts[i]);
    }
  }
}
