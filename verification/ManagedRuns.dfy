/**
 Whole runs of a managed store: any calls in any order, each completed or stopped after any of its
 writes. Ordinals are issued one after another and once each, nothing an ordinal binds is ever
 rebound, only retired ordinals lose their files, an ordinal retires only with its receipt saved and
 acknowledged, and once a drained stream has stopped nothing issues again.
 */
module ManagedRuns {
  import opened Basics
  import opened ManagedModel
  import opened ManagedSafety
  import opened ManagedCalls

  // ---------------------------------------------------------------- runs

  /** A call that ran to its end, or that a crash stopped after some of its writes. */
  datatype Event = Completed(call: Call) | Cut(call: Call, writes: nat)

  ghost function Made(env: Env, d: Disk, ev: Event): seq<Write> {
    var writes := RunOf(env, d, ev.call).writes;
    if ev.Cut? && ev.writes <= |writes| then writes[..ev.writes] else writes
  }

  ghost function Step(env: Env, d: Disk, ev: Event): Disk {
    After(d, Made(env, d, ev))
  }

  ghost function Reach(env: Env, d: Disk, events: seq<Event>): Disk {
    if events == [] then d else Step(env, Reach(env, d, events[..|events| - 1]), events[|events| - 1])
  }

  /** The disk after the first `i` events. */
  ghost function At(env: Env, d: Disk, events: seq<Event>, i: nat): Disk
    requires i <= |events|
  {
    Reach(env, d, events[..i])
  }

  lemma CreatedInv(env: Env, registration: Control)
    ensures Create(env, registration).Ok? ==> Inv(env, Create(env, registration).value)
  {
  }

  lemma StepKeeps(env: Env, d: Disk, ev: Event)
    requires Inv(env, d)
    ensures Inv(env, Step(env, d, ev)) && Extends(d, Step(env, d, ev))
  {
    hide Inv, Extends, RunOf;
    CallSound(env, d, ev.call);
    var run := RunOf(env, d, ev.call);
    assert run.writes[..|run.writes|] == run.writes;
    assert exists n :: 0 <= n <= |run.writes| && Made(env, d, ev) == run.writes[..n];
  }

  lemma AtStep(env: Env, d: Disk, events: seq<Event>, i: nat)
    requires i < |events|
    ensures At(env, d, events, i + 1) == Step(env, At(env, d, events, i), events[i])
  {
    hide Step;
    assert events[..i + 1][..i] == events[..i] && events[..i + 1][i] == events[i];
  }

  lemma {:induction false} RunsKeepInv(env: Env, d: Disk, events: seq<Event>, i: nat)
    requires Inv(env, d) && i <= |events|
    ensures Inv(env, At(env, d, events, i))
  {
    hide Inv, Extends, Step;
    if i > 0 {
      RunsKeepInv(env, d, events, i - 1);
      AtStep(env, d, events, i - 1);
      StepKeeps(env, At(env, d, events, i - 1), events[i - 1]);
    }
  }

  /** Nothing bound before is changed after, whatever happened in between. */
  lemma {:induction false} RunsExtend(env: Env, d: Disk, events: seq<Event>, i: nat, j: nat)
    requires Inv(env, d) && i <= j <= |events|
    ensures Extends(At(env, d, events, i), At(env, d, events, j))
    decreases j
  {
    hide Inv, Extends, Step;
    if i == j {
      ExtendsSelf(At(env, d, events, i));
    } else {
      RunsExtend(env, d, events, i, j - 1);
      RunsKeepInv(env, d, events, j - 1);
      AtStep(env, d, events, j - 1);
      StepKeeps(env, At(env, d, events, j - 1), events[j - 1]);
      ExtendsTrans(At(env, d, events, i), At(env, d, events, j - 1), At(env, d, events, j));
    }
  }

  // ---------------------------------------------------------------- which writes move the marks

  ghost predicate LeavesMarks(s: State, writes: seq<Write>) {
    forall w <- writes :: w.Save? ==> w.state.frontier == s.frontier && w.state.retired == s.retired
  }

  lemma {:induction false} MarksLeft(d: Disk, writes: seq<Write>)
    requires LeavesMarks(d.state, writes)
    ensures After(d, writes).state.frontier == d.state.frontier && After(d, writes).state.retired == d.state.retired
    decreases |writes|
  {
    if writes != [] {
      MarksLeft(d, writes[..|writes| - 1]);
      assert writes[|writes| - 1] in writes;
    }
  }

  lemma {:induction false} CleanupSavesNothing(garbage: nat, retired: nat)
    requires garbage <= retired
    ensures forall w <- Cleanup(garbage, retired) :: !w.Save?
    decreases retired
  {
    if garbage < retired {
      CleanupSavesNothing(garbage, retired - 1);
    }
  }

  lemma LoadLeavesMarks(env: Env, d: Disk)
    ensures LeavesMarks(d.state, Load(env, d).writes)
  {
    hide Fault, FilesPresent;
    if d.state.garbage <= d.state.retired {
      CleanupSavesNothing(d.state.garbage, d.state.retired);
    }
  }

  predicate IsRetiring(d: Disk, call: Call) {
    call.CallRecordControl? && d.state.control.Some? && d.state.control.value.command.Acknowledge?
    && call.answer.outcome.Acknowledged?
  }

  lemma PrepareLeavesMarks(env: Env, d: Disk, id: OperationId, intent: Intent, digest: Hash,
                           expand: Key -> Result<Request>)
    ensures LeavesMarks(d.state, Prepare(env, d, id, intent, digest, expand).writes)
  {
    hide Fault, PreparedFault, StreamOf;
  }

  lemma ControlsLeaveMarks(env: Env, d: Disk, call: Call)
    requires call.CallPrepareSeal? || call.CallPrepareClose? || call.CallPrepareAcknowledgment?
    ensures LeavesMarks(d.state, Act(env, d, call).writes)
  {
    hide Fault, StreamOf, Binding, Manifest;
  }

  lemma ReceiptLeavesMarks(env: Env, d: Disk, id: OperationId, r: Receipt)
    ensures LeavesMarks(d.state, RecordReceipt(env, d, id, r).writes)
  {
    hide Fault, StreamOf, ReadPrepared, ProvesRequest;
  }

  lemma SealedLeavesMarks(env: Env, d: Disk, command: Command, receipt: ControlReceipt)
    requires command.SealOne? && receipt.outcome.Sealed?
    ensures LeavesMarks(d.state, RecordSealed(env, d, command, receipt).writes)
  {
    hide Fault, StreamOf, Proves;
  }

  lemma AnswerLeavesMarks(env: Env, d: Disk, call: Call)
    requires call.CallRecordControl? && !IsRetiring(d, call)
    ensures LeavesMarks(d.state, Act(env, d, call).writes)
  {
    if d.state.control.Some? && d.state.control.value.command.SealOne? && call.answer.outcome.Sealed? {
      SealedLeavesMarks(env, d, d.state.control.value.command, call.answer);
    }
    hide Fault, RecordAcknowledged, RecordSealed, AnswersControl;
  }

  /** Only reserving moves the frontier; only an acknowledgment moves the retired mark. */
  lemma ActLeavesMarks(env: Env, d: Disk, call: Call)
    requires !call.CallReserve? && !IsRetiring(d, call)
    ensures LeavesMarks(d.state, Act(env, d, call).writes)
  {
    hide Fault, RegistrationFault, Prepare, PrepareSeal, PrepareClose, PrepareAcknowledgment, RecordReceipt,
      RecordControl;
    if call.CallPrepare? {
      if env.digest(call.intent).Some? {
        PrepareLeavesMarks(env, d, call.id, call.intent, env.digest(call.intent).value, call.expand);
      }
    } else if call.CallPrepareSeal? || call.CallPrepareClose? || call.CallPrepareAcknowledgment? {
      ControlsLeaveMarks(env, d, call);
    } else if call.CallRecordReceipt? {
      ReceiptLeavesMarks(env, d, call.id, call.receipt);
    } else if call.CallRecordControl? {
      AnswerLeavesMarks(env, d, call);
    }
  }

  lemma PrefixLeavesMarks(s: State, writes: seq<Write>, n: nat)
    requires LeavesMarks(s, writes) && n <= |writes|
    ensures LeavesMarks(s, writes[..n])
  {
  }

  /** A prefix of two runs of writes is a prefix of the first, or all of it and a prefix of the second. */
  lemma PrefixSplits(made: seq<Write>, a: seq<Write>, b: seq<Write>)
    requires made <= a + b
    ensures |made| <= |a| ==> made == a[..|made|]
    ensures |made| >= |a| ==> made == a + made[|a|..] && made[|a|..] <= b
    ensures made == a + b ==> made[|a|..] == b
  {
  }

  /** What a completed or cut call's writes are: part of loading, or loading and part of the act. */
  lemma MadeSplits(env: Env, d: Disk, ev: Event) returns (loaded: Disk, acted: seq<Write>)
    requires Inv(env, d)
    ensures loaded.state.frontier == d.state.frontier && loaded.state.retired == d.state.retired
    ensures acted != [] ==>
      loaded == After(d, Load(env, d).writes) && acted <= Act(env, loaded, ev.call).writes
    ensures Step(env, d, ev) == After(loaded, acted)
    ensures ev.Completed? && RunOf(env, d, ev.call) != Refuse(InvalidIntent) ==>
      loaded == After(d, Load(env, d).writes) && acted == Act(env, loaded, ev.call).writes
  {
    hide Inv, Extends, Act;
    LoadSound(env, d);
    LoadLeavesMarks(env, d);
    hide Load, LeavesMarks, Sound;
    var load := Load(env, d).writes;
    var made := Made(env, d, ev);
    loaded, acted := After(d, made), [];
    if ev.call.CallPrepare? && env.digest(ev.call.intent).None? {
      loaded := d;
    } else {
      var e := After(d, load);
      var act := Act(env, e, ev.call).writes;
      assert RunOf(env, d, ev.call).writes == load + act;
      PrefixSplits(made, load, act);
      hide RunOf, After;
      if |made| < |load| {
        PrefixLeavesMarks(d.state, load, |made|);
        MarksLeft(d, made);
        AfterNone(loaded);
      } else {
        acted := made[|load|..];
        AfterConcat(d, load, acted);
        MarksLeft(d, load);
        loaded := e;
      }
    }
  }
}
