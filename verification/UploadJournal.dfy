/**
 The upload journal as it works: one open transfer, its state, payload and rolling hash changed in
 place. Each method makes exactly the writes its specification states, and after a write that
 failed answers nothing until the transfer is opened again.
 */
module UploadJournal {
  import opened Basics
  import opened UploadModel
  import opened UploadRuns
  import opened UploadAnswers
  import Spec = UploadModel

  class Journal {
    const env: Env
    var state: State
    /** What is on disk. */
    var saved: State
    var payload: Bytes
    /** The bytes the rolling hash has taken. */
    var prefix: Bytes
    var failed: bool

    ghost function OnDisk(): Disk
      reads this
    {
      Disk(saved, payload)
    }

    /** What an open journal knows is what it saved. */
    ghost predicate Coherent()
      reads this
    {
      !failed ==> state == saved && state.staged <= |payload| && prefix == payload[..state.staged]
    }

    /** The run was made whole, or cut where a write failed. */
    ghost predicate Ran(d: Disk, run: Run, fault: Option<nat>, answer: Result<Answer>)
      reads this
    {
      if fault.Some? && fault.value < |run.writes| then
        failed && OnDisk() == After(d, run.writes[..fault.value]) && answer == Err(Failed)
      else
        !failed && OnDisk() == After(d, run.writes) && answer == run.answer
    }

    constructor (e: Env, d: Disk)
      requires Open(e, d, d.state.context).answer.Ok?
      ensures env == e && Coherent() && !failed && OnDisk() == After(d, Open(e, d, d.state.context).writes)
    {
      env := e;
      state, saved, failed := d.state, d.state, false;
      payload, prefix := d.payload[..d.state.staged], d.payload[..d.state.staged];
      new;
      WholePayload(d);
    }

    /** Saves a state. `fails` says whether the write is reported as failed, before it took effect. */
    method SaveState(s: State, fails: bool)
      requires !failed
      modifies `state, `saved, `failed
      ensures fails ==> failed && saved == old(saved)
      ensures !fails ==> !failed && saved == s && state == s
    {
      if fails {
        failed := true;
        return;
      }
      saved, state := s, s;
    }

    method Stage(offset: nat, bytes: Bytes, fault: Option<nat>) returns (r: Result<Answer>)
      requires Coherent()
      modifies this
      ensures Coherent()
      ensures old(failed) ==> r == Err(Failed) && OnDisk() == old(OnDisk()) && failed
      ensures !old(failed) ==> Ran(old(OnDisk()), Spec.Stage(env, old(OnDisk()), offset, bytes), fault, r)
      ensures Inv(env, old(OnDisk())) ==> Keeps(env, old(OnDisk()), OnDisk())
      ensures Inv(env, old(OnDisk())) && r.Ok? ==> Holds(OnDisk(), offset, bytes) && r.value == Staged(saved.staged)
      ensures Inv(env, old(OnDisk())) && !failed ==> StageGives(env, old(OnDisk()), offset, bytes, OnDisk(), r)
    {
      hide Valid, Inv, Keeps, Holds, StageGives;
      StageKept(env, OnDisk(), offset, bytes);
      if failed {
        return Err(Failed);
      }
      ghost var d := OnDisk();
      if state.cancelRequested || state.reference.Some? {
        return Err(Cancelled);
      }
      if bytes == [] || |bytes| > TRANSFER_CHUNK_BYTES {
        return Err(Capacity);
      }
      var end := offset + |bytes|;
      if end > state.spec.length {
        return Err(Capacity);
      }
      if offset < state.staged && end <= state.staged {
        return if payload[offset..end] == bytes then Ok(Staged(state.staged)) else Err(Conflict);
      }
      if offset != state.staged {
        return Err(Conflict);
      }
      var taken := prefix + bytes;
      var hash := env.hash(taken);
      if end == state.spec.length && hash != state.spec.digest {
        return Err(Conflict);
      }
      var after := state.(staged := end, prefixHash := hash, verified := state.verified || end == state.spec.length);
      r := Extend(offset, bytes, after, fault);
    }

    /** The payload written past what was accepted, then the state that accepts it. */
    method Extend(offset: nat, bytes: Bytes, after: State, fault: Option<nat>) returns (r: Result<Answer>)
      requires Coherent() && !failed && offset == state.staged && after.staged == offset + |bytes|
      modifies this
      ensures Coherent()
      ensures var put := PutPayload(offset, bytes);
        Ran(old(OnDisk()), Spec.Save(old(OnDisk()), [put], after, Staged(offset + |bytes|)), fault, r)
    {
      hide Valid;
      ghost var d := OnDisk();
      var put := PutPayload(offset, bytes);
      OneWrite(d, put);
      if fault == Some(0) {
        failed := true;
        assert [put, Install(after)][..0] == [] && [put][..0] == [];
        return Err(Failed);
      }
      var taken := prefix + bytes;
      var end := offset + |bytes|;
      payload := payload[..offset] + bytes + if end <= |payload| then payload[end..] else [];
      assert payload[..end] == taken && payload[..offset] == prefix;
      if !Valid(after, state.context) {
        return Err(Corrupt);
      }
      TwoWrites(d, put, Install(after));
      assert [put, Install(after)][..1] == [put];
      SaveState(after, fault == Some(1));
      if failed {
        return Err(Failed);
      }
      prefix := taken;
      r := Ok(Staged(end));
    }

    method NextRequest(fault: Option<nat>) returns (r: Result<Answer>)
      requires Coherent()
      modifies `state, `saved, `failed
      ensures Coherent()
      ensures old(failed) ==> r == Err(Failed) && OnDisk() == old(OnDisk()) && failed
      ensures !old(failed) ==> Ran(old(OnDisk()), Ask(env, old(OnDisk())), fault, r)
      ensures Inv(env, old(OnDisk())) ==> Keeps(env, old(OnDisk()), OnDisk())
      ensures Inv(env, old(OnDisk())) ==> forall q :: r == Ok(Asked(Some(q))) ==> Owes(env, OnDisk(), q)
      ensures !old(failed) ==> forall q :: Owes(env, old(OnDisk()), q) ==> r == Ok(Asked(Some(q)))
      ensures Inv(env, old(OnDisk())) && !failed ==> AskGives(env, old(OnDisk()), OnDisk(), r)
    {
      hide Valid, Next, Inv, Keeps, Owes, AskGives;
      AskKept(env, OnDisk());
      if failed {
        return Err(Failed);
      }
      ghost var d := OnDisk();
      if state.cancelAcknowledged {
        return Ok(Asked(None));
      }
      if state.pending.None? {
        var next := Next(state);
        if next.None? {
          return Ok(Asked(None));
        }
        var after := state.(pending := next);
        if !Valid(after, state.context) {
          return Err(Corrupt);
        }
        OneWrite(d, Install(after));
        assert [Install(after)][..0] == [];
        SaveState(after, fault == Some(0));
        if failed {
          return Err(Failed);
        }
      }
      var request := RequestFor(env, Disk(state, payload), state.pending.value);
      r := if request.Some? then Ok(Asked(request)) else Err(Invalid);
    }

    method RecordReply(request: Envelope, reply: Reply, fault: Option<nat>) returns (r: Result<Answer>)
      requires Coherent()
      modifies `state, `saved, `failed
      ensures Coherent()
      ensures old(failed) ==> r == Err(Failed) && OnDisk() == old(OnDisk()) && failed
      ensures !old(failed) ==> Ran(old(OnDisk()), Record(env, old(OnDisk()), request, reply), fault, r)
      ensures Inv(env, old(OnDisk())) ==> Keeps(env, old(OnDisk()), OnDisk())
      ensures Inv(env, old(OnDisk())) && Owes(env, old(OnDisk()), request) ==>
        (Owes(env, OnDisk(), request) <==> r.Err?)
      ensures Inv(env, old(OnDisk())) && !failed ==> ReplyGives(env, old(OnDisk()), request, reply, OnDisk(), r)
    {
      hide Valid, Ask, Answered, After, Inv, Keeps, Owes, AskGives, ReplyGives;
      ReplyKept(env, OnDisk(), request, reply);
      if failed {
        return Err(Failed);
      }
      ghost var d := OnDisk();
      ghost var asked := Ask(env, d);
      AskExtent(env, d);
      var spent := if state.pending.None? then 1 else 0;
      r := NextRequest(fault);
      if failed {
        RecordCut(env, d, request, reply, fault.value);
        return;
      }
      if r.Err? {
        return;
      }
      if r.value != Asked(Some(request)) {
        return Err(Invalid);
      }
      ghost var e := OnDisk();
      r := Accept(request.operation, reply, if fault.Some? then Some(fault.value - spent) else None);
      RecordWhole(env, d, request, reply);
      RecordCut(env, d, request, reply, |asked.writes|);
    }

    /** Takes a reply to the pending operation, or refuses one that is not to it. */
    method Accept(operation: Operation, reply: Reply, fault: Option<nat>) returns (r: Result<Answer>)
      requires Coherent() && !failed
      modifies `state, `saved, `failed
      ensures Coherent()
      ensures Ran(old(OnDisk()), Accepted(old(OnDisk()), operation, reply), fault, r)
    {
      hide Valid, Answered;
      AnsweredStaged(state, operation, reply);
      var after := Answered(state, operation, reply);
      if after.None? {
        return Err(Invalid);
      }
      r := Keep(after.value, fault);
    }

    method Cancel(fault: Option<nat>) returns (r: Result<Answer>)
      requires Coherent()
      modifies `state, `saved, `failed
      ensures Coherent()
      ensures old(failed) ==> r == Err(Failed) && OnDisk() == old(OnDisk()) && failed
      ensures !old(failed) ==> Ran(old(OnDisk()), CancelUploading(old(OnDisk())), fault, r)
      ensures Inv(env, old(OnDisk())) ==> Keeps(env, old(OnDisk()), OnDisk())
      ensures r.Ok? ==> saved.cancelRequested && !saved.cancelAcknowledged && Next(saved) == Some(Spec.Cancel)
      ensures Inv(env, old(OnDisk())) && !failed ==> CancelGives(old(OnDisk()), OnDisk(), r)
    {
      hide Valid, Inv, Keeps, CancelGives;
      CancelKept(env, OnDisk());
      if failed {
        return Err(Failed);
      }
      if state.cancelRequested && !state.cancelAcknowledged {
        return Ok(Done);
      }
      r := Keep(state.(cancelRequested := true, cancelAcknowledged := false, pending := None), fault);
    }

    method BindIntent(bytes: Bytes, fault: Option<nat>) returns (r: Result<Answer>)
      requires Coherent()
      modifies `state, `saved, `failed
      ensures Coherent()
      ensures old(failed) ==> r == Err(Failed) && OnDisk() == old(OnDisk()) && failed
      ensures !old(failed) ==> Ran(old(OnDisk()), Bind(old(OnDisk()), bytes), fault, r)
      ensures Inv(env, old(OnDisk())) ==> Keeps(env, old(OnDisk()), OnDisk())
      ensures r.Ok? ==> saved.binding == Some(bytes)
      ensures r.Err? ==> saved.binding == old(saved.binding)
      ensures Inv(env, old(OnDisk())) && !failed ==> BindGives(old(OnDisk()), bytes, OnDisk(), r)
    {
      hide Valid, Inv, Keeps, Kept, BindGives, After;
      AfterNone(OnDisk());
      ghost var d := OnDisk();
      BindKept(env, d, bytes);
      if failed {
        return Err(Failed);
      }
      if |bytes| > MAX_INPUT_BYTES {
        return Err(Capacity);
      }
      if state.binding.Some? {
        return if state.binding.value == bytes then Ok(Done) else Err(Conflict);
      }
      if state.begun || state.pending.Some? {
        return Err(Conflict);
      }
      ghost var w := Install(state.(binding := Some(bytes)));
      OneWrite(d, w);
      assert [] + [w] == [w];
      r := Keep(state.(binding := Some(bytes)), fault);
      KeptIs(env, d, Bind(d, bytes), if fault.Some? then fault.value else 0);
    }

    /** Saves a valid state of the same staged bytes. */
    method Keep(after: State, fault: Option<nat>) returns (r: Result<Answer>)
      requires Coherent() && !failed && after.staged == state.staged
      modifies `state, `saved, `failed
      ensures Coherent()
      ensures Ran(old(OnDisk()), Spec.Save(old(OnDisk()), [], after, Done), fault, r)
    {
      hide Valid;
      ghost var d := OnDisk();
      if !Valid(after, state.context) {
        return Err(Corrupt);
      }
      OneWrite(d, Install(after));
      assert [] + [Install(after)] == [Install(after)] && [Install(after)][..0] == [];
      SaveState(after, fault == Some(0));
      r := if failed then Err(Failed) else Ok(Done);
    }
  }

  /** A call's writes, whole or cut anywhere, keep the transfer. */
  ghost predicate Kept(env: Env, d: Disk, run: Run) {
    && Keeps(env, d, d) && Keeps(env, d, After(d, run.writes))
    && forall n :: 0 <= n <= |run.writes| ==> Keeps(env, d, After(d, run.writes[..n]))
  }

  lemma CutsKept(env: Env, d: Disk, call: Call)
    ensures Inv(env, d) ==> Kept(env, d, RunOf(env, System(d, true), call))
  {
    hide Inv, Keeps, RunOf;
    if Inv(env, d) {
      CutsKeep(env, d, call);
      KeepsSelf(env, d);
      var writes := RunOf(env, System(d, true), call).writes;
      assert writes[..|writes|] == writes;
    }
  }

  lemma KeptIs(env: Env, d: Disk, run: Run, n: nat)
    requires Inv(env, d) ==> Kept(env, d, run)
    ensures Inv(env, d) ==> Keeps(env, d, d) && Keeps(env, d, After(d, run.writes))
    ensures Inv(env, d) && n <= |run.writes| ==> Keeps(env, d, After(d, run.writes[..n]))
  {
    hide Inv, Keeps, After;
  }

  lemma CancelKept(env: Env, d: Disk)
    ensures Inv(env, d) ==>
      && Kept(env, d, CancelUploading(d))
      && CancelGives(d, After(d, CancelUploading(d).writes), CancelUploading(d).answer)
  {
    CutsKept(env, d, Cancelling);
    hide Inv, Kept, CancelUploading, CancelGives;
    if Inv(env, d) {
      CancelExactly(env, d);
    }
  }

  lemma BindKept(env: Env, d: Disk, bytes: Bytes)
    ensures Inv(env, d) ==> Kept(env, d, Bind(d, bytes)) && Keeps(env, d, d)
    ensures Inv(env, d) ==> BindGives(d, bytes, After(d, Bind(d, bytes).writes), Bind(d, bytes).answer)
  {
    CutsKept(env, d, Binding(bytes));
    hide Inv, Keeps, Bind, BindGives;
    if Inv(env, d) {
      BindExactly(env, d, bytes);
    }
  }

  lemma StageKept(env: Env, d: Disk, offset: nat, bytes: Bytes)
    ensures var run := Spec.Stage(env, d, offset, bytes);
      Inv(env, d) ==>
        && Kept(env, d, run) && d.state.staged <= |d.payload|
        && StageGives(env, d, offset, bytes, After(d, run.writes), run.answer)
        && (run.answer.Ok? ==>
              var e := After(d, run.writes);
              Holds(e, offset, bytes) && run.answer == Ok(Staged(e.state.staged)))
  {
    CutsKept(env, d, Staging(offset, bytes));
    if Inv(env, d) {
      StageExactly(env, d, offset, bytes);
    }
    hide Inv, Kept, Holds, Spec.Stage, StageGives;
    if Inv(env, d) && Spec.Stage(env, d, offset, bytes).answer.Ok? {
      StageTakes(env, d, offset, bytes);
    }
  }

  lemma AskKept(env: Env, d: Disk)
    ensures Inv(env, d) ==> Kept(env, d, Ask(env, d))
    ensures Inv(env, d) ==> AskGives(env, d, After(d, Ask(env, d).writes), Ask(env, d).answer)
    ensures Inv(env, d) ==>
      forall q :: Ask(env, d).answer == Ok(Asked(Some(q))) ==> Owes(env, After(d, Ask(env, d).writes), q)
    ensures forall q :: Owes(env, d, q) ==> Ask(env, d) == Run([], Ok(Asked(Some(q))))
  {
    CutsKept(env, d, Asking);
    hide Inv, Kept, Owes, Ask, AskGives;
    if Inv(env, d) {
      AskExactly(env, d);
    }
    forall q | Inv(env, d) && Ask(env, d).answer == Ok(Asked(Some(q)))
      ensures Owes(env, After(d, Ask(env, d).writes), q)
    {
      AskOwes(env, d, q);
    }
    forall q | Owes(env, d, q)
      ensures Ask(env, d) == Run([], Ok(Asked(Some(q))))
    {
      OwedIsAsked(env, d, q);
      OwedWritesNothing(env, d, q);
    }
  }

  lemma ReplyKept(env: Env, d: Disk, request: Envelope, reply: Reply)
    ensures var run := Record(env, d, request, reply);
      && (Inv(env, d) ==> Kept(env, d, run))
      && (Inv(env, d) ==> ReplyGives(env, d, request, reply, After(d, run.writes), run.answer))
      && (Inv(env, d) && Owes(env, d, request) ==>
            && (run.answer.Ok? <==> run.writes != []) && |run.writes| <= 1
            && (run.writes != [] ==> !Owes(env, After(d, run.writes), request)))
  {
    CutsKept(env, d, Replying(request, reply));
    hide Inv, Kept, Owes, Record, ReplyGives;
    if Inv(env, d) {
      ReplyExactly(env, d, request, reply);
    }
    if Inv(env, d) && Owes(env, d, request) {
      ReplyAnswered(env, d, request, reply);
    }
  }

  lemma AskExtent(env: Env, d: Disk)
    ensures |Ask(env, d).writes| <= 1
    ensures Ask(env, d).answer.Ok? && Ask(env, d).answer.value.Asked? && Ask(env, d).answer.value.request.Some? ==>
              |Ask(env, d).writes| == if d.state.pending.None? then 1 else 0
    ensures After(d, Ask(env, d).writes).state.context == d.state.context
    ensures After(d, Ask(env, d).writes).payload == d.payload
  {
    if Ask(env, d).writes != [] {
      OneWrite(d, Ask(env, d).writes[0]);
    }
  }

  function Accepted(d: Disk, operation: Operation, reply: Reply): Run {
    var after := Answered(d.state, operation, reply);
    if after == None then Refuse(Invalid) else Spec.Save(d, [], after.value, Done)
  }

  /** Recording is asking, then accepting. */
  lemma RecordWhole(env: Env, d: Disk, request: Envelope, reply: Reply)
    requires Ask(env, d).answer == Ok(Asked(Some(request)))
    ensures var asked := Ask(env, d); var run := Record(env, d, request, reply);
      var accepted := Accepted(After(d, asked.writes), request.operation, reply);
      && run.writes == asked.writes + accepted.writes && run.answer == accepted.answer
      && After(d, run.writes) == After(After(d, asked.writes), accepted.writes)
      && |accepted.writes| <= 1
  {
    hide Ask, Valid, After, Answered;
    AskExtent(env, d);
    var asked := Ask(env, d);
    var e := After(d, asked.writes);
    var accepted := Accepted(e, request.operation, reply);
    AfterNone(e);
    assert asked.writes + [] == asked.writes;
    if accepted.writes != [] {
      assert accepted.writes == [accepted.writes[0]];
      OneWrite(e, accepted.writes[0]);
      AfterAppend(d, asked.writes, accepted.writes[0]);
    }
  }

  lemma RecordCut(env: Env, d: Disk, request: Envelope, reply: Reply, n: nat)
    requires n <= |Ask(env, d).writes|
    ensures var writes := Record(env, d, request, reply).writes;
      n <= |writes| && writes[..n] == Ask(env, d).writes[..n]
    ensures After(After(d, Ask(env, d).writes), []) == After(d, Ask(env, d).writes)
    ensures Ask(env, d).writes[..|Ask(env, d).writes|] == Ask(env, d).writes
  {
    hide Ask, Valid, Answered;
  }

  lemma AnsweredStaged(s: State, operation: Operation, reply: Reply)
    ensures Answered(s, operation, reply).Some? ==> Answered(s, operation, reply).value.staged == s.staged
  {
  }

  lemma WholePayload(d: Disk)
    ensures d.state.staged == |d.payload| ==> d.payload[..d.state.staged] == d.payload
    ensures After(d, [Truncate(d.state.staged)]) == Apply(d, Truncate(d.state.staged))
  {
    OneWrite(d, Truncate(d.state.staged));
  }
}
