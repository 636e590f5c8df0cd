/**
 The managed store as it works: its files updated in place, one durable write at a time. Each public
 method is proved to make exactly the writes, in order, and to give exactly the answer, that the
 model's run for that call states, from whatever the files hold; and from files that meet the
 invariant, to keep it and to give what its answer says.
 */
module ManagedStore {
  import opened Basics
  import opened ManagedModel
  import opened ManagedSafety
  import opened ManagedAnswers
  import Spec = ManagedModel

  class ManagedOperationStore {
    const env: Env
    var state: State
    var prepared: map<nat, Prepared>
    var receipts: map<nat, Receipt>
    /** The durable writes made, in order. */
    ghost var made: seq<Write>

    ghost function Files(): Disk
      reads this
    {
      Disk(state, prepared, receipts)
    }

    /** From `before`, with `past` made already, the store made exactly `run`'s writes. */
    ghost predicate Ran(before: Disk, past: seq<Write>, run: Run, answer: Result<Answer>)
      reads this
    {
      made == past + run.writes && Files() == After(before, run.writes) && answer == run.answer
    }

    constructor (e: Env, registration: Control)
      requires Spec.Create(e, registration).Ok?
      ensures env == e && made == [] && Files() == Spec.Create(e, registration).value && Inv(env, Files())
    {
      env := e;
      state := State(e.context, e.limits, registration, None, 0, 0, 0, 0, false, false, [], None, None);
      prepared, receipts, made := map[], map[], [];
    }

    // -------------------------------------------------------------- single writes

    method Put(s: State, answer: Result<Answer>) returns (r: Result<Answer>)
      modifies `state, `made
      ensures Ran(old(Files()), old(made), SaveState(env, s, answer), r)
      ensures r.Err? && answer.Ok? ==> unchanged(this)
    {
      var fault := Fault(env, s);
      if fault.Some? {
        return Err(fault.value);
      }
      AfterOne(Files(), Save(s));
      state := s;
      made := made + [Save(s)];
      return answer;
    }

    method PutRequest(o: nat, p: Prepared)
      modifies `prepared, `made
      ensures Files() == After(old(Files()), [PutPrepared(o, p)]) && made == old(made) + [PutPrepared(o, p)]
    {
      AfterOne(Files(), PutPrepared(o, p));
      prepared := prepared[o := p];
      made := made + [PutPrepared(o, p)];
    }

    /** `WriteReceipt` in place. */
    method KeepReceipt(e: Entry, receipt: Receipt) returns (r: Result<Answer>)
      modifies `receipts, `made
      ensures Ran(old(Files()), old(made), WriteReceipt(env, old(Files()), e, receipt), r)
    {
      if e.receipt.Some? && e.receipt.value != env.receiptHash(receipt) {
        return Err(ReceiptMismatch);
      }
      if e.key.ordinal in receipts {
        return if receipts[e.key.ordinal] != receipt then Err(ReceiptMismatch) else Ok(Done);
      }
      if e.receipt.Some? {
        return Err(Corrupt);
      }
      AfterOne(Files(), PutReceipt(e.key.ordinal, receipt));
      receipts := receipts[e.key.ordinal := receipt];
      made := made + [PutReceipt(e.key.ordinal, receipt)];
      return Ok(Done);
    }

    // -------------------------------------------------------------- loading

    method Present() returns (ok: bool)
      ensures ok == FilesPresent(Files())
    {
      for i := 0 to |state.entries|
        invariant forall j :: 0 <= j < i ==>
          var e := state.entries[j];
          (e.prepared ==> e.key.ordinal in prepared) && (e.receipt.Some? ==> e.key.ordinal in receipts)
      {
        var e := state.entries[i];
        if (e.prepared && e.key.ordinal !in prepared) || (e.receipt.Some? && e.key.ordinal !in receipts) {
          return false;
        }
      }
      return true;
    }

    /** Removes the files of retired ordinals, in order. */
    method Collect() returns (garbage: nat)
      requires state.garbage <= state.retired
      modifies `prepared, `receipts, `made
      ensures garbage == state.retired
      ensures var writes := Cleanup(state.garbage, state.retired);
        Files() == After(old(Files()), writes) && made == old(made) + writes
    {
      ghost var d := Files();
      garbage := state.garbage;
      while garbage < state.retired
        invariant state.garbage <= garbage <= state.retired
        invariant Files() == After(d, Cleanup(state.garbage, garbage))
        invariant made == old(made) + Cleanup(state.garbage, garbage)
      {
        ghost var before := Cleanup(state.garbage, garbage);
        garbage := garbage + 1;
        AfterTwo(Files(), RemovePrepared(garbage), RemoveReceipt(garbage));
        AfterConcat(d, before, [RemovePrepared(garbage), RemoveReceipt(garbage)]);
        prepared := prepared - {garbage};
        receipts := receipts - {garbage};
        made := made + [RemovePrepared(garbage), RemoveReceipt(garbage)];
      }
    }

    method Load() returns (r: Result<Answer>)
      modifies `state, `prepared, `receipts, `made
      ensures Ran(old(Files()), old(made), Spec.Load(env, old(Files())), r)
      ensures Inv(env, old(Files())) ==> LoadGives(env, old(Files()), Files(), r)
    {
      hide Inv, LoadGives, Fault, FilesPresent, After;
      LoadHolds(env, Files());
      var fault := Fault(env, state);
      ghost var d := Files();
      AfterNone(d);
      if fault.Some? {
        return Err(fault.value);
      }
      var present := Present();
      if !present {
        return Err(Corrupt);
      }
      if state.garbage < state.retired {
        var garbage := Collect();
        ghost var removed := Cleanup(d.state.garbage, d.state.retired);
        ghost var saved := SaveState(env, d.state.(garbage := d.state.retired), Ok(Done));
        AfterConcat(d, removed, saved.writes);
        r := Put(state.(garbage := garbage), Ok(Done));
      } else {
        r := Ok(Done);
      }
    }

    // -------------------------------------------------------------- issuing and stopping

    method StopIfDrained(threshold: nat) returns (r: Result<Answer>)
      modifies `state, `prepared, `receipts, `made
      ensures Ran(old(Files()), old(made), RunOf(env, old(Files()), CallStopIfDrained(threshold)), r)
      ensures Inv(env, old(Files())) ==>
        Kept(env, old(Files()), Files()) && DrainGives(Swept(old(Files())), Files(), threshold, r)
    {
      hide Inv, Kept, LoadGives, Swept, DrainGives;
      CallHolds(env, Files(), CallStopIfDrained(threshold));
      hide Fault, After, SaveState, Spec.Load;
      ghost var d := Files();
      r := Load();
      if r.Ok? {
        Followed(d, Spec.Load(env, d), Spec.StopIfDrained(env, state, threshold));
        AfterNone(Files());
        if state.registered.None? {
          r := Err(NotRegistered);
        } else if state.stopped || state.closed || state.control.Some?
                  || state.frontier < (if threshold > 1 then threshold else 1)
                  || state.retired != state.frontier || state.entries != [] {
          r := Ok(Drained(false));
        } else {
          r := Put(state.(stopped := true), Ok(Drained(true)));
        }
      }
    }

    method StopIssuance() returns (r: Result<Answer>)
      modifies `state, `prepared, `receipts, `made
      ensures Ran(old(Files()), old(made), RunOf(env, old(Files()), CallStopIssuance), r)
      ensures Inv(env, old(Files())) ==>
        Kept(env, old(Files()), Files()) && StopGives(Swept(old(Files())), Files(), r)
    {
      hide Inv, Kept, LoadGives, Swept, StopGives;
      CallHolds(env, Files(), CallStopIssuance);
      hide Fault, After, SaveState, Spec.Load;
      ghost var d := Files();
      r := Load();
      if r.Ok? {
        Followed(d, Spec.Load(env, d), Spec.StopIssuance(env, state));
        AfterNone(Files());
        if state.registered.None? {
          r := Err(NotRegistered);
        } else {
          r := Put(state.(stopped := true), Ok(Through(state.frontier)));
        }
      }
    }

    method RecordRegistration(receipt: ControlReceipt) returns (r: Result<Answer>)
      modifies `state, `prepared, `receipts, `made
      ensures Ran(old(Files()), old(made), RunOf(env, old(Files()), CallRecordRegistration(receipt)), r)
      ensures Inv(env, old(Files())) ==>
        Kept(env, old(Files()), Files()) && RegistrationGives(env, Swept(old(Files())), Files(), receipt, r)
    {
      hide Inv, Kept, LoadGives, Swept, RegistrationGives;
      CallHolds(env, Files(), CallRecordRegistration(receipt));
      hide Fault, After, SaveState, Spec.Load, RegistrationFault;
      ghost var d := Files();
      r := Load();
      if r.Ok? {
        Followed(d, Spec.Load(env, d), Spec.RecordRegistration(env, state, receipt));
        AfterNone(Files());
        var fault := RegistrationFault(env, state, receipt);
        if fault.Some? {
          r := Err(fault.value);
        } else if state.registered.Some? {
          r := if state.registered.value == receipt then Ok(Done) else Err(ReceiptMismatch);
        } else {
          r := Put(state.(registered := Some(receipt), revision := 1), Ok(Done));
        }
      }
    }

    method Reserve(request: nat) returns (r: Result<Answer>)
      modifies `state, `prepared, `receipts, `made
      ensures Ran(old(Files()), old(made), RunOf(env, old(Files()), CallReserve(request)), r)
      ensures Inv(env, old(Files())) ==>
        Kept(env, old(Files()), Files()) && ReserveGives(env, Swept(old(Files())), Files(), request, r)
    {
      hide Inv, Kept, LoadGives, Swept, ReserveGives;
      CallHolds(env, Files(), CallReserve(request));
      hide Fault, After, SaveState, Spec.Load, StreamOf;
      ghost var d := Files();
      r := Load();
      if r.Ok? {
        Followed(d, Spec.Load(env, d), Spec.Reserve(env, state, request));
        AfterNone(Files());
        if state.registered.None? {
          r := Err(NotRegistered);
        } else if state.stopped {
          r := Err(Stopped);
        } else if request == 0 {
          r := Err(InvalidId);
        } else if |state.entries| >= env.limits.window || state.frontier >= U64_MAX {
          r := Err(Capacity);
        } else {
          var stream := StreamOf(state);
          if stream.Err? {
            r := Err(stream.error);
          } else {
            var key := Key(stream.value, state.frontier + 1, request);
            var entries := state.entries + [Entry(key, None, false, None, None)];
            r := Put(state.(entries := entries, frontier := state.frontier + 1),
                     if ValidKey(key) then Ok(Issued(IdOf(key))) else Err(InvalidId));
          }
        }
      }
    }

    // -------------------------------------------------------------- requests

    /** The request as it is in its file, or expanded, checked and written there. */
    method Materialise(i: nat, intent: Intent, digest: Hash, expand: Key -> Result<Request>) returns (r: Result<Answer>)
      requires i < |state.entries|
      modifies `prepared, `made
      ensures Ran(old(Files()), old(made), WriteRequest(env, old(Files()), i, intent, digest, expand), r)
    {
      hide PreparedFault;
      var key := state.entries[i].key;
      if key.ordinal in prepared {
        var fault := PreparedFault(env, key, digest, prepared[key.ordinal]);
        return if fault.Some? then Err(fault.value) else Ok(Ready(prepared[key.ordinal]));
      }
      if state.entries[i].prepared {
        return Err(Corrupt);
      }
      var request := expand(key);
      if request.Err? {
        return Err(request.error);
      }
      var p := Prepared(intent, request.value);
      var fault := PreparedFault(env, key, digest, p);
      if fault.Some? {
        return Err(fault.value);
      }
      PutRequest(key.ordinal, p);
      return Ok(Ready(p));
    }

    method Mark(i: nat, intent: Intent, p: Prepared) returns (r: Result<Answer>)
      requires i < |state.entries|
      modifies `state, `made
      ensures Ran(old(Files()), old(made), MarkPrepared(env, old(state), i, intent, p), r)
    {
      hide SaveState;
      if p.intent != intent {
        return Err(Conflict);
      }
      if state.entries[i].prepared {
        return Ok(Ready(p));
      }
      r := Put(WithEntry(state, i, state.entries[i].(prepared := true)), Ok(Ready(p)));
    }

    method MaterialiseAndMark(i: nat, intent: Intent, digest: Hash, expand: Key -> Result<Request>)
        returns (r: Result<Answer>)
      requires i < |state.entries|
      modifies `state, `prepared, `made
      ensures Ran(old(Files()), old(made), WriteAndMark(env, old(Files()), i, intent, digest, expand), r)
    {
      hide After, MarkPrepared, WriteRequest;
      ghost var d := Files();
      r := Materialise(i, intent, digest, expand);
      if r.Ok? && r.value.Ready? {
        var p := r.value.prepared;
        Followed(d, WriteRequest(env, d, i, intent, digest, expand), MarkPrepared(env, d.state, i, intent, p));
        r := Mark(i, intent, p);
      }
    }

    method BindThenWrite(i: nat, intent: Intent, digest: Hash, expand: Key -> Result<Request>)
        returns (r: Result<Answer>)
      requires i < |state.entries|
      modifies `state, `prepared, `made
      ensures var d := old(Files()); var bound := BindIntent(env, d.state, i, digest);
        var next := if bound.writes == [] then d.state
                    else WithEntry(d.state, i, d.state.entries[i].(intent := Some(digest)));
        Ran(d, old(made), Follow(bound, WriteAndMark(env, d.(state := next), i, intent, digest, expand)), r)
    {
      hide After, WriteAndMark, Fault;
      ghost var d := Files();
      AfterNone(d);
      var e := state.entries[i];
      if e.intent.None? {
        AfterOne(d, Save(WithEntry(state, i, e.(intent := Some(digest)))));
        r := Put(WithEntry(state, i, e.(intent := Some(digest))), Ok(Done));
        if r.Err? {
          return;
        }
      }
      Followed(d, BindIntent(env, d.state, i, digest), WriteAndMark(env, Files(), i, intent, digest, expand));
      r := MaterialiseAndMark(i, intent, digest, expand);
    }

    method Prepare(id: OperationId, intent: Intent, expand: Key -> Result<Request>) returns (r: Result<Answer>)
      modifies `state, `prepared, `receipts, `made
      ensures Ran(old(Files()), old(made), RunOf(env, old(Files()), CallPrepare(id, intent, expand)), r)
      ensures Inv(env, old(Files())) ==>
        && Kept(env, old(Files()), Files())
        && Gives(env, old(Files()), CallPrepare(id, intent, expand), Files(), r)
    {
      hide Inv, Kept, LoadGives, Swept, Gives;
      CallHolds(env, Files(), CallPrepare(id, intent, expand));
      hide After, Spec.Load, BindIntent, WriteAndMark, Index;
      ghost var d := Files();
      AfterNone(d);
      var digest := env.digest(intent);
      if digest.None? {
        return Err(InvalidIntent);
      }
      r := Load();
      if r.Ok? {
        Followed(d, Spec.Load(env, d), Spec.Prepare(env, Files(), id, intent, digest.value, expand));
        AfterNone(Files());
        var index := Index(state, id);
        if index.Err? {
          return Err(index.error);
        }
        IndexInRange(state, id);
        var e := state.entries[index.value];
        if e.seal.Some? && !e.prepared {
          return Err(Stopped);
        }
        if e.intent.Some? && e.intent.value != digest.value {
          return Err(Conflict);
        }
        r := BindThenWrite(index.value, intent, digest.value, expand);
      }
    }

    // -------------------------------------------------------------- receipts

    method RecordReceipt(id: OperationId, receipt: Receipt) returns (r: Result<Answer>)
      modifies `state, `prepared, `receipts, `made
      ensures Ran(old(Files()), old(made), RunOf(env, old(Files()), CallRecordReceipt(id, receipt)), r)
      ensures Inv(env, old(Files())) ==>
        Kept(env, old(Files()), Files()) && ReceiptGives(env, Swept(old(Files())), Files(), id, receipt, r)
    {
      hide Inv, Kept, LoadGives, Swept, ReceiptGives;
      CallHolds(env, Files(), CallRecordReceipt(id, receipt));
      hide After, Spec.Load, SaveState, WriteReceipt, Index, ReadPrepared,
        ProvesRequest;
      ghost var d := Files();
      r := Load();
      if r.Ok? {
        Followed(d, Spec.Load(env, d), Spec.RecordReceipt(env, Files(), id, receipt));
        AfterNone(Files());
        var index := Index(state, id);
        if index.Err? {
          return Err(index.error);
        }
        IndexInRange(state, id);
        var e := state.entries[index.value];
        if e.intent.None? {
          return Err(Unprepared);
        }
        var read := ReadPrepared(env, Disk(state, prepared, receipts), e.key, e.intent.value);
        if read.Err? {
          return Err(read.error);
        }
        if !ProvesRequest(env, receipt, read.value.request) {
          return Err(ReceiptMismatch);
        }
        r := KeepThenSave(e, receipt,
          WithEntry(state, index.value, e.(prepared := true, receipt := Some(env.receiptHash(receipt)))));
      }
    }

    method KeepThenSave(e: Entry, receipt: Receipt, s: State) returns (r: Result<Answer>)
      modifies `state, `receipts, `made
      ensures var d := old(Files());
        Ran(d, old(made), Follow(WriteReceipt(env, d, e, receipt), SaveState(env, s, Ok(Done))), r)
    {
      hide After, SaveState, WriteReceipt;
      ghost var d := Files();
      r := KeepReceipt(e, receipt);
      if r.Ok? {
        Followed(d, WriteReceipt(env, d, e, receipt), SaveState(env, s, Ok(Done)));
        r := Put(s, Ok(Done));
      }
    }

    // -------------------------------------------------------------- controls

    method AskControl(s: State, id: nat, command: Command) returns (r: Result<Answer>)
      modifies `state, `made
      ensures Ran(old(Files()), old(made), SaveControl(env, s, id, command), r)
    {
      hide SaveState;
      var input := Control(s.context, id, command);
      r := Put(s.(control := Some(input)), Ok(Asked(input)));
    }

    /** The manifest, gathered entry by entry until one has no receipt. */
    method Gather(maximum: nat) returns (r: Result<seq<Ack>>)
      ensures r == Manifest(env, Files(), state.entries, maximum)
    {
      hide SavedReceipt;
      var acks := [];
      var i := 0;
      ghost var whole := Manifest(env, Files(), state.entries, maximum);
      assert state.entries[0..] == state.entries && (whole.Ok? ==> [] + whole.value == whole.value);
      while i < |state.entries| && i < maximum
        invariant i <= |state.entries| && i <= maximum
        invariant var rest := Manifest(env, Files(), state.entries[i..], maximum - i);
          whole == if rest.Err? then rest else Ok(acks + rest.value)
      {
        var saved := SavedReceipt(env, Disk(state, prepared, receipts), state.entries[i]);
        assert state.entries[i..][0] == state.entries[i] && state.entries[i..][1..] == state.entries[i + 1..];
        if saved.Err? {
          return Err(saved.error);
        }
        if saved.value.None? {
          break;
        }
        var ack := Ack(saved.value.value.key, env.receiptHash(saved.value.value));
        ghost var rest := Manifest(env, Files(), state.entries[i + 1..], maximum - (i + 1));
        assert rest.Ok? ==> acks + ([ack] + rest.value) == (acks + [ack]) + rest.value;
        acks := acks + [ack];
        i := i + 1;
      }
      assert Manifest(env, Files(), state.entries[i..], maximum - i) == Ok([]) && acks + [] == acks;
      return Ok(acks);
    }

    method PrepareAcknowledgment(id: nat, maximum: nat) returns (r: Result<Answer>)
      modifies `state, `prepared, `receipts, `made
      ensures Ran(old(Files()), old(made), RunOf(env, old(Files()), CallPrepareAcknowledgment(id, maximum)), r)
      ensures Inv(env, old(Files())) ==>
        Kept(env, old(Files()), Files()) && AckGives(env, Swept(old(Files())), Files(), id, maximum, r)
    {
      hide Inv, Kept, LoadGives, Swept, AckGives;
      CallHolds(env, Files(), CallPrepareAcknowledgment(id, maximum));
      hide After, Spec.Load, SaveControl, Manifest, ControlFault, StreamOf;
      ghost var d := Files();
      r := Load();
      if r.Ok? {
        Followed(d, Spec.Load(env, d), Spec.PrepareAcknowledgment(env, Files(), id, maximum));
        AfterNone(Files());
        var fault := ControlFault(state, id);
        if fault.Some? {
          return Err(fault.value);
        }
        if maximum == 0 || maximum > env.limits.window {
          return Err(Capacity);
        }
        var acks := Gather(maximum);
        if acks.Err? {
          return Err(acks.error);
        }
        if acks.value == [] {
          return Err(Unresolved);
        }
        var stream := StreamOf(state);
        if stream.Err? {
          return Err(stream.error);
        }
        r := AskControl(state, id,
          Acknowledge(stream.value, state.revision, acks.value[|acks.value| - 1].key.ordinal, acks.value));
      }
    }

    method PrepareSeal(operation: OperationId, id: nat) returns (r: Result<Answer>)
      modifies `state, `prepared, `receipts, `made
      ensures Ran(old(Files()), old(made), RunOf(env, old(Files()), CallPrepareSeal(operation, id)), r)
      ensures Inv(env, old(Files())) ==>
        Kept(env, old(Files()), Files()) && SealGives(env, Swept(old(Files())), Files(), operation, id, r)
    {
      hide Inv, Kept, LoadGives, Swept, SealGives;
      CallHolds(env, Files(), CallPrepareSeal(operation, id));
      hide After, Spec.Load, SaveControl, ControlFault, Index, Binding;
      ghost var d := Files();
      r := Load();
      if r.Ok? {
        Followed(d, Spec.Load(env, d), Spec.PrepareSeal(env, Files(), operation, id));
        AfterNone(Files());
        var fault := ControlFault(state, id);
        if fault.Some? {
          return Err(fault.value);
        }
        var index := Index(state, operation);
        if index.Err? {
          return Err(index.error);
        }
        IndexInRange(state, operation);
        var e := state.entries[index.value];
        var bound := Binding(env, Disk(state, prepared, receipts), e);
        if bound.Err? {
          return Err(bound.error);
        }
        var (seal, ready) := bound.value;
        r := AskControl(WithEntry(state, index.value, e.(seal := Some(seal), prepared := ready)), id,
          SealOne(e.key, state.revision, seal.family, seal.hash));
      }
    }

    method PrepareClose(id: nat) returns (r: Result<Answer>)
      modifies `state, `prepared, `receipts, `made
      ensures Ran(old(Files()), old(made), RunOf(env, old(Files()), CallPrepareClose(id)), r)
      ensures Inv(env, old(Files())) ==>
        Kept(env, old(Files()), Files()) && CloseGives(Swept(old(Files())), Files(), id, r)
    {
      hide Inv, Kept, LoadGives, Swept, CloseGives;
      CallHolds(env, Files(), CallPrepareClose(id));
      hide After, Spec.Load, SaveControl, ControlFault, StreamOf;
      ghost var d := Files();
      r := Load();
      if r.Ok? {
        Followed(d, Spec.Load(env, d), Spec.PrepareClose(env, state, id));
        AfterNone(Files());
        var fault := ControlFault(state, id);
        if fault.Some? {
          return Err(fault.value);
        }
        if !state.stopped || state.retired != state.frontier {
          return Err(Unresolved);
        }
        var stream := StreamOf(state);
        if stream.Err? {
          return Err(stream.error);
        }
        r := AskControl(state, id, Close(stream.value, state.revision, state.frontier));
      }
    }

    /** Checks a manifest against the leading entries, one by one. */
    method CheckManifest(acks: seq<Ack>) returns (fault: Option<Error>)
      ensures fault == ManifestFault(env, Files(), state.entries, acks)
    {
      hide SavedReceipt;
      var i := 0;
      while i < |acks| && i < |state.entries|
        invariant i <= |acks| && i <= |state.entries|
        invariant ManifestFault(env, Files(), state.entries, acks) ==
          ManifestFault(env, Files(), state.entries[i..], acks[i..])
      {
        var saved := SavedReceipt(env, Disk(state, prepared, receipts), state.entries[i]);
        assert state.entries[i..][0] == state.entries[i] && state.entries[i..][1..] == state.entries[i + 1..];
        assert acks[i..][0] == acks[i] && acks[i..][1..] == acks[i + 1..];
        if saved.Err? {
          return Some(saved.error);
        }
        if saved.value.None? {
          return Some(Corrupt);
        }
        if saved.value.value.key != acks[i].key || env.receiptHash(saved.value.value) != acks[i].receiptHash {
          return Some(Corrupt);
        }
        i := i + 1;
      }
      return None;
    }

    method TakeAcknowledged(command: Command, receipt: ControlReceipt) returns (r: Result<Answer>)
      requires command.Acknowledge? && receipt.outcome.Acknowledged?
      modifies `state, `made
      ensures Ran(old(Files()), old(made), RecordAcknowledged(env, old(Files()), command, receipt), r)
    {
      hide After, SaveState, ManifestFault;
      AfterNone(Files());
      if state.revision >= U64_MAX {
        return Err(Capacity);
      }
      if command.stream != receipt.outcome.stream || command.expectedRevision != state.revision
         || receipt.outcome.revision != state.revision + 1 || command.through != receipt.outcome.through
         || command.through <= state.retired || command.through > state.frontier {
        return Err(ReceiptMismatch);
      }
      var count := command.through - state.retired;
      if count != |command.receipts| {
        return Err(Corrupt);
      }
      var fault := CheckManifest(command.receipts);
      if fault.Some? {
        return Err(fault.value);
      }
      if count > |state.entries| {
        return Err(Corrupt);
      }
      r := Put(state.(entries := state.entries[count..], retired := command.through, revision := state.revision + 1,
                      control := None, lastControl := Some(receipt)), Ok(Done));
    }

    method TakeSealed(command: Command, receipt: ControlReceipt) returns (r: Result<Answer>)
      requires command.SealOne? && receipt.outcome.Sealed?
      modifies `state, `receipts, `made
      ensures Ran(old(Files()), old(made), RecordSealed(env, old(Files()), command, receipt), r)
    {
      hide After, SaveState, Proves, Index, WriteReceipt;
      AfterNone(Files());
      var outcome := receipt.outcome.receipt;
      if state.revision >= U64_MAX {
        return Err(Capacity);
      }
      if command.expectedRevision != state.revision || outcome.raftIndex > receipt.raftIndex {
        return Err(ReceiptMismatch);
      }
      if !Proves(env, outcome, command.key, command.family, command.hash) {
        return Err(ReceiptMismatch);
      }
      var index := Index(state, IdOf(command.key));
      if index.Err? {
        return Err(index.error);
      }
      IndexInRange(state, IdOf(command.key));
      var e := state.entries[index.value];
      var after := WithEntry(state, index.value, e.(receipt := Some(env.receiptHash(outcome))));
      after := after.(revision := state.revision + 1, control := None, lastControl := Some(receipt));
      r := KeepThenSave(e, outcome, after);
    }

    method TakeClosed(command: Command, receipt: ControlReceipt) returns (r: Result<Answer>)
      requires command.Close? && receipt.outcome.Closed?
      modifies `state, `made
      ensures Ran(old(Files()), old(made), RecordClosed(env, old(state), command, receipt), r)
    {
      hide SaveState;
      if command.stream != receipt.outcome.stream || receipt.outcome.vacantGeneration != command.stream.generation
         || !state.stopped || command.expectedRevision != state.revision || command.issuedThrough != state.frontier
         || state.retired != state.frontier {
        return Err(ReceiptMismatch);
      }
      r := Put(state.(closed := true, control := None, lastControl := Some(receipt)), Ok(Done));
    }

    method RecordControl(receipt: ControlReceipt) returns (r: Result<Answer>)
      modifies `state, `prepared, `receipts, `made
      ensures Ran(old(Files()), old(made), RunOf(env, old(Files()), CallRecordControl(receipt)), r)
      ensures Inv(env, old(Files())) ==>
        Kept(env, old(Files()), Files()) && ControlGives(env, Swept(old(Files())), Files(), receipt, r)
    {
      hide Inv, Kept, LoadGives, Swept, ControlGives;
      CallHolds(env, Files(), CallRecordControl(receipt));
      hide After, Spec.Load, RecordAcknowledged, RecordSealed, RecordClosed,
        AnswersControl;
      ghost var d := Files();
      r := Load();
      if r.Ok? {
        Followed(d, Spec.Load(env, d), Spec.RecordControl(env, Files(), receipt));
        AfterNone(Files());
        if state.lastControl == Some(receipt) {
          return Ok(Done);
        }
        if state.control.None? || !AnswersControl(env, state.control.value, receipt) {
          return Err(ReceiptMismatch);
        }
        var prior := PriorIndex(state);
        if prior.Err? {
          return Err(prior.error);
        }
        if receipt.raftIndex <= prior.value {
          return Err(ReceiptMismatch);
        }
        var command := state.control.value.command;
        if command.Acknowledge? && receipt.outcome.Acknowledged? {
          r := TakeAcknowledged(command, receipt);
        } else if command.SealOne? && receipt.outcome.Sealed? {
          r := TakeSealed(command, receipt);
        } else if command.Close? && receipt.outcome.Closed? {
          r := TakeClosed(command, receipt);
        } else {
          r := Err(ReceiptMismatch);
        }
      }
    }
  }

  lemma CallHolds(env: Env, d: Disk, call: Call)
    ensures var run := RunOf(env, d, call); var e := After(d, run.writes);
      Inv(env, d) ==> Kept(env, d, e) && Gives(env, d, call, e, run.answer)
  {
    hide Inv, Kept, Gives, RunOf, After;
    if Inv(env, d) {
      CallKeeps(env, d, call);
      CallExactly(env, d, call);
    }
  }

  lemma LoadHolds(env: Env, d: Disk)
    ensures Inv(env, d) ==> LoadGives(env, d, After(d, Spec.Load(env, d).writes), Spec.Load(env, d).answer)
  {
    hide Inv, LoadGives, Spec.Load, After;
    if Inv(env, d) {
      LoadAnswers(env, d);
    }
  }

  lemma IndexInRange(s: State, id: OperationId)
    requires Index(s, id).Ok?
    ensures Index(s, id).value < |s.entries|
  {
  }

  /** Where a run that follows another leaves the files. */
  lemma Followed(d: Disk, first: Run, next: Run)
    requires first.answer.Ok?
    ensures Follow(first, next) == Run(first.writes + next.writes, next.answer)
    ensures After(d, first.writes + next.writes) == After(After(d, first.writes), next.writes)
    ensures forall past: seq<Write> :: past + first.writes + next.writes == past + (first.writes + next.writes)
  {
    AfterConcat(d, first.writes, next.writes);
  }
}
