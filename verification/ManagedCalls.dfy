/**
 Every call of the managed store, stopped after any of its writes, keeps the invariant and changes
 nothing bound; only reserving moves the frontier, and only an acknowledged manifest of saved
 receipts moves the retired mark.
 */
module ManagedCalls {
  import opened Basics
  import opened ManagedModel
  import opened ManagedSafety

  // ---------------------------------------------------------------- runs of writes

  /** Stopped after any of its writes, a run leaves the invariant and everything bound. */
  ghost predicate Sound(env: Env, d: Disk, run: Run) {
    forall n :: 0 <= n <= |run.writes| ==>
      Inv(env, After(d, run.writes[..n])) && Extends(d, After(d, run.writes[..n]))
  }

  lemma SoundNone(env: Env, d: Disk, run: Run)
    requires Inv(env, d) && run.writes == []
    ensures Sound(env, d, run)
  {
    ExtendsSelf(d);
  }

  lemma SoundOne(env: Env, d: Disk, run: Run, w: Write)
    requires Inv(env, d) && run.writes == [w]
    requires Inv(env, Apply(d, w)) && Extends(d, Apply(d, w))
    ensures Sound(env, d, run)
  {
    hide Inv, Extends, Apply;
    ExtendsSelf(d);
    AfterOne(d, w);
    forall n | 0 <= n <= 1
      ensures Inv(env, After(d, run.writes[..n])) && Extends(d, After(d, run.writes[..n]))
    {
      assert n == 1 ==> [w][..n] == [w];
    }
  }

  lemma SoundFollow(env: Env, d: Disk, first: Run, next: Run)
    requires Sound(env, d, first) && (first.answer.Ok? ==> Sound(env, After(d, first.writes), next))
    ensures Sound(env, d, Follow(first, next))
  {
    hide Inv, Extends, After;
    if first.answer.Ok? {
      var a, b := first.writes, next.writes;
      assert a[..|a|] == a;
      forall n | 0 <= n <= |a + b|
        ensures Inv(env, After(d, (a + b)[..n])) && Extends(d, After(d, (a + b)[..n]))
      {
        if n <= |a| {
          assert (a + b)[..n] == a[..n];
        } else {
          assert (a + b)[..n] == a + b[..n - |a|];
          AfterConcat(d, a, b[..n - |a|]);
          ExtendsTrans(d, After(d, a), After(d, (a + b)[..n]));
        }
      }
    }
  }

  // ---------------------------------------------------------------- loading

  /** Removing what is collected leaves no file of those ordinals and every other file. */
  lemma {:induction false} CleanupLeaves(d: Disk, retired: nat)
    requires d.state.garbage <= retired && FilesBetween(d)
    ensures var e := After(d, Cleanup(d.state.garbage, retired));
      && e.state == d.state
      && e.prepared == (map o | o in d.prepared && retired < o :: d.prepared[o])
      && e.receipts == (map o | o in d.receipts && retired < o :: d.receipts[o])
    decreases retired
  {
    if retired > d.state.garbage {
      hide After;
      var before := Cleanup(d.state.garbage, retired - 1);
      CleanupLeaves(d, retired - 1);
      AfterConcat(d, before, [RemovePrepared(retired), RemoveReceipt(retired)]);
      AfterTwo(After(d, before), RemovePrepared(retired), RemoveReceipt(retired));
      AboveNext(d.prepared, retired);
      AboveNext(d.receipts, retired);
    }
  }

  lemma AboveNext<T>(files: map<nat, T>, o: nat)
    requires o > 0
    ensures (map n | n in files && o - 1 < n :: files[n]) - {o} == (map n | n in files && o < n :: files[n])
  {
  }

  lemma {:induction false} CleanupSound(env: Env, d: Disk, retired: nat)
    requires Inv(env, d) && d.state.garbage <= retired <= d.state.retired
    ensures Sound(env, d, Run(Cleanup(d.state.garbage, retired), Ok(Done)))
    decreases retired
  {
    assert FilesBetween(d);
    hide Inv, Extends, After, Apply, Sound;
    if retired == d.state.garbage {
      SoundNone(env, d, Run([], Ok(Done)));
    } else {
      var before := Cleanup(d.state.garbage, retired - 1);
      CleanupSound(env, d, retired - 1);
      SoundEnds(env, d, Run(before, Ok(Done)));
      CleanupLeaves(d, retired - 1);
      RemoveBoth(env, After(d, before), retired);
      SoundFollow(env, d, Run(before, Ok(Done)), Run([RemovePrepared(retired), RemoveReceipt(retired)], Ok(Done)));
    }
  }

  lemma RemoveBoth(env: Env, d: Disk, o: nat)
    requires Inv(env, d) && o <= d.state.retired
    ensures Sound(env, d, Run([RemovePrepared(o), RemoveReceipt(o)], Ok(Done)))
  {
    hide Inv, Extends;
    RemoveKeeps(env, d, RemovePrepared(o));
    var e := Apply(d, RemovePrepared(o));
    RemoveKeeps(env, e, RemoveReceipt(o));
    AfterOne(d, RemovePrepared(o));
    SoundOne(env, d, Run([RemovePrepared(o)], Ok(Done)), RemovePrepared(o));
    SoundOne(env, e, Run([RemoveReceipt(o)], Ok(Done)), RemoveReceipt(o));
    assert [RemovePrepared(o)] + [RemoveReceipt(o)] == [RemovePrepared(o), RemoveReceipt(o)];
    SoundFollow(env, d, Run([RemovePrepared(o)], Ok(Done)), Run([RemoveReceipt(o)], Ok(Done)));
  }

  lemma CollectedIsValid(env: Env, s: State)
    requires Fault(env, s) == None
    ensures Fault(env, s.(garbage := s.retired)) == None
  {
  }

  lemma PresentByInv(env: Env, d: Disk)
    requires Inv(env, d)
    ensures FilesPresent(d)
  {
    WindowOf(env, d.state);
    hide Fault, EntryValid;
    forall i | 0 <= i < |d.state.entries|
      ensures var e := d.state.entries[i];
        (e.prepared ==> e.key.ordinal in d.prepared) && (e.receipt.Some? ==> e.key.ordinal in d.receipts)
    {
      var o := d.state.retired + 1 + i;
      assert Holds(d.state, o) && EntryAt(d.state, o) == d.state.entries[i];
    }
  }

  /** Loading never fails, and leaves files of live ordinals only. */
  lemma LoadSound(env: Env, d: Disk)
    requires Inv(env, d)
    ensures Load(env, d).answer == Ok(Done) && Sound(env, d, Load(env, d))
    ensures var e := After(d, Load(env, d).writes);
      && Inv(env, e) && e.state == d.state.(garbage := d.state.retired)
      && e.prepared == (map o | o in d.prepared && d.state.retired < o :: d.prepared[o])
      && e.receipts == (map o | o in d.receipts && d.state.retired < o :: d.receipts[o])
  {
    PresentByInv(env, d);
    CollectedIsValid(env, d.state);
    var s := d.state.(garbage := d.state.retired);
    assert d.state.garbage <= d.state.retired by { WindowOf(env, d.state); }
    CleanupSound(env, d, d.state.retired);
    CleanupLeaves(d, d.state.retired);
    var removed := Cleanup(d.state.garbage, d.state.retired);
    var e := After(d, removed);
    assert Inv(env, e) by { assert removed[..|removed|] == removed; }
    hide Fault, EntriesFit, ControlFits, Extends, EntryFits, FilesPresent;
    if d.state.garbage < d.state.retired {
      CollectedSaveKeeps(env, e, s);
      AfterOne(e, Save(s));
      AfterConcat(d, removed, [Save(s)]);
      SoundOne(env, e, Run([Save(s)], Ok(Done)), Save(s));
      SoundFollow(env, d, Run(removed, Ok(Done)), Run([Save(s)], Ok(Done)));
    } else {
      assert s == d.state && removed == [];
    }
  }

  // ---------------------------------------------------------------- the acting part of each call

  lemma SaveSound(env: Env, d: Disk, s: State, answer: Result<Answer>)
    requires Inv(env, d)
    requires Fault(env, s) == None ==> Inv(env, Apply(d, Save(s))) && Extends(d, Apply(d, Save(s)))
    ensures Sound(env, d, SaveState(env, s, answer))
  {
    hide Inv, Extends, Sound;
    var run := SaveState(env, s, answer);
    if Fault(env, s).Some? {
      SoundNone(env, d, run);
    } else {
      SoundOne(env, d, run, Save(s));
    }
  }

  lemma PlainSaveSound(env: Env, d: Disk, s: State, answer: Result<Answer>)
    requires Inv(env, d) && MarksExtend(d.state, s) && ControlFits(s)
    requires s.entries == d.state.entries && s.retired == d.state.retired && s.garbage == d.state.garbage
    requires s.frontier == d.state.frontier
    ensures Sound(env, d, SaveState(env, s, answer))
  {
    hide Inv, Extends, Sound, MarksExtend, ControlFits, SaveState;
    if Fault(env, s) == None {
      PlainSaveKeeps(env, d, s);
    }
    SaveSound(env, d, s, answer);
  }

  lemma EntrySaveSound(env: Env, d: Disk, s: State, i: nat, e: Entry, answer: Result<Answer>)
    requires Inv(env, d) && MarksExtend(d.state, s) && ControlFits(s)
    requires i < |d.state.entries| && s.entries == d.state.entries[i := e]
    requires s.retired == d.state.retired && s.garbage == d.state.garbage && s.frontier == d.state.frontier
    requires EntryExtends(d.state.entries[i], e)
    requires var o := s.retired + 1 + i; EntryFits(env, PreparedAt(d, o), ReceiptAt(d, o), e)
    ensures Sound(env, d, SaveState(env, s, answer))
  {
    hide Inv, Extends, Sound, MarksExtend, ControlFits, SaveState, EntryFits, EntryExtends;
    if Fault(env, s) == None {
      EntrySaveKeeps(env, d, s, i, e);
    }
    SaveSound(env, d, s, answer);
  }

  lemma StopIfDrainedSound(env: Env, d: Disk, threshold: nat)
    requires Inv(env, d)
    ensures Sound(env, d, StopIfDrained(env, d.state, threshold))
  {
    hide Sound, Fault, SaveState;
    var run := StopIfDrained(env, d.state, threshold);
    if run.writes == [] {
      SoundNone(env, d, run);
    } else {
      PlainSaveSound(env, d, d.state.(stopped := true), Ok(Drained(true)));
    }
  }

  lemma StopIssuanceSound(env: Env, d: Disk)
    requires Inv(env, d)
    ensures Sound(env, d, StopIssuance(env, d.state))
  {
    hide Sound, Fault, SaveState;
    if d.state.registered.None? {
      SoundNone(env, d, StopIssuance(env, d.state));
    } else {
      PlainSaveSound(env, d, d.state.(stopped := true), Ok(Through(d.state.frontier)));
    }
  }

  lemma RecordRegistrationSound(env: Env, d: Disk, r: ControlReceipt)
    requires Inv(env, d)
    ensures Sound(env, d, RecordRegistration(env, d.state, r))
  {
    var run := RecordRegistration(env, d.state, r);
    assert d.state.registered.None? ==> d.state.revision == 0;
    hide Sound, Fault, SaveState, RegistrationFault;
    if RegistrationFault(env, d.state, r).Some? || d.state.registered.Some? {
      SoundNone(env, d, run);
    } else {
      PlainSaveSound(env, d, d.state.(registered := Some(r), revision := 1), Ok(Done));
    }
  }

  lemma ReserveSound(env: Env, d: Disk, request: nat)
    requires Inv(env, d)
    ensures Sound(env, d, Reserve(env, d.state, request))
  {
    hide Sound, Fault, SaveState;
    var run := Reserve(env, d.state, request);
    var s := d.state;
    if s.registered.None? || s.stopped || request == 0 || |s.entries| >= env.limits.window || s.frontier >= U64_MAX
       || StreamOf(s).Err? {
      SoundNone(env, d, run);
    } else {
      var key := Key(StreamOf(s).value, s.frontier + 1, request);
      var e := Entry(key, None, false, None, None);
      var t := s.(entries := s.entries + [e], frontier := s.frontier + 1);
      if Fault(env, t) == None {
        ReserveSaveKeeps(env, d, t, e);
      }
      SaveSound(env, d, t, if ValidKey(key) then Ok(Issued(IdOf(key))) else Err(InvalidId));
    }
  }

  /** What the invariant says of a found entry. */
  lemma FoundEntry(env: Env, d: Disk, id: OperationId)
    requires Inv(env, d) && Index(d.state, id).Ok?
    ensures var i := Index(d.state, id).value;
      && i < |d.state.entries| && Holds(d.state, id.ordinal) && d.state.retired + 1 + i == id.ordinal
      && var e := d.state.entries[i];
      && e == EntryAt(d.state, id.ordinal) && e.key == KeyOf(id, d.state.context) && ValidKey(e.key)
      && EntryFits(env, PreparedAt(d, id.ordinal), ReceiptAt(d, id.ordinal), e)
  {
    WindowOf(env, d.state);
    IndexFindsLive(env, d.state, id);
    hide Fault, EntryFits;
  }

  lemma BindIntentSound(env: Env, d: Disk, id: OperationId, digest: Hash)
    requires Inv(env, d) && Index(d.state, id).Ok? && Index(d.state, id).value < |d.state.entries|
    ensures Sound(env, d, BindIntent(env, d.state, Index(d.state, id).value, digest))
  {
    FoundEntry(env, d, id);
    hide Sound, Fault, SaveState, PreparedFault, Proves, ProvesRequest, Index, EntriesFit, FilesBetween;
    var i := Index(d.state, id).value;
    var e := d.state.entries[i];
    if e.intent.Some? {
      SoundNone(env, d, BindIntent(env, d.state, i, digest));
    } else {
      var f := e.(intent := Some(digest));
      EntrySaveSound(env, d, WithEntry(d.state, i, f), i, f, Ok(Done));
    }
  }

  lemma WriteRequestSound(env: Env, d: Disk, id: OperationId, intent: Intent, digest: Hash,
                          expand: Key -> Result<Request>)
    requires Inv(env, d) && Index(d.state, id).Ok? && Index(d.state, id).value < |d.state.entries|
    requires var e := d.state.entries[Index(d.state, id).value];
      e.intent == Some(digest) && (e.seal.Some? ==> e.prepared)
    ensures var run := WriteRequest(env, d, Index(d.state, id).value, intent, digest, expand);
      Sound(env, d, run) && After(d, run.writes).state == d.state
  {
    FoundEntry(env, d, id);
    hide Sound, Fault, PreparedFault, Proves, ProvesRequest, Index, EntriesFit, FilesBetween, ControlFits, Extends, Inv;
    var i := Index(d.state, id).value;
    var run := WriteRequest(env, d, i, intent, digest, expand);
    if run.writes == [] {
      SoundNone(env, d, run);
    } else {
      var p := Prepared(intent, expand(d.state.entries[i].key).value);
      assert run.writes == [PutPrepared(id.ordinal, p)];
      AfterOne(d, PutPrepared(id.ordinal, p));
      PutPreparedKeeps(env, d, id.ordinal, p);
      SoundOne(env, d, run, PutPrepared(id.ordinal, p));
    }
  }

  lemma MarkPreparedSound(env: Env, d: Disk, id: OperationId, intent: Intent, p: Prepared)
    requires Inv(env, d) && Index(d.state, id).Ok? && Index(d.state, id).value < |d.state.entries|
    requires id.ordinal in d.prepared
    ensures Sound(env, d, MarkPrepared(env, d.state, Index(d.state, id).value, intent, p))
  {
    FoundEntry(env, d, id);
    hide Sound, Fault, SaveState, PreparedFault, Proves, ProvesRequest, Index, EntriesFit, FilesBetween;
    var i := Index(d.state, id).value;
    var e := d.state.entries[i];
    var run := MarkPrepared(env, d.state, i, intent, p);
    if p.intent != intent || e.prepared {
      SoundNone(env, d, run);
    } else {
      EntrySaveSound(env, d, WithEntry(d.state, i, e.(prepared := true)), i, e.(prepared := true), Ok(Ready(p)));
    }
  }

  /** A written request is in its file, and is the one answered. */
  lemma WrittenRequest(env: Env, d: Disk, i: nat, intent: Intent, digest: Hash, expand: Key -> Result<Request>)
    requires i < |d.state.entries|
    requires WriteRequest(env, d, i, intent, digest, expand).answer.Ok?
    ensures var run := WriteRequest(env, d, i, intent, digest, expand);
      var o := d.state.entries[i].key.ordinal; var e := After(d, run.writes);
      run.answer.value.Ready? && o in e.prepared && e.prepared[o] == run.answer.value.prepared
      && PreparedFault(env, d.state.entries[i].key, digest, e.prepared[o]) == None
  {
    hide PreparedFault;
    var run := WriteRequest(env, d, i, intent, digest, expand);
    if run.writes != [] {
      AfterOne(d, run.writes[0]);
    }
  }

  lemma WriteAndMarkSound(env: Env, d: Disk, id: OperationId, intent: Intent, digest: Hash,
                          expand: Key -> Result<Request>)
    requires Inv(env, d) && Index(d.state, id).Ok? && Index(d.state, id).value < |d.state.entries|
    requires var e := d.state.entries[Index(d.state, id).value];
      e.intent == Some(digest) && (e.seal.Some? ==> e.prepared)
    ensures Sound(env, d, WriteAndMark(env, d, Index(d.state, id).value, intent, digest, expand))
  {
    FoundEntry(env, d, id);
    WriteRequestSound(env, d, id, intent, digest, expand);
    var i := Index(d.state, id).value;
    var written := WriteRequest(env, d, i, intent, digest, expand);
    if written.answer.Ok? {
      WrittenRequest(env, d, i, intent, digest, expand);
      hide Index, WriteRequest, MarkPrepared, Inv, Extends, EntryFits, After;
      var e := After(d, written.writes);
      assert Inv(env, e) by { assert written.writes[..|written.writes|] == written.writes; }
      MarkPreparedSound(env, e, id, intent, written.answer.value.prepared);
      SoundFollow(env, d, written, MarkPrepared(env, d.state, i, intent, written.answer.value.prepared));
    }
  }

  lemma BoundEntry(env: Env, d: Disk, id: OperationId, digest: Hash)
    requires Inv(env, d) && Index(d.state, id).Ok? && Index(d.state, id).value < |d.state.entries|
    requires var i := Index(d.state, id).value; BindIntent(env, d.state, i, digest).answer.Ok?
    requires var e := d.state.entries[Index(d.state, id).value]; e.intent.Some? ==> e.intent.value == digest
    ensures var i := Index(d.state, id).value; var bound := BindIntent(env, d.state, i, digest);
      var s := After(d, bound.writes).state;
      && s == (if bound.writes == [] then d.state
               else WithEntry(d.state, i, d.state.entries[i].(intent := Some(digest))))
      && After(d, bound.writes) == d.(state := s)
      && Index(s, id) == Ok(i) && i < |s.entries| && s.entries[i] == d.state.entries[i].(intent := Some(digest))
  {
    FoundEntry(env, d, id);
    hide Fault, EntryFits;
    var i := Index(d.state, id).value;
    var bound := BindIntent(env, d.state, i, digest);
    if bound.writes != [] {
      AfterOne(d, bound.writes[0]);
    }
  }

  lemma PrepareSound(env: Env, d: Disk, id: OperationId, intent: Intent, digest: Hash, expand: Key -> Result<Request>)
    requires Inv(env, d)
    ensures Sound(env, d, Prepare(env, d, id, intent, digest, expand))
  {
    var run := Prepare(env, d, id, intent, digest, expand);
    if Index(d.state, id).Err? {
      SoundNone(env, d, run);
    } else {
      FoundEntry(env, d, id);
      var i := Index(d.state, id).value;
      var e := d.state.entries[i];
      hide Fault, WriteAndMark, Inv, Extends, Index, EntryFits;
      if (e.seal.Some? && !e.prepared) || (e.intent.Some? && e.intent.value != digest) {
        SoundNone(env, d, run);
      } else {
        var bound := BindIntent(env, d.state, i, digest);
        BindIntentSound(env, d, id, digest);
        if bound.answer.Ok? {
          BoundEntry(env, d, id, digest);
          hide Sound, After, BindIntent;
          var f := After(d, bound.writes);
          SoundEnds(env, d, bound);
          WriteAndMarkSound(env, f, id, intent, digest, expand);
          SoundFollow(env, d, bound, WriteAndMark(env, f, i, intent, digest, expand));
        }
      }
    }
  }

  lemma SoundEnds(env: Env, d: Disk, run: Run)
    requires Sound(env, d, run)
    ensures Inv(env, After(d, run.writes)) && Extends(d, After(d, run.writes))
  {
    assert run.writes[..|run.writes|] == run.writes;
  }

  /** A receipt that proves what the entry binds may be written, and then recorded. */
  lemma ReceiptSound(env: Env, d: Disk, id: OperationId, r: Receipt, s: State, after: Entry, answer: Result<Answer>)
    requires Inv(env, d) && Index(d.state, id).Ok? && Index(d.state, id).value < |d.state.entries|
    requires id.ordinal in d.prepared ==> ProvesRequest(env, r, d.prepared[id.ordinal].request)
    requires var e := d.state.entries[Index(d.state, id).value];
      && (id.ordinal !in d.prepared ==> e.seal.Some? && Proves(env, r, e.key, e.seal.value.family, e.seal.value.hash))
      && (after == e.(receipt := Some(env.receiptHash(r)))
          || (id.ordinal in d.prepared && after == e.(prepared := true, receipt := Some(env.receiptHash(r)))))
    requires MarksExtend(d.state, s) && ControlFits(s)
    requires s.entries == d.state.entries[Index(d.state, id).value := after]
    requires s.retired == d.state.retired && s.garbage == d.state.garbage && s.frontier == d.state.frontier
    ensures var e := d.state.entries[Index(d.state, id).value];
      Sound(env, d, Follow(WriteReceipt(env, d, e, r), SaveState(env, s, answer)))
  {
    FoundEntry(env, d, id);
    hide Fault, Proves, ProvesRequest, PreparedFault, Index, EntriesFit, FilesBetween, ControlFits, MarksExtend,
      SaveState, Sound, Inv;
    var i := Index(d.state, id).value;
    var e := d.state.entries[i];
    var written := WriteReceipt(env, d, e, r);
    if written.writes == [] {
      SoundNone(env, d, written);
      if written.answer.Ok? {
        EntrySaveSound(env, d, s, i, after, answer);
      }
    } else {
      PutReceiptKeeps(env, d, id.ordinal, r);
      AfterOne(d, PutReceipt(id.ordinal, r));
      SoundOne(env, d, written, PutReceipt(id.ordinal, r));
      EntrySaveSound(env, Apply(d, PutReceipt(id.ordinal, r)), s, i, after, answer);
    }
    SoundFollow(env, d, written, SaveState(env, s, answer));
  }

  lemma RecordReceiptSound(env: Env, d: Disk, id: OperationId, r: Receipt)
    requires Inv(env, d)
    ensures Sound(env, d, RecordReceipt(env, d, id, r))
  {
    hide Sound, Fault, Proves, ProvesRequest, PreparedFault, SaveState, WriteReceipt, EntriesFit, FilesBetween;
    var run := RecordReceipt(env, d, id, r);
    if Index(d.state, id).Err? {
      SoundNone(env, d, run);
    } else {
      FoundEntry(env, d, id);
      hide Index;
      var i := Index(d.state, id).value;
      var e := d.state.entries[i];
      if e.intent.None? || ReadPrepared(env, d, e.key, e.intent.value).Err?
         || !ProvesRequest(env, r, d.prepared[id.ordinal].request) {
        SoundNone(env, d, run);
      } else {
        var after := e.(prepared := true, receipt := Some(env.receiptHash(r)));
        var s := WithEntry(d.state, i, after);
        ReceiptSound(env, d, id, r, s, after, Ok(Done));
      }
    }
  }

  lemma SaveControlSound(env: Env, d: Disk, s: State, id: nat, command: Command)
    requires Inv(env, d) && s == d.state && !command.SealOne?
    ensures Sound(env, d, SaveControl(env, s, id, command))
  {
    hide Sound, Fault, SaveState;
    var input := Control(s.context, id, command);
    PlainSaveSound(env, d, s.(control := Some(input)), Ok(Asked(input)));
  }

  lemma PrepareAcknowledgmentSound(env: Env, d: Disk, id: nat, maximum: nat)
    requires Inv(env, d)
    ensures Sound(env, d, PrepareAcknowledgment(env, d, id, maximum))
  {
    hide Sound, Fault, SaveState, Inv, Manifest, SaveControl;
    var run := PrepareAcknowledgment(env, d, id, maximum);
    var s := d.state;
    var acks := Manifest(env, d, s.entries, maximum);
    if ControlFault(s, id).Some? || maximum == 0 || maximum > env.limits.window || acks.Err? || acks.value == []
       || StreamOf(s).Err? {
      SoundNone(env, d, run);
    } else {
      SaveControlSound(env, d, s, id,
        Acknowledge(StreamOf(s).value, s.revision, acks.value[|acks.value| - 1].key.ordinal, acks.value));
    }
  }

  lemma PrepareCloseSound(env: Env, d: Disk, id: nat)
    requires Inv(env, d)
    ensures Sound(env, d, PrepareClose(env, d.state, id))
  {
    hide Sound, Fault, SaveState, Inv, SaveControl;
    var s := d.state;
    if ControlFault(s, id).Some? || !s.stopped || s.retired != s.frontier || StreamOf(s).Err? {
      SoundNone(env, d, PrepareClose(env, s, id));
    } else {
      SaveControlSound(env, d, s, id, Close(StreamOf(s).value, s.revision, s.frontier));
    }
  }

  /** A seal's binding fits what the entry and its files hold. */
  lemma BindingFits(env: Env, d: Disk, o: nat, e: Entry)
    requires EntryFits(env, PreparedAt(d, o), ReceiptAt(d, o), e) && e.key.ordinal == o
    requires Binding(env, d, e).Ok?
    ensures var (seal, prepared) := Binding(env, d, e).value; var f := e.(seal := Some(seal), prepared := prepared);
      EntryFits(env, PreparedAt(d, o), ReceiptAt(d, o), f) && EntryExtends(e, f)
  {
    hide Proves;
  }

  lemma PrepareSealSound(env: Env, d: Disk, operation: OperationId, id: nat)
    requires Inv(env, d)
    ensures Sound(env, d, PrepareSeal(env, d, operation, id))
  {
    hide Sound, Fault, SaveState, EntriesFit, FilesBetween;
    var run := PrepareSeal(env, d, operation, id);
    var s := d.state;
    if ControlFault(s, id).Some? || Index(s, operation).Err? {
      SoundNone(env, d, run);
    } else {
      FoundEntry(env, d, operation);
      hide Index;
      var i := Index(s, operation).value;
      var e := s.entries[i];
      if Binding(env, d, e).Err? {
        SoundNone(env, d, run);
      } else {
        BindingFits(env, d, operation.ordinal, e);
        hide EntryFits, EntryExtends, Binding;
        var (seal, prepared) := Binding(env, d, e).value;
        var f := e.(seal := Some(seal), prepared := prepared);
        var input := Control(s.context, id, SealOne(e.key, s.revision, seal.family, seal.hash));
        var t := WithEntry(s, i, f).(control := Some(input));
        assert EntryAt(t, operation.ordinal) == f;
        EntrySaveSound(env, d, t, i, f, Ok(Asked(input)));
      }
    }
  }

  lemma RecordAcknowledgedSound(env: Env, d: Disk, command: Command, receipt: ControlReceipt)
    requires Inv(env, d) && command.Acknowledge? && receipt.outcome.Acknowledged?
    ensures Sound(env, d, RecordAcknowledged(env, d, command, receipt))
  {
    WindowOf(env, d.state);
    hide Sound, Fault, Inv, ManifestFault;
    var run := RecordAcknowledged(env, d, command, receipt);
    var s := d.state;
    if run.writes == [] {
      SoundNone(env, d, run);
    } else {
      var count := command.through - s.retired;
      var t := s.(entries := s.entries[count..], retired := command.through, revision := s.revision + 1,
                  control := None, lastControl := Some(receipt));
      DrainSaveKeeps(env, d, t, count);
      SoundOne(env, d, run, Save(t));
    }
  }

  lemma RecordSealedSound(env: Env, d: Disk, receipt: ControlReceipt)
    requires Inv(env, d) && d.state.control.Some? && d.state.control.value.command.SealOne? && receipt.outcome.Sealed?
    ensures Sound(env, d, RecordSealed(env, d, d.state.control.value.command, receipt))
  {
    hide Sound, Fault, Proves, ProvesRequest, PreparedFault, SaveState, WriteReceipt, EntriesFit, FilesBetween;
    var s := d.state;
    var command := s.control.value.command;
    var run := RecordSealed(env, d, command, receipt);
    var outcome := receipt.outcome.receipt;
    var id := IdOf(command.key);
    if s.revision >= U64_MAX || command.expectedRevision != s.revision || outcome.raftIndex > receipt.raftIndex
       || !Proves(env, outcome, command.key, command.family, command.hash) || Index(s, id).Err? {
      SoundNone(env, d, run);
    } else {
      FoundEntry(env, d, id);
      var i := Index(s, id).value;
      var e := s.entries[i];
      assert e.key == command.key && e.seal == Some(Seal(command.family, command.hash));
      SealProves(env, d, e, outcome);
      hide Index;
      var after := e.(receipt := Some(env.receiptHash(outcome)));
      var t := WithEntry(s, i, after).(revision := s.revision + 1, control := None, lastControl := Some(receipt));
      ReceiptSound(env, d, id, outcome, t, after, Ok(Done));
    }
  }

  /** A receipt that proves the seal proves the request, where one is saved. */
  lemma SealProves(env: Env, d: Disk, e: Entry, r: Receipt)
    requires EntryFits(env, PreparedAt(d, e.key.ordinal), ReceiptAt(d, e.key.ordinal), e) && e.seal.Some?
    requires Proves(env, r, e.key, e.seal.value.family, e.seal.value.hash)
    ensures e.key.ordinal in d.prepared ==> ProvesRequest(env, r, d.prepared[e.key.ordinal].request)
  {
    hide Proves;
  }

  lemma RecordClosedSound(env: Env, d: Disk, command: Command, receipt: ControlReceipt)
    requires Inv(env, d) && command.Close? && receipt.outcome.Closed?
    ensures Sound(env, d, RecordClosed(env, d.state, command, receipt))
  {
    hide Sound, Fault, SaveState;
    var run := RecordClosed(env, d.state, command, receipt);
    if run.writes == [] {
      SoundNone(env, d, run);
    } else {
      PlainSaveSound(env, d, d.state.(closed := true, control := None, lastControl := Some(receipt)), Ok(Done));
    }
  }

  lemma RecordControlSound(env: Env, d: Disk, receipt: ControlReceipt)
    requires Inv(env, d)
    ensures Sound(env, d, RecordControl(env, d, receipt))
  {
    hide Sound, Inv, RecordAcknowledged, RecordSealed, RecordClosed;
    var s := d.state;
    var run := RecordControl(env, d, receipt);
    if s.lastControl == Some(receipt) || s.control.None? || !AnswersControl(env, s.control.value, receipt)
       || PriorIndex(s).Err? || receipt.raftIndex <= PriorIndex(s).value {
      SoundNone(env, d, run);
    } else {
      var command := s.control.value.command;
      if command.Acknowledge? && receipt.outcome.Acknowledged? {
        RecordAcknowledgedSound(env, d, command, receipt);
      } else if command.SealOne? && receipt.outcome.Sealed? {
        RecordSealedSound(env, d, receipt);
      } else if command.Close? && receipt.outcome.Closed? {
        RecordClosedSound(env, d, command, receipt);
      } else {
        SoundNone(env, d, run);
      }
    }
  }

  lemma ActSound(env: Env, d: Disk, call: Call)
    requires Inv(env, d)
    ensures Sound(env, d, Act(env, d, call))
  {
    hide Sound, Inv, StopIfDrained, RecordRegistration, Reserve, Prepare, RecordReceipt, PrepareAcknowledgment,
      PrepareSeal,
      StopIssuance, PrepareClose, RecordControl;
    match call
    case CallStopIfDrained(threshold) => StopIfDrainedSound(env, d, threshold);
    case CallRecordRegistration(r) => RecordRegistrationSound(env, d, r);
    case CallReserve(request) => ReserveSound(env, d, request);
    case CallPrepare(id, intent, expand) =>
      if env.digest(intent).Some? {
        PrepareSound(env, d, id, intent, env.digest(intent).value, expand);
      } else {
        SoundNone(env, d, Act(env, d, call));
      }
    case CallRecordReceipt(id, r) => RecordReceiptSound(env, d, id, r);
    case CallPrepareAcknowledgment(id, maximum) => PrepareAcknowledgmentSound(env, d, id, maximum);
    case CallPrepareSeal(operation, id) => PrepareSealSound(env, d, operation, id);
    case CallStopIssuance => StopIssuanceSound(env, d);
    case CallPrepareClose(id) => PrepareCloseSound(env, d, id);
    case CallRecordControl(r) => RecordControlSound(env, d, r);
    case _ => SoundNone(env, d, Act(env, d, call));
  }

  /** Every call, stopped anywhere. */
  lemma CallSound(env: Env, d: Disk, call: Call)
    requires Inv(env, d)
    ensures Sound(env, d, RunOf(env, d, call))
  {
    if call.CallPrepare? && env.digest(call.intent).None? {
      SoundNone(env, d, RunOf(env, d, call));
    } else {
      LoadSound(env, d);
      hide Sound, Load, Act, Inv;
      var e := After(d, Load(env, d).writes);
      ActSound(env, e, call);
      SoundFollow(env, d, Load(env, d), Act(env, e, call));
    }
  }
}
