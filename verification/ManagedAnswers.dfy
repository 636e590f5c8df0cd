/**
 What each completed call of a managed store answers and leaves, exactly, from any files that meet the
 invariant: when it succeeds, what it is refused with otherwise, and the files after it.
 */
module ManagedAnswers {
  import opened Basics
  import opened ManagedModel
  import opened ManagedSafety
  import opened ManagedCalls
  import opened ManagedRuns
  import opened ManagedTheorems
  import opened ManagedAcknowledge

  // ---------------------------------------------------------------- a call is loading, then acting

  /** The files once loaded: those of retired ordinals are gone. */
  ghost function Swept(d: Disk): Disk {
    Disk(d.state.(garbage := d.state.retired),
         map o | o in d.prepared && d.state.retired < o :: d.prepared[o],
         map o | o in d.receipts && d.state.retired < o :: d.receipts[o])
  }

  ghost function Left(env: Env, d: Disk, call: Call): Disk {
    After(d, RunOf(env, d, call).writes)
  }

  /** Loading succeeds, and leaves the state as it was but for what it collected, with the files of live
      ordinals and no others. */
  ghost predicate LoadGives(env: Env, d: Disk, e: Disk, r: Result<Answer>) {
    r == Ok(Done) && Inv(env, e) && e == Swept(d)
  }

  lemma LoadAnswers(env: Env, d: Disk)
    requires Inv(env, d)
    ensures LoadGives(env, d, After(d, Load(env, d).writes), Load(env, d).answer)
  {
    LoadSound(env, d);
    hide Inv, Load, Sound;
  }

  lemma LoadsThenActs(env: Env, d: Disk, call: Call)
    requires Inv(env, d) && !(call.CallPrepare? && env.digest(call.intent).None?)
    ensures var b := Swept(d);
      && Inv(env, b) && RunOf(env, d, call).answer == Act(env, b, call).answer
      && Left(env, d, call) == After(b, Act(env, b, call).writes)
  {
    hide Inv, Load, Act, Swept, After;
    LoadAnswers(env, d);
    AfterConcat(d, Load(env, d).writes, Act(env, Swept(d), call).writes);
  }

  /** The invariant holds after the call, and nothing bound before it changed. */
  ghost predicate Kept(env: Env, d: Disk, e: Disk) {
    Inv(env, e) && Extends(d, e)
  }

  lemma CallKeeps(env: Env, d: Disk, call: Call)
    requires Inv(env, d)
    ensures Kept(env, d, Left(env, d, call))
  {
    hide Inv, Extends, RunOf, Sound;
    CallSound(env, d, call);
    SoundEnds(env, d, RunOf(env, d, call));
  }

  // ---------------------------------------------------------------- a state that may be saved

  /** A state that changes neither the registration nor the shape of the window may be saved. */
  lemma StillValid(env: Env, s: State, t: State)
    requires Fault(env, s) == None && s.registered.Some? && t.registered == s.registered && t.revision >= s.revision
    requires t.context == s.context && t.limits == s.limits && t.registration == s.registration
    requires MarksFit(t, env.limits) && EntriesValid(t.entries, StreamOf(s).value, t.retired)
    ensures Fault(env, t) == None
  {
    assert StreamOf(t) == StreamOf(s);
    assert RegistrationFault(env, t, t.registered.value) == RegistrationFault(env, s, s.registered.value);
  }

  /** Likewise one with the same entries but for one, whose key is kept. */
  lemma StillValidWith(env: Env, s: State, t: State, i: nat, e: Entry)
    requires Fault(env, s) == None && s.registered.Some? && t.registered == s.registered && t.revision >= s.revision
    requires t.context == s.context && t.limits == s.limits && t.registration == s.registration
    requires i < |s.entries| && t.entries == s.entries[i := e] && e.key == s.entries[i].key
    requires (e.prepared ==> e.intent.Some?) && (e.receipt.Some? ==> e.prepared || e.seal.Some?)
    requires t.garbage == s.garbage && t.retired == s.retired && t.frontier == s.frontier
    requires t.stopped == s.stopped && t.closed == s.closed
    ensures Fault(env, t) == None
  {
    WindowOf(env, s);
    var stream := StreamOf(s).value;
    assert EntriesValid(t.entries, stream, t.retired) by {
      forall j | 0 <= j < |t.entries|
        ensures EntryValid(t.entries[j], stream, t.retired + 1 + j)
      {
        assert EntryValid(s.entries[j], stream, s.retired + 1 + j);
      }
    }
    assert MarksFit(t, env.limits) by { MarksOf(env, s); }
    hide EntriesValid, EntryValid, MarksFit;
    StillValid(env, s, t);
  }

  lemma MarksOf(env: Env, s: State)
    requires Fault(env, s) == None
    ensures MarksFit(s, env.limits) && EntriesValid(s.entries, StreamOf(s).value, s.retired)
    ensures s.registration.command.Register? && StreamOf(s) == Ok(Owned(s))
    ensures s.registered.None? ==> s.frontier == 0 && !s.stopped && s.control.None? && s.entries == []
    ensures s.registered.Some? ==> s.revision > 0
  {
  }

  /** The stream the store asked for, and owns once registered. */
  function Owned(s: State): Stream
    requires s.registration.command.Register?
  {
    Stream(s.context, s.registration.command.slot, s.registration.command.expectedGeneration + 1)
  }

  // ---------------------------------------------------------------- refusals

  ghost predicate Denied(b: Disk, e: Disk, r: Result<Answer>, error: Error) {
    e == b && r == Err(error)
  }

  ghost predicate Found(s: State, id: OperationId) {
    && s.registration.command.Register? && KeyOf(id, s.context).stream == Owned(s)
    && Holds(s, id.ordinal) && EntryAt(s, id.ordinal).key.id == id.request
  }

  /** What an operation that is not live is refused with: it is retired, another was issued in its place, or it was
      never issued. */
  ghost predicate Unfound(s: State, id: OperationId, error: Error) {
    && s.registration.command.Register?
    && var own := KeyOf(id, s.context).stream == Owned(s);
       var older := s.registered.Some? && id.slot == Owned(s).slot && id.generation < Owned(s).generation;
    if older || (own && (s.closed || id.ordinal <= s.retired)) then error == Retired
    else if own && id.ordinal <= s.frontier then error == Conflict
    else error == Missing
  }

  lemma LookExactly(env: Env, s: State, id: OperationId)
    requires Fault(env, s) == None
    ensures Index(s, id).Ok? <==> Found(s, id)
    ensures Index(s, id).Ok? ==> Index(s, id).value == id.ordinal - s.retired - 1 < |s.entries|
    ensures Index(s, id).Err? ==> Unfound(s, id, Index(s, id).error)
  {
    WindowOf(env, s);
    MarksOf(env, s);
    if Holds(s, id.ordinal) {
      assert EntryValid(EntryAt(s, id.ordinal), Owned(s), id.ordinal);
    }
    hide Fault, EntriesValid;
  }

  /** Why no control can be asked for under this identity. */
  ghost function Barred(s: State, id: nat): Option<Error> {
    if id == 0 then Some(InvalidId)
    else if s.registered.None? then Some(NotRegistered)
    else if s.closed then Some(Retired)
    else if s.control.Some? then Some(ControlPending)
    else if id == s.registration.id || (s.lastControl.Some? && id == s.lastControl.value.id) then Some(Conflict)
    else None
  }

  // ---------------------------------------------------------------- issuing and stopping

  /** Answers yes, and stops the stream, exactly when something was issued, at least as much as asked about, all of
      it is retired and the stream is neither stopped nor being controlled. */
  ghost predicate DrainGives(b: Disk, e: Disk, threshold: nat, r: Result<Answer>) {
    var s := b.state;
    if s.registered.None? then Denied(b, e, r, NotRegistered)
    else if !s.stopped && !s.closed && s.control.None? && 1 <= s.frontier && threshold <= s.frontier == s.retired then
      r == Ok(Drained(true)) && e == b.(state := s.(stopped := true))
    else e == b && r == Ok(Drained(false))
  }

  lemma StoppedIsValid(env: Env, s: State)
    requires Fault(env, s) == None && s.registered.Some?
    ensures Fault(env, s.(stopped := true)) == None
  {
    MarksOf(env, s);
    StillValid(env, s, s.(stopped := true));
  }

  lemma DrainExactly(env: Env, b: Disk, threshold: nat)
    requires Inv(env, b)
    ensures var run := StopIfDrained(env, b.state, threshold);
      DrainGives(b, After(b, run.writes), threshold, run.answer)
  {
    MarksOf(env, b.state);
    if b.state.registered.Some? {
      StoppedIsValid(env, b.state);
    }
    AfterOne(b, Save(b.state.(stopped := true)));
    hide Inv, Fault, EntriesValid, StreamOf;
  }

  /** A stop succeeds exactly on a registered stream, and names the last ordinal issued. */
  ghost predicate StopGives(b: Disk, e: Disk, r: Result<Answer>) {
    if b.state.registered.None? then Denied(b, e, r, NotRegistered)
    else r == Ok(Through(b.state.frontier)) && e == b.(state := b.state.(stopped := true))
  }

  lemma StopExactly(env: Env, b: Disk)
    requires Inv(env, b)
    ensures var run := StopIssuance(env, b.state); StopGives(b, After(b, run.writes), run.answer)
  {
    if b.state.registered.Some? {
      StoppedIsValid(env, b.state);
    }
    AfterOne(b, Save(b.state.(stopped := true)));
    hide Inv, Fault;
  }

  /** The receipt is of the registration asked for: its stream, owner and window, new and empty. */
  ghost predicate Registers(env: Env, s: State, receipt: ControlReceipt) {
    && s.registration.command.Register?
    && receipt.context == s.registration.context && receipt.id == s.registration.id && receipt.raftIndex > 0
    && receipt.intentHash == env.controlHash(s.registration.context, s.registration.command)
    && receipt.outcome == Registered(Owned(s), s.registration.command.owner, 1, s.registration.command.window, 0)
  }

  /** A registration is recorded exactly when it is of the one asked for and no other is recorded. */
  ghost predicate RegistrationGives(env: Env, b: Disk, e: Disk, receipt: ControlReceipt, r: Result<Answer>) {
    var s := b.state;
    if Registers(env, s, receipt) && s.registered.None? then
      r == Ok(Done) && e == b.(state := s.(registered := Some(receipt), revision := 1))
    else if s.registered == Some(receipt) then e == b && r == Ok(Done)
    else Denied(b, e, r, ReceiptMismatch)
  }

  lemma RegistersExactly(env: Env, s: State, receipt: ControlReceipt)
    requires Fault(env, s) == None
    ensures RegistrationFault(env, s, receipt) == if Registers(env, s, receipt) then None else Some(ReceiptMismatch)
    ensures s.registered == Some(receipt) ==> Registers(env, s, receipt)
    ensures Registers(env, s, receipt) && s.registered.None? ==>
      Fault(env, s.(registered := Some(receipt), revision := 1)) == None
  {
  }

  lemma RegistrationExactly(env: Env, b: Disk, receipt: ControlReceipt)
    requires Inv(env, b)
    ensures var run := RecordRegistration(env, b.state, receipt);
      RegistrationGives(env, b, After(b, run.writes), receipt, run.answer)
  {
    RegistersExactly(env, b.state, receipt);
    AfterOne(b, Save(b.state.(registered := Some(receipt), revision := 1)));
    hide Inv, Fault, Registers, RegistrationFault;
  }

  /** A reserve issues the ordinal after the frontier exactly while the stream is registered, issuing and has room. */
  ghost predicate ReserveGives(env: Env, b: Disk, e: Disk, request: nat, r: Result<Answer>) {
    var s := b.state;
    if s.registered.None? then Denied(b, e, r, NotRegistered)
    else if s.stopped then Denied(b, e, r, Stopped)
    else if request == 0 then Denied(b, e, r, InvalidId)
    else if s.frontier >= U64_MAX || s.frontier - s.retired >= env.limits.window then Denied(b, e, r, Capacity)
    else
      && s.registration.command.Register?
      && var id := OperationId(Owned(s).slot, Owned(s).generation, s.frontier + 1, request);
      && r == Ok(Issued(id))
      && var entry := Entry(KeyOf(id, s.context), None, false, None, None);
      && e == b.(state := s.(frontier := s.frontier + 1, entries := s.entries + [entry]))
  }

  lemma IssueExactly(env: Env, b: Disk, request: nat)
    requires Inv(env, b)
    ensures var run := Reserve(env, b.state, request); ReserveGives(env, b, After(b, run.writes), request, run.answer)
  {
    MarksOf(env, b.state);
    ReserveExactly(env, b, request);
    var key := Key(Owned(b.state), b.state.frontier + 1, request);
    AfterOne(b, Save(Reserved(b.state, key)));
    hide Inv, Fault, StreamOf;
  }

  // ---------------------------------------------------------------- requests

  /** The ordinal's entry as it is after the call. */
  function Entered(s: State, o: nat, e: Entry): State
    requires Holds(s, o)
  {
    s.(entries := s.entries[o - s.retired - 1 := e])
  }

  /** The request is one this key may carry. */
  ghost predicate Carries(env: Env, key: Key, request: Request) {
    env.identity(request).Some? && env.identity(request).value.key == key
  }

  /** A prepare of a live operation whose request is saved answers it, exactly where the intent is the saved one. */
  ghost predicate SavedGives(b: Disk, e: Disk, o: nat, intent: Intent, r: Result<Answer>)
    requires Holds(b.state, o) && o in b.prepared
  {
    if b.prepared[o].intent != intent then Denied(b, e, r, Conflict)
    else
      && r == Ok(Ready(b.prepared[o]))
      && e == b.(state := Entered(b.state, o, EntryAt(b.state, o).(prepared := true)))
  }

  /** One whose request is not saved binds the intent and then expands, saves and marks the request, unless the
      expansion fails or is not of this operation. */
  ghost predicate ExpandGives(env: Env, b: Disk, e: Disk, o: nat, intent: Intent, digest: Hash,
                              expand: Key -> Result<Request>, r: Result<Answer>)
    requires Holds(b.state, o)
  {
    var entry := EntryAt(b.state, o).(intent := Some(digest));
    var bound := b.(state := Entered(b.state, o, entry));
    var request := expand(entry.key);
    if request.Err? then Denied(bound, e, r, request.error)
    else if env.identity(request.value).None? then Denied(bound, e, r, Conflict)
    else if !Carries(env, entry.key, request.value) then Denied(bound, e, r, WrongContext)
    else
      var p := Prepared(intent, request.value);
      && r == Ok(Ready(p))
      && e == Disk(Entered(b.state, o, entry.(prepared := true)), b.prepared[o := p], b.receipts)
  }

  ghost predicate PrepareGives(env: Env, b: Disk, e: Disk, id: OperationId, intent: Intent, digest: Hash,
                               expand: Key -> Result<Request>, r: Result<Answer>)
  {
    var o := id.ordinal;
    if !Found(b.state, id) then e == b && r.Err? && Unfound(b.state, id, r.error)
    else
      var entry := EntryAt(b.state, o);
      if entry.seal.Some? && !entry.prepared then Denied(b, e, r, Stopped)
      else if entry.intent.Some? && entry.intent.value != digest then Denied(b, e, r, Conflict)
      else if o in b.prepared then SavedGives(b, e, o, intent, r)
      else ExpandGives(env, b, e, o, intent, digest, expand, r)
  }

  /** A live entry, and what its files are. */
  lemma LiveEntry(env: Env, b: Disk, id: OperationId)
    requires Inv(env, b) && Found(b.state, id)
    ensures b.state.registered.Some?
    ensures Index(b.state, id) == Ok(id.ordinal - b.state.retired - 1)
    ensures var e := EntryAt(b.state, id.ordinal);
      && e.key == KeyOf(id, b.state.context) && ValidKey(e.key) && e.key.ordinal == id.ordinal
      && (e.prepared ==> e.intent.Some?) && (e.receipt.Some? ==> e.prepared || e.seal.Some?)
      && EntryFits(env, PreparedAt(b, id.ordinal), ReceiptAt(b, id.ordinal), e)
  {
    MarksOf(env, b.state);
    WindowOf(env, b.state);
    LookExactly(env, b.state, id);
    FoundEntry(env, b, id);
    assert EntryValid(EntryAt(b.state, id.ordinal), Owned(b.state), id.ordinal);
    hide Inv, Fault, EntryFits, Index;
  }

  lemma SavedExactly(env: Env, b: Disk, id: OperationId, intent: Intent, digest: Hash, expand: Key -> Result<Request>)
    requires Inv(env, b) && Found(b.state, id) && id.ordinal in b.prepared
    requires EntryAt(b.state, id.ordinal).intent == Some(digest)
    ensures var i := id.ordinal - b.state.retired - 1;
      var run := WriteAndMark(env, b, i, intent, digest, expand);
      SavedGives(b, After(b, run.writes), id.ordinal, intent, run.answer)
  {
    hide EntriesFit, FilesBetween, ControlFits, Fault, ReadPrepared, EntryFits, After;
    LiveEntry(env, b, id);
    SavedReads(env, b, id);
    AfterNone(b);
    var i, e := id.ordinal - b.state.retired - 1, EntryAt(b.state, id.ordinal);
    var s := WithEntry(b.state, i, e.(prepared := true));
    StillValidWith(env, b.state, s, i, e.(prepared := true));
    AfterOne(b, Save(s));
    var p := b.prepared[id.ordinal];
    assert WriteRequest(env, b, i, intent, digest, expand) == Run([], Ok(Ready(p)));
    var marked := MarkPrepared(env, b.state, i, intent, p);
    assert [] + marked.writes == marked.writes;
    if e.prepared {
      MarkedAlready(b.state, i, e);
    }
  }

  lemma MarkedAlready(s: State, i: nat, e: Entry)
    requires i < |s.entries| && s.entries[i] == e
    ensures e.prepared ==> s.(entries := s.entries[i := e.(prepared := true)]) == s
  {
  }

  lemma SavedReads(env: Env, b: Disk, id: OperationId)
    requires Inv(env, b) && Found(b.state, id) && id.ordinal in b.prepared
    ensures var e := EntryAt(b.state, id.ordinal);
      e.intent.Some? && ReadPrepared(env, b, e.key, e.intent.value) == Ok(b.prepared[id.ordinal])
  {
    LiveEntry(env, b, id);
    hide Inv, Fault, Index, Found;
  }

  lemma ExpandExactly(env: Env, b: Disk, id: OperationId, intent: Intent, digest: Hash, expand: Key -> Result<Request>)
    requires Inv(env, b) && Found(b.state, id) && id.ordinal !in b.prepared && env.digest(intent) == Some(digest)
    requires var e := EntryAt(b.state, id.ordinal); e.intent == Some(digest) && !e.prepared
    ensures var i := id.ordinal - b.state.retired - 1;
      var run := WriteAndMark(env, b, i, intent, digest, expand);
      ExpandGives(env, b, After(b, run.writes), id.ordinal, intent, digest, expand, run.answer)
  {
    LiveEntry(env, b, id);
    var i, e := id.ordinal - b.state.retired - 1, EntryAt(b.state, id.ordinal);
    var s := WithEntry(b.state, i, e.(prepared := true));
    assert e.(intent := Some(digest)) == e && Entered(b.state, id.ordinal, e) == b.state;
    StillValidWith(env, b.state, s, i, e.(prepared := true));
    hide Inv, Fault, Index, Found;
    if expand(e.key).Ok? {
      var p := Prepared(intent, expand(e.key).value);
      AfterTwo(b, PutPrepared(id.ordinal, p), Save(s));
      assert [PutPrepared(id.ordinal, p)] + [Save(s)] == [PutPrepared(id.ordinal, p), Save(s)];
    }
  }

  /** Binding the intent leaves everything else as it is. */
  lemma BindExactly(env: Env, b: Disk, id: OperationId, digest: Hash)
    requires Inv(env, b) && Found(b.state, id) && EntryAt(b.state, id.ordinal).intent.None?
    ensures var i := id.ordinal - b.state.retired - 1; var run := BindIntent(env, b.state, i, digest);
      var s := Entered(b.state, id.ordinal, EntryAt(b.state, id.ordinal).(intent := Some(digest)));
      && run == Run([Save(s)], Ok(Done)) && Inv(env, b.(state := s)) && Found(s, id)
  {
    LiveEntry(env, b, id);
    var i, e := id.ordinal - b.state.retired - 1, EntryAt(b.state, id.ordinal);
    var s := Entered(b.state, id.ordinal, e.(intent := Some(digest)));
    StillValidWith(env, b.state, s, i, e.(intent := Some(digest)));
    BindIntentSound(env, b, id, digest);
    hide Inv, Fault, Index, EntryFits, Sound, After;
    AfterOne(b, Save(s));
    SoundEnds(env, b, BindIntent(env, b.state, i, digest));
  }

  /** An operation whose intent is bound to this digest already. */
  lemma PrepareBound(env: Env, b: Disk, id: OperationId, intent: Intent, digest: Hash, expand: Key -> Result<Request>)
    requires Inv(env, b) && env.digest(intent) == Some(digest) && Found(b.state, id)
    requires var e := EntryAt(b.state, id.ordinal); !(e.seal.Some? && !e.prepared) && e.intent == Some(digest)
    ensures var run := WriteAndMark(env, b, id.ordinal - b.state.retired - 1, intent, digest, expand);
      var e := After(b, run.writes);
      if id.ordinal in b.prepared then SavedGives(b, e, id.ordinal, intent, run.answer)
      else ExpandGives(env, b, e, id.ordinal, intent, digest, expand, run.answer)
  {
    LiveEntry(env, b, id);
    hide Inv, Fault, Index, Found, WriteAndMark, SavedGives, ExpandGives, PreparedFault, After, Proves, ProvesRequest;
    if id.ordinal in b.prepared {
      SavedExactly(env, b, id, intent, digest, expand);
    } else {
      ExpandExactly(env, b, id, intent, digest, expand);
    }
  }

  lemma UnboundUnsaved(env: Env, b: Disk, id: OperationId)
    requires Inv(env, b) && Found(b.state, id) && EntryAt(b.state, id.ordinal).intent.None?
    ensures id.ordinal !in b.prepared && !EntryAt(b.state, id.ordinal).prepared
  {
    LiveEntry(env, b, id);
    hide Inv;
  }

  /** One whose intent is not bound yet, and whose request is therefore not saved. */
  lemma PrepareUnbound(env: Env, b: Disk, id: OperationId, intent: Intent, digest: Hash,
                       expand: Key -> Result<Request>)
    requires Inv(env, b) && env.digest(intent) == Some(digest) && Found(b.state, id)
    requires EntryAt(b.state, id.ordinal).intent.None?
    ensures id.ordinal !in b.prepared
    ensures var i, entry := id.ordinal - b.state.retired - 1, EntryAt(b.state, id.ordinal);
      var bound := b.(state := Entered(b.state, id.ordinal, entry.(intent := Some(digest))));
      var run := Follow(BindIntent(env, b.state, i, digest), WriteAndMark(env, bound, i, intent, digest, expand));
      ExpandGives(env, b, After(b, run.writes), id.ordinal, intent, digest, expand, run.answer)
  {
    hide Inv, Fault, Index, WriteAndMark, BindIntent, ExpandGives, EntryFits, After, EntriesValid;
    UnboundUnsaved(env, b, id);
    var i, entry := id.ordinal - b.state.retired - 1, EntryAt(b.state, id.ordinal);
    BindExactly(env, b, id, digest);
    var bound := b.(state := Entered(b.state, id.ordinal, entry.(intent := Some(digest))));
    ExpandExactly(env, bound, id, intent, digest, expand);
    var run := WriteAndMark(env, bound, i, intent, digest, expand);
    AfterConcat(b, [Save(bound.state)], run.writes);
    AfterOne(b, Save(bound.state));
    ExpandFrom(env, b, After(bound, run.writes), id.ordinal, intent, digest, expand, run.answer);
  }

  lemma PrepareLive(env: Env, b: Disk, id: OperationId, intent: Intent, digest: Hash, expand: Key -> Result<Request>)
    requires Inv(env, b) && env.digest(intent) == Some(digest) && Found(b.state, id)
    requires var e := EntryAt(b.state, id.ordinal);
      !(e.seal.Some? && !e.prepared) && !(e.intent.Some? && e.intent.value != digest)
    ensures var run := Prepare(env, b, id, intent, digest, expand); var e := After(b, run.writes);
      if id.ordinal in b.prepared then SavedGives(b, e, id.ordinal, intent, run.answer)
      else ExpandGives(env, b, e, id.ordinal, intent, digest, expand, run.answer)
  {
    LiveEntry(env, b, id);
    hide Inv, Fault, Index, Found, WriteAndMark, BindIntent, SavedGives, ExpandGives, EntryFits, After;
    var i := id.ordinal - b.state.retired - 1;
    if EntryAt(b.state, id.ordinal).intent.Some? {
      BindNothing(env, b.state, i, digest);
      PrepareBound(env, b, id, intent, digest, expand);
      var run := WriteAndMark(env, b, i, intent, digest, expand);
      assert [] + run.writes == run.writes && b.(state := b.state) == b;
    } else {
      BindExactly(env, b, id, digest);
      PrepareUnbound(env, b, id, intent, digest, expand);
    }
  }

  lemma BindNothing(env: Env, s: State, i: nat, digest: Hash)
    requires i < |s.entries| && s.entries[i].intent.Some?
    ensures BindIntent(env, s, i, digest) == Run([], Ok(Done))
  {
  }

  /** Expanding where the intent is bound already is expanding where it is not. */
  lemma ExpandFrom(env: Env, b: Disk, e: Disk, o: nat, intent: Intent, digest: Hash, expand: Key -> Result<Request>,
                   r: Result<Answer>)
    requires Holds(b.state, o)
    requires var s := Entered(b.state, o, EntryAt(b.state, o).(intent := Some(digest)));
      Holds(s, o) && ExpandGives(env, b.(state := s), e, o, intent, digest, expand, r)
    ensures ExpandGives(env, b, e, o, intent, digest, expand, r)
  {
  }

  lemma PrepareExactly(env: Env, b: Disk, id: OperationId, intent: Intent, digest: Hash, expand: Key -> Result<Request>)
    requires Inv(env, b) && env.digest(intent) == Some(digest)
    ensures var run := Prepare(env, b, id, intent, digest, expand);
      PrepareGives(env, b, After(b, run.writes), id, intent, digest, expand, run.answer)
  {
    LookExactly(env, b.state, id);
    hide Fault, Index, Found, Unfound, WriteAndMark, BindIntent, SavedGives, ExpandGives, EntryFits, After;
    AfterNone(b);
    if Found(b.state, id) {
      LiveEntry(env, b, id);
      var e := EntryAt(b.state, id.ordinal);
      if !(e.seal.Some? && !e.prepared) && !(e.intent.Some? && e.intent.value != digest) {
        PrepareLive(env, b, id, intent, digest, expand);
      }
    }
  }

  /** A request is answered exactly for a live operation marked prepared, as it was saved. */
  ghost predicate RequestGives(b: Disk, e: Disk, id: OperationId, r: Result<Answer>) {
    && e == b
    && if !Found(b.state, id) then r.Err? && Unfound(b.state, id, r.error)
       else if !EntryAt(b.state, id.ordinal).prepared then r == Err(Unprepared)
       else id.ordinal in b.prepared && r == Ok(Ready(b.prepared[id.ordinal]))
  }

  lemma RequestExactly(env: Env, b: Disk, id: OperationId)
    requires Inv(env, b)
    ensures var run := RequestOf(env, b, id); RequestGives(b, After(b, run.writes), id, run.answer)
  {
    LookExactly(env, b.state, id);
    if Found(b.state, id) {
      LiveEntry(env, b, id);
    }
    hide Inv, Fault, Index, Found, Unfound, PreparedFault, Proves, ProvesRequest;
  }

  // ---------------------------------------------------------------- receipts

  /** The receipt is of exactly this operation. */
  ghost predicate IsOf(env: Env, receipt: Receipt, key: Key, family: Family, hash: Hash) {
    receipt.key == key && receipt.intentHash == hash && receipt.raftIndex > 0 && env.wellFormed(receipt, family)
  }

  /** The receipt is of the request saved for the ordinal. */
  ghost predicate IsOfSaved(env: Env, b: Disk, o: nat, receipt: Receipt)
    requires o in b.prepared
  {
    var identity := env.identity(b.prepared[o].request);
    identity.Some? && IsOf(env, receipt, identity.value.key, identity.value.family, identity.value.hash)
  }

  /** A receipt is recorded exactly for a live operation whose request is saved, if it is of that request and no other
      is saved. */
  ghost predicate ReceiptGives(env: Env, b: Disk, e: Disk, id: OperationId, receipt: Receipt, r: Result<Answer>) {
    var o := id.ordinal;
    if !Found(b.state, id) then e == b && r.Err? && Unfound(b.state, id, r.error)
    else
      var entry := EntryAt(b.state, o);
      if entry.intent.None? then Denied(b, e, r, Unprepared)
      else if o !in b.prepared then Denied(b, e, r, Corrupt)
      else if !IsOfSaved(env, b, o, receipt) || (o in b.receipts && b.receipts[o] != receipt) then
        Denied(b, e, r, ReceiptMismatch)
      else
        var after := entry.(prepared := true, receipt := Some(env.receiptHash(receipt)));
        r == Ok(Done) && e == Disk(Entered(b.state, o, after), b.prepared, b.receipts[o := receipt])
  }

  lemma ProvesExactly(env: Env, b: Disk, id: OperationId, receipt: Receipt)
    requires Inv(env, b) && Found(b.state, id) && id.ordinal in b.prepared
    ensures ProvesRequest(env, receipt, b.prepared[id.ordinal].request) <==> IsOfSaved(env, b, id.ordinal, receipt)
  {
    LiveEntry(env, b, id);
    hide Inv, Fault, Index, Found;
  }

  /** A receipt is written exactly if no other is there. */
  lemma WriteExactly(env: Env, b: Disk, o: nat, receipt: Receipt)
    requires Inv(env, b) && Holds(b.state, o)
    ensures var run := WriteReceipt(env, b, EntryAt(b.state, o), receipt);
      if o in b.receipts && b.receipts[o] != receipt then run == Refuse(ReceiptMismatch)
      else run.answer == Ok(Done) && After(b, run.writes) == b.(receipts := b.receipts[o := receipt])
  {
    WindowOf(env, b.state);
    assert EntryFits(env, PreparedAt(b, o), ReceiptAt(b, o), EntryAt(b.state, o));
    AfterOne(b, PutReceipt(o, receipt));
    assert o in b.receipts && b.receipts[o] == receipt ==> b.receipts[o := receipt] == b.receipts;
    hide Inv, Fault;
  }

  lemma FollowedBySave(env: Env, b: Disk, first: Run, s: State)
    requires first.answer.Ok? && Fault(env, s) == None
    ensures var run := Follow(first, SaveState(env, s, Ok(Done)));
      run.answer == Ok(Done) && After(b, run.writes) == After(b, first.writes).(state := s)
  {
    hide After;
    AfterConcat(b, first.writes, [Save(s)]);
    AfterOne(After(b, first.writes), Save(s));
  }

  lemma ReceiptExactly(env: Env, b: Disk, id: OperationId, receipt: Receipt)
    requires Inv(env, b)
    ensures var run := RecordReceipt(env, b, id, receipt);
      ReceiptGives(env, b, After(b, run.writes), id, receipt, run.answer)
  {
    LookExactly(env, b.state, id);
    hide Fault, Index, Found, Unfound, WriteReceipt, IsOfSaved, SaveState, After, Follow, EntryFits, PreparedFault,
         ProvesRequest, EntriesFit, FilesBetween, ControlFits;
    AfterNone(b);
    if Found(b.state, id) {
      LiveEntry(env, b, id);
      var i, e := id.ordinal - b.state.retired - 1, EntryAt(b.state, id.ordinal);
      var after := e.(prepared := true, receipt := Some(env.receiptHash(receipt)));
      var s := Entered(b.state, id.ordinal, after);
      WriteExactly(env, b, id.ordinal, receipt);
      if id.ordinal in b.prepared {
        ProvesExactly(env, b, id, receipt);
        SavedReads(env, b, id);
        StillValidWith(env, b.state, s, i, after);
        var written := WriteReceipt(env, b, e, receipt);
        FollowRefused(written, SaveState(env, s, Ok(Done)));
        if written.answer.Ok? {
          FollowedBySave(env, b, written, s);
        }
      }
    }
  }

  lemma FollowRefused(first: Run, next: Run)
    ensures first.answer.Err? ==> Follow(first, next) == first
  {
  }

  /** A receipt read back is the one saved, for a live operation marked prepared or sealed. */
  ghost predicate ReadGives(b: Disk, e: Disk, id: OperationId, r: Result<Answer>) {
    && e == b
    && if !Found(b.state, id) then r.Err? && Unfound(b.state, id, r.error)
       else
         var entry := EntryAt(b.state, id.ordinal);
         if id.ordinal in b.receipts && !entry.prepared && entry.seal.None? then r == Err(Corrupt)
         else r == Ok(Stored(ReceiptAt(b, id.ordinal)))
  }

  lemma ReadExactly(env: Env, b: Disk, id: OperationId)
    requires Inv(env, b)
    ensures var run := ReceiptOf(env, b, id); ReadGives(b, After(b, run.writes), id, run.answer)
  {
    LookExactly(env, b.state, id);
    hide Inv, Fault, Index, Found, Unfound, SavedReceipt;
    if Found(b.state, id) {
      LiveEntry(env, b, id);
      ReceiptReadableWhen(env, b, id.ordinal);
    }
  }

  /** The operations outstanding are the live ones, in order. */
  ghost predicate OutstandingGives(b: Disk, e: Disk, r: Result<Answer>) {
    && e == b && r.Ok? && r.value.Live? && |r.value.ids| == b.state.frontier - b.state.retired
    && forall i :: 0 <= i < |r.value.ids| ==>
         r.value.ids[i].ordinal == b.state.retired + 1 + i && Found(b.state, r.value.ids[i])
  }

  lemma OutstandingExactly(env: Env, b: Disk)
    requires Inv(env, b)
    ensures var run := Outstanding(b.state); OutstandingGives(b, After(b, run.writes), run.answer)
  {
    OutstandingIsLive(env, b);
    hide Found, Index;
    var ids := Outstanding(b.state).answer.value.ids;
    forall i | 0 <= i < |ids|
      ensures Found(b.state, ids[i])
    {
      LookExactly(env, b.state, ids[i]);
    }
  }

  // ---------------------------------------------------------------- controls

  ghost predicate Asks(b: Disk, e: Disk, s: State, id: nat, command: Command, r: Result<Answer>) {
    var control := Control(s.context, id, command);
    r == Ok(Asked(control)) && e == b.(state := s.(control := Some(control)))
  }

  lemma AsksExactly(env: Env, b: Disk, s: State, id: nat, command: Command)
    requires Fault(env, b.state) == None && b.state.registered.Some?
    requires s == b.state || exists i, x :: Reseals(b.state, s, i, x)
    ensures var run := SaveControl(env, s, id, command); Asks(b, After(b, run.writes), s, id, command, run.answer)
  {
    var t := s.(control := Some(Control(s.context, id, command)));
    if s == b.state {
      MarksOf(env, b.state);
      StillValid(env, b.state, t);
    } else {
      var i, x :| Reseals(b.state, s, i, x);
      StillValidWith(env, b.state, t, i, x);
    }
    AfterOne(b, Save(t));
    hide Fault;
  }

  /** One entry with a seal, and marked prepared only where an intent is bound. */
  ghost predicate Reseals(s: State, t: State, i: nat, x: Entry) {
    && i < |s.entries| && t == s.(entries := s.entries[i := x]) && x.key == s.entries[i].key
    && x.seal.Some? && (x.prepared ==> x.intent.Some?)
  }

  lemma BarredExactly(s: State, id: nat)
    ensures ControlFault(s, id) == Barred(s, id)
  {
  }

  ghost predicate Readable(b: Disk, o: nat) {
    Holds(b.state, o) && o in b.receipts && (EntryAt(b.state, o).prepared || EntryAt(b.state, o).seal.Some?)
  }

  /** The ordinals after the retired mark whose receipts can be read, until one cannot or `maximum` are counted. */
  ghost predicate Leading(b: Disk, maximum: nat, n: nat) {
    && n <= maximum && (forall o :: b.state.retired < o <= b.state.retired + n ==> Readable(b, o))
    && (n == maximum || !Readable(b, b.state.retired + n + 1))
  }

  /** An acknowledgment of exactly the leading receipts. */
  ghost predicate AckOf(env: Env, b: Disk, n: nat, command: Command) {
    && b.state.registration.command.Register? && command.Acknowledge?
    && command.stream == Owned(b.state) && command.expectedRevision == b.state.revision
    && command.through == b.state.retired + n && |command.receipts| == n
    && forall i :: 0 <= i < n ==> Acked(env, b, b.state.retired + 1 + i, command.receipts[i])
  }

  /** An acknowledgment asked for names the leading receipts, as many as there are up to `maximum`. */
  ghost predicate AckGives(env: Env, b: Disk, e: Disk, id: nat, maximum: nat, r: Result<Answer>) {
    if Barred(b.state, id).Some? then Denied(b, e, r, Barred(b.state, id).value)
    else if maximum == 0 || maximum > env.limits.window then Denied(b, e, r, Capacity)
    else exists n :: Leading(b, maximum, n) && LeadingGives(env, b, e, id, maximum, n, r)
  }

  ghost predicate LeadingGives(env: Env, b: Disk, e: Disk, id: nat, maximum: nat, n: nat, r: Result<Answer>) {
    if n < maximum && Holds(b.state, b.state.retired + n + 1) && b.state.retired + n + 1 in b.receipts then
      Denied(b, e, r, Corrupt)
    else if n == 0 then Denied(b, e, r, Unresolved)
    else
      && r.Ok? && r.value.Asked? && AckOf(env, b, n, r.value.control.command)
      && Asks(b, e, b.state, id, r.value.control.command, r)
  }

  /** The manifest from the ordinal after `o` on names the `n` receipts that lead there. */
  ghost predicate Gathers(env: Env, b: Disk, o: nat, maximum: nat, n: nat, acks: Result<seq<Ack>>) {
    && n <= maximum && (forall p :: o < p <= o + n ==> Readable(b, p)) && (n == maximum || !Readable(b, o + n + 1))
    && if n < maximum && Holds(b.state, o + n + 1) && o + n + 1 in b.receipts then acks == Err(Corrupt)
       else acks.Ok? && |acks.value| == n && forall i :: 0 <= i < n ==> Acked(env, b, o + 1 + i, acks.value[i])
  }

  lemma GathersMore(env: Env, b: Disk, o: nat, maximum: nat, n: nat, ack: Ack, rest: Result<seq<Ack>>)
    requires maximum > 0 && Gathers(env, b, o + 1, maximum - 1, n, rest)
    requires Readable(b, o + 1) && Acked(env, b, o + 1, ack)
    ensures Gathers(env, b, o, maximum, n + 1, if rest.Err? then rest else Ok([ack] + rest.value))
  {
    hide Readable, Acked;
    if rest.Ok? {
      var acks := [ack] + rest.value;
      forall i | 0 <= i < n + 1
        ensures Acked(env, b, o + 1 + i, acks[i])
      {
        if i > 0 {
          assert acks[i] == rest.value[i - 1] && Acked(env, b, (o + 1) + 1 + (i - 1), rest.value[i - 1]);
        }
      }
    }
  }

  lemma {:induction false} GathersExactly(env: Env, b: Disk, o: nat, maximum: nat) returns (n: nat)
    requires Inv(env, b) && b.state.retired <= o <= b.state.frontier == b.state.retired + |b.state.entries|
    ensures Gathers(env, b, o, maximum, n, Manifest(env, b, b.state.entries[o - b.state.retired..], maximum))
    decreases maximum
  {
    hide Inv, SavedReceipt, Acked, Gathers;
    var s := b.state;
    var entries := s.entries[o - s.retired..];
    if maximum > 0 && o < s.frontier {
      assert entries[0] == EntryAt(s, o + 1) && entries[1..] == s.entries[o + 1 - s.retired..];
      ReceiptReadableWhen(env, b, o + 1);
      if Readable(b, o + 1) {
        ReadIsSaved(env, b, o + 1);
        n := GathersExactly(env, b, o + 1, maximum - 1);
        var saved := b.receipts[o + 1];
        GathersMore(env, b, o, maximum, n, Ack(saved.key, env.receiptHash(saved)),
                    Manifest(env, b, entries[1..], maximum - 1));
        n := n + 1;
        return;
      }
    }
    n := 0;
    GathersNone(env, b, o, maximum, Manifest(env, b, entries, maximum));
  }

  lemma GathersNone(env: Env, b: Disk, o: nat, maximum: nat, acks: Result<seq<Ack>>)
    requires maximum == 0 || !Readable(b, o + 1)
    requires acks == if maximum > 0 && Holds(b.state, o + 1) && o + 1 in b.receipts then Err(Corrupt) else Ok([])
    ensures Gathers(env, b, o, maximum, 0, acks)
  {
  }

  lemma AckExactly(env: Env, b: Disk, id: nat, maximum: nat)
    requires Inv(env, b)
    ensures var run := PrepareAcknowledgment(env, b, id, maximum);
      AckGives(env, b, After(b, run.writes), id, maximum, run.answer)
  {
    BarredExactly(b.state, id);
    WindowOf(env, b.state);
    hide Inv, Fault, Manifest, After, StreamOf, SaveControl, EntryValid, Leading, LeadingGives, Gathers;
    AfterNone(b);
    if Barred(b.state, id).None? && 0 < maximum <= env.limits.window {
      var n := GathersExactly(env, b, b.state.retired, maximum);
      assert b.state.entries[0..] == b.state.entries;
      LeadsExactly(env, b, id, maximum, n);
    }
  }

  lemma LeadsExactly(env: Env, b: Disk, id: nat, maximum: nat, n: nat)
    requires Inv(env, b) && Barred(b.state, id).None? && 0 < maximum <= env.limits.window
    requires Gathers(env, b, b.state.retired, maximum, n, Manifest(env, b, b.state.entries, maximum))
    ensures Leading(b, maximum, n)
    ensures var run := PrepareAcknowledgment(env, b, id, maximum);
      LeadingGives(env, b, After(b, run.writes), id, maximum, n, run.answer)
  {
    hide Inv, Manifest, Acked, After, SaveControl, Readable, PrepareAcknowledgment;
    AcksRun(env, b, id, maximum);
    AfterNone(b);
    var s, acks := b.state, Manifest(env, b, b.state.entries, maximum);
    if acks.Ok? && n > 0 {
      LastAcked(env, b, n, acks.value);
      AsksExactly(env, b, s, id, Acknowledge(Owned(s), s.revision, s.retired + n, acks.value));
    }
  }

  lemma AcksRun(env: Env, b: Disk, id: nat, maximum: nat)
    requires Inv(env, b) && Barred(b.state, id).None? && 0 < maximum <= env.limits.window
    ensures Fault(env, b.state) == None && b.state.registered.Some? && b.state.registration.command.Register?
    ensures var s := b.state; var acks := Manifest(env, b, s.entries, maximum);
      PrepareAcknowledgment(env, b, id, maximum) ==
        if acks.Err? then Refuse(acks.error)
        else if acks.value == [] then Refuse(Unresolved)
        else
          var through := acks.value[|acks.value| - 1].key.ordinal;
          SaveControl(env, s, id, Acknowledge(Owned(s), s.revision, through, acks.value))
  {
    MarksOf(env, b.state);
    BarredExactly(b.state, id);
    hide Fault, Manifest, SaveControl, StreamOf, ControlFault;
  }

  lemma LastAcked(env: Env, b: Disk, n: nat, acks: seq<Ack>)
    requires Inv(env, b) && |acks| == n > 0
    requires forall i :: 0 <= i < n ==> Acked(env, b, b.state.retired + 1 + i, acks[i])
    ensures acks[n - 1].key.ordinal == b.state.retired + n
  {
    WindowOf(env, b.state);
    var o := b.state.retired + n;
    assert Acked(env, b, b.state.retired + 1 + (n - 1), acks[n - 1]);
    assert EntryFits(env, PreparedAt(b, o), ReceiptAt(b, o), EntryAt(b.state, o));
    hide Inv, Fault;
  }

  /** What a seal binds for an operation: its saved request, where there is one; else what an earlier seal
      bound; else that it is a gap. */
  ghost predicate Binds(env: Env, b: Disk, e: Entry, seal: Seal) {
    var p := PreparedAt(b, e.key.ordinal);
    if p.Some? then env.identity(p.value.request).Some? && seal == BindingOf(env.identity(p.value.request).value)
    else if e.seal.Some? then seal == e.seal.value
    else seal == Seal(Domain, env.sealHash(e.key, e.intent))
  }

  /** A seal asked for is pending for its operation, whose entry carries what it binds. */
  ghost predicate SealGives(env: Env, b: Disk, e: Disk, operation: OperationId, id: nat, r: Result<Answer>) {
    var s, o := b.state, operation.ordinal;
    if Barred(s, id).Some? then Denied(b, e, r, Barred(s, id).value)
    else if !Found(s, operation) then e == b && r.Err? && Unfound(s, operation, r.error)
    else exists seal ::
      && Binds(env, b, EntryAt(s, o), seal)
      && var after := EntryAt(s, o).(seal := Some(seal), prepared := o in b.prepared);
         Asks(b, e, Entered(s, o, after), id,
              SealOne(KeyOf(operation, s.context), s.revision, seal.family, seal.hash), r)
  }

  lemma BindingBinds(env: Env, b: Disk, e: Entry)
    requires EntryFits(env, PreparedAt(b, e.key.ordinal), ReceiptAt(b, e.key.ordinal), e)
    ensures Binding(env, b, e).Ok? && Binds(env, b, e, Binding(env, b, e).value.0)
    ensures Binding(env, b, e).value.1 == (e.key.ordinal in b.prepared)
  {
    hide Proves, ProvesRequest;
  }

  lemma SealExactly(env: Env, b: Disk, operation: OperationId, id: nat)
    requires Inv(env, b)
    ensures var run := PrepareSeal(env, b, operation, id);
      SealGives(env, b, After(b, run.writes), operation, id, run.answer)
  {
    BarredExactly(b.state, id);
    LookExactly(env, b.state, operation);
    hide Fault, Index, Found, Unfound, Binding, Binds, SaveControl, After, Asks, EntryFits;
    AfterNone(b);
    if Barred(b.state, id).None? && Found(b.state, operation) {
      LiveEntry(env, b, operation);
      var s, o := b.state, operation.ordinal;
      var e := EntryAt(s, o);
      BindingBinds(env, b, e);
      var seal := Binding(env, b, e).value.0;
      var after := e.(seal := Some(seal), prepared := o in b.prepared);
      BoundIfSaved(env, b, o, e);
      assert Reseals(s, Entered(s, o, after), o - s.retired - 1, after);
      AsksExactly(env, b, Entered(s, o, after), id, SealOne(e.key, s.revision, seal.family, seal.hash));
    }
  }

  lemma BoundIfSaved(env: Env, b: Disk, o: nat, e: Entry)
    requires EntryFits(env, PreparedAt(b, o), ReceiptAt(b, o), e)
    ensures o in b.prepared ==> e.intent.Some?
  {
  }

  /** A close is asked for exactly on a stopped stream with everything issued retired. */
  ghost predicate CloseGives(b: Disk, e: Disk, id: nat, r: Result<Answer>) {
    var s := b.state;
    if Barred(s, id).Some? then Denied(b, e, r, Barred(s, id).value)
    else if !s.stopped || s.retired < s.frontier then Denied(b, e, r, Unresolved)
    else s.registration.command.Register? && Asks(b, e, s, id, Close(Owned(s), s.revision, s.frontier), r)
  }

  lemma CloseExactly(env: Env, b: Disk, id: nat)
    requires Inv(env, b)
    ensures var run := PrepareClose(env, b.state, id); CloseGives(b, After(b, run.writes), id, run.answer)
  {
    MarksOf(env, b.state);
    BarredExactly(b.state, id);
    hide Inv, Fault, StreamOf, SaveControl, Asks, After;
    AfterNone(b);
    var s := b.state;
    if Barred(s, id).None? {
      AsksExactly(env, b, s, id, Close(Owned(s), s.revision, s.frontier));
    }
  }

  /** The receipt answers the control that is pending, in its kind, and is newer than the last one. */
  ghost predicate Pertains(env: Env, s: State, receipt: ControlReceipt) {
    && s.control.Some? && s.registered.Some?
    && var c := s.control.value;
    && receipt.context == c.context && receipt.id == c.id
    && receipt.intentHash == env.controlHash(c.context, c.command)
    && receipt.raftIndex > (if s.lastControl.Some? then s.lastControl.value else s.registered.value).raftIndex
    && (c.command.Acknowledge? ==> receipt.outcome.Acknowledged?) && (c.command.SealOne? ==> receipt.outcome.Sealed?)
    && (c.command.Close? ==> receipt.outcome.Closed?) && !c.command.Register?
  }

  /** The state with its control answered. */
  function Answered(s: State, receipt: ControlReceipt): State {
    s.(control := None, lastControl := Some(receipt))
  }

  /** An acknowledgment's answer retires exactly the ordinals whose saved receipts it names. */
  ghost predicate AcknowledgedGives(env: Env, b: Disk, e: Disk, c: Command, receipt: ControlReceipt, r: Result<Answer>)
    requires c.Acknowledge? && receipt.outcome.Acknowledged?
  {
    var s := b.state;
    if s.revision >= U64_MAX then Denied(b, e, r, Capacity)
    else if !(&& c.expectedRevision == s.revision && s.retired < c.through <= s.frontier
              && receipt.outcome == Acknowledged(c.stream, s.revision + 1, c.through))
    then Denied(b, e, r, ReceiptMismatch)
    else if !(|c.receipts| == c.through - s.retired && Manifested(env, b, s.retired, c.receipts)) then
      Denied(b, e, r, Corrupt)
    else
      && r == Ok(Done) && |c.receipts| <= |s.entries|
      && e == b.(state := Answered(s, receipt).(entries := s.entries[|c.receipts|..], retired := c.through,
                                                revision := s.revision + 1))
  }

  /** The saved receipts of the ordinals after `o`, in order. */
  ghost predicate Manifested(env: Env, b: Disk, o: nat, acks: seq<Ack>) {
    forall i :: 0 <= i < |acks| ==> Acked(env, b, o + 1 + i, acks[i])
  }

  /** A seal's answer is recorded if it is of what was sealed and no other receipt is saved. */
  ghost predicate SealedGives(env: Env, b: Disk, e: Disk, c: Command, receipt: ControlReceipt, r: Result<Answer>)
    requires c.SealOne? && receipt.outcome.Sealed?
  {
    var s, o, outcome := b.state, c.key.ordinal, receipt.outcome.receipt;
    if s.revision >= U64_MAX then Denied(b, e, r, Capacity)
    else if !(&& c.expectedRevision == s.revision && outcome.raftIndex <= receipt.raftIndex
              && IsOf(env, outcome, c.key, c.family, c.hash) && (o in b.receipts ==> b.receipts[o] == outcome))
    then Denied(b, e, r, ReceiptMismatch)
    else
      && r == Ok(Done) && Holds(s, o)
      && var after := Entered(s, o, EntryAt(s, o).(receipt := Some(env.receiptHash(outcome))));
         e == Disk(Answered(after, receipt).(revision := s.revision + 1), b.prepared, b.receipts[o := outcome])
  }

  /** A close's answer closes the stream if it stands as it was when the close was asked for. */
  ghost predicate ClosedGives(b: Disk, e: Disk, c: Command, receipt: ControlReceipt, r: Result<Answer>)
    requires c.Close? && receipt.outcome.Closed?
  {
    var s := b.state;
    if && receipt.outcome == Closed(c.stream, c.stream.generation) && c.expectedRevision == s.revision
       && s.stopped && c.issuedThrough == s.frontier == s.retired
    then r == Ok(Done) && e == b.(state := Answered(s, receipt).(closed := true))
    else Denied(b, e, r, ReceiptMismatch)
  }

  /** An answer recorded before is recorded; a new one must answer the control that is pending, and ends it. */
  ghost predicate ControlGives(env: Env, b: Disk, e: Disk, receipt: ControlReceipt, r: Result<Answer>) {
    var s := b.state;
    if s.lastControl == Some(receipt) then e == b && r == Ok(Done)
    else if !Pertains(env, s, receipt) then Denied(b, e, r, ReceiptMismatch)
    else
      var c := s.control.value.command;
      if c.Acknowledge? then AcknowledgedGives(env, b, e, c, receipt, r)
      else if c.SealOne? then SealedGives(env, b, e, c, receipt, r)
      else c.Close? && ClosedGives(b, e, c, receipt, r)
  }

  lemma {:induction false} ChecksExactly(env: Env, b: Disk, o: nat, acks: seq<Ack>)
    requires Inv(env, b) && b.state.retired <= o && o + |acks| <= b.state.frontier
    requires b.state.frontier == b.state.retired + |b.state.entries|
    ensures ManifestFault(env, b, b.state.entries[o - b.state.retired..], acks) ==
      if Manifested(env, b, o, acks) then None else Some(Corrupt)
    decreases |acks|
  {
    hide Inv, SavedReceipt, Manifested;
    var entries := b.state.entries[o - b.state.retired..];
    if acks == [] {
      ManifestedNone(env, b, o);
    } else {
      assert entries[0] == EntryAt(b.state, o + 1) && entries[1..] == b.state.entries[o + 1 - b.state.retired..];
      ReceiptReadableWhen(env, b, o + 1);
      ChecksExactly(env, b, o + 1, acks[1..]);
      ManifestedMore(env, b, o, acks);
    }
  }

  lemma ManifestedNone(env: Env, b: Disk, o: nat)
    ensures Manifested(env, b, o, [])
  {
  }

  lemma ManifestedMore(env: Env, b: Disk, o: nat, acks: seq<Ack>)
    requires acks != []
    ensures Manifested(env, b, o, acks) <==> Acked(env, b, o + 1, acks[0]) && Manifested(env, b, o + 1, acks[1..])
  {
    hide Acked;
    var rest := acks[1..];
    if Acked(env, b, o + 1, acks[0]) && Manifested(env, b, o + 1, rest) {
      forall i | 0 <= i < |acks|
        ensures Acked(env, b, o + 1 + i, acks[i])
      {
        if i > 0 {
          assert rest[i - 1] == acks[i] && Acked(env, b, (o + 1) + 1 + (i - 1), rest[i - 1]);
        }
      }
    }
    if Manifested(env, b, o, acks) {
      assert Acked(env, b, o + 1 + 0, acks[0]);
      forall i | 0 <= i < |rest|
        ensures Acked(env, b, (o + 1) + 1 + i, rest[i])
      {
        assert rest[i] == acks[i + 1] && Acked(env, b, o + 1 + (i + 1), acks[i + 1]);
      }
    }
  }

  lemma RetiredIsValid(env: Env, s: State, n: nat, receipt: ControlReceipt)
    requires Fault(env, s) == None && s.registered.Some? && s.garbage == s.retired && n <= |s.entries|
    ensures Fault(env, Answered(s, receipt).(entries := s.entries[n..], retired := s.retired + n,
                                             revision := s.revision + 1)) == None
  {
    MarksOf(env, s);
    var t := Answered(s, receipt).(entries := s.entries[n..], retired := s.retired + n, revision := s.revision + 1);
    forall i | 0 <= i < |t.entries|
      ensures EntryValid(t.entries[i], StreamOf(s).value, t.retired + 1 + i)
    {
      assert t.entries[i] == s.entries[i + n];
      assert EntryValid(s.entries[i + n], StreamOf(s).value, s.retired + 1 + (i + n));
    }
    hide EntryValid;
    StillValid(env, s, t);
  }

  lemma AcknowledgedExactly(env: Env, b: Disk, c: Command, receipt: ControlReceipt)
    requires Inv(env, b) && b.state.garbage == b.state.retired && b.state.registered.Some?
    requires c.Acknowledge? && receipt.outcome.Acknowledged?
    ensures var run := RecordAcknowledged(env, b, c, receipt);
      AcknowledgedGives(env, b, After(b, run.writes), c, receipt, run.answer)
  {
    hide Fault, EntriesFit, FilesBetween, ControlFits, ManifestFault, Manifested, EntryValid, After;
    WindowOf(env, b.state);
    var s, n := b.state, |c.receipts|;
    AfterNone(b);
    if n <= |s.entries| {
      ChecksExactly(env, b, s.retired, c.receipts);
      assert s.entries[0..] == s.entries;
      RetiredIsValid(env, s, n, receipt);
      AfterOne(b, Save(Answered(s, receipt).(entries := s.entries[n..], retired := s.retired + n,
                                             revision := s.revision + 1)));
    }
  }

  lemma SealedExactly(env: Env, b: Disk, receipt: ControlReceipt)
    requires Inv(env, b) && b.state.registered.Some? && b.state.control.Some? && receipt.outcome.Sealed?
    requires b.state.control.value.command.SealOne?
    ensures var c := b.state.control.value.command; var run := RecordSealed(env, b, c, receipt);
      SealedGives(env, b, After(b, run.writes), c, receipt, run.answer)
  {
    hide Fault, Index, WriteReceipt, After, EntriesFit, FilesBetween, ControlFits;
    var s, c := b.state, b.state.control.value.command;
    SealPending(env, b);
    var o, outcome := c.key.ordinal, receipt.outcome.receipt;
    var e := EntryAt(s, o);
    var after := e.(receipt := Some(env.receiptHash(outcome)));
    var t := Answered(Entered(s, o, after), receipt).(revision := s.revision + 1);
    WriteExactly(env, b, o, outcome);
    StillValidWith(env, s, t, o - s.retired - 1, after);
    AfterNone(b);
    var written := WriteReceipt(env, b, e, outcome);
    if written.answer.Ok? {
      FollowedBySave(env, b, written, t);
    }
  }

  /** A pending seal's operation is live and carries the seal. */
  lemma SealPending(env: Env, b: Disk)
    requires Inv(env, b) && b.state.control.Some? && b.state.control.value.command.SealOne?
    ensures var c := b.state.control.value.command; var o := c.key.ordinal;
      && Holds(b.state, o) && Index(b.state, IdOf(c.key)) == Ok(o - b.state.retired - 1) && ValidKey(c.key)
      && var e := EntryAt(b.state, o); e.key == c.key && e.seal.Some? && (e.prepared ==> e.intent.Some?)
  {
    var c := b.state.control.value.command;
    WindowOf(env, b.state);
    MarksOf(env, b.state);
    var e := EntryAt(b.state, c.key.ordinal);
    assert EntryValid(e, Owned(b.state), c.key.ordinal);
    assert KeyOf(IdOf(c.key), b.state.context) == c.key;
    LookExactly(env, b.state, IdOf(c.key));
    hide Fault, EntriesFit, FilesBetween, EntriesValid, Index;
  }

  lemma ClosedExactly(env: Env, b: Disk, c: Command, receipt: ControlReceipt)
    requires Inv(env, b) && b.state.registered.Some? && c.Close? && receipt.outcome.Closed?
    ensures var run := RecordClosed(env, b.state, c, receipt);
      ClosedGives(b, After(b, run.writes), c, receipt, run.answer)
  {
    var s := b.state;
    var t := Answered(s, receipt).(closed := true);
    MarksOf(env, s);
    if s.stopped && s.retired == s.frontier {
      StillValid(env, s, t);
    }
    AfterOne(b, Save(t));
    hide Inv, Fault, EntriesValid, StreamOf;
  }

  lemma PertainsExactly(env: Env, s: State, receipt: ControlReceipt)
    requires Fault(env, s) == None && s.control.Some?
    ensures s.registered.Some? && PriorIndex(s).Ok?
    ensures var c := s.control.value.command;
      Pertains(env, s, receipt) <==>
      && AnswersControl(env, s.control.value, receipt) && receipt.raftIndex > PriorIndex(s).value
      && (|| (c.Acknowledge? && receipt.outcome.Acknowledged?) || (c.SealOne? && receipt.outcome.Sealed?)
          || (c.Close? && receipt.outcome.Closed?))
  {
    MarksOf(env, s);
    hide Fault;
  }

  lemma ControlExactly(env: Env, b: Disk, receipt: ControlReceipt)
    requires Inv(env, b) && b.state.garbage == b.state.retired
    ensures var run := RecordControl(env, b, receipt); ControlGives(env, b, After(b, run.writes), receipt, run.answer)
  {
    hide Fault, EntriesFit, FilesBetween, ControlFits, After, RecordAcknowledged, RecordSealed, RecordClosed, Pertains,
         AcknowledgedGives, SealedGives, ClosedGives, AnswersControl, PriorIndex;
    AfterNone(b);
    var s := b.state;
    if s.control.Some? {
      PertainsExactly(env, s, receipt);
      var c := s.control.value.command;
      if c.Acknowledge? && receipt.outcome.Acknowledged? {
        AcknowledgedExactly(env, b, c, receipt);
      } else if c.SealOne? && receipt.outcome.Sealed? {
        SealedExactly(env, b, receipt);
      } else if c.Close? && receipt.outcome.Closed? {
        ClosedExactly(env, b, c, receipt);
      }
    } else {
      PertainsNothing(env, s, receipt);
    }
  }

  lemma PertainsNothing(env: Env, s: State, receipt: ControlReceipt)
    requires s.control.None?
    ensures !Pertains(env, s, receipt)
  {
  }

  /** A store is made exactly within the limits, for an identified context and a registration of its own, of a stream
      that has a next generation. */
  lemma CreateExactly(env: Env, registration: Control)
    ensures Create(env, registration).Ok? <==>
      && 1 <= env.limits.window <= MAX_WINDOW
      && env.limits.window * SLOT_BYTES + ROOT_BYTES <= env.limits.maxReservedBytes
      && 0 !in {env.context.cluster, env.context.tenant, env.context.session, env.context.principal, registration.id}
      && registration.context == env.context && registration.command.Register?
      && registration.command.expectedGeneration < U64_MAX && registration.command.owner > 0
      && registration.command.window == env.limits.window
    ensures Create(env, registration).Ok? ==>
      var d := Create(env, registration).value;
      && d.prepared == map[] && d.receipts == map[]
      && d.state == State(env.context, env.limits, registration, None, 0, 0, 0, 0, false, false, [], None, None)
  {
  }

  // ---------------------------------------------------------------- every call

  /** What a call answers and leaves. An intent of which no digest can be made is refused before anything is loaded. */
  ghost predicate Gives(env: Env, d: Disk, call: Call, e: Disk, r: Result<Answer>) {
    var b := Swept(d);
    match call
    case CallOpen => e == b && r == Ok(Done)
    case CallStopIfDrained(threshold) => DrainGives(b, e, threshold, r)
    case CallRecordRegistration(receipt) => RegistrationGives(env, b, e, receipt, r)
    case CallReserve(request) => ReserveGives(env, b, e, request, r)
    case CallPrepare(id, intent, expand) =>
      var digest := env.digest(intent);
      if digest.None? then Denied(d, e, r, InvalidIntent)
      else PrepareGives(env, b, e, id, intent, digest.value, expand, r)
    case CallRequest(id) => RequestGives(b, e, id, r)
    case CallRecordReceipt(id, receipt) => ReceiptGives(env, b, e, id, receipt, r)
    case CallReceipt(id) => ReadGives(b, e, id, r)
    case CallOutstanding => OutstandingGives(b, e, r)
    case CallPrepareAcknowledgment(id, maximum) => AckGives(env, b, e, id, maximum, r)
    case CallPrepareSeal(operation, id) => SealGives(env, b, e, operation, id, r)
    case CallStopIssuance => StopGives(b, e, r)
    case CallPrepareClose(id) => CloseGives(b, e, id, r)
    case CallRecordControl(receipt) => ControlGives(env, b, e, receipt, r)
  }

  lemma CallExactly(env: Env, d: Disk, call: Call)
    requires Inv(env, d)
    ensures Gives(env, d, call, Left(env, d, call), RunOf(env, d, call).answer)
  {
    if call.CallPrepare? && env.digest(call.intent).None? {
      AfterNone(d);
    } else {
      hide Inv, RunOf, Left;
      LoadsThenActs(env, d, call);
      ActGives(env, d, call);
    }
  }

  lemma ActGives(env: Env, d: Disk, call: Call)
    requires Inv(env, Swept(d)) && !(call.CallPrepare? && env.digest(call.intent).None?)
    ensures var run := Act(env, Swept(d), call); Gives(env, d, call, After(Swept(d), run.writes), run.answer)
  {
    var b := Swept(d);
    hide Inv, After, StopIfDrained, RecordRegistration, Reserve, Prepare, RequestOf, RecordReceipt, ReceiptOf,
         Outstanding, PrepareAcknowledgment, PrepareSeal, StopIssuance, PrepareClose, RecordControl, DrainGives,
         RegistrationGives, ReserveGives, PrepareGives, RequestGives, ReceiptGives, ReadGives, OutstandingGives,
         AckGives, SealGives, StopGives, CloseGives, ControlGives;
    AfterNone(b);
    match call {
      case CallOpen =>
      case CallStopIfDrained(threshold) => DrainExactly(env, b, threshold);
      case CallRecordRegistration(receipt) => RegistrationExactly(env, b, receipt);
      case CallReserve(request) => IssueExactly(env, b, request);
      case CallPrepare(id, intent, expand) => PrepareExactly(env, b, id, intent, env.digest(intent).value, expand);
      case CallRequest(id) => RequestExactly(env, b, id);
      case CallRecordReceipt(id, receipt) => ReceiptExactly(env, b, id, receipt);
      case CallReceipt(id) => ReadExactly(env, b, id);
      case CallOutstanding => OutstandingExactly(env, b);
      case CallPrepareAcknowledgment(id, maximum) => AckExactly(env, b, id, maximum);
      case CallPrepareSeal(operation, id) => SealExactly(env, b, operation, id);
      case CallStopIssuance => StopExactly(env, b);
      case CallPrepareClose(id) => CloseExactly(env, b, id);
      case CallRecordControl(receipt) => ControlExactly(env, b, receipt);
    }
  }
}
