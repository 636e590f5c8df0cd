/**
 A recording cut between its two writes: the receipt is saved and its entry not yet marked. Where the
 entry was never marked prepared either, the receipt cannot be read until it is recorded again.
 */
module ManagedCut {
  import opened Basics
  import opened ManagedModel
  import opened ManagedSafety
  import opened ManagedCalls
  import opened ManagedRuns
  import opened ManagedTheorems
  import opened ManagedAnswers

  /** An operation issued and nothing more, an intent and a request it expands to, and a receipt of that. */
  ghost predicate Recordable(
    env: Env, d: Disk, id: OperationId, intent: Intent, expand: Key -> Result<Request>, r: Receipt) {
    && Inv(env, d) && d.state.garbage == d.state.retired
    && Index(d.state, id).Ok? && Holds(d.state, id.ordinal)
    && var e := EntryAt(d.state, id.ordinal);
    && e == Entry(KeyOf(id, d.state.context), None, false, None, None) && id.ordinal !in d.prepared
    && env.digest(intent).Some? && expand(e.key).Ok?
    && PreparedFault(env, e.key, env.digest(intent).value, Prepared(intent, expand(e.key).value)) == None
    && ProvesRequest(env, r, expand(e.key).value)
  }

  lemma NothingToLoad(env: Env, d: Disk)
    requires Inv(env, d) && d.state.garbage == d.state.retired
    ensures Load(env, d) == Run([], Ok(Done)) && After(d, []) == d
  {
    PresentByInv(env, d);
  }

  /** With nothing to load, a cut call makes the first of the writes its act makes. */
  lemma CutActs(env: Env, d: Disk, call: Call, n: nat)
    requires Inv(env, d) && d.state.garbage == d.state.retired && n <= |Act(env, d, call).writes|
    requires call.CallPrepare? ==> env.digest(call.intent).Some?
    ensures Step(env, d, Cut(call, n)) == After(d, Act(env, d, call).writes[..n])
    ensures RunOf(env, d, call).answer == Act(env, d, call).answer
  {
    NothingToLoad(env, d);
    hide Inv, Load, Act;
    assert [] + Act(env, d, call).writes == Act(env, d, call).writes;
  }

  ghost function Bound(d: Disk, id: OperationId, digest: Hash): State
    requires Holds(d.state, id.ordinal)
  {
    WithEntry(d.state, id.ordinal - d.state.retired - 1, EntryAt(d.state, id.ordinal).(intent := Some(digest)))
  }

  lemma BoundIsValid(env: Env, d: Disk, id: OperationId, digest: Hash)
    requires Inv(env, d) && Holds(d.state, id.ordinal)
    ensures Fault(env, Bound(d, id, digest)) == None
  {
    var s, t := d.state, Bound(d, id, digest);
    WindowOf(env, s);
    assert StreamOf(t) == StreamOf(s);
    forall i | 0 <= i < |t.entries|
      ensures EntryValid(t.entries[i], StreamOf(t).value, t.retired + 1 + i)
    {
      assert EntryValid(s.entries[i], StreamOf(s).value, s.retired + 1 + i);
    }
    hide EntryValid;
  }

  /** A prepare cut before it marks the entry: the intent bound and the request written. */
  lemma CutPrepare(env: Env, d: Disk, id: OperationId, intent: Intent, expand: Key -> Result<Request>, r: Receipt)
    requires Recordable(env, d, id, intent, expand, r)
    ensures var p := Prepared(intent, expand(EntryAt(d.state, id.ordinal).key).value);
      Step(env, d, Cut(CallPrepare(id, intent, expand), 2)) ==
      Disk(Bound(d, id, env.digest(intent).value), d.prepared[id.ordinal := p], d.receipts)
  {
    var digest := env.digest(intent).value;
    var s := Bound(d, id, digest);
    var p := Prepared(intent, expand(EntryAt(d.state, id.ordinal).key).value);
    FoundEntry(env, d, id);
    BoundIsValid(env, d, id, digest);
    var call := CallPrepare(id, intent, expand);
    PrepareWrites(env, d, id, intent, expand, r);
    hide Recordable, Act;
    CutActs(env, d, call, 2);
    AfterTwo(d, Save(s), PutPrepared(id.ordinal, p));
    assert Act(env, d, call).writes[..2] == [Save(s), PutPrepared(id.ordinal, p)];
  }

  lemma PrepareWrites(env: Env, d: Disk, id: OperationId, intent: Intent, expand: Key -> Result<Request>, r: Receipt)
    requires Recordable(env, d, id, intent, expand, r)
    ensures var writes := Act(env, d, CallPrepare(id, intent, expand)).writes;
      && |writes| >= 2 && writes[0] == Save(Bound(d, id, env.digest(intent).value))
      && writes[1] == PutPrepared(id.ordinal, Prepared(intent, expand(EntryAt(d.state, id.ordinal).key).value))
  {
    FoundEntry(env, d, id);
    BoundIsValid(env, d, id, env.digest(intent).value);
    hide Inv, Index, PreparedFault, ProvesRequest, Fault, EntryFits;
  }

  /** The receipt is saved, its entry is marked neither prepared nor sealed, and it cannot be read. */
  ghost predicate Unreadable(env: Env, d: Disk, id: OperationId, r: Receipt) {
    && Inv(env, d) && ReceiptAt(d, id.ordinal) == Some(r) && Holds(d.state, id.ordinal)
    && !EntryAt(d.state, id.ordinal).prepared && EntryAt(d.state, id.ordinal).seal.None?
    && RunOf(env, d, CallReceipt(id)).answer == Err(Corrupt)
  }

  lemma IndexBound(env: Env, d: Disk, id: OperationId, digest: Hash)
    requires Inv(env, d) && Index(d.state, id).Ok? && Holds(d.state, id.ordinal)
    ensures Index(Bound(d, id, digest), id) == Index(d.state, id)
  {
    FoundEntry(env, d, id);
    hide Inv;
    assert StreamOf(Bound(d, id, digest)) == StreamOf(d.state);
  }

  /** With the request written and no receipt, recording begins with the receipt's file. */
  lemma RecordingWrites(env: Env, d: Disk, id: OperationId, r: Receipt)
    requires Inv(env, d) && Index(d.state, id).Ok? && id.ordinal in d.prepared && id.ordinal !in d.receipts
    requires ProvesRequest(env, r, d.prepared[id.ordinal].request)
    ensures var writes := RecordReceipt(env, d, id, r).writes; |writes| >= 1 && writes[0] == PutReceipt(id.ordinal, r)
  {
    FoundEntry(env, d, id);
    var e := d.state.entries[Index(d.state, id).value];
    hide Inv, Index, ProvesRequest, PreparedFault;
    assert ReadPrepared(env, d, e.key, e.intent.value) == Ok(d.prepared[id.ordinal]);
    assert WriteReceipt(env, d, e, r) == Run([PutReceipt(id.ordinal, r)], Ok(Done));
    hide ReadPrepared, WriteReceipt, SaveState, EntryFits;
  }

  lemma CutPrepared(env: Env, d: Disk, f: Disk, id: OperationId, intent: Intent, expand: Key -> Result<Request>,
                    r: Receipt)
    requires Recordable(env, d, id, intent, expand, r) && f == Step(env, d, Cut(CallPrepare(id, intent, expand), 2))
    ensures Inv(env, f) && f.state.garbage == f.state.retired && Index(f.state, id).Ok?
    ensures id.ordinal in f.prepared && id.ordinal !in f.receipts
    ensures ProvesRequest(env, r, f.prepared[id.ordinal].request)
  {
    FoundEntry(env, d, id);
    StepKeeps(env, d, Cut(CallPrepare(id, intent, expand), 2));
    CutPrepare(env, d, id, intent, expand, r);
    IndexBound(env, d, id, env.digest(intent).value);
    hide Inv, Index, Extends, Step, ProvesRequest, PreparedFault;
  }

  lemma CutRecording(env: Env, d: Disk, f: Disk, id: OperationId, intent: Intent, expand: Key -> Result<Request>,
                     r: Receipt)
    requires Recordable(env, d, id, intent, expand, r) && f == Step(env, d, Cut(CallPrepare(id, intent, expand), 2))
    ensures Step(env, f, Cut(CallRecordReceipt(id, r), 1)) == f.(receipts := f.receipts[id.ordinal := r])
  {
    CutPrepared(env, d, f, id, intent, expand, r);
    hide Recordable, Inv, Index, Step, ProvesRequest, RecordReceipt;
    RecordingWrites(env, f, id, r);
    var call := CallRecordReceipt(id, r);
    assert Act(env, f, call).writes[..1] == [PutReceipt(id.ordinal, r)];
    CutActs(env, f, call, 1);
    AfterOne(f, PutReceipt(id.ordinal, r));
  }

  lemma UnmarkedUnreadable(env: Env, d: Disk, id: OperationId, r: Receipt)
    requires Inv(env, d) && d.state.garbage == d.state.retired && Index(d.state, id).Ok? && Holds(d.state, id.ordinal)
    requires ReceiptAt(d, id.ordinal) == Some(r)
    requires !EntryAt(d.state, id.ordinal).prepared && EntryAt(d.state, id.ordinal).seal.None?
    ensures Unreadable(env, d, id, r)
  {
    FoundEntry(env, d, id);
    NothingToLoad(env, d);
    ReceiptReadableWhen(env, d, id.ordinal);
    hide Inv, Index, SavedReceipt, Load, EntryFits;
  }

  lemma ReachTwo(env: Env, d: Disk, a: Event, b: Event)
    ensures Reach(env, d, [a, b]) == Step(env, Step(env, d, a), b)
  {
    hide Step;
    assert [a, b][..1] == [a] && [a][..0] == [];
    assert Reach(env, d, [a]) == Step(env, Reach(env, d, []), a);
  }

  /** For every operation just issued: a prepare cut before it marks the entry, then a recording cut before
      it does, leave a receipt that cannot be read. */
  lemma CutRecordingUnreadable(env: Env, d: Disk, id: OperationId, intent: Intent, expand: Key -> Result<Request>,
                               r: Receipt)
    requires Recordable(env, d, id, intent, expand, r)
    ensures Unreadable(env, Reach(env, d, CutTwice(id, intent, expand, r)), id, r)
  {
    var preparing, recording := Cut(CallPrepare(id, intent, expand), 2), Cut(CallRecordReceipt(id, r), 1);
    var f := Step(env, d, preparing);
    var g := Step(env, f, recording);
    ReachTwo(env, d, preparing, recording);
    StepKeeps(env, d, preparing);
    StepKeeps(env, f, recording);
    CutPrepare(env, d, id, intent, expand, r);
    CutRecording(env, d, f, id, intent, expand, r);
    IndexBound(env, d, id, env.digest(intent).value);
    hide Inv, Index, Step, Extends, ProvesRequest, PreparedFault, Reach, Unreadable;
    UnmarkedUnreadable(env, g, id, r);
  }

  function CutTwice(id: OperationId, intent: Intent, expand: Key -> Result<Request>, r: Receipt): seq<Event> {
    [Cut(CallPrepare(id, intent, expand), 2), Cut(CallRecordReceipt(id, r), 1)]
  }

  // ---------------------------------------------------------------- one such run, from the store's making

  const Us: Context := Context(1, 1, 1, 1)
  const First: Key := Key(Stream(Us, 0, 1), 1, 1)
  const Plan: Intent := Intent("plan", 1, [])

  function AnyDigest(intent: Intent): Option<Hash> { Some(7) }
  function AsFirst(request: Request): Option<Identity> { Some(Identity(First, Domain, 9)) }
  function AnyReceipt(r: Receipt): Hash { 5 }
  function AnyControl(context: Context, command: Command): Hash { 3 }
  function AnySeal(key: Key, intent: Option<Hash>): Hash { 4 }
  predicate AnyForm(r: Receipt, family: Family) { true }
  function Expanded(key: Key): Result<Request> { Ok(Request([])) }

  const Here: Env := Env(
    Us, Limits(1, SLOT_BYTES + ROOT_BYTES), AnyDigest, AsFirst, AnyReceipt, AnyControl, AnySeal, AnyForm)

  const Registering: Control := Control(Us, 1, Register(0, 0, 1, 1))
  const Recorded: ControlReceipt := ControlReceipt(Us, 1, 1, 3, Registered(Stream(Us, 0, 1), 1, 1, 1, 0))
  const Made: State := State(Us, Here.limits, Registering, None, 0, 0, 0, 0, false, false, [], None, None)
  const Committed: Receipt := Receipt(First, 9, 2, 0)

  lemma MadeIsValid()
    ensures Create(Here, Registering) == Ok(Disk(Made, map[], map[])) && Inv(Here, Disk(Made, map[], map[]))
  {
    assert StreamOf(Made) == Ok(Stream(Us, 0, 1));
    assert Fault(Here, Made) == None;
  }

  lemma RegisteredIsValid()
    ensures var s := Made.(registered := Some(Recorded), revision := 1);
      Fault(Here, s) == None && RecordRegistration(Here, Made, Recorded) == Run([Save(s)], Ok(Done))
  {
    var s := Made.(registered := Some(Recorded), revision := 1);
    assert StreamOf(s) == Ok(Stream(Us, 0, 1));
    assert RegistrationFault(Here, Made, Recorded) == None && RegistrationFault(Here, s, Recorded) == None;
    assert Fault(Here, s) == None;
  }

  lemma ActCompletes(env: Env, d: Disk, call: Call, s: State)
    requires Inv(env, d) && d.state.garbage == d.state.retired && !call.CallPrepare?
    requires Act(env, d, call).writes == [Save(s)]
    ensures Step(env, d, Completed(call)) == d.(state := s) && Inv(env, d.(state := s))
  {
    NothingToLoad(env, d);
    StepKeeps(env, d, Completed(call));
    hide Inv, Load, Act;
    assert [] + [Save(s)] == [Save(s)];
    AfterOne(d, Save(s));
  }

  const Issued: State :=
    Made.(registered := Some(Recorded), revision := 1, frontier := 1,
          entries := [Entry(First, None, false, None, None)])

  lemma IssuedFirst()
    ensures var events := [Completed(CallRecordRegistration(Recorded)), Completed(CallReserve(1))];
      Reach(Here, Disk(Made, map[], map[]), events) == Disk(Issued, map[], map[])
    ensures Inv(Here, Disk(Issued, map[], map[]))
  {
    var d := Disk(Made, map[], map[]);
    var registering, reserving := CallRecordRegistration(Recorded), CallReserve(1);
    var s := Made.(registered := Some(Recorded), revision := 1);
    MadeIsValid();
    RegisteredIsValid();
    ReachTwo(Here, d, Completed(registering), Completed(reserving));
    ActCompletes(Here, d, registering, s);
    var e := d.(state := s);
    ReserveExactly(Here, e, 1);
    assert Reserved(s, First) == Issued;
    hide Inv, Step, Reach, Reserve;
    ActCompletes(Here, e, reserving, Issued);
  }

  /** From the store's making: registered, one operation reserved, its prepare and its recording each cut. */
  lemma UnreadableFromCreation()
    ensures Create(Here, Registering) == Ok(Disk(Made, map[], map[]))
    ensures var events :=
        [Completed(CallRecordRegistration(Recorded)), Completed(CallReserve(1))]
        + CutTwice(IdOf(First), Plan, Expanded, Committed);
      Unreadable(Here, Reach(Here, Disk(Made, map[], map[]), events), IdOf(First), Committed)
  {
    var d := Disk(Made, map[], map[]);
    var issued := Disk(Issued, map[], map[]);
    var first, rest :=
      [Completed(CallRecordRegistration(Recorded)), Completed(CallReserve(1))],
      CutTwice(IdOf(First), Plan, Expanded, Committed);
    MadeIsValid();
    IssuedFirst();
    LivePlace(Here, Issued, IdOf(First), 0);
    assert Recordable(Here, issued, IdOf(First), Plan, Expanded, Committed);
    CutRecordingUnreadable(Here, issued, IdOf(First), Plan, Expanded, Committed);
    ReachConcat(Here, d, first, rest);
  }

  lemma {:induction false} ReachConcat(env: Env, d: Disk, a: seq<Event>, b: seq<Event>)
    ensures Reach(env, d, a + b) == Reach(env, Reach(env, d, a), b)
    decreases |b|
  {
    hide Step;
    if b == [] {
      assert a + b == a;
    } else {
      assert (a + b)[..|a + b| - 1] == a + b[..|b| - 1];
      ReachConcat(env, d, a, b[..|b| - 1]);
    }
  }
}
