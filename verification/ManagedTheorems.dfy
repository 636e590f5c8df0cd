/**
 What a managed store promises over whole runs with crashes.
 */
module ManagedTheorems {
  import opened Basics
  import opened ManagedModel
  import opened ManagedSafety
  import opened ManagedCalls
  import opened ManagedRuns

  // ---------------------------------------------------------------- issuing

  predicate MayReserve(env: Env, s: State, request: nat) {
    s.registered.Some? && !s.stopped && request != 0 && |s.entries| < env.limits.window && s.frontier < U64_MAX
  }

  function Reserved(s: State, key: Key): State {
    s.(entries := s.entries + [Entry(key, None, false, None, None)], frontier := s.frontier + 1)
  }

  lemma ReservedIsValid(env: Env, s: State, request: nat)
    requires Fault(env, s) == None && MayReserve(env, s, request)
    ensures StreamOf(s).Ok? && ValidKey(Key(StreamOf(s).value, s.frontier + 1, request))
    ensures Fault(env, Reserved(s, Key(StreamOf(s).value, s.frontier + 1, request))) == None
  {
    var key := Key(StreamOf(s).value, s.frontier + 1, request);
    var t := Reserved(s, key);
    assert StreamOf(t) == StreamOf(s);
    WindowOf(env, s);
    assert EntriesValid(t.entries, StreamOf(t).value, t.retired);
  }

  /** Reserving succeeds exactly while the stream is registered, issuing and has room, and then issues
      the ordinal after the frontier. */
  lemma ReserveExactly(env: Env, d: Disk, request: nat)
    requires Inv(env, d)
    ensures var run := Reserve(env, d.state, request);
      if MayReserve(env, d.state, request) then
        var key := Key(StreamOf(d.state).value, d.state.frontier + 1, request);
        run == Run([Save(Reserved(d.state, key))], Ok(Issued(IdOf(key))))
      else run.writes == [] && run.answer.Err?
  {
    assert StreamOf(d.state).Ok?;
    if MayReserve(env, d.state, request) {
      ReservedIsValid(env, d.state, request);
    }
  }

  /** The key an event issues, if it issues one. */
  function IssuedBy(s: State, t: State): seq<Key> {
    if t.frontier != s.frontier && Holds(t, t.frontier) then [EntryAt(t, t.frontier).key] else []
  }

  /** The keys a run issues, in order. */
  ghost function IssuedIn(env: Env, d: Disk, events: seq<Event>): seq<Key> {
    if events == [] then []
    else
      var before := Reach(env, d, events[..|events| - 1]);
      IssuedIn(env, d, events[..|events| - 1]) + IssuedBy(before.state, Reach(env, d, events).state)
  }

  /** What a reserve, cut or not, does once loaded. */
  lemma ReserveActs(env: Env, d: Disk, request: nat, acted: seq<Write>)
    requires Inv(env, d) && acted <= Act(env, d, CallReserve(request)).writes
    ensures After(d, acted).state.retired == d.state.retired
    ensures acted != [] ==> !d.state.stopped && After(d, acted).state.frontier == d.state.frontier + 1
    ensures acted == [] ==> After(d, acted) == d
  {
    hide Inv, Fault;
    ReserveExactly(env, d, request);
    if acted != [] {
      AfterOne(d, acted[0]);
      assert acted == [acted[0]];
    }
  }

  /** Any other call's act, cut or not, leaves the frontier. */
  lemma OtherActs(env: Env, d: Disk, call: Call, acted: seq<Write>)
    requires !call.CallReserve? && acted <= Act(env, d, call).writes
    ensures After(d, acted).state.frontier == d.state.frontier
    ensures !IsRetiring(d, call) ==> After(d, acted).state.retired == d.state.retired
  {
    if IsRetiring(d, call) {
      RetiringLeavesFrontier(env, d, call);
      FrontierLeft(d, acted);
    } else {
      ActLeavesMarks(env, d, call);
      hide Act;
      MarksLeft(d, acted);
    }
  }

  /** An event issues nothing, or it is a reserve that issues the next ordinal. */
  lemma StepIssues(env: Env, d: Disk, ev: Event)
    requires Inv(env, d)
    ensures var e := Step(env, d, ev);
      || e.state.frontier == d.state.frontier
      || (ev.call.CallReserve? && e.state.frontier == d.state.frontier + 1)
  {
    LoadSound(env, d);
    var loaded, acted := MadeSplits(env, d, ev);
    hide Inv, Step, Sound, Load, After, Act;
    if acted == [] {
      AfterNone(loaded);
    } else if ev.call.CallReserve? {
      ReserveActs(env, loaded, ev.call.request, acted);
    } else {
      OtherActs(env, loaded, ev.call, acted);
    }
  }

  ghost predicate LeavesFrontier(s: State, writes: seq<Write>) {
    forall w <- writes :: w.Save? ==> w.state.frontier == s.frontier
  }

  lemma {:induction false} FrontierLeft(d: Disk, writes: seq<Write>)
    requires LeavesFrontier(d.state, writes)
    ensures After(d, writes).state.frontier == d.state.frontier
    decreases |writes|
  {
    if writes != [] {
      FrontierLeft(d, writes[..|writes| - 1]);
      assert writes[|writes| - 1] in writes;
    }
  }

  lemma RetiringLeavesFrontier(env: Env, d: Disk, call: Call)
    requires IsRetiring(d, call)
    ensures LeavesFrontier(d.state, Act(env, d, call).writes)
  {
    hide Fault, ManifestFault;
  }

  /** From `s` to `t` exactly `keys` were issued: one for each ordinal between the frontiers, in order,
      and each live one of them still carries its key. */
  ghost predicate IssuedBetween(s: State, t: State, keys: seq<Key>) {
    && t.frontier == s.frontier + |keys|
    && (forall i :: 0 <= i < |keys| ==> keys[i].ordinal == s.frontier + 1 + i)
    && (forall o: nat :: Holds(t, o) && s.frontier < o <= s.frontier + |keys| ==>
          EntryAt(t, o).key == keys[o - s.frontier - 1])
  }

  lemma IssuedStep(env: Env, s: State, before: State, after: State, keys: seq<Key>)
    requires IssuedBetween(s, before, keys) && Fault(env, before) == None && Fault(env, after) == None
    requires MarksExtend(before, after) && EntriesExtend(before, after) && after.frontier <= before.frontier + 1
    requires after.frontier > before.frontier ==> after.retired <= before.frontier
    ensures IssuedBetween(s, after, keys + IssuedBy(before, after))
  {
    WindowOf(env, before);
    WindowOf(env, after);
    hide Fault, EntryValid;
    var all := keys + IssuedBy(before, after);
    forall o: nat | Holds(after, o) && s.frontier < o <= s.frontier + |all|
      ensures EntryAt(after, o).key == all[o - s.frontier - 1]
    {
      if o <= before.frontier {
        assert Holds(before, o);
      }
    }
  }

  lemma ReserveLeavesRetired(env: Env, d: Disk, ev: Event)
    requires Inv(env, d) && ev.call.CallReserve?
    ensures Step(env, d, ev).state.retired == d.state.retired
  {
    LoadSound(env, d);
    var loaded, acted := MadeSplits(env, d, ev);
    hide Inv, Step, Sound, Load, After, Act;
    if acted == [] {
      AfterNone(loaded);
    } else {
      ReserveActs(env, loaded, ev.call.request, acted);
    }
  }

  /** Over any run with crashes the ordinals issued are exactly those after the first frontier, in
      order, each once; and the entry of every live ordinal carries the key it was issued with. */
  lemma {:induction false} IssuesInOrder(env: Env, d: Disk, events: seq<Event>)
    requires Inv(env, d)
    ensures IssuedBetween(d.state, Reach(env, d, events).state, IssuedIn(env, d, events))
    decreases |events|
  {
    hide Step, IssuedBetween, Fault, EntriesFit, ControlFits, FilesBetween, IssuedBy, MarksExtend, EntriesExtend,
      FilesExtend;
    if events == [] {
      NothingIssued(env, d);
    } else {
      var front := events[..|events| - 1];
      IssuesInOrder(env, d, front);
      var before, last := Reach(env, d, front), events[|events| - 1];
      RunsKeepInv(env, d, front, |front|);
      assert front[..|front|] == front;
      StepIssues(env, before, last);
      if last.call.CallReserve? {
        ReserveLeavesRetired(env, before, last);
      }
      StepKeeps(env, before, last);
      WindowOf(env, before.state);
      IssuedStep(env, d.state, before.state, Reach(env, d, events).state, IssuedIn(env, d, front));
    }
  }

  /** So a store issues, from its making on, the ordinals 1, 2, 3 and on, each once: the identity issued after
      `i` others carries ordinal `i + 1`, and so does the entry that holds it while it lives. */
  lemma CreatedIssuesFromOne(env: Env, registration: Control, events: seq<Event>)
    requires Create(env, registration).Ok?
    ensures var d := Create(env, registration).value;
      var issued, s := IssuedIn(env, d, events), Reach(env, d, events).state;
      && s.frontier == |issued| && (forall i :: 0 <= i < |issued| ==> issued[i].ordinal == i + 1)
      && (forall o: nat :: Holds(s, o) ==> 0 < o <= |issued| && EntryAt(s, o).key == issued[o - 1])
  {
    CreatedInv(env, registration);
    var d := Create(env, registration).value;
    assert d.state.frontier == 0;
    hide Create, IssuedIn, Reach, Inv, Fault, IssuedBetween;
    IssuesInOrder(env, d, events);
    RunsKeepInv(env, d, events, |events|);
    assert events[..|events|] == events;
    IssuedFromZero(env, d.state, Reach(env, d, events), IssuedIn(env, d, events));
  }

  lemma IssuedFromZero(env: Env, s: State, e: Disk, issued: seq<Key>)
    requires s.frontier == 0 && IssuedBetween(s, e.state, issued) && Inv(env, e)
    ensures e.state.frontier == |issued| && forall i :: 0 <= i < |issued| ==> issued[i].ordinal == i + 1
    ensures forall o: nat :: Holds(e.state, o) ==> 0 < o <= |issued| && EntryAt(e.state, o).key == issued[o - 1]
  {
    WindowOf(env, e.state);
    hide Fault, EntriesFit, ControlFits, FilesBetween;
  }

  lemma NothingIssued(env: Env, d: Disk)
    requires Inv(env, d)
    ensures IssuedBetween(d.state, d.state, [])
  {
  }

  /** What a completed call answered is what its run leaves. */
  lemma CompletedSplits(env: Env, d: Disk, call: Call)
    requires Inv(env, d) && RunOf(env, d, call).answer.Ok?
    ensures var loaded := After(d, Load(env, d).writes);
      && Inv(env, loaded) && loaded.state == d.state.(garbage := d.state.retired)
      && RunOf(env, d, call).answer == Act(env, loaded, call).answer
      && Step(env, d, Completed(call)) == After(loaded, Act(env, loaded, call).writes)
  {
    hide Inv, Extends, Fault, Sound;
    LoadSound(env, d);
    hide Load, Act;
    var loaded := After(d, Load(env, d).writes);
    AfterConcat(d, Load(env, d).writes, Act(env, loaded, call).writes);
  }

  /** A reserve that answers issued exactly the identity it answered. */
  lemma ReserveAnswersIssued(env: Env, d: Disk, request: nat)
    requires Inv(env, d) && RunOf(env, d, CallReserve(request)).answer.Ok?
    ensures var run := RunOf(env, d, CallReserve(request)); var e := Step(env, d, Completed(CallReserve(request)));
      && run.answer.value.Issued? && run.answer.value.id.request == request
      && run.answer.value.id.ordinal == d.state.frontier + 1
      && IssuedBy(d.state, e.state) == [KeyOf(run.answer.value.id, d.state.context)]
  {
    CompletedSplits(env, d, CallReserve(request));
    var loaded := After(d, Load(env, d).writes);
    LoadSound(env, d);
    hide RunOf, Load, Step, Sound;
    ReserveCompletes(env, loaded, request);
  }

  lemma ReserveCompletes(env: Env, d: Disk, request: nat)
    requires Inv(env, d) && Act(env, d, CallReserve(request)).answer.Ok?
    ensures var run := Act(env, d, CallReserve(request)); var e := After(d, run.writes);
      && run.answer.value.Issued? && run.answer.value.id.request == request
      && run.answer.value.id.ordinal == d.state.frontier + 1
      && e.state.frontier == d.state.frontier + 1 && Holds(e.state, e.state.frontier)
      && EntryAt(e.state, e.state.frontier).key == KeyOf(run.answer.value.id, d.state.context)
  {
    WindowOf(env, d.state);
    ReserveExactly(env, d, request);
    hide Inv, Fault, StreamOf;
    AfterOne(d, Act(env, d, CallReserve(request)).writes[0]);
  }

  // ---------------------------------------------------------------- one envelope, one receipt

  predicate AsksRequest(call: Call, id: OperationId) {
    (call.CallPrepare? || call.CallRequest?) && call.id == id
  }

  lemma PrepareShows(env: Env, d: Disk, id: OperationId, intent: Intent, digest: Hash, expand: Key -> Result<Request>)
    requires Inv(env, d) && Prepare(env, d, id, intent, digest, expand).answer.Ok?
    ensures var run := Prepare(env, d, id, intent, digest, expand); var e := After(d, run.writes);
      && run.answer.value.Ready? && run.answer.value.prepared.intent == intent
      && id.ordinal in e.prepared && e.prepared[id.ordinal] == run.answer.value.prepared
      && d.state.retired < id.ordinal
  {
    FoundEntry(env, d, id);
    BoundEntry(env, d, id, digest);
    hide Inv, Fault, EntryFits, PreparedFault;
    var i := Index(d.state, id).value;
    var bound := BindIntent(env, d.state, i, digest);
    var f := After(d, bound.writes);
    hide Index, BindIntent;
    WrittenRequest(env, f, i, intent, digest, expand);
    var written := WriteRequest(env, f, i, intent, digest, expand);
    hide WriteRequest, MarkPrepared, After;
    var p := written.answer.value.prepared;
    MarkLeavesFiles(env, After(f, written.writes), f.state, i, intent, p);
    var marked := MarkPrepared(env, f.state, i, intent, p);
    AfterConcat(f, written.writes, marked.writes);
    AfterConcat(d, bound.writes, written.writes + marked.writes);
  }

  lemma MarkLeavesFiles(env: Env, d: Disk, s: State, i: nat, intent: Intent, p: Prepared)
    requires i < |s.entries|
    ensures After(d, MarkPrepared(env, s, i, intent, p).writes).prepared == d.prepared
    ensures MarkPrepared(env, s, i, intent, p).answer.Ok? ==>
      MarkPrepared(env, s, i, intent, p).answer == Ok(Ready(p)) && p.intent == intent
  {
    SaveLeavesFiles(env, d, WithEntry(s, i, s.entries[i].(prepared := true)), Ok(Ready(p)));
    hide Fault;
  }

  /** A request answered for an operation is in its file and the operation is not retired. */
  lemma RequestShows(env: Env, d: Disk, call: Call, id: OperationId)
    requires Inv(env, d) && AsksRequest(call, id) && RunOf(env, d, call).answer.Ok?
    ensures var answer := RunOf(env, d, call).answer.value; var e := Step(env, d, Completed(call));
      && answer.Ready? && id.ordinal in e.prepared && e.prepared[id.ordinal] == answer.prepared
      && e.state.retired < id.ordinal
      && (call.CallPrepare? ==> answer.prepared.intent == call.intent)
  {
    CompletedSplits(env, d, call);
    var loaded := After(d, Load(env, d).writes);
    ActLeavesMarks(env, loaded, call);
    MarksLeft(loaded, Act(env, loaded, call).writes);
    if call.CallPrepare? {
      PrepareShows(env, loaded, id, call.intent, env.digest(call.intent).value, call.expand);
    } else {
      FoundEntry(env, loaded, id);
    }
  }

  /** However often and in whatever order an operation is prepared or its request read, through crashes
      and reopening, every answer is the same envelope, and every intent prepared is the same intent. */
  lemma OneEnvelope(env: Env, d: Disk, events: seq<Event>, i: nat, j: nat, id: OperationId)
    requires Inv(env, d) && i <= j < |events|
    requires events[i].Completed? && events[j].Completed? && AsksRequest(events[i].call, id)
    requires AsksRequest(events[j].call, id)
    requires RunOf(env, At(env, d, events, i), events[i].call).answer.Ok?
    requires RunOf(env, At(env, d, events, j), events[j].call).answer.Ok?
    ensures RunOf(env, At(env, d, events, i), events[i].call).answer ==
      RunOf(env, At(env, d, events, j), events[j].call).answer
    ensures events[i].call.CallPrepare? && events[j].call.CallPrepare? ==>
      events[i].call.intent == events[j].call.intent
  {
    hide Inv, RunOf, Step, Reach, MarksExtend, EntriesExtend;
    RunsKeepInv(env, d, events, i);
    RunsKeepInv(env, d, events, j);
    RequestShows(env, At(env, d, events, i), events[i].call, id);
    RequestShows(env, At(env, d, events, j), events[j].call, id);
    AtStep(env, d, events, i);
    AtStep(env, d, events, j);
    RunsExtend(env, d, events, i + 1, j + 1);
  }

  /** A request already written is answered again without being expanded. */
  lemma ExpandsOnce(env: Env, d: Disk, id: OperationId, intent: Intent, digest: Hash, f: Key -> Result<Request>,
                    g: Key -> Result<Request>)
    requires Inv(env, d) && id.ordinal in d.prepared
    ensures Prepare(env, d, id, intent, digest, f) == Prepare(env, d, id, intent, digest, g)
  {
    if Index(d.state, id).Ok? {
      FoundEntry(env, d, id);
      hide Inv, Fault, PreparedFault, Index, MarkPrepared;
    }
  }

  /** The call records the answer to a pending seal of the operation. */
  predicate AnswersSeal(d: Disk, call: Call, id: OperationId) {
    && call.CallRecordControl? && call.answer.outcome.Sealed? && d.state.lastControl != Some(call.answer)
    && d.state.control.Some? && d.state.control.value.command.SealOne? && IdOf(d.state.control.value.command.key) == id
  }

  /** The receipt a completed call recorded, itself or with a seal's answer, or answered for an operation. */
  ghost predicate GivesReceipt(env: Env, d: Disk, call: Call, id: OperationId, r: Receipt) {
    && RunOf(env, d, call).answer.Ok?
    && (|| (call.CallRecordReceipt? && call.id == id && call.receipt == r)
        || (AnswersSeal(d, call, id) && call.answer.outcome.receipt == r)
        || (call.CallReceipt? && call.id == id && RunOf(env, d, call).answer == Ok(Stored(Some(r)))))
  }

  lemma SaveLeavesFiles(env: Env, d: Disk, s: State, answer: Result<Answer>)
    ensures var e := After(d, SaveState(env, s, answer).writes); e.prepared == d.prepared && e.receipts == d.receipts
  {
    hide Fault;
    AfterOne(d, Save(s));
  }

  lemma WroteReceipt(env: Env, d: Disk, e: Entry, r: Receipt)
    requires WriteReceipt(env, d, e, r).answer.Ok?
    ensures var f := After(d, WriteReceipt(env, d, e, r).writes);
      e.key.ordinal in f.receipts && f.receipts[e.key.ordinal] == r
  {
    AfterOne(d, PutReceipt(e.key.ordinal, r));
  }

  lemma RecordReceiptShows(env: Env, d: Disk, id: OperationId, r: Receipt)
    requires Inv(env, d) && RecordReceipt(env, d, id, r).answer.Ok?
    ensures var e := After(d, RecordReceipt(env, d, id, r).writes);
      id.ordinal in e.receipts && e.receipts[id.ordinal] == r && d.state.retired < id.ordinal
  {
    FoundEntry(env, d, id);
    hide Inv, EntryFits, ReadPrepared, ProvesRequest, Index, WriteReceipt, SaveState, After;
    var i := Index(d.state, id).value;
    var e := d.state.entries[i];
    WroteReceipt(env, d, e, r);
    var written := WriteReceipt(env, d, e, r);
    var s := WithEntry(d.state, i, e.(prepared := true, receipt := Some(env.receiptHash(r))));
    SaveLeavesFiles(env, After(d, written.writes), s, Ok(Done));
    AfterConcat(d, written.writes, SaveState(env, s, Ok(Done)).writes);
  }

  lemma RecordSealedShows(env: Env, d: Disk, receipt: ControlReceipt)
    requires Inv(env, d) && d.state.control.Some? && d.state.control.value.command.SealOne? && receipt.outcome.Sealed?
    requires RecordSealed(env, d, d.state.control.value.command, receipt).answer.Ok?
    ensures var c := d.state.control.value.command; var e := After(d, RecordSealed(env, d, c, receipt).writes);
      && c.key.ordinal in e.receipts && e.receipts[c.key.ordinal] == receipt.outcome.receipt
      && d.state.retired < c.key.ordinal && e.state.lastControl == Some(receipt) && e.state.control.None?
  {
    var c := d.state.control.value.command;
    var id := IdOf(c.key);
    FoundEntry(env, d, id);
    hide Inv, EntryFits, Proves, Index, WriteReceipt, Fault, After;
    var i := Index(d.state, id).value;
    var e, r := d.state.entries[i], receipt.outcome.receipt;
    WroteReceipt(env, d, e, r);
    var written := WriteReceipt(env, d, e, r);
    var s := WithEntry(d.state, i, e.(receipt := Some(env.receiptHash(r))));
    s := s.(revision := d.state.revision + 1, control := None, lastControl := Some(receipt));
    AfterOne(After(d, written.writes), Save(s));
    AfterConcat(d, written.writes, [Save(s)]);
  }

  lemma SealActs(env: Env, d: Disk, call: Call, id: OperationId)
    requires Inv(env, d) && AnswersSeal(d, call, id) && Act(env, d, call).answer.Ok?
    ensures var e := After(d, Act(env, d, call).writes);
      id.ordinal in e.receipts && e.receipts[id.ordinal] == call.answer.outcome.receipt && d.state.retired < id.ordinal
  {
    hide Inv, RecordSealed, After, AnswersControl;
    RecordSealedShows(env, d, call.answer);
  }

  lemma ReadActs(env: Env, d: Disk, id: OperationId, r: Receipt)
    requires Inv(env, d) && ReceiptOf(env, d, id).answer == Ok(Stored(Some(r)))
    ensures id.ordinal in d.receipts && d.receipts[id.ordinal] == r && d.state.retired < id.ordinal
  {
    FoundEntry(env, d, id);
    hide Inv, EntryFits, Index, Proves, ReadPrepared, ProvesRequest;
  }

  lemma ReceiptShows(env: Env, d: Disk, call: Call, id: OperationId, r: Receipt)
    requires Inv(env, d) && GivesReceipt(env, d, call, id, r)
    ensures var e := Step(env, d, Completed(call));
      id.ordinal in e.receipts && e.receipts[id.ordinal] == r && e.state.retired < id.ordinal
  {
    CompletedSplits(env, d, call);
    var loaded := After(d, Load(env, d).writes);
    hide Inv, RunOf, Load, Step;
    ActLeavesMarks(env, loaded, call);
    MarksLeft(loaded, Act(env, loaded, call).writes);
    hide RecordReceipt, RecordControl, ReceiptOf, LeavesMarks;
    if call.CallRecordReceipt? {
      RecordReceiptShows(env, loaded, id, r);
    } else if call.CallRecordControl? {
      SealActs(env, loaded, call, id);
    } else {
      ReadActs(env, loaded, id, r);
    }
  }

  /** Every receipt recorded, itself or with a seal's answer, or answered for one operation is the same. */
  lemma OneReceipt(env: Env, d: Disk, events: seq<Event>, i: nat, j: nat, id: OperationId, r: Receipt, q: Receipt)
    requires Inv(env, d) && i <= j < |events| && events[i].Completed? && events[j].Completed?
    requires GivesReceipt(env, At(env, d, events, i), events[i].call, id, r)
    requires GivesReceipt(env, At(env, d, events, j), events[j].call, id, q)
    ensures r == q
  {
    hide Inv, RunOf, Step, Reach, MarksExtend, EntriesExtend, GivesReceipt;
    RunsKeepInv(env, d, events, i);
    RunsKeepInv(env, d, events, j);
    ReceiptShows(env, At(env, d, events, i), events[i].call, id, r);
    ReceiptShows(env, At(env, d, events, j), events[j].call, id, q);
    AtStep(env, d, events, i);
    AtStep(env, d, events, j);
    RunsExtend(env, d, events, i + 1, j + 1);
  }

  // ---------------------------------------------------------------- losing files

  /** A file that is gone later belonged to an ordinal retired by then. */
  lemma OnlyRetiredLoseFiles(env: Env, d: Disk, events: seq<Event>, i: nat, j: nat, o: nat)
    requires Inv(env, d) && i <= j <= |events|
    ensures var a := At(env, d, events, i); var b := At(env, d, events, j);
      && (PreparedAt(a, o).Some? && PreparedAt(b, o) != PreparedAt(a, o) ==> o <= b.state.retired)
      && (ReceiptAt(a, o).Some? && ReceiptAt(b, o) != ReceiptAt(a, o) ==> o <= b.state.retired)
  {
    hide Inv, Reach, MarksExtend, EntriesExtend;
    RunsExtend(env, d, events, i, j);
  }

  /** Every call loads first but a preparation whose intent no digest can be made of, which changes nothing. */
  predicate Loads(env: Env, call: Call) {
    call.CallPrepare? ==> env.digest(call.intent).Some?
  }

  /** Any completed call that loads, whatever it answers, leaves no file of an ordinal that was retired
      before it. */
  lemma LoadedLeavesLiveFiles(env: Env, d: Disk, call: Call, o: nat)
    requires Inv(env, d) && o <= d.state.retired
    ensures var e := Step(env, d, Completed(call));
      if Loads(env, call) then o !in e.prepared && o !in e.receipts else e == d
  {
    if Loads(env, call) {
      LoadSound(env, d);
      var loaded := After(d, Load(env, d).writes);
      var act := Act(env, loaded, call);
      ActSound(env, loaded, call);
      AfterConcat(d, Load(env, d).writes, act.writes);
      assert act.writes[..|act.writes|] == act.writes;
      hide Load, Act, After, Fault, EntriesFit, ControlFits, EntriesExtend;
    }
  }

  // ---------------------------------------------------------------- retiring

  /** An acknowledgment names, for the ordinal, the receipt its file holds. */
  ghost predicate NamesReceipt(env: Env, d: Disk, command: Command, o: nat) {
    && command.Acknowledge? && d.state.retired < o <= command.through
    && o - d.state.retired - 1 < |command.receipts|
    && o in d.receipts && env.receiptHash(d.receipts[o]) == command.receipts[o - d.state.retired - 1].receiptHash
    && d.receipts[o].key == command.receipts[o - d.state.retired - 1].key
  }

  lemma {:induction false} ManifestNames(env: Env, d: Disk, entries: seq<Entry>, acks: seq<Ack>, i: nat)
    requires ManifestFault(env, d, entries, acks) == None && i < |entries| && i < |acks|
    ensures var o := entries[i].key.ordinal;
      o in d.receipts && env.receiptHash(d.receipts[o]) == acks[i].receiptHash && d.receipts[o].key == acks[i].key
    decreases i
  {
    hide ReadPrepared, ProvesRequest, Proves;
    if i > 0 {
      ManifestNames(env, d, entries[1..], acks[1..], i - 1);
    }
  }

  lemma AcknowledgedNames(env: Env, d: Disk, command: Command, receipt: ControlReceipt, o: nat)
    requires Inv(env, d) && command.Acknowledge? && receipt.outcome.Acknowledged?
    requires var run := RecordAcknowledged(env, d, command, receipt);
      run.writes != [] && d.state.retired < o <= After(d, run.writes).state.retired
    ensures NamesReceipt(env, d, command, o)
  {
    WindowOf(env, d.state);
    hide Inv, Fault, ManifestFault;
    var run := RecordAcknowledged(env, d, command, receipt);
    AfterOne(d, run.writes[0]);
    ManifestNames(env, d, d.state.entries, command.receipts, o - d.state.retired - 1);
    assert Holds(d.state, o);
  }

  /** An event that retires an ordinal records the answer to a saved acknowledgment that names the
      receipt saved for it. */
  lemma StepRetires(env: Env, d: Disk, ev: Event, o: nat)
    requires Inv(env, d) && d.state.retired < o <= Step(env, d, ev).state.retired
    ensures IsRetiring(d, ev.call) && NamesReceipt(env, d, d.state.control.value.command, o)
  {
    LoadSound(env, d);
    var loaded, acted := MadeSplits(env, d, ev);
    assert acted != [] by {
      if acted == [] {
        AfterNone(loaded);
      }
    }
    hide Inv, Step, Sound, Load, After, Act;
    if ev.call.CallReserve? {
      ReserveActs(env, loaded, ev.call.request, acted);
    } else {
      OtherActs(env, loaded, ev.call, acted);
      RetiringActs(env, loaded, ev.call, acted, o);
      NamesReceiptLoaded(env, d, loaded, d.state.control.value.command, o);
    }
  }

  lemma NamesReceiptLoaded(env: Env, d: Disk, loaded: Disk, command: Command, o: nat)
    requires NamesReceipt(env, loaded, command, o) && loaded.state.retired == d.state.retired
    requires forall n <- loaded.receipts :: n in d.receipts && d.receipts[n] == loaded.receipts[n]
    ensures NamesReceipt(env, d, command, o)
  {
  }

  lemma RetiringActs(env: Env, d: Disk, call: Call, acted: seq<Write>, o: nat)
    requires Inv(env, d) && IsRetiring(d, call) && acted != [] && acted <= Act(env, d, call).writes
    requires d.state.retired < o <= After(d, acted).state.retired
    ensures NamesReceipt(env, d, d.state.control.value.command, o)
  {
    hide Inv, NamesReceipt, Fault, ManifestFault;
    var run := RecordAcknowledged(env, d, d.state.control.value.command, call.answer);
    assert acted == run.writes;
    AcknowledgedNames(env, d, d.state.control.value.command, call.answer, o);
  }

  /** Whatever is retired was retired by an acknowledgment naming the receipt then saved for it. */
  lemma {:induction false} RetiredWasAcknowledged(env: Env, d: Disk, events: seq<Event>, n: nat, o: nat)
      returns (i: nat)
    requires Inv(env, d) && n <= |events| && d.state.retired < o <= At(env, d, events, n).state.retired
    ensures i < n && var before := At(env, d, events, i);
      IsRetiring(before, events[i].call) && NamesReceipt(env, before, before.state.control.value.command, o)
    decreases n
  {
    hide Inv, Step, NamesReceipt, IsRetiring;
    assert n > 0;
    AtStep(env, d, events, n - 1);
    var before := At(env, d, events, n - 1);
    if o <= before.state.retired {
      i := RetiredWasAcknowledged(env, d, events, n - 1, o);
    } else {
      RunsKeepInv(env, d, events, n - 1);
      StepRetires(env, before, events[n - 1], o);
      i := n - 1;
    }
  }

  // ---------------------------------------------------------------- stopping

  /** A stop that succeeded found every ordinal issued retired, and no reserve issues afterwards. */
  lemma NothingIssuesAfterStop(env: Env, d: Disk, events: seq<Event>, i: nat, j: nat, threshold: nat, request: nat)
    requires Inv(env, d) && i < j <= |events| && events[i] == Completed(CallStopIfDrained(threshold))
    requires RunOf(env, At(env, d, events, i), events[i].call).answer == Ok(Drained(true))
    ensures var before := At(env, d, events, i); var after := At(env, d, events, j);
      && before.state.retired == before.state.frontier && before.state.frontier >= threshold
      && before.state.frontier >= 1
      && after.state.stopped && after.state.frontier == after.state.retired == before.state.frontier
      && after.state.entries == []
      && RunOf(env, after, CallReserve(request)).answer == Err(Stopped)
  {
    var before, after := At(env, d, events, i), At(env, d, events, j);
    RunsKeepInv(env, d, events, i);
    RunsKeepInv(env, d, events, j);
    StopSucceeds(env, before, threshold);
    AtStep(env, d, events, i);
    RunsExtend(env, d, events, i + 1, j);
    StoppedRefuses(env, after, request);
    WindowOf(env, after.state);
  }

  lemma StopSucceeds(env: Env, d: Disk, threshold: nat)
    requires Inv(env, d) && RunOf(env, d, CallStopIfDrained(threshold)).answer == Ok(Drained(true))
    ensures var e := Step(env, d, Completed(CallStopIfDrained(threshold)));
      && d.state.retired == d.state.frontier && d.state.frontier >= threshold && d.state.frontier >= 1
      && e.state.stopped && e.state.registered.Some? && e.state.frontier == e.state.retired == d.state.frontier
  {
    CompletedSplits(env, d, CallStopIfDrained(threshold));
    var loaded := After(d, Load(env, d).writes);
    hide Inv, Fault, Load, RunOf, Step;
    var run := StopIfDrained(env, loaded.state, threshold);
    AfterOne(loaded, run.writes[0]);
  }

  lemma StoppedRefuses(env: Env, d: Disk, request: nat)
    requires Inv(env, d) && d.state.stopped
    ensures RunOf(env, d, CallReserve(request)).answer == Err(Stopped)
  {
    LoadSound(env, d);
    assert d.state.registered.Some?;
    hide Inv, Fault, Load;
  }

  // ---------------------------------------------------------------- reading

  /** The outstanding operations are exactly the live ordinals, in order, and each is found by its id. */
  lemma OutstandingIsLive(env: Env, d: Disk)
    requires Inv(env, d)
    ensures Outstanding(d.state).answer.Ok? && Outstanding(d.state).answer.value.Live?
    ensures var ids := Outstanding(d.state).answer.value.ids;
      && |ids| == d.state.frontier - d.state.retired
      && forall i :: 0 <= i < |ids| ==> ids[i].ordinal == d.state.retired + 1 + i && Index(d.state, ids[i]) == Ok(i)
  {
    WindowOf(env, d.state);
    var ids := Outstanding(d.state).answer.value.ids;
    forall i | 0 <= i < |ids|
      ensures ids[i].ordinal == d.state.retired + 1 + i && Index(d.state, ids[i]) == Ok(i)
    {
      assert EntryValid(d.state.entries[i], StreamOf(d.state).value, d.state.retired + 1 + i);
      assert KeyOf(ids[i], d.state.context) == d.state.entries[i].key;
      LivePlace(env, d.state, ids[i], i);
    }
  }

  /** A saved receipt is read back exactly when its entry is marked prepared or sealed; one whose entry was
      never marked either way is refused until a recording completes. */
  lemma ReceiptReadableWhen(env: Env, d: Disk, o: nat)
    requires Inv(env, d) && Holds(d.state, o)
    ensures var e := EntryAt(d.state, o);
      SavedReceipt(env, d, e) ==
        if o in d.receipts && !e.prepared && e.seal.None? then Err(Corrupt) else Ok(ReceiptAt(d, o))
  {
    WindowOf(env, d.state);
    hide Fault, ControlFits, FilesBetween, Proves;
    var e := EntryAt(d.state, o);
    assert EntryFits(env, PreparedAt(d, o), ReceiptAt(d, o), e);
  }
}
