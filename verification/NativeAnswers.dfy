/**
 Exactly what each completed call of the native journal but preparing gives its caller, from any files that meet
 the invariant: its answer, and the files it leaves.
 */
module NativeAnswers {
  import opened Basics
  import opened NativeModel
  import opened NativeCalls
  import opened NativeSafety
  import opened NativeRuns
  import opened NativeTheorems
  import opened NativeLate
  import opened NativeExact

  lemma CallKeeps(env: Env, d: Disk, call: Call)
    requires Inv(env, d)
    ensures Inv(env, After(env, d, RunOf(env, d, call).writes))
  {
    hide Inv, RunOf;
    StepAllowed(env, d, Event(call, None));
  }

  // ---------------------------------------------------------------- answers that show an operation

  /** A look finds the operation the files of a ready identity of this context and intent hold, and nothing of
      one that is not ready or was never claimed. */
  ghost predicate LookGives(env: Env, d: Disk, context: Context, intent: Intent, id: Id, r: Result<Answer>) {
    if !ValidContext(context) then r == Err(ContextMismatch)
    else if env.digest(intent).None? then r == Err(InvalidIntent)
    else if id in d.catalogue.retired then r == Err(RetiredOperation)
    else if id !in d.catalogue.entries then r == Ok(Absent)
    else if d.catalogue.entries[id].context != context then r == Err(ContextMismatch)
    else if env.digest(intent) != Some(d.catalogue.entries[id].intent) then r == Err(IntentConflict)
    else if !d.catalogue.entries[id].ready then r == Ok(Absent)
    else
      && Framed(d, id)
      && r == if d.children[id].prepared.value.intent == intent then Ok(Returned(OperationIn(d, id)))
              else Err(IntentConflict)
  }

  lemma LookAnswers(env: Env, d: Disk, context: Context, intent: Intent, id: Id)
    requires Inv(env, d)
    ensures LookGives(env, d, context, intent, id, Existing(env, d, context, intent, id).answer)
  {
    assert Fault(env.limits, d.catalogue) == None;
    if id in d.catalogue.entries {
      ReadyIsFramed(env, d, id);
      if d.catalogue.entries[id].ready {
        PresentExactly(env, d, id);
      }
    }
    hide Inv, Fault, Present, OperationIn;
  }

  /** Why an identity's files are not read for a call of this context. */
  ghost function ReadFault(d: Disk, id: Id, context: Context): Option<Error> {
    if !ValidContext(context) then Some(ContextMismatch)
    else if id in d.catalogue.retired then Some(RetiredOperation)
    else if id !in d.catalogue.entries then Some(MissingOperation)
    else if d.catalogue.entries[id].context != context then Some(ContextMismatch)
    else if !d.catalogue.entries[id].ready then Some(Incomplete)
    else None
  }

  lemma LoadExactly(env: Env, d: Disk, id: Id, context: Context)
    requires Inv(env, d)
    ensures var loaded := Load(env, d, id, context);
      match ReadFault(d, id, context)
      case Some(error) => loaded == Err(error)
      case None =>
        && id in d.catalogue.entries && Framed(d, id)
        && loaded == Ok(Loaded(d.children[id].prepared.value, JournalIn(d, id)))
  {
    assert Fault(env.limits, d.catalogue) == None;
    if id in d.catalogue.entries {
      ReadyIsFramed(env, d, id);
      JournalReads(env, d, id);
    }
    hide Inv, Fault;
  }

  /** A retry answers the operation the files of a ready identity of this context hold. */
  ghost predicate RetryGives(d: Disk, id: Id, context: Context, r: Result<Answer>) {
    match ReadFault(d, id, context)
    case Some(error) => r == Err(error)
    case None => Framed(d, id) && r == Ok(Returned(OperationIn(d, id)))
  }

  lemma RetryAnswers(env: Env, d: Disk, id: Id, context: Context)
    requires Inv(env, d)
    ensures RetryGives(d, id, context, Retry(env, d, id, context).answer)
  {
    LoadExactly(env, d, id, context);
    hide Inv, Load;
  }

  // ---------------------------------------------------------------- recording

  /** The receipt is of this identity's frame. */
  ghost predicate OfFrame(d: Disk, id: Id, context: Context, receipt: Receipt)
    requires Framed(d, id)
  {
    var p := d.children[id].prepared.value;
    && receipt.invocation == OfRequest(RequestKey(context.principal, p.request.epoch, id))
    && receipt.intent == p.fingerprint && receipt.sequence != 0
  }

  ghost function WithJournal(d: Disk, id: Id, j: Journal): Disk
    requires id in d.children
  {
    d.(children := d.children[id := d.children[id].(journal := Some(j))])
  }

  /** A reply is recorded exactly if it commits the identity's frame, and no other receipt is recorded: the
      journal then holds it undelivered, and a committed advance moves the floor to its generation. */
  ghost predicate ReplyGives(d: Disk, id: Id, context: Context, reply: Reply, e: Disk, r: Result<Answer>) {
    if !reply.Committed? then Denied(d, e, r, NotCommitted)
    else
      match ReadFault(d, id, context)
      case Some(error) => Denied(d, e, r, error)
      case None =>
        && Framed(d, id)
        && var j, p := JournalIn(d, id), d.children[id].prepared.value;
        if !OfFrame(d, id, context, reply.receipt) then Denied(d, e, r, ReceiptMismatch)
        else if j.receipt == Some(reply.receipt) then r == Ok(Recorded) && e == d
        else if j.receipt.Some? then Denied(d, e, r, ReceiptMismatch)
        else if j.generation >= U64_MAX then Denied(d, e, r, Corrupt)
        else
          var moves := p.intent.name == EPOCH_ADVANCE && d.catalogue.floor < p.request.epoch;
          && r == Ok(Recorded)
          && e == WithJournal(d, id, Journal(j.generation + 1, Some(reply.receipt), None, false)).(
               catalogue := d.catalogue.(floor := if moves then p.request.epoch else d.catalogue.floor))
  }

  lemma FloorSaves(env: Env, d: Disk, id: Id)
    requires Inv(env, d) && id in d.catalogue.entries && Framed(d, id)
    ensures var epoch := d.children[id].prepared.value.request.epoch;
      d.catalogue.floor < epoch ==> Fault(env.limits, d.catalogue.(floor := epoch)) == None
  {
    ReadyIsFramed(env, d, id);
    hide Reserved, ValidContext;
  }

  lemma ReplyAnswers(env: Env, d: Disk, id: Id, context: Context, reply: Reply)
    requires Inv(env, d)
    ensures var run := RecordReply(env, d, id, context, reply); var e := After(env, d, run.writes);
      Inv(env, e) && ReplyGives(d, id, context, reply, e, run.answer)
  {
    hide Inv, Load, Fault, After, ValidReceipt;
    CallKeeps(env, d, Replying(id, context, reply));
    ReplyExactly(env, d, id, context, reply);
  }

  lemma ReplyExactly(env: Env, d: Disk, id: Id, context: Context, reply: Reply)
    requires Inv(env, d)
    ensures var run := RecordReply(env, d, id, context, reply);
      ReplyGives(d, id, context, reply, After(env, d, run.writes), run.answer)
  {
    hide Inv, Load, Fault, After;
    LoadExactly(env, d, id, context);
    AfterNone(env, d);
    if reply.Committed? && ReadFault(d, id, context).None? {
      FloorSaves(env, d, id);
      var j, p := JournalIn(d, id), d.children[id].prepared.value;
      var w := PutJournal(id, Journal(j.generation + 1, Some(reply.receipt), None, false));
      AfterOne(env, d, w);
      AfterTwo(env, d, w, SaveFloor(p.request.epoch));
      assert [w] + [SaveFloor(p.request.epoch)] == [w, SaveFloor(p.request.epoch)];
    }
  }

  /** The identity may retire from here on, ordered after all that may so far; one that may already is left. */
  ghost predicate ReportGives(d: Disk, id: Id, e: Disk, r: Result<Answer>)
    requires id in d.catalogue.entries
  {
    var c := d.catalogue;
    if c.retiredNext >= U64_MAX then Denied(d, e, r, Capacity)
    else if c.entries[id].retirable.Some? then r == Ok(Recorded) && e == d
    else
      && r == Ok(Recorded)
      && e == d.(catalogue := c.(retiredNext := c.retiredNext + 1,
                                 entries := c.entries[id := c.entries[id].(retirable := Some(c.retiredNext))]))
  }

  lemma ReportSaves(env: Env, d: Disk, id: Id)
    requires Inv(env, d) && id in d.catalogue.entries
    ensures Fault(env.limits, WithReported(d.catalogue, id)) == None
  {
    var c, t := d.catalogue, WithReported(d.catalogue, id);
    assert t.entries.Keys == c.entries.Keys;
    assert |t.entries| == |t.entries.Keys| == |c.entries.Keys| == |c.entries|;
    assert forall x :: x in t.entries ==>
      t.entries[x].context == c.entries[x].context && t.entries[x].epoch == c.entries[x].epoch;
    hide Reserved, ValidContext;
  }

  lemma MarkExactly(env: Env, d: Disk, id: Id, before: seq<Write>)
    requires Inv(env, d) && id in d.catalogue.entries && After(env, d, before).catalogue == d.catalogue
    ensures var run := MarkReported(env, d, id, before);
      ReportGives(After(env, d, before), id, After(env, d, run.writes), run.answer)
  {
    hide Inv, Fault, After;
    ReportSaves(env, d, id);
    AfterConcat(env, d, before, [SaveReported(id)]);
    AfterOne(env, After(env, d, before), SaveReported(id));
  }

  /** A delivery is recorded exactly if the identity has a receipt, then marked delivered, or was closed by a
      refusal, and may be reported; for one that retired there is nothing to do. */
  ghost predicate DeliveredGives(d: Disk, id: Id, context: Context, e: Disk, r: Result<Answer>) {
    match ReadFault(d, id, context)
    case Some(error) => if error == RetiredOperation then r == Ok(Recorded) && e == d else Denied(d, e, r, error)
    case None =>
      && id in d.catalogue.entries && id in d.children
      && var j := JournalIn(d, id);
      if j.receipt.Some? && !j.delivered then
        if j.generation >= U64_MAX then Denied(d, e, r, Corrupt)
        else ReportGives(WithJournal(d, id, Journal(j.generation + 1, j.receipt, None, true)), id, e, r)
      else if j.receipt.Some? || (j.refusal.Some? && j.refusal.value.kind != CapacityRefusal) then
        ReportGives(d, id, e, r)
      else Denied(d, e, r, NotCommitted)
  }

  lemma DeliveredKeeps(env: Env, d: Disk, id: Id, context: Context)
    requires Inv(env, d)
    ensures Inv(env, After(env, d, RecordDelivered(env, d, id, context).writes))
  {
    hide Inv, RecordDelivered, After;
    CallKeeps(env, d, Delivering(id, context));
  }

  lemma DeliveredAnswers(env: Env, d: Disk, id: Id, context: Context)
    requires Inv(env, d)
    ensures var run := RecordDelivered(env, d, id, context);
      DeliveredGives(d, id, context, After(env, d, run.writes), run.answer)
  {
    hide Inv, Load, Fault, MarkReported, ReportGives, After;
    LoadExactly(env, d, id, context);
    AfterNone(env, d);
    if ReadFault(d, id, context).None? {
      var j := JournalIn(d, id);
      var w := PutJournal(id, Journal(j.generation + 1, j.receipt, None, true));
      AfterOne(env, d, w);
      MarkExactly(env, d, id, []);
      MarkExactly(env, d, id, [w]);
    }
  }

  /** A refusal is recorded exactly if nothing committed: the journal then holds it, and one that closes is
      reported too. */
  ghost predicate RefusalGives(d: Disk, id: Id, context: Context, refusal: Refusal, e: Disk, r: Result<Answer>) {
    if |refusal.detail| > MAX_REFUSAL_DETAIL then Denied(d, e, r, Capacity)
    else
      match ReadFault(d, id, context)
      case Some(error) => Denied(d, e, r, error)
      case None =>
        && id in d.catalogue.entries && id in d.children
        && var j := JournalIn(d, id);
        if j.receipt.Some? then Denied(d, e, r, ReceiptMismatch)
        else if j.generation >= U64_MAX then Denied(d, e, r, Corrupt)
        else
          var t := WithJournal(d, id, Journal(j.generation + 1, None, Some(refusal), true));
          if refusal.kind == CapacityRefusal then r == Ok(Recorded) && e == t else ReportGives(t, id, e, r)
  }

  lemma RefusalKeeps(env: Env, d: Disk, id: Id, context: Context, refusal: Refusal)
    requires Inv(env, d)
    ensures Inv(env, After(env, d, RecordRefusal(env, d, id, context, refusal).writes))
  {
    hide Inv, RecordRefusal, After;
    CallKeeps(env, d, Refusing(id, context, refusal));
  }

  lemma RefusalAnswers(env: Env, d: Disk, id: Id, context: Context, refusal: Refusal)
    requires Inv(env, d)
    ensures var run := RecordRefusal(env, d, id, context, refusal);
      RefusalGives(d, id, context, refusal, After(env, d, run.writes), run.answer)
  {
    hide Inv, Load, Fault, MarkReported, ReportGives, After;
    LoadExactly(env, d, id, context);
    AfterNone(env, d);
    if ReadFault(d, id, context).None? {
      var j := JournalIn(d, id);
      var w := PutJournal(id, Journal(j.generation + 1, None, Some(refusal), true));
      AfterOne(env, d, w);
      MarkExactly(env, d, id, [w]);
    }
  }

  // ---------------------------------------------------------------- generations and opening

  /** The floor advance the journal asks for: its generation, once everything of an earlier one is reported. */
  ghost predicate FloorGives(d: Disk, r: Result<Answer>) {
    var c := d.catalogue;
    r == Ok(Due(if c.floor < c.generation && EarlierReported(d) then Some(c.generation) else None))
  }

  lemma FloorAnswers(env: Env, d: Disk)
    requires Inv(env, d)
    ensures FloorGives(d, FloorDue(env, d).answer)
  {
    hide Inv, FloorDue;
    FloorDueWhen(env, d);
  }

  /** A window observed raises the floor to the one observed and the generation to the floor at least, opens the
      next generation where that one follows the floor, and counts afresh what is issued in a new one. */
  ghost predicate WindowGives(d: Disk, floor: nat, next: nat, e: Disk, r: Result<Answer>) {
    var c := d.catalogue;
    var low := if c.floor < floor then floor else c.floor;
    var least := if c.generation < low then low else c.generation;
    var high := if low < U64_MAX && next == low + 1 && least < next then next else least;
    && r == Ok(Recorded)
    && e == d.(catalogue := c.(floor := low, generation := high,
                               issued := if high == c.generation then c.issued else 0))
  }

  lemma WindowSaves(env: Env, d: Disk, floor: nat, generation: nat, issued: nat)
    requires Inv(env, d) && d.catalogue.floor <= floor <= generation && d.catalogue.generation <= generation
    ensures Fault(env.limits, d.catalogue.(floor := floor, generation := generation, issued := issued)) == None
  {
    hide Reserved, ValidContext;
  }

  lemma WindowAnswers(env: Env, d: Disk, floor: nat, next: nat)
    requires Inv(env, d)
    ensures var run := ObserveWindow(env, d, floor, next); var e := After(env, d, run.writes);
      Inv(env, e) && WindowGives(d, floor, next, e, run.answer)
  {
    hide Inv, Fault, After, ObserveWindow, WindowGives;
    CallKeeps(env, d, Observing(floor, next));
    WindowExactly(env, d, floor, next);
  }

  lemma NoFault(env: Env, d: Disk)
    requires Inv(env, d)
    ensures Fault(env.limits, d.catalogue) == None
  {
  }

  lemma WindowExactly(env: Env, d: Disk, floor: nat, next: nat)
    requires Inv(env, d)
    ensures var run := ObserveWindow(env, d, floor, next); var e := After(env, d, run.writes);
      WindowGives(d, floor, next, e, run.answer)
  {
    hide Inv, Fault, After;
    NoFault(env, d);
    GenerationsInOrder(env, d);
    AfterNone(env, d);
    var c := d.catalogue;
    var low := if c.floor < floor then floor else c.floor;
    var least := if c.generation < low then low else c.generation;
    var high := if low < U64_MAX && next == low + 1 && least < next then next else least;
    var issued := if high == c.generation then c.issued else 0;
    WindowSaves(env, d, low, high, issued);
    AfterOne(env, d, SaveWindow(low, high, issued));
  }

  lemma GenerationsInOrder(env: Env, d: Disk)
    requires Inv(env, d)
    ensures d.catalogue.floor <= d.catalogue.generation
  {
  }

  /** Opening keeps exactly the ready operations, each with its frame, and of the directories no live
      operation owns leaves only such as the listing did not reach. */
  ghost predicate OpenGives(d: Disk, e: Disk, listed: seq<Id>, r: Result<Answer>) {
    && r == Ok(Recorded) && e.catalogue == d.catalogue.(entries := e.catalogue.entries)
    && (forall id :: id in e.catalogue.entries <==> ReadyLive(d, id))
    && (forall id <- e.catalogue.entries :: e.catalogue.entries[id] == d.catalogue.entries[id] && Framed(e, id))
    && (forall id :: id in e.children <==> id in d.children && (id in listed ==> id in e.catalogue.entries))
    && (forall id <- e.children :: e.children[id] == d.children[id])
  }

  lemma OpenAnswers(env: Env, d: Disk, listed: seq<Id>)
    requires Inv(env, d)
    ensures var run := Open(env, d, listed); var e := After(env, d, run.writes);
      Inv(env, e) && OpenGives(d, e, listed, run.answer)
  {
    var e := After(env, d, Open(env, d, listed).writes);
    hide Inv, Open, After, Framed;
    OpenIs(env, d, listed);
    OpenRecords(env, d, listed);
    OpenAllowed(env, d, listed);
    WritesKeepInv(env, d, Open(env, d, listed).writes);
    forall id | id in e.catalogue.entries
      ensures Framed(e, id)
    {
      ReadyIsFramed(env, e, id);
    }
  }

  lemma OpenRecords(env: Env, d: Disk, listed: seq<Id>)
    requires Inv(env, d)
    ensures Open(env, d, listed).answer == Ok(Recorded)
  {
    SweptOk(env, d.catalogue);
    hide WithSwept, Removals;
  }
}
