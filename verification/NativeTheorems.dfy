/**
 The native journal's promises, over every run: an identity answers for one frame and one
 receipt, retires only once its result was reported, and is issued in an open generation.
 */
module NativeTheorems {
  import opened Basics
  import opened NativeModel
  import opened NativeCalls
  import opened NativeSafety
  import opened NativeRuns

  /** A call, completed, or stopped by a crash or a failed write after `n` durable writes. */
  datatype Event = Event(call: Call, stop: Option<nat>)

  ghost function Made(env: Env, d: Disk, ev: Event): seq<Write> {
    var writes := RunOf(env, d, ev.call).writes;
    if ev.stop.Some? && ev.stop.value < |writes| then writes[..ev.stop.value] else writes
  }

  ghost function Step(env: Env, d: Disk, ev: Event): Disk {
    After(env, d, Made(env, d, ev))
  }

  /** The operation a completed call returned. */
  ghost predicate Returns(env: Env, d: Disk, ev: Event, op: Operation) {
    ev.stop == None && RunOf(env, d, ev.call).answer == Ok(Returned(op))
  }

  ghost function Reach(env: Env, d: Disk, events: seq<Event>): Disk
    decreases |events|
  {
    if events == [] then d else Step(env, Reach(env, d, events[..|events| - 1]), events[|events| - 1])
  }

  /** The disk before event `i` of a run. */
  ghost function At(env: Env, d: Disk, events: seq<Event>, i: nat): Disk
    requires i <= |events|
  {
    Reach(env, d, events[..i])
  }

  lemma AtNext(env: Env, d: Disk, events: seq<Event>, i: nat)
    requires i < |events|
    ensures At(env, d, events, i + 1) == Step(env, At(env, d, events, i), events[i])
  {
    assert events[..i + 1][..i] == events[..i];
  }

  function Fresh(l: Limits): Disk {
    Disk(Catalogue(l, map[], map[], 0, 1, 1, 0), map[])
  }

  lemma FreshOk(env: Env)
    requires ValidLimits(env.limits)
    ensures Inv(env, Fresh(env.limits))
  {
  }

  // ---------------------------------------------------------------- the invariant, over runs

  lemma StepAllowed(env: Env, d: Disk, ev: Event)
    requires Inv(env, d)
    ensures AllAllowed(env, d, Made(env, d, ev)) && Inv(env, Step(env, d, ev))
    ensures forall w, x :: w in Made(env, d, ev) && Claims(w, x) ==> !Guarded(d, x)
    ensures forall w :: w in Made(env, d, ev) && w.SaveReported? ==> ReportsOn(ev.call, w.id)
  {
    hide Inv, RunOf, Allowed, Guarded;
    CallAllowed(env, d, ev.call);
    var writes := RunOf(env, d, ev.call).writes;
    if ev.stop.Some? && ev.stop.value < |writes| {
      AllowedPrefix(env, d, writes, ev.stop.value);
    }
    assert forall w :: w in Made(env, d, ev) ==> w in writes;
    WritesKeepInv(env, d, Made(env, d, ev));
  }

  /** Every state every run passes through keeps the invariant of the files. */
  lemma {:induction false} RunsKeepInv(env: Env, d: Disk, events: seq<Event>)
    requires Inv(env, d)
    ensures Inv(env, Reach(env, d, events))
    decreases |events|
  {
    hide Inv, Step;
    if events != [] {
      var before := events[..|events| - 1];
      RunsKeepInv(env, d, before);
      StepAllowed(env, Reach(env, d, before), events[|events| - 1]);
    }
  }

  // ---------------------------------------------------------------- one identity, one frame

  ghost predicate Agrees(op: Operation, p: Prepared) {
    && op.context == p.context && op.name == p.intent.name && op.version == p.intent.version
    && op.request == p.request && op.fingerprint == p.fingerprint && op.created == p.created
  }

  /** What an answer shows of the files the call left. */
  ghost predicate Shows(env: Env, d: Disk, op: Operation) {
    && op.id in d.children && d.children[op.id].prepared.Some?
    && Holds(d, op.id, d.children[op.id].prepared.value)
    && Agrees(op, d.children[op.id].prepared.value)
    && (op.receipt.Some? <==> d.children[op.id].journal.Some? && d.children[op.id].journal.value.receipt.Some?)
    && (op.receipt.Some? ==> LiveReceipt(d, op.id, op.receipt.value))
  }

  lemma PresentShows(env: Env, d: Disk, id: Id, p: Prepared)
    requires Holds(d, id, p) && Present(env, d, id, p).answer.Ok?
    ensures Shows(env, d, Present(env, d, id, p).answer.value.operation)
    ensures Present(env, d, id, p).answer.value.operation.id == id
  {
  }

  lemma SettleShows(env: Env, d: Disk, q: Preparation, id: Id, p: Prepared)
    requires Inv(env, d) && id in d.catalogue.entries && id in d.children && d.children[id].prepared == Some(p)
    ensures var run := Settle(env, d, q, id, p);
      run.answer.Ok? ==> run.answer.value.Returned? && Shows(env, After(env, d, run.writes), run.answer.value.operation)
  {
    var run := Settle(env, d, q, id, p);
    if run.answer.Ok? {
      if d.catalogue.entries[id].ready {
        PresentShows(env, d, id, p);
      } else {
        var e := Apply(env, d, SaveReady(id));
        assert run.writes == [SaveReady(id)];
        assert After(env, e, [SaveReady(id)][1..]) == e;
        PresentShows(env, e, id, p);
      }
    }
  }

  lemma CompileShows(env: Env, d: Disk, q: Preparation, id: Id)
    requires Inv(env, d) && AsksFor(env, d, q, id)
    ensures var run := Compile(env, d, q, id);
      run.answer.Ok? ==> run.answer.value.Returned? && Shows(env, After(env, d, run.writes), run.answer.value.operation)
  {
    hide Settle;
    var e := d.catalogue.entries[id];
    assert LiveOk(env, d, id);
    if e.ready || Framed(d, id) {
      if ReadPrepared(env, d, id, e.ready).Ok? {
        SettleShows(env, d, q, id, d.children[id].prepared.value);
      }
    } else {
      var x := q.expand(RequestKey(q.context.principal, e.epoch, id));
      if x.Ok? && ValidRequest(q.context, id, e.epoch, x.value.request, x.value.fingerprint) {
        var p := Prepared(q.context, q.intent, x.value.request, x.value.fingerprint, x.value.created);
        var writes := FrameWrites(d, id, p);
        var t := After(env, d, writes);
        AfterFrame(env, d, id, p);
        FrameAllowed(env, d, id, p);
        WritesKeepInv(env, d, writes);
        SettleShows(env, t, q, id, p);
        AfterConcat(env, d, writes, Settle(env, t, q, id, p).writes);
      }
    }
  }

  lemma ClaimShows(env: Env, d: Disk, q: Preparation, id: Id, digest: Hash)
    requires Inv(env, d) && id !in d.catalogue.entries && id !in d.catalogue.retired
    requires ValidContext(q.context) && env.digest(q.intent) == Some(digest)
    ensures var run := ClaimAndCompile(env, d, q, id, digest);
      run.answer.Ok? ==> run.answer.value.Returned? && Shows(env, After(env, d, run.writes), run.answer.value.operation)
  {
    var w := SaveClaim(id, q.context, digest);
    var claim := Claim(env, d, id, q.context, digest);
    if claim.answer.Ok? {
      assert claim.writes == [w] && Allowed(env, d, w);
      var e := Apply(env, d, w);
      assert AsksFor(env, e, q, id);
      hide Inv, Allowed, Compile, Fault, Apply;
      AllowedOne(env, d, w);
      WriteKeepsInv(env, d, w);
      CompileShows(env, e, q, id);
      AfterConcat(env, d, [w], Compile(env, e, q, id).writes);
    }
  }

  lemma PrepareShows(env: Env, d: Disk, q: Preparation)
    requires Inv(env, d)
    ensures var run := Prepare(env, d, q);
      run.answer.Ok? ==> run.answer.value.Returned? && Shows(env, After(env, d, run.writes), run.answer.value.operation)
  {
    hide Inv, Compile, ClaimAndCompile, MakeRoom;
    var digest := env.digest(q.intent);
    MintIsFree(d.catalogue, q.draws, MINT_ATTEMPTS);
    var chosen := if q.operation.Some? then Ok(q.operation.value) else Mint(d.catalogue, q.draws, MINT_ATTEMPTS);
    if ValidContext(q.context) && digest.Some? && chosen.Ok? && chosen.value !in d.catalogue.retired {
      var id := chosen.value;
      if id in d.catalogue.entries {
        if AsksFor(env, d, q, id) { CompileShows(env, d, q, id); }
      } else {
        var room := MakeRoom(env, d);
        var e := After(env, d, room.writes);
        MakeRoomAllowed(env, d);
        WritesKeepInv(env, d, room.writes);
        ClaimShows(env, e, q, id, digest.value);
        AfterConcat(env, d, room.writes, ClaimAndCompile(env, e, q, id, digest.value).writes);
      }
    }
  }

  /** An operation is answered only as the files then hold it, live and ready. */
  lemma {:induction false} AnswersShowFiles(env: Env, d: Disk, ev: Event, op: Operation)
    requires Inv(env, d) && Returns(env, d, ev, op)
    ensures Shows(env, Step(env, d, ev), op)
  {
    match ev.call {
      case Preparing(q) =>
        hide Prepare, Inv;
        PrepareShows(env, d, q);
      case Looking(context, intent, id) => LookingShows(env, d, context, intent, id);
      case Retrying(id, context) => RetryShows(env, d, id, context);
      case _ => OthersReturnNothing(env, d, ev.call);
    }
  }

  lemma LookingShows(env: Env, d: Disk, context: Context, intent: Intent, id: Id)
    requires Inv(env, d)
    ensures var run := Existing(env, d, context, intent, id);
      run.writes == [] && (run.answer.Ok? && run.answer.value.Returned? ==> Shows(env, d, run.answer.value.operation))
  {
    if id in d.catalogue.entries {
      assert LiveOk(env, d, id);
      var e := d.catalogue.entries[id];
      if e.ready && e.context == context {
        var p := d.children[id].prepared.value;
        if Present(env, d, id, p).answer.Ok? {
          PresentShows(env, d, id, p);
        }
      }
    }
  }

  lemma RetryShows(env: Env, d: Disk, id: Id, context: Context)
    requires Inv(env, d)
    ensures var run := Retry(env, d, id, context);
      run.writes == [] && (run.answer.Ok? ==> run.answer.value.Returned? && Shows(env, d, run.answer.value.operation))
  {
    if Load(env, d, id, context).Ok? {
      hide Inv, Load;
      LoadIs(env, d, id, context);
    }
  }

  lemma OthersReturnNothing(env: Env, d: Disk, call: Call)
    requires !call.Preparing? && !call.Looking? && !call.Retrying?
    ensures RunOf(env, d, call).answer.Ok? ==> !RunOf(env, d, call).answer.value.Returned?
  {
  }

  lemma StepKeepsFrame(env: Env, d: Disk, ev: Event, id: Id, p: Prepared)
    requires Inv(env, d) && OnlyFor(d, id, p) && Guarded(d, id)
    ensures OnlyFor(Step(env, d, ev), id, p)
  {
    hide Inv, Made, OnlyFor;
    StepAllowed(env, d, ev);
    WritesKeepFrame(env, d, Made(env, d, ev), id, p);
  }

  /** From event `i` on, while the identity stays live or in the retired table, it is no other frame's. */
  lemma {:induction false} RunKeepsFrame(env: Env, d: Disk, events: seq<Event>, i: nat, j: nat, id: Id, p: Prepared)
    requires Inv(env, d) && i <= j <= |events| && OnlyFor(At(env, d, events, i), id, p)
    requires forall k :: i <= k < j ==> Guarded(At(env, d, events, k), id)
    ensures OnlyFor(At(env, d, events, j), id, p)
    decreases j
  {
    hide Inv, Step, OnlyFor, Guarded, At;
    if i < j {
      RunKeepsFrame(env, d, events, i, j - 1, id, p);
      RunsKeepInv(env, d, events[..j - 1]);
      AtIs(env, d, events, j - 1);
      StepKeepsFrame(env, At(env, d, events, j - 1), events[j - 1], id, p);
      AtNext(env, d, events, j - 1);
    }
  }

  lemma AtIs(env: Env, d: Disk, events: seq<Event>, i: nat)
    requires i <= |events|
    ensures At(env, d, events, i) == Reach(env, d, events[..i])
  {
  }

  /** Two answers for one identity agree. */
  ghost predicate SameFrame(a: Operation, b: Operation) {
    && a.context == b.context && a.name == b.name && a.version == b.version
    && a.request == b.request && a.fingerprint == b.fingerprint && a.created == b.created
  }

  lemma ShowsFixes(env: Env, d: Disk, op: Operation, p: Prepared)
    requires Inv(env, d) && Shows(env, d, op) && OnlyFor(d, op.id, p)
    ensures Agrees(op, p)
  {
  }

  lemma ShownIsOnly(env: Env, d: Disk, op: Operation) returns (p: Prepared)
    requires Shows(env, d, op)
    ensures OnlyFor(d, op.id, p) && Agrees(op, p) && Guarded(d, op.id)
  {
    p := d.children[op.id].prepared.value;
  }

  /** Exact retry: once an operation was returned for an identity, every later answer for it, by any
      call of any run and across any crashes, is the identical request, while the identity is live
      or in the retired table. */
  lemma {:induction false} ExactRetry(env: Env, d: Disk, events: seq<Event>, i: nat, j: nat, first: Operation,
                                      later: Operation)
    requires Inv(env, d) && i < j < |events| && first.id == later.id
    requires Returns(env, At(env, d, events, i), events[i], first)
    requires Returns(env, At(env, d, events, j), events[j], later)
    requires forall k :: i < k <= j ==> Guarded(At(env, d, events, k), first.id)
    ensures SameFrame(first, later)
  {
    hide Inv, Step, OnlyFor, Guarded, At, Returns, Shows;
    RunsKeepInv(env, d, events[..i]);
    AtIs(env, d, events, i);
    AnswersShowFiles(env, At(env, d, events, i), events[i], first);
    AtNext(env, d, events, i);
    var p := ShownIsOnly(env, At(env, d, events, i + 1), first);
    RunKeepsFrame(env, d, events, i + 1, j, first.id, p);
    RunsKeepInv(env, d, events[..j]);
    AtIs(env, d, events, j);
    StepKeepsFrame(env, At(env, d, events, j), events[j], first.id, p);
    AnswersShowFiles(env, At(env, d, events, j), events[j], later);
    StepAllowed(env, At(env, d, events, j), events[j]);
    ShowsFixes(env, Step(env, At(env, d, events, j), events[j]), later, p);
  }

  // ---------------------------------------------------------------- one identity, one receipt

  lemma StepKeepsReceipt(env: Env, d: Disk, ev: Event, id: Id, r: Receipt)
    requires Inv(env, d) && CommittedBy(env, d, id, r) && Guarded(d, id)
    ensures CommittedBy(env, Step(env, d, ev), id, r)
  {
    hide Inv, Made, CommittedBy;
    StepAllowed(env, d, ev);
    WritesKeepReceipt(env, d, Made(env, d, ev), id, r);
  }

  /** A receipt recorded for a live identity is never changed: it stays its journal's, and once the
      identity retires its outcome is that receipt's digest and sequence. */
  lemma {:induction false} ReceiptForGood(env: Env, d: Disk, events: seq<Event>, i: nat, j: nat, id: Id, r: Receipt)
    requires Inv(env, d) && i <= j <= |events| && CommittedBy(env, At(env, d, events, i), id, r)
    requires forall k :: i <= k < j ==> Guarded(At(env, d, events, k), id)
    ensures CommittedBy(env, At(env, d, events, j), id, r)
    decreases j
  {
    hide Inv, Step, CommittedBy, Guarded, At;
    if i < j {
      ReceiptForGood(env, d, events, i, j - 1, id, r);
      RunsKeepInv(env, d, events[..j - 1]);
      AtIs(env, d, events, j - 1);
      StepKeepsReceipt(env, At(env, d, events, j - 1), events[j - 1], id, r);
      AtNext(env, d, events, j - 1);
    }
  }

  // ---------------------------------------------------------------- retiring

  lemma PrepareRetires(env: Env, d: Disk, q: Preparation, w: Write)
    requires Inv(env, d) && w in Prepare(env, d, q).writes && w.SaveRetired?
    ensures Allowed(env, d, w)
  {
    hide Inv, Compile, ClaimAndCompile, MakeRoom, Allowed;
    var digest := env.digest(q.intent);
    MintIsFree(d.catalogue, q.draws, MINT_ATTEMPTS);
    var chosen := if q.operation.Some? then Ok(q.operation.value) else Mint(d.catalogue, q.draws, MINT_ATTEMPTS);
    var id := chosen.value;
    if id in d.catalogue.entries {
      CompileAllowed(env, d, q, id);
    } else {
      var room := MakeRoom(env, d);
      MakeRoomAllowed(env, d);
      WritesKeepInv(env, d, room.writes);
      if w in room.writes {
        var oldest, outcome := RoomIs(env, d);
      } else {
        ClaimAllowed(env, After(env, d, room.writes), q, id, digest.value);
      }
    }
  }

  /** Whatever a call retires, it retires first, from the state it began in. */
  lemma RetiresAtStart(env: Env, d: Disk, call: Call, w: Write)
    requires Inv(env, d) && w in RunOf(env, d, call).writes && w.SaveRetired?
    ensures Allowed(env, d, w)
  {
    hide Inv, Allowed, Prepare, RecordReply, RecordDelivered, RecordRefusal, ObserveWindow, Open;
    match call {
      case Preparing(q) => PrepareRetires(env, d, q, w);
      case Replying(id, context, reply) => ReplyAllowed(env, d, id, context, reply);
      case Delivering(id, context) => DeliveredAllowed(env, d, id, context);
      case Refusing(id, context, refusal) => RefusalAllowed(env, d, id, context, refusal);
      case Observing(floor, next) => ObserveAllowed(env, d, floor, next);
      case Opening(listed) => OpenAllowed(env, d, listed);
      case Tearing(id, left) =>
      case _ => ReadsWriteNothing(env, d, call);
    }
  }

  lemma WriteRetires(env: Env, d: Disk, w: Write, id: Id)
    requires id !in d.catalogue.retired && Allowed(env, d, w)
    ensures id in Apply(env, d, w).catalogue.retired ==> w.SaveRetired? && w.id == id
  {
    if w.SaveRetired? { RetirementIs(env, d, w.id, w.outcome); }
  }

  lemma {:induction false} WritesRetire(env: Env, d: Disk, writes: seq<Write>, id: Id)
    requires AllAllowed(env, d, writes) && id !in d.catalogue.retired && id in After(env, d, writes).catalogue.retired
    ensures exists w :: w in writes && w.SaveRetired? && w.id == id
    decreases |writes|
  {
    hide Allowed, Apply;
    if writes != [] {
      WriteRetires(env, d, writes[0], id);
      var e := Apply(env, d, writes[0]);
      if id !in e.catalogue.retired {
        WritesRetire(env, e, writes[1..], id);
        var w :| w in writes[1..] && w.SaveRetired? && w.id == id;
        assert w in writes;
      } else {
        assert writes[0] in writes;
      }
    }
  }

  ghost predicate Reported(d: Disk, id: Id) {
    id in d.catalogue.entries && d.catalogue.entries[id].retirable.Some?
  }

  lemma WriteReports(env: Env, d: Disk, w: Write, id: Id)
    requires Allowed(env, d, w)
    ensures Reported(Apply(env, d, w), id) ==> Reported(d, id) || w == SaveReported(id)
  {
    if w.SaveRetired? { RetirementIs(env, d, w.id, w.outcome); }
  }

  lemma {:induction false} WritesReport(env: Env, d: Disk, writes: seq<Write>, id: Id)
    requires AllAllowed(env, d, writes) && Reported(After(env, d, writes), id)
    ensures Reported(d, id) || SaveReported(id) in writes
    decreases |writes|
  {
    hide Allowed, Apply, Reported;
    if writes != [] {
      WriteReports(env, d, writes[0], id);
      WritesReport(env, Apply(env, d, writes[0]), writes[1..], id);
    }
  }

  /** An earlier event of a run reported a result of the identity, and recorded that it did. */
  ghost predicate ReportedBefore(env: Env, events: seq<Event>, i: nat, id: Id)
    requires i <= |events|
  {
    exists k :: 0 <= k < i && RecordsReport(env, At(env, Fresh(env.limits), events, k), events[k], id)
  }

  /** The event is of a call that reports a result of the identity, and it recorded that. */
  ghost predicate RecordsReport(env: Env, d: Disk, ev: Event, id: Id) {
    ReportsOn(ev.call, id) && SaveReported(id) in Made(env, d, ev)
  }

  /** Only a call that reports a result, a delivery or a refusal that closes, and records it, makes an
      identity retirable. */
  lemma {:induction false} ReportedByCall(env: Env, events: seq<Event>, i: nat, id: Id)
    requires ValidLimits(env.limits) && i <= |events| && Reported(At(env, Fresh(env.limits), events, i), id)
    ensures ReportedBefore(env, events, i, id)
    decreases i
  {
    hide Inv, Step, Reported, At, RecordsReport;
    var d := Fresh(env.limits);
    if i == 0 {
      NothingReportedAtFirst(env, events, id);
    } else {
      FreshOk(env);
      RunsKeepInv(env, d, events[..i - 1]);
      AtIs(env, d, events, i - 1);
      AtNext(env, d, events, i - 1);
      StepReports(env, At(env, d, events, i - 1), events[i - 1], id);
      if Reported(At(env, d, events, i - 1), id) {
        ReportedByCall(env, events, i - 1, id);
        var k :| 0 <= k < i - 1 && RecordsReport(env, At(env, d, events, k), events[k], id);
      }
    }
  }

  lemma NothingReportedAtFirst(env: Env, events: seq<Event>, id: Id)
    ensures !Reported(At(env, Fresh(env.limits), events, 0), id)
  {
    assert events[..0] == [];
  }

  lemma StepReports(env: Env, d: Disk, ev: Event, id: Id)
    requires Inv(env, d) && Reported(Step(env, d, ev), id)
    ensures Reported(d, id) || RecordsReport(env, d, ev, id)
  {
    hide Inv, Made, Reported;
    StepAllowed(env, d, ev);
    WritesReport(env, d, Made(env, d, ev), id);
  }

  /** An identity that retires in an event was, when the event began, live with a recorded result,
      reported by an earlier call, and of all reported ones the one reported longest ago. */
  lemma {:induction false} RetiresLongestReported(env: Env, events: seq<Event>, i: nat, id: Id)
    requires ValidLimits(env.limits) && i < |events|
    requires id !in At(env, Fresh(env.limits), events, i).catalogue.retired
    requires id in At(env, Fresh(env.limits), events, i + 1).catalogue.retired
    ensures var d := At(env, Fresh(env.limits), events, i);
      && id in d.catalogue.entries && IsLeast(Reports(d.catalogue.entries), id)
      && id in d.children && HasResult(d.children[id])
      && ReportedBefore(env, events, i, id)
  {
    hide Inv, Step, Reported, At, ReportedBefore;
    var f := Fresh(env.limits);
    var d := At(env, f, events, i);
    FreshOk(env);
    RunsKeepInv(env, f, events[..i]);
    AtIs(env, f, events, i);
    AtNext(env, f, events, i);
    StepRetires(env, d, events[i], id);
    ReportedByCall(env, events, i, id);
  }

  lemma StepRetires(env: Env, d: Disk, ev: Event, id: Id)
    requires Inv(env, d) && id !in d.catalogue.retired && id in Step(env, d, ev).catalogue.retired
    ensures id in d.catalogue.entries && IsLeast(Reports(d.catalogue.entries), id) && Reported(d, id)
    ensures id in d.children && HasResult(d.children[id])
  {
    StepAllowed(env, d, ev);
    var made := Made(env, d, ev);
    WritesRetire(env, d, made, id);
    var w :| w in made && w.SaveRetired? && w.id == id;
    RetiresAtStart(env, d, ev.call, w);
    assert LiveOk(env, d, id);
  }

  /** A commit recorded after a refusal closed the frame does not take the report back: the
      operation may then retire before the commit is delivered. */
  lemma LateCommitStaysRetirable(env: Env, d: Disk, id: Id, context: Context, receipt: Receipt)
    requires Inv(env, d) && Load(env, d, id, context).Ok? && Load(env, d, id, context).value.journal.receipt == None
    requires RecordReply(env, d, id, context, Committed(receipt)).answer.Ok?
    ensures var e := Step(env, d, Event(Replying(id, context, Committed(receipt)), None));
      && LiveReceipt(e, id, receipt) && !e.children[id].journal.value.delivered
      && (Reported(e, id) <==> Reported(d, id))
  {
    hide Inv, Load, ChildOk, RecordReply;
    LoadIs(env, d, id, context);
    ReplyIs(env, d, id, context, receipt);
  }

  lemma ReplyIs(env: Env, d: Disk, id: Id, context: Context, receipt: Receipt)
    requires Inv(env, d) && Load(env, d, id, context).Ok? && Load(env, d, id, context).value.journal.receipt == None
    requires RecordReply(env, d, id, context, Committed(receipt)).answer.Ok?
    ensures var e := After(env, d, RecordReply(env, d, id, context, Committed(receipt)).writes);
      var l := Load(env, d, id, context).value;
      && id in d.children
      && var j := Journal(l.journal.generation + 1, Some(receipt), None, false);
      && e.children == d.children[id := Child(Some(l.prepared), Some(j))]
      && e.catalogue == (if l.prepared.intent.name == EPOCH_ADVANCE && d.catalogue.floor < l.prepared.request.epoch
                         then d.catalogue.(floor := l.prepared.request.epoch) else d.catalogue)
  {
    hide Inv, Load, ChildOk, RecordReply, ValidReceipt;
    var l := Load(env, d, id, context).value;
    LoadIs(env, d, id, context);
    ReplyWritesSomething(env, d, id, context, receipt);
    ReplyWrites(env, d, id, context, Committed(receipt));
    var writes := RecordReply(env, d, id, context, Committed(receipt)).writes;
    var w := PutJournal(id, Journal(l.journal.generation + 1, Some(receipt), None, false));
    var e := Apply(env, d, w);
    if writes == [w] {
      assert After(env, e, [w][1..]) == e;
    } else {
      var x := SaveFloor(l.prepared.request.epoch);
      assert [w, x][1..] == [x] && [x][1..] == [];
      assert After(env, e, [x]) == Apply(env, e, x);
    }
  }

  lemma ReplyWritesSomething(env: Env, d: Disk, id: Id, context: Context, receipt: Receipt)
    requires Load(env, d, id, context).Ok? && Load(env, d, id, context).value.journal.receipt == None
    requires RecordReply(env, d, id, context, Committed(receipt)).answer.Ok?
    ensures RecordReply(env, d, id, context, Committed(receipt)).writes != []
  {
  }

  // ---------------------------------------------------------------- leaving the live ones

  lemma NewestStays(retired: map<Id, Retired>, bound: nat, id: Id)
    requires bound > 0 && id in retired && forall x :: x in retired && x != id ==> retired[x].order < retired[id].order
    ensures id in Evicted(retired, bound)
  {
    EvictedNewest(retired, bound);
  }

  /** A ready operation leaves the live ones only into the retired table: no write, crash or sweep
      loses one, and an identity just retired is not the one the bound forgets. */
  lemma ReadyOnlyRetires(env: Env, d: Disk, w: Write, id: Id)
    requires Inv(env, d) && Allowed(env, d, w) && id in d.catalogue.entries && d.catalogue.entries[id].ready
    ensures var e := Apply(env, d, w);
      (id in e.catalogue.entries && e.catalogue.entries[id].ready) || id in e.catalogue.retired
  {
    if w.SaveRetired? {
      RetirementIs(env, d, w.id, w.outcome);
      if w.id == id {
        var c := d.catalogue;
        NewestStays(c.retired[id := Retired(c.entries[id].intent, w.outcome, c.retiredNext, c.entries[id].epoch)],
                    env.limits.maxOperations, id);
      }
    }
    hide Fault, IsLeast, ReadJournal, JournalFits, Fits, Evicted;
  }

  // ---------------------------------------------------------------- opening

  lemma SweptOk(env: Env, c: Catalogue)
    requires CatalogueOk(env, c)
    ensures Fault(env.limits, WithSwept(c)) == None
  {
    var ready := ReadyEntries(c.entries);
    assert ready.Keys <= c.entries.Keys;
    SubsetSmaller(ready.Keys, c.entries.Keys);
    ReservedMonotone(|ready|, |c.entries|);
    hide Reserved, ValidContext;
  }

  lemma ReservedMonotone(a: nat, b: nat)
    requires a <= b
    ensures Reserved(a) <= Reserved(b)
  {
  }

  lemma SubsetSmaller(a: set<Id>, b: set<Id>)
    requires a <= b
    ensures |a| <= |b|
  {
    assert b == a + (b - a);
  }

  lemma OpenIs(env: Env, d: Disk, listed: seq<Id>)
    requires Inv(env, d)
    ensures Open(env, d, listed).answer.Ok?
    ensures var e := After(env, d, Open(env, d, listed).writes);
      && e.catalogue == WithSwept(d.catalogue)
      && (forall id <- e.children :: id in d.children && e.children[id] == d.children[id])
      && forall id :: id in e.children <==> id in d.children && (id in listed ==> id in e.catalogue.entries)
  {
    SweptOk(env, d.catalogue);
    assert Fault(env.limits, d.catalogue) == None && ValidLimits(env.limits);
    hide Inv, Fault, ValidLimits;
    if ReadyEntries(d.catalogue.entries) == d.catalogue.entries {
      assert WithSwept(d.catalogue) == d.catalogue;
      RemovalsAllowed(env, d, d.catalogue, listed);
    } else {
      var e := Apply(env, d, SaveSwept);
      RemovalsAllowed(env, e, e.catalogue, listed);
      AfterConcat(env, d, [SaveSwept], Removals(e.catalogue, listed));
      assert After(env, d, [SaveSwept]) == e;
    }
  }

  lemma OpenStepIs(env: Env, d: Disk, listed: seq<Id>)
    requires Inv(env, d) && IsListing(d, listed)
    ensures var e := Step(env, d, Event(Opening(listed), None));
      && e.catalogue == WithSwept(d.catalogue)
      && forall id :: id in e.children <==> id in d.children && (id in listed ==> id in e.catalogue.entries)
  {
    hide Inv, Open, WithSwept;
    OpenIs(env, d, listed);
  }

  lemma ReadyHaveDirectories(env: Env, d: Disk)
    requires Inv(env, d)
    ensures ReadyEntries(d.catalogue.entries).Keys <= d.children.Keys
  {
    forall id | id in ReadyEntries(d.catalogue.entries) ensures id in d.children { assert LiveOk(env, d, id); }
  }

  ghost predicate NothingElse(d: Disk) {
    d.children.Keys == d.catalogue.entries.Keys
  }

  /** After opening, the live entries are exactly the ready ones, each with its frame; and no other
      identity has a directory, whenever the listing it swept was of all of them. */
  lemma OpenSweeps(env: Env, d: Disk, listed: seq<Id>)
    requires Inv(env, d) && IsListing(d, listed)
    ensures var e := Step(env, d, Event(Opening(listed), None));
      && e.catalogue.entries == ReadyEntries(d.catalogue.entries)
      && (forall id :: id in e.catalogue.entries ==>
            Framed(e, id) && Fits(env, id, e.catalogue.entries[id], e.children[id].prepared.value))
      && (|d.children| <= MAX_OPERATIONS ==> NothingElse(e))
  {
    hide Step;
    var e := Step(env, d, Event(Opening(listed), None));
    OpenStepIs(env, d, listed);
    StepAllowed(env, d, Event(Opening(listed), None));
    forall id | id in e.catalogue.entries
      ensures Framed(e, id) && Fits(env, id, e.catalogue.entries[id], e.children[id].prepared.value)
    {
      assert LiveOk(env, e, id);
    }
    if |d.children| <= MAX_OPERATIONS {
      FullListing(d.children.Keys, listed);
      ReadyHaveDirectories(env, d);
    }
  }

  lemma FullListing(keys: set<Id>, listed: seq<Id>)
    requires |listed| == |keys| && (forall i :: 0 <= i < |listed| ==> listed[i] in keys)
    requires forall i, j :: 0 <= i < j < |listed| ==> listed[i] != listed[j]
    ensures forall id :: id in keys ==> id in listed
    decreases |listed|
  {
    if listed != [] {
      var n := |listed| - 1;
      var last := listed[n];
      FullListing(keys - {last}, listed[..n]);
      forall id | id in keys ensures id in listed {
        if id != last { assert id in listed[..n]; }
      }
    }
  }

  lemma ListingWithout(keys: set<Id>, n: nat) returns (listed: seq<Id>)
    requires n <= |keys|
    ensures |listed| == n && (forall i :: 0 <= i < n ==> listed[i] in keys)
    ensures forall i, j :: 0 <= i < j < n ==> listed[i] != listed[j]
    decreases n
  {
    listed := [];
    if n > 0 {
      var x :| x in keys;
      var rest := ListingWithout(keys - {x}, n - 1);
      listed := rest + [x];
    }
  }

  /** The sweep leaves nothing else behind, whatever order the directories are met in, exactly when
      there are at most 4096 of them or each already belongs to a ready operation: a listing stops
      at 4096 directories, and one it did not reach is not swept. */
  lemma {:induction false} SweepExactWhen(env: Env, d: Disk)
    requires Inv(env, d)
    ensures (forall listed :: IsListing(d, listed) ==> NothingElse(Step(env, d, Event(Opening(listed), None))))
      <==> |d.children| <= MAX_OPERATIONS || d.children.Keys <= ReadyEntries(d.catalogue.entries).Keys
  {
    hide Inv, Step;
    ReadyHaveDirectories(env, d);
    if |d.children| <= MAX_OPERATIONS {
      forall listed | IsListing(d, listed)
        ensures NothingElse(Step(env, d, Event(Opening(listed), None)))
      {
        OpenSweeps(env, d, listed);
      }
    } else if d.children.Keys <= ReadyEntries(d.catalogue.entries).Keys {
      forall listed | IsListing(d, listed)
        ensures NothingElse(Step(env, d, Event(Opening(listed), None)))
      {
        OpenStepIs(env, d, listed);
      }
    } else {
      var left :| left in d.children && left !in ReadyEntries(d.catalogue.entries);
      var listed := ListingWithout(d.children.Keys - {left}, MAX_OPERATIONS);
      assert IsListing(d, listed);
      OpenStepIs(env, d, listed);
      assert !NothingElse(Step(env, d, Event(Opening(listed), None)));
    }
  }

  // ---------------------------------------------------------------- generations

  /** The generation and the floor never go back, over any run. */
  lemma {:induction false} GenerationsOnlyAdvance(env: Env, d: Disk, events: seq<Event>)
    requires Inv(env, d)
    ensures NotBefore(d.catalogue, Reach(env, d, events).catalogue)
    ensures var c := Reach(env, d, events).catalogue; c.floor <= c.generation <= c.floor + 1
    decreases |events|
  {
    RunsKeepInv(env, d, events);
    if events != [] {
      var before := events[..|events| - 1];
      var last := events[|events| - 1];
      hide Step;
      GenerationsOnlyAdvance(env, d, before);
      RunsKeepInv(env, d, before);
      StepGenerations(env, Reach(env, d, before), last);
    }
  }

  lemma StepGenerations(env: Env, d: Disk, ev: Event)
    requires Inv(env, d)
    ensures NotBefore(d.catalogue, Step(env, d, ev).catalogue)
  {
    hide Inv, Made;
    StepAllowed(env, d, ev);
    WritesKeepGenerations(env, d, Made(env, d, ev));
  }

  /** The generation a fresh claim is issued in. */
  ghost predicate ClaimedIn(env: Env, c: Catalogue, epoch: nat) {
    epoch == if OpensGeneration(env.limits, c) then c.generation + 1 else c.generation
  }

  lemma WriteClaims(env: Env, d: Disk, w: Write, id: Id)
    requires Allowed(env, d, w) && id !in d.catalogue.entries && id in Apply(env, d, w).catalogue.entries
    ensures Claims(w, id) && ClaimedIn(env, d.catalogue, Apply(env, d, w).catalogue.entries[id].epoch)
  {
    if w.SaveRetired? { RetirementIs(env, d, w.id, w.outcome); }
  }

  lemma WriteKeepsEpoch(env: Env, d: Disk, w: Write, id: Id)
    requires Allowed(env, d, w) && id in d.catalogue.entries && id in Apply(env, d, w).catalogue.entries
    ensures Apply(env, d, w).catalogue.entries[id].epoch == d.catalogue.entries[id].epoch
  {
    if w.SaveRetired? { RetirementIs(env, d, w.id, w.outcome); }
  }

  lemma {:induction false} EpochsWhileDraining(env: Env, d: Disk, writes: seq<Write>, id: Id)
    requires AllAllowed(env, d, writes) && d.catalogue.floor < d.catalogue.generation
    requires forall w :: w in writes ==> Preparatory(w)
    requires id in d.catalogue.entries ==> d.catalogue.entries[id].epoch == d.catalogue.generation
    ensures var c := After(env, d, writes).catalogue;
      id in c.entries ==> c.entries[id].epoch == d.catalogue.generation
    decreases |writes|
  {
    hide Allowed, Apply;
    if writes != [] {
      var w := writes[0];
      var e := Apply(env, d, w);
      PreparationKeepsWindow(env, d, w);
      if id in e.catalogue.entries {
        if id in d.catalogue.entries { WriteKeepsEpoch(env, d, w, id); } else { WriteClaims(env, d, w, id); }
      }
      EpochsWhileDraining(env, e, writes[1..], id);
    }
  }

  lemma PreparationKeepsWindow(env: Env, d: Disk, w: Write)
    requires Allowed(env, d, w) && Preparatory(w) && d.catalogue.floor < d.catalogue.generation
    ensures var c := Apply(env, d, w).catalogue; c.generation == d.catalogue.generation && c.floor == d.catalogue.floor
  {
    if w.SaveRetired? { RetirementIs(env, d, w.id, w.outcome); }
  }

  lemma {:induction false} NoClaimNoEntry(env: Env, d: Disk, writes: seq<Write>, id: Id)
    requires AllAllowed(env, d, writes) && id !in d.catalogue.entries && forall w :: w in writes ==> !Claims(w, id)
    ensures id !in After(env, d, writes).catalogue.entries
    decreases |writes|
  {
    hide Allowed, Apply;
    if writes != [] {
      if id in Apply(env, d, writes[0]).catalogue.entries { WriteClaims(env, d, writes[0], id); }
      NoClaimNoEntry(env, Apply(env, d, writes[0]), writes[1..], id);
    }
  }

  lemma OnlyPreparingClaims(env: Env, d: Disk, call: Call, w: Write)
    requires Inv(env, d) && w in RunOf(env, d, call).writes && w.SaveClaim?
    ensures call.Preparing?
  {
    hide Inv, Allowed, Prepare, RecordReply, RecordDelivered, RecordRefusal, ObserveWindow, Open;
    match call {
      case Preparing(q) =>
      case Replying(id, context, reply) => ReplyAllowed(env, d, id, context, reply);
      case Delivering(id, context) => DeliveredAllowed(env, d, id, context);
      case Refusing(id, context, refusal) => RefusalAllowed(env, d, id, context, refusal);
      case Observing(floor, next) => ObserveAllowed(env, d, floor, next);
      case Opening(listed) => OpenAllowed(env, d, listed);
      case Tearing(id, left) =>
      case _ => ReadsWriteNothing(env, d, call);
    }
  }

  /** While the floor is behind the generation, every fresh claim is issued in that generation. */
  lemma {:induction false} FreshClaimsWhileDraining(env: Env, d: Disk, ev: Event, id: Id)
    requires Inv(env, d) && d.catalogue.floor < d.catalogue.generation
    requires id !in d.catalogue.entries && id in Step(env, d, ev).catalogue.entries
    ensures Step(env, d, ev).catalogue.entries[id].epoch == d.catalogue.generation == d.catalogue.floor + 1
  {
    var made := Made(env, d, ev);
    assert d.catalogue.generation == d.catalogue.floor + 1;
    hide Inv;
    StepAllowed(env, d, ev);
    if forall w :: w in made ==> !Claims(w, id) {
      NoClaimNoEntry(env, d, made, id);
    } else {
      var w :| w in made && Claims(w, id);
      OnlyPreparingClaims(env, d, ev.call, w);
      hide Prepare;
      PrepareAllowed(env, d, ev.call.q);
      EpochsWhileDraining(env, d, made, id);
    }
  }

  lemma {:induction false} WritesKeepEpoch(env: Env, d: Disk, writes: seq<Write>, id: Id)
    requires AllAllowed(env, d, writes) && id in d.catalogue.entries && id in After(env, d, writes).catalogue.entries
    requires forall w :: w in writes ==> !Claims(w, id)
    ensures After(env, d, writes).catalogue.entries[id].epoch == d.catalogue.entries[id].epoch
    decreases |writes|
  {
    hide Allowed, Apply;
    if writes != [] {
      var e := Apply(env, d, writes[0]);
      if id in e.catalogue.entries {
        WriteKeepsEpoch(env, d, writes[0], id);
        WritesKeepEpoch(env, e, writes[1..], id);
      } else {
        NoClaimNoEntry(env, e, writes[1..], id);
      }
    }
  }

  /** A live identity keeps the generation it was issued in, and its frame is of that generation. */
  lemma EpochKept(env: Env, d: Disk, ev: Event, id: Id)
    requires Inv(env, d) && id in d.catalogue.entries && id in Step(env, d, ev).catalogue.entries
    ensures var e := Step(env, d, ev);
      && e.catalogue.entries[id].epoch == d.catalogue.entries[id].epoch
      && 1 <= e.catalogue.entries[id].epoch <= e.catalogue.generation
      && (Framed(e, id) ==> e.children[id].prepared.value.request.epoch == e.catalogue.entries[id].epoch)
  {
    StepAllowed(env, d, ev);
    WritesKeepEpoch(env, d, Made(env, d, ev), id);
    assert LiveOk(env, Step(env, d, ev), id);
  }

  /** Every live operation of an earlier generation is ready with its result reported. */
  ghost predicate EarlierReported(d: Disk) {
    forall id :: id in d.catalogue.entries && d.catalogue.entries[id].epoch < d.catalogue.generation ==>
      && d.catalogue.entries[id].ready && id in d.children
      && d.children[id].journal.Some? && d.children[id].journal.value.delivered
  }

  /** The journal asks for a floor advance exactly when its generation is ahead of the floor and every
      live operation of an earlier generation is ready with its result reported. */
  lemma FloorDueWhen(env: Env, d: Disk)
    requires Inv(env, d)
    ensures var c := d.catalogue;
      FloorDue(env, d).answer ==
      Ok(Due(if c.floor < c.generation && EarlierReported(d) then Some(c.generation) else None))
  {
    var c := d.catalogue;
    forall id | id in c.entries
      ensures ReadJournal(d, id).Ok?
    {
      assert LiveOk(env, d, id);
    }
    if EarlierReported(d) {
      assert Unreported(d) == map[];
    } else {
      var id :| id in c.entries && c.entries[id].epoch < c.generation &&
        !(c.entries[id].ready && id in d.children
          && d.children[id].journal.Some? && d.children[id].journal.value.delivered);
      assert id in Unreported(d);
    }
  }

  /** A committed floor advance leaves the floor at the generation it was issued in, or past it. */
  lemma AdvanceMovesFloor(env: Env, d: Disk, id: Id, context: Context, receipt: Receipt)
    requires Inv(env, d) && Load(env, d, id, context).Ok?
    requires Load(env, d, id, context).value.prepared.intent.name == EPOCH_ADVANCE
    requires Load(env, d, id, context).value.journal.receipt == None
    requires RecordReply(env, d, id, context, Committed(receipt)).answer.Ok?
    ensures var e := Step(env, d, Event(Replying(id, context, Committed(receipt)), None));
      d.catalogue.entries[id].epoch <= e.catalogue.floor && LiveReceipt(e, id, receipt)
  {
    LoadIs(env, d, id, context);
    hide Inv, Load, RecordReply;
    ReplyIs(env, d, id, context, receipt);
  }
}
