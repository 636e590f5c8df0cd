/**
 How a ready operation leaves the live ones, over runs; and when one whose commit was never delivered
 does: exactly when a refusal had closed its frame before the commit came.
 */
module NativeLate {
  import opened Basics
  import opened NativeModel
  import opened NativeCalls
  import opened NativeSafety
  import opened NativeRuns
  import opened NativeTheorems

  // ---------------------------------------------------------------- a ready operation only retires

  ghost predicate ReadyLive(d: Disk, id: Id) {
    id in d.catalogue.entries && d.catalogue.entries[id].ready
  }

  lemma {:induction false} OnlyRetiringMovesRetired(env: Env, d: Disk, writes: seq<Write>)
    requires forall w <- writes :: !w.SaveRetired?
    ensures After(env, d, writes).catalogue.retired == d.catalogue.retired
    decreases |writes|
  {
    if writes != [] {
      OnlyRetiringMovesRetired(env, Apply(env, d, writes[0]), writes[1..]);
    }
  }

  /** What the writes retire, they retire with the first of them. */
  ghost predicate RetiresFirst(writes: seq<Write>) {
    forall i :: 0 < i < |writes| ==> !writes[i].SaveRetired?
  }

  lemma NoneRetires(writes: seq<Write>)
    requires forall w <- writes :: !w.SaveRetired?
    ensures RetiresFirst(writes)
  {
    assert forall i :: 0 <= i < |writes| ==> writes[i] in writes;
  }

  lemma RetiresFirstThen(first: seq<Write>, rest: seq<Write>)
    requires RetiresFirst(first) && forall w <- rest :: !w.SaveRetired?
    ensures RetiresFirst(first + rest)
  {
    forall i | 0 < i < |first + rest|
      ensures !(first + rest)[i].SaveRetired?
    {
      if i >= |first| {
        assert (first + rest)[i] == rest[i - |first|];
      }
    }
  }

  lemma PrepareFreshRetiresFirst(env: Env, d: Disk, q: Preparation, id: Id, digest: Hash)
    requires Inv(env, d) && id !in d.catalogue.entries && id !in d.catalogue.retired
    requires ValidContext(q.context) && env.digest(q.intent) == Some(digest)
    ensures RetiresFirst(PrepareAs(env, d, q, id, digest).writes)
  {
    var room := MakeRoom(env, d);
    var e := After(env, d, room.writes);
    hide MakeRoom, ClaimAndCompile, Inv, After, RetiresFirst;
    MakeRoomAllowed(env, d);
    WritesKeepInv(env, d, room.writes);
    ClaimAllowed(env, e, q, id, digest);
    RoomRetiresFirst(env, d);
    RetiresFirstThen(room.writes, ClaimAndCompile(env, e, q, id, digest).writes);
  }

  lemma RoomRetiresFirst(env: Env, d: Disk)
    requires Inv(env, d)
    ensures RetiresFirst(MakeRoom(env, d).writes)
  {
    hide Inv, MakeRoom;
    if MakeRoom(env, d).writes != [] {
      var oldest, outcome := RoomIs(env, d);
    }
  }

  lemma PrepareRetiresFirst(env: Env, d: Disk, q: Preparation)
    requires Inv(env, d)
    ensures RetiresFirst(Prepare(env, d, q).writes)
  {
    hide Inv, Compile, PrepareAs, RetiresFirst, Fault;
    NoneRetires([]);
    MintIsFree(d.catalogue, q.draws, MINT_ATTEMPTS);
    var digest := env.digest(q.intent);
    var chosen := if q.operation.Some? then Ok(q.operation.value) else Mint(d.catalogue, q.draws, MINT_ATTEMPTS);
    if ValidContext(q.context) && digest.Some? && chosen.Ok? && chosen.value !in d.catalogue.retired {
      if chosen.value in d.catalogue.entries {
        PrepareHeldRetiresNothing(env, d, q, chosen.value, digest.value);
      } else {
        PrepareFreshRetiresFirst(env, d, q, chosen.value, digest.value);
      }
    }
  }

  lemma PrepareHeldRetiresNothing(env: Env, d: Disk, q: Preparation, id: Id, digest: Hash)
    requires Inv(env, d) && id in d.catalogue.entries && ValidContext(q.context) && env.digest(q.intent) == Some(digest)
    ensures RetiresFirst(PrepareAs(env, d, q, id, digest).writes)
  {
    hide Inv, Compile;
    if AsksFor(env, d, q, id) {
      CompileAllowed(env, d, q, id);
    }
  }

  /** A call retires one identity at most, with its first write. */
  lemma CallRetiresFirst(env: Env, d: Disk, call: Call)
    requires Inv(env, d)
    ensures RetiresFirst(RunOf(env, d, call).writes)
  {
    hide Inv, Prepare, RecordReply, RecordDelivered, RecordRefusal, ObserveWindow, Open, Allowed, RetiresFirst;
    match call {
      case Preparing(q) => PrepareRetiresFirst(env, d, q); return;
      case Replying(id, context, reply) => ReplyAllowed(env, d, id, context, reply);
      case Delivering(id, context) => DeliveredAllowed(env, d, id, context);
      case Refusing(id, context, refusal) => RefusalAllowed(env, d, id, context, refusal);
      case Observing(floor, next) => ObserveAllowed(env, d, floor, next);
      case Opening(listed) => OpenAllowed(env, d, listed);
      case Tearing(id, left) =>
      case _ => ReadsWriteNothing(env, d, call);
    }
    NoneRetires(RunOf(env, d, call).writes);
  }

  lemma {:induction false} WritesReadyOnlyRetire(env: Env, d: Disk, writes: seq<Write>, id: Id)
    requires Inv(env, d) && AllAllowed(env, d, writes) && ReadyLive(d, id)
    requires RetiresFirst(writes)
    ensures var e := After(env, d, writes); ReadyLive(e, id) || id in e.catalogue.retired
    decreases |writes|
  {
    hide Inv, Allowed, Apply;
    if writes != [] {
      var e := Apply(env, d, writes[0]);
      ReadyOnlyRetires(env, d, writes[0], id);
      WriteKeepsInv(env, d, writes[0]);
      if ReadyLive(e, id) {
        WritesReadyOnlyRetire(env, e, writes[1..], id);
      } else {
        OnlyRetiringMovesRetired(env, e, writes[1..]);
      }
    }
  }

  lemma StepReadyOnlyRetires(env: Env, d: Disk, ev: Event, id: Id)
    requires Inv(env, d) && ReadyLive(d, id)
    ensures var e := Step(env, d, ev); ReadyLive(e, id) || id in e.catalogue.retired
  {
    hide Inv, RunOf, ReadyLive;
    StepAllowed(env, d, ev);
    CallRetiresFirst(env, d, ev.call);
    WritesReadyOnlyRetire(env, d, Made(env, d, ev), id);
  }

  /** Over any run a ready operation leaves the live ones only by retiring: in the event in which it does, it
      goes into the retired table. */
  lemma {:induction false} ReadyLeavesByRetiring(env: Env, d: Disk, events: seq<Event>, i: nat, j: nat, id: Id)
      returns (k: nat)
    requires Inv(env, d) && i <= j <= |events|
    requires ReadyLive(At(env, d, events, i), id) && !ReadyLive(At(env, d, events, j), id)
    ensures i <= k < j && ReadyLive(At(env, d, events, k), id)
    ensures id in At(env, d, events, k + 1).catalogue.retired
    decreases j
  {
    hide Inv, Step, At, ReadyLive;
    assert i < j;
    if !ReadyLive(At(env, d, events, j - 1), id) {
      k := ReadyLeavesByRetiring(env, d, events, i, j - 1, id);
    } else {
      k := j - 1;
      RunsKeepInv(env, d, events[..k]);
      AtIs(env, d, events, k);
      AtNext(env, d, events, k);
      StepReadyOnlyRetires(env, At(env, d, events, k), events[k], id);
    }
  }

  // ---------------------------------------------------------------- a commit that was never delivered

  /** The identity is live, committed, and its commit was not delivered. */
  ghost predicate Undelivered(d: Disk, id: Id) {
    && id in d.catalogue.entries && id in d.children && d.children[id].journal.Some?
    && d.children[id].journal.value.receipt.Some? && !d.children[id].journal.value.delivered
  }

  ghost predicate Late(d: Disk, id: Id) {
    Reported(d, id) && Undelivered(d, id)
  }

  /** A refusal closed the identity's frame and was reported, and it has no receipt. */
  ghost predicate Closed(d: Disk, id: Id) {
    && Reported(d, id) && id in d.children && d.children[id].journal.Some?
    && d.children[id].journal.value.receipt.None? && d.children[id].journal.value.refusal.Some?
  }

  /** The write puts an undelivered receipt in the identity's journal. */
  ghost predicate Commits(w: Write, id: Id) {
    w.PutJournal? && w.id == id && w.journal.receipt.Some? && !w.journal.delivered
  }

  lemma ReportedIs(env: Env, d: Disk, id: Id)
    requires Inv(env, d) && Reported(d, id)
    ensures id in d.children && d.children[id].journal.Some?
    ensures Closed(d, id) <==> d.children[id].journal.value.receipt.None?
  {
    assert LiveOk(env, d, id);
  }

  lemma WriteMakesLate(env: Env, d: Disk, w: Write, id: Id)
    requires Inv(env, d) && Allowed(env, d, w) && Late(Apply(env, d, w), id)
    ensures Late(d, id) || (Closed(d, id) && Commits(w, id))
  {
    WriteReports(env, d, w, id);
    if Reported(d, id) {
      ReportedIs(env, d, id);
    }
    if w.SaveRetired? {
      RetirementIs(env, d, w.id, w.outcome);
    }
  }

  lemma WriteMakesClosed(env: Env, d: Disk, w: Write, id: Id)
    requires Inv(env, d) && Allowed(env, d, w) && Closed(Apply(env, d, w), id)
    ensures Closed(d, id) || w == SaveReported(id)
  {
    WriteReports(env, d, w, id);
    if Reported(d, id) {
      ReportedIs(env, d, id);
    }
    if w.SaveRetired? {
      RetirementIs(env, d, w.id, w.outcome);
    }
  }

  lemma {:induction false} WritesMakeLate(env: Env, d: Disk, writes: seq<Write>, id: Id)
    requires Inv(env, d) && AllAllowed(env, d, writes) && Late(After(env, d, writes), id)
    ensures Late(d, id)
      || ((exists w <- writes :: Commits(w, id)) && (Closed(d, id) || SaveReported(id) in writes))
    decreases |writes|
  {
    hide Inv, Allowed, Apply, Late, Closed, Commits;
    if writes != [] {
      var e := Apply(env, d, writes[0]);
      WriteKeepsInv(env, d, writes[0]);
      WritesMakeLate(env, e, writes[1..], id);
      assert writes[0] in writes && forall w <- writes[1..] :: w in writes;
      if Late(e, id) {
        WriteMakesLate(env, d, writes[0], id);
      } else if Closed(e, id) {
        WriteMakesClosed(env, d, writes[0], id);
      }
    }
  }

  lemma DeliveringNeverCommits(env: Env, d: Disk, id: Id, context: Context)
    ensures forall w <- RecordDelivered(env, d, id, context).writes :: w.PutJournal? ==> w.journal.delivered
  {
    hide Load, Fault;
  }

  lemma RefusingNeverCommits(env: Env, d: Disk, id: Id, context: Context, refusal: Refusal)
    ensures forall w <- RecordRefusal(env, d, id, context, refusal).writes :: w.PutJournal? ==> w.journal.delivered
  {
    hide Load, Fault;
  }

  /** A call that reports commits nothing: it writes no undelivered receipt. */
  lemma ReportingNeverCommits(env: Env, d: Disk, call: Call, id: Id, w: Write)
    requires ReportsOn(call, id) && w in RunOf(env, d, call).writes
    ensures !Commits(w, id)
  {
    hide RecordDelivered, RecordRefusal;
    if call.Delivering? {
      DeliveringNeverCommits(env, d, id, call.context);
    } else {
      RefusingNeverCommits(env, d, id, call.context, call.refusal);
    }
  }

  lemma StepMakesLate(env: Env, d: Disk, ev: Event, id: Id)
    requires Inv(env, d) && Late(Step(env, d, ev), id)
    ensures Late(d, id) || Closed(d, id)
  {
    hide Inv, RunOf, Late, Closed, Commits, ReportsOn;
    StepAllowed(env, d, ev);
    var made := Made(env, d, ev);
    WritesMakeLate(env, d, made, id);
    if !Late(d, id) && !Closed(d, id) {
      var w :| w in made && Commits(w, id);
      ReportingNeverCommits(env, d, ev.call, id, w);
    }
  }

  lemma WriteKeepsReported(env: Env, d: Disk, w: Write, id: Id)
    requires Allowed(env, d, w) && Reported(d, id) && id in Apply(env, d, w).catalogue.entries && !Claims(w, id)
    ensures Reported(Apply(env, d, w), id)
  {
    if w.SaveRetired? {
      RetirementIs(env, d, w.id, w.outcome);
    }
  }

  lemma {:induction false} WritesKeepReported(env: Env, d: Disk, writes: seq<Write>, id: Id)
    requires AllAllowed(env, d, writes) && Reported(d, id) && id in After(env, d, writes).catalogue.entries
    requires forall w <- writes :: !Claims(w, id)
    ensures Reported(After(env, d, writes), id)
    decreases |writes|
  {
    hide Allowed, Apply, Reported;
    if writes != [] {
      var e := Apply(env, d, writes[0]);
      if id in e.catalogue.entries {
        WriteKeepsReported(env, d, writes[0], id);
        WritesKeepReported(env, e, writes[1..], id);
      } else {
        NoClaimNoEntry(env, e, writes[1..], id);
      }
    }
  }

  lemma StepKeepsReported(env: Env, d: Disk, ev: Event, id: Id)
    requires Inv(env, d) && Reported(d, id) && id in Step(env, d, ev).catalogue.entries
    ensures Reported(Step(env, d, ev), id)
  {
    hide Inv, Made, Reported;
    StepAllowed(env, d, ev);
    assert Guarded(d, id) by { ReportedIsLive(d, id); }
    WritesKeepReported(env, d, Made(env, d, ev), id);
  }

  lemma ReportedIsLive(d: Disk, id: Id)
    requires Reported(d, id)
    ensures id in d.catalogue.entries
  {
  }

  /** At moment `k` a refusal had closed the identity's frame, and it lived on to moment `i`. */
  ghost predicate ClosedSince(env: Env, events: seq<Event>, k: nat, i: nat, id: Id)
    requires k <= i <= |events|
  {
    && Closed(At(env, Fresh(env.limits), events, k), id)
    && forall m :: k <= m <= i ==> id in At(env, Fresh(env.limits), events, m).catalogue.entries
  }

  lemma {:induction false} ReportedWhileLive(env: Env, events: seq<Event>, k: nat, i: nat, id: Id)
    requires ValidLimits(env.limits) && k <= i <= |events|
    requires Reported(At(env, Fresh(env.limits), events, k), id)
    requires forall m :: k <= m <= i ==> id in At(env, Fresh(env.limits), events, m).catalogue.entries
    ensures Reported(At(env, Fresh(env.limits), events, i), id)
    decreases i
  {
    hide Inv, Step, At, Reported;
    if k < i {
      ReportedWhileLive(env, events, k, i - 1, id);
      var d := Fresh(env.limits);
      FreshOk(env);
      RunsKeepInv(env, d, events[..i - 1]);
      AtIs(env, d, events, i - 1);
      AtNext(env, d, events, i - 1);
      StepKeepsReported(env, At(env, d, events, i - 1), events[i - 1], id);
    }
  }

  lemma {:induction false} LateWasClosed(env: Env, events: seq<Event>, i: nat, id: Id) returns (k: nat)
    requires ValidLimits(env.limits) && i <= |events| && Late(At(env, Fresh(env.limits), events, i), id)
    ensures k < i && ClosedSince(env, events, k, i, id)
    decreases i
  {
    hide Inv, Step, At, Late, Closed, Reported;
    var d := Fresh(env.limits);
    LateIsLive(At(env, d, events, i), id);
    if i == 0 {
      NothingReportedAtFirst(env, events, id);
    } else {
      FreshOk(env);
      RunsKeepInv(env, d, events[..i - 1]);
      AtIs(env, d, events, i - 1);
      AtNext(env, d, events, i - 1);
      StepMakesLate(env, At(env, d, events, i - 1), events[i - 1], id);
      if Late(At(env, d, events, i - 1), id) {
        k := LateWasClosed(env, events, i - 1, id);
      } else {
        k := i - 1;
        ClosedIsLive(At(env, d, events, k), id);
      }
    }
  }

  lemma LateIsLive(d: Disk, id: Id)
    requires Late(d, id)
    ensures id in d.catalogue.entries && Reported(d, id)
  {
  }

  lemma ClosedIsLive(d: Disk, id: Id)
    requires Closed(d, id)
    ensures id in d.catalogue.entries && Reported(d, id)
  {
  }

  /** A commit not delivered can be retired exactly when a refusal closed its frame earlier in the same life:
      the reply that brought the commit did not take the report back. */
  lemma LateExactlyWhenClosed(env: Env, events: seq<Event>, i: nat, id: Id)
    requires ValidLimits(env.limits) && i <= |events| && Undelivered(At(env, Fresh(env.limits), events, i), id)
    ensures Reported(At(env, Fresh(env.limits), events, i), id) <==>
      exists k :: 0 <= k < i && ClosedSince(env, events, k, i, id)
  {
    hide At, Reported, Undelivered, Closed;
    if Reported(At(env, Fresh(env.limits), events, i), id) {
      var k := LateWasClosed(env, events, i, id);
    }
    if k :| 0 <= k < i && ClosedSince(env, events, k, i, id) {
      ClosedIsLive(At(env, Fresh(env.limits), events, k), id);
      ReportedWhileLive(env, events, k, i, id);
    }
  }

  /** So an event retires a commit that was never delivered only if a refusal had closed its frame. */
  lemma UndeliveredRetiresOnlyClosed(env: Env, events: seq<Event>, i: nat, id: Id) returns (k: nat)
    requires ValidLimits(env.limits) && i < |events| && Undelivered(At(env, Fresh(env.limits), events, i), id)
    requires id in At(env, Fresh(env.limits), events, i + 1).catalogue.retired
    ensures k < i && ClosedSince(env, events, k, i, id)
  {
    hide Step, Reported, At;
    var d := Fresh(env.limits);
    FreshOk(env);
    RunsKeepInv(env, d, events[..i]);
    AtIs(env, d, events, i);
    AtNext(env, d, events, i);
    LiveNotRetired(env, At(env, d, events, i), id);
    hide Inv;
    StepRetires(env, At(env, d, events, i), events[i], id);
    k := LateWasClosed(env, events, i, id);
  }

  lemma LiveNotRetired(env: Env, d: Disk, id: Id)
    requires Inv(env, d) && id in d.catalogue.entries
    ensures id !in d.catalogue.retired
  {
  }

  /** And one so closed is what a full journal retires for its next claim, where it was reported longest ago. */
  lemma ClosedIsRetired(env: Env, d: Disk, id: Id)
    requires Inv(env, d) && Late(d, id) && IsLeast(Reports(d.catalogue.entries), id)
    requires Full(env.limits, |d.catalogue.entries|) && MakeRoom(env, d).answer.Ok?
    ensures var e := After(env, d, MakeRoom(env, d).writes);
      && id !in e.catalogue.entries && id !in e.children
      && id in e.catalogue.retired && e.catalogue.retired[id].outcome.CommittedAt?
  {
    var outcome := RoomTakes(env, d, id);
    var c := d.catalogue;
    RetirementIs(env, d, id, outcome);
    StaysRetired(env, d, id, outcome);
    AfterTwo(env, d, SaveRetired(id, outcome), RemoveChild(id));
    hide Inv, MakeRoom, WithRetired, IsLeast;
  }

  lemma StaysRetired(env: Env, d: Disk, id: Id, outcome: Outcome)
    requires Inv(env, d) && id in d.catalogue.entries
    ensures id in Apply(env, d, SaveRetired(id, outcome)).catalogue.retired
  {
    var c := d.catalogue;
    NewestStays(c.retired[id := Retired(c.entries[id].intent, outcome, c.retiredNext, c.entries[id].epoch)],
                env.limits.maxOperations, id);
    hide Evicted;
  }

  lemma RoomTakes(env: Env, d: Disk, id: Id) returns (outcome: Outcome)
    requires Inv(env, d) && Late(d, id) && IsLeast(Reports(d.catalogue.entries), id)
    requires Full(env.limits, |d.catalogue.entries|) && MakeRoom(env, d).answer.Ok?
    ensures MakeRoom(env, d).writes == [SaveRetired(id, outcome), RemoveChild(id)] && outcome.CommittedAt?
  {
    assert id in Reports(d.catalogue.entries);
    LeastUnique(Reports(d.catalogue.entries), id, Least(Reports(d.catalogue.entries)));
    outcome := OutcomeOf(env, ReadJournal(d, id).value);
    hide Inv, Fault, WithRetired, IsLeast;
  }
}
