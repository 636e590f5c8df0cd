/**
 Runs of the native journal: any calls in any order, each completed or stopped after any of its
 durable writes. What is proved here holds in every state every run passes through.
 */
module NativeRuns {
  import opened Basics
  import opened NativeModel
  import opened NativeCalls
  import opened NativeSafety

  datatype Call =
    | Preparing(q: Preparation)
    | Looking(context: Context, intent: Intent, id: Id)
    | Retrying(id: Id, context: Context)
    | Replying(id: Id, context: Context, reply: Reply)
    | Delivering(id: Id, context: Context)
    | Refusing(id: Id, context: Context, refusal: Refusal)
    | AskingFloor
    | Observing(floor: nat, next: nat)
    | Opening(listed: seq<Id>)
    | Tearing(id: Id, left: Child)

  /** A call's writes and answer. A listing of another directory opens nothing, and an interrupted
      removal tears only a directory nothing live owns. */
  ghost function RunOf(env: Env, d: Disk, call: Call): Run {
    match call
    case Preparing(q) => Prepare(env, d, q)
    case Looking(context, intent, id) => Existing(env, d, context, intent, id)
    case Retrying(id, context) => Retry(env, d, id, context)
    case Replying(id, context, reply) => RecordReply(env, d, id, context, reply)
    case Delivering(id, context) => RecordDelivered(env, d, id, context)
    case Refusing(id, context, refusal) => RecordRefusal(env, d, id, context, refusal)
    case AskingFloor => FloorDue(env, d)
    case Observing(floor, next) => ObserveWindow(env, d, floor, next)
    case Opening(listed) => if IsListing(d, listed) then Open(env, d, listed) else Refuse(Corrupt)
    case Tearing(id, left) =>
      if Allowed(env, d, Tear(id, left)) then Run([Tear(id, left)], Ok(Recorded)) else Refuse(Corrupt)
  }

  /** The writes a preparation makes: it moves no floor and reports nothing. */
  ghost predicate Preparatory(w: Write) {
    || w.SaveRetired? || w.RemoveChild? || w.SaveClaim? || w.SaveRelease?
    || w.SaveReady? || w.CreateChild? || w.PutPrepared?
  }

  // ---------------------------------------------------------------- every call's writes are allowed

  lemma NothingAllowed(env: Env, d: Disk)
    ensures AllAllowed(env, d, [])
  {
  }

  lemma AllowedOne(env: Env, d: Disk, w: Write)
    requires Allowed(env, d, w)
    ensures AllAllowed(env, d, [w]) && After(env, d, [w]) == Apply(env, d, w)
  {
    hide Allowed, Apply;
    assert [w][1..] == [];
  }

  lemma AllowedTwo(env: Env, d: Disk, w: Write, x: Write)
    requires Allowed(env, d, w) && Allowed(env, Apply(env, d, w), x)
    ensures AllAllowed(env, d, [w, x]) && After(env, d, [w, x]) == Apply(env, Apply(env, d, w), x)
  {
    hide Allowed, Apply;
    AllowedOne(env, Apply(env, d, w), x);
    assert [w, x][1..] == [x];
  }

  lemma RoomIs(env: Env, d: Disk) returns (oldest: Id, outcome: Outcome)
    requires Inv(env, d) && MakeRoom(env, d).writes != []
    ensures MakeRoom(env, d).writes == [SaveRetired(oldest, outcome), RemoveChild(oldest)]
    ensures Allowed(env, d, SaveRetired(oldest, outcome))
  {
    hide Inv, WithRetired, Fault;
    oldest := Least(Reports(d.catalogue.entries));
    outcome := OutcomeOf(env, ReadJournal(d, oldest).value);
  }

  lemma RoomMade(env: Env, d: Disk, oldest: Id, outcome: Outcome)
    requires Allowed(env, d, SaveRetired(oldest, outcome))
    ensures var writes := [SaveRetired(oldest, outcome), RemoveChild(oldest)];
      && AllAllowed(env, d, writes)
      && After(env, d, writes) == Apply(env, Apply(env, d, SaveRetired(oldest, outcome)), RemoveChild(oldest))
  {
    RemovalAllowed(env, d, oldest, outcome);
    hide Allowed, Apply;
    AllowedTwo(env, d, SaveRetired(oldest, outcome), RemoveChild(oldest));
  }

  /** The directory of an identity just retired may go. */
  lemma RemovalAllowed(env: Env, d: Disk, oldest: Id, outcome: Outcome)
    requires Allowed(env, d, SaveRetired(oldest, outcome))
    ensures Allowed(env, Apply(env, d, SaveRetired(oldest, outcome)), RemoveChild(oldest))
  {
    RetiresLive(env, d, oldest, outcome);
    RetirementIs(env, d, oldest, outcome);
    hide Apply, Allowed;
    UnlistedMayGo(env, Apply(env, d, SaveRetired(oldest, outcome)), oldest);
  }

  lemma UnlistedMayGo(env: Env, d: Disk, id: Id)
    requires id !in d.catalogue.entries
    ensures Allowed(env, d, RemoveChild(id))
  {
  }

  lemma MakeRoomAllowed(env: Env, d: Disk)
    requires Inv(env, d)
    ensures AllAllowed(env, d, MakeRoom(env, d).writes)
    ensures forall w :: w in MakeRoom(env, d).writes ==> w.SaveRetired? || w.RemoveChild?
    ensures var e := After(env, d, MakeRoom(env, d).writes);
      && e.catalogue.entries.Keys <= d.catalogue.entries.Keys
      && e.catalogue.retired.Keys <= d.catalogue.retired.Keys + d.catalogue.entries.Keys
      && e.catalogue.floor == d.catalogue.floor && e.catalogue.generation == d.catalogue.generation
  {
    hide MakeRoom, Allowed, Inv;
    if MakeRoom(env, d).writes != [] {
      var oldest, outcome := RoomIs(env, d);
      RoomMade(env, d, oldest, outcome);
      assert oldest in d.catalogue.entries by { RetiresLive(env, d, oldest, outcome); }
      RetirementIs(env, d, oldest, outcome);
    }
  }

  lemma RetiresLive(env: Env, d: Disk, id: Id, outcome: Outcome)
    requires Allowed(env, d, SaveRetired(id, outcome))
    ensures id in d.catalogue.entries
  {
  }

  lemma PresentWrites(env: Env, d: Disk, id: Id, p: Prepared)
    ensures Present(env, d, id, p).writes == []
  {
  }

  lemma SettleAllowed(env: Env, d: Disk, q: Preparation, id: Id, p: Prepared)
    requires Inv(env, d) && id in d.catalogue.entries && Framed(d, id) && d.children[id].prepared == Some(p)
    ensures AllAllowed(env, d, Settle(env, d, q, id, p).writes)
    ensures forall w :: w in Settle(env, d, q, id, p).writes ==> w == SaveReady(id)
  {
    var run := Settle(env, d, q, id, p);
    PresentWrites(env, d, id, p);
    PresentWrites(env, Apply(env, d, SaveReady(id)), id, p);
    if run.writes != [] {
      assert run.writes == [SaveReady(id)];
      AllowedOne(env, d, SaveReady(id));
    }
  }

  lemma FrameAllowed(env: Env, d: Disk, id: Id, p: Prepared)
    requires Inv(env, d) && id in d.catalogue.entries && !d.catalogue.entries[id].ready && !Framed(d, id)
    requires Fits(env, id, d.catalogue.entries[id], p)
    ensures AllAllowed(env, d, FrameWrites(d, id, p))
    ensures forall w :: w in FrameWrites(d, id, p) ==> w.CreateChild? || w.PutPrepared?
  {
    if id in d.children {
      assert FrameWrites(d, id, p) == [PutPrepared(id, p)];
      AllowedOne(env, d, PutPrepared(id, p));
    } else {
      assert FrameWrites(d, id, p) == [CreateChild(id), PutPrepared(id, p)];
      AllowedTwo(env, d, CreateChild(id), PutPrepared(id, p));
    }
  }

  ghost predicate AsksFor(env: Env, d: Disk, q: Preparation, id: Id) {
    && ValidContext(q.context)
    && id in d.catalogue.entries
    && d.catalogue.entries[id].context == q.context
    && env.digest(q.intent) == Some(d.catalogue.entries[id].intent)
  }

  lemma CompileAllowed(env: Env, d: Disk, q: Preparation, id: Id)
    requires Inv(env, d) && AsksFor(env, d, q, id)
    ensures AllAllowed(env, d, Compile(env, d, q, id).writes)
    ensures forall w :: w in Compile(env, d, q, id).writes ==> Preparatory(w) && !w.SaveClaim? && !w.SaveRetired?
  {
    var e := d.catalogue.entries[id];
    var run := Compile(env, d, q, id);
    assert LiveOk(env, d, id);
    if e.ready || Framed(d, id) {
      var p := ReadPrepared(env, d, id, e.ready);
      if p.Ok? {
        SettleAllowed(env, d, q, id, p.value);
      }
    } else {
      var x := q.expand(RequestKey(q.context.principal, e.epoch, id));
      if x.Err? {
        if run.writes != [] { AllowedOne(env, d, SaveRelease(id)); }
      } else if ValidRequest(q.context, id, e.epoch, x.value.request, x.value.fingerprint) {
        CompileFreshAllowed(env, d, q, id, x.value);
      }
    }
  }

  lemma CompileFreshAllowed(env: Env, d: Disk, q: Preparation, id: Id, x: Expanded)
    requires Inv(env, d) && AsksFor(env, d, q, id)
    requires !d.catalogue.entries[id].ready && !Framed(d, id)
    requires ValidRequest(q.context, id, d.catalogue.entries[id].epoch, x.request, x.fingerprint)
    requires q.expand(RequestKey(q.context.principal, d.catalogue.entries[id].epoch, id)) == Ok(x)
    ensures AllAllowed(env, d, Compile(env, d, q, id).writes)
    ensures forall w :: w in Compile(env, d, q, id).writes ==> Preparatory(w) && !w.SaveClaim? && !w.SaveRetired?
  {
    var p := Prepared(q.context, q.intent, x.request, x.fingerprint, x.created);
    var writes := FrameWrites(d, id, p);
    var e := After(env, d, writes);
    AfterFrame(env, d, id, p);
    FrameAllowed(env, d, id, p);
    WritesKeepInv(env, d, writes);
    SettleAllowed(env, e, q, id, p);
    AllowedConcat(env, d, writes, Settle(env, e, q, id, p).writes);
    assert Compile(env, d, q, id).writes == writes + Settle(env, e, q, id, p).writes;
  }

  lemma ClaimAllowed(env: Env, d: Disk, q: Preparation, id: Id, digest: Hash)
    requires Inv(env, d) && id !in d.catalogue.entries && id !in d.catalogue.retired
    requires ValidContext(q.context) && env.digest(q.intent) == Some(digest)
    ensures AllAllowed(env, d, ClaimAndCompile(env, d, q, id, digest).writes)
    ensures forall w :: w in ClaimAndCompile(env, d, q, id, digest).writes ==>
      Preparatory(w) && (w.SaveClaim? ==> w == SaveClaim(id, q.context, digest)) && !w.SaveRetired?
  {
    var w := SaveClaim(id, q.context, digest);
    var claim := Claim(env, d, id, q.context, digest);
    if claim.answer.Ok? {
      assert claim.writes == [w] && Allowed(env, d, w);
      var e := Apply(env, d, w);
      hide Inv, Allowed, Compile, Fault;
      AllowedOne(env, d, w);
      WriteKeepsInv(env, d, w);
      CompileAllowed(env, e, q, id);
      AllowedConcat(env, d, [w], Compile(env, e, q, id).writes);
    } else {
      assert claim.writes == [];
    }
  }

  lemma MintIsFree(c: Catalogue, draws: seq<Option<Id>>, attempts: nat)
    ensures Mint(c, draws, attempts).Ok? ==>
      Mint(c, draws, attempts).value !in c.entries && Mint(c, draws, attempts).value !in c.retired
  {
  }

  lemma PrepareAsAllowed(env: Env, d: Disk, q: Preparation, id: Id, digest: Hash)
    requires Inv(env, d) && id !in d.catalogue.retired
    requires ValidContext(q.context) && env.digest(q.intent) == Some(digest)
    ensures AllAllowed(env, d, PrepareAs(env, d, q, id, digest).writes)
    ensures forall w, x :: w in PrepareAs(env, d, q, id, digest).writes && Claims(w, x) ==> !Guarded(d, x)
    ensures forall w :: w in PrepareAs(env, d, q, id, digest).writes ==> Preparatory(w)
  {
    hide Inv, Compile, ClaimAndCompile, MakeRoom, AllAllowed, After;
    NothingAllowed(env, d);
    if id in d.catalogue.entries {
      if AsksFor(env, d, q, id) {
        CompileAllowed(env, d, q, id);
      }
    } else {
      var room := MakeRoom(env, d);
      var e := After(env, d, room.writes);
      MakeRoomAllowed(env, d);
      if room.answer.Ok? {
        WritesKeepInv(env, d, room.writes);
        ClaimAllowed(env, e, q, id, digest);
        AllowedConcat(env, d, room.writes, ClaimAndCompile(env, e, q, id, digest).writes);
      }
    }
  }

  lemma PrepareAllowed(env: Env, d: Disk, q: Preparation)
    requires Inv(env, d)
    ensures AllAllowed(env, d, Prepare(env, d, q).writes)
    ensures forall w, x :: w in Prepare(env, d, q).writes && Claims(w, x) ==> !Guarded(d, x)
    ensures forall w :: w in Prepare(env, d, q).writes ==> Preparatory(w)
  {
    hide Inv, PrepareAs;
    MintIsFree(d.catalogue, q.draws, MINT_ATTEMPTS);
    var digest := env.digest(q.intent);
    var chosen := if q.operation.Some? then Ok(q.operation.value) else Mint(d.catalogue, q.draws, MINT_ATTEMPTS);
    if ValidContext(q.context) && digest.Some? && chosen.Ok? && chosen.value !in d.catalogue.retired {
      PrepareAsAllowed(env, d, q, chosen.value, digest.value);
    }
  }

  /** What a transition reads of a live, ready operation is what its files hold. */
  lemma LoadIs(env: Env, d: Disk, id: Id, context: Context)
    requires Inv(env, d) && Load(env, d, id, context).Ok?
    ensures id in d.catalogue.entries && d.catalogue.entries[id].ready && d.catalogue.entries[id].context == context
    ensures id in d.children && ChildOk(env, id, d.catalogue.entries[id], d.children[id])
    ensures var l := Load(env, d, id, context).value;
      && d.children[id].prepared == Some(l.prepared) && Holds(d, id, l.prepared)
      && l.journal == (if d.children[id].journal.Some? then d.children[id].journal.value else NoJournal)
  {
    assert LiveOk(env, d, id);
  }

  /** What a reply writes, when it writes: the receipt, then the floor a committed advance moves. */
  lemma ReplyWrites(env: Env, d: Disk, id: Id, context: Context, reply: Reply)
    requires RecordReply(env, d, id, context, reply).writes != []
    ensures reply.Committed? && Load(env, d, id, context).Ok?
    ensures var l := Load(env, d, id, context).value;
      var w := PutJournal(id, Journal(l.journal.generation + 1, Some(reply.receipt), None, false));
      var advance := l.prepared.intent.name == EPOCH_ADVANCE && d.catalogue.floor < l.prepared.request.epoch;
      var run := RecordReply(env, d, id, context, reply);
      && l.journal.receipt == None
      && ValidReceipt(context, id, l.prepared.request.epoch, l.prepared.fingerprint, reply.receipt)
      && (run.writes == [w] || (advance && run.writes == [w, SaveFloor(l.prepared.request.epoch)]))
      && (run.answer.Ok? && advance ==> run.writes == [w, SaveFloor(l.prepared.request.epoch)])
  {
    hide Load, Fault, ValidReceipt;
  }

  lemma ReplyAllowed(env: Env, d: Disk, id: Id, context: Context, reply: Reply)
    requires Inv(env, d)
    ensures AllAllowed(env, d, RecordReply(env, d, id, context, reply).writes)
    ensures forall w :: w in RecordReply(env, d, id, context, reply).writes ==> w.PutJournal? || w.SaveFloor?
  {
    hide RecordReply;
    var run := RecordReply(env, d, id, context, reply);
    if run.writes != [] {
      ReplyWrites(env, d, id, context, reply);
      LoadIs(env, d, id, context);
      hide Load;
      var l := Load(env, d, id, context).value;
      var epoch := l.prepared.request.epoch;
      var w := PutJournal(id, Journal(l.journal.generation + 1, Some(reply.receipt), None, false));
      assert Allowed(env, d, w);
      if run.writes == [w] {
        AllowedOne(env, d, w);
      } else {
        assert Apply(env, d, w).catalogue == d.catalogue;
        AllowedTwo(env, d, w, SaveFloor(epoch));
      }
    }
  }

  lemma MarkAllowed(env: Env, d: Disk, id: Id, before: seq<Write>)
    requires Inv(env, d) && id in d.catalogue.entries && d.catalogue.entries[id].ready
    requires AllAllowed(env, d, before) && After(env, d, before).catalogue == d.catalogue
    requires var e := After(env, d, before);
      && id in e.children && HasResult(e.children[id])
      && (e.children[id].journal.value.receipt.Some? ==> e.children[id].journal.value.delivered)
    requires forall w :: w in before ==> w.PutJournal?
    ensures AllAllowed(env, d, MarkReported(env, d, id, before).writes)
    ensures forall w :: w in MarkReported(env, d, id, before).writes ==> w.PutJournal? || w == SaveReported(id)
  {
    hide Inv, After, AllAllowed;
    var run := MarkReported(env, d, id, before);
    if run.writes != before {
      var e := After(env, d, before);
      assert run.writes == before + [SaveReported(id)];
      AllowedOne(env, e, SaveReported(id));
      AllowedConcat(env, d, before, [SaveReported(id)]);
    }
  }

  lemma DeliveredAllowed(env: Env, d: Disk, id: Id, context: Context)
    requires Inv(env, d)
    ensures AllAllowed(env, d, RecordDelivered(env, d, id, context).writes)
    ensures forall w :: w in RecordDelivered(env, d, id, context).writes ==> w.PutJournal? || w == SaveReported(id)
  {
    var run := RecordDelivered(env, d, id, context);
    var loaded := Load(env, d, id, context);
    if loaded.Ok? {
      LoadIs(env, d, id, context);
      var j := loaded.value.journal;
      if j.receipt.Some? && !j.delivered && j.generation < U64_MAX {
        var w := PutJournal(id, Journal(j.generation + 1, j.receipt, None, true));
        AllowedOne(env, d, w);
        MarkAllowed(env, d, id, [w]);
      } else if (j.receipt.Some? && j.delivered) || (j.receipt.None? && j.refusal.Some?) {
        MarkAllowed(env, d, id, []);
      }
    }
  }

  lemma RefusalAllowed(env: Env, d: Disk, id: Id, context: Context, refusal: Refusal)
    requires Inv(env, d)
    ensures AllAllowed(env, d, RecordRefusal(env, d, id, context, refusal).writes)
    ensures forall w :: w in RecordRefusal(env, d, id, context, refusal).writes ==>
      w.PutJournal? || (w == SaveReported(id) && refusal.kind != CapacityRefusal)
  {
    var run := RecordRefusal(env, d, id, context, refusal);
    var loaded := Load(env, d, id, context);
    if run.writes != [] {
      LoadIs(env, d, id, context);
      var j := loaded.value.journal;
      var w := PutJournal(id, Journal(j.generation + 1, None, Some(refusal), true));
      AllowedOne(env, d, w);
      if refusal.kind != CapacityRefusal {
        MarkAllowed(env, d, id, [w]);
      }
    }
  }

  lemma ObserveAllowed(env: Env, d: Disk, floor: nat, next: nat)
    requires Inv(env, d)
    ensures AllAllowed(env, d, ObserveWindow(env, d, floor, next).writes)
    ensures forall w :: w in ObserveWindow(env, d, floor, next).writes ==> w.SaveWindow?
  {
    var run := ObserveWindow(env, d, floor, next);
    if run.writes != [] {
      AllowedOne(env, d, run.writes[0]);
    }
  }

  lemma RemovalsAllowed(env: Env, d: Disk, c: Catalogue, listed: seq<Id>)
    requires d.catalogue == c
    ensures AllAllowed(env, d, Removals(c, listed))
    ensures forall w :: w in Removals(c, listed) ==> w.RemoveChild?
    ensures var e := After(env, d, Removals(c, listed));
      && e.catalogue == c && (forall id <- e.children :: id in d.children && e.children[id] == d.children[id])
      && forall id :: id in e.children <==> id in d.children && (id in listed ==> id in c.entries)
    decreases |listed|
  {
    if listed != [] {
      if listed[0] in c.entries {
        RemovalsAllowed(env, d, c, listed[1..]);
      } else {
        var e := Apply(env, d, RemoveChild(listed[0]));
        RemovalsAllowed(env, e, c, listed[1..]);
        assert Removals(c, listed)[1..] == Removals(c, listed[1..]);
      }
    }
  }

  lemma OpenAllowed(env: Env, d: Disk, listed: seq<Id>)
    requires Inv(env, d)
    ensures AllAllowed(env, d, Open(env, d, listed).writes)
    ensures forall w :: w in Open(env, d, listed).writes ==> w.RemoveChild? || w.SaveSwept?
  {
    var c := d.catalogue;
    if ReadyEntries(c.entries) == c.entries {
      RemovalsAllowed(env, d, c, listed);
    } else if Fault(env.limits, WithSwept(c)) == None {
      var e := Apply(env, d, SaveSwept);
      AllowedOne(env, d, SaveSwept);
      RemovalsAllowed(env, e, e.catalogue, listed);
      AllowedConcat(env, d, [SaveSwept], Removals(e.catalogue, listed));
    }
  }

  /** The identity a call reports a result of. */
  ghost predicate ReportsOn(call: Call, id: Id) {
    || (call.Delivering? && call.id == id)
    || (call.Refusing? && call.id == id && call.refusal.kind != CapacityRefusal)
  }

  /** Every write any call makes, from a state that keeps the invariant, is one the journal may
      make there; only a free identity is claimed, and only a call reporting on an identity marks it reported. */
  lemma {:induction false} CallAllowed(env: Env, d: Disk, call: Call)
    requires Inv(env, d)
    ensures AllAllowed(env, d, RunOf(env, d, call).writes)
    ensures forall w, x :: w in RunOf(env, d, call).writes && Claims(w, x) ==> !Guarded(d, x)
    ensures forall w :: w in RunOf(env, d, call).writes && w.SaveReported? ==> ReportsOn(call, w.id)
  {
    hide Inv, Allowed, Prepare, RecordReply, RecordDelivered, RecordRefusal, ObserveWindow, Open;
    match call {
      case Preparing(q) => PrepareAllowed(env, d, q);
      case Replying(id, context, reply) => ReplyAllowed(env, d, id, context, reply);
      case Delivering(id, context) => DeliveredAllowed(env, d, id, context);
      case Refusing(id, context, refusal) => RefusalAllowed(env, d, id, context, refusal);
      case Observing(floor, next) => ObserveAllowed(env, d, floor, next);
      case Opening(listed) => OpenAllowed(env, d, listed);
      case Tearing(id, left) =>
        if Allowed(env, d, Tear(id, left)) { AllowedOne(env, d, Tear(id, left)); }
      case _ => ReadsWriteNothing(env, d, call);
    }
  }

  lemma ReadsWriteNothing(env: Env, d: Disk, call: Call)
    requires call.Looking? || call.Retrying? || call.AskingFloor?
    ensures RunOf(env, d, call).writes == []
  {
  }
}
