/**
 Exactly what each call of the native journal answers and leaves, from any files that meet the invariant: when
 it succeeds, with which operation, why it is refused otherwise, and what it changes.
 */
module NativeExact {
  import opened Basics
  import opened NativeModel
  import opened NativeCalls
  import opened NativeSafety
  import opened NativeRuns
  import opened NativeTheorems
  import opened NativeLate

  // ---------------------------------------------------------------- what the files hold

  /** What an identity's journal says so far. */
  ghost function JournalIn(d: Disk, id: Id): Journal {
    if id in d.children && d.children[id].journal.Some? then d.children[id].journal.value
    else Journal(0, None, None, false)
  }

  /** The operation an identity's files hold. */
  ghost function OperationIn(d: Disk, id: Id): Operation
    requires Framed(d, id)
  {
    var p, j := d.children[id].prepared.value, JournalIn(d, id);
    Operation(id, p.context, p.intent.name, p.intent.version, p.request, p.fingerprint, p.created, j.receipt, j.refusal,
              j.delivered)
  }

  /** The call was refused and left the files alone. */
  ghost predicate Denied(d: Disk, e: Disk, r: Result<Answer>, error: Error) {
    r == Err(error) && e == d
  }

  lemma ReadyIsFramed(env: Env, d: Disk, id: Id)
    requires Inv(env, d) && id in d.catalogue.entries
    ensures d.catalogue.entries[id].ready ==> Framed(d, id)
    ensures Framed(d, id) ==> Fits(env, id, d.catalogue.entries[id], d.children[id].prepared.value)
    ensures !d.catalogue.entries[id].ready ==> JournalIn(d, id) == Journal(0, None, None, false)
    ensures d.catalogue.entries[id].retirable.Some? ==> Framed(d, id) && HasResult(d.children[id])
  {
    assert LiveOk(env, d, id);
  }

  lemma JournalReads(env: Env, d: Disk, id: Id)
    requires Inv(env, d) && id in d.catalogue.entries
    ensures ReadJournal(d, id) == Ok(JournalIn(d, id))
    ensures JournalIn(d, id).receipt.Some? ==>
      Framed(d, id) && ReceiptFits(id, d.children[id].prepared.value, JournalIn(d, id).receipt.value)
  {
    assert LiveOk(env, d, id);
  }

  // ---------------------------------------------------------------- drawing an identity

  predicate Free(c: Catalogue, id: Id) {
    id != 0 && id !in c.entries && id !in c.retired
  }

  /** The first of the draws that is free, every one before it drawn and taken. */
  ghost predicate DrawnAt(c: Catalogue, draws: seq<Option<Id>>, k: nat, id: Id) {
    && k < |draws| && draws[k] == Some(id) && Free(c, id)
    && forall j :: 0 <= j < k ==> draws[j].Some? && !Free(c, draws[j].value)
  }

  ghost predicate Drawn(c: Catalogue, draws: seq<Option<Id>>, attempts: nat, id: Id) {
    exists k :: 0 <= k < attempts && DrawnAt(c, draws, k, id)
  }

  /** An identity is minted exactly if a free one is drawn in time, and it is the first. */
  lemma {:induction false} MintExactly(c: Catalogue, draws: seq<Option<Id>>, attempts: nat)
    ensures var r := Mint(c, draws, attempts);
      && (r.Ok? ==> Drawn(c, draws, attempts, r.value))
      && (r.Err? ==> r == Err(Expansion) && forall id :: !Drawn(c, draws, attempts, id))
    decreases attempts
  {
    var r := Mint(c, draws, attempts);
    if attempts == 0 || draws == [] || draws[0] == None {
    } else if Free(c, draws[0].value) {
      assert DrawnAt(c, draws, 0, draws[0].value);
    } else {
      MintExactly(c, draws[1..], attempts - 1);
      if r.Ok? {
        var k :| 0 <= k < attempts - 1 && DrawnAt(c, draws[1..], k, r.value);
        assert DrawnAt(c, draws, k + 1, r.value);
      } else if id, k :| 0 <= k < attempts && DrawnAt(c, draws, k, id) {
        assert k > 0 && DrawnAt(c, draws[1..], k - 1, id);
        assert Drawn(c, draws[1..], attempts - 1, id);
      }
    }
  }

  lemma DrawnOnce(c: Catalogue, draws: seq<Option<Id>>, attempts: nat, id: Id, other: Id)
    requires Drawn(c, draws, attempts, id) && Drawn(c, draws, attempts, other)
    ensures id == other
  {
    var k :| 0 <= k < attempts && DrawnAt(c, draws, k, id);
    var m :| 0 <= m < attempts && DrawnAt(c, draws, m, other);
    assert k == m;
  }

  // ---------------------------------------------------------------- a claimed identity

  /** The identity made ready. */
  ghost function MadeReady(d: Disk, id: Id): Disk
    requires id in d.catalogue.entries
  {
    d.(catalogue := d.catalogue.(
      entries := d.catalogue.entries[id := d.catalogue.entries[id].(ready := true)]))
  }

  /** What preparing gives for a live identity of this context and intent that has no frame yet: the compiler's
      refusal, which gives the claim up; a request that is not this identity's, which changes nothing; or the
      operation compiled, its frame written and the identity ready. */
  ghost predicate CompileGives(d: Disk, q: Preparation, id: Id, e: Disk, r: Result<Answer>)
    requires id in d.catalogue.entries
  {
    var epoch := d.catalogue.entries[id].epoch;
    match q.expand(RequestKey(q.context.principal, epoch, id))
    case Err(error) =>
      r == Err(error) && e == d.(catalogue := d.catalogue.(entries := d.catalogue.entries - {id}))
    case Ok(x) =>
      if !ValidRequest(q.context, id, epoch, x.request, x.fingerprint) then Denied(d, e, r, InvalidRequest)
      else
        var p := Prepared(q.context, q.intent, x.request, x.fingerprint, x.created);
        && e == MadeReady(d, id).(children := d.children[id := Child(Some(p), None)])
        && r == Ok(Returned(Operation(id, q.context, q.intent.name, q.intent.version, x.request, x.fingerprint,
                                      x.created, None, None, false)))
  }

  /** And for any live one: only its own context and intent are answered, and once it has a frame the operation
      that holds. */
  ghost predicate LiveGives(env: Env, d: Disk, q: Preparation, id: Id, e: Disk, r: Result<Answer>)
    requires id in d.catalogue.entries
  {
    var entry := d.catalogue.entries[id];
    if entry.context != q.context then Denied(d, e, r, ContextMismatch)
    else if env.digest(q.intent) != Some(entry.intent) then Denied(d, e, r, IntentConflict)
    else if !Framed(d, id) then CompileGives(d, q, id, e, r)
    else if d.children[id].prepared.value.intent != q.intent then Denied(d, e, r, IntentConflict)
    else e == MadeReady(d, id) && r == Ok(Returned(OperationIn(d, id)))
  }

  lemma ReadySaves(env: Env, d: Disk, id: Id)
    requires Inv(env, d) && id in d.catalogue.entries
    ensures Fault(env.limits, WithReady(d.catalogue, id)) == None
    ensures Apply(env, d, SaveReady(id)) == MadeReady(d, id)
    ensures d.catalogue.entries[id].ready ==> MadeReady(d, id) == d
  {
    var c, t := d.catalogue, WithReady(d.catalogue, id);
    assert Fault(env.limits, c) == None;
    hide Inv, Fault;
    assert t.entries.Keys == c.entries.Keys;
    SameSaves(env.limits, c, t);
  }

  /** A catalogue with the same live identities, each of the same context and epoch, may be saved as well. */
  lemma SameSaves(l: Limits, c: Catalogue, t: Catalogue)
    requires Fault(l, c) == None && t == c.(entries := t.entries) && t.entries.Keys == c.entries.Keys
    requires forall x :: x in t.entries ==>
      t.entries[x].context == c.entries[x].context && t.entries[x].epoch == c.entries[x].epoch
      && t.entries[x].retirable == c.entries[x].retirable
    ensures Fault(l, t) == None
  {
    assert |t.entries| == |t.entries.Keys| == |c.entries.Keys| == |c.entries|;
    assert forall x :: x in c.entries ==> ValidContext(c.entries[x].context);
    hide Reserved, ValidContext;
  }

  lemma PresentExactly(env: Env, d: Disk, id: Id)
    requires Inv(env, d) && id in d.catalogue.entries && Framed(d, id)
    ensures Present(env, d, id, d.children[id].prepared.value) == Run([], Ok(Returned(OperationIn(d, id))))
    ensures OperationIn(MadeReady(d, id), id) == OperationIn(d, id)
    ensures Present(env, MadeReady(d, id), id, d.children[id].prepared.value) ==
      Run([], Ok(Returned(OperationIn(d, id))))
  {
    JournalReads(env, d, id);
    ReadyIsFramed(env, d, id);
    assert ReadJournal(MadeReady(d, id), id) == ReadJournal(d, id);
    hide Inv, Fits, Fault;
  }

  lemma SettleExactly(env: Env, d: Disk, q: Preparation, id: Id)
    requires Inv(env, d) && AsksFor(env, d, q, id) && Framed(d, id)
    ensures var run := Settle(env, d, q, id, d.children[id].prepared.value); var e := After(env, d, run.writes);
      LiveGives(env, d, q, id, e, run.answer)
  {
    ReadyIsFramed(env, d, id);
    ReadySaves(env, d, id);
    PresentExactly(env, d, id);
    AfterOne(env, d, SaveReady(id));
    hide Inv, Fault, ValidPrepared, Present, OperationIn, Apply, MadeReady, WithReady;
    assert [SaveReady(id)] + [] == [SaveReady(id)];
  }

  lemma FramedExactly(env: Env, d: Disk, q: Preparation, id: Id)
    requires Inv(env, d) && AsksFor(env, d, q, id) && Framed(d, id)
    ensures Compile(env, d, q, id) == Settle(env, d, q, id, d.children[id].prepared.value)
  {
    ReadyIsFramed(env, d, id);
    hide Inv, Settle, Fault;
  }

  /** A frame just written: its identity is settled on it. */
  lemma FreshFrame(env: Env, d: Disk, q: Preparation, id: Id, x: Expanded)
    requires Inv(env, d) && AsksFor(env, d, q, id) && !Framed(d, id)
    requires ValidRequest(q.context, id, d.catalogue.entries[id].epoch, x.request, x.fingerprint)
    ensures var p := Prepared(q.context, q.intent, x.request, x.fingerprint, x.created);
      var t := After(env, d, FrameWrites(d, id, p));
      && Inv(env, t) && AsksFor(env, t, q, id) && Framed(t, id) && t.children[id] == Child(Some(p), None)
      && t == d.(children := d.children[id := Child(Some(p), None)])
  {
    var p := Prepared(q.context, q.intent, x.request, x.fingerprint, x.created);
    ReadyIsFramed(env, d, id);
    FrameAllowed(env, d, id, p);
    WritesKeepInv(env, d, FrameWrites(d, id, p));
    AfterFrame(env, d, id, p);
    hide Inv, FrameWrites, After, Fits, ValidRequest;
  }

  lemma CompiledExactly(env: Env, d: Disk, q: Preparation, id: Id, x: Expanded)
    requires Inv(env, d) && AsksFor(env, d, q, id) && !Framed(d, id)
    requires q.expand(RequestKey(q.context.principal, d.catalogue.entries[id].epoch, id)) == Ok(x)
    requires ValidRequest(q.context, id, d.catalogue.entries[id].epoch, x.request, x.fingerprint)
    ensures var run := Compile(env, d, q, id); CompileGives(d, q, id, After(env, d, run.writes), run.answer)
  {
    var p := Prepared(q.context, q.intent, x.request, x.fingerprint, x.created);
    var t := After(env, d, FrameWrites(d, id, p));
    FreshFrame(env, d, q, id, x);
    SettleExactly(env, t, q, id);
    AfterConcat(env, d, FrameWrites(d, id, p), Settle(env, t, q, id, p).writes);
    ReadyIsFramed(env, d, id);
    hide Inv, After, Settle, FrameWrites, ValidRequest, Fault;
  }

  /** A catalogue with one live identity fewer, and otherwise one that may be, may be saved. */
  lemma FewerSaves(l: Limits, c: Catalogue, t: Catalogue, id: Id)
    requires Fault(l, c) == None && id in c.entries && t.entries == c.entries - {id} && t.limits == c.limits
    requires t.floor == c.floor && t.generation == c.generation
    requires 0 !in t.retired && t.entries.Keys !! t.retired.Keys && |t.retired| <= l.maxOperations
    ensures Fault(l, t) == None && |t.entries| == |c.entries| - 1 && FitsOneMore(l, |t.entries|)
  {
    assert t.entries.Keys == c.entries.Keys - {id};
    assert |t.entries| == |t.entries.Keys| == |c.entries.Keys| - 1 && |c.entries| == |c.entries.Keys|;
    ReservedMonotone(|t.entries|, |c.entries|);
    hide Reserved, ValidContext;
  }

  lemma ReleaseSaves(env: Env, d: Disk, id: Id)
    requires Inv(env, d) && id in d.catalogue.entries
    ensures Fault(env.limits, WithRelease(d.catalogue, id)) == None
  {
    assert Fault(env.limits, d.catalogue) == None;
    hide Inv, Fault;
    FewerSaves(env.limits, d.catalogue, WithRelease(d.catalogue, id), id);
  }

  lemma CompileExactly(env: Env, d: Disk, q: Preparation, id: Id)
    requires Inv(env, d) && AsksFor(env, d, q, id)
    ensures var run := Compile(env, d, q, id); LiveGives(env, d, q, id, After(env, d, run.writes), run.answer)
  {
    ReadyIsFramed(env, d, id);
    if Framed(d, id) {
      FramedExactly(env, d, q, id);
      SettleExactly(env, d, q, id);
    } else {
      var key := RequestKey(q.context.principal, d.catalogue.entries[id].epoch, id);
      if q.expand(key).Err? {
        ReleaseSaves(env, d, id);
        AfterOne(env, d, SaveRelease(id));
        hide Inv, Fault, After;
      } else if ValidRequest(q.context, id, key.epoch, q.expand(key).value.request, q.expand(key).value.fingerprint) {
        hide Inv, Compile, CompileGives, After;
        CompiledExactly(env, d, q, id, q.expand(key).value);
      }
    }
  }

  // ---------------------------------------------------------------- a fresh claim

  /** One operation more still fits. */
  predicate FitsOneMore(l: Limits, operations: nat) {
    operations + 1 <= l.maxOperations && Reserved(operations + 1) <= l.maxReservedBytes
  }

  lemma FullExactly(l: Limits, operations: nat)
    ensures Full(l, operations) <==> !FitsOneMore(l, operations)
  {
  }

  /** Of the live identities whose result was reported, the one reported longest ago. */
  ghost predicate LongestReported(entries: map<Id, Entry>, id: Id) {
    && id in entries && entries[id].retirable.Some?
    && forall x :: x in entries && entries[x].retirable.Some? ==>
         || entries[id].retirable.value < entries[x].retirable.value
         || (entries[id].retirable == entries[x].retirable && id <= x)
  }

  lemma LongestIsLeast(entries: map<Id, Entry>, id: Id)
    ensures LongestReported(entries, id) <==> IsLeast(Reports(entries), id)
  {
    assert forall x :: x in Reports(entries) <==> x in entries && entries[x].retirable.Some?;
  }

  /** How an identity with a result retires. */
  ghost function OutcomeIn(env: Env, d: Disk, id: Id): Outcome {
    var receipt := JournalIn(d, id).receipt;
    if receipt.Some? then CommittedAt(env.receiptDigest(receipt.value), receipt.value.sequence) else ClosedByRefusal
  }

  /** `b` is `d` with `oldest` retired: its directory is gone, and of those retired the newest that fit stay. */
  ghost predicate Retires(env: Env, d: Disk, oldest: Id, b: Disk)
    requires oldest in d.catalogue.entries
  {
    var c, entry := d.catalogue, d.catalogue.entries[oldest];
    var gone := Retired(entry.intent, OutcomeIn(env, d, oldest), c.retiredNext, entry.epoch);
    && b.children == d.children - {oldest}
    && b.catalogue == c.(entries := c.entries - {oldest}, retiredNext := c.retiredNext + 1,
                         retired := b.catalogue.retired)
    && NewestOf(c.retired[oldest := gone], b.catalogue.retired, env.limits.maxOperations)
  }

  /** Room for one more: there is, or the one reported longest ago retires. */
  ghost predicate HasRoom(env: Env, d: Disk, b: Disk) {
    if FitsOneMore(env.limits, |d.catalogue.entries|) then b == d
    else exists oldest :: LongestReported(d.catalogue.entries, oldest) && Retires(env, d, oldest, b)
  }

  /** No room and none to be made. */
  ghost predicate Packed(env: Env, d: Disk) {
    && !FitsOneMore(env.limits, |d.catalogue.entries|)
    && (|| d.catalogue.retiredNext >= U64_MAX
        || forall x :: x in d.catalogue.entries ==> d.catalogue.entries[x].retirable.None?)
  }

  lemma RetiredSaves(env: Env, d: Disk, oldest: Id, outcome: Outcome)
    requires Inv(env, d) && oldest in d.catalogue.entries
    ensures Fault(env.limits, WithRetired(env.limits, d.catalogue, oldest, outcome)) == None
    ensures |d.catalogue.entries - {oldest}| == |d.catalogue.entries| - 1
    ensures FitsOneMore(env.limits, |d.catalogue.entries - {oldest}|)
  {
    var c := d.catalogue;
    var t := WithRetired(env.limits, c, oldest, outcome);
    assert Fault(env.limits, c) == None && t.limits == c.limits;
    RetirementIs(env, d, oldest, outcome);
    assert t == Apply(env, d, SaveRetired(oldest, outcome)).catalogue;
    hide Inv, Fault, Evicted, WithRetired, FitsOneMore;
    FewerSaves(env.limits, c, t, oldest);
  }

  lemma RetiresExactly(env: Env, d: Disk, oldest: Id)
    requires Inv(env, d) && oldest in d.catalogue.entries
    ensures var outcome := OutcomeIn(env, d, oldest);
      Retires(env, d, oldest, Apply(env, Apply(env, d, SaveRetired(oldest, outcome)), RemoveChild(oldest)))
  {
    var c, entry := d.catalogue, d.catalogue.entries[oldest];
    var gone := Retired(entry.intent, OutcomeIn(env, d, oldest), c.retiredNext, entry.epoch);
    EvictedNewest(c.retired[oldest := gone], env.limits.maxOperations);
    hide Inv, Evicted, OutcomeIn, NewestOf;
  }

  lemma RoomExactly(env: Env, d: Disk)
    requires Inv(env, d)
    ensures var run := MakeRoom(env, d); var b := After(env, d, run.writes);
      if Packed(env, d) then Denied(d, b, run.answer, Capacity)
      else run.answer == Ok(Recorded) && HasRoom(env, d, b)
  {
    var c := d.catalogue;
    FullExactly(env.limits, |c.entries|);
    if !FitsOneMore(env.limits, |c.entries|) {
      if x :| x in c.entries && c.entries[x].retirable.Some? {
        assert x in Reports(c.entries);
        hide Inv, MakeRoom, Fault, Retires, After, Full, FitsOneMore;
        RetiringExactly(env, d);
      } else {
        assert Reports(c.entries) == map[];
        hide Inv, Fault, After, FitsOneMore;
        AfterNone(env, d);
      }
    }
  }

  lemma RetiringExactly(env: Env, d: Disk)
    requires Inv(env, d) && Full(env.limits, |d.catalogue.entries|) && Reports(d.catalogue.entries) != map[]
    ensures var run := MakeRoom(env, d); var b := After(env, d, run.writes);
      if d.catalogue.retiredNext >= U64_MAX then Denied(d, b, run.answer, Capacity)
      else
        && run.answer == Ok(Recorded)
        && exists oldest :: LongestReported(d.catalogue.entries, oldest) && Retires(env, d, oldest, b)
  {
    var c, oldest := d.catalogue, Least(Reports(d.catalogue.entries));
    var outcome := OutcomeIn(env, d, oldest);
    LongestIsLeast(c.entries, oldest);
    JournalReads(env, d, oldest);
    RetiredSaves(env, d, oldest, outcome);
    RetiresExactly(env, d, oldest);
    FullExactly(env.limits, |c.entries - {oldest}|);
    AfterTwo(env, d, SaveRetired(oldest, outcome), RemoveChild(oldest));
    AfterNone(env, d);
    assert WithRetired(env.limits, c, oldest, outcome).entries == c.entries - {oldest};
    hide Inv, Fault, Apply, Retires, Evicted, After, Full, FitsOneMore, WithRetired, LongestReported;
    assert OutcomeOf(env, ReadJournal(d, oldest).value) == outcome;
  }

  /** The identity claimed: in the generation it is issued in, which the claim opens once half the occupancy was
      issued in the one before and the floor stands there. */
  ghost function Claimed(l: Limits, d: Disk, context: Context, intent: Hash, id: Id): Disk {
    var c := d.catalogue;
    var opens := c.issued >= l.maxOperations / 2 && c.floor == c.generation;
    var generation := if opens then c.generation + 1 else c.generation;
    var issued := if opens then 1 else if c.issued + 1 <= U32_MAX then c.issued + 1 else U32_MAX;
    d.(catalogue := c.(generation := generation, issued := issued,
                       entries := c.entries[id := Entry(context, intent, false, None, generation)]))
  }

  /** What preparing an identity that is neither live nor retired gives, once there is room for it. */
  ghost predicate ClaimGives(env: Env, d: Disk, q: Preparation, intent: Hash, id: Id, e: Disk, r: Result<Answer>) {
    var c := d.catalogue;
    if id in d.children then Denied(d, e, r, Corrupt)
    else if c.issued >= env.limits.maxOperations / 2 && c.floor == c.generation >= U64_MAX then
      Denied(d, e, r, Capacity)
    else if id == 0 then Denied(d, e, r, Corrupt)
    else CompileGives(Claimed(env.limits, d, q.context, intent, id), q, id, e, r)
  }

  lemma ClaimSaves(env: Env, d: Disk, context: Context, intent: Hash, id: Id)
    requires Inv(env, d) && id !in d.catalogue.entries && id !in d.catalogue.retired && ValidContext(context)
    requires FitsOneMore(env.limits, |d.catalogue.entries|)
    ensures var t := WithClaim(env.limits, d.catalogue, id, context, intent);
      && Fault(env.limits, t) == (if id == 0 then Some(Corrupt) else None)
      && Apply(env, d, SaveClaim(id, context, intent)) == Claimed(env.limits, d, context, intent, id)
  {
    var c, t := d.catalogue, WithClaim(env.limits, d.catalogue, id, context, intent);
    assert Fault(env.limits, c) == None;
    hide Inv, Fault, FitsOneMore, ValidContext;
    MoreSaves(env.limits, c, t, id);
  }

  /** A catalogue with one live identity more, for which there is room, may be saved unless that is no identity. */
  lemma MoreSaves(l: Limits, c: Catalogue, t: Catalogue, id: Id)
    requires Fault(l, c) == None && id !in c.entries && id !in c.retired && FitsOneMore(l, |c.entries|)
    requires id in t.entries && t.entries == c.entries[id := t.entries[id]] && ValidContext(t.entries[id].context)
    requires c.generation <= t.generation && 1 <= t.entries[id].epoch <= t.generation
    requires t.limits == c.limits && t.floor == c.floor && t.retired == c.retired
    ensures Fault(l, t) == if id == 0 then Some(Corrupt) else None
  {
    OneKeyMore(c.entries, t.entries, id);
    MoreCoheres(l, c, t, id);
    assert forall x :: x in c.entries ==> ValidContext(c.entries[x].context);
    hide Reserved, ValidContext, Coherent;
  }

  lemma OneKeyMore(a: map<Id, Entry>, b: map<Id, Entry>, id: Id)
    requires id !in a && id in b && b == a[id := b[id]]
    ensures |b| == |a| + 1
  {
    assert b.Keys == a.Keys + {id};
    assert |b| == |b.Keys| && |a| == |a.Keys|;
  }

  lemma MoreCoheres(l: Limits, c: Catalogue, t: Catalogue, id: Id)
    requires Coherent(l, c) && id !in c.retired && id in t.entries && t.entries == c.entries[id := t.entries[id]]
    requires c.generation <= t.generation && 1 <= t.entries[id].epoch <= t.generation
    requires t.floor == c.floor && t.retired == c.retired
    ensures Coherent(l, t) <==> id != 0
  {
  }

  lemma ClaimExactly(env: Env, d: Disk, q: Preparation, intent: Hash, id: Id)
    requires Inv(env, d) && id !in d.catalogue.entries && id !in d.catalogue.retired && ValidContext(q.context)
    requires env.digest(q.intent) == Some(intent) && FitsOneMore(env.limits, |d.catalogue.entries|)
    ensures var run := ClaimAndCompile(env, d, q, id, intent); var e := After(env, d, run.writes);
      ClaimGives(env, d, q, intent, id, e, run.answer)
  {
    ClaimSaves(env, d, q.context, intent, id);
    var w, t := SaveClaim(id, q.context, intent), Claimed(env.limits, d, q.context, intent, id);
    if Claim(env, d, id, q.context, intent).answer.Ok? {
      assert Inv(env, t) && AsksFor(env, t, q, id) && !Framed(t, id) by {
        assert Allowed(env, d, w);
        WriteKeepsInv(env, d, w);
      }
      hide Inv, Fault, Compile, Apply, After, CompileGives, WithClaim;
      CompileExactly(env, t, q, id);
      AfterOne(env, d, w);
      AfterConcat(env, d, [w], Compile(env, t, q, id).writes);
    } else {
      hide Inv, Fault, Compile, Apply;
    }
  }

  // ---------------------------------------------------------------- preparing

  /** The identity a preparation is of: the one asked for, or the first free one drawn. */
  ghost predicate Chooses(c: Catalogue, q: Preparation, id: Id) {
    if q.operation.Some? then id == q.operation.value else Drawn(c, q.draws, MINT_ATTEMPTS, id)
  }

  /** What preparing one identity gives. */
  ghost predicate PrepareOneGives(env: Env, d: Disk, q: Preparation, id: Id, intent: Hash, e: Disk, r: Result<Answer>) {
    if id in d.catalogue.retired then Denied(d, e, r, RetiredOperation)
    else if id in d.catalogue.entries then LiveGives(env, d, q, id, e, r)
    else if Packed(env, d) then Denied(d, e, r, Capacity)
    else exists b :: HasRoom(env, d, b) && ClaimGives(env, b, q, intent, id, e, r)
  }

  /** What preparing gives, exactly. */
  ghost predicate PrepareGives(env: Env, d: Disk, q: Preparation, e: Disk, r: Result<Answer>) {
    if !ValidContext(q.context) then Denied(d, e, r, ContextMismatch)
    else if env.digest(q.intent).None? then Denied(d, e, r, InvalidIntent)
    else if forall id :: !Chooses(d.catalogue, q, id) then Denied(d, e, r, Expansion)
    else forall id :: Chooses(d.catalogue, q, id) ==> PrepareOneGives(env, d, q, id, env.digest(q.intent).value, e, r)
  }

  lemma FreshExactly(env: Env, d: Disk, q: Preparation, id: Id, intent: Hash)
    requires Inv(env, d) && id !in d.catalogue.retired && id !in d.catalogue.entries
    requires ValidContext(q.context) && env.digest(q.intent) == Some(intent)
    ensures var run := PrepareAs(env, d, q, id, intent);
      PrepareOneGives(env, d, q, id, intent, After(env, d, run.writes), run.answer)
  {
    var room := MakeRoom(env, d);
    var b := After(env, d, room.writes);
    RoomExactly(env, d);
    if !Packed(env, d) {
      RoomLeaves(env, d, id);
      hide Inv, MakeRoom, ClaimAndCompile, After, Packed, HasRoom, ClaimGives;
      ClaimExactly(env, b, q, intent, id);
      AfterConcat(env, d, room.writes, ClaimAndCompile(env, b, q, id, intent).writes);
    }
  }

  /** Making room leaves room, and an identity that was neither live nor retired so. */
  lemma RoomLeaves(env: Env, d: Disk, id: Id)
    requires Inv(env, d) && !Packed(env, d) && id !in d.catalogue.retired && id !in d.catalogue.entries
    ensures var b := After(env, d, MakeRoom(env, d).writes);
      && Inv(env, b) && id !in b.catalogue.entries && id !in b.catalogue.retired
      && FitsOneMore(env.limits, |b.catalogue.entries|)
  {
    RoomExactly(env, d);
    MakeRoomAllowed(env, d);
    WritesKeepInv(env, d, MakeRoom(env, d).writes);
    var b := After(env, d, MakeRoom(env, d).writes);
    hide Inv, MakeRoom, After, FitsOneMore, OutcomeIn, NewestOf;
    if !FitsOneMore(env.limits, |d.catalogue.entries|) {
      var oldest :| LongestReported(d.catalogue.entries, oldest) && Retires(env, d, oldest, b);
      RetiredSaves(env, d, oldest, OutcomeIn(env, d, oldest));
    }
  }

  lemma PrepareOneExactly(env: Env, d: Disk, q: Preparation, id: Id, intent: Hash)
    requires Inv(env, d) && id !in d.catalogue.retired
    requires ValidContext(q.context) && env.digest(q.intent) == Some(intent)
    ensures var run := PrepareAs(env, d, q, id, intent);
      PrepareOneGives(env, d, q, id, intent, After(env, d, run.writes), run.answer)
  {
    hide Inv, Compile, CompileGives, ClaimGives, MakeRoom, ClaimAndCompile, Packed, HasRoom;
    if id !in d.catalogue.entries {
      FreshExactly(env, d, q, id, intent);
    } else if AsksFor(env, d, q, id) {
      CompileExactly(env, d, q, id);
    }
  }

  lemma PrepareExactly(env: Env, d: Disk, q: Preparation)
    requires Inv(env, d)
    ensures var run := Prepare(env, d, q); PrepareGives(env, d, q, After(env, d, run.writes), run.answer)
  {
    MintExactly(d.catalogue, q.draws, MINT_ATTEMPTS);
    assert Fault(env.limits, d.catalogue) == None;
    hide Inv, PrepareAs, Mint, Drawn, LiveGives, Packed, HasRoom, ClaimGives, Fault;
    if ValidContext(q.context) && env.digest(q.intent).Some? {
      var chosen := if q.operation.Some? then Ok(q.operation.value) else Mint(d.catalogue, q.draws, MINT_ATTEMPTS);
      if chosen.Ok? {
        ChosenOnce(d.catalogue, q, chosen.value);
        if chosen.value !in d.catalogue.retired {
          PrepareOneExactly(env, d, q, chosen.value, env.digest(q.intent).value);
        }
      }
    }
  }

  lemma ChosenOnce(c: Catalogue, q: Preparation, id: Id)
    requires Chooses(c, q, id)
    ensures forall x :: Chooses(c, q, x) ==> x == id
  {
    hide Drawn;
    forall x | Chooses(c, q, x)
      ensures x == id
    {
      if q.operation.None? {
        DrawnOnce(c, q.draws, MINT_ATTEMPTS, id, x);
      }
    }
  }

  /** What a fresh claim is compiled to, if the catalogue has a generation to issue it in. */
  ghost function FreshRequest(l: Limits, c: Catalogue, q: Preparation, id: Id): Option<Operation> {
    var opens := c.issued >= l.maxOperations / 2 && c.floor == c.generation;
    var epoch := if opens then c.generation + 1 else c.generation;
    var x := q.expand(RequestKey(q.context.principal, epoch, id));
    if (opens && c.generation >= U64_MAX) || x.Err?
       || !ValidRequest(q.context, id, epoch, x.value.request, x.value.fingerprint)
    then None
    else Some(Operation(id, q.context, q.intent.name, q.intent.version, x.value.request, x.value.fingerprint,
                        x.value.created, None, None, false))
  }

  /** A preparation of a fresh identity answers exactly if there is room or some can be made, there is a generation to
      issue it in, and the compiler answers a request of this identity: that request, which is then ready. */
  lemma FreshAnswersWhen(env: Env, d: Disk, q: Preparation, id: Id)
    requires Inv(env, d) && ValidContext(q.context) && env.digest(q.intent).Some? && q.operation == Some(id)
    requires Free(d.catalogue, id) && id !in d.children
    ensures var run := Prepare(env, d, q); var op := FreshRequest(env.limits, d.catalogue, q, id);
      && (run.answer.Ok? <==> !Packed(env, d) && op.Some?)
      && (run.answer.Ok? ==> run.answer == Ok(Returned(op.value)) && ReadyLive(After(env, d, run.writes), id))
  {
    hide Inv, Prepare, After, Packed, HasRoom, ClaimGives, FreshRequest, ReadyLive, LiveGives;
    PrepareExactly(env, d, q);
    var run := Prepare(env, d, q);
    var e, intent := After(env, d, run.writes), env.digest(q.intent).value;
    assert Chooses(d.catalogue, q, id);
    assert PrepareOneGives(env, d, q, id, intent, e, run.answer);
    if !Packed(env, d) {
      var b :| HasRoom(env, d, b) && ClaimGives(env, b, q, intent, id, e, run.answer);
      RoomKeepsGenerations(env, d, b, id);
      ClaimAnswersWhen(env, d.catalogue, b, q, intent, id, e, run.answer);
    }
  }

  lemma RoomKeepsGenerations(env: Env, d: Disk, b: Disk, id: Id)
    requires HasRoom(env, d, b) && id !in d.children
    ensures id !in b.children && b.catalogue.issued == d.catalogue.issued
    ensures b.catalogue.floor == d.catalogue.floor && b.catalogue.generation == d.catalogue.generation
  {
    hide NewestOf, OutcomeIn, LongestReported, FitsOneMore;
  }

  lemma ClaimAnswersWhen(env: Env, c: Catalogue, b: Disk, q: Preparation, intent: Hash, id: Id, e: Disk,
                         r: Result<Answer>)
    requires ClaimGives(env, b, q, intent, id, e, r) && id !in b.children && id != 0
    requires c.issued == b.catalogue.issued && c.floor == b.catalogue.floor && c.generation == b.catalogue.generation
    ensures var op := FreshRequest(env.limits, c, q, id);
      && (r.Ok? <==> op.Some?) && (r.Ok? ==> r == Ok(Returned(op.value)) && ReadyLive(e, id))
  {
    hide ValidRequest;
  }

  // ---------------------------------------------------------------- preparing again

  /** Preparing a ready identity again, with its context and the intent its frame is of, writes nothing and answers
      the operation its files hold. */
  lemma PreparedAgain(env: Env, d: Disk, q: Preparation, id: Id)
    requires Inv(env, d) && q.operation == Some(id) && ReadyLive(d, id) && d.catalogue.entries[id].context == q.context
    requires Framed(d, id) ==> d.children[id].prepared.value.intent == q.intent
    ensures Framed(d, id)
    ensures var run := Prepare(env, d, q);
      After(env, d, run.writes) == d && run.answer == Ok(Returned(OperationIn(d, id)))
  {
    hide Prepare, After, Packed, HasRoom, ClaimGives, CompileGives, OperationIn;
    PrepareExactly(env, d, q);
    ReadyIsFramed(env, d, id);
    ReadySaves(env, d, id);
    LiveContext(env, d, id);
    assert Chooses(d.catalogue, q, id);
    assert env.digest(q.intent) == Some(d.catalogue.entries[id].intent);
  }

  lemma LiveContext(env: Env, d: Disk, id: Id)
    requires Inv(env, d) && id in d.catalogue.entries
    ensures ValidContext(d.catalogue.entries[id].context) && id !in d.catalogue.retired
  {
  }

  /** A ready identity is ready as long as it is live. */
  lemma {:induction false} ReadyWhileLive(env: Env, d: Disk, events: seq<Event>, i: nat, j: nat, id: Id)
    requires Inv(env, d) && i <= j <= |events| && ReadyLive(At(env, d, events, i), id)
    requires forall k :: i <= k <= j ==> id in At(env, d, events, k).catalogue.entries
    ensures ReadyLive(At(env, d, events, j), id)
    decreases j
  {
    hide Inv, Step, At;
    if i < j {
      ReadyWhileLive(env, d, events, i, j - 1, id);
      RunsKeepInv(env, d, events[..j - 1]);
      AtIs(env, d, events, j - 1);
      AtNext(env, d, events, j - 1);
      StepReady(env, At(env, d, events, j - 1), events[j - 1], id);
    }
  }

  lemma StepReady(env: Env, d: Disk, ev: Event, id: Id)
    requires Inv(env, d) && ReadyLive(d, id) && id in Step(env, d, ev).catalogue.entries
    ensures ReadyLive(Step(env, d, ev), id)
  {
    hide Inv, Step, ReadyLive;
    StepAllowed(env, d, ev);
    StepReadyOnlyRetires(env, d, ev, id);
    LiveContext(env, Step(env, d, ev), id);
  }

  /** A preparation that answered left the identity ready, with a frame of its context and intent. */
  lemma AnsweredIsReady(env: Env, d: Disk, q: Preparation, op: Operation)
    requires Inv(env, d) && Prepare(env, d, q).answer == Ok(Returned(op))
    ensures var e := After(env, d, Prepare(env, d, q).writes);
      && ReadyLive(e, op.id) && e.catalogue.entries[op.id].context == q.context && Framed(e, op.id)
      && e.children[op.id].prepared.value.intent == q.intent
  {
    hide Prepare, After, Inv, HasRoom, Packed, Drawn;
    PrepareExactly(env, d, q);
    var e := After(env, d, Prepare(env, d, q).writes);
    var id :| Chooses(d.catalogue, q, id);
    var intent := env.digest(q.intent).value;
    assert PrepareOneGives(env, d, q, id, intent, e, Ok(Returned(op)));
    if id !in d.catalogue.entries {
      var b :| HasRoom(env, d, b) && ClaimGives(env, b, q, intent, id, e, Ok(Returned(op)));
    }
  }

  /** So once a preparation answered an operation, preparing that identity again with the same context and intent
      writes nothing and answers the same one, through any calls and crashes, as long as it is live. */
  lemma AnswersAgain(env: Env, d: Disk, events: seq<Event>, i: nat, j: nat, q: Preparation, op: Operation,
                     again: Preparation)
    requires Inv(env, d) && i < j <= |events| && events[i] == Event(Preparing(q), None)
    requires Returns(env, At(env, d, events, i), events[i], op)
    requires forall k :: i < k <= j ==> op.id in At(env, d, events, k).catalogue.entries
    requires again.operation == Some(op.id) && again.context == q.context && again.intent == q.intent
    ensures var e := At(env, d, events, j); var run := Prepare(env, e, again);
      && After(env, e, run.writes) == e && run.answer.Ok? && run.answer.value.Returned?
      && run.answer.value.operation.id == op.id && SameFrame(op, run.answer.value.operation)
  {
    hide Inv, Step, At, Prepare, After, Shows, OnlyFor;
    RunsKeepInv(env, d, events[..i]);
    AtIs(env, d, events, i);
    AtNext(env, d, events, i);
    var before, after, e := At(env, d, events, i), At(env, d, events, i + 1), At(env, d, events, j);
    AnsweredIsReady(env, before, q, op);
    StepWhole(env, before, Preparing(q));
    AnswersShowFiles(env, before, events[i], op);
    var p := after.children[op.id].prepared.value;
    FrameIsOnly(env, after, op);
    RunsKeepInv(env, d, events[..i + 1]);
    AtIs(env, d, events, i + 1);
    StillFramed(env, after, op.id, p);
    ReadyWhileLive(env, d, events, i + 1, j, op.id);
    RunKeepsFrame(env, d, events, i + 1, j, op.id, p);
    RunsKeepInv(env, d, events[..j]);
    AtIs(env, d, events, j);
    StillFramed(env, e, op.id, p);
    PreparedAgain(env, e, again, op.id);
  }

  lemma StepWhole(env: Env, d: Disk, call: Call)
    ensures Step(env, d, Event(call, None)) == After(env, d, RunOf(env, d, call).writes)
  {
  }

  lemma FrameIsOnly(env: Env, d: Disk, op: Operation)
    requires Shows(env, d, op)
    ensures Framed(d, op.id)
    ensures var p := d.children[op.id].prepared.value; OnlyFor(d, op.id, p) && Agrees(op, p)
  {
  }

  lemma StillFramed(env: Env, d: Disk, id: Id, p: Prepared)
    requires Inv(env, d) && ReadyLive(d, id) && OnlyFor(d, id, p)
    ensures Framed(d, id) && d.children[id].prepared == Some(p) && d.catalogue.entries[id].context == p.context
  {
    LiveContext(env, d, id);
    ReadyIsFramed(env, d, id);
  }
}
