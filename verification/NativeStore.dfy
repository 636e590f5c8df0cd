/**
 The native operation store as it works: its files updated in place, one durable write at a time.
 Each method is proved to make exactly the writes, and give exactly the answer, its specification
 in `NativeCalls` states, from whatever the files hold; and from files that meet the invariant, to
 keep it and to give what its answer says.
 */
module NativeStore {
  import opened Basics
  import opened NativeModel
  import opened NativeCalls
  import opened NativeSafety
  import opened NativeExact
  import opened NativeAnswers
  import NativeRuns
  import Theorems = NativeTheorems
  import Spec = NativeCalls

  class NativeOperationStore {
    const env: Env
    var catalogue: Catalogue
    var children: map<Id, Child>
    /** The durable writes made, in order. */
    ghost var made: seq<Write>

    ghost function Files(): Disk
      reads this
    {
      Disk(catalogue, children)
    }

    /** From `before`, with `past` made already, the store made exactly `run`'s writes. */
    ghost predicate Ran(before: Disk, past: seq<Write>, run: Run, answer: Result<Answer>)
      reads this
    {
      made == past + run.writes && Files() == After(env, before, run.writes) && answer == run.answer
    }

    constructor Create(e: Env)
      requires ValidLimits(e.limits)
      ensures env == e && made == [] && children == map[]
      ensures catalogue == Catalogue(e.limits, map[], map[], 0, 1, 1, 0) && Inv(env, Files())
    {
      env := e;
      catalogue := Catalogue(e.limits, map[], map[], 0, 1, 1, 0);
      children, made := map[], [];
      new;
      Theorems.FreshOk(e);
    }

    // -------------------------------------------------------------- single writes

    /** Replaces the catalogue record; `w` says what the save means. */
    method Replace(c: Catalogue, ghost w: Write)
      requires Apply(env, Files(), w) == Files().(catalogue := c)
      modifies `catalogue, `made
      ensures Files() == Apply(env, old(Files()), w) && made == old(made) + [w]
    {
      catalogue := c;
      made := made + [w];
    }

    /** Changes one identity's directory; `w` says how. */
    method Install(id: Id, child: Child, ghost w: Write)
      requires Apply(env, Files(), w) == Files().(children := children[id := child])
      modifies `children, `made
      ensures Files() == Apply(env, old(Files()), w) && made == old(made) + [w]
    {
      children := children[id := child];
      made := made + [w];
    }

    method Remove(id: Id)
      modifies `children, `made
      ensures Files() == Apply(env, old(Files()), RemoveChild(id)) && made == old(made) + [RemoveChild(id)]
    {
      children := children - {id};
      made := made + [RemoveChild(id)];
    }

    // -------------------------------------------------------------- loops

    /** Keeps as many as fit, unchanged: each kept was retired after each evicted, by order and then identity. */
    method Evict(retired: map<Id, Retired>, bound: nat) returns (kept: map<Id, Retired>)
      ensures kept == Evicted(retired, bound) && NewestOf(retired, kept, bound)
    {
      EvictedNewest(retired, bound);
      kept := retired;
      while |kept| > bound
        invariant Evicted(kept, bound) == Evicted(retired, bound)
        decreases |kept|
      {
        assert Orders(kept) != map[] by { assert |Orders(kept).Keys| == |kept.Keys|; }
        var oldest := FindLeast(Orders(kept));
        LeastUnique(Orders(kept), oldest.value, Least(Orders(kept)));
        assert (kept - {oldest.value}).Keys == kept.Keys - {oldest.value};
        kept := kept - {oldest.value};
      }
    }

    /** Draws identities until one is free, sixteen times at most. */
    method Draw(draws: seq<Option<Id>>) returns (r: Result<Id>)
      ensures r == Mint(catalogue, draws, MINT_ATTEMPTS)
      ensures r.Ok? ==> Drawn(catalogue, draws, MINT_ATTEMPTS, r.value)
      ensures r.Err? ==> r == Err(Expansion) && forall id :: !Drawn(catalogue, draws, MINT_ATTEMPTS, id)
    {
      MintExactly(catalogue, draws, MINT_ATTEMPTS);
      hide Drawn;
      var i := 0;
      while i < MINT_ATTEMPTS && i < |draws|
        invariant 0 <= i <= MINT_ATTEMPTS && i <= |draws|
        invariant Mint(catalogue, draws, MINT_ATTEMPTS) == Mint(catalogue, draws[i..], MINT_ATTEMPTS - i)
      {
        var candidate := draws[i];
        assert draws[i..][0] == candidate && draws[i..][1..] == draws[i + 1..];
        if candidate.None? {
          return Err(Expansion);
        }
        if candidate.value != 0 && candidate.value !in catalogue.entries && candidate.value !in catalogue.retired {
          return Ok(candidate.value);
        }
        i := i + 1;
      }
      return Err(Expansion);
    }

    // -------------------------------------------------------------- preparing

    method MakeRoom() returns (r: Result<Answer>)
      modifies `catalogue, `children, `made
      ensures Ran(old(Files()), old(made), Spec.MakeRoom(env, old(Files())), r)
    {
      ghost var d := Files();
      if !Full(env.limits, |catalogue.entries|) {
        return Ok(Recorded);
      }
      var longest := FindLeast(Reports(catalogue.entries));
      if longest.None? {
        return Err(Capacity);
      }
      var oldest := longest.value;
      LeastUnique(Reports(catalogue.entries), oldest, Least(Reports(catalogue.entries)));
      var journal := ReadJournal(Disk(catalogue, children), oldest);
      if journal.Err? {
        return Err(journal.error);
      }
      if catalogue.retiredNext >= U64_MAX {
        return Err(Capacity);
      }
      var outcome := OutcomeOf(env, journal.value);
      var after := Retiring(oldest, outcome);
      hide Fault, WithRetired;
      var fault := Fault(env.limits, after);
      if fault.Some? {
        return Err(fault.value);
      }
      Replace(after, SaveRetired(oldest, outcome));
      Remove(oldest);
      AfterTwo(env, d, SaveRetired(oldest, outcome), RemoveChild(oldest));
      r := if Full(env.limits, |catalogue.entries|) then Err(Capacity) else Ok(Recorded);
    }

    /** The catalogue without the operation, which is the newest of the retired. */
    method Retiring(id: Id, outcome: Outcome) returns (after: Catalogue)
      requires id in catalogue.entries
      ensures after == WithRetired(env.limits, catalogue, id, outcome)
    {
      var entry := catalogue.entries[id];
      var gone := Retired(entry.intent, outcome, catalogue.retiredNext, entry.epoch);
      hide NewestOf;
      var retired := Evict(catalogue.retired[id := gone], env.limits.maxOperations);
      after := catalogue.(entries := catalogue.entries - {id}, retired := retired,
                          retiredNext := catalogue.retiredNext + 1);
    }

    method Claim(id: Id, context: Context, intent: Hash) returns (r: Result<Answer>)
      modifies `catalogue, `made
      ensures Ran(old(Files()), old(made), Spec.Claim(env, old(Files()), id, context, intent), r)
    {
      if id in children {
        return Err(Corrupt);
      }
      var opens := OpensGeneration(env.limits, catalogue);
      if opens && catalogue.generation >= U64_MAX {
        return Err(Capacity);
      }
      var c := WithClaim(env.limits, catalogue, id, context, intent);
      r := Save(c, SaveClaim(id, context, intent), Ok(Recorded));
    }

    /** Saves the catalogue if it is one that may be. */
    method Save(c: Catalogue, ghost w: Write, answer: Result<Answer>) returns (r: Result<Answer>)
      requires Apply(env, Files(), w) == Files().(catalogue := c)
      modifies `catalogue, `made
      ensures Ran(old(Files()), old(made), Spec.Save(env, c, w, answer), r)
    {
      var fault := Fault(env.limits, c);
      if fault.Some? {
        return Err(fault.value);
      }
      AfterOne(env, Files(), w);
      Replace(c, w);
      r := answer;
    }

    method Settle(q: Preparation, id: Id, p: Prepared) returns (r: Result<Answer>)
      requires id in catalogue.entries
      modifies `catalogue, `made
      ensures Ran(old(Files()), old(made), Spec.Settle(env, old(Files()), q, id, p), r)
    {
      var entry := catalogue.entries[id];
      if !Matches(p, q.context, entry.epoch) {
        return Err(ContextMismatch);
      }
      if p.intent != q.intent {
        return Err(IntentConflict);
      }
      if !entry.ready {
        r := Save(WithReady(catalogue, id), SaveReady(id), Ok(Recorded));
        if r.Err? {
          return;
        }
        assert [SaveReady(id)] + [] == [SaveReady(id)];
        AfterOne(env, old(Files()), SaveReady(id));
      }
      r := Present(env, Disk(catalogue, children), id, p).answer;
    }

    method Compile(q: Preparation, id: Id) returns (r: Result<Answer>)
      requires id in catalogue.entries
      modifies `catalogue, `children, `made
      ensures Ran(old(Files()), old(made), Spec.Compile(env, old(Files()), q, id), r)
    {
      ghost var d, past := Files(), made;
      var entry := catalogue.entries[id];
      if entry.ready || Framed(Disk(catalogue, children), id) {
        var p := ReadPrepared(env, Disk(catalogue, children), id, entry.ready);
        if p.Err? {
          return Err(p.error);
        }
        r := Settle(q, id, p.value);
        return;
      }
      var expanded := q.expand(RequestKey(q.context.principal, entry.epoch, id));
      if expanded.Err? {
        r := Save(WithRelease(catalogue, id), SaveRelease(id), Err(expanded.error));
        return;
      }
      if !ValidRequest(q.context, id, entry.epoch, expanded.value.request, expanded.value.fingerprint) {
        return Err(InvalidRequest);
      }
      var x := expanded.value;
      var p := Prepared(q.context, q.intent, x.request, x.fingerprint, x.created);
      WriteFrame(id, p);
      ghost var framed := Files();
      r := Settle(q, id, p);
      AfterConcat(env, d, FrameWrites(d, id, p), Spec.Settle(env, framed, q, id, p).writes);
    }

    /** Writes the prepared record, making its directory first where there is none. */
    method WriteFrame(id: Id, p: Prepared)
      modifies `children, `made
      ensures made == old(made) + FrameWrites(old(Files()), id, p)
      ensures Files() == After(env, old(Files()), FrameWrites(old(Files()), id, p)) && catalogue == old(catalogue)
    {
      ghost var d := Files();
      AfterFrame(env, d, id, p);
      if id !in children {
        Install(id, Child(None, None), CreateChild(id));
      }
      Install(id, children[id].(prepared := Some(p)), PutPrepared(id, p));
    }

    method Prepare(q: Preparation) returns (r: Result<Answer>)
      modifies `catalogue, `children, `made
      ensures Ran(old(Files()), old(made), Spec.Prepare(env, old(Files()), q), r)
      ensures Inv(env, old(Files())) ==> Inv(env, Files()) && PrepareGives(env, old(Files()), q, Files(), r)
    {
      hide Inv, PrepareGives;
      PrepareHolds(env, Files(), q);
      hide Spec.MakeRoom, Spec.Claim, Spec.Compile, Apply;
      if !ValidContext(q.context) {
        return Err(ContextMismatch);
      }
      var digest := env.digest(q.intent);
      if digest.None? {
        return Err(InvalidIntent);
      }
      var fault := Fault(env.limits, catalogue);
      if fault.Some? {
        return Err(fault.value);
      }
      var chosen: Result<Id>;
      if q.operation.Some? {
        chosen := Ok(q.operation.value);
      } else {
        chosen := Draw(q.draws);
      }
      if chosen.Err? {
        return Err(chosen.error);
      }
      var id := chosen.value;
      if id in catalogue.retired {
        return Err(RetiredOperation);
      }
      if id in catalogue.entries {
        if catalogue.entries[id].context != q.context {
          return Err(ContextMismatch);
        }
        if catalogue.entries[id].intent != digest.value {
          return Err(IntentConflict);
        }
        r := Compile(q, id);
        return;
      }
      r := PrepareFresh(q, id, digest.value);
    }

    method PrepareFresh(q: Preparation, id: Id, digest: Hash) returns (r: Result<Answer>)
      modifies `catalogue, `children, `made
      ensures var d := old(Files()); var room := Spec.MakeRoom(env, d);
        Ran(d, old(made), Follow(room, ClaimAndCompile(env, After(env, d, room.writes), q, id, digest)), r)
    {
      hide Spec.MakeRoom, Spec.ClaimAndCompile, After, Apply;
      ghost var d := Files();
      ghost var room := Spec.MakeRoom(env, d);
      r := MakeRoom();
      if r.Ok? {
        ghost var rest := Spec.ClaimAndCompile(env, Files(), q, id, digest).writes;
        r := ClaimThenCompile(q, id, digest);
        AfterConcat(env, d, room.writes, rest);
      }
    }

    method ClaimThenCompile(q: Preparation, id: Id, digest: Hash) returns (r: Result<Answer>)
      modifies `catalogue, `children, `made
      ensures Ran(old(Files()), old(made), ClaimAndCompile(env, old(Files()), q, id, digest), r)
    {
      hide Spec.Compile, After, Fault;
      ghost var d := Files();
      r := Claim(id, q.context, digest);
      if r.Ok? {
        ghost var w := SaveClaim(id, q.context, digest);
        AfterOne(env, d, w);
        ghost var rest := Spec.Compile(env, Files(), q, id).writes;
        r := Compile(q, id);
        AfterConcat(env, d, [w], rest);
      }
    }

    // -------------------------------------------------------------- answering from the files

    method Existing(context: Context, intent: Intent, id: Id) returns (r: Result<Answer>)
      ensures r == Spec.Existing(env, Files(), context, intent, id).answer
      ensures Inv(env, Files()) ==> LookGives(env, Files(), context, intent, id, r)
    {
      hide Inv, LookGives;
      LookHolds(env, Files(), context, intent, id);
      if !ValidContext(context) {
        return Err(ContextMismatch);
      }
      var digest := env.digest(intent);
      if digest.None? {
        return Err(InvalidIntent);
      }
      var fault := Fault(env.limits, catalogue);
      if fault.Some? {
        return Err(fault.value);
      }
      if id in catalogue.retired {
        return Err(RetiredOperation);
      }
      if id !in catalogue.entries {
        return Ok(Absent);
      }
      var entry := catalogue.entries[id];
      if entry.context != context {
        return Err(ContextMismatch);
      }
      if entry.intent != digest.value {
        return Err(IntentConflict);
      }
      if !entry.ready {
        return Ok(Absent);
      }
      var p := ReadPrepared(env, Disk(catalogue, children), id, true);
      if p.Err? {
        return Err(p.error);
      }
      if !Matches(p.value, context, entry.epoch) {
        return Err(ContextMismatch);
      }
      if p.value.intent != intent {
        return Err(IntentConflict);
      }
      r := Present(env, Disk(catalogue, children), id, p.value).answer;
    }

    method Retry(id: Id, context: Context) returns (r: Result<Answer>)
      ensures r == Spec.Retry(env, Files(), id, context).answer
      ensures Inv(env, Files()) ==> RetryGives(Files(), id, context, r)
    {
      hide Inv, RetryGives;
      RetryHolds(env, Files(), id, context);
      var loaded := Load(env, Disk(catalogue, children), id, context);
      if loaded.Err? {
        return Err(loaded.error);
      }
      r := Ok(Returned(Assemble(id, loaded.value.prepared, loaded.value.journal)));
    }

    // -------------------------------------------------------------- recording

    method WriteJournal(id: Id, j: Journal)
      requires id in children
      modifies `children, `made
      ensures Files() == Apply(env, old(Files()), PutJournal(id, j)) && made == old(made) + [PutJournal(id, j)]
    {
      Install(id, children[id].(journal := Some(j)), PutJournal(id, j));
    }

    method RecordReply(id: Id, context: Context, reply: Reply) returns (r: Result<Answer>)
      modifies `catalogue, `children, `made
      ensures Ran(old(Files()), old(made), Spec.RecordReply(env, old(Files()), id, context, reply), r)
      ensures Inv(env, old(Files())) ==> Inv(env, Files()) && ReplyGives(old(Files()), id, context, reply, Files(), r)
    {
      hide Inv, ReplyGives;
      ReplyHolds(env, Files(), id, context, reply);
      hide Load, Fault, ValidReceipt;
      ghost var d := Files();
      if !reply.Committed? {
        return Err(NotCommitted);
      }
      var loaded := Load(env, Disk(catalogue, children), id, context);
      if loaded.Err? {
        return Err(loaded.error);
      }
      var p, journal := loaded.value.prepared, loaded.value.journal;
      LoadedHasDirectory(env, d, id, context);
      if !ValidReceipt(context, id, p.request.epoch, p.fingerprint, reply.receipt) {
        return Err(ReceiptMismatch);
      }
      if journal.receipt.Some? {
        return if journal.receipt.value == reply.receipt then Ok(Recorded) else Err(ReceiptMismatch);
      }
      if journal.generation >= U64_MAX {
        return Err(Corrupt);
      }
      var written := Journal(journal.generation + 1, Some(reply.receipt), None, false);
      WriteJournal(id, written);
      AfterOne(env, d, PutJournal(id, written));
      r := Ok(Recorded);
      if p.intent.name == EPOCH_ADVANCE && catalogue.floor < p.request.epoch {
        r := MoveFloor(p.request.epoch);
        AfterTwo(env, d, PutJournal(id, written), SaveFloor(p.request.epoch));
        AfterOne(env, Apply(env, d, PutJournal(id, written)), SaveFloor(p.request.epoch));
      }
    }

    method MoveFloor(floor: nat) returns (r: Result<Answer>)
      modifies `catalogue, `made
      ensures var moved := old(catalogue).(floor := floor);
        Ran(old(Files()), old(made), Spec.Save(env, moved, SaveFloor(floor), Ok(Recorded)), r)
    {
      r := Save(catalogue.(floor := floor), SaveFloor(floor), Ok(Recorded));
    }

    /** The operation may retire when a claim needs its slot. `before` are this call's writes so far. */
    method MarkReported(id: Id, ghost d: Disk, ghost before: seq<Write>) returns (r: Result<Answer>)
      requires id in catalogue.entries && catalogue == d.catalogue && Files() == After(env, d, before)
      modifies `catalogue, `made
      ensures var run := Spec.MarkReported(env, d, id, before);
        && old(made) + run.writes[|before|..] == made && before <= run.writes
        && Files() == After(env, d, run.writes) && r == run.answer
    {
      if catalogue.retiredNext >= U64_MAX {
        return Err(Capacity);
      }
      if catalogue.entries[id].retirable.Some? {
        return Ok(Recorded);
      }
      ghost var e := Files();
      r := Save(WithReported(catalogue, id), SaveReported(id), Ok(Recorded));
      ghost var saved := Spec.Save(env, WithReported(d.catalogue, id), SaveReported(id), Ok(Recorded)).writes;
      AfterConcat(env, d, before, saved);
      assert (before + saved)[|before|..] == saved;
    }

    method RecordDelivered(id: Id, context: Context) returns (r: Result<Answer>)
      modifies `catalogue, `children, `made
      ensures Ran(old(Files()), old(made), Spec.RecordDelivered(env, old(Files()), id, context), r)
      ensures Inv(env, old(Files())) ==> Inv(env, Files()) && DeliveredGives(old(Files()), id, context, Files(), r)
    {
      hide Inv, DeliveredGives, After;
      AfterNone(env, Files());
      DeliveredHolds(env, Files(), id, context);
      hide Load, Fault, ValidReceipt;
      ghost var d := Files();
      var loaded := Load(env, Disk(catalogue, children), id, context);
      if loaded.Err? {
        return if loaded.error == RetiredOperation then Ok(Recorded) else Err(loaded.error);
      }
      LoadedHasDirectory(env, d, id, context);
      hide Spec.MarkReported, Apply;
      var journal := loaded.value.journal;
      ghost var before: seq<Write> := [];
      if journal.receipt.Some? {
        if !journal.delivered {
          if journal.generation >= U64_MAX {
            return Err(Corrupt);
          }
          var written := Journal(journal.generation + 1, journal.receipt, None, true);
          WriteJournal(id, written);
          before := [PutJournal(id, written)];
          AfterOne(env, d, PutJournal(id, written));
        }
      } else if journal.refusal.None? || journal.refusal.value.kind == CapacityRefusal {
        return Err(NotCommitted);
      }
      r := MarkReported(id, d, before);
      ghost var writes := Spec.MarkReported(env, d, id, before).writes;
      assert before + writes[|before|..] == writes;
    }

    method RecordRefusal(id: Id, context: Context, refusal: Refusal) returns (r: Result<Answer>)
      modifies `catalogue, `children, `made
      ensures Ran(old(Files()), old(made), Spec.RecordRefusal(env, old(Files()), id, context, refusal), r)
      ensures Inv(env, old(Files())) ==>
        Inv(env, Files()) && RefusalGives(old(Files()), id, context, refusal, Files(), r)
    {
      hide Inv, RefusalGives, After;
      AfterNone(env, Files());
      RefusalHolds(env, Files(), id, context, refusal);
      hide Load, Fault, ValidReceipt;
      ghost var d := Files();
      if |refusal.detail| > MAX_REFUSAL_DETAIL {
        return Err(Capacity);
      }
      var loaded := Load(env, Disk(catalogue, children), id, context);
      if loaded.Err? {
        return Err(loaded.error);
      }
      LoadedHasDirectory(env, d, id, context);
      hide Spec.MarkReported, Apply;
      var journal := loaded.value.journal;
      if journal.receipt.Some? {
        return Err(ReceiptMismatch);
      }
      if journal.generation >= U64_MAX {
        return Err(Corrupt);
      }
      var written := Journal(journal.generation + 1, None, Some(refusal), true);
      WriteJournal(id, written);
      ghost var before := [PutJournal(id, written)];
      AfterOne(env, d, PutJournal(id, written));
      if refusal.kind == CapacityRefusal {
        return Ok(Recorded);
      }
      r := MarkReported(id, d, before);
      ghost var writes := Spec.MarkReported(env, d, id, before).writes;
      assert before + writes[|before|..] == writes;
    }

    // -------------------------------------------------------------- generations

    method FloorDue() returns (r: Result<Answer>)
      ensures r == Spec.FloorDue(env, Files()).answer
      ensures Inv(env, Files()) ==> FloorGives(Files(), r)
    {
      hide Inv, FloorGives;
      FloorHolds(env, Files());
      var fault := Fault(env.limits, catalogue);
      if fault.Some? {
        return Err(fault.value);
      }
      if catalogue.floor >= catalogue.generation {
        return Ok(Due(None));
      }
      var first := FindLeast(Unreported(Disk(catalogue, children)));
      if first.None? {
        return Ok(Due(Some(catalogue.generation)));
      }
      LeastUnique(Unreported(Files()), first.value, Least(Unreported(Files())));
      var journal := ReadJournal(Disk(catalogue, children), first.value);
      return if catalogue.entries[first.value].ready && journal.Err? then Err(Corrupt) else Ok(Due(None));
    }

    method ObserveWindow(floor: nat, next: nat) returns (r: Result<Answer>)
      modifies `catalogue, `made
      ensures Ran(old(Files()), old(made), Spec.ObserveWindow(env, old(Files()), floor, next), r)
      ensures Inv(env, old(Files())) ==> Inv(env, Files()) && WindowGives(old(Files()), floor, next, Files(), r)
    {
      hide Inv, WindowGives;
      WindowHolds(env, Files(), floor, next);
      var fault := Fault(env.limits, catalogue);
      if fault.Some? {
        return Err(fault.value);
      }
      var c := catalogue;
      var changed := false;
      if floor > c.floor {
        c := c.(floor := floor);
        changed := true;
      }
      if c.generation < c.floor {
        c := c.(generation := c.floor, issued := 0);
        changed := true;
      }
      if next > c.generation && c.floor < U64_MAX && c.floor + 1 == next {
        c := c.(generation := next, issued := 0);
        changed := true;
      }
      if !changed {
        return Ok(Recorded);
      }
      r := Save(c, SaveWindow(c.floor, c.generation, c.issued), Ok(Recorded));
    }

    // -------------------------------------------------------------- opening

    method Open(listed: seq<Id>) returns (r: Result<Answer>)
      modifies `catalogue, `children, `made
      ensures Ran(old(Files()), old(made), Spec.Open(env, old(Files()), listed), r)
      ensures Inv(env, old(Files())) ==> Inv(env, Files()) && OpenGives(old(Files()), Files(), listed, r)
    {
      hide Inv, OpenGives, After;
      AfterNone(env, Files());
      OpenHolds(env, Files(), listed);
      hide Fault, Removals, ReadyEntries;
      if !ValidLimits(env.limits) {
        return Err(Capacity);
      }
      var fault := Fault(env.limits, catalogue);
      if fault.Some? {
        return Err(fault.value);
      }
      ghost var d := Files();
      ghost var swept: seq<Write> := [];
      if ReadyEntries(catalogue.entries) != catalogue.entries {
        r := Save(WithSwept(catalogue), SaveSwept, Ok(Recorded));
        if r.Err? {
          return;
        }
        swept := [SaveSwept];
        AfterOne(env, d, SaveSwept);
      }
      ghost var e := Files();
      Sweep(listed);
      AfterConcat(env, d, swept, Removals(e.catalogue, listed));
      r := Ok(Recorded);
    }

    /** Removes every listed directory no live operation owns. */
    method Sweep(listed: seq<Id>)
      modifies `children, `made
      ensures made == old(made) + Removals(catalogue, listed)
      ensures Files() == After(env, old(Files()), Removals(catalogue, listed))
    {
      var i := 0;
      while i < |listed|
        invariant 0 <= i <= |listed|
        invariant made + Removals(catalogue, listed[i..]) == old(made) + Removals(catalogue, listed)
        invariant After(env, Files(), Removals(catalogue, listed[i..])) ==
          After(env, old(Files()), Removals(catalogue, listed))
      {
        assert listed[i..][0] == listed[i] && listed[i..][1..] == listed[i + 1..];
        if listed[i] !in catalogue.entries {
          ghost var rest := Removals(catalogue, listed[i + 1..]);
          assert ([RemoveChild(listed[i])] + rest)[1..] == rest;
          Remove(listed[i]);
        }
        i := i + 1;
      }
    }
  }

  lemma PrepareHolds(env: Env, d: Disk, q: Preparation)
    ensures var run := Spec.Prepare(env, d, q); var e := After(env, d, run.writes);
      Inv(env, d) ==> Inv(env, e) && PrepareGives(env, d, q, e, run.answer)
  {
    hide Inv, PrepareGives, Spec.Prepare, After;
    if Inv(env, d) {
      CallKeeps(env, d, NativeRuns.Preparing(q));
      PrepareExactly(env, d, q);
    }
  }

  lemma LookHolds(env: Env, d: Disk, context: Context, intent: Intent, id: Id)
    ensures Inv(env, d) ==> LookGives(env, d, context, intent, id, Spec.Existing(env, d, context, intent, id).answer)
  {
    hide Inv, LookGives, Spec.Existing;
    if Inv(env, d) {
      LookAnswers(env, d, context, intent, id);
    }
  }

  lemma RetryHolds(env: Env, d: Disk, id: Id, context: Context)
    ensures Inv(env, d) ==> RetryGives(d, id, context, Spec.Retry(env, d, id, context).answer)
  {
    hide Inv, RetryGives, Spec.Retry;
    if Inv(env, d) {
      RetryAnswers(env, d, id, context);
    }
  }

  lemma ReplyHolds(env: Env, d: Disk, id: Id, context: Context, reply: Reply)
    ensures var run := Spec.RecordReply(env, d, id, context, reply); var e := After(env, d, run.writes);
      Inv(env, d) ==> Inv(env, e) && ReplyGives(d, id, context, reply, e, run.answer)
  {
    hide Inv, ReplyGives, Spec.RecordReply, After;
    if Inv(env, d) {
      ReplyAnswers(env, d, id, context, reply);
    }
  }

  lemma DeliveredHolds(env: Env, d: Disk, id: Id, context: Context)
    ensures var run := Spec.RecordDelivered(env, d, id, context); var e := After(env, d, run.writes);
      Inv(env, d) ==> Inv(env, e) && DeliveredGives(d, id, context, e, run.answer)
  {
    hide Inv, DeliveredGives, Spec.RecordDelivered, After;
    if Inv(env, d) {
      DeliveredKeeps(env, d, id, context);
      DeliveredAnswers(env, d, id, context);
    }
  }

  lemma RefusalHolds(env: Env, d: Disk, id: Id, context: Context, refusal: Refusal)
    ensures var run := Spec.RecordRefusal(env, d, id, context, refusal); var e := After(env, d, run.writes);
      Inv(env, d) ==> Inv(env, e) && RefusalGives(d, id, context, refusal, e, run.answer)
  {
    hide Inv, RefusalGives, Spec.RecordRefusal, After;
    if Inv(env, d) {
      RefusalKeeps(env, d, id, context, refusal);
      RefusalAnswers(env, d, id, context, refusal);
    }
  }

  lemma FloorHolds(env: Env, d: Disk)
    ensures Inv(env, d) ==> FloorGives(d, Spec.FloorDue(env, d).answer)
  {
    hide Inv, FloorGives, Spec.FloorDue;
    if Inv(env, d) {
      FloorAnswers(env, d);
    }
  }

  lemma WindowHolds(env: Env, d: Disk, floor: nat, next: nat)
    ensures var run := Spec.ObserveWindow(env, d, floor, next); var e := After(env, d, run.writes);
      Inv(env, d) ==> Inv(env, e) && WindowGives(d, floor, next, e, run.answer)
  {
    hide Inv, WindowGives, Spec.ObserveWindow, After;
    if Inv(env, d) {
      WindowAnswers(env, d, floor, next);
    }
  }

  lemma OpenHolds(env: Env, d: Disk, listed: seq<Id>)
    ensures var run := Spec.Open(env, d, listed); var e := After(env, d, run.writes);
      Inv(env, d) ==> Inv(env, e) && OpenGives(d, e, listed, run.answer)
  {
    hide Inv, OpenGives, Spec.Open, After;
    if Inv(env, d) {
      OpenAnswers(env, d, listed);
    }
  }

  lemma LoadedHasDirectory(env: Env, d: Disk, id: Id, context: Context)
    requires Load(env, d, id, context).Ok?
    ensures id in d.children && id in d.catalogue.entries
  {
  }
}
