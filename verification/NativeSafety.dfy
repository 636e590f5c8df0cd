/**
 What every durable write of the native journal keeps: the invariant of its files, the frame an
 identity is bound to, the receipt it committed with, and the order of its generations.
 */
module NativeSafety {
  import opened Basics
  import opened NativeModel
  import opened NativeCalls

  // ---------------------------------------------------------------- the invariant of the files

  ghost predicate CatalogueOk(env: Env, c: Catalogue) {
    && Fault(env.limits, c) == None
    && c.generation <= c.floor + 1
    && (forall id :: id in c.entries && c.entries[id].retirable.Some? ==>
          c.entries[id].retirable.value < c.retiredNext)
    && (forall id :: id in c.retired ==> c.retired[id].order < c.retiredNext)
  }

  /** The frame is this identity's, of the claim's context, intent and generation. */
  ghost predicate Fits(env: Env, id: Id, e: Entry, p: Prepared) {
    && ValidPrepared(env, id, p)
    && p.context == e.context
    && env.digest(p.intent) == Some(e.intent)
    && p.request.epoch == e.epoch
  }

  ghost predicate HasResult(c: Child) {
    c.journal.Some? && (c.journal.value.receipt.Some? || c.journal.value.refusal.Some?)
  }

  /** What a live identity's directory holds, as far as its life has come. */
  ghost predicate ChildOk(env: Env, id: Id, e: Entry, c: Child) {
    && (e.ready ==> c.prepared.Some?)
    && (c.prepared.Some? ==> Fits(env, id, e, c.prepared.value))
    && (c.journal.Some? ==> e.ready && JournalFits(id, c.prepared, c.journal.value))
    && (e.retirable.Some? ==> e.ready && HasResult(c))
  }

  ghost predicate JournalFits(id: Id, prepared: Option<Prepared>, j: Journal) {
    && ValidJournal(j)
    && (j.receipt.Some? ==> prepared.Some? && ReceiptFits(id, prepared.value, j.receipt.value))
  }

  ghost predicate ReceiptFits(id: Id, p: Prepared, r: Receipt) {
    ValidReceipt(p.context, id, p.request.epoch, p.fingerprint, r)
  }

  ghost predicate LiveOk(env: Env, d: Disk, id: Id)
    requires id in d.catalogue.entries
  {
    var e := d.catalogue.entries[id];
    && (id !in d.children ==> !e.ready && e.retirable == None)
    && (id in d.children ==> ChildOk(env, id, e, d.children[id]))
  }

  ghost predicate Inv(env: Env, d: Disk) {
    && CatalogueOk(env, d.catalogue)
    && forall id :: id in d.catalogue.entries ==> LiveOk(env, d, id)
  }

  // ---------------------------------------------------------------- the writes the journal makes

  /** The files an interrupted removal can leave of a directory. */
  ghost predicate Remains(whole: Child, left: Child) {
    && (left.prepared == None || left.prepared == whole.prepared)
    && (left.journal == None || left.journal == whole.journal)
  }

  /** The state in which the journal makes a write, and nothing more than it has checked there. */
  ghost predicate Allowed(env: Env, d: Disk, w: Write) {
    var c := d.catalogue;
    match w
    case SaveRetired(id, outcome) =>
      && id in c.entries && IsLeast(Reports(c.entries), id)
      && ReadJournal(d, id).Ok? && outcome == OutcomeOf(env, ReadJournal(d, id).value)
      && Fault(env.limits, WithRetired(env.limits, c, id, outcome)) == None
    case SaveClaim(id, context, intent) =>
      && id !in c.entries && id !in c.retired && id !in d.children
      && Fault(env.limits, WithClaim(env.limits, c, id, context, intent)) == None
    case SaveRelease(id) =>
      id in c.entries && !c.entries[id].ready && Fault(env.limits, WithRelease(c, id)) == None
    case SaveReady(id) =>
      id in c.entries && Framed(d, id) && Fault(env.limits, WithReady(c, id)) == None
    case SaveReported(id) =>
      && id in c.entries && c.entries[id].ready && c.entries[id].retirable == None
      && id in d.children && HasResult(d.children[id])
      && (d.children[id].journal.value.receipt.Some? ==> d.children[id].journal.value.delivered)
      && Fault(env.limits, WithReported(c, id)) == None
    case SaveFloor(floor) => c.floor < floor <= c.generation
    case SaveWindow(floor, generation, issued) =>
      && c.floor <= floor <= generation <= floor + 1 && c.generation <= generation
      && Fault(env.limits, c.(floor := floor, generation := generation, issued := issued)) == None
    case SaveSwept => Fault(env.limits, WithSwept(c)) == None
    case CreateChild(id) => id in c.entries && id !in d.children
    case PutPrepared(id, p) =>
      && id in c.entries && !c.entries[id].ready && id in d.children && d.children[id].prepared == None
      && Fits(env, id, c.entries[id], p)
    case PutJournal(id, j) =>
      && id in c.entries && c.entries[id].ready && id in d.children
      && JournalFits(id, d.children[id].prepared, j)
      && (j.receipt.Some? || j.refusal.Some?)
      && (d.children[id].journal.Some? && d.children[id].journal.value.receipt.Some? ==>
            j.receipt == d.children[id].journal.value.receipt && j.delivered)
    case RemoveChild(id) => id !in c.entries
    case Tear(id, left) => id !in c.entries && id in d.children && Remains(d.children[id], left)
  }

  ghost predicate AllAllowed(env: Env, d: Disk, writes: seq<Write>)
    decreases |writes|
  {
    writes == [] || (Allowed(env, d, writes[0]) && AllAllowed(env, Apply(env, d, writes[0]), writes[1..]))
  }

  lemma AllowedConcat(env: Env, d: Disk, a: seq<Write>, b: seq<Write>)
    requires AllAllowed(env, d, a) && AllAllowed(env, After(env, d, a), b)
    ensures AllAllowed(env, d, a + b)
    decreases |a|
  {
    hide Allowed, Apply;
    if a == [] {
      assert a + b == b;
    } else {
      assert (a + b)[1..] == a[1..] + b;
      AllowedConcat(env, Apply(env, d, a[0]), a[1..], b);
    }
  }

  lemma AllowedPrefix(env: Env, d: Disk, writes: seq<Write>, n: nat)
    requires AllAllowed(env, d, writes) && n <= |writes|
    ensures AllAllowed(env, d, writes[..n])
    decreases |writes|
  {
    hide Allowed, Apply;
    if n > 0 {
      assert writes[..n][1..] == writes[1..][..n - 1];
      AllowedPrefix(env, Apply(env, d, writes[0]), writes[1..], n - 1);
    }
  }

  // ---------------------------------------------------------------- eviction

  lemma EvictedKeeps(retired: map<Id, Retired>, bound: nat)
    ensures var e := Evicted(retired, bound);
      && e.Keys <= retired.Keys
      && (forall id :: id in e ==> e[id] == retired[id])
      && |e| <= bound
    decreases |retired|
  {
    if |retired| > bound {
      assert Orders(retired) != map[] by { assert |Orders(retired).Keys| == |retired.Keys|; }
      var oldest := Least(Orders(retired));
      assert (retired - {oldest}).Keys == retired.Keys - {oldest};
      EvictedKeeps(retired - {oldest}, bound);
    }
  }

  /** Every identity kept was retired after every one evicted, or with its order and a greater identity. */
  ghost predicate KeepsNewest(retired: map<Id, Retired>, kept: map<Id, Retired>) {
    forall x, y :: x in retired && x !in kept && y in kept && y in retired ==>
      retired[x].order < retired[y].order || (retired[x].order == retired[y].order && x < y)
  }

  /** As many of the retired as fit, unchanged, and the newest of them. */
  ghost predicate NewestOf(retired: map<Id, Retired>, kept: map<Id, Retired>, bound: nat) {
    && kept.Keys <= retired.Keys && (forall id :: id in kept ==> kept[id] == retired[id])
    && |kept| == (if |retired| > bound then bound else |retired|) && KeepsNewest(retired, kept)
  }

  /** Which is what eviction leaves. */
  lemma {:induction false} EvictedNewest(retired: map<Id, Retired>, bound: nat)
    ensures NewestOf(retired, Evicted(retired, bound), bound)
    decreases |retired|
  {
    if |retired| > bound {
      assert Orders(retired) != map[] by { assert |Orders(retired).Keys| == |retired.Keys|; }
      var oldest := Least(Orders(retired));
      var rest := retired - {oldest};
      assert rest.Keys == retired.Keys - {oldest};
      EvictedKeeps(rest, bound);
      EvictedNewest(rest, bound);
      OldestFirst(retired, oldest, Evicted(rest, bound));
    }
  }

  lemma OldestFirst(retired: map<Id, Retired>, oldest: Id, kept: map<Id, Retired>)
    requires IsLeast(Orders(retired), oldest) && KeepsNewest(retired - {oldest}, kept)
    requires kept.Keys <= retired.Keys - {oldest}
    ensures KeepsNewest(retired, kept)
  {
    forall x, y | x in retired && x !in kept && y in kept && y in retired
      ensures retired[x].order < retired[y].order || (retired[x].order == retired[y].order && x < y)
    {
      assert y in Orders(retired) && Orders(retired)[y] == retired[y].order;
      if x != oldest {
        assert x in retired - {oldest} && y in retired - {oldest};
      }
    }
  }

  /** What a retirement changes: the identity leaves the live ones, and the retired table gains
      at most it, with that outcome. */
  lemma RetirementIs(env: Env, d: Disk, x: Id, outcome: Outcome)
    requires x in d.catalogue.entries
    ensures var t := Apply(env, d, SaveRetired(x, outcome));
      && t.children == d.children
      && t.catalogue.entries == d.catalogue.entries - {x}
      && t.catalogue.retired.Keys <= d.catalogue.retired.Keys + {x}
      && |t.catalogue.retired| <= env.limits.maxOperations
      && t.catalogue.retiredNext == d.catalogue.retiredNext + 1
      && t.catalogue.floor == d.catalogue.floor && t.catalogue.generation == d.catalogue.generation
      && (forall id :: id in t.catalogue.retired && id != x ==> t.catalogue.retired[id] == d.catalogue.retired[id])
      && (x in t.catalogue.retired ==>
            var e := d.catalogue.entries[x];
            t.catalogue.retired[x] == Retired(e.intent, outcome, d.catalogue.retiredNext, e.epoch))
  {
    var e := d.catalogue.entries[x];
    EvictedKeeps(d.catalogue.retired[x := Retired(e.intent, outcome, d.catalogue.retiredNext, e.epoch)],
                 env.limits.maxOperations);
  }

  // ---------------------------------------------------------------- each write keeps the invariant

  lemma {:induction false} WriteKeepsInv(env: Env, d: Disk, w: Write)
    requires Inv(env, d) && Allowed(env, d, w)
    ensures Inv(env, Apply(env, d, w))
  {
    match w {
      case SaveRetired(id, outcome) => RetireKeepsInv(env, d, id, outcome);
      case SaveFloor(floor) => FloorKeepsInv(env, d, floor);
      case SaveWindow(floor, generation, issued) =>
      case CreateChild(id) => ChildKeepsInv(env, d, w, id);
      case PutPrepared(id, p) => ChildKeepsInv(env, d, w, id);
      case PutJournal(id, j) => ChildKeepsInv(env, d, w, id);
      case RemoveChild(id) => OthersKeepInv(env, d, w, id);
      case Tear(id, left) => OthersKeepInv(env, d, w, id);
      case _ => EntriesKeepInv(env, d, w);
    }
  }

  lemma RetireKeepsInv(env: Env, d: Disk, id: Id, outcome: Outcome)
    requires Inv(env, d) && Allowed(env, d, SaveRetired(id, outcome))
    ensures Inv(env, Apply(env, d, SaveRetired(id, outcome)))
  {
    RetirementIs(env, d, id, outcome);
    var t := Apply(env, d, SaveRetired(id, outcome));
    forall x | x in t.catalogue.entries
      ensures LiveOk(env, t, x)
    {
      assert LiveOk(env, d, x);
    }
  }

  lemma FloorKeepsInv(env: Env, d: Disk, floor: nat)
    requires Inv(env, d) && Allowed(env, d, SaveFloor(floor))
    ensures Inv(env, Apply(env, d, SaveFloor(floor)))
  {
    var t := Apply(env, d, SaveFloor(floor));
    assert Coherent(env.limits, t.catalogue);
    forall x | x in t.catalogue.entries
      ensures LiveOk(env, t, x)
    {
      assert LiveOk(env, d, x);
    }
  }

  lemma EntriesKeepInv(env: Env, d: Disk, w: Write)
    requires Inv(env, d) && Allowed(env, d, w)
    requires w.SaveClaim? || w.SaveRelease? || w.SaveReady? || w.SaveReported? || w.SaveSwept?
    ensures Inv(env, Apply(env, d, w))
  {
    var t := Apply(env, d, w);
    forall x | x in t.catalogue.entries
      ensures LiveOk(env, t, x)
    {
      if x in d.catalogue.entries {
        assert LiveOk(env, d, x);
      }
    }
  }

  lemma ChildKeepsInv(env: Env, d: Disk, w: Write, id: Id)
    requires Inv(env, d) && Allowed(env, d, w)
    requires w == CreateChild(id) || (w.PutPrepared? && w.id == id) || (w.PutJournal? && w.id == id)
    ensures Inv(env, Apply(env, d, w))
  {
    var t := Apply(env, d, w);
    assert LiveOk(env, d, id);
    forall x | x in t.catalogue.entries
      ensures LiveOk(env, t, x)
    {
      assert LiveOk(env, d, x);
    }
  }

  lemma OthersKeepInv(env: Env, d: Disk, w: Write, id: Id)
    requires Inv(env, d) && Allowed(env, d, w)
    requires w == RemoveChild(id) || (w.Tear? && w.id == id)
    ensures Inv(env, Apply(env, d, w))
  {
    var t := Apply(env, d, w);
    forall x | x in t.catalogue.entries
      ensures LiveOk(env, t, x)
    {
      assert LiveOk(env, d, x);
    }
  }

  lemma {:induction false} WritesKeepInv(env: Env, d: Disk, writes: seq<Write>)
    requires Inv(env, d) && AllAllowed(env, d, writes)
    ensures Inv(env, After(env, d, writes))
    decreases |writes|
  {
    hide Allowed, Apply, Inv;
    if writes != [] {
      WriteKeepsInv(env, d, writes[0]);
      WritesKeepInv(env, Apply(env, d, writes[0]), writes[1..]);
    }
  }

  // ---------------------------------------------------------------- what an identity is bound to

  /** The identity is live and ready, and `p` is its frame. */
  ghost predicate Holds(d: Disk, id: Id, p: Prepared) {
    && id in d.catalogue.entries && d.catalogue.entries[id].ready
    && id in d.children && d.children[id].prepared == Some(p)
  }

  ghost predicate Guarded(d: Disk, id: Id) {
    id in d.catalogue.entries || id in d.catalogue.retired
  }

  /** The identity is no other frame's: it holds `p`, or it retired, or nothing remembers it. */
  ghost predicate OnlyFor(d: Disk, id: Id, p: Prepared) {
    Guarded(d, id) ==> Holds(d, id, p) || id in d.catalogue.retired
  }

  ghost predicate Claims(w: Write, id: Id) {
    w.SaveClaim? && w.id == id
  }

  lemma {:induction false} WriteKeepsFrame(env: Env, d: Disk, w: Write, id: Id, p: Prepared)
    requires Inv(env, d) && Allowed(env, d, w) && OnlyFor(d, id, p) && !Claims(w, id)
    ensures OnlyFor(Apply(env, d, w), id, p)
  {
    match w {
      case SaveRetired(x, outcome) => RetirementIs(env, d, x, outcome);
      case _ =>
    }
  }

  lemma {:induction false} WritesKeepFrame(env: Env, d: Disk, writes: seq<Write>, id: Id, p: Prepared)
    requires Inv(env, d) && AllAllowed(env, d, writes) && OnlyFor(d, id, p)
    requires forall w :: w in writes ==> !Claims(w, id)
    ensures OnlyFor(After(env, d, writes), id, p)
    decreases |writes|
  {
    hide Allowed, Apply, Inv;
    if writes != [] {
      WriteKeepsInv(env, d, writes[0]);
      WriteKeepsFrame(env, d, writes[0], id, p);
      WritesKeepFrame(env, Apply(env, d, writes[0]), writes[1..], id, p);
    }
  }

  // ---------------------------------------------------------------- the receipt it committed with

  ghost predicate LiveReceipt(d: Disk, id: Id, r: Receipt) {
    && id in d.catalogue.entries && id in d.children && d.children[id].journal.Some?
    && d.children[id].journal.value.receipt == Some(r)
  }

  /** The identity's one receipt is `r`: in its journal while it lives, in its outcome once it retired. */
  ghost predicate CommittedBy(env: Env, d: Disk, id: Id, r: Receipt) {
    Guarded(d, id) ==>
      || LiveReceipt(d, id, r)
      || (id in d.catalogue.retired && d.catalogue.retired[id].outcome == CommittedAt(env.receiptDigest(r), r.sequence))
  }

  lemma RetireKeepsReceipt(env: Env, d: Disk, x: Id, outcome: Outcome, id: Id, r: Receipt)
    requires Inv(env, d) && Allowed(env, d, SaveRetired(x, outcome)) && CommittedBy(env, d, id, r)
    ensures CommittedBy(env, Apply(env, d, SaveRetired(x, outcome)), id, r)
  {
    RetirementIs(env, d, x, outcome);
    RetiredOutcome(env, d, x, outcome);
    hide CatalogueOk, Apply, Allowed, LiveOk, ReadJournal;
  }

  /** A retired identity's outcome is what its journal held. */
  lemma RetiredOutcome(env: Env, d: Disk, x: Id, outcome: Outcome)
    requires Inv(env, d) && Allowed(env, d, SaveRetired(x, outcome))
    ensures forall r :: LiveReceipt(d, x, r) ==> outcome == CommittedAt(env.receiptDigest(r), r.sequence)
  {
    hide IsLeast, Fault, WithRetired;
    assert LiveOk(env, d, x);
  }

  lemma {:induction false} WriteKeepsReceipt(env: Env, d: Disk, w: Write, id: Id, r: Receipt)
    requires Inv(env, d) && Allowed(env, d, w) && CommittedBy(env, d, id, r) && !Claims(w, id)
    ensures CommittedBy(env, Apply(env, d, w), id, r)
  {
    match w {
      case SaveRetired(x, outcome) => RetireKeepsReceipt(env, d, x, outcome, id, r);
      case SaveRelease(x) =>
        if id in d.catalogue.entries { assert LiveOk(env, d, id); }
      case SaveSwept =>
        if id in d.catalogue.entries { assert LiveOk(env, d, id); }
      case _ =>
    }
  }

  lemma {:induction false} WritesKeepReceipt(env: Env, d: Disk, writes: seq<Write>, id: Id, r: Receipt)
    requires Inv(env, d) && AllAllowed(env, d, writes) && CommittedBy(env, d, id, r)
    requires forall w :: w in writes ==> !Claims(w, id)
    ensures CommittedBy(env, After(env, d, writes), id, r)
    decreases |writes|
  {
    hide Allowed, Apply, Inv;
    if writes != [] {
      WriteKeepsInv(env, d, writes[0]);
      WriteKeepsReceipt(env, d, writes[0], id, r);
      WritesKeepReceipt(env, Apply(env, d, writes[0]), writes[1..], id, r);
    }
  }

  // ---------------------------------------------------------------- generations

  ghost predicate NotBefore(c: Catalogue, later: Catalogue) {
    c.floor <= later.floor && c.generation <= later.generation
  }

  lemma WriteKeepsGenerations(env: Env, d: Disk, w: Write)
    requires Allowed(env, d, w)
    ensures NotBefore(d.catalogue, Apply(env, d, w).catalogue)
  {
  }

  lemma {:induction false} WritesKeepGenerations(env: Env, d: Disk, writes: seq<Write>)
    requires AllAllowed(env, d, writes)
    ensures NotBefore(d.catalogue, After(env, d, writes).catalogue)
    decreases |writes|
  {
    hide Allowed, Apply;
    if writes != [] {
      WriteKeepsGenerations(env, d, writes[0]);
      WritesKeepGenerations(env, Apply(env, d, writes[0]), writes[1..]);
    }
  }
}
