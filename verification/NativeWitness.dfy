/**
 Two runs of a journal that holds one operation at a time, from its making: one in which a commit is
 retired though it was never delivered, and one that leaves more directories than a sweep lists.
 */
module NativeWitness {
  import opened Basics
  import opened NativeModel
  import opened NativeCalls
  import opened NativeSafety
  import opened NativeRuns
  import opened NativeTheorems
  import opened NativeLate

  const One: Limits := Limits(1, ROOT_RESERVATION + OPERATION_RESERVATION)
  const Us: Context := Context(1, 1, Ledger(1, 1))
  const Plan: Intent := Intent("plan", 1, [])

  function AnyDigest(intent: Intent): Option<Hash> { Some(7) }
  function AnyReceipt(receipt: Receipt): Hash { 5 }
  const Here: Env := Env(One, AnyDigest, AnyReceipt)

  function RequestFor(key: RequestKey): Request {
    Request(true, NATIVE_PROTOCOL_VERSION, Us.ledger, key.epoch, key.id, 1, [],
            Some(FrameHeader(NATIVE_ACTOR_NAMESPACE, Us.ledger, key)))
  }

  function Expand(key: RequestKey): Result<Expanded> { Ok(Expanded(RequestFor(key), 9, [])) }

  function Asks(id: Id): Preparation { Preparation(Us, Plan, Some(id), [], Expand) }

  /** The frame of an identity claimed in generation 2, which is the one every claim of these runs is of. */
  function Frame(id: Id): Prepared { Prepared(Us, Plan, RequestFor(RequestKey(1, 2, id)), 9, []) }

  const Live: Entry := Entry(Us, 7, true, None, 2)
  const Claimed: Entry := Entry(Us, 7, false, None, 2)
  const Closing: Refusal := Refusal(ClosedRefusal(1), "")
  const Close: Journal := Journal(1, None, Some(Closing), true)

  // ---------------------------------------------------------------- catalogues of these runs

  /** At most one live identity, at most one retired, in the first generations. */
  ghost predicate Small(c: Catalogue, entries: map<Id, Entry>) {
    && c.limits == One && c.floor == 1 && 1 <= c.generation <= 2 && c.entries == entries
    && |c.retired| <= 1 && 0 !in c.retired && c.entries.Keys !! c.retired.Keys
    && (forall id <- entries :: id != 0 && entries[id].context == Us && 1 <= entries[id].epoch <= c.generation)
  }

  lemma SmallOk(c: Catalogue, entries: map<Id, Entry>)
    requires Small(c, entries) && |entries| <= 1
    ensures Fault(One, c) == None
  {
    assert Coherent(One, c);
    assert ValidContext(Us);
  }

  lemma Fits1(id: Id, e: Entry)
    requires id != 0 && e.context == Us && e.intent == 7 && e.epoch == 2
    ensures Fits(Here, id, e, Frame(id)) && ValidRequest(Us, id, 2, Frame(id).request, 9)
  {
  }

  // ---------------------------------------------------------------- one claim, where there is room

  ghost predicate Empty(d: Disk) {
    && Small(d.catalogue, map[])
    && (d.catalogue.generation == 1 ==> d.catalogue == Fresh(One).catalogue)
  }

  /** The identity is live and ready, with its frame and nothing more. */
  ghost predicate Filled(d: Disk, id: Id) {
    && Small(d.catalogue, map[id := Live]) && d.catalogue.generation == 2
    && id in d.children && d.children[id] == Child(Some(Frame(id)), None)
  }

  /** The disk after an identity is claimed, framed and made ready. */
  function Prepared1(d: Disk, id: Id): Disk {
    var c := d.catalogue;
    var issued := if c.generation == 1 then 1 else if c.issued < U32_MAX then c.issued + 1 else U32_MAX;
    Disk(c.(entries := map[id := Live], generation := 2, issued := issued),
         d.children[id := Child(Some(Frame(id)), None)])
  }

  lemma ClaimIs(d: Disk, id: Id)
    requires Empty(d) && id != 0 && id !in d.catalogue.retired && id !in d.children
    ensures Claim(Here, d, id, Us, 7) == Run([SaveClaim(id, Us, 7)], Ok(Recorded))
    ensures Apply(Here, d, SaveClaim(id, Us, 7)) ==
      d.(catalogue := Prepared1(d, id).catalogue.(entries := map[id := Claimed]))
  {
    var c := WithClaim(One, d.catalogue, id, Us, 7);
    assert c.entries == map[id := Claimed];
    SmallOk(c, map[id := Claimed]);
    hide Fault;
  }

  lemma CompileIs(d: Disk, id: Id)
    requires Small(d.catalogue, map[id := Claimed]) && d.catalogue.generation == 2 && id !in d.children
    ensures var run := Compile(Here, d, Asks(id), id);
      && run.writes == [CreateChild(id), PutPrepared(id, Frame(id)), SaveReady(id)] && run.answer.Ok?
      && After(Here, d, run.writes) ==
         Disk(d.catalogue.(entries := map[id := Live]), d.children[id := Child(Some(Frame(id)), None)])
  {
    assert id in d.catalogue.entries && id != 0;
    Fits1(id, Claimed);
    var p := Frame(id);
    var writes := FrameWrites(d, id, p);
    AfterFrame(Here, d, id, p);
    var e := After(Here, d, writes);
    var w := SaveReady(id);
    SettleIs(e, id);
    hide Fault, ValidRequest, Settle, Small;
    assert writes + [w] == [CreateChild(id), PutPrepared(id, p), w];
    AfterConcat(Here, d, writes, [w]);
    AfterOne(Here, e, w);
  }

  /** A framed claim is settled by making it ready. */
  lemma SettleIs(d: Disk, id: Id)
    requires Small(d.catalogue, map[id := Claimed]) && d.catalogue.generation == 2
    ensures Apply(Here, d, SaveReady(id)).catalogue == d.catalogue.(entries := map[id := Live])
    ensures Settle(Here, d, Asks(id), id, Frame(id)) ==
      Follow(Run([SaveReady(id)], Ok(Recorded)), Present(Here, Apply(Here, d, SaveReady(id)), id, Frame(id)))
  {
    var ready := WithReady(d.catalogue, id);
    assert ready.entries == map[id := Live];
    SmallOk(ready, map[id := Live]);
    hide Fault;
  }

  lemma PrepareWrites(d: Disk, id: Id)
    requires Empty(d) && id != 0 && id !in d.catalogue.retired && id !in d.children
    ensures Prepare(Here, d, Asks(id)).writes == ClaimAndCompile(Here, d, Asks(id), id, 7).writes
  {
    SmallOk(d.catalogue, map[]);
    assert MakeRoom(Here, d) == Run([], Ok(Recorded));
    hide Fault, ClaimAndCompile, MakeRoom, Small;
    assert forall writes: seq<Write> :: [] + writes == writes;
  }

  lemma Prepared1Is(d: Disk, id: Id)
    requires Empty(d) && id != 0 && id !in d.catalogue.retired
    ensures Filled(Prepared1(d, id), id)
    ensures Small(Prepared1(d, id).catalogue.(entries := map[id := Claimed]), map[id := Claimed])
  {
  }

  lemma ClaimedThenReady(d: Disk, id: Id)
    requires Empty(d) && id != 0 && id !in d.catalogue.retired && id !in d.children
    ensures After(Here, d, ClaimAndCompile(Here, d, Asks(id), id, 7).writes) == Prepared1(d, id)
  {
    ClaimIs(d, id);
    Prepared1Is(d, id);
    hide Empty, Small, Claim, Apply, Compile;
    var w := SaveClaim(id, Us, 7);
    var e := Apply(Here, d, w);
    CompileIs(e, id);
    AfterOne(Here, d, w);
    AfterConcat(Here, d, [w], Compile(Here, e, Asks(id), id).writes);
  }

  /** Preparing a free identity in an empty journal leaves it live and ready, and every other directory. */
  lemma PreparingIs(d: Disk, id: Id)
    requires Empty(d) && id != 0 && id !in d.catalogue.retired && id !in d.children
    ensures Step(Here, d, Event(Preparing(Asks(id)), None)) == Prepared1(d, id)
    ensures Filled(Prepared1(d, id), id)
  {
    hide Empty, Filled, Prepare, ClaimAndCompile, Prepared1, After;
    PrepareWrites(d, id);
    ClaimedThenReady(d, id);
    Prepared1Is(d, id);
  }

  // ---------------------------------------------------------------- one refusal that closes

  /** The disk after the live identity's frame was closed by a refusal, and that was reported. */
  function Closed1(d: Disk, id: Id): Disk {
    Disk(d.catalogue.(entries := map[id := Live.(retirable := Some(d.catalogue.retiredNext))],
                      retiredNext := d.catalogue.retiredNext + 1),
         d.children[id := Child(Some(Frame(id)), Some(Close))])
  }

  lemma LoadIs1(d: Disk, id: Id, entry: Entry, journal: Option<Journal>)
    requires entry.ready && entry.context == Us && entry.intent == 7 && entry.epoch == 2
    requires Small(d.catalogue, map[id := entry])
    requires id in d.children && d.children[id] == Child(Some(Frame(id)), journal)
    requires journal.Some? ==> ValidJournal(journal.value) && journal.value.receipt.None?
    ensures Load(Here, d, id, Us) == Ok(Loaded(Frame(id), if journal.Some? then journal.value else NoJournal))
  {
    SmallOk(d.catalogue, map[id := entry]);
    Fits1(id, entry);
    hide Fault;
  }

  lemma RefusingIs(d: Disk, id: Id)
    requires Filled(d, id) && d.catalogue.retiredNext < U64_MAX
    ensures Step(Here, d, Event(Refusing(id, Us, Closing), None)) == Closed1(d, id)
  {
    LoadIs1(d, id, Live, None);
    var c := WithReported(d.catalogue, id);
    var entry := Live.(retirable := Some(d.catalogue.retiredNext));
    assert c.entries == map[id := entry];
    SmallOk(c, map[id := entry]);
    hide Load, Fault;
    var v, w := PutJournal(id, Close), SaveReported(id);
    assert [v] + [w] == [v, w];
    assert RecordRefusal(Here, d, id, Us, Closing).writes == [v, w];
    AfterTwo(Here, d, v, w);
  }

  // ---------------------------------------------------------------- a preparation that retires

  /** One live identity, reported: what a fresh claim makes room by retiring. */
  ghost predicate Reported1(d: Disk, id: Id, next: Id, entry: Entry) {
    && Small(d.catalogue, map[id := entry]) && entry.retirable.Some? && d.catalogue.retiredNext < U64_MAX
    && next != 0 && next != id && next !in d.catalogue.retired
    && id in d.children && (d.children[id].journal.Some? ==> ValidJournal(d.children[id].journal.value))
  }

  lemma RetiredIsOk(d: Disk, id: Id, next: Id, entry: Entry, outcome: Outcome)
    requires Reported1(d, id, next, entry)
    ensures var after := WithRetired(One, d.catalogue, id, outcome);
      after.entries == map[] && Small(after, map[]) && Fault(One, after) == None
  {
    RetirementIs(Here, d, id, outcome);
    hide Evicted;
    var after := WithRetired(One, d.catalogue, id, outcome);
    assert after.entries == map[];
    SmallOk(after, map[]);
    hide Fault;
  }

  lemma RoomIs1(d: Disk, id: Id, next: Id, entry: Entry)
    requires Reported1(d, id, next, entry)
    ensures MakeRoom(Here, d) ==
      Run([SaveRetired(id, OutcomeOf(Here, ReadJournal(d, id).value)), RemoveChild(id)], Ok(Recorded))
  {
    assert Reports(d.catalogue.entries) == map[id := entry.retirable.value];
    assert id in Reports(d.catalogue.entries);
    assert Least(Reports(d.catalogue.entries)) == id;
    RetiredIsOk(d, id, next, entry, OutcomeOf(Here, ReadJournal(d, id).value));
    hide Fault, WithRetired, IsLeast, Small;
  }

  lemma RoomNeeded(d: Disk, id: Id, next: Id, entry: Entry)
    requires Reported1(d, id, next, entry)
    ensures var outcome := OutcomeOf(Here, ReadJournal(d, id).value);
      [SaveRetired(id, outcome), RemoveChild(id)] <= Prepare(Here, d, Asks(next)).writes
  {
    RoomIs1(d, id, next, entry);
    SmallOk(d.catalogue, map[id := entry]);
    hide Fault, MakeRoom, ClaimAndCompile, ReadJournal, OutcomeOf;
  }

  /** Cut after its first write: the identity retired, its directory left. */
  lemma CutRetires(d: Disk, id: Id, next: Id, entry: Entry)
    requires Reported1(d, id, next, entry) && d.catalogue.generation == 2
    ensures var e := Step(Here, d, Event(Preparing(Asks(next)), Some(1)));
      && Empty(e) && e.catalogue.generation == 2 && e.children == d.children
      && e.catalogue.retired.Keys <= d.catalogue.retired.Keys + {id}
      && e.catalogue.retiredNext == d.catalogue.retiredNext + 1
  {
    var outcome := OutcomeOf(Here, ReadJournal(d, id).value);
    RoomNeeded(d, id, next, entry);
    RetiredIsOk(d, id, next, entry, outcome);
    RetirementIs(Here, d, id, outcome);
    hide Prepare, ReadJournal, OutcomeOf, WithRetired, Small, Fault;
    var writes := Prepare(Here, d, Asks(next)).writes;
    assert writes[..1] == [SaveRetired(id, outcome)];
    AfterOne(Here, d, SaveRetired(id, outcome));
  }

  // ---------------------------------------------------------------- more directories than are listed

  /** The identities 1 to `n`. */
  function UpTo(n: nat): set<Id> {
    if n == 0 then {} else UpTo(n - 1) + {n}
  }

  lemma {:induction false} UpToIs(n: nat)
    ensures |UpTo(n)| == n && forall x <- UpTo(n) :: 1 <= x <= n
  {
    if n > 0 {
      UpToIs(n - 1);
    }
  }

  /** As `Filled`, with a directory left of every identity before. */
  ghost predicate Littered(d: Disk, k: nat) {
    && k > 0 && Filled(d, k)
    && d.children.Keys == UpTo(k) && (forall x <- d.catalogue.retired :: x < k)
    && d.catalogue.retiredNext <= 2 * k
  }

  /** The live identity refused, a preparation of the next one cut as it retired it, and prepared again. */
  function Cycle(k: nat): seq<Event> {
    [Event(Refusing(k, Us, Closing), None), Event(Preparing(Asks(k + 1)), Some(1)), Event(Preparing(Asks(k + 1)), None)]
  }

  lemma ReachOne(env: Env, d: Disk, a: Event)
    ensures Reach(env, d, [a]) == Step(env, d, a)
  {
    hide Step;
    assert [a][..0] == [];
    assert Reach(env, d, [a]) == Step(env, Reach(env, d, []), a);
  }

  lemma {:induction false} ReachConcat(env: Env, d: Disk, a: seq<Event>, b: seq<Event>)
    ensures Reach(env, d, a + b) == Reach(env, Reach(env, d, a), b)
    decreases |b|
  {
    hide Step;
    if b == [] {
      assert a + b == a;
    } else {
      assert (a + b)[..|a + b| - 1] == a + b[..|b| - 1];
      ReachConcat(env, d, a, b[..|b| - 1]);
    }
  }

  lemma ReachThree(env: Env, d: Disk, a: Event, b: Event, c: Event)
    ensures Reach(env, d, [a, b, c]) == Step(env, Step(env, Step(env, d, a), b), c)
  {
    hide Step, Reach;
    ReachOne(env, d, a);
    ReachOne(env, Step(env, d, a), b);
    ReachConcat(env, d, [a], [b]);
    assert [a] + [b] == [a, b] && [a, b] + [c] == [a, b, c];
    ReachConcat(env, d, [a, b], [c]);
    ReachOne(env, Step(env, Step(env, d, a), b), c);
  }

  /** The live identity retired, every directory left. */
  ghost predicate Emptied(d: Disk, k: nat) {
    && Empty(d) && d.catalogue.generation == 2 && d.children.Keys == UpTo(k)
    && d.catalogue.retiredNext <= 2 * k + 2 && forall x <- d.catalogue.retired :: x <= k
  }

  lemma ClosedIsReported(d: Disk, k: nat)
    requires Littered(d, k) && k < 100_000
    ensures var e := Closed1(d, k); var c := d.catalogue;
      && Reported1(e, k, k + 1, Live.(retirable := Some(c.retiredNext)))
      && e.catalogue.generation == 2 && e.catalogue.retired == c.retired && e.catalogue.retiredNext == c.retiredNext + 1
      && e.children.Keys == UpTo(k)
  {
    UpToIs(k);
    var e := Closed1(d, k);
    assert e.children.Keys == d.children.Keys + {k};
  }

  lemma CutEmpties(d: Disk, k: nat)
    requires Littered(d, k) && k < 100_000
    ensures Emptied(Step(Here, Closed1(d, k), Event(Preparing(Asks(k + 1)), Some(1))), k)
  {
    ClosedIsReported(d, k);
    hide Step, Closed1, Reported1, Empty, Filled;
    CutRetires(Closed1(d, k), k, k + 1, Live.(retirable := Some(d.catalogue.retiredNext)));
  }

  lemma PreparedLitters(d: Disk, k: nat)
    requires k > 0 && Emptied(d, k)
    ensures Step(Here, d, Event(Preparing(Asks(k + 1)), None)) == Prepared1(d, k + 1)
    ensures Littered(Prepared1(d, k + 1), k + 1)
  {
    UpToIs(k);
    hide Step;
    PreparingIs(d, k + 1);
    hide Filled, Empty;
  }

  lemma CycleLitters(d: Disk, k: nat)
    requires Littered(d, k) && k < 100_000
    ensures Littered(Reach(Here, d, Cycle(k)), k + 1)
  {
    RefusingIs(d, k);
    CutEmpties(d, k);
    ReachThree(Here, d, Cycle(k)[0], Cycle(k)[1], Cycle(k)[2]);
    hide Littered, Emptied, Step, Reach, Closed1, Prepared1;
    PreparedLitters(Step(Here, Closed1(d, k), Event(Preparing(Asks(k + 1)), Some(1))), k);
  }

  /** The run that leaves `n` directories. */
  function Littering(n: nat): seq<Event> {
    if n <= 1 then [Event(Preparing(Asks(1)), None)] else Littering(n - 1) + Cycle(n - 1)
  }

  lemma {:induction false} LitteringLitters(n: nat)
    requires 1 <= n < 100_000
    ensures Littered(Reach(Here, Fresh(One), Littering(n)), n)
  {
    if n == 1 {
      PreparingIs(Fresh(One), 1);
      ReachOne(Here, Fresh(One), Event(Preparing(Asks(1)), None));
      hide Step, Reach;
      assert UpTo(0) == {} && Prepared1(Fresh(One), 1).children.Keys == UpTo(1);
    } else {
      LitteringLitters(n - 1);
      ReachConcat(Here, Fresh(One), Littering(n - 1), Cycle(n - 1));
      CycleLitters(Reach(Here, Fresh(One), Littering(n - 1)), n - 1);
    }
  }

  lemma OneUnowned(d: Disk, k: nat)
    requires Littered(d, k) && k > 1
    ensures !(d.children.Keys <= ReadyEntries(d.catalogue.entries).Keys)
  {
    InUpTo(k, 1);
    assert 1 in d.children && 1 !in d.catalogue.entries;
  }

  lemma {:induction false} InUpTo(n: nat, x: nat)
    requires 1 <= x <= n
    ensures x in UpTo(n)
  {
    if x < n {
      InUpTo(n - 1, x);
    }
  }

  /** A journal holds more than 4096 directories after some run, and there is an order of meeting them in
      which opening it leaves one that nothing live owns. */
  lemma SweepLeavesOne() returns (listed: seq<Id>)
    ensures var d := Reach(Here, Fresh(One), Littering(4097));
      && |d.children| == 4097 && IsListing(d, listed)
      && !NothingElse(Step(Here, d, Event(Opening(listed), None)))
  {
    var d := Reach(Here, Fresh(One), Littering(4097));
    LitteringLitters(4097);
    UpToIs(4097);
    FreshOk(Here);
    RunsKeepInv(Here, Fresh(One), Littering(4097));
    hide Reach, Step, Inv, UpTo, Littering;
    assert |d.children.Keys| == 4097;
    OneUnowned(d, 4097);
    hide Littered, ReadyEntries, IsListing, NothingElse;
    SweepExactWhen(Here, d);
    listed :| IsListing(d, listed) && !NothingElse(Step(Here, d, Event(Opening(listed), None)));
  }

  // ---------------------------------------------------------------- a commit retired undelivered

  const Came: Receipt := Receipt(OfRequest(RequestKey(1, 2, 1)), 1, 0, 9)
  const Came1: Journal := Journal(2, Some(Came), None, false)

  /** The closed identity's commit recorded: the report stands. */
  lemma ReplyingIs(d: Disk)
    requires Filled(d, 1)
    ensures var closed := Closed1(d, 1);
      Step(Here, closed, Event(Replying(1, Us, Committed(Came)), None)) ==
      closed.(children := closed.children[1 := Child(Some(Frame(1)), Some(Came1))])
  {
    var closed := Closed1(d, 1);
    LoadIs1(closed, 1, Live.(retirable := Some(d.catalogue.retiredNext)), Some(Close));
    hide Load, Fault;
    var w := PutJournal(1, Came1);
    assert RecordReply(Here, closed, 1, Us, Committed(Came)).writes == [w];
    AfterOne(Here, closed, w);
  }

  /** Prepared, refused, committed, and retired by the next claim: the commit is never delivered. */
  const LateRun: seq<Event> := [
    Event(Preparing(Asks(1)), None), Event(Refusing(1, Us, Closing), None),
    Event(Replying(1, Us, Committed(Came)), None), Event(Preparing(Asks(2)), None)]

  const Committed1: Disk :=
    var closed := Closed1(Prepared1(Fresh(One), 1), 1);
    closed.(children := closed.children[1 := Child(Some(Frame(1)), Some(Came1))])

  lemma CommittedIs()
    ensures At(Here, Fresh(One), LateRun, 3) == Committed1
  {
    var ready := Prepared1(Fresh(One), 1);
    PreparingIs(Fresh(One), 1);
    RefusingIs(ready, 1);
    ReplyingIs(ready);
    ReachThree(Here, Fresh(One), LateRun[0], LateRun[1], LateRun[2]);
    assert LateRun[..3] == [LateRun[0], LateRun[1], LateRun[2]];
    hide Step, Reach, Prepared1, Filled;
  }

  lemma UndeliveredRetired()
    ensures Undelivered(At(Here, Fresh(One), LateRun, 3), 1)
    ensures var e := At(Here, Fresh(One), LateRun, 4);
      1 in e.catalogue.retired && e.catalogue.retired[1].outcome == CommittedAt(5, 1)
  {
    CommittedIs();
    assert Undelivered(Committed1, 1) && Reported1(Committed1, 1, 2, Live.(retirable := Some(0)));
    FreshOk(Here);
    RunsKeepInv(Here, Fresh(One), LateRun[..3]);
    AtNext(Here, Fresh(One), LateRun, 3);
    hide Step, Reach, Inv, Reported1, Undelivered;
    LateRetires(Committed1, 2, Live.(retirable := Some(0)));
  }

  lemma LateRetires(d: Disk, next: Id, entry: Entry)
    requires Inv(Here, d) && Reported1(d, 1, next, entry) && d.children[1].journal == Some(Came1)
    ensures var e := Step(Here, d, Event(Preparing(Asks(next)), None));
      1 in e.catalogue.retired && e.catalogue.retired[1].outcome == CommittedAt(5, 1)
  {
    var w := SaveRetired(1, CommittedAt(5, 1));
    assert OutcomeOf(Here, ReadJournal(d, 1).value) == CommittedAt(5, 1);
    RoomNeeded(d, 1, next, entry);
    PrepareRetiresFirst(Here, d, Asks(next));
    hide Prepare, ReadJournal, OutcomeOf;
    var writes := Prepare(Here, d, Asks(next)).writes;
    assert writes == [w] + writes[1..];
    FirstRetires(d, writes);
  }

  lemma FirstRetires(d: Disk, writes: seq<Write>)
    requires Inv(Here, d) && 1 in d.catalogue.entries && RetiresFirst(writes)
    requires writes != [] && writes[0] == SaveRetired(1, CommittedAt(5, 1))
    ensures var e := After(Here, d, writes);
      1 in e.catalogue.retired && e.catalogue.retired[1].outcome == CommittedAt(5, 1)
  {
    RetirementIs(Here, d, 1, CommittedAt(5, 1));
    StaysRetired(Here, d, 1, CommittedAt(5, 1));
    hide Apply, Inv;
    OnlyRetiringMovesRetired(Here, Apply(Here, d, writes[0]), writes[1..]);
  }
}
