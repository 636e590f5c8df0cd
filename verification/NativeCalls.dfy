/**
 The native journal's durable writes and its calls, each as the writes it makes and its answer.
 */
module NativeCalls {
  import opened Basics
  import opened NativeModel

  /** One durable write: a catalogue saved, a record written, a directory made or removed. */
  datatype Write =
    | SaveRetired(id: Id, outcome: Outcome)
    | SaveClaim(id: Id, context: Context, intent: Hash)
    | SaveRelease(id: Id)
    | SaveReady(id: Id)
    | SaveReported(id: Id)
    | SaveFloor(floor: nat)
    | SaveWindow(floor: nat, generation: nat, issued: nat)
    | SaveSwept
    | CreateChild(id: Id)
    | PutPrepared(id: Id, prepared: Prepared)
    | PutJournal(id: Id, journal: Journal)
    | RemoveChild(id: Id)
    | Tear(id: Id, left: Child)

  datatype Answer = Returned(operation: Operation) | Absent | Recorded | Due(epoch: Option<nat>)

  datatype Run = Run(writes: seq<Write>, answer: Result<Answer>)

  function Refuse(e: Error): Run {
    Run([], Err(e))
  }

  // ---------------------------------------------------------------- catalogues a save writes

  /** Beyond the bound the retired identities of least order leave. */
  ghost function Evicted(retired: map<Id, Retired>, bound: nat): map<Id, Retired>
    decreases |retired|
  {
    if |retired| <= bound then retired
    else
      assert Orders(retired) != map[] by { assert |Orders(retired).Keys| == |retired.Keys|; }
      var oldest := Least(Orders(retired));
      assert |(retired - {oldest}).Keys| < |retired.Keys| by {
        assert (retired - {oldest}).Keys == retired.Keys - {oldest};
      }
      Evicted(retired - {oldest}, bound)
  }

  ghost function WithRetired(l: Limits, c: Catalogue, id: Id, outcome: Outcome): Catalogue
    requires id in c.entries
  {
    var entry := c.entries[id];
    c.(entries := c.entries - {id}, retiredNext := c.retiredNext + 1,
       retired := Evicted(c.retired[id := Retired(entry.intent, outcome, c.retiredNext, entry.epoch)], l.maxOperations))
  }

  /** The next generation opens once half the occupancy was issued in the current one and the floor stands at it. */
  predicate OpensGeneration(l: Limits, c: Catalogue) {
    c.issued >= l.maxOperations / 2 && c.floor == c.generation
  }

  function WithClaim(l: Limits, c: Catalogue, id: Id, context: Context, intent: Hash): Catalogue {
    var generation := if OpensGeneration(l, c) then c.generation + 1 else c.generation;
    var issued := if OpensGeneration(l, c) then 0 else c.issued;
    c.(generation := generation, issued := if issued < U32_MAX then issued + 1 else U32_MAX,
       entries := c.entries[id := Entry(context, intent, false, None, generation)])
  }

  function WithRelease(c: Catalogue, id: Id): Catalogue {
    c.(entries := c.entries - {id})
  }

  function WithReady(c: Catalogue, id: Id): Catalogue
    requires id in c.entries
  {
    c.(entries := c.entries[id := c.entries[id].(ready := true)])
  }

  function WithReported(c: Catalogue, id: Id): Catalogue
    requires id in c.entries
  {
    c.(retiredNext := c.retiredNext + 1, entries := c.entries[id := c.entries[id].(retirable := Some(c.retiredNext))])
  }

  function ReadyEntries(entries: map<Id, Entry>): map<Id, Entry> {
    map id | id in entries && entries[id].ready :: entries[id]
  }

  function WithSwept(c: Catalogue): Catalogue {
    c.(entries := ReadyEntries(c.entries))
  }

  ghost function Apply(env: Env, d: Disk, w: Write): Disk {
    match w
    case SaveRetired(id, outcome) =>
      if id in d.catalogue.entries then d.(catalogue := WithRetired(env.limits, d.catalogue, id, outcome)) else d
    case SaveClaim(id, context, intent) => d.(catalogue := WithClaim(env.limits, d.catalogue, id, context, intent))
    case SaveRelease(id) => d.(catalogue := WithRelease(d.catalogue, id))
    case SaveReady(id) => if id in d.catalogue.entries then d.(catalogue := WithReady(d.catalogue, id)) else d
    case SaveReported(id) => if id in d.catalogue.entries then d.(catalogue := WithReported(d.catalogue, id)) else d
    case SaveFloor(floor) => d.(catalogue := d.catalogue.(floor := floor))
    case SaveWindow(floor, generation, issued) =>
      d.(catalogue := d.catalogue.(floor := floor, generation := generation, issued := issued))
    case SaveSwept => d.(catalogue := WithSwept(d.catalogue))
    case CreateChild(id) => d.(children := d.children[id := Child(None, None)])
    case PutPrepared(id, prepared) =>
      if id in d.children then d.(children := d.children[id := d.children[id].(prepared := Some(prepared))]) else d
    case PutJournal(id, journal) =>
      if id in d.children then d.(children := d.children[id := d.children[id].(journal := Some(journal))]) else d
    case RemoveChild(id) => d.(children := d.children - {id})
    case Tear(id, left) => d.(children := d.children[id := left])
  }

  ghost function After(env: Env, d: Disk, writes: seq<Write>): Disk
    decreases |writes|
  {
    if writes == [] then d else After(env, Apply(env, d, writes[0]), writes[1..])
  }

  lemma AfterNone(env: Env, d: Disk)
    ensures After(env, d, []) == d
  {
  }

  lemma AfterOne(env: Env, d: Disk, w: Write)
    ensures After(env, d, [w]) == Apply(env, d, w)
  {
    hide Apply;
    assert [w][1..] == [];
  }

  lemma AfterTwo(env: Env, d: Disk, v: Write, w: Write)
    ensures After(env, d, [v, w]) == Apply(env, Apply(env, d, v), w)
  {
    hide Apply;
    assert [v, w][1..] == [w];
    AfterOne(env, Apply(env, d, v), w);
  }

  lemma AfterConcat(env: Env, d: Disk, a: seq<Write>, b: seq<Write>)
    ensures After(env, d, a + b) == After(env, After(env, d, a), b)
    decreases |a|
  {
    hide Apply;
    if a == [] {
      assert a + b == b;
    } else {
      assert (a + b)[1..] == a[1..] + b;
      AfterConcat(env, Apply(env, d, a[0]), a[1..], b);
    }
  }

  /** `first`, and when it succeeds the run that follows it from where it left the disk. */
  function Follow(first: Run, next: Run): Run {
    if first.answer.Err? then first else Run(first.writes + next.writes, next.answer)
  }

  /** A catalogue saved if it may be; `w` is the save's write. */
  function Save(env: Env, c: Catalogue, w: Write, answer: Result<Answer>): Run {
    var fault := Fault(env.limits, c);
    if fault.Some? then Refuse(fault.value) else Run([w], answer)
  }

  // ---------------------------------------------------------------- preparing

  datatype Preparation = Preparation(
    context: Context, intent: Intent, operation: Option<Id>, draws: seq<Option<Id>>,
    expand: RequestKey -> Result<Expanded>)

  /** The first drawn identity nothing holds, of at most sixteen draws; a failed draw ends it. */
  function Mint(c: Catalogue, draws: seq<Option<Id>>, attempts: nat): Result<Id>
    decreases attempts
  {
    if attempts == 0 || draws == [] || draws[0] == None then Err(Expansion)
    else if draws[0].value != 0 && draws[0].value !in c.entries && draws[0].value !in c.retired then Ok(draws[0].value)
    else Mint(c, draws[1..], attempts - 1)
  }

  function OutcomeOf(env: Env, j: Journal): Outcome {
    match j.receipt
    case Some(receipt) => CommittedAt(env.receiptDigest(receipt), receipt.sequence)
    case None => ClosedByRefusal
  }

  /** When the journal is full, the operation reported longest ago retires to make room. */
  ghost function MakeRoom(env: Env, d: Disk): Run {
    var c := d.catalogue;
    if !Full(env.limits, |c.entries|) then Run([], Ok(Recorded))
    else if Reports(c.entries) == map[] then Refuse(Capacity)
    else
      var oldest := Least(Reports(c.entries));
      var journal := ReadJournal(d, oldest);
      if journal.Err? then Refuse(journal.error)
      else if c.retiredNext >= U64_MAX then Refuse(Capacity)
      else
        var outcome := OutcomeOf(env, journal.value);
        var after := WithRetired(env.limits, c, oldest, outcome);
        var answer: Result<Answer> := if Full(env.limits, |after.entries|) then Err(Capacity) else Ok(Recorded);
        var fault := Fault(env.limits, after);
        if fault.Some? then Refuse(fault.value)
        else Run([SaveRetired(oldest, outcome), RemoveChild(oldest)], answer)
  }

  /** An unused identity claimed in the generation fresh operations are issued in. */
  function Claim(env: Env, d: Disk, id: Id, context: Context, intent: Hash): Run {
    if id in d.children then Refuse(Corrupt)
    else if OpensGeneration(env.limits, d.catalogue) && d.catalogue.generation >= U64_MAX then Refuse(Capacity)
    else
      var claimed := WithClaim(env.limits, d.catalogue, id, context, intent);
      Save(env, claimed, SaveClaim(id, context, intent), Ok(Recorded))
  }

  /** The operation as its frame and journal hold it. */
  function Present(env: Env, d: Disk, id: Id, p: Prepared): Run {
    var journal := ReadJournal(d, id);
    if journal.Err? then Refuse(journal.error)
    else if journal.value.receipt.Some? &&
            !ValidReceipt(p.context, id, p.request.epoch, p.fingerprint, journal.value.receipt.value)
    then Refuse(ReceiptMismatch)
    else Run([], Ok(Returned(Assemble(id, p, journal.value))))
  }

  predicate Matches(p: Prepared, context: Context, epoch: nat) {
    p.context == context && p.request.epoch == epoch
  }

  /** A frame that is durable: bound to this context and intent, and the claim made ready. */
  ghost function Settle(env: Env, d: Disk, q: Preparation, id: Id, p: Prepared): Run
    requires id in d.catalogue.entries
  {
    var entry := d.catalogue.entries[id];
    if !Matches(p, q.context, entry.epoch) then Refuse(ContextMismatch)
    else if p.intent != q.intent then Refuse(IntentConflict)
    else if entry.ready then Present(env, d, id, p)
    else
      var saved := Save(env, WithReady(d.catalogue, id), SaveReady(id), Ok(Recorded));
      Follow(saved, Present(env, Apply(env, d, SaveReady(id)), id, p))
  }

  function FrameWrites(d: Disk, id: Id, p: Prepared): seq<Write> {
    (if id in d.children then [] else [CreateChild(id)]) + [PutPrepared(id, p)]
  }

  predicate Framed(d: Disk, id: Id) {
    id in d.children && d.children[id].prepared.Some?
  }

  /** A claimed identity: its frame compiled unless one is durable already. */
  ghost function Compile(env: Env, d: Disk, q: Preparation, id: Id): Run
    requires id in d.catalogue.entries
  {
    var entry := d.catalogue.entries[id];
    if entry.ready || Framed(d, id) then
      var p := ReadPrepared(env, d, id, entry.ready);
      if p.Err? then Refuse(p.error) else Settle(env, d, q, id, p.value)
    else
      var expanded := q.expand(RequestKey(q.context.principal, entry.epoch, id));
      if expanded.Err? then
        Save(env, WithRelease(d.catalogue, id), SaveRelease(id), Err(expanded.error))
      else if !ValidRequest(q.context, id, entry.epoch, expanded.value.request, expanded.value.fingerprint) then
        Refuse(InvalidRequest)
      else
        var x := expanded.value;
        var p := Prepared(q.context, q.intent, x.request, x.fingerprint, x.created);
        var writes := FrameWrites(d, id, p);
        AfterFrame(env, d, id, p);
        Follow(Run(writes, Ok(Recorded)), Settle(env, After(env, d, writes), q, id, p))
  }

  lemma AfterFrame(env: Env, d: Disk, id: Id, p: Prepared)
    ensures var e := After(env, d, FrameWrites(d, id, p));
      && e.catalogue == d.catalogue
      && e.children == d.children[id := Child(Some(p), if id in d.children then d.children[id].journal else None)]
  {
    if id in d.children {
      assert FrameWrites(d, id, p) == [PutPrepared(id, p)];
      assert After(env, d, [PutPrepared(id, p)]) == Apply(env, d, PutPrepared(id, p));
    } else {
      var made := Apply(env, d, CreateChild(id));
      assert FrameWrites(d, id, p)[1..] == [PutPrepared(id, p)];
      assert After(env, made, [PutPrepared(id, p)]) == Apply(env, made, PutPrepared(id, p));
    }
  }

  ghost function Prepare(env: Env, d: Disk, q: Preparation): Run {
    var digest := env.digest(q.intent);
    var fault := Fault(env.limits, d.catalogue);
    if !ValidContext(q.context) then Refuse(ContextMismatch)
    else if digest == None then Refuse(InvalidIntent)
    else if fault.Some? then Refuse(fault.value)
    else
      var chosen := if q.operation.Some? then Ok(q.operation.value) else Mint(d.catalogue, q.draws, MINT_ATTEMPTS);
      if chosen.Err? then Refuse(chosen.error)
      else if chosen.value in d.catalogue.retired then Refuse(RetiredOperation)
      else PrepareAs(env, d, q, chosen.value, digest.value)
  }

  ghost function PrepareAs(env: Env, d: Disk, q: Preparation, id: Id, digest: Hash): Run {
    if id in d.catalogue.entries then
      if d.catalogue.entries[id].context != q.context then Refuse(ContextMismatch)
      else if d.catalogue.entries[id].intent != digest then Refuse(IntentConflict)
      else Compile(env, d, q, id)
    else
      var room := MakeRoom(env, d);
      Follow(room, ClaimAndCompile(env, After(env, d, room.writes), q, id, digest))
  }

  ghost function ClaimAndCompile(env: Env, d: Disk, q: Preparation, id: Id, digest: Hash): Run {
    var claim := Claim(env, d, id, q.context, digest);
    var claimed := Apply(env, d, SaveClaim(id, q.context, digest));
    Follow(claim, Compile(env, claimed, q, id))
  }

  // ---------------------------------------------------------------- the other calls

  function Existing(env: Env, d: Disk, context: Context, intent: Intent, id: Id): Run {
    var digest := env.digest(intent);
    var fault := Fault(env.limits, d.catalogue);
    if !ValidContext(context) then Refuse(ContextMismatch)
    else if digest == None then Refuse(InvalidIntent)
    else if fault.Some? then Refuse(fault.value)
    else if id in d.catalogue.retired then Refuse(RetiredOperation)
    else if id !in d.catalogue.entries then Run([], Ok(Absent))
    else
      var entry := d.catalogue.entries[id];
      if entry.context != context then Refuse(ContextMismatch)
      else if entry.intent != digest.value then Refuse(IntentConflict)
      else if !entry.ready then Run([], Ok(Absent))
      else
        var p := ReadPrepared(env, d, id, true);
        if p.Err? then Refuse(p.error)
        else if !Matches(p.value, context, entry.epoch) then Refuse(ContextMismatch)
        else if p.value.intent != intent then Refuse(IntentConflict)
        else Present(env, d, id, p.value)
  }

  datatype Loaded = Loaded(prepared: Prepared, journal: Journal)

  /** A live, ready operation's frame and journal, as every transition reads them. */
  function Load(env: Env, d: Disk, id: Id, context: Context): Result<Loaded> {
    var fault := Fault(env.limits, d.catalogue);
    if !ValidContext(context) then Err(ContextMismatch)
    else if fault.Some? then Err(fault.value)
    else if id in d.catalogue.retired then Err(RetiredOperation)
    else if id !in d.catalogue.entries then Err(MissingOperation)
    else
      var entry := d.catalogue.entries[id];
      if entry.context != context then Err(ContextMismatch)
      else
        var p := ReadPrepared(env, d, id, entry.ready);
        if p.Err? then Err(p.error)
        else if env.digest(p.value.intent) != Some(entry.intent) then Err(Corrupt)
        else if !entry.ready then Err(Incomplete)
        else
          var j := ReadJournal(d, id);
          if j.Err? then Err(j.error)
          else if j.value.receipt.Some? &&
                  !ValidReceipt(p.value.context, id, p.value.request.epoch, p.value.fingerprint, j.value.receipt.value)
          then Err(ReceiptMismatch)
          else Ok(Loaded(p.value, j.value))
  }

  function Retry(env: Env, d: Disk, id: Id, context: Context): Run {
    var loaded := Load(env, d, id, context);
    if loaded.Err? then Refuse(loaded.error)
    else Run([], Ok(Returned(Assemble(id, loaded.value.prepared, loaded.value.journal))))
  }

  function RecordReply(env: Env, d: Disk, id: Id, context: Context, reply: Reply): Run {
    if !reply.Committed? then Refuse(NotCommitted)
    else
      var loaded := Load(env, d, id, context);
      if loaded.Err? then Refuse(loaded.error)
      else
        var p, j := loaded.value.prepared, loaded.value.journal;
        if !ValidReceipt(context, id, p.request.epoch, p.fingerprint, reply.receipt) then Refuse(ReceiptMismatch)
        else if j.receipt.Some? then
          if j.receipt.value == reply.receipt then Run([], Ok(Recorded)) else Refuse(ReceiptMismatch)
        else if j.generation >= U64_MAX then Refuse(Corrupt)
        else
          var write := PutJournal(id, Journal(j.generation + 1, Some(reply.receipt), None, false));
          if p.intent.name == EPOCH_ADVANCE && d.catalogue.floor < p.request.epoch then
            var moved := d.catalogue.(floor := p.request.epoch);
            var saved := Save(env, moved, SaveFloor(p.request.epoch), Ok(Recorded));
            Run([write] + saved.writes, saved.answer)
          else Run([write], Ok(Recorded))
  }

  /** The operation may retire from here on; nothing changes for one reported already. */
  function MarkReported(env: Env, d: Disk, id: Id, before: seq<Write>): Run
    requires id in d.catalogue.entries
  {
    if d.catalogue.retiredNext >= U64_MAX then Run(before, Err(Capacity))
    else if d.catalogue.entries[id].retirable.Some? then Run(before, Ok(Recorded))
    else
      var saved := Save(env, WithReported(d.catalogue, id), SaveReported(id), Ok(Recorded));
      Run(before + saved.writes, saved.answer)
  }

  function RecordDelivered(env: Env, d: Disk, id: Id, context: Context): Run {
    var loaded := Load(env, d, id, context);
    if loaded.Err? then
      if loaded.error == RetiredOperation then Run([], Ok(Recorded)) else Refuse(loaded.error)
    else
      var j := loaded.value.journal;
      if j.receipt.Some? then
        if j.delivered then MarkReported(env, d, id, [])
        else if j.generation >= U64_MAX then Refuse(Corrupt)
        else MarkReported(env, d, id, [PutJournal(id, Journal(j.generation + 1, j.receipt, None, true))])
      else if j.refusal.Some? && j.refusal.value.kind != CapacityRefusal then MarkReported(env, d, id, [])
      else Refuse(NotCommitted)
  }

  function RecordRefusal(env: Env, d: Disk, id: Id, context: Context, refusal: Refusal): Run {
    if |refusal.detail| > MAX_REFUSAL_DETAIL then Refuse(Capacity)
    else
      var loaded := Load(env, d, id, context);
      if loaded.Err? then Refuse(loaded.error)
      else
        var j := loaded.value.journal;
        if j.receipt.Some? then Refuse(ReceiptMismatch)
        else if j.generation >= U64_MAX then Refuse(Corrupt)
        else
          var write := PutJournal(id, Journal(j.generation + 1, None, Some(refusal), true));
          if refusal.kind == CapacityRefusal then Run([write], Ok(Recorded))
          else MarkReported(env, d, id, [write])
  }

  /** The operations of earlier generations whose result was not reported, each ordered by its identity. */
  function Unreported(d: Disk): map<Id, nat> {
    map id | id in d.catalogue.entries && d.catalogue.entries[id].epoch < d.catalogue.generation &&
             !(d.catalogue.entries[id].ready && ReadJournal(d, id).Ok? && ReadJournal(d, id).value.delivered) :: id
  }

  ghost function FloorDue(env: Env, d: Disk): Run {
    var c := d.catalogue;
    var fault := Fault(env.limits, c);
    if fault.Some? then Refuse(fault.value)
    else if c.floor >= c.generation then Run([], Ok(Due(None)))
    else if Unreported(d) == map[] then Run([], Ok(Due(Some(c.generation))))
    else
      var first := Least(Unreported(d));
      if c.entries[first].ready && ReadJournal(d, first).Err? then Refuse(Corrupt) else Run([], Ok(Due(None)))
  }

  function ObserveWindow(env: Env, d: Disk, floor: nat, next: nat): Run {
    var c := d.catalogue;
    var fault := Fault(env.limits, c);
    if fault.Some? then Refuse(fault.value)
    else
      var raised := if floor > c.floor then floor else c.floor;
      var generation := if c.generation < raised then raised else c.generation;
      var issued := if c.generation < raised then 0 else c.issued;
      var continues := next > generation && raised < U64_MAX && raised + 1 == next;
      var generation' := if continues then next else generation;
      var issued' := if continues then 0 else issued;
      if raised == c.floor && generation' == c.generation then Run([], Ok(Recorded))
      else
        Save(env, c.(floor := raised, generation := generation', issued := issued'),
             SaveWindow(raised, generation', issued'), Ok(Recorded))
  }

  /** A listing of the directories under the root: all of them, or the first 4096 met. */
  ghost predicate IsListing(d: Disk, listed: seq<Id>) {
    && (forall i :: 0 <= i < |listed| ==> listed[i] in d.children)
    && (forall i, j :: 0 <= i < j < |listed| ==> listed[i] != listed[j])
    && |listed| == if |d.children| <= MAX_OPERATIONS then |d.children| else MAX_OPERATIONS
  }

  function Removals(c: Catalogue, listed: seq<Id>): seq<Write> {
    if listed == [] then []
    else if listed[0] in c.entries then Removals(c, listed[1..])
    else [RemoveChild(listed[0])] + Removals(c, listed[1..])
  }

  /** Opening sweeps: claims never made ready leave, then every listed directory nothing names. */
  function Open(env: Env, d: Disk, listed: seq<Id>): Run {
    var fault := Fault(env.limits, d.catalogue);
    if !ValidLimits(env.limits) then Refuse(Capacity)
    else if fault.Some? then Refuse(fault.value)
    else if ReadyEntries(d.catalogue.entries) == d.catalogue.entries then
      Run(Removals(d.catalogue, listed), Ok(Recorded))
    else
      var swept := WithSwept(d.catalogue);
      Follow(Save(env, swept, SaveSwept, Ok(Recorded)), Run(Removals(swept, listed), Ok(Recorded)))
  }
}
