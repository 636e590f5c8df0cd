/**
 The native operation journal: what its files hold, the single durable writes it makes, and
 what each public call answers and writes. A call is given here as the sequence of durable
 writes it makes, in order, and its answer; a crash or a failed write stops it after any prefix.
 */
module NativeModel {
  import opened Basics

  type Result<T> = Attempt<T, Error>

  datatype Error =
    | InvalidIntent | Corrupt | Capacity | LimitsMismatch | ContextMismatch | IntentConflict
    | MissingOperation | Incomplete | InvalidRequest | ReceiptMismatch | NotCommitted | Expansion
    | RetiredOperation

  /** A 16-byte identity; zero is no identity. */
  type Id = nat
  type Hash = nat

  const U64_MAX: nat := 0xFFFF_FFFF_FFFF_FFFF
  const U32_MAX: nat := 0xFFFF_FFFF
  const MAX_NATIVE_FRAME_BYTES: nat := 1024 * 1024
  const MAX_OPERATIONS: nat := 4096
  const CATALOGUE_BYTES: nat := 1024 * 1024
  const MAX_INTENT_BYTES: nat := 256 * 1024
  const PREPARED_BYTES: nat := MAX_NATIVE_FRAME_BYTES + MAX_INTENT_BYTES + 8192
  const JOURNAL_BYTES: nat := 64 * 1024
  const ROOT_RESERVATION: nat := 2 * CATALOGUE_BYTES + 4096
  const OPERATION_RESERVATION: nat := 2 * (PREPARED_BYTES + 44) + 2 * (JOURNAL_BYTES + 44) + 32 * 1024
  const NATIVE_PROTOCOL_VERSION: nat := 4
  const NATIVE_ACTOR_NAMESPACE: nat := 0
  const MAX_REFUSAL_DETAIL: nat := 4096
  const MINT_ATTEMPTS: nat := 16
  const EPOCH_ADVANCE: string := "epoch.advance"

  datatype Limits = Limits(maxOperations: nat, maxReservedBytes: nat)

  datatype Ledger = Ledger(tenant: nat, session: nat)
  datatype Context = Context(cluster: nat, principal: nat, ledger: Ledger)
  datatype Intent = Intent(name: string, version: nat, canonical: seq<bv8>)
  datatype RequestKey = RequestKey(principal: nat, epoch: nat, id: Id)
  datatype FrameHeader = FrameHeader(space: nat, ledger: Ledger, key: RequestKey)

  /** A wire request. `header` is what inspecting the frame yields, if it is a native frame. */
  datatype Request = Request(
    native: bool, protocol: nat, ledger: Ledger, epoch: nat, id: Id, routeEpoch: nat,
    frame: seq<bv8>, header: Option<FrameHeader>)

  datatype Invocation = OfRequest(key: RequestKey) | OfTimer(timer: nat)
  datatype Receipt = Receipt(invocation: Invocation, sequence: nat, logicalTime: nat, intent: Hash)
  datatype RefusalKind = CapacityRefusal | ClosedRefusal(code: nat)
  datatype Refusal = Refusal(kind: RefusalKind, detail: string)
  datatype Reply = Committed(receipt: Receipt) | Pending | Refused(refusal: Refusal)

  /** What the compiler produced for one claimed identity. */
  datatype Expanded = Expanded(request: Request, fingerprint: Hash, created: seq<Id>)

  datatype Entry = Entry(context: Context, intent: Hash, ready: bool, retirable: Option<nat>, epoch: nat)
  datatype Outcome = CommittedAt(receipt: Hash, sequence: nat) | ClosedByRefusal
  datatype Retired = Retired(intent: Hash, outcome: Outcome, order: nat, epoch: nat)

  datatype Catalogue = Catalogue(
    limits: Limits, entries: map<Id, Entry>, retired: map<Id, Retired>, retiredNext: nat,
    generation: nat, floor: nat, issued: nat)

  datatype Prepared = Prepared(context: Context, intent: Intent, request: Request, fingerprint: Hash, created: seq<Id>)
  datatype Journal = Journal(generation: nat, receipt: Option<Receipt>, refusal: Option<Refusal>, delivered: bool)

  /** An identity's directory: its prepared record and its journal, where they are written. */
  datatype Child = Child(prepared: Option<Prepared>, journal: Option<Journal>)

  datatype Disk = Disk(catalogue: Catalogue, children: map<Id, Child>)

  /** The capability a store is opened with and the two hashes it takes: of an intent, refused
      when the intent is malformed, and of a receipt. */
  datatype Env = Env(limits: Limits, digest: Intent -> Option<Hash>, receiptDigest: Receipt -> Hash)

  datatype Operation = Operation(
    id: Id, context: Context, name: string, version: nat, request: Request, fingerprint: Hash,
    created: seq<Id>, receipt: Option<Receipt>, refusal: Option<Refusal>, delivered: bool)

  // ---------------------------------------------------------------- validity

  predicate ValidLimits(l: Limits) {
    0 < l.maxOperations <= MAX_OPERATIONS && ROOT_RESERVATION <= l.maxReservedBytes
  }

  predicate ValidContext(c: Context) {
    c.cluster != 0 && c.principal != 0 && c.ledger.tenant != 0 && c.ledger.session != 0
  }

  function Reserved(operations: nat): nat {
    operations * OPERATION_RESERVATION + ROOT_RESERVATION
  }

  predicate Full(l: Limits, operations: nat) {
    operations >= l.maxOperations || Reserved(operations) + OPERATION_RESERVATION > l.maxReservedBytes
  }

  predicate Coherent(l: Limits, c: Catalogue) {
    && 0 !in c.entries && 0 !in c.retired
    && c.entries.Keys !! c.retired.Keys
    && |c.retired| <= l.maxOperations
    && 1 <= c.floor <= c.generation
    && forall id :: id in c.entries ==> 1 <= c.entries[id].epoch <= c.generation
  }

  /** Why a catalogue is not written, nor read back: none when it may be. */
  function Fault(l: Limits, c: Catalogue): (r: Option<Error>)
    ensures r == None ==> Coherent(l, c) && c.limits == l && ValidLimits(l) && |c.entries| <= l.maxOperations
  {
    if !Coherent(l, c) then Some(Corrupt)
    else if c.limits != l then Some(LimitsMismatch)
    else if !ValidLimits(l) then Some(Capacity)
    else if |c.entries| > l.maxOperations || Reserved(|c.entries|) > l.maxReservedBytes then Some(Capacity)
    else if exists id :: id in c.entries && !ValidContext(c.entries[id].context) then Some(ContextMismatch)
    else None
  }

  predicate ValidRequest(context: Context, id: Id, epoch: nat, request: Request, fingerprint: Hash) {
    && request.native
    && request.protocol == NATIVE_PROTOCOL_VERSION
    && request.ledger == context.ledger
    && request.epoch == epoch && epoch != 0
    && request.id == id
    && request.routeEpoch != 0
    && |request.frame| <= MAX_NATIVE_FRAME_BYTES
    && fingerprint != 0
    && var key := RequestKey(context.principal, epoch, id);
    request.header == Some(FrameHeader(NATIVE_ACTOR_NAMESPACE, context.ledger, key))
  }

  predicate ValidReceipt(context: Context, id: Id, epoch: nat, fingerprint: Hash, receipt: Receipt) {
    && receipt.invocation == OfRequest(RequestKey(context.principal, epoch, id))
    && receipt.intent == fingerprint
    && receipt.sequence != 0
  }

  predicate ValidPrepared(env: Env, id: Id, p: Prepared) {
    && ValidContext(p.context)
    && env.digest(p.intent).Some?
    && ValidRequest(p.context, id, p.request.epoch, p.request, p.fingerprint)
  }

  predicate ValidJournal(j: Journal) {
    && j.generation != 0
    && (j.delivered ==> j.receipt.Some? || j.refusal.Some?)
    && !(j.receipt.Some? && j.refusal.Some?)
  }

  const NoJournal: Journal := Journal(0, None, None, false)

  function ReadJournal(d: Disk, id: Id): Result<Journal> {
    if id !in d.children || d.children[id].journal == None then Ok(NoJournal)
    else if !ValidJournal(d.children[id].journal.value) then Err(Corrupt)
    else Ok(d.children[id].journal.value)
  }

  function ReadPrepared(env: Env, d: Disk, id: Id, ready: bool): Result<Prepared> {
    if id !in d.children || d.children[id].prepared == None then Err(if ready then Corrupt else Incomplete)
    else if !ValidPrepared(env, id, d.children[id].prepared.value) then Err(Corrupt)
    else Ok(d.children[id].prepared.value)
  }

  function Assemble(id: Id, p: Prepared, j: Journal): Operation {
    Operation(id, p.context, p.intent.name, p.intent.version, p.request, p.fingerprint, p.created,
              j.receipt, j.refusal, j.delivered)
  }

  // ---------------------------------------------------------------- the least of an order

  /** Least by order, then by identity: the minimum of the pairs the journal compares. */
  ghost predicate IsLeast(m: map<Id, nat>, id: Id) {
    id in m && forall x :: x in m ==> m[id] < m[x] || (m[id] == m[x] && id <= x)
  }

  lemma LeastUnique(m: map<Id, nat>, a: Id, b: Id)
    requires IsLeast(m, a) && IsLeast(m, b)
    ensures a == b
  {
  }

  method FindLeast(m: map<Id, nat>) returns (r: Option<Id>)
    ensures r.None? <==> m == map[]
    ensures r.Some? ==> IsLeast(m, r.value)
  {
    r := None;
    var rest := m.Keys;
    while rest != {}
      invariant rest <= m.Keys
      invariant r.None? <==> rest == m.Keys
      invariant r.Some? ==> r.value in m && forall x :: x in m && x !in rest ==>
                  m[r.value] < m[x] || (m[r.value] == m[x] && r.value <= x)
    {
      var x :| x in rest;
      rest := rest - {x};
      if r.None? || m[x] < m[r.value] || (m[x] == m[r.value] && x < r.value) {
        r := Some(x);
      }
    }
    if m == map[] {
      assert m.Keys == {};
    }
  }

  lemma LeastExists(m: map<Id, nat>)
    requires m != map[]
    ensures exists id :: IsLeast(m, id)
  {
    var k :| k in m;
    var n := m - {k};
    if n == map[] {
      forall x | x in m ensures x == k { assert x != k ==> x in n; }
      assert IsLeast(m, k);
    } else {
      LeastExists(n);
      var i :| IsLeast(n, i);
      var least := if m[k] < m[i] || (m[k] == m[i] && k < i) then k else i;
      forall x | x in m
        ensures m[least] < m[x] || (m[least] == m[x] && least <= x)
      {
        assert x != k ==> x in n;
      }
      assert IsLeast(m, least);
    }
  }

  ghost function Least(m: map<Id, nat>): (id: Id)
    requires m != map[]
    ensures IsLeast(m, id)
  {
    LeastExists(m);
    var id :| IsLeast(m, id);
    id
  }

  function Reports(entries: map<Id, Entry>): map<Id, nat> {
    map id | id in entries && entries[id].retirable.Some? :: entries[id].retirable.value
  }

  function Orders(retired: map<Id, Retired>): (m: map<Id, nat>)
    ensures m.Keys == retired.Keys
  {
    map id | id in retired :: retired[id].order
  }
}
