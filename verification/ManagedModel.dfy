/**
 A managed stream's store: a window of issued ordinals with their requests and receipts, the
 stream's pending control, and every call as the durable writes it makes, in order, and its answer.
 */
module ManagedModel {
  import opened Basics

  type Result<T> = Attempt<T, Error>

  datatype Error =
    | InvalidIntent | LimitsMismatch | InvalidId | Retired | Missing | Conflict | Corrupt | WrongContext
    | Capacity | NotRegistered | Stopped | ControlPending | Unprepared | ReceiptMismatch | Unresolved | Expansion

  type Hash = nat

  const U64_MAX: nat := 0xFFFF_FFFF_FFFF_FFFF
  const MAX_WINDOW: nat := 256
  const STATE_BYTES: nat := 256 * 1024
  const PREPARED_BYTES: nat := 1024 * 1024 + 256 * 1024 + 1024
  const RECEIPT_BYTES: nat := 1024 * 1024
  const ROOT_BYTES: nat := 2 * STATE_BYTES + 4096
  const SLOT_BYTES: nat := 2 * (PREPARED_BYTES + RECEIPT_BYTES + 44) + 16384

  // ---------------------------------------------------------------- what the files hold

  datatype Context = Context(cluster: nat, tenant: nat, session: nat, principal: nat)
  datatype Stream = Stream(context: Context, slot: nat, generation: nat)
  datatype Key = Key(stream: Stream, ordinal: nat, id: nat)
  /** What a caller holds: a key without the context, which the store supplies. */
  datatype OperationId = OperationId(slot: nat, generation: nat, ordinal: nat, request: nat)

  datatype Limits = Limits(window: nat, maxReservedBytes: nat)
  datatype Intent = Intent(name: string, version: nat, canonical: seq<bv8>)
  datatype Family = Domain | Cursor
  datatype Identity = Identity(key: Key, family: Family, hash: Hash)
  datatype Request = Request(bytes: seq<bv8>)
  datatype Prepared = Prepared(intent: Intent, request: Request)
  datatype Receipt = Receipt(key: Key, intentHash: Hash, raftIndex: nat, body: nat)
  datatype Seal = Seal(family: Family, hash: Hash)
  datatype Ack = Ack(key: Key, receiptHash: Hash)

  datatype Command =
    | Register(slot: nat, expectedGeneration: nat, owner: nat, window: nat)
    | Acknowledge(stream: Stream, expectedRevision: nat, through: nat, receipts: seq<Ack>)
    | SealOne(key: Key, expectedRevision: nat, family: Family, hash: Hash)
    | Close(stream: Stream, expectedRevision: nat, issuedThrough: nat)
  datatype Control = Control(context: Context, id: nat, command: Command)

  datatype Outcome =
    | Registered(stream: Stream, owner: nat, revision: nat, window: nat, acknowledgedThrough: nat)
    | Vacant(slot: nat, generation: nat)
    | Acknowledged(stream: Stream, revision: nat, through: nat)
    | Sealed(receipt: Receipt)
    | Closed(stream: Stream, vacantGeneration: nat)
  datatype ControlReceipt = ControlReceipt(
    context: Context, id: nat, raftIndex: nat, intentHash: Hash, outcome: Outcome)

  datatype Entry = Entry(key: Key, intent: Option<Hash>, prepared: bool, receipt: Option<Hash>, seal: Option<Seal>)

  datatype State = State(
    context: Context, limits: Limits, registration: Control, registered: Option<ControlReceipt>,
    revision: nat, frontier: nat, retired: nat, garbage: nat, stopped: bool, closed: bool,
    entries: seq<Entry>, control: Option<Control>, lastControl: Option<ControlReceipt>)

  /** The stream's directory: its state and, by ordinal, the prepared requests and the receipts. */
  datatype Disk = Disk(state: State, prepared: map<nat, Prepared>, receipts: map<nat, Receipt>)

  /** What the store is opened with, and the functions of other code it calls: hashes, the identity a
      wire request states, and whether a receipt's body is well formed for a family. */
  datatype Env = Env(
    context: Context, limits: Limits, digest: Intent -> Option<Hash>, identity: Request -> Option<Identity>,
    receiptHash: Receipt -> Hash, controlHash: (Context, Command) -> Hash, sealHash: (Key, Option<Hash>) -> Hash,
    wellFormed: (Receipt, Family) -> bool)

  // ---------------------------------------------------------------- validity

  predicate ValidStream(s: Stream) {
    s.context.cluster != 0 && s.context.tenant != 0 && s.context.session != 0 && s.context.principal != 0
    && s.generation > 0
  }

  predicate ValidKey(k: Key) {
    ValidStream(k.stream) && k.ordinal > 0 && k.id != 0
  }

  function KeyOf(id: OperationId, context: Context): Key {
    Key(Stream(context, id.slot, id.generation), id.ordinal, id.request)
  }

  function IdOf(k: Key): OperationId {
    OperationId(k.stream.slot, k.stream.generation, k.ordinal, k.id)
  }

  predicate ValidLimits(l: Limits) {
    1 <= l.window <= MAX_WINDOW && l.window * SLOT_BYTES + ROOT_BYTES <= l.maxReservedBytes
  }

  predicate AnswersControl(env: Env, input: Control, r: ControlReceipt) {
    r.context == input.context && r.id == input.id && r.raftIndex != 0
    && r.intentHash == env.controlHash(input.context, input.command)
  }

  function RegistrationFault(env: Env, s: State, r: ControlReceipt): Option<Error> {
    if !AnswersControl(env, s.registration, r) then Some(ReceiptMismatch)
    else if !s.registration.command.Register? then Some(Corrupt)
    else
      var c := s.registration.command;
      if && r.outcome.Registered? && r.outcome.revision == 1 && r.outcome.acknowledgedThrough == 0
         && r.outcome.stream.context == s.context && r.outcome.stream.slot == c.slot
         && c.expectedGeneration < U64_MAX && r.outcome.stream.generation == c.expectedGeneration + 1
         && r.outcome.owner == c.owner && r.outcome.window == c.window
      then None
      else Some(ReceiptMismatch)
  }

  /** The stream the store owns: the one its registration committed, or the one it asks for. */
  function StreamOf(s: State): Result<Stream> {
    if s.registered.Some? && s.registered.value.outcome.Registered? then Ok(s.registered.value.outcome.stream)
    else if !s.registration.command.Register? then Err(Corrupt)
    else if s.registration.command.expectedGeneration >= U64_MAX then Err(Capacity)
    else Ok(Stream(s.context, s.registration.command.slot, s.registration.command.expectedGeneration + 1))
  }

  predicate MarksFit(s: State, l: Limits) {
    && s.garbage <= s.retired <= s.frontier
    && s.frontier - s.retired == |s.entries| <= l.window
    && s.retired - s.garbage <= l.window
    && (s.closed ==> s.stopped && s.retired == s.frontier)
  }

  predicate EntryValid(e: Entry, stream: Stream, ordinal: nat) {
    && ValidKey(e.key) && e.key.stream == stream && e.key.ordinal == ordinal
    && (e.prepared ==> e.intent.Some?)
    && (e.receipt.Some? ==> e.prepared || e.seal.Some?)
  }

  predicate EntriesValid(entries: seq<Entry>, stream: Stream, retired: nat) {
    forall i :: 0 <= i < |entries| ==> EntryValid(entries[i], stream, retired + 1 + i)
  }

  function Fault(env: Env, s: State): Option<Error> {
    var stream := StreamOf(s);
    if !ValidLimits(env.limits) then Some(Capacity)
    else if s.context != env.context then Some(WrongContext)
    else if s.limits != env.limits then Some(LimitsMismatch)
    else if stream.Err? then Some(stream.error)
    else if !ValidStream(stream.value) || s.registration.id == 0 || s.registration.context != env.context
            || !MarksFit(s, env.limits)
    then Some(Corrupt)
    else if !s.registration.command.Register? || s.registration.command.owner == 0
            || s.registration.command.window != env.limits.window
    then Some(Corrupt)
    else if !EntriesValid(s.entries, stream.value, s.retired) then Some(Corrupt)
    else if s.registered.Some? then
      var fault := RegistrationFault(env, s, s.registered.value);
      if fault.Some? then fault else if s.revision == 0 then Some(Corrupt) else None
    else if s.frontier != 0 || s.revision != 0 || s.control.Some? || s.stopped then Some(Corrupt)
    else None
  }

  function Index(s: State, id: OperationId): Result<nat> {
    var key := KeyOf(id, s.context);
    var stream := StreamOf(s);
    if stream.Err? then Err(stream.error)
    else if && s.registered.Some? && key.stream.slot == stream.value.slot
            && key.stream.generation < stream.value.generation
    then Err(Retired)
    else if key.stream != stream.value then Err(Missing)
    else if s.closed || key.ordinal <= s.retired then Err(Retired)
    else if key.ordinal - s.retired - 1 >= |s.entries| then Err(Missing)
    else if s.entries[key.ordinal - s.retired - 1].key != key then Err(Conflict)
    else Ok(key.ordinal - s.retired - 1)
  }

  // ---------------------------------------------------------------- requests and receipts

  function PreparedFault(env: Env, key: Key, digest: Hash, p: Prepared): Option<Error> {
    if env.digest(p.intent).None? then Some(InvalidIntent)
    else if env.digest(p.intent).value != digest then Some(Corrupt)
    else if env.identity(p.request).None? then Some(Conflict)
    else if env.identity(p.request).value.key != key then Some(WrongContext)
    else None
  }

  /** The prepared request of an ordinal, as it is read back. */
  function ReadPrepared(env: Env, d: Disk, key: Key, digest: Hash): Result<Prepared> {
    if key.ordinal !in d.prepared then Err(Corrupt)
    else
      var fault := PreparedFault(env, key, digest, d.prepared[key.ordinal]);
      if fault.Some? then Err(fault.value) else Ok(d.prepared[key.ordinal])
  }

  /** The receipt is of exactly this operation. */
  predicate Proves(env: Env, r: Receipt, key: Key, family: Family, hash: Hash) {
    ValidKey(key) && r.key == key && r.intentHash == hash && r.raftIndex != 0 && env.wellFormed(r, family)
  }

  predicate ProvesRequest(env: Env, r: Receipt, request: Request) {
    var identity := env.identity(request);
    identity.Some? && Proves(env, r, identity.value.key, identity.value.family, identity.value.hash)
  }

  function SavedReceipt(env: Env, d: Disk, e: Entry): Result<Option<Receipt>> {
    if e.key.ordinal !in d.receipts then (if e.receipt.None? then Ok(None) else Err(Corrupt))
    else
      var r := d.receipts[e.key.ordinal];
      if e.prepared && e.intent.None? then Err(Corrupt)
      else if e.prepared && ReadPrepared(env, d, e.key, e.intent.value).Err? then
        Err(ReadPrepared(env, d, e.key, e.intent.value).error)
      else if e.prepared && !ProvesRequest(env, r, d.prepared[e.key.ordinal].request) then Err(ReceiptMismatch)
      else if !e.prepared && e.seal.None? then Err(Corrupt)
      else if !e.prepared && !Proves(env, r, e.key, e.seal.value.family, e.seal.value.hash) then Err(ReceiptMismatch)
      else if e.receipt.Some? && e.receipt.value != env.receiptHash(r) then Err(Corrupt)
      else Ok(Some(r))
  }

  // ---------------------------------------------------------------- writes

  datatype Write =
    | Save(state: State)
    | PutPrepared(ordinal: nat, prepared: Prepared)
    | PutReceipt(ordinal: nat, receipt: Receipt)
    | RemovePrepared(ordinal: nat)
    | RemoveReceipt(ordinal: nat)

  datatype Answer =
    | Done
    | Drained(now: bool)
    | Issued(id: OperationId)
    | Ready(prepared: Prepared)
    | Stored(receipt: Option<Receipt>)
    | Through(ordinal: nat)
    | Asked(control: Control)
    | Live(ids: seq<OperationId>)

  datatype Run = Run(writes: seq<Write>, answer: Result<Answer>)

  function Refuse(e: Error): Run {
    Run([], Err(e))
  }

  function Apply(d: Disk, w: Write): Disk {
    match w
    case Save(s) => d.(state := s)
    case PutPrepared(o, p) => d.(prepared := d.prepared[o := p])
    case PutReceipt(o, r) => d.(receipts := d.receipts[o := r])
    case RemovePrepared(o) => d.(prepared := d.prepared - {o})
    case RemoveReceipt(o) => d.(receipts := d.receipts - {o})
  }

  function After(d: Disk, writes: seq<Write>): Disk {
    if writes == [] then d else Apply(After(d, writes[..|writes| - 1]), writes[|writes| - 1])
  }

  lemma {:induction false} AfterConcat(d: Disk, a: seq<Write>, b: seq<Write>)
    ensures After(d, a + b) == After(After(d, a), b)
    decreases |b|
  {
    if b == [] {
      assert a + b == a;
    } else {
      assert (a + b)[..|a + b| - 1] == a + b[..|b| - 1];
      AfterConcat(d, a, b[..|b| - 1]);
    }
  }

  lemma AfterNone(d: Disk)
    ensures After(d, []) == d
  {
  }

  lemma AfterOne(d: Disk, w: Write)
    ensures After(d, [w]) == Apply(d, w)
  {
    assert [w][..0] == [];
  }

  lemma AfterTwo(d: Disk, v: Write, w: Write)
    ensures After(d, [v, w]) == Apply(Apply(d, v), w)
  {
    assert [v, w] == [v] + [w];
    AfterConcat(d, [v], [w]);
    AfterOne(d, v);
    AfterOne(Apply(d, v), w);
  }

  /** A state saved if it may be. */
  function SaveState(env: Env, s: State, answer: Result<Answer>): Run {
    if Fault(env, s).Some? then Refuse(Fault(env, s).value) else Run([Save(s)], answer)
  }

  /** `first`'s writes and, where it succeeds, `next`'s after them. */
  function Follow(first: Run, next: Run): Run {
    if first.answer.Err? then first else Run(first.writes + next.writes, next.answer)
  }

  // ---------------------------------------------------------------- loading

  /** The files of ordinals after `garbage` through `retired`, removed in order. */
  function Cleanup(garbage: nat, retired: nat): seq<Write>
    requires garbage <= retired
    decreases retired - garbage
  {
    if garbage == retired then []
    else Cleanup(garbage, retired - 1) + [RemovePrepared(retired), RemoveReceipt(retired)]
  }

  predicate FilesPresent(d: Disk) {
    forall i :: 0 <= i < |d.state.entries| ==>
      var e := d.state.entries[i];
      (e.prepared ==> e.key.ordinal in d.prepared) && (e.receipt.Some? ==> e.key.ordinal in d.receipts)
  }

  function Load(env: Env, d: Disk): Run {
    if Fault(env, d.state).Some? then Refuse(Fault(env, d.state).value)
    else if !FilesPresent(d) then Refuse(Corrupt)
    else if d.state.garbage < d.state.retired then
      var saved := SaveState(env, d.state.(garbage := d.state.retired), Ok(Done));
      Run(Cleanup(d.state.garbage, d.state.retired) + saved.writes, saved.answer)
    else Run([], Ok(Done))
  }

  // ---------------------------------------------------------------- calls, once loaded

  function StopIfDrained(env: Env, s: State, threshold: nat): Run {
    if s.registered.None? then Refuse(NotRegistered)
    else if s.stopped || s.closed || s.control.Some? || s.frontier < (if threshold > 1 then threshold else 1)
            || s.retired != s.frontier || s.entries != []
    then Run([], Ok(Drained(false)))
    else SaveState(env, s.(stopped := true), Ok(Drained(true)))
  }

  function RecordRegistration(env: Env, s: State, r: ControlReceipt): Run {
    if RegistrationFault(env, s, r).Some? then Refuse(RegistrationFault(env, s, r).value)
    else if s.registered.Some? then (if s.registered.value == r then Run([], Ok(Done)) else Refuse(ReceiptMismatch))
    else SaveState(env, s.(registered := Some(r), revision := 1), Ok(Done))
  }

  function Reserve(env: Env, s: State, request: nat): Run {
    if s.registered.None? then Refuse(NotRegistered)
    else if s.stopped then Refuse(Stopped)
    else if request == 0 then Refuse(InvalidId)
    else if |s.entries| >= env.limits.window then Refuse(Capacity)
    else if s.frontier >= U64_MAX then Refuse(Capacity)
    else if StreamOf(s).Err? then Refuse(StreamOf(s).error)
    else
      var key := Key(StreamOf(s).value, s.frontier + 1, request);
      SaveState(env, s.(entries := s.entries + [Entry(key, None, false, None, None)], frontier := s.frontier + 1),
                if ValidKey(key) then Ok(Issued(IdOf(key))) else Err(InvalidId))
  }

  function WithEntry(s: State, i: nat, e: Entry): State
    requires i < |s.entries|
  {
    s.(entries := s.entries[i := e])
  }

  /** The intent bound to the entry, unless one is. */
  function BindIntent(env: Env, s: State, i: nat, digest: Hash): Run
    requires i < |s.entries|
  {
    if s.entries[i].intent.Some? then Run([], Ok(Done))
    else SaveState(env, WithEntry(s, i, s.entries[i].(intent := Some(digest))), Ok(Done))
  }

  /** The request written, unless one is, and then answered. */
  function WriteRequest(env: Env, d: Disk, i: nat, intent: Intent, digest: Hash, expand: Key -> Result<Request>): Run
    requires i < |d.state.entries|
  {
    var key := d.state.entries[i].key;
    if key.ordinal in d.prepared then
      var read := ReadPrepared(env, d, key, digest);
      if read.Err? then Refuse(read.error) else Run([], Ok(Ready(read.value)))
    else if d.state.entries[i].prepared then Refuse(Corrupt)
    else if expand(key).Err? then Refuse(expand(key).error)
    else
      var p := Prepared(intent, expand(key).value);
      var fault := PreparedFault(env, key, digest, p);
      if fault.Some? then Refuse(fault.value) else Run([PutPrepared(key.ordinal, p)], Ok(Ready(p)))
  }

  function MarkPrepared(env: Env, s: State, i: nat, intent: Intent, p: Prepared): Run
    requires i < |s.entries|
  {
    if p.intent != intent then Refuse(Conflict)
    else if s.entries[i].prepared then Run([], Ok(Ready(p)))
    else SaveState(env, WithEntry(s, i, s.entries[i].(prepared := true)), Ok(Ready(p)))
  }

  /** The request written and marked, once the intent is bound. */
  function WriteAndMark(env: Env, d: Disk, i: nat, intent: Intent, digest: Hash, expand: Key -> Result<Request>): Run
    requires i < |d.state.entries|
  {
    var written := WriteRequest(env, d, i, intent, digest, expand);
    if written.answer.Ok? && written.answer.value.Ready?
    then Follow(written, MarkPrepared(env, d.state, i, intent, written.answer.value.prepared))
    else written
  }

  function Prepare(env: Env, d: Disk, id: OperationId, intent: Intent, digest: Hash,
                   expand: Key -> Result<Request>): Run
  {
    var index := Index(d.state, id);
    if index.Err? then Refuse(index.error)
    else
      var e := d.state.entries[index.value];
      if e.seal.Some? && !e.prepared then Refuse(Stopped)
      else if e.intent.Some? && e.intent.value != digest then Refuse(Conflict)
      else
        var bound := BindIntent(env, d.state, index.value, digest);
        var next := if bound.writes == [] then d.state else WithEntry(d.state, index.value, e.(intent := Some(digest)));
        Follow(bound, WriteAndMark(env, d.(state := next), index.value, intent, digest, expand))
  }

  function RequestOf(env: Env, d: Disk, id: OperationId): Run {
    var index := Index(d.state, id);
    if index.Err? then Refuse(index.error)
    else
      var e := d.state.entries[index.value];
      if !e.prepared then Refuse(Unprepared)
      else if e.intent.None? then Refuse(Corrupt)
      else
        var read := ReadPrepared(env, d, e.key, e.intent.value);
        if read.Err? then Refuse(read.error) else Run([], Ok(Ready(read.value)))
  }

  /** A receipt written for an ordinal, unless that very receipt is there. */
  function WriteReceipt(env: Env, d: Disk, e: Entry, r: Receipt): Run {
    if e.receipt.Some? && e.receipt.value != env.receiptHash(r) then Refuse(ReceiptMismatch)
    else if e.key.ordinal in d.receipts then
      (if d.receipts[e.key.ordinal] != r then Refuse(ReceiptMismatch) else Run([], Ok(Done)))
    else if e.receipt.Some? then Refuse(Corrupt)
    else Run([PutReceipt(e.key.ordinal, r)], Ok(Done))
  }

  function RecordReceipt(env: Env, d: Disk, id: OperationId, r: Receipt): Run {
    var index := Index(d.state, id);
    if index.Err? then Refuse(index.error)
    else
      var e := d.state.entries[index.value];
      if e.intent.None? then Refuse(Unprepared)
      else
        var read := ReadPrepared(env, d, e.key, e.intent.value);
        if read.Err? then Refuse(read.error)
        else if !ProvesRequest(env, r, read.value.request) then Refuse(ReceiptMismatch)
        else
          var after := e.(prepared := true, receipt := Some(env.receiptHash(r)));
          Follow(WriteReceipt(env, d, e, r), SaveState(env, WithEntry(d.state, index.value, after), Ok(Done)))
  }

  function ReceiptOf(env: Env, d: Disk, id: OperationId): Run {
    var index := Index(d.state, id);
    if index.Err? then Refuse(index.error)
    else
      var saved := SavedReceipt(env, d, d.state.entries[index.value]);
      if saved.Err? then Refuse(saved.error) else Run([], Ok(Stored(saved.value)))
  }

  function Outstanding(s: State): Run {
    if forall e <- s.entries :: ValidKey(e.key)
    then Run([], Ok(Live(seq(|s.entries|, i requires 0 <= i < |s.entries| => IdOf(s.entries[i].key)))))
    else Refuse(InvalidId)
  }

  // ---------------------------------------------------------------- controls

  function ControlFault(s: State, id: nat): Option<Error> {
    if id == 0 then Some(InvalidId)
    else if s.registered.None? then Some(NotRegistered)
    else if s.closed then Some(Retired)
    else if s.control.Some? then Some(ControlPending)
    else if id == s.registration.id || (s.lastControl.Some? && s.lastControl.value.id == id) then Some(Conflict)
    else None
  }

  function SaveControl(env: Env, s: State, id: nat, command: Command): Run {
    var input := Control(s.context, id, command);
    SaveState(env, s.(control := Some(input)), Ok(Asked(input)))
  }

  /** The receipts of the leading entries that have one, `maximum` at most. */
  function Manifest(env: Env, d: Disk, entries: seq<Entry>, maximum: nat): Result<seq<Ack>>
    decreases maximum
  {
    if entries == [] || maximum == 0 then Ok([])
    else
      var saved := SavedReceipt(env, d, entries[0]);
      if saved.Err? then Err(saved.error)
      else if saved.value.None? then Ok([])
      else
        var rest := Manifest(env, d, entries[1..], maximum - 1);
        if rest.Err? then rest else Ok([Ack(saved.value.value.key, env.receiptHash(saved.value.value))] + rest.value)
  }

  function PrepareAcknowledgment(env: Env, d: Disk, id: nat, maximum: nat): Run {
    var s := d.state;
    if ControlFault(s, id).Some? then Refuse(ControlFault(s, id).value)
    else if maximum == 0 || maximum > env.limits.window then Refuse(Capacity)
    else
      var acks := Manifest(env, d, s.entries, maximum);
      if acks.Err? then Refuse(acks.error)
      else if acks.value == [] then Refuse(Unresolved)
      else if StreamOf(s).Err? then Refuse(StreamOf(s).error)
      else
        var through := acks.value[|acks.value| - 1].key.ordinal;
        SaveControl(env, s, id, Acknowledge(StreamOf(s).value, s.revision, through, acks.value))
  }

  /** What a seal binds: what an earlier seal bound, the saved request, or the bare gap. */
  function Binding(env: Env, d: Disk, e: Entry): Result<(Seal, bool)> {
    if e.seal.Some? then Ok((e.seal.value, e.prepared))
    else if e.prepared || e.key.ordinal in d.prepared then
      if e.intent.None? then Err(Corrupt)
      else
        var read := ReadPrepared(env, d, e.key, e.intent.value);
        if read.Err? then Err(read.error)
        else
          var identity := env.identity(read.value.request).value;
          Ok((Seal(identity.family, identity.hash), true))
    else Ok((Seal(Domain, env.sealHash(e.key, e.intent)), false))
  }

  function PrepareSeal(env: Env, d: Disk, operation: OperationId, id: nat): Run {
    var s := d.state;
    if ControlFault(s, id).Some? then Refuse(ControlFault(s, id).value)
    else
      var index := Index(s, operation);
      if index.Err? then Refuse(index.error)
      else
        var e := s.entries[index.value];
        var bound := Binding(env, d, e);
        if bound.Err? then Refuse(bound.error)
        else
          var (seal, prepared) := bound.value;
          SaveControl(env, WithEntry(s, index.value, e.(seal := Some(seal), prepared := prepared)), id,
                      SealOne(e.key, s.revision, seal.family, seal.hash))
  }

  function StopIssuance(env: Env, s: State): Run {
    if s.registered.None? then Refuse(NotRegistered)
    else SaveState(env, s.(stopped := true), Ok(Through(s.frontier)))
  }

  function PrepareClose(env: Env, s: State, id: nat): Run {
    if ControlFault(s, id).Some? then Refuse(ControlFault(s, id).value)
    else if !s.stopped || s.retired != s.frontier then Refuse(Unresolved)
    else if StreamOf(s).Err? then Refuse(StreamOf(s).error)
    else SaveControl(env, s, id, Close(StreamOf(s).value, s.revision, s.frontier))
  }

  /** The manifest still names, in order, the receipts saved for the leading entries. */
  function ManifestFault(env: Env, d: Disk, entries: seq<Entry>, acks: seq<Ack>): Option<Error>
    decreases |acks|
  {
    if entries == [] || acks == [] then None
    else
      var saved := SavedReceipt(env, d, entries[0]);
      if saved.Err? then Some(saved.error)
      else if saved.value.None? then Some(Corrupt)
      else if saved.value.value.key != acks[0].key || env.receiptHash(saved.value.value) != acks[0].receiptHash
      then Some(Corrupt)
      else ManifestFault(env, d, entries[1..], acks[1..])
  }

  function Complete(env: Env, s: State, receipt: ControlReceipt): Run {
    SaveState(env, s.(control := None, lastControl := Some(receipt)), Ok(Done))
  }

  function RecordAcknowledged(env: Env, d: Disk, command: Command, receipt: ControlReceipt): Run
    requires command.Acknowledge? && receipt.outcome.Acknowledged?
  {
    var s := d.state;
    if s.revision >= U64_MAX then Refuse(Capacity)
    else if command.stream != receipt.outcome.stream || command.expectedRevision != s.revision
            || receipt.outcome.revision != s.revision + 1 || command.through != receipt.outcome.through
            || command.through <= s.retired || command.through > s.frontier
    then Refuse(ReceiptMismatch)
    else
      var count := command.through - s.retired;
      if count != |command.receipts| then Refuse(Corrupt)
      else if ManifestFault(env, d, s.entries, command.receipts).Some? then
        Refuse(ManifestFault(env, d, s.entries, command.receipts).value)
      else if count > |s.entries| then Refuse(Corrupt)
      else
        var drained := s.(entries := s.entries[count..], retired := command.through, revision := s.revision + 1);
        Complete(env, drained, receipt)
  }

  function RecordSealed(env: Env, d: Disk, command: Command, receipt: ControlReceipt): Run
    requires command.SealOne? && receipt.outcome.Sealed?
  {
    var s := d.state;
    var outcome := receipt.outcome.receipt;
    if s.revision >= U64_MAX then Refuse(Capacity)
    else if command.expectedRevision != s.revision || outcome.raftIndex > receipt.raftIndex then Refuse(ReceiptMismatch)
    else if !Proves(env, outcome, command.key, command.family, command.hash) then Refuse(ReceiptMismatch)
    else
      var index := Index(s, IdOf(command.key));
      if index.Err? then Refuse(index.error)
      else
        var e := s.entries[index.value];
        var after := WithEntry(s, index.value, e.(receipt := Some(env.receiptHash(outcome))));
        Follow(WriteReceipt(env, d, e, outcome), Complete(env, after.(revision := s.revision + 1), receipt))
  }

  function RecordClosed(env: Env, s: State, command: Command, receipt: ControlReceipt): Run
    requires command.Close? && receipt.outcome.Closed?
  {
    if command.stream != receipt.outcome.stream || receipt.outcome.vacantGeneration != command.stream.generation
       || !s.stopped || command.expectedRevision != s.revision || command.issuedThrough != s.frontier
       || s.retired != s.frontier
    then Refuse(ReceiptMismatch)
    else Complete(env, s.(closed := true), receipt)
  }

  function PriorIndex(s: State): Result<nat> {
    if s.lastControl.Some? then Ok(s.lastControl.value.raftIndex)
    else if s.registered.Some? then Ok(s.registered.value.raftIndex)
    else Err(Corrupt)
  }

  function RecordControl(env: Env, d: Disk, receipt: ControlReceipt): Run {
    var s := d.state;
    if s.lastControl == Some(receipt) then Run([], Ok(Done))
    else if s.control.None? then Refuse(ReceiptMismatch)
    else if !AnswersControl(env, s.control.value, receipt) then Refuse(ReceiptMismatch)
    else if PriorIndex(s).Err? then Refuse(PriorIndex(s).error)
    else if receipt.raftIndex <= PriorIndex(s).value then Refuse(ReceiptMismatch)
    else
      var command := s.control.value.command;
      if command.Acknowledge? && receipt.outcome.Acknowledged? then RecordAcknowledged(env, d, command, receipt)
      else if command.SealOne? && receipt.outcome.Sealed? then RecordSealed(env, d, command, receipt)
      else if command.Close? && receipt.outcome.Closed? then RecordClosed(env, s, command, receipt)
      else Refuse(ReceiptMismatch)
  }

  // ---------------------------------------------------------------- calls

  datatype Call =
    | CallOpen
    | CallStopIfDrained(threshold: nat)
    | CallRecordRegistration(registration: ControlReceipt)
    | CallReserve(request: nat)
    | CallPrepare(id: OperationId, intent: Intent, expand: Key -> Result<Request>)
    | CallRequest(id: OperationId)
    | CallRecordReceipt(id: OperationId, receipt: Receipt)
    | CallReceipt(id: OperationId)
    | CallOutstanding
    | CallPrepareAcknowledgment(control: nat, maximum: nat)
    | CallPrepareSeal(id: OperationId, control: nat)
    | CallStopIssuance
    | CallPrepareClose(control: nat)
    | CallRecordControl(answer: ControlReceipt)

  function Act(env: Env, d: Disk, call: Call): Run {
    match call
    case CallOpen => Run([], Ok(Done))
    case CallStopIfDrained(threshold) => StopIfDrained(env, d.state, threshold)
    case CallRecordRegistration(r) => RecordRegistration(env, d.state, r)
    case CallReserve(request) => Reserve(env, d.state, request)
    case CallPrepare(id, intent, expand) =>
      (match env.digest(intent)
       case None => Refuse(InvalidIntent)
       case Some(digest) => Prepare(env, d, id, intent, digest, expand))
    case CallRequest(id) => RequestOf(env, d, id)
    case CallRecordReceipt(id, r) => RecordReceipt(env, d, id, r)
    case CallReceipt(id) => ReceiptOf(env, d, id)
    case CallOutstanding => Outstanding(d.state)
    case CallPrepareAcknowledgment(id, maximum) => PrepareAcknowledgment(env, d, id, maximum)
    case CallPrepareSeal(operation, id) => PrepareSeal(env, d, operation, id)
    case CallStopIssuance => StopIssuance(env, d.state)
    case CallPrepareClose(id) => PrepareClose(env, d.state, id)
    case CallRecordControl(r) => RecordControl(env, d, r)
  }

  /** A call: an intent no digest can be made of is refused at once; otherwise the state is loaded first. */
  function RunOf(env: Env, d: Disk, call: Call): Run {
    if call.CallPrepare? && env.digest(call.intent).None? then Refuse(InvalidIntent)
    else
      var loaded := Load(env, d);
      Follow(loaded, Act(env, After(d, loaded.writes), call))
  }

  function Create(env: Env, registration: Control): Result<Disk> {
    var s := State(env.context, env.limits, registration, None, 0, 0, 0, 0, false, false, [], None, None);
    if Fault(env, s).Some? then Err(Fault(env, s).value) else Ok(Disk(s, map[], map[]))
  }
}
