/**
 The client's resumable content transfer: its saved state, what it accepts of one, and what each
 call writes and answers.
 */
module UploadModel {
  import opened Basics
  type Result<T> = Attempt<T, Error>
  datatype Error = Invalid | Conflict | Corrupt | Capacity | Cancelled | Failed | Locked

  type Bytes = seq<bv8>
  type Hash = nat

  const TRANSFER_CHUNK_BYTES: nat := 64 * 1024
  const MAX_TRANSFER_BYTES: nat := 64 * 1024 * 1024
  const MAX_INPUT_BYTES: nat := 256 * 1024
  const PROTOCOL_VERSION: nat := 1

  datatype Limits = Limits(maxPayload: nat, chunk: nat)
  datatype Context = Context(cluster: nat, principal: nat, tenant: nat, session: nat)
  datatype Reference = Reference(domain: nat, root: Hash, kind: nat, length: nat)
  datatype Pending = Begin | Append(offset: nat, count: nat) | Seal | Cancel

  /** What an upload is of; fixed when it is made. */
  datatype Spec = Spec(upload: nat, kind: nat, length: nat, digest: Hash)

  datatype State = State(
    context: Context, route: nat, limits: Limits, spec: Spec,
    staged: nat, received: nat, reference: Option<Reference>, cancelled: bool, cancelAcknowledged: bool,
    begun: bool, verified: bool, cancelRequested: bool, prefixHash: Hash,
    pending: Option<Pending>, binding: Option<Bytes>)

  /** The saved state and the payload file; what the file holds past `staged` was never accepted. */
  datatype Disk = Disk(state: State, payload: Bytes)

  /** The content hash, and the request identity derived from a request's tag and offset. */
  datatype Env = Env(hash: Bytes -> Hash, requestId: (Context, nat, nat, nat) -> nat)

  datatype Operation =
    | BeginUpload(upload: nat, length: nat, digest: Hash, kind: nat)
    | AppendUpload(upload: nat, offset: nat, bytes: Bytes)
    | SealUpload(upload: nat)
    | CancelUpload(upload: nat)

  datatype Envelope = Envelope(
    protocol: nat, id: nat, epoch: nat, tenant: nat, session: nat, route: nat, operation: Operation)
  datatype Reply = Offset(received: nat) | Sealed(reference: Reference) | CancelledReply

  // ---------------------------------------------------------------- validity

  predicate ValidLimits(l: Limits) {
    l.maxPayload <= MAX_TRANSFER_BYTES && 0 < l.chunk <= TRANSFER_CHUNK_BYTES
  }

  predicate ValidReference(r: Reference, s: State) {
    r.domain == s.context.tenant && r.root != 0 && r.kind == s.spec.kind && r.length == s.spec.length
  }

  predicate ValidPending(s: State) {
    match s.pending
    case None => true
    case Some(Begin) => !s.begun && !s.cancelRequested && s.reference == None
    case Some(Append(offset, count)) =>
      && s.begun && !s.cancelRequested && s.reference == None
      && offset == s.received && count != 0 && count <= s.limits.chunk && offset + count <= s.staged
    case Some(Seal) =>
      s.begun && s.verified && s.received == s.spec.length && s.reference == None && !s.cancelRequested
    case Some(Cancel) => s.cancelRequested || s.reference.Some?
  }

  predicate Identified(s: State, context: Context) {
    && s.context == context && context.cluster != 0 && context.principal != 0
    && context.tenant != 0 && context.session != 0
    && s.route != 0 && s.spec.upload != 0
  }

  predicate Measured(s: State) {
    && s.spec.length <= s.limits.maxPayload && s.staged <= s.spec.length && s.received <= s.staged
    && (!s.begun ==> s.received == 0)
    && (s.verified <==> s.staged == s.spec.length)
    && (s.verified ==> s.prefixHash == s.spec.digest)
  }

  predicate Ended(s: State) {
    && (s.cancelled ==> s.cancelRequested && s.reference == None)
    && (s.cancelAcknowledged ==> (s.cancelRequested || s.reference.Some?) && s.pending == None)
    && (s.reference.Some? ==>
          ValidReference(s.reference.value, s) && s.verified && s.begun && s.received == s.spec.length)
  }

  /** What every saved state meets. */
  predicate Valid(s: State, context: Context) {
    && ValidLimits(s.limits)
    && (s.binding.Some? ==> |s.binding.value| <= MAX_INPUT_BYTES)
    && Identified(s, context) && Measured(s) && Ended(s) && ValidPending(s)
  }

  // ---------------------------------------------------------------- durable writes and runs

  datatype Write = PutPayload(offset: nat, bytes: Bytes) | Truncate(length: nat) | Install(state: State)

  function Apply(d: Disk, w: Write): Disk {
    match w
    case PutPayload(offset, bytes) =>
      if offset <= |d.payload| then
        var end := offset + |bytes|;
        d.(payload := d.payload[..offset] + bytes + if end <= |d.payload| then d.payload[end..] else [])
      else d
    case Truncate(length) => if length <= |d.payload| then d.(payload := d.payload[..length]) else d
    case Install(state) => d.(state := state)
  }

  function After(d: Disk, writes: seq<Write>): Disk {
    if writes == [] then d else Apply(After(d, writes[..|writes| - 1]), writes[|writes| - 1])
  }

  lemma OneWrite(d: Disk, w: Write)
    ensures After(d, [w]) == Apply(d, w)
  {
    assert [w][..0] == [];
  }

  lemma TwoWrites(d: Disk, w: Write, x: Write)
    ensures After(d, [w, x]) == Apply(Apply(d, w), x)
  {
    assert [w, x][..1] == [w];
    OneWrite(d, w);
  }

  datatype Answer = Staged(through: nat) | Asked(request: Option<Envelope>) | Done
  datatype Run = Run(writes: seq<Write>, answer: Result<Answer>)

  function Refuse(e: Error): Run {
    Run([], Err(e))
  }

  /** A state saved if it is valid, after `before`. */
  function Save(d: Disk, before: seq<Write>, s: State, answer: Answer): Run {
    if Valid(s, d.state.context) then Run(before + [Install(s)], Ok(answer)) else Run(before, Err(Corrupt))
  }

  // ---------------------------------------------------------------- the calls

  /** Accepts bytes that extend the saved prefix, or repeat some of it exactly. */
  function Stage(env: Env, d: Disk, offset: nat, bytes: Bytes): Run {
    var s := d.state;
    var end := offset + |bytes|;
    if s.cancelRequested || s.reference.Some? then Refuse(Cancelled)
    else if bytes == [] || |bytes| > TRANSFER_CHUNK_BYTES then Refuse(Capacity)
    else if end > s.spec.length then Refuse(Capacity)
    else if offset < s.staged && end <= s.staged then
      if end <= |d.payload| && d.payload[offset..end] == bytes then Run([], Ok(Staged(s.staged))) else Refuse(Conflict)
    else if offset != s.staged || s.staged > |d.payload| then Refuse(Conflict)
    else
      var hash := env.hash(d.payload[..s.staged] + bytes);
      if end == s.spec.length && hash != s.spec.digest then Refuse(Conflict)
      else
        var after := s.(staged := end, prefixHash := hash, verified := s.verified || end == s.spec.length);
        Save(d, [PutPayload(offset, bytes)], after, Staged(end))
  }

  function Next(s: State): Option<Pending> {
    if s.cancelRequested || s.reference.Some? then Some(Cancel)
    else if !s.begun then Some(Begin)
    else if s.received < s.staged then
      Some(Append(s.received, if s.staged - s.received < s.limits.chunk then s.staged - s.received else s.limits.chunk))
    else if s.verified then Some(Seal)
    else None
  }

  function Tag(p: Pending): nat {
    match p
    case Begin => 1
    case Append(_, _) => 2
    case Seal => 3
    case Cancel => 4
  }

  function OffsetOf(p: Pending): nat {
    if p.Append? then p.offset else 0
  }

  function OperationOf(d: Disk, p: Pending): Operation
    requires p.Append? ==> p.offset + p.count <= |d.payload|
  {
    var spec := d.state.spec;
    match p
    case Begin => BeginUpload(spec.upload, spec.length, spec.digest, spec.kind)
    case Append(offset, count) => AppendUpload(spec.upload, offset, d.payload[offset..offset + count])
    case Seal => SealUpload(spec.upload)
    case Cancel => CancelUpload(spec.upload)
  }

  /** The exact request a pending piece of work is; none when its bytes are not there or its
      identity would be zero. */
  function RequestFor(env: Env, d: Disk, p: Pending): Option<Envelope> {
    var s := d.state;
    var id := env.requestId(s.context, s.spec.upload, Tag(p), OffsetOf(p));
    if id == 0 || (p.Append? && p.offset + p.count > |d.payload|) then None
    else Some(Envelope(PROTOCOL_VERSION, id, 1, s.context.tenant, s.context.session, s.route, OperationOf(d, p)))
  }

  function Present(env: Env, d: Disk, writes: seq<Write>): Run {
    if d.state.pending == None then Run(writes, Err(Corrupt))
    else
      var request := RequestFor(env, d, d.state.pending.value);
      Run(writes, if request.Some? then Ok(Asked(request)) else Err(Invalid))
  }

  function Ask(env: Env, d: Disk): Run {
    var s := d.state;
    if s.cancelAcknowledged then Run([], Ok(Asked(None)))
    else if s.pending.Some? then Present(env, d, [])
    else if Next(s) == None then Run([], Ok(Asked(None)))
    else
      var after := s.(pending := Next(s));
      if !Valid(after, s.context) then Refuse(Corrupt) else Present(env, d.(state := after), [Install(after)])
  }

  /** The state a reply to an operation leaves; none for a reply that is not one to it. */
  function Answered(s: State, operation: Operation, reply: Reply): Option<State> {
    var t := s.(pending := None);
    match (operation, reply)
    case (BeginUpload(_, _, _, _), Offset(received)) =>
      if received <= s.staged then Some(t.(begun := true, received := received)) else None
    case (AppendUpload(_, offset, bytes), Offset(received)) =>
      if offset + |bytes| <= received <= s.staged then Some(t.(received := received)) else None
    case (SealUpload(_), Sealed(reference)) =>
      if ValidReference(reference, s) then Some(t.(reference := Some(reference))) else None
    case (CancelUpload(_), CancelledReply) => Some(t.(cancelAcknowledged := true, cancelled := s.reference == None))
    case _ => None
  }

  function Record(env: Env, d: Disk, request: Envelope, reply: Reply): Run {
    var asked := Ask(env, d);
    if asked.answer.Err? then asked
    else if asked.answer.value != Asked(Some(request)) then Run(asked.writes, Err(Invalid))
    else
      var s := After(d, asked.writes).state;
      var after := Answered(s, request.operation, reply);
      if after == None then Run(asked.writes, Err(Invalid)) else Save(d, asked.writes, after.value, Done)
  }

  function CancelUploading(d: Disk): Run {
    var s := d.state;
    if s.cancelRequested && !s.cancelAcknowledged then Run([], Ok(Done))
    else Save(d, [], s.(cancelRequested := true, cancelAcknowledged := false, pending := None), Done)
  }

  function Bind(d: Disk, bytes: Bytes): Run {
    var s := d.state;
    if |bytes| > MAX_INPUT_BYTES then Refuse(Capacity)
    else if s.binding.Some? then if s.binding.value == bytes then Run([], Ok(Done)) else Refuse(Conflict)
    else if s.begun || s.pending.Some? then Refuse(Conflict)
    else Save(d, [], s.(binding := Some(bytes)), Done)
  }

  function Open(env: Env, d: Disk, context: Context): Run {
    var s := d.state;
    if !Valid(s, context) then Refuse(Corrupt)
    else if |d.payload| < s.staged || |d.payload| > s.spec.length then Refuse(Corrupt)
    else
      var writes := if |d.payload| != s.staged then [Truncate(s.staged)] else [];
      if env.hash(d.payload[..s.staged]) != s.prefixHash then Run(writes, Err(Corrupt)) else Run(writes, Ok(Done))
  }

  /** A transfer made for caller-known bytes, before anything is sent. */
  function Fresh(env: Env, context: Context, spec: Spec, route: nat, limits: Limits): State {
    State(context, route, limits, spec, 0, 0, None, false, false, false, spec.length == 0, false, env.hash([]),
          None, None)
  }

  function Create(env: Env, context: Context, spec: Spec, route: nat, limits: Limits): Result<Disk> {
    var s := Fresh(env, context, spec, route, limits);
    if !Valid(s, context) then Err(Invalid)
    else if spec.length == 0 && spec.digest != env.hash([]) then Err(Conflict)
    else Ok(Disk(s, []))
  }
}
