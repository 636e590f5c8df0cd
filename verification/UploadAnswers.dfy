/**
 What each call of an upload's journal answers and leaves, exactly, from any transfer that meets the invariant:
 which work comes next and when there is none, which replies are taken, and what bytes are accepted.
 */
module UploadAnswers {
  import opened Basics
  import opened UploadModel
  import opened UploadRuns

  ghost predicate Denied(d: Disk, e: Disk, r: Result<Answer>, error: Error) {
    e == d && r == Err(error)
  }

  lemma AfterNone(d: Disk)
    ensures After(d, []) == d && forall writes: seq<Write> :: writes[..0] == []
  {
  }

  // ---------------------------------------------------------------- staging

  /** Bytes are taken exactly where the staged ones end, within the length and, if they complete it, of the digest
      declared; or where they repeat staged ones. */
  ghost predicate StageGives(env: Env, d: Disk, offset: nat, bytes: Bytes, e: Disk, r: Result<Answer>)
    requires d.state.staged <= |d.payload|
  {
    var s, end := d.state, offset + |bytes|;
    if s.cancelRequested || s.reference.Some? then Denied(d, e, r, Cancelled)
    else if !(1 <= |bytes| <= TRANSFER_CHUNK_BYTES && end <= s.spec.length) then Denied(d, e, r, Capacity)
    else if end <= s.staged then
      if d.payload[offset..end] == bytes then e == d && r == Ok(Staged(s.staged)) else Denied(d, e, r, Conflict)
    else if offset != s.staged then Denied(d, e, r, Conflict)
    else
      var hash := env.hash(StagedBytes(d) + bytes);
      if end == s.spec.length && hash != s.spec.digest then Denied(d, e, r, Conflict)
      else
        && r == Ok(Staged(end))
        && e.state == s.(staged := end, prefixHash := hash, verified := end == s.spec.length)
        && |e.payload| == (if |d.payload| > end then |d.payload| else end)
        && e.payload[..end] == StagedBytes(d) + bytes && (|d.payload| > end ==> e.payload[end..] == d.payload[end..])
  }

  lemma StageExactly(env: Env, d: Disk, offset: nat, bytes: Bytes)
    requires Inv(env, d)
    ensures var run := Stage(env, d, offset, bytes);
      StageGives(env, d, offset, bytes, After(d, run.writes), run.answer)
  {
    StageIs(env, d, offset, bytes);
    var run := Stage(env, d, offset, bytes);
    if run.writes != [] {
      StagedOn(d, offset, bytes);
      assert run.writes == [run.writes[0], run.writes[1]];
      TwoWrites(d, run.writes[0], run.writes[1]);
    }
    hide Valid;
  }

  lemma StagedOn(d: Disk, offset: nat, bytes: Bytes)
    requires offset == d.state.staged <= |d.payload|
    ensures var e := Apply(d, PutPayload(offset, bytes)); var end := offset + |bytes|;
      && e.state == d.state && |e.payload| == (if |d.payload| > end then |d.payload| else end)
      && e.payload[..end] == StagedBytes(d) + bytes && (|d.payload| > end ==> e.payload[end..] == d.payload[end..])
  {
  }

  // ---------------------------------------------------------------- what comes next

  /** The work that comes next when none is pending. */
  ghost predicate Due(s: State, p: Pending) {
    var open := !s.cancelRequested && s.reference.None?;
    match p
    case Cancel => !open
    case Begin => open && !s.begun
    case Append(offset, count) =>
      && open && s.begun && offset == s.received < s.staged
      && count == (if s.staged - s.received <= s.limits.chunk then s.staged - s.received else s.limits.chunk)
    case Seal => open && s.begun && s.received == s.staged == s.spec.length
  }

  /** Nothing is to be sent: a cancellation was acknowledged, or the server has all that was staged so far. */
  ghost predicate Idle(s: State) {
    || s.cancelAcknowledged
    || (&& s.pending.None? && !s.cancelRequested && s.reference.None?
        && s.begun && s.received == s.staged < s.spec.length)
  }

  /** The request a piece of work is sent as, unless its identity would be zero. */
  ghost predicate SentAs(env: Env, d: Disk, p: Pending, r: Result<Answer>)
    requires p.Append? ==> p.offset + p.count <= |d.payload|
  {
    var s, upload := d.state, d.state.spec.upload;
    var (tag, offset, operation) := match p
      case Begin => (1, 0, BeginUpload(upload, s.spec.length, s.spec.digest, s.spec.kind))
      case Append(offset, count) => (2, offset, AppendUpload(upload, offset, d.payload[offset..offset + count]))
      case Seal => (3, 0, SealUpload(upload))
      case Cancel => (4, 0, CancelUpload(upload));
    var id := env.requestId(s.context, upload, tag, offset);
    var envelope := Envelope(PROTOCOL_VERSION, id, 1, s.context.tenant, s.context.session, s.route, operation);
    r == if id == 0 then Err(Invalid) else Ok(Asked(Some(envelope)))
  }

  /** Asking answers nothing exactly when idle; otherwise the pending work, or the work due, which is then pending. */
  ghost predicate AskGives(env: Env, d: Disk, e: Disk, r: Result<Answer>) {
    if Idle(d.state) then e == d && r == Ok(Asked(None))
    else exists p ::
      && (if d.state.pending.Some? then d.state.pending == Some(p) else Due(d.state, p))
      && (p.Append? ==> p.offset + p.count <= |d.payload|)
      && e == d.(state := d.state.(pending := Some(p))) && SentAs(env, d, p, r)
  }

  lemma NextExactly(s: State)
    requires Valid(s, s.context) && !s.cancelAcknowledged && s.pending.None?
    ensures Next(s).None? <==> Idle(s)
    ensures Next(s).Some? ==> Due(s, Next(s).value)
  {
  }

  lemma SentExactly(env: Env, d: Disk, p: Pending)
    requires Inv(env, d) && d.state.pending == Some(p)
    ensures p.Append? ==> p.offset + p.count <= |d.payload|
    ensures SentAs(env, d, p, Present(env, d, []).answer)
  {
  }

  lemma AskExactly(env: Env, d: Disk)
    requires Inv(env, d)
    ensures var run := Ask(env, d); AskGives(env, d, After(d, run.writes), run.answer)
  {
    hide Valid, Next, SentAs, Present;
    var s, run := d.state, Ask(env, d);
    if s.cancelAcknowledged {
      assert run == Run([], Ok(Asked(None)));
    } else if s.pending.Some? {
      SentExactly(env, d, s.pending.value);
      PresentWrites(env, d, []);
      assert s == s.(pending := Some(s.pending.value));
    } else {
      NextExactly(s);
      if Next(s).Some? {
        var after := s.(pending := Next(s));
        NextIsValid(s);
        OneWrite(d, Install(after));
        SentExactly(env, d.(state := after), Next(s).value);
        PresentWrites(env, d.(state := after), [Install(after)]);
        SentPending(env, d, after, Next(s).value, run.answer);
      }
    }
  }

  lemma PresentWrites(env: Env, d: Disk, writes: seq<Write>)
    ensures Present(env, d, writes) == Run(writes, Present(env, d, []).answer)
  {
  }

  lemma SentPending(env: Env, d: Disk, s: State, p: Pending, r: Result<Answer>)
    requires p.Append? ==> p.offset + p.count <= |d.payload|
    requires s == d.state.(pending := s.pending) && SentAs(env, d.(state := s), p, r)
    ensures SentAs(env, d, p, r)
  {
  }

  // ---------------------------------------------------------------- replies

  /** The state a reply to pending work leaves, or none for a reply that is not one to it. */
  ghost predicate Takes(s: State, p: Pending, reply: Reply, t: Option<State>) {
    var open := s.(pending := None);
    match p
    case Begin =>
      t == if reply.Offset? && reply.received <= s.staged then Some(open.(begun := true, received := reply.received))
           else None
    case Append(offset, count) =>
      t == if reply.Offset? && offset + count <= reply.received <= s.staged
           then Some(open.(received := reply.received)) else None
    case Seal =>
      t == if reply.Sealed? && Fits(s, reply.reference) then Some(open.(reference := Some(reply.reference))) else None
    case Cancel =>
      t == if reply.CancelledReply? then Some(open.(cancelAcknowledged := true, cancelled := s.reference.None?))
           else None
  }

  /** The reference is of this content: its owner, kind and length. */
  ghost predicate Fits(s: State, reference: Reference) {
    && reference.domain == s.context.tenant && reference.kind == s.spec.kind && reference.length == s.spec.length
    && reference.root > 0
  }

  /** A reply is recorded exactly if it is one to the request asked for now; the asking is done either way. */
  ghost predicate ReplyGives(env: Env, d: Disk, request: Envelope, reply: Reply, e: Disk, r: Result<Answer>) {
    exists f, asked :: AskGives(env, d, f, asked) && ReplyFrom(request, reply, f, asked, e, r)
  }

  ghost predicate ReplyFrom(request: Envelope, reply: Reply, f: Disk, asked: Result<Answer>, e: Disk,
                            r: Result<Answer>)
  {
    if asked != Ok(Asked(Some(request))) then e == f && r == Err(if asked.Err? then asked.error else Invalid)
    else
      && f.state.pending.Some?
      && exists t ::
           && Takes(f.state, f.state.pending.value, reply, t)
           && if t.Some? then e == f.(state := t.value) && r == Ok(Done) else Denied(f, e, r, Invalid)
  }

  lemma TakesExactly(env: Env, d: Disk, request: Envelope, reply: Reply)
    requires Inv(env, d) && Owes(env, d, request)
    ensures Takes(d.state, d.state.pending.value, reply, Answered(d.state, request.operation, reply))
  {
    AnsweredKind(env, d, request);
  }

  lemma ReplyExactly(env: Env, d: Disk, request: Envelope, reply: Reply)
    requires Inv(env, d)
    ensures var run := Record(env, d, request, reply);
      ReplyGives(env, d, request, reply, After(d, run.writes), run.answer)
  {
    hide Inv, Ask, Valid, Answered, After, AskGives, Owes, Takes, Keeps;
    var run, asked := Record(env, d, request, reply), Ask(env, d);
    var f := After(d, asked.writes);
    AskExactly(env, d);
    AskKeeps(env, d);
    KeepsInv(env, d, f);
    AskOwes(env, d, request);
    if asked.answer == Ok(Asked(Some(request))) {
      OwesPending(env, f, request);
      TakesExactly(env, f, request, reply);
      var t := Answered(f.state, request.operation, reply);
      if t.Some? {
        AskContext(env, d);
        AnswerIsValid(env, f, request, reply);
        AfterAppend(d, asked.writes, Install(t.value));
      }
    }
    assert ReplyFrom(request, reply, f, asked.answer, After(d, run.writes), run.answer);
  }

  lemma OwesPending(env: Env, d: Disk, request: Envelope)
    requires Owes(env, d, request)
    ensures d.state.pending.Some?
  {
  }

  lemma AskContext(env: Env, d: Disk)
    requires Inv(env, d)
    ensures After(d, Ask(env, d).writes).state.context == d.state.context
  {
    AskKeeps(env, d);
    hide Ask, Valid;
  }

  // ---------------------------------------------------------------- cancelling, binding and opening

  /** A cancellation is asked for once more after it was acknowledged, and is otherwise asked for once. */
  ghost predicate CancelGives(d: Disk, e: Disk, r: Result<Answer>) {
    && r == Ok(Done)
    && e == if d.state.cancelRequested && !d.state.cancelAcknowledged then d
            else d.(state := d.state.(cancelRequested := true, cancelAcknowledged := false, pending := None))
  }

  lemma CancelExactly(env: Env, d: Disk)
    requires Inv(env, d)
    ensures var run := CancelUploading(d); CancelGives(d, After(d, run.writes), run.answer)
  {
    CancelKeeps(env, d);
    var s := d.state.(cancelRequested := true, cancelAcknowledged := false, pending := None);
    OneWrite(d, Install(s));
    hide Valid, Keeps;
    assert [] + [Install(s)] == [Install(s)];
  }

  /** Bytes are bound exactly before anything is asked for, if they fit and no others are bound. */
  ghost predicate BindGives(d: Disk, bytes: Bytes, e: Disk, r: Result<Answer>) {
    var s := d.state;
    if |bytes| > MAX_INPUT_BYTES then Denied(d, e, r, Capacity)
    else if s.binding == Some(bytes) then e == d && r == Ok(Done)
    else if s.binding.Some? || s.begun || s.pending.Some? then Denied(d, e, r, Conflict)
    else r == Ok(Done) && e == d.(state := s.(binding := Some(bytes)))
  }

  lemma BindExactly(env: Env, d: Disk, bytes: Bytes)
    requires Inv(env, d)
    ensures var run := Bind(d, bytes); BindGives(d, bytes, After(d, run.writes), run.answer)
  {
    hide Valid, After;
    AfterNone(d);
    var s := d.state.(binding := Some(bytes));
    if |bytes| <= MAX_INPUT_BYTES {
      BoundIsValid(d.state, bytes);
    }
    OneWrite(d, Install(s));
    assert [] + [Install(s)] == [Install(s)];
  }

  /** A transfer the journal left opens, without the bytes that were never accepted. */
  ghost predicate OpenGives(d: Disk, e: Disk, r: Result<Answer>)
    requires d.state.staged <= |d.payload|
  {
    r == Ok(Done) && e == d.(payload := StagedBytes(d))
  }

  lemma OpenExactly(env: Env, d: Disk)
    requires Inv(env, d)
    ensures var run := Open(env, d, d.state.context); OpenGives(d, After(d, run.writes), run.answer)
  {
    OneWrite(d, Truncate(d.state.staged));
    if |d.payload| == d.state.staged {
      assert d.payload[..d.state.staged] == d.payload;
    }
    hide Valid;
  }

  /** A transfer is made exactly within the limits, by an identified caller, of content no longer than they allow
      and, if it is of none, with the digest of none. */
  lemma CreateExactly(env: Env, context: Context, spec: Spec, route: nat, limits: Limits)
    ensures Create(env, context, spec, route, limits).Ok? <==>
      && 0 < limits.chunk <= TRANSFER_CHUNK_BYTES && spec.length <= limits.maxPayload <= MAX_TRANSFER_BYTES
      && 0 !in {context.cluster, context.principal, context.tenant, context.session, route, spec.upload}
      && (spec.length == 0 ==> spec.digest == env.hash([]))
    ensures Create(env, context, spec, route, limits).Ok? ==>
      var d := Create(env, context, spec, route, limits).value;
      && d.payload == [] && d.state.staged == d.state.received == 0 && !d.state.begun && d.state.pending.None?
      && d.state.reference.None? && !d.state.cancelRequested && d.state.spec == spec && d.state.context == context
      && d.state.route == route && d.state.limits == limits && d.state.binding.None?
  {
  }

  // ---------------------------------------------------------------- an upload can always be finished

  /** Work still to be done before the content can be referenced. */
  ghost predicate Unfinished(env: Env, y: System, reference: Reference) {
    && Inv(env, y.disk) && y.open && Fits(y.disk.state, reference)
    && !y.disk.state.cancelRequested && y.disk.state.reference.None? && y.disk.state.staged == y.disk.state.spec.length
  }

  /** The reply of a server that does what it is asked. */
  function Honest(s: State, p: Pending, reference: Reference): Reply {
    match p
    case Begin => Offset(0)
    case Append(offset, count) => Offset(offset + count)
    case Seal => Sealed(reference)
    case Cancel => CancelledReply
  }

  /** The request now asked for, and what its honest reply leaves. */
  lemma Progresses(env: Env, y: System, reference: Reference) returns (p: Pending, request: Envelope)
    requires Unfinished(env, y, reference) && forall c, u, t, o :: env.requestId(c, u, t, o) != 0
    ensures var s := y.disk.state; var z := Step(env, y, Called(Replying(request, Honest(s, p, reference)), None));
      && z.open && z.disk.payload == y.disk.payload
      && match p
         case Begin => !s.begun && z.disk.state == s.(pending := None, begun := true, received := 0)
         case Append(o, n) =>
           && s.begun && n > 0 && s.received + n <= s.staged
           && z.disk.state == s.(pending := None, received := s.received + n)
         case Seal => z.disk.state == s.(pending := None, reference := Some(reference))
         case Cancel => false
  {
    hide After, Ask, Record, Inv, Keeps, Answered, Owes;
    var d, s := y.disk, y.disk.state;
    AskExactly(env, d);
    NotIdle(env, d);
    var run := Ask(env, d);
    p :| && (if s.pending.Some? then s.pending == Some(p) else Due(s, p))
         && (p.Append? ==> p.offset + p.count <= |d.payload|)
         && After(d, run.writes) == d.(state := s.(pending := Some(p))) && SentAs(env, d, p, run.answer);
    request := run.answer.value.request.value;
    DueFits(env, d, p);
    var reply := Honest(s, p, reference);
    AskOwes(env, d, request);
    TakenWhole(env, d, request, reply);
    var f := After(d, run.writes);
    AskKeeps(env, d);
    KeepsInv(env, d, f);
    TakesExactly(env, f, request, reply);
  }

  /** A reply that is taken is recorded whole. */
  lemma TakenWhole(env: Env, d: Disk, request: Envelope, reply: Reply)
    requires Inv(env, d) && Ask(env, d).answer == Ok(Asked(Some(request)))
    ensures var f := After(d, Ask(env, d).writes); var t := Answered(f.state, request.operation, reply);
      t.Some? ==> After(d, Record(env, d, request, reply).writes) == f.(state := t.value)
  {
    hide Inv, Ask, Valid, Answered, After, Owes, Keeps;
    var f := After(d, Ask(env, d).writes);
    AskKeeps(env, d);
    KeepsInv(env, d, f);
    AskOwes(env, d, request);
    var t := Answered(f.state, request.operation, reply);
    if t.Some? {
      AskContext(env, d);
      AnswerIsValid(env, f, request, reply);
      AfterAppend(d, Ask(env, d).writes, Install(t.value));
    }
  }

  lemma NotIdle(env: Env, d: Disk)
    requires Inv(env, d) && !d.state.cancelRequested && d.state.reference.None? && d.state.staged == d.state.spec.length
    ensures !Idle(d.state)
  {
  }

  lemma DueFits(env: Env, d: Disk, p: Pending)
    requires Inv(env, d) && !d.state.cancelRequested && d.state.reference.None? && d.state.staged == d.state.spec.length
    requires if d.state.pending.Some? then d.state.pending == Some(p) else Due(d.state, p)
    ensures var s := d.state;
      && !p.Cancel? && (p.Begin? ==> !s.begun && s.received == 0) && (p.Seal? ==> s.begun)
      && (p.Append? ==> s.begun && p.offset == s.received && p.count > 0 && p.offset + p.count <= s.staged)
  {
  }

  /** Whatever a transfer went through, once all of its bytes are staged and unless it is cancelled, the replies of a
      server that does what it is asked bring it to the reference. */
  lemma {:induction false} Finishes(env: Env, y: System, reference: Reference) returns (events: seq<Event>)
    requires Unfinished(env, y, reference) && forall c, u, t, o :: env.requestId(c, u, t, o) != 0
    ensures Reach(env, y, events).disk.state.reference == Some(reference)
    decreases !y.disk.state.begun, y.disk.state.spec.length - y.disk.state.received
  {
    hide Inv, Step, Fits;
    var p, request := Progresses(env, y, reference);
    var ev := Called(Replying(request, Honest(y.disk.state, p, reference)), None);
    var z := Step(env, y, ev);
    if p.Seal? {
      events := [ev];
      assert [ev][..0] == [];
    } else {
      StepKeeps(env, y, ev);
      KeepsInv(env, y.disk, z.disk);
      FitsStill(y.disk.state, z.disk.state, reference);
      ReceivedWithin(env, y.disk);
      var rest := Finishes(env, z, reference);
      events := [ev] + rest;
      ReachFrom(env, y, ev, rest);
    }
  }

  lemma ReceivedWithin(env: Env, d: Disk)
    requires Inv(env, d)
    ensures d.state.received <= d.state.spec.length
  {
  }

  lemma FitsStill(s: State, t: State, reference: Reference)
    requires Fits(s, reference) && t.context == s.context && t.spec == s.spec
    ensures Fits(t, reference)
  {
  }

  lemma {:induction false} ReachFrom(env: Env, y: System, ev: Event, rest: seq<Event>)
    ensures Reach(env, y, [ev] + rest) == Reach(env, Step(env, y, ev), rest)
  {
    hide Step;
    if rest == [] {
      assert [ev] + rest == [ev] && [ev][..0] == [];
    } else {
      ReachFrom(env, y, ev, rest[..|rest| - 1]);
      assert ([ev] + rest)[..|[ev] + rest| - 1] == [ev] + rest[..|rest| - 1];
    }
  }
}
