/**
 Runs of an upload: staging, asking, replies, cancellation, crashes and reopening in any order.
 What was staged never changes, what is asked for is asked for exactly until it is answered, and
 content is referenced only once all of it was staged, verified and received.
 */
module UploadRuns {
  import opened Basics
  import opened UploadModel

  // ---------------------------------------------------------------- the invariant

  ghost predicate Inv(env: Env, d: Disk) {
    && Valid(d.state, d.state.context)
    && d.state.staged <= |d.payload| <= d.state.spec.length
    && env.hash(d.payload[..d.state.staged]) == d.state.prefixHash
  }

  ghost function StagedBytes(d: Disk): Bytes
    requires d.state.staged <= |d.payload|
  {
    d.payload[..d.state.staged]
  }

  lemma CreatedOk(env: Env, context: Context, spec: Spec, route: nat, limits: Limits)
    ensures var made := Create(env, context, spec, route, limits);
      made.Ok? ==> Inv(env, made.value) && made.value.state.spec == spec
  {
  }

  /** Content is referenced only once `length` bytes matching the digest were staged and received. */
  lemma ReferenceProvesContent(env: Env, d: Disk)
    requires Inv(env, d) && d.state.reference.Some?
    ensures d.state.received == d.state.staged == d.state.spec.length == |d.payload|
    ensures env.hash(d.payload) == d.state.spec.digest
    ensures ValidReference(d.state.reference.value, d.state)
  {
    assert d.payload[..d.state.staged] == d.payload;
  }

  // ---------------------------------------------------------------- what a step keeps

  /** From `d` to `e`: the upload is the same one, what was staged is still the prefix of what is,
      the server's count never goes back, and a reference or a binding once recorded stays. */
  ghost predicate Extends(d: Disk, e: Disk) {
    && d.state.staged <= |d.payload| && e.state.staged <= |e.payload|
    && e.state.spec == d.state.spec && e.state.context == d.state.context
    && e.state.route == d.state.route && e.state.limits == d.state.limits
    && StagedBytes(d) <= StagedBytes(e)
    && d.state.received <= e.state.received
    && (d.state.begun ==> e.state.begun)
    && (d.state.reference.Some? ==> e.state.reference == d.state.reference)
    && (d.state.binding.Some? ==> e.state.binding == d.state.binding)
    && (d.state.cancelRequested ==> e.state.cancelRequested)
  }

  lemma ExtendsTrans(d: Disk, e: Disk, f: Disk)
    requires Extends(d, e) && Extends(e, f)
    ensures Extends(d, f)
  {
  }

  // ---------------------------------------------------------------- the journal never refuses itself

  lemma StageIs(env: Env, d: Disk, offset: nat, bytes: Bytes)
    requires Inv(env, d)
    ensures var run := Stage(env, d, offset, bytes);
      run.writes != [] ==>
        && |run.writes| == 2 && run.answer.Ok? && offset == d.state.staged
        && run.writes[0] == PutPayload(offset, bytes)
        && run.writes[1] == Install(d.state.(
             staged := offset + |bytes|, prefixHash := env.hash(StagedBytes(d) + bytes),
             verified := offset + |bytes| == d.state.spec.length))
        && Valid(run.writes[1].state, d.state.context)
  {
  }

  /** What a call's writes, all or some of them, leave of a transfer. */
  ghost predicate Keeps(env: Env, d: Disk, e: Disk) {
    Inv(env, e) && Extends(d, e)
  }

  lemma KeepsSelf(env: Env, d: Disk)
    requires Inv(env, d)
    ensures Keeps(env, d, d)
  {
  }

  lemma StagePut(env: Env, d: Disk, bytes: Bytes)
    requires Inv(env, d) && d.state.staged + |bytes| <= d.state.spec.length
    ensures var e := Apply(d, PutPayload(d.state.staged, bytes));
      && Keeps(env, d, e) && e.state == d.state
      && |e.payload| >= d.state.staged + |bytes| && e.payload[..d.state.staged + |bytes|] == StagedBytes(d) + bytes
  {
    var e := Apply(d, PutPayload(d.state.staged, bytes));
    assert e.payload[..d.state.staged] == d.payload[..d.state.staged];
  }

  lemma StageInstalled(env: Env, d: Disk, put: Disk, s: State, bytes: Bytes)
    requires Inv(env, d) && Keeps(env, d, put) && put.state == d.state
    requires |put.payload| >= d.state.staged + |bytes|
    requires put.payload[..d.state.staged + |bytes|] == StagedBytes(d) + bytes
    requires s == d.state.(staged := d.state.staged + |bytes|, prefixHash := env.hash(StagedBytes(d) + bytes),
                           verified := d.state.staged + |bytes| == d.state.spec.length)
    requires Valid(s, d.state.context)
    ensures Keeps(env, d, Apply(put, Install(s)))
  {
    hide Valid;
  }

  lemma StageKeeps(env: Env, d: Disk, offset: nat, bytes: Bytes, n: nat)
    requires Inv(env, d) && n <= |Stage(env, d, offset, bytes).writes|
    ensures var e := After(d, Stage(env, d, offset, bytes).writes[..n]);
      Keeps(env, d, e) && e.state.pending == d.state.pending
  {
    hide Stage, Keeps, Inv, Valid;
    var writes := Stage(env, d, offset, bytes).writes;
    KeepsSelf(env, d);
    if n > 0 {
      StageIs(env, d, offset, bytes);
      StageFits(env, d, offset, bytes);
      StagePut(env, d, bytes);
      if n == 1 {
        assert writes[..1] == [writes[0]];
        OneWrite(d, writes[0]);
      } else {
        assert writes[..2] == [writes[0], writes[1]];
        TwoWrites(d, writes[0], writes[1]);
        StageInstalled(env, d, Apply(d, writes[0]), writes[1].state, bytes);
      }
    }
  }

  lemma StageFits(env: Env, d: Disk, offset: nat, bytes: Bytes)
    requires Stage(env, d, offset, bytes).writes != []
    ensures offset + |bytes| <= d.state.spec.length
  {
  }

  lemma InstallKeeps(env: Env, d: Disk, s: State)
    requires Inv(env, d) && Valid(s, d.state.context)
    requires s.staged == d.state.staged && s.prefixHash == d.state.prefixHash && s.spec == d.state.spec
    requires s.context == d.state.context && s.route == d.state.route && s.limits == d.state.limits
    requires d.state.received <= s.received && (d.state.begun ==> s.begun)
    requires d.state.reference.Some? ==> s.reference == d.state.reference
    requires d.state.binding.Some? ==> s.binding == d.state.binding
    requires d.state.cancelRequested ==> s.cancelRequested
    ensures Keeps(env, d, Apply(d, Install(s)))
  {
    hide Valid;
  }

  /** The next piece of work is one the saved state admits. */
  lemma NextIsValid(s: State)
    requires Valid(s, s.context) && !s.cancelAcknowledged && s.pending == None && Next(s).Some?
    ensures Valid(s.(pending := Next(s)), s.context)
  {
  }

  lemma AskIs(env: Env, d: Disk)
    requires Inv(env, d)
    ensures var run := Ask(env, d);
      && run.answer != Err(Corrupt)
      && (run.writes == [] || (d.state.pending == None && !d.state.cancelAcknowledged && Next(d.state).Some? &&
            run.writes == [Install(d.state.(pending := Next(d.state)))] && Valid(run.writes[0].state, d.state.context)))
  {
    if d.state.pending == None && !d.state.cancelAcknowledged && Next(d.state).Some? {
      NextIsValid(d.state);
    }
  }

  lemma AskKeeps(env: Env, d: Disk)
    requires Inv(env, d)
    ensures var e := After(d, Ask(env, d).writes);
      Keeps(env, d, e) && (d.state.pending.Some? ==> e == d)
  {
    AskIs(env, d);
    hide Ask, Valid, Next;
    if Ask(env, d).writes != [] {
      var s := d.state.(pending := Next(d.state));
      OneWrite(d, Install(s));
      InstallKeeps(env, d, s);
    }
  }

  /** A request is answered for the pending work the disk then holds, and for nothing else. */
  ghost predicate Owes(env: Env, d: Disk, request: Envelope) {
    d.state.pending.Some? && !d.state.cancelAcknowledged && RequestFor(env, d, d.state.pending.value) == Some(request)
  }

  lemma AskOwes(env: Env, d: Disk, request: Envelope)
    requires Inv(env, d)
    ensures Ask(env, d).answer == Ok(Asked(Some(request))) <==> Owes(env, After(d, Ask(env, d).writes), request)
  {
    AskIs(env, d);
    if Ask(env, d).writes != [] {
      OneWrite(d, Ask(env, d).writes[0]);
    }
  }

  lemma AnsweredKind(env: Env, d: Disk, request: Envelope)
    requires Owes(env, d, request)
    ensures request.operation.BeginUpload? <==> d.state.pending == Some(Begin)
    ensures request.operation.SealUpload? <==> d.state.pending == Some(Seal)
    ensures request.operation.CancelUpload? <==> d.state.pending == Some(Cancel)
    ensures request.operation.AppendUpload? ==>
      d.state.pending == Some(Append(request.operation.offset, |request.operation.bytes|))
  {
  }

  /** A reply the journal takes leaves a state it would itself save. */
  lemma AnswerIsValid(env: Env, d: Disk, request: Envelope, reply: Reply)
    requires Inv(env, d) && Owes(env, d, request) && Answered(d.state, request.operation, reply).Some?
    ensures var s := Answered(d.state, request.operation, reply).value;
      Valid(s, d.state.context) && s.pending == None && Keeps(env, d, Apply(d, Install(s)))
  {
    AnsweredKind(env, d, request);
    var s := Answered(d.state, request.operation, reply).value;
    assert Valid(s, d.state.context);
    InstallKeeps(env, d, s);
  }

  lemma RecordIs(env: Env, d: Disk, request: Envelope, reply: Reply)
    requires Inv(env, d)
    ensures var asked := Ask(env, d); var run := Record(env, d, request, reply);
      var e := After(d, asked.writes);
      && run.answer != Err(Corrupt)
      && (run.writes == asked.writes ||
          (Owes(env, e, request) && Answered(e.state, request.operation, reply).Some? &&
           run.writes == asked.writes + [Install(Answered(e.state, request.operation, reply).value)]))
  {
    AskIs(env, d);
    AskKeeps(env, d);
    AskOwes(env, d, request);
    var e := After(d, Ask(env, d).writes);
    hide Ask, Valid, Inv;
    if Owes(env, e, request) && Answered(e.state, request.operation, reply).Some? {
      AnswerIsValid(env, e, request, reply);
    }
  }

  lemma AfterAppend(d: Disk, writes: seq<Write>, w: Write)
    ensures After(d, writes + [w]) == Apply(After(d, writes), w)
  {
    assert (writes + [w])[..|writes|] == writes;
  }

  lemma RecordKeeps(env: Env, d: Disk, request: Envelope, reply: Reply, n: nat)
    requires Inv(env, d) && n <= |Record(env, d, request, reply).writes|
    ensures Keeps(env, d, After(d, Record(env, d, request, reply).writes[..n]))
  {
    hide Record, Ask, Valid, Inv, Keeps, Answered, Owes;
    var asked := Ask(env, d).writes;
    var writes := Record(env, d, request, reply).writes;
    var e := After(d, asked);
    RecordIs(env, d, request, reply);
    KeepsSelf(env, d);
    AskKeeps(env, d);
    AskWritesOne(env, d);
    if n == |asked| {
      assert writes[..n] == asked;
    } else if n > |asked| {
      var w := writes[n - 1];
      assert writes[..n] == asked + [w];
      AfterAppend(d, asked, w);
      KeepsInv(env, d, e);
      AnswerIsValid(env, e, request, reply);
      KeepsTrans(env, d, e, Apply(e, w));
    } else {
      assert writes[..n] == [];
    }
  }

  lemma AskWritesOne(env: Env, d: Disk)
    requires Inv(env, d)
    ensures |Ask(env, d).writes| <= 1
  {
    AskIs(env, d);
  }

  lemma KeepsInv(env: Env, d: Disk, e: Disk)
    requires Keeps(env, d, e)
    ensures Inv(env, e)
  {
  }

  lemma KeepsTrans(env: Env, d: Disk, e: Disk, f: Disk)
    requires Keeps(env, d, e) && Keeps(env, e, f)
    ensures Keeps(env, d, f)
  {
    ExtendsTrans(d, e, f);
  }

  lemma CancelKeeps(env: Env, d: Disk)
    requires Inv(env, d)
    ensures CancelUploading(d).answer.Ok? && |CancelUploading(d).writes| <= 1
    ensures Keeps(env, d, After(d, CancelUploading(d).writes))
  {
    var writes := CancelUploading(d).writes;
    if writes != [] {
      OneWrite(d, writes[0]);
      InstallKeeps(env, d, writes[0].state);
    }
  }

  lemma BoundIsValid(s: State, bytes: Bytes)
    requires Valid(s, s.context) && |bytes| <= MAX_INPUT_BYTES
    ensures Valid(s.(binding := Some(bytes)), s.context)
  {
  }

  lemma BindIs(d: Disk, bytes: Bytes)
    requires Valid(d.state, d.state.context)
    ensures var run, s := Bind(d, bytes), d.state.(binding := Some(bytes));
      && run.answer != Err(Corrupt)
      && (run.writes == [] || (run.writes == [Install(s)] && d.state.binding == None && Valid(s, d.state.context)))
  {
    if |bytes| <= MAX_INPUT_BYTES {
      BoundIsValid(d.state, bytes);
    }
    hide Valid;
  }

  lemma BindKeeps(env: Env, d: Disk, bytes: Bytes)
    requires Inv(env, d)
    ensures Bind(d, bytes).answer != Err(Corrupt) && |Bind(d, bytes).writes| <= 1
    ensures var e := After(d, Bind(d, bytes).writes);
      Keeps(env, d, e) && e.state.pending == d.state.pending && e.state.cancelAcknowledged == d.state.cancelAcknowledged
  {
    hide Valid;
    BindIs(d, bytes);
    KeepsSelf(env, d);
    hide Bind, Inv, Keeps;
    if Bind(d, bytes).writes != [] {
      var s := d.state.(binding := Some(bytes));
      OneWrite(d, Install(s));
      InstallKeeps(env, d, s);
    }
  }

  /** A transfer that keeps the invariant opens, and what was never accepted is dropped. */
  lemma OpenKeeps(env: Env, d: Disk)
    requires Inv(env, d)
    ensures var run := Open(env, d, d.state.context);
      && run.answer == Ok(Done) && |run.writes| <= 1
      && var e := After(d, run.writes); Keeps(env, d, e) && e.state == d.state && |e.payload| == e.state.staged
  {
    var writes := Open(env, d, d.state.context).writes;
    if writes != [] {
      OneWrite(d, writes[0]);
      assert Apply(d, writes[0]).payload[..d.state.staged] == d.payload[..d.state.staged];
    }
  }

  // ---------------------------------------------------------------- runs

  datatype Call =
    | Staging(offset: nat, bytes: Bytes)
    | Asking
    | Replying(request: Envelope, reply: Reply)
    | Cancelling
    | Binding(bytes: Bytes)
    | Opening

  /** A call completed, or cut short after `n` durable writes; or a crash that leaves `left` in the
      payload file, whatever a write under way had put past what was accepted. */
  datatype Event = Called(call: Call, stop: Option<nat>) | Crash(left: Bytes)

  /** A transfer on disk, and whether a journal is open on it; one whose write failed is not. */
  datatype System = System(disk: Disk, open: bool)

  ghost function RunOf(env: Env, y: System, call: Call): Run {
    if call.Opening? then if y.open then Refuse(Locked) else Open(env, y.disk, y.disk.state.context)
    else if !y.open then Refuse(Failed)
    else
      match call
      case Staging(offset, bytes) => Stage(env, y.disk, offset, bytes)
      case Asking => Ask(env, y.disk)
      case Replying(request, reply) => Record(env, y.disk, request, reply)
      case Cancelling => CancelUploading(y.disk)
      case Binding(bytes) => Bind(y.disk, bytes)
      case Opening => Refuse(Locked)
  }

  ghost predicate Torn(d: Disk, left: Bytes) {
    d.state.staged <= |left| <= d.state.spec.length && d.state.staged <= |d.payload| &&
    left[..d.state.staged] == d.payload[..d.state.staged]
  }

  ghost function Made(env: Env, y: System, ev: Event): seq<Write>
    requires ev.Called?
  {
    var writes := RunOf(env, y, ev.call).writes;
    if ev.stop.Some? && ev.stop.value < |writes| then writes[..ev.stop.value] else writes
  }

  ghost function Step(env: Env, y: System, ev: Event): System {
    match ev
    case Crash(left) => System(if Torn(y.disk, left) then y.disk.(payload := left) else y.disk, false)
    case Called(call, stop) =>
      System(After(y.disk, Made(env, y, ev)),
             stop == None && (y.open || (call.Opening? && RunOf(env, y, call).answer.Ok?)))
  }

  ghost function Reach(env: Env, y: System, events: seq<Event>): System {
    if events == [] then y else Step(env, Reach(env, y, events[..|events| - 1]), events[|events| - 1])
  }

  lemma CallKeeps(env: Env, y: System, call: Call, n: nat)
    requires Inv(env, y.disk) && n <= |RunOf(env, y, call).writes|
    ensures Keeps(env, y.disk, After(y.disk, RunOf(env, y, call).writes[..n]))
  {
    hide Inv, Keeps, Stage, Ask, Record, CancelUploading, Bind, Open;
    var d, writes := y.disk, RunOf(env, y, call).writes;
    KeepsSelf(env, d);
    if n == 0 {
      assert writes[..n] == [];
    } else {
      match call {
        case Staging(offset, bytes) => StageKeeps(env, d, offset, bytes, n);
        case Asking => AskKeeps(env, d); AskWritesOne(env, d); assert writes[..n] == writes;
        case Replying(request, reply) => RecordKeeps(env, d, request, reply, n);
        case Cancelling => CancelKeeps(env, d); assert writes[..n] == writes;
        case Binding(bytes) => BindKeeps(env, d, bytes); assert writes[..n] == writes;
        case Opening => OpenKeeps(env, d); assert writes[..n] == writes;
      }
    }
  }

  lemma StepKeeps(env: Env, y: System, ev: Event)
    requires Inv(env, y.disk)
    ensures Keeps(env, y.disk, Step(env, y, ev).disk)
  {
    match ev {
      case Crash(left) =>
      case Called(call, stop) =>
        hide Inv, Keeps, RunOf;
        var writes := RunOf(env, y, call).writes;
        var n := if stop.Some? && stop.value < |writes| then stop.value else |writes|;
        CallKeeps(env, y, call, n);
        assert writes[..|writes|] == writes;
    }
  }

  /** Over every run: the saved state stays valid and bound to the bytes, the staged bytes only grow,
      the received count only grows, and a reference, a binding and a cancellation once saved stay. */
  lemma {:induction false} RunsExtend(env: Env, y: System, events: seq<Event>)
    requires Inv(env, y.disk)
    ensures Keeps(env, y.disk, Reach(env, y, events).disk)
  {
    hide Inv, Keeps, Step;
    KeepsSelf(env, y.disk);
    if events != [] {
      var before := events[..|events| - 1];
      var z := Reach(env, y, before);
      RunsExtend(env, y, before);
      KeepsInv(env, y.disk, z.disk);
      StepKeeps(env, z, events[|events| - 1]);
      KeepsTrans(env, y.disk, z.disk, Step(env, z, events[|events| - 1]).disk);
    }
  }

  /** From its making on, an upload is of the length and digest it was made for, and once it is referenced
      those are what its bytes have. */
  lemma CreatedUpload(env: Env, context: Context, spec: Spec, route: nat, limits: Limits, events: seq<Event>)
    requires Create(env, context, spec, route, limits).Ok?
    ensures var d := Reach(env, System(Create(env, context, spec, route, limits).value, true), events).disk;
      && Inv(env, d) && d.state.spec == spec
      && (d.state.reference.Some? ==> |d.payload| == spec.length && env.hash(d.payload) == spec.digest)
  {
    hide Create, Reach, Valid;
    CreatedOk(env, context, spec, route, limits);
    var y := System(Create(env, context, spec, route, limits).value, true);
    RunsExtend(env, y, events);
    var d := Reach(env, y, events).disk;
    if d.state.reference.Some? {
      ReferenceProvesContent(env, d);
    }
  }

  /** The same, between any two moments of a run. */
  lemma {:induction false} RunExtendsFrom(env: Env, y: System, events: seq<Event>, i: nat, j: nat)
    requires Inv(env, y.disk) && i <= j <= |events|
    ensures Keeps(env, Reach(env, y, events[..i]).disk, Reach(env, y, events[..j]).disk)
    decreases j
  {
    hide Inv, Keeps, Step;
    RunsExtend(env, y, events[..i]);
    KeepsInv(env, y.disk, Reach(env, y, events[..i]).disk);
    if i == j {
      KeepsSelf(env, Reach(env, y, events[..i]).disk);
    } else {
      RunExtendsFrom(env, y, events, i, j - 1);
      var z := Reach(env, y, events[..j - 1]);
      KeepsInv(env, Reach(env, y, events[..i]).disk, z.disk);
      assert events[..j][..j - 1] == events[..j - 1];
      StepKeeps(env, z, events[j - 1]);
      KeepsTrans(env, Reach(env, y, events[..i]).disk, z.disk, Step(env, z, events[j - 1]).disk);
    }
  }

  // ---------------------------------------------------------------- what is asked for

  /** Every Append that is asked for carries exactly the staged bytes at its offset, which is where the
      server stands. */
  lemma AppendCarriesStaged(env: Env, d: Disk, request: Envelope)
    requires Inv(env, d) && Owes(env, d, request) && request.operation.AppendUpload?
    ensures var a := request.operation;
      && a.upload == d.state.spec.upload && a.offset == d.state.received
      && 0 < |a.bytes| <= d.state.limits.chunk
      && a.offset + |a.bytes| <= |StagedBytes(d)|
      && a.bytes == StagedBytes(d)[a.offset..a.offset + |a.bytes|]
  {
  }

  /** And those are the bytes there at every later moment of every run. */
  lemma AppendCarriesFinal(env: Env, y: System, events: seq<Event>, i: nat, j: nat, request: Envelope)
    requires Inv(env, y.disk) && i <= j <= |events| && request.operation.AppendUpload?
    requires Owes(env, Reach(env, y, events[..i]).disk, request)
    ensures var a := request.operation; var d := Reach(env, y, events[..j]).disk;
      && d.state.staged <= |d.payload| && a.offset + |a.bytes| <= d.state.staged
      && a.bytes == StagedBytes(d)[a.offset..a.offset + |a.bytes|]
  {
    var d, e := Reach(env, y, events[..i]).disk, Reach(env, y, events[..j]).disk;
    hide Reach;
    RunsExtend(env, y, events[..i]);
    AppendCarriesStaged(env, d, request);
    RunExtendsFrom(env, y, events, i, j);
    var a := request.operation;
    assert StagedBytes(d)[a.offset..a.offset + |a.bytes|] == StagedBytes(e)[a.offset..a.offset + |a.bytes|];
  }

  lemma SamePrefix(a: Bytes, b: Bytes, m: nat, n: nat, low: nat, high: nat)
    requires m <= |a| && n <= |b| && a[..m] <= b[..n] && low <= high <= m
    ensures high <= n && a[low..high] == b[low..high]
  {
    assert a[low..high] == a[..m][low..high] && b[low..high] == b[..n][low..high];
    assert a[..m] == b[..n][..m];
  }

  /** Pending work is one request however much is staged after it. */
  lemma RequestStable(env: Env, d: Disk, e: Disk, request: Envelope)
    requires Inv(env, d) && Keeps(env, d, e) && Owes(env, d, request)
    requires e.state.pending == d.state.pending && !e.state.cancelAcknowledged
    ensures Owes(env, e, request)
  {
    var p := d.state.pending.value;
    if p.Append? {
      assert p.offset + p.count <= d.state.staged;
      SamePrefix(d.payload, e.payload, d.state.staged, e.state.staged, p.offset, p.offset + p.count);
    }
  }

  /** The event settled `request`: a reply to it was recorded, or the transfer was cancelled. An attempt that
      was refused or cut before its write settles nothing. */
  ghost predicate Settles(env: Env, y: System, ev: Event, request: Envelope) {
    && ev.Called? && Made(env, y, ev) != []
    && (ev.call.Cancelling? || (ev.call.Replying? && ev.call.request == request))
  }

  lemma OtherCallKeepsPending(env: Env, y: System, call: Call, request: Envelope, n: nat)
    requires Inv(env, y.disk) && Owes(env, y.disk, request) && n <= |RunOf(env, y, call).writes|
    requires !call.Cancelling? && !(call.Replying? && call.request == request)
    ensures var e := After(y.disk, RunOf(env, y, call).writes[..n]);
      e.state.pending == y.disk.state.pending && e.state.cancelAcknowledged == y.disk.state.cancelAcknowledged
  {
    var d, writes := y.disk, RunOf(env, y, call).writes;
    if n == 0 {
      assert writes[..n] == [];
    } else {
      match call {
        case Staging(offset, bytes) =>
          StageIs(env, d, offset, bytes);
          hide Stage, Valid, Inv;
          assert writes[..n] == if n == 1 then [writes[0]] else [writes[0], writes[1]];
          OneWrite(d, writes[0]);
          TwoWrites(d, writes[0], writes[1]);
        case Asking =>
        case Replying(other, reply) => AskIs(env, d); AskOwes(env, d, request);
        case Binding(bytes) =>
        case Opening => OpenKeeps(env, d); assert writes[..n] == writes;
      }
    }
  }

  lemma OwedWritesNothing(env: Env, d: Disk, request: Envelope)
    requires Owes(env, d, request)
    ensures Ask(env, d).writes == [] && After(d, Ask(env, d).writes) == d
  {
  }

  lemma ReplySettles(env: Env, d: Disk, request: Envelope, reply: Reply)
    requires Inv(env, d) && Owes(env, d, request)
    ensures var writes := Record(env, d, request, reply).writes;
      |writes| <= 1 && (writes != [] ==> After(d, writes).state.pending == None)
  {
    OwedWritesNothing(env, d, request);
    RecordIs(env, d, request, reply);
    hide Record, Ask, Inv, Owes, Valid;
    var writes := Record(env, d, request, reply).writes;
    if writes != [] {
      AnswerIsValid(env, d, request, reply);
      assert writes == [writes[0]];
      OneWrite(d, writes[0]);
    }
  }

  lemma CancelSettles(d: Disk)
    ensures var writes := CancelUploading(d).writes;
      |writes| <= 1 && (writes != [] ==> After(d, writes).state.pending == None)
  {
    hide Valid;
    var writes := CancelUploading(d).writes;
    if writes != [] {
      OneWrite(d, writes[0]);
    }
  }

  /** A reply to what is owed is one write, and so is a cancellation; each leaves nothing owed. */
  lemma SettlingWrites(env: Env, y: System, call: Call, request: Envelope)
    requires Inv(env, y.disk) && Owes(env, y.disk, request)
    requires call.Cancelling? || (call.Replying? && call.request == request)
    ensures var writes := RunOf(env, y, call).writes;
      |writes| <= 1 && (writes != [] ==> After(y.disk, writes).state.pending == None)
  {
    hide Inv, Owes, Record, CancelUploading, After;
    if call.Replying? {
      ReplySettles(env, y.disk, request, call.reply);
    } else {
      CancelSettles(y.disk);
    }
  }

  /** What is owed stays owed exactly until it is settled. */
  lemma StepKeepsOwed(env: Env, y: System, ev: Event, request: Envelope)
    requires Inv(env, y.disk) && Owes(env, y.disk, request)
    ensures Owes(env, Step(env, y, ev).disk, request) <==> !Settles(env, y, ev, request)
  {
    StepKeeps(env, y, ev);
    match ev {
      case Crash(left) => RequestStable(env, y.disk, Step(env, y, ev).disk, request);
      case Called(call, stop) =>
        hide Inv, Keeps, RunOf, Owes;
        var writes := RunOf(env, y, call).writes;
        var n := if stop.Some? && stop.value < |writes| then stop.value else |writes|;
        assert writes[..|writes|] == writes;
        OwesUnacknowledged(env, y.disk, request);
        if call.Cancelling? || (call.Replying? && call.request == request) {
          SettlingWrites(env, y, call, request);
          if n == 0 {
            assert writes[..n] == [];
          } else {
            NothingOwed(env, Step(env, y, ev).disk, request);
          }
        } else {
          OtherCallKeepsPending(env, y, call, request, n);
          RequestStable(env, y.disk, Step(env, y, ev).disk, request);
        }
    }
  }

  lemma NothingOwed(env: Env, d: Disk, request: Envelope)
    requires d.state.pending == None
    ensures !Owes(env, d, request)
  {
  }

  lemma OwesUnacknowledged(env: Env, d: Disk, request: Envelope)
    requires Owes(env, d, request)
    ensures !d.state.cancelAcknowledged
  {
  }

  lemma {:induction false} RunKeepsOwed(env: Env, y: System, events: seq<Event>, i: nat, j: nat, request: Envelope)
    requires Inv(env, y.disk) && i <= j <= |events| && Owes(env, Reach(env, y, events[..i]).disk, request)
    requires forall k :: i <= k < j ==> !Settles(env, Reach(env, y, events[..k]), events[k], request)
    ensures Owes(env, Reach(env, y, events[..j]).disk, request)
    decreases j
  {
    hide Inv, Keeps, Step, Owes, Settles;
    if i < j {
      RunKeepsOwed(env, y, events, i, j - 1, request);
      var z := Reach(env, y, events[..j - 1]);
      RunsExtend(env, y, events[..j - 1]);
      KeepsInv(env, y.disk, z.disk);
      assert events[..j][..j - 1] == events[..j - 1];
      StepKeepsOwed(env, z, events[j - 1], request);
    }
  }

  /** Exact retry: a request once answered is answered again, identical, by every later ask of the run,
      through staging, crashes, reopening and replies refused or cut off, until a reply to it is recorded or
      a cancellation is. */
  lemma {:induction false} ExactRequest(env: Env, y: System, events: seq<Event>, i: nat, j: nat, request: Envelope)
    requires Inv(env, y.disk) && i < j < |events|
    requires events[i] == Called(Asking, None) && events[j] == Called(Asking, None)
    requires Reach(env, y, events[..i]).open && Reach(env, y, events[..j]).open
    requires Ask(env, Reach(env, y, events[..i]).disk).answer == Ok(Asked(Some(request)))
    requires forall k :: i < k < j ==> !Settles(env, Reach(env, y, events[..k]), events[k], request)
    ensures Ask(env, Reach(env, y, events[..j]).disk).answer == Ok(Asked(Some(request)))
  {
    hide Inv, Keeps, Owes, Ask, Settles;
    var z := Reach(env, y, events[..i]);
    RunsExtend(env, y, events[..i]);
    KeepsInv(env, y.disk, z.disk);
    AskOwes(env, z.disk, request);
    assert events[..i + 1][..i] == events[..i];
    assert Reach(env, y, events[..i + 1]) == Step(env, z, events[i]);
    RunKeepsOwed(env, y, events, i + 1, j, request);
    RunsExtend(env, y, events[..j]);
    var d := Reach(env, y, events[..j]).disk;
    KeepsInv(env, y.disk, d);
    OwedIsAsked(env, d, request);
  }

  // ---------------------------------------------------------------- what a caller has of one call

  /** However a call's writes are cut, the transfer is kept. */
  lemma CutsKeep(env: Env, d: Disk, call: Call)
    ensures var writes := RunOf(env, System(d, true), call).writes;
      Inv(env, d) ==> forall n :: 0 <= n <= |writes| ==> Keeps(env, d, After(d, writes[..n]))
  {
    hide Inv, Keeps, RunOf;
    var y := System(d, true);
    if Inv(env, d) {
      forall n | 0 <= n <= |RunOf(env, y, call).writes|
        ensures Keeps(env, d, After(d, RunOf(env, y, call).writes[..n]))
      {
        CallKeeps(env, y, call, n);
      }
    }
  }

  /** Bytes once taken are the staged ones at their offset. */
  ghost predicate Holds(d: Disk, offset: nat, bytes: Bytes) {
    offset + |bytes| <= d.state.staged <= |d.payload| && d.payload[offset..offset + |bytes|] == bytes
  }

  lemma StageTakes(env: Env, d: Disk, offset: nat, bytes: Bytes)
    requires Inv(env, d) && Stage(env, d, offset, bytes).answer.Ok?
    ensures var e := After(d, Stage(env, d, offset, bytes).writes);
      Holds(e, offset, bytes) && Stage(env, d, offset, bytes).answer == Ok(Staged(e.state.staged))
  {
    var writes := Stage(env, d, offset, bytes).writes;
    if writes != [] {
      StageIs(env, d, offset, bytes);
      StageFits(env, d, offset, bytes);
      StagePut(env, d, bytes);
      hide Stage, Valid, Keeps;
      assert writes == [writes[0], writes[1]];
      TwoWrites(d, writes[0], writes[1]);
      var put := Apply(d, writes[0]);
      assert put.payload[offset..offset + |bytes|] == put.payload[..offset + |bytes|][offset..];
    }
  }

  /** An owed request's reply is recorded whole or not at all, and answered accordingly. */
  lemma ReplyAnswered(env: Env, d: Disk, request: Envelope, reply: Reply)
    requires Inv(env, d) && Owes(env, d, request)
    ensures var run := Record(env, d, request, reply);
      && (run.answer.Ok? <==> run.writes != []) && |run.writes| <= 1
      && (run.writes != [] ==> !Owes(env, After(d, run.writes), request))
  {
    OwedWritesNothing(env, d, request);
    OwedIsAsked(env, d, request);
    ReplySettles(env, d, request, reply);
    hide Ask, Valid;
  }

  lemma OwedIsAsked(env: Env, d: Disk, request: Envelope)
    requires Owes(env, d, request)
    ensures Ask(env, d).answer == Ok(Asked(Some(request)))
  {
  }
}
