/**
 One request through the client: sent, and sent again after a lost reply, a changed route or a
 refusal without effect, against any transport. What is sent never changes but in its route epoch,
 how often is bounded, and when a mutation whose effect is in doubt ends decided is exactly known.
 */
module ClientRetry {
  import opened Basics

  const CAPACITY_RESENDS: nat := 3
  const UNAVAILABLE_RESENDS: nat := 64

  datatype Hint = Hint(epoch: nat, endpoint: nat)
  datatype Request = Request(routeEpoch: nat, mutation: bool, ledger: nat, body: seq<bv8>)

  datatype AccessError = Capacity | Unavailable | Unknown | RouteChanged(hint: Hint) | Other(code: nat)

  /** A reply's body, by what the client does with it. */
  datatype Body =
    | Refusal(error: AccessError)
    | StillPending
    | RefuseOrInform(detail: nat)
    | NativeRefused(capacity: bool, detail: nat)
    | Answer(detail: nat)

  /** What one send came back with. `Refused` is before anything was sent, `Crashed` a dependency that
      unwound, and `Abandoned` a send under way when no deadline could be kept for it any more. */
  datatype Reply =
    | Replied(valid: bool, body: Body)
    | Refused(error: AccessError)
    | Unframed
    | Unauthenticated
    | SocketPath
    | Lost
    | Crashed
    | Abandoned

  /** Everything around one turn of the loop that the loop does not decide: whether the time ran out, or no
      deadline can be kept even before the send begins, the reply, whether the shared budget allows a resend
      and the shared cache takes a hint, and whether the pause before the next turn can be kept. */
  datatype Turn = Turn(expired: bool, clockBroken: bool, reply: Reply, allowed: bool, adopted: bool, sleepBroken: bool)

  datatype ClientError =
    | OutcomeUnknown(request: Request)
    | Access(error: AccessError)
    | NotAuthenticated
    | InvalidResponse
    | Transport
    | Configuration

  datatype Outcome = Success(body: Body) | Failure(error: ClientError)

  /** What was sent and what came back. */
  datatype Sent = Sent(request: Request, reply: Reply)

  // ---------------------------------------------------------------- what a reply leaves open

  /** The request may have been carried out and the reply does not say. */
  predicate Doubtful(r: Reply) {
    r.Lost? || r.Crashed? || (r.Replied? && r.valid && (r.body.StillPending? || r.body == Refusal(Unknown)))
  }

  /** The reply cannot be read. */
  predicate Unreadable(r: Reply) {
    r.Unframed? || (r.Replied? && !r.valid)
  }

  /** The request may have reached its authority, and nothing read says what became of it. */
  predicate Unread(r: Reply) {
    Unreadable(r) || r.Abandoned?
  }

  /** Refused without effect, and of a kind that is resent. */
  predicate Resendable(r: Reply) {
    || (r.Refused? && (r.error.Capacity? || r.error.Unavailable?))
    || (r.Replied? && r.valid && r.body.Refusal? && (r.body.error.Capacity? || r.body.error.Unavailable?))
  }

  predicate SameButRoute(a: Request, b: Request) {
    a == b.(routeEpoch := a.routeEpoch)
  }

  /** Everything sent is the original up to its route epoch, which never decreases. */
  ghost predicate OneRequest(original: Request, sent: seq<Sent>, last: Request) {
    && (forall i :: 0 <= i < |sent| ==>
          SameButRoute(sent[i].request, original) && original.routeEpoch <= sent[i].request.routeEpoch)
    && (forall i, j :: 0 <= i < j < |sent| ==> sent[i].request.routeEpoch <= sent[j].request.routeEpoch)
    && SameButRoute(last, original) && original.routeEpoch <= last.routeEpoch
    && (forall i :: 0 <= i < |sent| ==> sent[i].request.routeEpoch <= last.routeEpoch)
  }

  ghost predicate InDoubt(sent: seq<Sent>) {
    exists s <- sent :: Doubtful(s.reply)
  }

  /** The last reply could not be read, none before it left a doubt, and one before it was a refusal. */
  ghost predicate UnreadAfterRefusal(sent: seq<Sent>) {
    && sent != [] && Unreadable(sent[|sent| - 1].reply) && !InDoubt(sent)
    && exists s <- sent[..|sent| - 1] :: Resendable(s.reply)
  }

  /** The last send was abandoned, and none before it left a doubt. */
  ghost predicate AbandonedUndoubted(sent: seq<Sent>) {
    sent != [] && sent[|sent| - 1].reply.Abandoned? && !InDoubt(sent)
  }

  /** How one turn's reply is taken. */
  datatype Taken =
    | Finish(outcome: Outcome)
    | Stop
    | Again(refusal: Option<AccessError>, doubt: bool, hint: Option<Hint>)

  /** A refusal of a kind that is resent is resent while its resends last; otherwise it ends the exchange. */
  function TakeRefusal(error: AccessError, mutation: bool, uncertain: bool, capacity: nat, unavailable: nat,
                       allowed: bool): Taken
  {
    if error.Unavailable? && unavailable < UNAVAILABLE_RESENDS then Again(Some(Unavailable), false, None)
    else if error.Capacity? && allowed && capacity < CAPACITY_RESENDS then Again(Some(Capacity), false, None)
    else if uncertain && mutation then Stop
    else Finish(Failure(Access(error)))
  }

  function TakeBody(body: Body, request: Request, route: Option<Hint>, uncertain: bool, capacity: nat,
                    unavailable: nat, turn: Turn): Taken
  {
    match body
    case Refusal(RouteChanged(hint)) =>
      if hint.epoch < request.routeEpoch then Finish(Failure(InvalidResponse))
      else if route == Some(hint) then Finish(Failure(Access(RouteChanged(hint))))
      else if !turn.adopted then Finish(Failure(InvalidResponse))
      else Again(None, false, Some(hint))
    case Refusal(Unknown) => Again(None, true, None)
    case StillPending => Again(None, true, None)
    case RefuseOrInform(_) => if uncertain && request.mutation then Stop else Finish(Success(body))
    case Refusal(error) => TakeRefusal(error, request.mutation, uncertain, capacity, unavailable, turn.allowed)
    case NativeRefused(_, _) => Finish(Success(body))
    case Answer(_) => Finish(Success(body))
  }

  function Take(request: Request, route: Option<Hint>, uncertain: bool, capacity: nat, unavailable: nat,
                turn: Turn): Taken
  {
    match turn.reply
    case Replied(valid, body) =>
      if !valid then (if request.mutation then Stop else Finish(Failure(InvalidResponse)))
      else TakeBody(body, request, route, uncertain, capacity, unavailable, turn)
    case Refused(error) => TakeRefusal(error, request.mutation, uncertain, capacity, unavailable, turn.allowed)
    case Unframed => if request.mutation then Stop else Finish(Failure(InvalidResponse))
    case Unauthenticated => if uncertain && request.mutation then Stop else Finish(Failure(NotAuthenticated))
    case SocketPath => if uncertain && request.mutation then Stop else Finish(Failure(Configuration))
    case Lost => Again(None, true, None)
    case Crashed => Stop
    case Abandoned => Finish(Failure(Transport))
  }

  /** The loop's state between turns. */
  datatype Loop = Loop(
    request: Request, route: Option<Hint>, uncertain: bool, writeUncertain: bool,
    capacity: nat, unavailable: nat, refusal: Option<AccessError>, attempt: nat)

  /** What the loop's state says of what was sent. */
  ghost predicate Tracks(original: Request, maximum: nat, l: Loop, sent: seq<Sent>) {
    && OneRequest(original, sent, l.request)
    && l.uncertain == InDoubt(sent) && l.writeUncertain == (l.uncertain && original.mutation)
    && (l.refusal.Some? <==> exists s <- sent :: Resendable(s.reply))
    && (forall s <- sent :: !Unread(s.reply))
    && l.capacity <= CAPACITY_RESENDS && l.unavailable <= UNAVAILABLE_RESENDS && l.attempt <= maximum
    && |sent| == l.attempt + l.capacity + l.unavailable
  }

  function Count(refusal: Option<AccessError>, error: AccessError): nat {
    if refusal == Some(error) then 1 else 0
  }

  /** The state after a turn that goes on. */
  function Continued(l: Loop, taken: Taken): Loop
    requires taken.Again?
  {
    l.(request := if taken.hint.Some? then l.request.(routeEpoch := taken.hint.value.epoch) else l.request,
       route := if taken.hint.Some? then taken.hint else l.route,
       uncertain := l.uncertain || taken.doubt,
       writeUncertain := if taken.doubt then l.request.mutation else l.writeUncertain,
       capacity := l.capacity + Count(taken.refusal, Capacity),
       unavailable := l.unavailable + Count(taken.refusal, Unavailable),
       refusal := if taken.refusal.Some? then taken.refusal else l.refusal,
       attempt := if taken.refusal.Some? then l.attempt else l.attempt + 1)
  }

  function Taking(l: Loop, turn: Turn): Taken {
    Take(l.request, l.route, l.uncertain, l.capacity, l.unavailable, turn)
  }

  lemma OneMoreSent(sent: seq<Sent>, s: Sent)
    ensures InDoubt(sent + [s]) <==> InDoubt(sent) || Doubtful(s.reply)
    ensures (exists t <- sent + [s] :: Resendable(t.reply)) <==>
      (exists t <- sent :: Resendable(t.reply)) || Resendable(s.reply)
    ensures (forall t <- sent + [s] :: !Unread(t.reply)) <==> (forall t <- sent :: !Unread(t.reply)) && !Unread(s.reply)
  {
    hide Doubtful, Resendable, Unread;
    assert forall t :: t in sent + [s] <==> t in sent || t == s;
  }

  lemma OneRequestMore(original: Request, sent: seq<Sent>, last: Request, s: Sent, next: Request)
    requires OneRequest(original, sent, last) && s.request == last
    requires SameButRoute(next, last) && last.routeEpoch <= next.routeEpoch
    ensures OneRequest(original, sent + [s], next)
  {
  }

  /** A turn that goes on left a doubt, a refusal or a new route, as its reply did. */
  lemma AgainIs(l: Loop, turn: Turn)
    requires Taking(l, turn).Again?
    ensures var t := Taking(l, turn); var r := turn.reply;
      && t.doubt == Doubtful(r) && t.refusal.Some? == Resendable(r) && !Unread(r)
      && (t.refusal.Some? ==> t.refusal.value.Capacity? || t.refusal.value.Unavailable?)
      && (t.refusal == Some(Capacity) ==> l.capacity < CAPACITY_RESENDS)
      && (t.refusal == Some(Unavailable) ==> l.unavailable < UNAVAILABLE_RESENDS)
      && (t.hint.Some? ==> l.request.routeEpoch <= t.hint.value.epoch)
      && (t.doubt ==> t.refusal.None?)
  {
  }

  lemma ContinuedTracks(original: Request, maximum: nat, l: Loop, sent: seq<Sent>, turn: Turn)
    requires Tracks(original, maximum, l, sent) && l.attempt < maximum && Taking(l, turn).Again?
    ensures Tracks(original, maximum, Continued(l, Taking(l, turn)), sent + [Sent(l.request, turn.reply)])
  {
    AgainIs(l, turn);
    var s := Sent(l.request, turn.reply);
    OneMoreSent(sent, s);
    var after := Continued(l, Taking(l, turn));
    OneRequestMore(original, sent, l.request, s, after.request);
    hide Take, OneRequest, InDoubt, Doubtful, Resendable, Unread;
  }

  // ---------------------------------------------------------------- how an exchange ends

  datatype End = Ended(outcome: Outcome, request: Request, writeUncertain: bool) | Unwound(request: Request)

  /** Reported as an error that is not known to be unknown. */
  predicate DecidedEnd(end: End) {
    end.Ended? && end.outcome.Failure? && !end.writeUncertain
  }

  /** Something sent left open what became of it. */
  ghost predicate LeftOpen(sent: seq<Sent>) {
    exists s <- sent :: Unread(s.reply) || Doubtful(s.reply)
  }

  /** What is promised of the whole: sends bounded, one request, and when anything is decided in doubt. */
  ghost predicate Promised(original: Request, maximum: nat, sent: seq<Sent>, end: End) {
    && |sent| <= maximum + UNAVAILABLE_RESENDS + CAPACITY_RESENDS
    && OneRequest(original, sent, end.request)
    && (end.Unwound? <==> sent != [] && sent[|sent| - 1].reply.Crashed?)
    && (original.mutation && InDoubt(sent) && !end.Unwound? ==>
          || (end.outcome.Failure? && end.writeUncertain)
          || (end.outcome.Success? && (end.outcome.body.Answer? || end.outcome.body.NativeRefused?)))
    && (end.Ended? && end.outcome.Success? ==> sent != [] && sent[|sent| - 1].reply == Replied(true, end.outcome.body))
    && (sent != [] && sent[|sent| - 1].reply.Replied? && sent[|sent| - 1].reply.valid
        && sent[|sent| - 1].reply.body.NativeRefused? ==>
          end.Ended? && end.outcome == Success(sent[|sent| - 1].reply.body))
    && (end.Ended? && end.writeUncertain ==> original.mutation)
    && (original.mutation ==>
          (DecidedEnd(end) && LeftOpen(sent) <==> UnreadAfterRefusal(sent) || AbandonedUndoubted(sent)))
    && (end.Ended? && end.outcome.Failure? ==> !end.outcome.error.OutcomeUnknown?)
  }

  lemma LeftOpenMore(sent: seq<Sent>, s: Sent)
    requires forall t <- sent :: !Unread(t.reply)
    ensures LeftOpen(sent) <==> InDoubt(sent)
    ensures LeftOpen(sent + [s]) <==> InDoubt(sent) || Unread(s.reply) || Doubtful(s.reply)
  {
    hide Unread, Doubtful;
    assert forall t :: t in sent + [s] <==> t in sent || t == s;
  }

  /** A turn whose reply ends the exchange. */
  lemma FinishPromised(original: Request, maximum: nat, l: Loop, sent: seq<Sent>, turn: Turn)
    requires Tracks(original, maximum, l, sent) && l.attempt < maximum && Taking(l, turn).Finish?
    ensures Promised(original, maximum, sent + [Sent(l.request, turn.reply)],
                     Ended(Taking(l, turn).outcome, l.request, l.writeUncertain))
  {
    var s := Sent(l.request, turn.reply);
    SameMutation(original, sent, l.request);
    OneMoreSent(sent, s);
    LeftOpenMore(sent, s);
    OneRequestMore(original, sent, l.request, s, l.request);
    FinishIs(l, turn);
    var all := sent + [s];
    assert all[..|all| - 1] == sent && all[|all| - 1] == s;
    hide OneRequest, InDoubt, LeftOpen, Doubtful, Resendable, Take;
  }

  lemma FinishIs(l: Loop, turn: Turn)
    requires Taking(l, turn).Finish?
    ensures var o := Taking(l, turn).outcome; var r := turn.reply;
      && !Doubtful(r) && !r.Crashed? && (l.request.mutation ==> !Unreadable(r))
      && (r.Abandoned? ==> o.Failure?)
      && (o.Success? ==> r == Replied(true, o.body) && !o.body.Refusal? && !o.body.StillPending?)
      && (o.Success? && l.uncertain && l.request.mutation ==> !o.body.RefuseOrInform?)
      && (r.Replied? && r.valid && r.body.NativeRefused? ==> o == Success(r.body))
      && (o.Failure? ==> !o.error.OutcomeUnknown?)
  {
  }

  lemma StopIs(l: Loop, turn: Turn)
    requires Taking(l, turn).Stop?
    ensures var r := turn.reply;
      && !r.Abandoned? && !(r.Replied? && r.valid && r.body.NativeRefused?)
      && (r.Crashed? || (!Doubtful(r) && l.request.mutation && (Unreadable(r) || l.uncertain)))
  {
  }

  /** The end of the loop: a refusal is reported as it was unless something is in doubt. */
  function Settled(l: Loop): End {
    if !l.uncertain && l.refusal.Some? then Ended(Failure(Access(l.refusal.value)), l.request, l.writeUncertain)
    else Ended(Failure(Transport), l.request, l.writeUncertain || l.request.mutation)
  }

  /** What every turn that went on came back with: something read, and no native refusal. */
  ghost predicate GoneOn(sent: seq<Sent>) {
    sent != [] ==>
      var r := sent[|sent| - 1].reply;
      !r.Crashed? && !Unread(r) && !(r.Replied? && r.valid && r.body.NativeRefused?)
  }

  /** A loop that ran out of attempts or of time. */
  lemma SettledPromised(original: Request, maximum: nat, l: Loop, sent: seq<Sent>)
    requires Tracks(original, maximum, l, sent) && GoneOn(sent)
    ensures Promised(original, maximum, sent, Settled(l))
  {
    SameMutation(original, sent, l.request);
    LeftOpenMore(sent, Sent(original, Lost));
    hide OneRequest, InDoubt, LeftOpen, Resendable;
  }

  lemma SameMutation(original: Request, sent: seq<Sent>, last: Request)
    ensures OneRequest(original, sent, last) ==> last.mutation == original.mutation
  {
  }

  /** A turn that stopped the loop: its reply could not be read, or nothing may be decided any more. */
  lemma StoppedPromised(original: Request, maximum: nat, l: Loop, sent: seq<Sent>, turn: Turn)
    requires Tracks(original, maximum, l, sent) && l.attempt < maximum
    requires Taking(l, turn).Stop? && !turn.reply.Crashed?
    ensures Promised(original, maximum, sent + [Sent(l.request, turn.reply)], Settled(l))
  {
    var s := Sent(l.request, turn.reply);
    StopIs(l, turn);
    SameMutation(original, sent, l.request);
    OneMoreSent(sent, s);
    LeftOpenMore(sent, s);
    OneRequestMore(original, sent, l.request, s, l.request);
    var all := sent + [s];
    assert all[..|all| - 1] == sent && all[|all| - 1] == s;
    hide OneRequest, InDoubt, LeftOpen, Doubtful, Resendable, Unreadable, Take;
  }

  /** A turn in which a dependency unwound. */
  lemma UnwoundPromised(original: Request, maximum: nat, l: Loop, sent: seq<Sent>, turn: Turn)
    requires Tracks(original, maximum, l, sent) && l.attempt < maximum && turn.reply.Crashed?
    ensures Promised(original, maximum, sent + [Sent(l.request, turn.reply)], Unwound(l.request))
  {
    var s := Sent(l.request, turn.reply);
    OneMoreSent(sent, s);
    LeftOpenMore(sent, s);
    OneRequestMore(original, sent, l.request, s, l.request);
    var all := sent + [s];
    assert all[|all| - 1] == s && Doubtful(s.reply) && !Unread(s.reply);
    hide OneRequest, InDoubt, LeftOpen, Doubtful, Resendable, Take;
  }

  /** Ended by the clock, between turns. */
  lemma BrokenPromised(original: Request, maximum: nat, l: Loop, sent: seq<Sent>)
    requires Tracks(original, maximum, l, sent) && GoneOn(sent)
    ensures Promised(original, maximum, sent, Ended(Failure(Transport), l.request, l.writeUncertain))
  {
    LeftOpenMore(sent, Sent(original, Lost));
    hide OneRequest, InDoubt, LeftOpen, Resendable;
  }

  /** What the exchange finds before its first turn: whether it may run, whether the request fits, and the
      route cached for its ledger. */
  datatype Start = Start(onShard: bool, fits: bool, cacheBroken: bool, cached: Option<Hint>)

  function Routed(request: Request, cached: Option<Hint>): (Request, Option<Hint>) {
    if cached.Some? && cached.value.epoch >= request.routeEpoch
    then (request.(routeEpoch := cached.value.epoch), cached)
    else (request, None)
  }

  lemma NothingSent(original: Request, maximum: nat, request: Request, route: Option<Hint>)
    requires SameButRoute(request, original) && original.routeEpoch <= request.routeEpoch
    ensures Tracks(original, maximum, Loop(request, route, false, false, 0, 0, None, 0), [])
    ensures forall e: ClientError ::
      !e.OutcomeUnknown? ==> Promised(original, maximum, [], Ended(Failure(e), request, false))
  {
  }

  /** The loop from a state on: the turns left are bounded by the attempts and resends left. */
  ghost function Looped(maximum: nat, l: Loop, sent: seq<Sent>, transport: nat -> Turn, turns: nat): (End, seq<Sent>)
    requires l.capacity <= CAPACITY_RESENDS && l.unavailable <= UNAVAILABLE_RESENDS && l.attempt <= maximum
    decreases maximum - l.attempt + CAPACITY_RESENDS - l.capacity + UNAVAILABLE_RESENDS - l.unavailable
  {
    var turn := transport(turns);
    var taken := Taking(l, turn);
    var all := sent + [Sent(l.request, turn.reply)];
    if l.attempt >= maximum || turn.expired then (Settled(l), sent)
    else if turn.clockBroken then (Ended(Failure(Transport), l.request, l.writeUncertain), sent)
    else if taken.Finish? then (Ended(taken.outcome, l.request, l.writeUncertain), all)
    else if taken.Stop? then (if turn.reply.Crashed? then Unwound(l.request) else Settled(l), all)
    else
      AgainIs(l, turn);
      var next := Continued(l, taken);
      if turn.sleepBroken && !(taken.refusal.None? && next.attempt >= maximum)
      then (Ended(Failure(Transport), next.request, next.writeUncertain), all)
      else Looped(maximum, next, all, transport, turns + 1)
  }

  /** The exchange as a whole. */
  ghost function Exchanged(original: Request, maximum: nat, start: Start, transport: nat -> Turn): (End, seq<Sent>) {
    if !start.onShard || (start.fits && start.cacheBroken) then (Ended(Failure(Transport), original, false), [])
    else if !start.fits then (Ended(Failure(Access(Capacity)), original, false), [])
    else
      var (request, route) := Routed(original, start.cached);
      Looped(maximum, Loop(request, route, false, false, 0, 0, None, 0), [], transport, 0)
  }

  // ---------------------------------------------------------------- the outcome, from what was sent

  predicate RefusedWith(r: Reply, error: AccessError) {
    r == Refused(error) || r == Replied(true, Refusal(error))
  }

  /** How many sends were refused with this error. */
  ghost function Refusals(sent: seq<Sent>, error: AccessError): nat {
    if sent == [] then 0
    else Refusals(sent[..|sent| - 1], error) + if RefusedWith(sent[|sent| - 1].reply, error) then 1 else 0
  }

  /** The sends that were not refused without effect. */
  ghost function Attempts(sent: seq<Sent>): int {
    |sent| - Refusals(sent, Capacity) - Refusals(sent, Unavailable)
  }

  ghost function LastRefusal(sent: seq<Sent>): Option<AccessError> {
    if sent == [] then None
    else if RefusedWith(sent[|sent| - 1].reply, Capacity) then Some(Capacity)
    else if RefusedWith(sent[|sent| - 1].reply, Unavailable) then Some(Unavailable)
    else LastRefusal(sent[..|sent| - 1])
  }

  /** The route known after what was sent: the last hint answered, or else the one cached, unless that is older
      than the request. */
  ghost function Known(original: Request, start: Start, sent: seq<Sent>): Option<Hint> {
    if sent == [] then
      if start.cached.Some? && start.cached.value.epoch >= original.routeEpoch then start.cached else None
    else match sent[|sent| - 1].reply
      case Replied(true, Refusal(RouteChanged(hint))) => Some(hint)
      case _ => Known(original, start, sent[..|sent| - 1])
  }

  /** The request as it is sent next: the original, at the epoch of the route known. */
  ghost function Asking(original: Request, start: Start, sent: seq<Sent>): Request {
    var known := Known(original, start, sent);
    if known.Some? then original.(routeEpoch := known.value.epoch) else original
  }

  /** Refused without effect, with resends left for it. */
  ghost predicate Resent(sent: seq<Sent>, turn: Turn) {
    || (RefusedWith(turn.reply, Unavailable) && Refusals(sent, Unavailable) < UNAVAILABLE_RESENDS)
    || (RefusedWith(turn.reply, Capacity) && turn.allowed && Refusals(sent, Capacity) < CAPACITY_RESENDS)
  }

  /** Answered with a route that is not older, is not the one taken, and is remembered. */
  ghost predicate Rerouted(original: Request, start: Start, sent: seq<Sent>, turn: Turn) {
    && turn.reply.Replied? && turn.reply.valid && turn.reply.body.Refusal? && turn.reply.body.error.RouteChanged?
    && Asking(original, start, sent).routeEpoch <= turn.reply.body.error.hint.epoch
    && Known(original, start, sent) != Some(turn.reply.body.error.hint) && turn.adopted
  }

  /** The reply after which the exchange goes on. */
  ghost predicate GoesOn(original: Request, start: Start, sent: seq<Sent>, turn: Turn) {
    || Resent(sent, turn) || Rerouted(original, start, sent, turn)
    || (Doubtful(turn.reply) && !turn.reply.Crashed?)
  }

  /** No turn is left: the attempts are used up, or the time is. */
  ghost predicate RunOut(maximum: nat, sent: seq<Sent>, turn: Turn) {
    Attempts(sent) >= maximum || turn.expired
  }

  /** An error, unless the request is a mutation in doubt, whose outcome is then unknown. */
  ghost function Erring(sent: seq<Sent>, request: Request, error: ClientError): Outcome {
    Failure(if request.mutation && InDoubt(sent) then OutcomeUnknown(request) else error)
  }

  /** What is reported of sends none of which was answered: the last refusal if nothing is in doubt. */
  ghost function Unanswered(sent: seq<Sent>, request: Request): Outcome {
    if !InDoubt(sent) && LastRefusal(sent).Some? then Failure(Access(LastRefusal(sent).value))
    else Failure(if request.mutation then OutcomeUnknown(request) else Transport)
  }

  /** What a reply that ends the exchange is reported as, `before` being what was sent before it. */
  ghost function Closing(before: seq<Sent>, request: Request, route: Option<Hint>, r: Reply): Outcome {
    match r
    case Replied(true, Refusal(RouteChanged(hint))) =>
      Erring(before, request, if request.routeEpoch <= hint.epoch && route == Some(hint) then Access(RouteChanged(hint))
                              else InvalidResponse)
    case Replied(true, Refusal(error)) => Erring(before, request, Access(error))
    case Replied(true, RefuseOrInform(_)) =>
      if request.mutation && InDoubt(before) then Failure(OutcomeUnknown(request)) else Success(r.body)
    case Replied(true, body) => Success(body)
    case Refused(error) => Erring(before, request, Access(error))
    case Unauthenticated => Erring(before, request, NotAuthenticated)
    case SocketPath => Erring(before, request, Configuration)
    case Abandoned => Erring(before, request, Transport)
    case Crashed => Failure(if request.mutation then OutcomeUnknown(request) else Transport)
    case _ => if request.mutation then Unanswered(before, request) else Failure(InvalidResponse)
  }

  /** Turn `i` was within the attempts and the time, and sent the request at the route then known. */
  ghost predicate SentAt(original: Request, maximum: nat, start: Start, transport: nat -> Turn, sent: seq<Sent>, i: nat)
    requires i < |sent|
  {
    && sent[i] == Sent(Asking(original, start, sent[..i]), transport(i).reply)
    && !RunOut(maximum, sent[..i], transport(i)) && !transport(i).clockBroken
  }

  ghost predicate WentOn(original: Request, start: Start, transport: nat -> Turn, sent: seq<Sent>, i: nat)
    requires i < |sent|
  {
    GoesOn(original, start, sent[..i], transport(i)) && !transport(i).sleepBroken
  }

  /** How the exchange ends after what was sent: by the last reply, by a pause that cannot be kept, by running out,
      or by a deadline that cannot be kept. */
  ghost predicate EndsWith(original: Request, maximum: nat, start: Start, transport: nat -> Turn, sent: seq<Sent>,
                           outcome: Outcome)
  {
    var n := |sent|;
    if n > 0 && !GoesOn(original, start, sent[..n - 1], transport(n - 1)) then
      outcome == Closing(sent[..n - 1], sent[n - 1].request, Known(original, start, sent[..n - 1]), sent[n - 1].reply)
    else if n > 0 && transport(n - 1).sleepBroken && Attempts(sent) < maximum then
      outcome == Erring(sent, Asking(original, start, sent), Transport)
    else if RunOut(maximum, sent, transport(n)) then outcome == Unanswered(sent, Asking(original, start, sent))
    else transport(n).clockBroken && outcome == Erring(sent, Asking(original, start, sent), Transport)
  }

  /** What is sent and what is answered, with no word of the loop's own state. */
  ghost predicate Answers(original: Request, maximum: nat, start: Start, transport: nat -> Turn, sent: seq<Sent>,
                          outcome: Outcome)
  {
    if !start.onShard || (start.fits && start.cacheBroken) then sent == [] && outcome == Failure(Transport)
    else if !start.fits then sent == [] && outcome == Failure(Access(Capacity))
    else
      && (forall i :: 0 <= i < |sent| ==> SentAt(original, maximum, start, transport, sent, i))
      && (forall i :: 0 <= i < |sent| - 1 ==> WentOn(original, start, transport, sent, i))
      && EndsWith(original, maximum, start, transport, sent, outcome)
  }

  /** The end as the caller is told it. */
  function Reported(mutation: bool, end: End): Outcome {
    match end
    case Ended(result, request, writeUncertain) =>
      if result.Failure? && writeUncertain then Failure(OutcomeUnknown(request)) else result
    case Unwound(request) => Failure(if mutation then OutcomeUnknown(request) else Transport)
  }

  /** The loop's state is a function of what was sent. */
  ghost predicate Describes(original: Request, start: Start, l: Loop, sent: seq<Sent>) {
    && l.request == Asking(original, start, sent) && l.route == Known(original, start, sent)
    && l.uncertain == InDoubt(sent) && l.writeUncertain == (l.uncertain && original.mutation)
    && l.capacity == Refusals(sent, Capacity) && l.unavailable == Refusals(sent, Unavailable)
    && l.refusal == LastRefusal(sent) && l.attempt == Attempts(sent)
  }

  lemma TakenAgain(original: Request, start: Start, l: Loop, sent: seq<Sent>, turn: Turn)
    requires Describes(original, start, l, sent)
    ensures Taking(l, turn).Again? <==> GoesOn(original, start, sent, turn)
    ensures Taking(l, turn).Again? ==> (Taking(l, turn).refusal.Some? <==> Resent(sent, turn))
  {
    hide InDoubt, Known, Refusals, LastRefusal, Attempts;
  }

  lemma NotBoth(r: Reply)
    ensures !(RefusedWith(r, Capacity) && RefusedWith(r, Unavailable))
  {
  }

  lemma CountedMore(original: Request, start: Start, sent: seq<Sent>, s: Sent)
    ensures var all := sent + [s];
      && (forall e :: Refusals(all, e) == Refusals(sent, e) + if RefusedWith(s.reply, e) then 1 else 0)
      && LastRefusal(all) == (if RefusedWith(s.reply, Capacity) then Some(Capacity)
                              else if RefusedWith(s.reply, Unavailable) then Some(Unavailable) else LastRefusal(sent))
      && Known(original, start, all) ==
        (if s.reply.Replied? && s.reply.valid && s.reply.body.Refusal? && s.reply.body.error.RouteChanged?
         then Some(s.reply.body.error.hint) else Known(original, start, sent))
  {
    var all := sent + [s];
    assert all[..|all| - 1] == sent && all[|all| - 1] == s;
  }

  /** What a turn that goes on adds to the loop's state. */
  lemma AgainAdds(l: Loop, turn: Turn)
    requires Taking(l, turn).Again?
    ensures var next := Continued(l, Taking(l, turn)); var r := turn.reply;
      && next.capacity == l.capacity + (if RefusedWith(r, Capacity) then 1 else 0)
      && next.unavailable == l.unavailable + (if RefusedWith(r, Unavailable) then 1 else 0)
      && next.attempt == l.attempt + (if RefusedWith(r, Capacity) || RefusedWith(r, Unavailable) then 0 else 1)
      && next.refusal == (if RefusedWith(r, Capacity) then Some(Capacity)
                          else if RefusedWith(r, Unavailable) then Some(Unavailable) else l.refusal)
      && next.uncertain == (l.uncertain || Doubtful(r))
      && (if r.Replied? && r.valid && r.body.Refusal? && r.body.error.RouteChanged?
          then next.route == Some(r.body.error.hint)
            && next.request == l.request.(routeEpoch := r.body.error.hint.epoch)
          else next.route == l.route && next.request == l.request)
      && next.writeUncertain == (if Doubtful(r) then l.request.mutation else l.writeUncertain)
  {
  }

  lemma DescribesMore(original: Request, start: Start, l: Loop, sent: seq<Sent>, turn: Turn)
    requires Describes(original, start, l, sent) && Taking(l, turn).Again?
    ensures Describes(original, start, Continued(l, Taking(l, turn)), sent + [Sent(l.request, turn.reply)])
  {
    var s := Sent(l.request, turn.reply);
    hide InDoubt, Known, Refusals, LastRefusal, Taking, Continued, Doubtful, RefusedWith;
    OneMoreSent(sent, s);
    CountedMore(original, start, sent, s);
    AgainAdds(l, turn);
    NotBoth(turn.reply);
  }

  lemma ClosingIs(original: Request, start: Start, l: Loop, sent: seq<Sent>, turn: Turn)
    requires Describes(original, start, l, sent) && !Taking(l, turn).Again?
    ensures var taken := Taking(l, turn);
      var end := if taken.Finish? then Ended(taken.outcome, l.request, l.writeUncertain)
                 else if turn.reply.Crashed? then Unwound(l.request) else Settled(l);
      Reported(original.mutation, end) == Closing(sent, l.request, l.route, turn.reply)
  {
    hide InDoubt, Known, Refusals, LastRefusal, Attempts;
  }

  /** What was sent by the turns before this one, each of which went on. */
  ghost predicate SoFar(original: Request, maximum: nat, start: Start, transport: nat -> Turn, sent: seq<Sent>) {
    && (forall i :: 0 <= i < |sent| ==> SentAt(original, maximum, start, transport, sent, i))
    && (forall i :: 0 <= i < |sent| - 1 ==> WentOn(original, start, transport, sent, i))
    && (sent != [] ==> GoesOn(original, start, sent[..|sent| - 1], transport(|sent| - 1)))
    && (sent != [] && transport(|sent| - 1).sleepBroken ==> Attempts(sent) >= maximum)
  }

  /** One more turn within the attempts and the time. */
  lemma OneMoreTurn(original: Request, maximum: nat, start: Start, transport: nat -> Turn, sent: seq<Sent>)
    requires SoFar(original, maximum, start, transport, sent)
    requires !RunOut(maximum, sent, transport(|sent|)) && !transport(|sent|).clockBroken
    ensures var all := sent + [Sent(Asking(original, start, sent), transport(|sent|).reply)];
      && (forall i :: 0 <= i < |all| ==> SentAt(original, maximum, start, transport, all, i))
      && (forall i :: 0 <= i < |all| - 1 ==> WentOn(original, start, transport, all, i))
  {
    hide Asking, GoesOn, Attempts;
    var n := |sent|;
    var all := sent + [Sent(Asking(original, start, sent), transport(|sent|).reply)];
    forall i | 0 <= i < |all|
      ensures SentAt(original, maximum, start, transport, all, i)
      ensures i < |all| - 1 ==> WentOn(original, start, transport, all, i)
    {
      assert all[..i] == sent[..i];
      assert i < n ==> SentAt(original, maximum, start, transport, sent, i);
      assert i == n ==> all[..i] == sent;
      if i < n {
        assert WentOn(original, start, transport, sent, i);
      }
    }
  }

  /** Ended before a turn was sent. */
  lemma EndsBetween(original: Request, maximum: nat, start: Start, l: Loop, sent: seq<Sent>, transport: nat -> Turn)
    requires Describes(original, start, l, sent) && SoFar(original, maximum, start, transport, sent)
    requires l.attempt >= maximum || transport(|sent|).expired || transport(|sent|).clockBroken
    ensures var end := if l.attempt >= maximum || transport(|sent|).expired then Settled(l)
                       else Ended(Failure(Transport), l.request, l.writeUncertain);
      EndsWith(original, maximum, start, transport, sent, Reported(original.mutation, end))
  {
    hide GoesOn, InDoubt, Known, Refusals, LastRefusal, Closing, SentAt, WentOn;
  }

  /** Ended by the pause after a turn that went on. */
  lemma EndsPausing(original: Request, maximum: nat, start: Start, l: Loop, sent: seq<Sent>, transport: nat -> Turn)
    requires Describes(original, start, l, sent) && sent != []
    requires GoesOn(original, start, sent[..|sent| - 1], transport(|sent| - 1))
    requires transport(|sent| - 1).sleepBroken && l.attempt < maximum
    ensures EndsWith(original, maximum, start, transport, sent,
                     Reported(original.mutation, Ended(Failure(Transport), l.request, l.writeUncertain)))
  {
    hide GoesOn, InDoubt, Known, Refusals, LastRefusal, Closing;
  }

  /** A turn that went on, and whose pause was kept or not needed. */
  lemma SoFarMore(original: Request, maximum: nat, start: Start, transport: nat -> Turn, sent: seq<Sent>)
    requires SoFar(original, maximum, start, transport, sent)
    requires !RunOut(maximum, sent, transport(|sent|)) && !transport(|sent|).clockBroken
    requires GoesOn(original, start, sent, transport(|sent|))
    requires var all := sent + [Sent(Asking(original, start, sent), transport(|sent|).reply)];
      transport(|sent|).sleepBroken ==> Attempts(all) >= maximum
    ensures SoFar(original, maximum, start, transport,
                  sent + [Sent(Asking(original, start, sent), transport(|sent|).reply)])
  {
    hide GoesOn, Asking, Attempts, SentAt, WentOn;
    OneMoreTurn(original, maximum, start, transport, sent);
    var all := sent + [Sent(Asking(original, start, sent), transport(|sent|).reply)];
    assert all[..|all| - 1] == sent;
  }

  lemma {:induction false} LoopedAnswers(original: Request, maximum: nat, start: Start, l: Loop, sent: seq<Sent>,
                                         transport: nat -> Turn)
    requires start.onShard && start.fits && !start.cacheBroken
    requires l.capacity <= CAPACITY_RESENDS && l.unavailable <= UNAVAILABLE_RESENDS && l.attempt <= maximum
    requires Describes(original, start, l, sent) && SoFar(original, maximum, start, transport, sent)
    ensures var (end, all) := Looped(maximum, l, sent, transport, |sent|);
      Answers(original, maximum, start, transport, all, Reported(original.mutation, end))
    decreases maximum - l.attempt + CAPACITY_RESENDS - l.capacity + UNAVAILABLE_RESENDS - l.unavailable
  {
    hide GoesOn, Taking, Closing, SentAt, WentOn, EndsWith, Reported, Settled, Asking, Known, Attempts, InDoubt,
         Refusals, LastRefusal, Resent;
    var turn := transport(|sent|);
    if l.attempt >= maximum || turn.expired || turn.clockBroken {
      EndsBetween(original, maximum, start, l, sent, transport);
    } else {
      var all := sent + [Sent(l.request, turn.reply)];
      assert all[..|all| - 1] == sent;
      OneMoreTurn(original, maximum, start, transport, sent);
      TakenAgain(original, start, l, sent, turn);
      var taken := Taking(l, turn);
      if taken.Again? {
        AgainIs(l, turn);
        DescribesMore(original, start, l, sent, turn);
        var next := Continued(l, taken);
        AttemptsBounded(maximum, l, taken);
        if turn.sleepBroken && next.attempt < maximum {
          EndsPausing(original, maximum, start, next, all, transport);
        } else {
          SoFarMore(original, maximum, start, transport, sent);
          LoopedAnswers(original, maximum, start, next, all, transport);
        }
      } else {
        ClosingIs(original, start, l, sent, turn);
        ClosingEnds(original, maximum, start, transport, all);
      }
    }
  }

  lemma AttemptsBounded(maximum: nat, l: Loop, taken: Taken)
    requires taken.Again? && l.attempt < maximum
    ensures Continued(l, taken).attempt >= maximum ==> taken.refusal.None?
  {
  }

  lemma ClosingEnds(original: Request, maximum: nat, start: Start, transport: nat -> Turn, sent: seq<Sent>)
    requires sent != [] && !GoesOn(original, start, sent[..|sent| - 1], transport(|sent| - 1))
    ensures EndsWith(original, maximum, start, transport, sent,
                     Closing(sent[..|sent| - 1], sent[|sent| - 1].request, Known(original, start, sent[..|sent| - 1]),
                             sent[|sent| - 1].reply))
  {
  }

  /** The exchange answers what `Answers` says, against any transport. */
  lemma ExchangedAnswers(original: Request, maximum: nat, start: Start, transport: nat -> Turn)
    ensures var (end, sent) := Exchanged(original, maximum, start, transport);
      Answers(original, maximum, start, transport, sent, Reported(original.mutation, end))
  {
    if start.onShard && start.fits && !start.cacheBroken {
      var (request, route) := Routed(original, start.cached);
      LoopedAnswers(original, maximum, start, Loop(request, route, false, false, 0, 0, None, 0), [], transport);
    }
  }

  // ---------------------------------------------------------------- the exchange

  /** The exchange. `transport` says what each turn meets, whatever it is. */
  method Exchange(original: Request, maximum: nat, start: Start, transport: nat -> Turn)
      returns (end: End, ghost sent: seq<Sent>)
    ensures end == Exchanged(original, maximum, start, transport).0
    ensures sent == Exchanged(original, maximum, start, transport).1
    ensures Promised(original, maximum, sent, end)
    ensures Answers(original, maximum, start, transport, sent, Reported(original.mutation, end))
  {
    hide Promised, Tracks, Take, OneRequest, Answers;
    ExchangedAnswers(original, maximum, start, transport);
    sent := [];
    NothingSent(original, maximum, original, None);
    if !start.onShard {
      return Ended(Failure(Transport), original, false), [];
    }
    if !start.fits {
      return Ended(Failure(Access(Capacity)), original, false), [];
    }
    if start.cacheBroken {
      return Ended(Failure(Transport), original, false), [];
    }
    var (request, route) := Routed(original, start.cached);
    NothingSent(original, maximum, request, route);
    var l := Loop(request, route, false, false, 0, 0, None, 0);
    var turns := 0;
    while l.attempt < maximum
      invariant Tracks(original, maximum, l, sent) && GoneOn(sent)
      invariant l.capacity <= CAPACITY_RESENDS && l.unavailable <= UNAVAILABLE_RESENDS && l.attempt <= maximum
      invariant Looped(maximum, l, sent, transport, turns) == Exchanged(original, maximum, start, transport)
      decreases maximum - l.attempt + CAPACITY_RESENDS - l.capacity + UNAVAILABLE_RESENDS - l.unavailable
    {
      var turn := transport(turns);
      turns := turns + 1;
      if turn.expired {
        break;
      }
      if turn.clockBroken {
        BrokenPromised(original, maximum, l, sent);
        return Ended(Failure(Transport), l.request, l.writeUncertain), sent;
      }
      var taken := Taking(l, turn);
      ghost var before := sent;
      sent := sent + [Sent(l.request, turn.reply)];
      match taken {
        case Finish(outcome) =>
          FinishPromised(original, maximum, l, before, turn);
          return Ended(outcome, l.request, l.writeUncertain), sent;
        case Stop =>
          if turn.reply.Crashed? {
            UnwoundPromised(original, maximum, l, before, turn);
            return Unwound(l.request), sent;
          }
          StoppedPromised(original, maximum, l, before, turn);
          return Settled(l), sent;
        case Again(_, _, _) =>
          ContinuedTracks(original, maximum, l, before, turn);
          AgainIs(l, turn);
          AgainGoesOn(l, turn, before);
          l := Continued(l, taken);
      }
      if taken.refusal.None? && l.attempt >= maximum {
        break;
      }
      if turn.sleepBroken {
        BrokenPromised(original, maximum, l, sent);
        return Ended(Failure(Transport), l.request, l.writeUncertain), sent;
      }
    }
    SettledPromised(original, maximum, l, sent);
    return Settled(l), sent;
  }

  lemma AgainGoesOn(l: Loop, turn: Turn, sent: seq<Sent>)
    requires Taking(l, turn).Again?
    ensures GoneOn(sent + [Sent(l.request, turn.reply)])
  {
  }

  /** An error that says what became of the request. */
  predicate Decided(outcome: Outcome) {
    outcome.Failure? && !outcome.error.OutcomeUnknown?
  }

  /** One request, whatever the transport does. A mutation once in doubt ends in an unknown outcome that
      hands back the request, or in a valid answer or native refusal; a native refusal is the outcome exactly
      when it came last. A mutation ends in a decided error with something sent left open exactly when the
      last reply could not be read, after a refusal, or the last send was abandoned, each with no doubt before. */
  method Send(original: Request, maximum: nat, start: Start, transport: nat -> Turn)
      returns (outcome: Outcome, ghost sent: seq<Sent>)
    ensures sent == Exchanged(original, maximum, start, transport).1
    ensures |sent| <= maximum + UNAVAILABLE_RESENDS + CAPACITY_RESENDS
    ensures exists last ::
      && OneRequest(original, sent, last)
      && (outcome.Failure? && outcome.error.OutcomeUnknown? ==> outcome.error.request == last)
    ensures original.mutation && InDoubt(sent) ==>
      || (outcome.Failure? && outcome.error.OutcomeUnknown?)
      || (outcome.Success? && (outcome.body.Answer? || outcome.body.NativeRefused?))
    ensures outcome.Success? ==> sent != [] && sent[|sent| - 1].reply == Replied(true, outcome.body)
    ensures outcome.Success? && outcome.body.NativeRefused? <==>
      && sent != [] && sent[|sent| - 1].reply.Replied? && sent[|sent| - 1].reply.valid
      && sent[|sent| - 1].reply.body.NativeRefused?
    ensures original.mutation ==>
      (Decided(outcome) && LeftOpen(sent) <==> UnreadAfterRefusal(sent) || AbandonedUndoubted(sent))
    ensures !original.mutation ==> !(outcome.Failure? && outcome.error.OutcomeUnknown?)
    ensures Answers(original, maximum, start, transport, sent, outcome)
    ensures sent != [] && sent[|sent| - 1].reply.Replied? && sent[|sent| - 1].reply.valid ==>
      var body := sent[|sent| - 1].reply.body;
      && (body.Answer? ==> outcome == Success(body))
      && (body.RefuseOrInform? ==> (outcome == Success(body) <==> !original.mutation || !InDoubt(sent)))
  {
    var end: End;
    end, sent := Exchange(original, maximum, start, transport);
    hide OneRequest, Exchanged, LeftOpen, InDoubt, Answers;
    UnwoundInDoubt(original, maximum, sent, end);
    match end {
      case Ended(result, request, writeUncertain) =>
        outcome := if result.Failure? && writeUncertain then Failure(OutcomeUnknown(request)) else result;
      case Unwound(request) =>
        outcome := if original.mutation then Failure(OutcomeUnknown(request)) else Failure(Transport);
    }
    if sent != [] && sent[|sent| - 1].reply.Replied? && sent[|sent| - 1].reply.valid {
      AnswerReaches(original, maximum, start, transport, sent, outcome);
    }
    assert OneRequest(original, sent, end.request);
  }

  lemma UnwoundInDoubt(original: Request, maximum: nat, sent: seq<Sent>, end: End)
    requires Promised(original, maximum, sent, end)
    ensures end.Unwound? ==> InDoubt(sent)
  {
    hide OneRequest;
    if end.Unwound? {
      assert sent[|sent| - 1] in sent && Doubtful(sent[|sent| - 1].reply);
    }
  }

  /** A valid answer that came last is the outcome, and so is a refusal or information of a request that is no
      mutation or of which nothing is in doubt. */
  lemma AnswerReaches(original: Request, maximum: nat, start: Start, transport: nat -> Turn, sent: seq<Sent>,
                      outcome: Outcome)
    requires Answers(original, maximum, start, transport, sent, outcome)
    requires sent != [] && sent[|sent| - 1].reply.Replied? && sent[|sent| - 1].reply.valid
    ensures var body := sent[|sent| - 1].reply.body;
      && (body.Answer? ==> outcome == Success(body))
      && (body.RefuseOrInform? ==> (outcome == Success(body) <==> !original.mutation || !InDoubt(sent)))
  {
    hide Known, Refusals, InDoubt, RunOut, Attempts, LastRefusal;
    var before, s := sent[..|sent| - 1], sent[|sent| - 1];
    assert SentAt(original, maximum, start, transport, sent, |sent| - 1);
    assert before + [s] == sent;
    OneMoreSent(before, s);
  }

  // ---------------------------------------------------------------- where the code is not what it says

  /** A transport that refuses the first send and answers the second with what cannot be read. */
  function RefusesThenGarbles(i: nat): Turn {
    Turn(false, false, if i == 0 then Refused(Unavailable) else Unframed, true, true, false)
  }

  /** The loop's closing comment says a refusal is reported only when every attempt was refused without
      effect. It is not so: a mutation refused once, resent, and answered unreadably is reported as
      refused, though that answer may be of a commit. */
  lemma UnreadReportedAsRefusal(r: Request)
    requires r.mutation
    ensures var (end, sent) := Exchanged(r, 4, Start(true, true, false, None), RefusesThenGarbles);
      end == Ended(Failure(Access(Unavailable)), r, false) && UnreadAfterRefusal(sent)
  {
    var l := Loop(r, None, false, false, 0, 0, None, 0);
    var first := Sent(r, Refused(Unavailable));
    var next := l.(unavailable := 1, refusal := Some(Unavailable));
    assert RefusesThenGarbles(0).reply == Refused(Unavailable) && RefusesThenGarbles(1).reply == Unframed;
    assert Continued(l, Taking(l, RefusesThenGarbles(0))) == next;
    assert [] + [first] == [first];
    assert Looped(4, l, [], RefusesThenGarbles, 0) == Looped(4, next, [first], RefusesThenGarbles, 1);
    var all := [first] + [Sent(r, Unframed)];
    assert Looped(4, next, [first], RefusesThenGarbles, 1) == (Settled(next), all);
    assert all[..1] == [first] && first in all[..|all| - 1];
    assert UnreadAfterRefusal(all);
  }

  /** A transport whose first send is under way when its deadline can no longer be kept. */
  function Abandons(i: nat): Turn {
    Turn(false, false, Abandoned, true, true, false)
  }

  /** A mutation under way when no deadline can be kept any more is reported as a transport failure, though
      it may have been sent: the wait polls the send before its deadline. */
  lemma AbandonedReportedAsFailure(r: Request)
    requires r.mutation
    ensures var (end, sent) := Exchanged(r, 4, Start(true, true, false, None), Abandons);
      end == Ended(Failure(Transport), r, false) && sent == [Sent(r, Abandoned)] && AbandonedUndoubted(sent)
  {
    var l := Loop(r, None, false, false, 0, 0, None, 0);
    assert [] + [Sent(r, Abandoned)] == [Sent(r, Abandoned)];
    assert Looped(4, l, [], Abandons, 0) == (Ended(Failure(Transport), r, false), [Sent(r, Abandoned)]);
  }

  /** A transport that loses the first reply and answers the second with a native refusal. */
  function LosesThenRefuses(i: nat): Turn {
    Turn(false, false, if i == 0 then Lost else Replied(true, NativeRefused(false, 7)), true, true, false)
  }

  /** A native mutation in doubt can end refused, where one of the older kind ends in an unknown outcome. */
  lemma DoubtEndsInNativeRefusal(r: Request)
    requires r.mutation
    ensures var (end, sent) := Exchanged(r, 4, Start(true, true, false, None), LosesThenRefuses);
      end == Ended(Success(NativeRefused(false, 7)), r, true) && InDoubt(sent)
  {
    var l := Loop(r, None, false, false, 0, 0, None, 0);
    var first := Sent(r, Lost);
    var next := l.(uncertain := true, writeUncertain := true, attempt := 1);
    assert LosesThenRefuses(0).reply == Lost && LosesThenRefuses(1).reply == Replied(true, NativeRefused(false, 7));
    assert Continued(l, Taking(l, LosesThenRefuses(0))) == next;
    assert [] + [first] == [first];
    assert Looped(4, l, [], LosesThenRefuses, 0) == Looped(4, next, [first], LosesThenRefuses, 1);
    var all := [first] + [Sent(r, Replied(true, NativeRefused(false, 7)))];
    assert Looped(4, next, [first], LosesThenRefuses, 1) == (Ended(Success(NativeRefused(false, 7)), r, true), all);
    assert first in all && Doubtful(first.reply);
  }
}
