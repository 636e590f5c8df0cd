/**
 A replica's durable records and the store they are read back into: what each record does, what a
 checkpoint writes, and what it leaves of the log.
 */
module CheckpointModel {
  import opened Basics
  import Membership

  type Result<T> = Attempt<T, Error>

  datatype Error =
    | Corruption | Capacity | CheckpointIndex | PersistencePending | Unavailable | Compacted | Failed
    | ChangeRefused | Unopened

  type Bytes = seq<bv8>
  type Conf = Membership.Conf

  const U64_MAX: nat := 0xFFFF_FFFF_FFFF_FFFF

  datatype Kind = Normal | Change
  datatype Entry = Entry(index: nat, term: nat, kind: Kind, data: Bytes)
  datatype HardState = HardState(term: nat, vote: nat, commit: nat)
  datatype Snapshot = Snapshot(index: nat, term: nat, conf: Conf, data: Bytes)
  datatype Pair = Pair(predecessor: nat, successor: nat)
  datatype Config = Config(id: nat, fast: bool)

  const NO_CONF: Conf := Membership.Conf([], [], [], [], false)
  const NO_SNAPSHOT: Snapshot := Snapshot(0, 0, NO_CONF, [])

  datatype Record =
    | Identity(config: nat)
    | FastTrack
    | Floor(hash: nat)
    | Transition(pair: Pair)
    | Snapshotted(snapshot: Snapshot)
    | Logged(entry: Entry)
    | Released(through: nat)
    | Proposed(entry: Entry)
    | Hard(hard: HardState)

  /** The retained log: everything after the snapshot's index, and what the member approved by itself. */
  datatype Store = Store(
    hard: HardState, conf: Conf, entries: seq<Entry>, snapshot: Snapshot, proposals: seq<Entry>, released: nat)

  /** What a group's records state. */
  datatype Member = Member(
    identity: Option<nat>, fast: bool, required: Option<nat>, transition: Option<Pair>, store: Store)

  function NewStore(conf: Conf): Store {
    Store(HardState(0, 0, 0), conf, [], NO_SNAPSHOT, [], 0)
  }

  function NewMember(conf: Conf): Member {
    Member(None, false, None, None, NewStore(conf))
  }

  // ---------------------------------------------------------------- the store

  function Last(s: Store): nat {
    if s.entries == [] then s.snapshot.index else s.entries[|s.entries| - 1].index
  }

  function TermAt(s: Store, index: nat): Result<nat> {
    if index == s.snapshot.index then Ok(s.snapshot.term)
    else if index < s.snapshot.index then Err(Compacted)
    else if index - s.snapshot.index - 1 < |s.entries| && s.entries[index - s.snapshot.index - 1].index == index
    then Ok(s.entries[index - s.snapshot.index - 1].term)
    else Err(Unavailable)
  }

  function StoreFault(s: Store): Option<Error> {
    if Membership.ConfFault(s.conf).Some? then Some(Corruption)
    else if s.hard.term == U64_MAX || Last(s) == U64_MAX || s.snapshot.term == U64_MAX then Some(Corruption)
    else if s.hard.commit > Last(s) || s.hard.commit < s.snapshot.index then Some(Corruption)
    else None
  }

  /** The entries below `index`: what stays when an entry at it replaces the rest. */
  function Below(entries: seq<Entry>, index: nat): seq<Entry> {
    if entries == [] || entries[|entries| - 1].index < index then entries
    else Below(entries[..|entries| - 1], index)
  }

  /** One entry taken into the log, as it is read back. */
  function Append(s: Store, e: Entry): Result<Store> {
    if e.index <= s.snapshot.index then Ok(s)
    else if e.index <= s.hard.commit then
      var term := TermAt(s, e.index);
      if term.Err? then Err(term.error) else if term.value != e.term then Err(Corruption) else Ok(s)
    else if e.index > Last(s) + 1 then Err(Corruption)
    else Ok(s.(entries := Below(s.entries, e.index) + [e]))
  }

  function Max(a: nat, b: nat): nat {
    if a < b then b else a
  }

  function Install(s: Store, snapshot: Snapshot): Result<Store> {
    if Membership.ConfFault(snapshot.conf).Some? then Err(Corruption)
    else if snapshot.index < s.snapshot.index then Err(Corruption)
    else Ok(s.(entries := [], conf := snapshot.conf, snapshot := snapshot,
               hard := s.hard.(commit := Max(s.hard.commit, snapshot.index))))
  }

  /** The proposals above `through`. */
  function Above(proposals: seq<Entry>, through: nat): seq<Entry> {
    if proposals == [] then []
    else if proposals[0].index > through then [proposals[0]] + Above(proposals[1..], through)
    else Above(proposals[1..], through)
  }

  function Release(s: Store, through: nat): Store {
    s.(proposals := Above(s.proposals, through), released := Max(s.released, through))
  }

  /** One entry an index: a proposal given again replaces the one held there. */
  function Held(proposals: seq<Entry>, e: Entry): seq<Entry> {
    if proposals == [] then [e]
    else if proposals[0].index == e.index then [e] + proposals[1..]
    else [proposals[0]] + Held(proposals[1..], e)
  }

  function Hold(s: Store, e: Entry): Store {
    s.(proposals := Held(s.proposals, e))
  }

  // ---------------------------------------------------------------- reading records back

  predicate Proposable(e: Entry) {
    e.kind == Normal && e.data != []
  }

  function ReplayHard(s: Store, hard: HardState): Result<Store> {
    if hard.commit < s.hard.commit || hard.term < s.hard.term
       || (hard.term == s.hard.term && s.hard.vote != 0 && hard.vote != s.hard.vote)
    then Err(Corruption)
    else
      var t := s.(hard := hard);
      if StoreFault(t).Some? then Err(StoreFault(t).value) else Ok(t)
  }

  function Put(m: Member, store: Result<Store>): Result<Member> {
    if store.Err? then Err(store.error) else Ok(m.(store := store.value))
  }

  function ReplayOne(m: Member, r: Record): Result<Member> {
    match r
    case Identity(config) => if m.identity.Some? then Err(Corruption) else Ok(m.(identity := Some(config)))
    case FastTrack => if m.identity.None? || m.fast then Err(Corruption) else Ok(m.(fast := true))
    case Floor(hash) => if m.identity.None? || m.required.Some? then Err(Corruption) else Ok(m.(required := Some(hash)))
    case Transition(pair) =>
      if m.identity.None? || m.transition.Some? || pair.predecessor == pair.successor
         || m.required != Some(pair.predecessor)
      then Err(Corruption)
      else Ok(m.(transition := Some(pair)))
    case Snapshotted(snapshot) => Put(m, Install(m.store, snapshot))
    case Logged(e) => Put(m, Append(m.store, e))
    case Released(through) => if !m.fast then Err(Corruption) else Ok(m.(store := Release(m.store, through)))
    case Proposed(e) => if !m.fast || !Proposable(e) then Err(Corruption) else Ok(m.(store := Hold(m.store, e)))
    case Hard(hard) => Put(m, ReplayHard(m.store, hard))
  }

  function Replay(m: Result<Member>, records: seq<Record>): Result<Member>
    decreases |records|
  {
    if records == [] || m.Err? then m else Replay(ReplayOne(m.value, records[0]), records[1..])
  }

  lemma {:induction false} ReplayConcat(m: Result<Member>, a: seq<Record>, b: seq<Record>)
    ensures Replay(m, a + b) == Replay(Replay(m, a), b)
    decreases |a|
  {
    hide ReplayOne;
    if a == [] || m.Err? {
      assert m.Ok? ==> a + b == b;
    } else {
      assert (a + b)[0] == a[0] && (a + b)[1..] == a[1..] + b;
      ReplayConcat(ReplayOne(m.value, a[0]), a[1..], b);
    }
  }

  lemma ReplayOneRecord(m: Member, r: Record)
    ensures Replay(Ok(m), [r]) == ReplayOne(m, r)
  {
    hide ReplayOne;
    assert [r][1..] == [];
  }

  // ---------------------------------------------------------------- a checkpoint

  /** The point a checkpoint names: an applied entry and the configuration applied through it. */
  datatype Point = Point(index: nat, term: nat, conf: Conf)

  /** The entries after `index`, in order. */
  function After(entries: seq<Entry>, index: nat): seq<Entry> {
    if entries == [] then []
    else if entries[0].index > index then [entries[0]] + After(entries[1..], index)
    else After(entries[1..], index)
  }

  function LoggedAll(entries: seq<Entry>): seq<Record> {
    seq(|entries|, i requires 0 <= i < |entries| => Logged(entries[i]))
  }

  function ProposedAll(entries: seq<Entry>): seq<Record> {
    seq(|entries|, i requires 0 <= i < |entries| => Proposed(entries[i]))
  }

  function Opening(c: Config, required: Option<nat>, transition: Option<Pair>): seq<Record> {
    [Identity(c.id)] + (if c.fast then [FastTrack] else [])
    + (if required.Some? then [Floor(required.value)] else [])
    + (if transition.Some? then [Transition(transition.value)] else [])
  }

  /** Everything a checkpoint writes, in order: who the member is, the image, every entry after it, what
      was released and what is still held, and the hard state last. */
  function CheckpointRecords(c: Config, required: Option<nat>, transition: Option<Pair>, s: Store,
                             snapshot: Snapshot): seq<Record>
  {
    Opening(c, required, transition) + [Snapshotted(snapshot)] + LoggedAll(After(s.entries, snapshot.index))
    + (if c.fast && s.released > 0 then [Released(s.released)] else [])
    + ProposedAll(s.proposals) + [Hard(s.hard)]
  }

  /** The log behind a snapshot: the entries through its index leave the front. */
  function Compact(s: Store, snapshot: Snapshot): Result<Store> {
    var term := TermAt(s, snapshot.index);
    if term.Err? then Err(term.error)
    else if term.value != snapshot.term then Err(Corruption)
    else Ok(s.(entries := Trimmed(s.entries, snapshot.index), snapshot := snapshot, conf := snapshot.conf))
  }

  function Trimmed(entries: seq<Entry>, index: nat): seq<Entry> {
    if entries == [] || entries[0].index > index then entries else Trimmed(entries[1..], index)
  }

  /** Why a checkpoint from a point is refused. */
  function BeginFault(s: Store, delivered: nat, busy: bool, ready: bool, point: Point, bytes: nat,
                      limit: nat): Option<Error>
  {
    if busy then Some(PersistencePending)
    else if point.index == 0 || point.index > delivered || point.index > s.hard.commit || point.index < s.snapshot.index
            || ready || point.conf != s.conf
    then Some(CheckpointIndex)
    else
      var term := TermAt(s, point.index);
      if term.Err? then Some(term.error)
      else if term.value != point.term then Some(CheckpointIndex)
      else if bytes > limit then Some(Capacity)
      else None
  }
}
