/**
 The move of a node's groups from the write-ahead log to hyper-log: what a group is on either
 side, what one write does to a group's new log, and what it means that the copy is the group.
 */
module ConvertModel {
  import opened Basics
  datatype Error =
    | FastTrack | EntryTooLarge | ImageTooLarge | StoreRefused | Populated | Differs | Disk | Identity | Missing
    | UnnamedStore
  type Result<T> = Attempt<T, Error>

  type GroupId = nat
  type Bytes = seq<bv8>

  /** What hyper-log charges an entry beyond its data and context. */
  const ENTRY_OVERHEAD: nat := 1 + 4

  datatype HardState = HardState(term: nat, vote: nat, commit: nat)
  const NoHardState: HardState := HardState(0, 0, 0)

  datatype Point = Point(index: nat, term: nat)
  datatype Entry = Entry(index: nat, term: nat, kind: nat, data: Bytes, context: Bytes)

  /** An entry as the new log holds it: its index is its place. */
  datatype Body = Body(term: nat, kind: nat, data: Bytes, context: Bytes)

  datatype Image = Image(point: Point, configuration: seq<nat>, data: Bytes)
  datatype Records = Records(identity: GroupId, fast: bool, floor: Option<Bytes>, transition: Option<(Bytes, Bytes)>)

  /** A group as the old log's replay leaves it. `image` is none while its log is complete from
      its first entry. */
  datatype OldGroup = OldGroup(records: Records, image: Option<Image>, entries: seq<Entry>, hard: HardState)

  datatype GroupLog = GroupLog(start: Point, bodies: seq<Body>, hard: HardState, proposals: seq<Entry>)
  const EmptyLog: GroupLog := GroupLog(Point(0, 0), [], NoHardState, [])

  datatype Write = Write(start: Option<Point>, first: nat, entries: seq<Entry>, hard: Option<HardState>)

  function StartOf(g: OldGroup): Option<Point> {
    if g.image.Some? then Some(g.image.value.point) else None
  }

  function StartIndex(g: OldGroup): nat {
    if g.image.Some? then g.image.value.point.index else 0
  }

  /** The replayed log's entries follow its snapshot without a gap; an image is of some index. */
  ghost predicate WellFormed(g: OldGroup) {
    && (g.image.Some? ==> g.image.value.point.index > 0)
    && forall i :: 0 <= i < |g.entries| ==> g.entries[i].index == StartIndex(g) + 1 + i
  }

  function BodyOf(e: Entry): Body {
    Body(e.term, e.kind, e.data, e.context)
  }

  function Bodies(entries: seq<Entry>): (b: seq<Body>)
    ensures |b| == |entries| && forall i :: 0 <= i < |b| ==> b[i] == BodyOf(entries[i])
  {
    seq(|entries|, i requires 0 <= i < |entries| => BodyOf(entries[i]))
  }

  function EntryAt(log: GroupLog, i: nat): Entry
    requires i < |log.bodies|
  {
    var b := log.bodies[i];
    Entry(log.start.index + 1 + i, b.term, b.kind, b.data, b.context)
  }

  function Last(log: GroupLog): nat {
    log.start.index + |log.bodies|
  }

  function Encoded(e: Entry): nat {
    |e.data| + |e.context| + ENTRY_OVERHEAD
  }

  function Charge(entries: seq<Entry>): nat {
    if entries == [] then 0 else Charge(entries[..|entries| - 1]) + Encoded(entries[|entries| - 1])
  }

  // ---------------------------------------------------------------- one write of a group's log

  /** The start moved: what it passes is dropped. None when it moves back. */
  function Started(log: GroupLog, start: Option<Point>): Option<GroupLog> {
    if start == None then Some(log)
    else if start.value.index < log.start.index then None
    else
      var drop := start.value.index - log.start.index;
      Some(log.(start := start.value, bodies := if drop <= |log.bodies| then log.bodies[drop..] else []))
  }

  /** The entries laid from `first`: what follows is replaced. None for a gap or what precedes the start. */
  function Extended(log: GroupLog, first: nat, entries: seq<Entry>): Option<GroupLog> {
    if entries == [] then Some(log)
    else if first <= log.start.index || first > Last(log) + 1 then None
    else Some(log.(bodies := log.bodies[..first - log.start.index - 1] + Bodies(entries)))
  }

  /** A start moved forward keeps every entry past it, and nothing before. */
  lemma StartedKeepsTail(log: GroupLog, start: Point)
    requires log.start.index <= start.index
    ensures var t := Started(log, Some(start));
      && t.Some? && t.value.start == start && t.value.hard == log.hard && t.value.proposals == log.proposals
      && Last(t.value) == (if start.index < Last(log) then Last(log) else start.index)
      && forall i :: 0 <= i < |t.value.bodies| ==>
           var j := start.index - log.start.index + i; j < |log.bodies| && EntryAt(t.value, i) == EntryAt(log, j)
  {
  }

  function Applied(log: GroupLog, w: Write): Option<GroupLog> {
    var started := Started(log, w.start);
    if started == None then None
    else
      var extended := Extended(started.value, w.first, w.entries);
      if extended == None then None
      else Some(if w.hard.Some? then extended.value.(hard := w.hard.value) else extended.value)
  }

  // ---------------------------------------------------------------- what a faithful copy is

  /** The group's log as the shell opens it. */
  function CopyOf(g: OldGroup): GroupLog {
    GroupLog(if g.image.Some? then g.image.value.point else Point(0, 0), Bodies(g.entries), g.hard, [])
  }

  /** Nothing of the group goes to the new log: no image, no entry, and the hard state it starts with. */
  predicate Blank(g: OldGroup) {
    g.image == None && g.entries == [] && g.hard == NoHardState
  }

  /** Entry for entry equality of a new log and the old group is equality with the faithful copy's bodies. */
  lemma SameEntries(g: OldGroup, log: GroupLog)
    requires WellFormed(g) && log.start.index == StartIndex(g)
    ensures log.bodies == Bodies(g.entries) <==>
      |log.bodies| == |g.entries| && forall i :: 0 <= i < |log.bodies| ==> EntryAt(log, i) == g.entries[i]
  {
    if |log.bodies| == |g.entries| && forall i :: 0 <= i < |log.bodies| ==> EntryAt(log, i) == g.entries[i] {
      forall i | 0 <= i < |log.bodies|
        ensures log.bodies[i] == BodyOf(g.entries[i])
      {
        assert EntryAt(log, i) == g.entries[i];
      }
    }
  }
}
