/**
 A group's decoder gate: the floor and the one ordered transition its records state durable, what
 the application confirmed it compiled, and the records themselves.
 */
module Decoder {
  import opened Basics

  type Result<T> = Attempt<T, Error>

  datatype Error = Corruption | Mismatch | Unconfirmed | PersistencePending | Failed | Refused

  type Bytes = seq<bv8>
  /** A 32-byte fingerprint of a decoder. */
  type Hash = h: Bytes | |h| == 32 witness seq(32, _ => 0)

  datatype Pair = Pair(predecessor: Hash, successor: Hash)
  datatype Intent = Baseline(hash: Hash) | Transition(pair: Pair)

  // ---------------------------------------------------------------- records

  datatype Kind = DecoderFloor | DecoderTransition | Identity | Other
  datatype Record = Record(group: nat, kind: Kind, index: nat, term: nat, payload: Bytes)

  // "FOCALDF1" and "FOCALDT1".
  const FLOOR_MAGIC: Bytes := [0x46, 0x4f, 0x43, 0x41, 0x4c, 0x44, 0x46, 0x31]
  const TRANSITION_MAGIC: Bytes := [0x46, 0x4f, 0x43, 0x41, 0x4c, 0x44, 0x54, 0x31]
  // Schema 1, big endian.
  const TRANSITION_SCHEMA: Bytes := [0x00, 0x01]
  const FLOOR_BYTES: nat := 40
  const TRANSITION_BYTES: nat := 74

  function FloorRecord(group: nat, hash: Hash): Record {
    Record(group, DecoderFloor, 0, 0, FLOOR_MAGIC + hash)
  }

  function DecodeFloor(r: Record): Result<Hash> {
    if r.index != 0 || r.term != 0 || |r.payload| != FLOOR_BYTES || r.payload[..8] != FLOOR_MAGIC then Err(Corruption)
    else Ok(r.payload[8..])
  }

  function TransitionRecord(group: nat, pair: Pair): Result<Record> {
    if pair.predecessor == pair.successor then Err(Mismatch)
    else
      var payload := TRANSITION_MAGIC + TRANSITION_SCHEMA + pair.predecessor + pair.successor;
      Ok(Record(group, DecoderTransition, 0, 0, payload))
  }

  function DecodeTransition(r: Record): Result<Pair> {
    if r.index != 0 || r.term != 0 || |r.payload| != TRANSITION_BYTES || r.payload[..8] != TRANSITION_MAGIC
       || r.payload[8..10] != TRANSITION_SCHEMA
    then Err(Corruption)
    else if r.payload[10..42] == r.payload[42..74] then Err(Corruption)
    else Ok(Pair(r.payload[10..42], r.payload[42..74]))
  }

  /** A floor record is read back as its hash, and nothing else is read as that hash. */
  lemma FloorReadsBack(r: Record, hash: Hash)
    requires r.kind == DecoderFloor
    ensures DecodeFloor(r) == Ok(hash) <==> r == FloorRecord(r.group, hash)
  {
    var made := FloorRecord(r.group, hash);
    assert made.payload[..8] == FLOOR_MAGIC && made.payload[8..] == hash;
    if DecodeFloor(r) == Ok(hash) {
      assert r.payload == r.payload[..8] + r.payload[8..];
    }
  }

  /** A transition record is read back as its ordered pair, and nothing else is read as that pair. */
  lemma TransitionReadsBack(r: Record, pair: Pair)
    requires r.kind == DecoderTransition
    ensures DecodeTransition(r) == Ok(pair) <==> TransitionRecord(r.group, pair) == Ok(r)
  {
    if TransitionRecord(r.group, pair).Ok? {
      var p := TransitionRecord(r.group, pair).value.payload;
      assert p[..8] == TRANSITION_MAGIC && p[8..10] == TRANSITION_SCHEMA;
      assert p[10..42] == pair.predecessor && p[42..74] == pair.successor;
    }
    if DecodeTransition(r) == Ok(pair) {
      assert r.payload == r.payload[..8] + r.payload[8..10] + r.payload[10..42] + r.payload[42..74];
    }
  }

  function RecordOf(group: nat, intent: Intent): Result<Record> {
    match intent
    case Baseline(hash) => Ok(FloorRecord(group, hash))
    case Transition(pair) => TransitionRecord(group, pair)
  }

  // ---------------------------------------------------------------- what the records state

  datatype Stated = Stated(identity: bool, required: Option<Hash>, transition: Option<Pair>)

  const NOTHING: Stated := Stated(false, None, None)

  /** One record of a group's stream read back at opening. */
  function ReplayRecord(s: Stated, r: Record): Result<Stated> {
    match r.kind
    case Identity => if s.identity then Err(Corruption) else Ok(s.(identity := true))
    case DecoderFloor =>
      if !s.identity || s.required.Some? then Err(Corruption)
      else
        var hash := DecodeFloor(r);
        if hash.Err? then Err(hash.error) else Ok(s.(required := Some(hash.value)))
    case DecoderTransition =>
      if !s.identity || s.transition.Some? then Err(Corruption)
      else
        var pair := DecodeTransition(r);
        if pair.Err? then Err(pair.error)
        else if s.required != Some(pair.value.predecessor) then Err(Corruption)
        else Ok(s.(transition := Some(pair.value)))
    case Other => Ok(s)
  }

  function Replay(records: seq<Record>): Result<Stated> {
    if records == [] then Ok(NOTHING)
    else
      var before := Replay(records[..|records| - 1]);
      if before.Err? then before else ReplayRecord(before.value, records[|records| - 1])
  }

  // ---------------------------------------------------------------- the gate

  datatype Gate = Gate(
    required: Option<Hash>, confirmed: Option<Hash>, compiled: Option<Pair>, transition: Option<Pair>)

  function Opened(s: Stated): Gate {
    Gate(s.required, None, None, s.transition)
  }

  function Confirm(g: Gate, hash: Hash): Result<Gate> {
    if (g.required.Some? && g.required.value != hash) || (g.confirmed.Some? && g.confirmed.value != hash)
       || (g.transition.Some? && g.compiled != g.transition)
    then Err(Mismatch)
    else Ok(g.(confirmed := Some(hash)))
  }

  function ConfirmPair(g: Gate, pair: Pair): Result<Gate> {
    if pair.predecessor == pair.successor
       || (g.required.Some? && g.required.value != pair.predecessor)
       || (g.confirmed.Some? && g.confirmed.value != pair.predecessor)
       || (g.compiled.Some? && g.compiled.value != pair)
       || (g.transition.Some? && g.transition.value != pair)
    then Err(Mismatch)
    else Ok(g.(compiled := Some(pair), confirmed := Some(pair.predecessor)))
  }

  function Effective(g: Gate): Option<Hash> {
    if g.transition.Some? then Some(g.transition.value.successor) else g.required
  }

  predicate Confirmed(g: Gate) {
    (g.required.Some? ==> g.confirmed == g.required) && (g.transition.Some? ==> g.compiled == g.transition)
  }

  predicate States(g: Gate, hash: Hash) {
    g.required == Some(hash) || (g.transition.Some? && g.transition.value.successor == hash)
  }

  function FloorWrite(g: Gate, hash: Hash, pending: Option<Intent>): Result<Option<Intent>> {
    if g.confirmed != Some(hash) then Err(Unconfirmed)
    else if g.required.Some? then (if g.required.value == hash then Ok(None) else Err(Mismatch))
    else if pending.Some? then (if pending.value == Baseline(hash) then Ok(None) else Err(Mismatch))
    else Ok(Some(Baseline(hash)))
  }

  function TransitionWrite(g: Gate, pending: Option<Intent>): Result<Option<Intent>> {
    if g.compiled.None? then Err(Unconfirmed)
    else if g.required != Some(g.compiled.value.predecessor) then
      Err(if pending.Some? then PersistencePending else Unconfirmed)
    else if g.transition == g.compiled then Ok(None)
    else if pending.Some? then (if pending.value == Transition(g.compiled.value) then Ok(None) else Err(Mismatch))
    else Ok(Some(Transition(g.compiled.value)))
  }

  function Written(g: Gate, intent: Intent): Gate {
    match intent
    case Baseline(hash) => g.(required := Some(hash))
    case Transition(pair) => g.(transition := Some(pair))
  }

  // ---------------------------------------------------------------- the owner's steps

  /** A staged write: its record is with the log once `taken`. */
  datatype Pending = Pending(intent: Intent, taken: bool)

  /** A member as its decoder gate sees it. `rebuild` says its recovered membership waits for confirmation. */
  datatype Node = Node(gate: Gate, write: Option<Pending>, failed: bool, rebuild: bool)

  /** The member, its group's durable records and the record its log has taken and not yet made durable. */
  datatype System = System(group: nat, node: Node, durable: seq<Record>, queue: Option<Record>)

  function NewNode(s: Stated): Node {
    Node(Opened(s), None, false, s.required.Some?)
  }

  function CheckFault(n: Node): Option<Error> {
    if n.failed then Some(Failed) else if !Confirmed(n.gate) then Some(Unconfirmed) else None
  }

  /** The drain a confirmation may run: done, refused before it took anything, or broken. */
  datatype Drain = Drains | Deferred | Breaks

  /** What follows a confirmation: a recovery that waited for it rebuilds its membership, if the drain that
      does is done; one that breaks fails the member. */
  function Rebuilt(n: Node, drain: Drain): Node {
    if !n.rebuild || !Confirmed(n.gate) then n
    else match drain
      case Drains => n.(rebuild := false)
      case Deferred => n
      case Breaks => n.(failed := true)
  }

  function IntentOf(write: Option<Pending>): Option<Intent> {
    if write.Some? then Some(write.value.intent) else None
  }

  /** Stages a write, unless other work refuses it. */
  function Staged(n: Node, group: nat, wanted: Result<Option<Intent>>, refused: bool): Node {
    if CheckFault(n).Some? || wanted.Err? || wanted.value.None? || n.write.Some? || refused
       || RecordOf(group, wanted.value.value).Err?
    then n
    else n.(write := Some(Pending(wanted.value.value, false)))
  }

  /** What the log answers a write it is given, and what it says of one it took. */
  datatype Admission = Taken | NoRoom | Broken
  datatype Completion = NotYet | Durable | Lost

  datatype Event =
    | EvConfirm(hash: Hash, drain: Drain)
    | EvConfirmPair(pair: Pair, drain: Drain)
    | EvBeginFloor(hash: Hash, refused: bool)
    | EvBeginTransition(refused: bool)
    | EvPoll(blocking: bool, refused: bool, admission: Admission, completion: Completion)
    | EvSync
    | EvCrash

  /** The log can only say a write is durable once it is. */
  predicate Possible(y: System, ev: Event) {
    ev.EvPoll? && ev.completion.Durable? ==> y.queue.None? || (y.node.write.Some? && !y.node.write.value.taken)
  }

  /** The log makes durable what it took. */
  function Synced(y: System): System {
    if y.queue.Some? then y.(durable := y.durable + [y.queue.value], queue := None) else y
  }

  /** One poll of a staged write: given to the log if it is not yet, then observed. A poll that does not
      block observes a write it has just given only on a later turn; one that blocks waits for it. */
  function Poll(y: System, blocking: bool, refused: bool, admission: Admission, completion: Completion): System {
    var n := y.node;
    if CheckFault(n).Some? || n.write.None? || refused then y
    else if !n.write.value.taken && admission == NoRoom then y
    else if !n.write.value.taken && admission == Broken then y.(node := n.(write := None, failed := true))
    else
      var record := RecordOf(y.group, n.write.value.intent);
      var given := if n.write.value.taken || record.Err? then y
                   else y.(node := n.(write := Some(n.write.value.(taken := true))), queue := Some(record.value));
      if !n.write.value.taken && !blocking then given
      else
        match completion
        case NotYet => given
        case Lost => given.(node := n.(write := None, failed := true))
        case Durable => Synced(given).(node := n.(gate := Written(n.gate, n.write.value.intent), write := None))
  }

  function Step(y: System, ev: Event): System {
    var n := y.node;
    match ev
    case EvConfirm(hash, drain) =>
      if n.failed || Confirm(n.gate, hash).Err? then y
      else y.(node := Rebuilt(n.(gate := Confirm(n.gate, hash).value), drain))
    case EvConfirmPair(pair, drain) =>
      if n.failed || ConfirmPair(n.gate, pair).Err? then y
      else y.(node := Rebuilt(n.(gate := ConfirmPair(n.gate, pair).value), drain))
    case EvBeginFloor(hash, refused) =>
      y.(node := Staged(n, y.group, FloorWrite(n.gate, hash, IntentOf(n.write)), refused))
    case EvBeginTransition(refused) =>
      y.(node := Staged(n, y.group, TransitionWrite(n.gate, IntentOf(n.write)), refused))
    case EvPoll(blocking, refused, admission, completion) => Poll(y, blocking, refused, admission, completion)
    case EvSync => Synced(y)
    case EvCrash =>
      var stated := Replay(y.durable);
      if stated.Err? then y else System(y.group, NewNode(stated.value), y.durable, None)
  }

  /** Whether the member may say it decodes `hash`. */
  predicate FloorReady(n: Node, hash: Hash) {
    !n.failed && Confirmed(n.gate) && !n.rebuild && n.write.None? && States(n.gate, hash)
  }
}
