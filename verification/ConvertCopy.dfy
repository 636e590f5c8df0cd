/**
 Copying and checking one group: the frame-sized writes of a group's log, and the paged
 comparison of what they left with the group itself.
 */
module ConvertCopy {
  import opened Basics
  import opened ConvertModel

  /** The entries of the writes, in order. */
  ghost function Laid(writes: seq<Write>): seq<Entry> {
    if writes == [] then [] else Laid(writes[..|writes| - 1]) + writes[|writes| - 1].entries
  }

  /** Every chunk is one entry or fits a frame. */
  ghost predicate Framed(writes: seq<Write>, frame: nat) {
    forall i :: 0 <= i < |writes| ==> |writes[i].entries| <= 1 || Charge(writes[i].entries) <= frame
  }

  /** Only the first write moves the start, and only the last states the hard state. */
  ghost predicate Ordered(writes: seq<Write>, g: OldGroup) {
    forall i :: 0 <= i < |writes| ==>
      && writes[i].start == (if i == 0 then StartOf(g) else None)
      && (writes[i].hard.Some? ==> i == |writes| - 1 && writes[i].hard.value == g.hard && g.hard != NoHardState)
  }

  /** The log after the writes; none once one is refused. */
  ghost function AfterWrites(writes: seq<Write>): Option<GroupLog> {
    if writes == [] then Some(EmptyLog)
    else
      var before := AfterWrites(writes[..|writes| - 1]);
      if before == None then None else Applied(before.value, writes[|writes| - 1])
  }

  lemma AfterAppend(writes: seq<Write>, w: Write)
    ensures AfterWrites(writes + [w]) ==
      (if AfterWrites(writes) == None then None else Applied(AfterWrites(writes).value, w))
    ensures Laid(writes + [w]) == Laid(writes) + w.entries
  {
    assert (writes + [w])[..|writes|] == writes;
  }

  /** The log once entries `..n` of the group are laid, and the start with them. */
  ghost function Partial(g: OldGroup, n: nat): GroupLog
    requires n <= |g.entries|
  {
    if n == 0 then EmptyLog else CopyOf(g).(bodies := Bodies(g.entries[..n]), hard := NoHardState)
  }

  /** The log from the group's start on, with its first `n` entries. */
  ghost function From(g: OldGroup, n: nat): GroupLog
    requires n <= |g.entries|
  {
    CopyOf(g).(bodies := Bodies(g.entries[..n]), hard := NoHardState)
  }

  lemma StartLaid(g: OldGroup, n: nat)
    requires n <= |g.entries|
    ensures Started(Partial(g, n), if n == 0 then StartOf(g) else None) == Some(From(g, n))
  {
    assert n == 0 ==> Bodies(g.entries[..n]) == [];
  }

  lemma ChunkLaid(g: OldGroup, n: nat, m: nat)
    requires WellFormed(g) && n < m <= |g.entries|
    ensures Extended(From(g, n), g.entries[n].index, g.entries[n..m]) == Some(From(g, m))
  {
    var log := From(g, n);
    assert g.entries[n].index == log.start.index + 1 + n;
    assert log.bodies[..n] + Bodies(g.entries[n..m]) == Bodies(g.entries[..m]);
  }

  lemma LayChunk(g: OldGroup, n: nat, m: nat)
    requires WellFormed(g) && n < m <= |g.entries|
    ensures var w := Write(if n == 0 then StartOf(g) else None, g.entries[n].index, g.entries[n..m], None);
      Applied(Partial(g, n), w) == Some(Partial(g, m))
  {
    StartLaid(g, n);
    ChunkLaid(g, n, m);
    hide WellFormed, Started, Extended, Bodies;
  }

  lemma LayHard(g: OldGroup)
    requires WellFormed(g)
    ensures var w := Write(if g.entries == [] then StartOf(g) else None, 0, [],
                           if g.hard != NoHardState then Some(g.hard) else None);
      Applied(Partial(g, |g.entries|), w) == Some(CopyOf(g))
  {
    assert g.entries[..|g.entries|] == g.entries;
  }

  /** A chunk's end and charge: entries are taken while the frame holds them, and one at least. */
  method NextChunk(slice: seq<Entry>, begin: nat, room: nat, frame: nat) returns (r: Result<nat>, bytes: nat)
    requires begin < |slice|
    ensures r.Ok? ==> begin < r.value <= |slice| && bytes == Charge(slice[begin..r.value])
    ensures r.Ok? ==> r.value == begin + 1 || bytes <= frame
    ensures r.Ok? && r.value < |slice| ==> Charge(slice[begin..r.value + 1]) > frame
    ensures r.Ok? ==> forall i :: begin <= i < r.value ==> Encoded(slice[i]) <= room
    ensures r.Err? ==> r.error == EntryTooLarge && exists i :: begin <= i < |slice| && Encoded(slice[i]) > room
  {
    var end := begin;
    bytes := 0;
    while end < |slice|
      invariant begin <= end <= |slice|
      invariant bytes == Charge(slice[begin..end])
      invariant end > begin + 1 ==> bytes <= frame
      invariant forall i :: begin <= i < end ==> Encoded(slice[i]) <= room
    {
      var size := Encoded(slice[end]);
      if size > room {
        return Err(EntryTooLarge), bytes;
      }
      assert slice[begin..end + 1][..end - begin] == slice[begin..end];
      if end > begin && bytes + size > frame {
        return Ok(end), bytes;
      }
      bytes := bytes + size;
      end := end + 1;
    }
    return Ok(end), bytes;
  }

  /** A copy in progress: `n` entries of the group laid by `writes`, a frame at a time, the start
      on the first write alone. */
  ghost predicate Copying(g: OldGroup, n: nat, writes: seq<Write>, frame: nat, log: GroupLog) {
    && n <= |g.entries|
    && Laid(writes) == g.entries[..n]
    && AfterWrites(writes) == Some(Partial(g, n)) && log == Partial(g, n)
    && (n == 0 <==> writes == [])
    && Framed(writes, frame)
    && forall i :: 0 <= i < |writes| ==>
         writes[i].start == (if i == 0 then StartOf(g) else None) && writes[i].hard == None
  }

  /** A copy stopped before an entry of the group. */
  ghost predicate CopiedPart(g: OldGroup, writes: seq<Write>, frame: nat, log: GroupLog) {
    exists n: nat :: n < |g.entries| && Copying(g, n, writes, frame, log)
  }

  lemma CopiedSome(g: OldGroup, n: nat, writes: seq<Write>, frame: nat, log: GroupLog)
    requires n < |g.entries| && Copying(g, n, writes, frame, log)
    ensures CopiedPart(g, writes, frame, log)
  {
    hide Copying;
  }

  function ChunkWrite(g: OldGroup, n: nat, m: nat): Write
    requires n < m <= |g.entries|
  {
    Write(if n == 0 then StartOf(g) else None, g.entries[n].index, g.entries[n..m], None)
  }

  lemma CopyChunk(g: OldGroup, n: nat, m: nat, writes: seq<Write>, frame: nat, log: GroupLog)
    requires WellFormed(g) && n < m <= |g.entries| && Copying(g, n, writes, frame, log)
    requires m == n + 1 || Charge(g.entries[n..m]) <= frame
    ensures Applied(log, ChunkWrite(g, n, m)) == Some(Partial(g, m))
    ensures Copying(g, m, writes + [ChunkWrite(g, n, m)], frame, Partial(g, m))
  {
    hide Applied, Partial, Laid, AfterWrites;
    var w := ChunkWrite(g, n, m);
    LayChunk(g, n, m);
    AfterAppend(writes, w);
    assert g.entries[..m] == g.entries[..n] + g.entries[n..m];
  }

  /** The writes of a whole group: its entries in order, each write a frame's worth, the start on the
      first alone, the hard state on the last alone, and together the group's log. */
  ghost predicate CopiedBy(g: OldGroup, writes: seq<Write>, frame: nat) {
    && Laid(writes) == g.entries
    && Framed(writes, frame)
    && Ordered(writes, g)
    && AfterWrites(writes) == Some(CopyOf(g))
  }

  lemma CopyEnds(g: OldGroup, writes: seq<Write>, frame: nat, log: GroupLog)
    requires WellFormed(g) && Copying(g, |g.entries|, writes, frame, log)
    ensures var w := Write(if g.entries == [] then StartOf(g) else None, 0, [],
                           if g.hard != NoHardState then Some(g.hard) else None);
      && Applied(log, w) == Some(CopyOf(g))
      && CopiedBy(g, writes + [w], frame)
      && (w.start == None && w.hard == None ==> log == CopyOf(g) && CopiedBy(g, writes, frame))
  {
    var w := Write(if g.entries == [] then StartOf(g) else None, 0, [],
                   if g.hard != NoHardState then Some(g.hard) else None);
    LayHard(g);
    AfterAppend(writes, w);
    assert g.entries[..|g.entries|] == g.entries;
  }

  /** A group's log as it is written: its content, and the writes made. */
  class LogWriter {
    var log: GroupLog
    ghost var writes: seq<Write>

    constructor ()
      ensures log == EmptyLog && writes == []
    {
      log, writes := EmptyLog, [];
    }

    method WriteNow(w: Write) returns (ok: bool)
      modifies this
      ensures ok == Applied(old(log), w).Some?
      ensures ok ==> log == Applied(old(log), w).value && writes == old(writes) + [w]
      ensures !ok ==> log == old(log) && writes == old(writes)
    {
      var after := Applied(log, w);
      ok := after.Some?;
      if ok {
        log := after.value;
        writes := writes + [w];
      }
    }

    /** One of the deque's two slices, laid a frame at a time: the group's entries from `from` on. */
    method CopySlice(g: OldGroup, slice: seq<Entry>, from: nat, room: nat, frame: nat) returns (r: Result<nat>)
      requires WellFormed(g) && from + |slice| <= |g.entries| && slice == g.entries[from..from + |slice|]
      requires Copying(g, from, writes, frame, log)
      modifies this
      ensures r.Ok? <==> forall i :: 0 <= i < |slice| ==> Encoded(slice[i]) <= room
      ensures r.Ok? ==> Copying(g, from + |slice|, writes, frame, log) && r.value == Charge(slice)
      ensures r.Err? ==> r.error == EntryTooLarge && CopiedPart(g, writes, frame, log)
    {
      hide Copying, Applied, WellFormed, Charge, CopiedPart;
      var begin, total := 0, 0;
      ChargeNone();
      assert slice[..0] == [];
      while begin < |slice|
        invariant 0 <= begin <= |slice| && Copying(g, from + begin, writes, frame, log)
        invariant forall i :: 0 <= i < begin ==> Encoded(slice[i]) <= room
        invariant total == Charge(slice[..begin])
      {
        var end, bytes := NextChunk(slice, begin, room, frame);
        if end.Err? {
          CopiedSome(g, from + begin, writes, frame, log);
          return Err(end.error);
        }
        var chunk := slice[begin..end.value];
        assert chunk == g.entries[from + begin..from + end.value];
        var w := Write(if from + begin == 0 then StartOf(g) else None, chunk[0].index, chunk, None);
        assert w == ChunkWrite(g, from + begin, from + end.value);
        CopyChunk(g, from + begin, from + end.value, writes, frame, log);
        var ok := WriteNow(w);
        if !ok {
          return Err(StoreRefused);
        }
        ChargeSplit(slice, begin, end.value);
        total := total + bytes;
        begin := end.value;
      }
      assert slice[..|slice|] == slice;
      r := Ok(total);
    }

    /** Both slices of the deque. */
    method CopyEntries(g: OldGroup, split: nat, room: nat, frame: nat) returns (r: Result<nat>)
      requires WellFormed(g) && split <= |g.entries| && Copying(g, 0, writes, frame, log)
      modifies this
      ensures r.Ok? <==> forall i :: 0 <= i < |g.entries| ==> Encoded(g.entries[i]) <= room
      ensures r.Ok? ==> Copying(g, |g.entries|, writes, frame, log) && r.value == Charge(g.entries)
      ensures r.Err? ==> r.error == EntryTooLarge && CopiedPart(g, writes, frame, log)
    {
      hide Copying, WellFormed, Charge, CopiedPart;
      var front, back := g.entries[..split], g.entries[split..];
      SlicesFit(g.entries, split, room);
      r := CopySlice(g, front, 0, room, frame);
      if r.Err? {
        return;
      }
      var total := r.value;
      r := CopySlice(g, back, split, room, frame);
      if r.Err? {
        return;
      }
      ChargeConcat(front, back);
      assert front + back == g.entries;
      r := Ok(total + r.value);
    }

    /** The whole of a group's log: its entries, then the hard state, and the start where no entry carried it. */
    method CopyLog(g: OldGroup, split: nat, room: nat, frame: nat) returns (r: Result<nat>)
      requires WellFormed(g) && split <= |g.entries| && log == EmptyLog && writes == []
      modifies this
      ensures r.Ok? <==> forall i :: 0 <= i < |g.entries| ==> Encoded(g.entries[i]) <= room
      ensures r.Ok? ==> log == CopyOf(g) && CopiedBy(g, writes, frame) && r.value == Charge(g.entries)
      ensures r.Ok? ==> (writes == [] <==> Blank(g))
      ensures r.Err? ==> r.error == EntryTooLarge && CopiedPart(g, writes, frame, log)
    {
      hide Copying, Applied, CopiedBy, WellFormed, Charge, Encoded, CopyOf, CopiedPart;
      StartsCopying(g, frame);
      r := CopyEntries(g, split, room, frame);
      if r.Err? {
        return;
      }
      var w := Write(if g.entries == [] then StartOf(g) else None, 0, [],
                     if g.hard != NoHardState then Some(g.hard) else None);
      CopyEnds(g, writes, frame, log);
      CopyingSome(g, writes, frame, log);
      if w.start.Some? || w.hard.Some? {
        var ok := WriteNow(w);
        if !ok {
          return Err(StoreRefused);
        }
      }
    }
  }

  lemma SlicesFit(entries: seq<Entry>, split: nat, room: nat)
    requires split <= |entries|
    ensures (forall i :: 0 <= i < |entries| ==> Encoded(entries[i]) <= room) <==>
      && (forall i :: 0 <= i < split ==> Encoded(entries[..split][i]) <= room)
      && (forall i :: 0 <= i < |entries| - split ==> Encoded(entries[split..][i]) <= room)
  {
    if (forall i :: 0 <= i < split ==> Encoded(entries[..split][i]) <= room) &&
       (forall i :: 0 <= i < |entries| - split ==> Encoded(entries[split..][i]) <= room)
    {
      forall i | 0 <= i < |entries|
        ensures Encoded(entries[i]) <= room
      {
        if i < split {
          assert entries[i] == entries[..split][i];
        } else {
          assert entries[i] == entries[split..][i - split];
        }
      }
    }
  }

  lemma StartsCopying(g: OldGroup, frame: nat)
    ensures Copying(g, 0, [], frame, EmptyLog)
  {
  }

  lemma CopyingSome(g: OldGroup, writes: seq<Write>, frame: nat, log: GroupLog)
    requires Copying(g, |g.entries|, writes, frame, log)
    ensures writes == [] <==> g.entries == []
  {
  }

  lemma ChargeNone()
    ensures Charge([]) == 0
  {
  }

  lemma ChargeConcat(a: seq<Entry>, b: seq<Entry>)
    ensures Charge(a + b) == Charge(a) + Charge(b)
  {
    if b == [] {
      assert a + b == a;
    } else {
      var n := |b| - 1;
      assert (a + b)[..|a + b| - 1] == a + b[..n];
      ChargeConcat(a, b[..n]);
    }
  }

  ghost function DataAndContext(entries: seq<Entry>): nat {
    if entries == [] then 0
    else
      var last := entries[|entries| - 1];
      DataAndContext(entries[..|entries| - 1]) + |last.data| + |last.context|
  }

  /** What the frames charge for entries is their data and context and each entry's overhead, so it is the
      data and context alone exactly when there are none. */
  lemma {:induction false} ChargeIs(entries: seq<Entry>)
    ensures Charge(entries) == DataAndContext(entries) + ENTRY_OVERHEAD * |entries|
    ensures Charge(entries) == DataAndContext(entries) <==> entries == []
  {
    if entries != [] {
      ChargeIs(entries[..|entries| - 1]);
    }
  }

  /** One entry of one byte is reported as six. */
  lemma ChargedBeyondData(e: Entry)
    requires |e.data| == 1 && e.context == []
    ensures Charge([e]) == 6 && DataAndContext([e]) == 1
  {
    assert [e][..0] == [];
  }

  lemma ChargeSplit(slice: seq<Entry>, begin: nat, end: nat)
    requires begin <= end <= |slice|
    ensures Charge(slice[..end]) == Charge(slice[..begin]) + Charge(slice[begin..end])
  {
    assert slice[..end] == slice[..begin] + slice[begin..end];
    ChargeConcat(slice[..begin], slice[begin..end]);
  }

  // ---------------------------------------------------------------- checking a copy

  /** What bodies take of a page. */
  ghost function Sizes(bodies: seq<Body>): nat {
    if bodies == [] then 0 else |bodies[0].data| + |bodies[0].context| + ENTRY_OVERHEAD + Sizes(bodies[1..])
  }

  /** Where a page of the log's entries ends: as many as the page's bytes admit, and one at least. */
  function PageEnd(log: GroupLog, low: nat, at: nat, used: nat, page: nat): (end: nat)
    requires low <= at <= |log.bodies|
    ensures at <= end <= |log.bodies| && (low == at < |log.bodies| ==> end > low)
    ensures end > at && end > low + 1 ==> used + Sizes(log.bodies[at..end]) <= page
    ensures low < end < |log.bodies| ==> used + Sizes(log.bodies[at..end + 1]) > page
    decreases |log.bodies| - at
  {
    if at == |log.bodies| then at
    else
      var size := |log.bodies[at].data| + |log.bodies[at].context| + ENTRY_OVERHEAD;
      if at > low && used + size > page then
        assert log.bodies[at..at + 1][1..] == [];
        at
      else
        var end := PageEnd(log, low, at + 1, used + size, page);
        assert log.bodies[at..end][1..] == log.bodies[at + 1..end];
        assert end < |log.bodies| ==> log.bodies[at..end + 1][1..] == log.bodies[at + 1..end + 1];
        end
  }

  /** The entries of one page, from place `low` on. */
  function Page(log: GroupLog, low: nat, page: nat): (read: seq<Entry>)
    requires low <= |log.bodies|
    ensures |read| <= |log.bodies| - low && (low < |log.bodies| ==> read != [])
    ensures forall i :: 0 <= i < |read| ==> read[i] == EntryAt(log, low + i)
  {
    var end := PageEnd(log, low, low, 0, page);
    seq(end - low, i requires 0 <= i < end - low => EntryAt(log, low + i))
  }

  /** What the new store holds of a group. */
  datatype Home = Home(records: Option<Records>, image: Option<Image>, log: Option<GroupLog>)

  function LogIn(home: Home): GroupLog {
    if home.log.Some? then home.log.value else EmptyLog
  }

  /** The new home is the group: its records, its image, its log's bounds, hard state and every
      entry, and no proposals. */
  ghost predicate IsCopy(g: OldGroup, home: Home) {
    && home.records == Some(g.records)
    && home.image == g.image
    && LogIn(home) == CopyOf(g)
  }

  /** Compares a page with the entries from `next` on. */
  method ComparePage(entries: seq<Entry>, next: nat, read: seq<Entry>) returns (same: bool)
    ensures same <==>
      next + |read| <= |entries| && forall k :: next <= k < next + |read| ==> entries[k] == read[k - next]
  {
    for i := 0 to |read|
      invariant i > 0 ==> next + i <= |entries|
      invariant forall k :: next <= k < next + i ==> entries[k] == read[k - next]
    {
      if next + i >= |entries| || entries[next + i] != read[i] {
        return false;
      }
    }
    return next + |read| <= |entries|;
  }

  /** Compares one group's new home with the group, value for value, its entries a page at a time. */
  method VerifyGroup(g: OldGroup, home: Home, page: nat) returns (same: bool)
    requires WellFormed(g)
    ensures same <==> IsCopy(g, home)
  {
    if home.records != Some(g.records) || home.image != g.image {
      return false;
    }
    var log := LogIn(home);
    var start := if g.image.Some? then g.image.value.point else Point(0, 0);
    var last := if g.entries == [] then start.index else g.entries[|g.entries| - 1].index;
    if log.start != start || Last(log) != last || log.hard != g.hard {
      return false;
    }
    SameEntries(g, log);
    hide Page;
    var next := 0;
    while next < |log.bodies|
      invariant 0 <= next <= |log.bodies|
      invariant forall i :: 0 <= i < next ==> EntryAt(log, i) == g.entries[i]
    {
      var read := Page(log, next, page);
      var alike := ComparePage(g.entries, next, read);
      if !alike {
        return false;
      }
      assert forall k :: next <= k < next + |read| ==> EntryAt(log, k) == read[k - next];
      next := next + |read|;
    }
    if |log.bodies| < |g.entries| {
      return false;
    }
    same := log.proposals == [];
  }

  // ---------------------------------------------------------------- every group

  /** The new store: each group's home. */
  type Store = map<GroupId, Home>

  /** The groups the new log holds something of. */
  function Logged(store: Store): set<GroupId> {
    set id | id in store && store[id].log.Some?
  }

  const Nowhere: Home := Home(None, None, None)

  function HomeOf(store: Store, id: GroupId): Home {
    if id in store then store[id] else Nowhere
  }

  /** The old log's groups, each under its identity. */
  ghost predicate Groups(groups: seq<OldGroup>) {
    && (forall i :: 0 <= i < |groups| ==> WellFormed(groups[i]))
    && (forall i, j :: 0 <= i < j < |groups| ==> groups[i].records.identity != groups[j].records.identity)
  }

  ghost predicate Names(groups: seq<OldGroup>, id: GroupId) {
    exists i :: 0 <= i < |groups| && groups[i].records.identity == id
  }

  ghost predicate AllCopied(groups: seq<OldGroup>, store: Store) {
    forall i :: 0 <= i < |groups| ==> IsCopy(groups[i], HomeOf(store, groups[i].records.identity))
  }

  /** What verification accepts: every group equal, and the new log holding as many groups. */
  ghost predicate Accepted(groups: seq<OldGroup>, store: Store) {
    AllCopied(groups, store) && |Logged(store)| == |groups|
  }

  /** Reads the new store back. */
  method Verify(groups: seq<OldGroup>, store: Store, page: nat) returns (r: Result<nat>)
    requires Groups(groups)
    ensures r.Ok? <==> Accepted(groups, store)
    ensures r.Err? ==> r.error == Differs
  {
    for i := 0 to |groups|
      invariant forall k :: 0 <= k < i ==> IsCopy(groups[k], HomeOf(store, groups[k].records.identity))
    {
      var same := VerifyGroup(groups[i], HomeOf(store, groups[i].records.identity), page);
      if !same {
        return Err(Differs);
      }
    }
    if |Logged(store)| != |groups| {
      return Err(Differs);
    }
    return Ok(|groups|);
  }

  /** An image file holds no longer image. */
  const IMAGE_BYTES: nat := 8 * 1024 * 1024

  /** Nothing stands in the way of a group's copy: it is not on the fast track, its image fits its file and each
      of its entries a frame. */
  predicate Movable(g: OldGroup, room: nat) {
    && !g.records.fast && (g.image.Some? ==> |g.image.value.data| <= IMAGE_BYTES)
    && forall i :: 0 <= i < |g.entries| ==> Encoded(g.entries[i]) <= room
  }

  /** What was copied. The bytes are as the frames charge them, each entry's overhead included. */
  datatype Copied = Copied(groups: nat, entries: nat, entryBytes: nat, imageBytes: nat)

  /** The faithful copy of a group: a blank one leaves nothing in the new log. */
  function FaithfulHome(g: OldGroup): Home {
    Home(Some(g.records), g.image, if Blank(g) then None else Some(CopyOf(g)))
  }

  function Tally(g: OldGroup): Copied {
    Copied(1, |g.entries|, Charge(g.entries), if g.image.Some? then |g.image.value.data| else 0)
  }

  /** What a copy that was refused leaves of the group: nothing on the fast track; its records where the image is too
      large; and otherwise its records, its image and the entries before one that is too large. */
  ghost predicate LeftAt(g: OldGroup, store: Store, error: Error, after: Store) {
    var id := g.records.identity;
    if g.records.fast then error == FastTrack && after == store
    else if g.image.Some? && |g.image.value.data| > IMAGE_BYTES then
      error == ImageTooLarge && after == store[id := Home(Some(g.records), None, None)]
    else
      && error == EntryTooLarge && id in after && after == store[id := after[id]]
      && after[id].records == Some(g.records) && after[id].image == g.image
      && exists n: nat :: n < |g.entries| && LogIn(after[id]) == Partial(g, n)
  }

  lemma PartIs(g: OldGroup, writes: seq<Write>, frame: nat, log: GroupLog)
    requires CopiedPart(g, writes, frame, log)
    ensures exists n: nat :: n < |g.entries| && log == Partial(g, n)
  {
  }

  /** Writes one group into a store that holds nothing of it: its records, its image, then its log. */
  method WriteNew(g: OldGroup, split: nat, store: Store, room: nat, frame: nat)
      returns (r: Result<Copied>, after: Store)
    requires WellFormed(g) && split <= |g.entries| && g.records.identity !in store
    ensures r.Ok? <==> Movable(g, room)
    ensures r.Ok? ==> after == store[g.records.identity := FaithfulHome(g)]
    ensures r.Ok? ==> r.value == Tally(g)
    ensures r.Err? ==> LeftAt(g, store, r.error, after)
    ensures forall id :: id in store ==> id in after && after[id] == store[id]
  {
    after := store;
    if g.records.fast {
      return Err(FastTrack), after;
    }
    var id := g.records.identity;
    if g.image.Some? && |g.image.value.data| > IMAGE_BYTES {
      after := after[id := Home(Some(g.records), None, None)];
      return Err(ImageTooLarge), after;
    }
    var home := Home(Some(g.records), g.image, None);
    var writer := new LogWriter();
    var bytes := writer.CopyLog(g, split, room, frame);
    hide CopiedBy, CopiedPart;
    if bytes.Err? {
      PartIs(g, writer.writes, frame, writer.log);
      if writer.log != EmptyLog {
        home := home.(log := Some(writer.log));
      }
      after := after[id := home];
      return Err(bytes.error), after;
    }
    if !Blank(g) {
      home := home.(log := Some(writer.log));
    }
    after := after[id := home];
    r := Ok(Copied(1, |g.entries|, bytes.value, if g.image.Some? then |g.image.value.data| else 0));
  }

  ghost function FaithfulStore(groups: seq<OldGroup>): Store {
    if groups == [] then map[]
    else
      var last := groups[|groups| - 1];
      FaithfulStore(groups[..|groups| - 1])[last.records.identity := FaithfulHome(last)]
  }

  lemma FaithfulHolds(groups: seq<OldGroup>)
    ensures forall id :: id in FaithfulStore(groups) <==> Names(groups, id)
  {
    if groups != [] {
      FaithfulHolds(groups[..|groups| - 1]);
    }
  }

  lemma FaithfulIs(groups: seq<OldGroup>, i: nat)
    requires Groups(groups) && i < |groups|
    ensures HomeOf(FaithfulStore(groups), groups[i].records.identity) == FaithfulHome(groups[i])
  {
    hide FaithfulHome, WellFormed;
    var n := |groups| - 1;
    if i < n {
      FaithfulIs(groups[..n], i);
      assert groups[i].records.identity != groups[n].records.identity;
    }
  }

  lemma FaithfulIsCopied(groups: seq<OldGroup>)
    requires Groups(groups)
    ensures AllCopied(groups, FaithfulStore(groups))
  {
    forall i | 0 <= i < |groups|
      ensures IsCopy(groups[i], HomeOf(FaithfulStore(groups), groups[i].records.identity))
    {
      FaithfulIs(groups, i);
    }
  }

  lemma FaithfulFresh(groups: seq<OldGroup>)
    requires Groups(groups) && groups != []
    ensures groups[|groups| - 1].records.identity !in FaithfulStore(groups[..|groups| - 1])
  {
    var n := |groups| - 1;
    FaithfulHolds(groups[..n]);
    assert forall i :: 0 <= i < n ==> groups[..n][i].records.identity != groups[n].records.identity;
  }

  lemma LoggedAdds(store: Store, id: GroupId, home: Home)
    requires id !in store
    ensures |Logged(store[id := home])| == |Logged(store)| + if home.log.Some? then 1 else 0
  {
    assert Logged(store[id := home]) == Logged(store) + if home.log.Some? then {id} else {};
  }

  lemma {:induction false} FaithfulCount(groups: seq<OldGroup>)
    requires Groups(groups)
    ensures |Logged(FaithfulStore(groups))| <= |groups|
    ensures |Logged(FaithfulStore(groups))| == |groups| <==> forall i :: 0 <= i < |groups| ==> !Blank(groups[i])
  {
    hide Logged, Blank, WellFormed;
    if groups == [] {
      NoneLogged();
    } else {
      var n := |groups| - 1;
      FaithfulCount(groups[..n]);
      FaithfulFresh(groups);
      LoggedAdds(FaithfulStore(groups[..n]), groups[n].records.identity, FaithfulHome(groups[n]));
      assert forall i :: 0 <= i < n ==> groups[i] == groups[..n][i];
    }
  }

  lemma NoneLogged()
    ensures Logged(map[]) == {}
  {
  }

  /** Every group's entries, one group after another. */
  ghost function AllEntries(groups: seq<OldGroup>): seq<Entry> {
    if groups == [] then [] else AllEntries(groups[..|groups| - 1]) + groups[|groups| - 1].entries
  }

  ghost function ImageBytes(groups: seq<OldGroup>): nat {
    if groups == [] then 0
    else
      var last := groups[|groups| - 1];
      ImageBytes(groups[..|groups| - 1]) + if last.image.Some? then |last.image.value.data| else 0
  }

  ghost function Total(groups: seq<OldGroup>): Copied {
    var all := AllEntries(groups);
    Copied(|groups|, |all|, DataAndContext(all) + ENTRY_OVERHEAD * |all|, ImageBytes(groups))
  }

  lemma TotalAdds(groups: seq<OldGroup>, i: nat)
    requires i < |groups|
    ensures var before, one := Total(groups[..i]), Tally(groups[i]);
      Total(groups[..i + 1]) ==
      Copied(before.groups + 1, before.entries + one.entries, before.entryBytes + one.entryBytes,
             before.imageBytes + one.imageBytes)
  {
    assert groups[..i + 1][..i] == groups[..i];
    var before := AllEntries(groups[..i]);
    ChargeIs(before);
    ChargeIs(groups[i].entries);
    ChargeConcat(before, groups[i].entries);
    ChargeIs(before + groups[i].entries);
  }

  /** Copies every group into an empty store, and reports how much: every entry of every group, and as
      bytes their data and context with each entry's overhead. */
  method CopyGroups(groups: seq<OldGroup>, splits: seq<nat>, room: nat, frame: nat)
      returns (r: Result<Copied>, store: Store)
    requires Groups(groups) && |splits| == |groups|
    requires forall i :: 0 <= i < |groups| ==> splits[i] <= |groups[i].entries|
    ensures r.Ok? <==> forall i :: 0 <= i < |groups| ==> Movable(groups[i], room)
    ensures r.Ok? ==> store == FaithfulStore(groups) && r.value == Total(groups)
  {
    store := map[];
    var total := Copied(0, 0, 0, 0);
    for i := 0 to |groups|
      invariant store == FaithfulStore(groups[..i]) && total == Total(groups[..i])
      invariant forall k :: 0 <= k < i ==> Movable(groups[k], room)
    {
      hide Total, Tally;
      var g := groups[i];
      FaithfulHolds(groups[..i]);
      assert g.records.identity !in store;
      var copied: Result<Copied>;
      copied, store := WriteNew(g, splits[i], store, room, frame);
      if copied.Err? {
        return Err(copied.error), store;
      }
      assert groups[..i + 1][..i] == groups[..i];
      TotalAdds(groups, i);
      total := Copied(total.groups + 1, total.entries + copied.value.entries,
                      total.entryBytes + copied.value.entryBytes, total.imageBytes + copied.value.imageBytes);
    }
    assert groups[..|groups|] == groups;
    r := Ok(total);
  }

  /** The copy a conversion makes passes its own check exactly when no group is blank. */
  lemma CopyVerifiesWhen(groups: seq<OldGroup>)
    requires Groups(groups)
    ensures Accepted(groups, FaithfulStore(groups)) <==> forall i :: 0 <= i < |groups| ==> !Blank(groups[i])
  {
    FaithfulIsCopied(groups);
    FaithfulCount(groups);
  }

  /** A member opened and never written to: what its records alone make. */
  lemma BlankGroupRefused()
    ensures var g := OldGroup(Records(1, false, None, None), None, [], NoHardState);
      Groups([g]) && Movable(g, 0) && !(|Logged(FaithfulStore([g]))| == 1)
  {
    var g := OldGroup(Records(1, false, None, None), None, [], NoHardState);
    FaithfulCount([g]);
    assert Blank([g][0]);
  }

  // ---------------------------------------------------------------- what an accepted store holds

  /** The new log holds the old log's groups and no other. */
  ghost predicate LogHoldsOnly(groups: seq<OldGroup>, store: Store) {
    forall id :: id in Logged(store) <==> Names(groups, id)
  }

  lemma AcceptedHoldsOnly(groups: seq<OldGroup>, store: Store)
    requires Groups(groups) && Accepted(groups, store)
    requires forall i :: 0 <= i < |groups| ==> !Blank(groups[i])
    ensures LogHoldsOnly(groups, store)
  {
    var ids := set i | 0 <= i < |groups| :: groups[i].records.identity;
    IdentityCount(groups);
    forall i | 0 <= i < |groups|
      ensures groups[i].records.identity in Logged(store)
    {
      assert IsCopy(groups[i], HomeOf(store, groups[i].records.identity));
    }
    assert ids <= Logged(store);
    SameSizeSubset(ids, Logged(store));
  }

  /** A group's log that belongs to no group of the old log. */
  const Stray: Home := Home(None, None, Some(EmptyLog))

  /** The faithful copies, and for each blank group a stray one beside it. */
  ghost function Padded(groups: seq<OldGroup>, base: nat): Store {
    if groups == [] then map[]
    else
      var n := |groups| - 1;
      var store := Padded(groups[..n], base)[groups[n].records.identity := FaithfulHome(groups[n])];
      if Blank(groups[n]) then store[base + n := Stray] else store
  }

  ghost predicate Below(groups: seq<OldGroup>, base: nat) {
    forall i :: 0 <= i < |groups| ==> groups[i].records.identity < base
  }

  lemma {:induction false} PaddedHolds(groups: seq<OldGroup>, base: nat)
    requires Below(groups, base)
    ensures forall id :: id in Padded(groups, base) ==> Names(groups, id) || base <= id < base + |groups|
  {
    if groups != [] {
      var n := |groups| - 1;
      PaddedHolds(groups[..n], base);
      forall id | Names(groups[..n], id)
        ensures Names(groups, id)
      {
        var i :| 0 <= i < n && groups[..n][i].records.identity == id;
        assert groups[i].records.identity == id;
      }
      assert Names(groups, groups[n].records.identity);
    }
  }

  lemma {:induction false} PaddedIs(groups: seq<OldGroup>, base: nat, i: nat)
    requires Groups(groups) && Below(groups, base) && i < |groups|
    ensures HomeOf(Padded(groups, base), groups[i].records.identity) == FaithfulHome(groups[i])
  {
    hide FaithfulHome, WellFormed;
    var n := |groups| - 1;
    if i < n {
      PaddedIs(groups[..n], base, i);
      assert groups[i].records.identity != groups[n].records.identity;
    }
  }

  lemma {:induction false} PaddedCount(groups: seq<OldGroup>, base: nat)
    requires Groups(groups) && Below(groups, base)
    ensures |Logged(Padded(groups, base))| == |groups|
  {
    hide Logged, Blank, WellFormed;
    if groups == [] {
      NoneLogged();
    } else {
      var n := |groups| - 1;
      var before, last := Padded(groups[..n], base), groups[n];
      PaddedCount(groups[..n], base);
      PaddedHolds(groups[..n], base);
      assert forall i :: 0 <= i < n ==> groups[..n][i].records.identity != last.records.identity;
      LoggedAdds(before, last.records.identity, FaithfulHome(last));
      LoggedAdds(before[last.records.identity := FaithfulHome(last)], base + n, Stray);
    }
  }

  lemma {:induction false} Bound(groups: seq<OldGroup>) returns (base: nat)
    ensures Below(groups, base)
  {
    if groups == [] {
      base := 0;
    } else {
      var n := |groups| - 1;
      base := Bound(groups[..n]);
      base := if base <= groups[n].records.identity then groups[n].records.identity + 1 else base;
      assert forall i :: 0 <= i < n ==> groups[i] == groups[..n][i];
    }
  }

  /** With a blank group, a store is accepted whose log holds another group in its place. */
  lemma BlankAdmitsAnother(groups: seq<OldGroup>, i: nat) returns (store: Store)
    requires Groups(groups) && i < |groups| && Blank(groups[i])
    ensures Accepted(groups, store) && !LogHoldsOnly(groups, store)
  {
    var base := Bound(groups);
    store := Padded(groups, base);
    PaddedCount(groups, base);
    forall k | 0 <= k < |groups|
      ensures IsCopy(groups[k], HomeOf(store, groups[k].records.identity))
    {
      PaddedIs(groups, base, k);
    }
    PaddedIs(groups, base, i);
    var id := groups[i].records.identity;
    assert Names(groups, id) && id !in Logged(store);
  }

  /** Verification says the new log holds every group and nothing else. Every store it accepts does exactly
      when no group is blank: only the log's groups are counted, and a blank group is not among them. */
  lemma AcceptedIsExactWhen(groups: seq<OldGroup>)
    requires Groups(groups)
    ensures (forall store: Store :: Accepted(groups, store) ==> LogHoldsOnly(groups, store)) <==>
      (forall i :: 0 <= i < |groups| ==> !Blank(groups[i]))
  {
    hide Accepted, LogHoldsOnly, Blank, Groups;
    if i :| 0 <= i < |groups| && Blank(groups[i]) {
      var store := BlankAdmitsAnother(groups, i);
    } else {
      forall store: Store | Accepted(groups, store)
        ensures LogHoldsOnly(groups, store)
      {
        AcceptedHoldsOnly(groups, store);
      }
    }
  }

  /** One blank group, and in its place in the new log a group the old log never held. */
  lemma AnotherAccepted()
    ensures var g := OldGroup(Records(1, false, None, None), None, [], NoHardState);
      var store: Store := map[1 := FaithfulHome(g), 2 := Stray];
      Groups([g]) && Accepted([g], store) && Logged(store) == {2}
  {
    var g := OldGroup(Records(1, false, None, None), None, [], NoHardState);
    var store: Store := map[1 := FaithfulHome(g), 2 := Stray];
    assert Logged(store) == {2};
  }

  /** What lies in a group's files and not in its log is never counted: any other group's records and image
      may lie in an accepted store. */
  lemma FilesAreNotCounted(groups: seq<OldGroup>, store: Store, id: GroupId, records: Records, image: Option<Image>)
    requires Accepted(groups, store) && !Names(groups, id) && id !in Logged(store)
    ensures Accepted(groups, store[id := Home(Some(records), image, None)])
  {
    var after := store[id := Home(Some(records), image, None)];
    assert Logged(after) == Logged(store);
    forall i | 0 <= i < |groups|
      ensures IsCopy(groups[i], HomeOf(after, groups[i].records.identity))
    {
      assert groups[i].records.identity != id;
      assert IsCopy(groups[i], HomeOf(store, groups[i].records.identity));
    }
  }

  lemma IdentityCount(groups: seq<OldGroup>)
    requires Groups(groups)
    ensures |set i | 0 <= i < |groups| :: groups[i].records.identity| == |groups|
  {
    if groups != [] {
      var n := |groups| - 1;
      IdentityCount(groups[..n]);
      var before := set i | 0 <= i < n :: groups[..n][i].records.identity;
      var all := set i | 0 <= i < |groups| :: groups[i].records.identity;
      assert all == before + {groups[n].records.identity};
      assert groups[n].records.identity !in before;
    }
  }

  lemma SameSizeSubset(a: set<GroupId>, b: set<GroupId>)
    requires a <= b && |a| == |b|
    ensures a == b
  {
    assert b == a + (b - a);
  }
}
