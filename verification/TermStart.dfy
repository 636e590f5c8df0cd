/**
 Where a member's current term began: the empty entry its leader began it with, found in the part of
 the log the member still holds by halving and a bounded scan, and what the commit must cover.
 */
module TermStart {
  import opened Basics

  const U64_MAX: nat := 0xFFFF_FFFF_FFFF_FFFF

  datatype Kind = Normal | ConfChange
  datatype Entry = Entry(term: nat, kind: Kind, data: seq<bv8>)

  /** What a member holds: entries `snapshot + 1` onward, behind a snapshot of a term. */
  datatype Log = Log(snapshot: nat, snapshotTerm: nat, entries: seq<Entry>)

  datatype Role = Leader | Follower
  datatype Member = Member(
    log: Log, term: nat, commit: nat, role: Role, fast: bool, proposals: nat, leaderCommitted: bool)

  function Last(l: Log): nat {
    l.snapshot + |l.entries|
  }

  function TermAt(l: Log, index: nat): Option<nat> {
    if index == l.snapshot then Some(l.snapshotTerm)
    else if l.snapshot < index <= Last(l) then Some(l.entries[index - l.snapshot - 1].term)
    else None
  }

  /** The empty entry a leader begins its term with. */
  function Opening(term: nat): Entry {
    Entry(term, Normal, [])
  }

  predicate Begins(e: Entry, term: nat) {
    e.term == term && e.kind == Normal && e.data == []
  }

  // ---------------------------------------------------------------- the log the group has

  /** Terms begin at one, never decrease along the log, and none is above `term`. */
  ghost predicate Ordered(full: seq<Entry>, term: nat) {
    && (forall i, j :: 0 <= i <= j < |full| ==> full[i].term <= full[j].term)
    && (forall i :: 0 <= i < |full| ==> 1 <= full[i].term <= term)
  }

  /** The member holds `full` from a compaction point onward. */
  ghost predicate HeldOf(l: Log, full: seq<Entry>) {
    && l.snapshot <= |full| && l.entries == full[l.snapshot..]
    && l.snapshotTerm == if l.snapshot == 0 then 0 else full[l.snapshot - 1].term
  }

  /** `first` is the index of the first entry of `term`, or past the end when there is none. */
  ghost predicate FirstOf(full: seq<Entry>, term: nat, first: nat) {
    && 1 <= first <= |full| + 1
    && (forall i :: 0 <= i < first - 1 ==> full[i].term < term)
    && (first <= |full| ==> full[first - 1].term >= term)
  }

  /** The term opens with recovered entries, `proposals` at most, and then its empty entry, at `start`;
      or, while the empty entry has not arrived (`start` is none), with recovered entries alone. */
  ghost predicate Opens(full: seq<Entry>, term: nat, proposals: nat, first: nat, start: Option<nat>) {
    && FirstOf(full, term, first)
    && match start
       case Some(at) =>
         && first <= at <= |full| && at - first <= proposals && full[at - 1] == Opening(term)
         && (forall i :: first - 1 <= i < at - 1 ==> full[i] != Opening(term))
       case None => forall i :: first - 1 <= i < |full| ==> full[i] != Opening(term)
  }

  // ---------------------------------------------------------------- finding it

  /** The first held index whose term is `term` or above, by halving. */
  method Halve(l: Log, term: nat) returns (low: nat)
    requires forall i, j :: 0 <= i <= j < |l.entries| ==> l.entries[i].term <= l.entries[j].term
    ensures l.snapshot < low <= Last(l) + 1
    ensures forall i :: 0 <= i < low - l.snapshot - 1 ==> l.entries[i].term < term
    ensures forall i :: low - l.snapshot - 1 <= i < |l.entries| ==> l.entries[i].term >= term
  {
    low := l.snapshot + 1;
    var high := Last(l) + 1;
    while low < high
      invariant l.snapshot < low <= high <= Last(l) + 1
      invariant forall i :: 0 <= i < low - l.snapshot - 1 ==> l.entries[i].term < term
      invariant forall i :: high - l.snapshot - 1 <= i < |l.entries| ==> l.entries[i].term >= term
    {
      var mid := low + (high - low) / 2;
      if l.entries[mid - l.snapshot - 1].term < term {
        low := mid + 1;
      } else {
        high := mid;
      }
    }
  }

  /** The first of the entries from `low` to before `end` that begins the term. */
  method Scan(l: Log, term: nat, low: nat, end: nat) returns (found: Option<nat>)
    requires l.snapshot < low <= end <= Last(l) + 1
    ensures found.Some? ==>
      && low <= found.value < end && l.entries[found.value - l.snapshot - 1] == Opening(term)
      && forall i :: low - l.snapshot - 1 <= i < found.value - l.snapshot - 1 ==> l.entries[i] != Opening(term)
    ensures found.None? ==>
      forall i :: low - l.snapshot - 1 <= i < end - l.snapshot - 1 ==> l.entries[i] != Opening(term)
  {
    var at := low;
    while at < end
      invariant low <= at <= end
      invariant forall i :: low - l.snapshot - 1 <= i < at - l.snapshot - 1 ==> l.entries[i] != Opening(term)
    {
      if Begins(l.entries[at - l.snapshot - 1], term) {
        return Some(at);
      }
      at := at + 1;
    }
    return None;
  }

  /** What is answered, in the group's terms: the empty entry exactly when it is held and the term's first
      entry was not compacted, while the scan's end can be counted. */
  ghost function Expected(l: Log, proposals: nat, first: nat, start: Option<nat>): Option<nat> {
    if l.snapshot < first && Last(l) < U64_MAX && first + proposals + 1 <= U64_MAX then start else None
  }

  method FindStart(m: Member, ghost full: seq<Entry>, ghost first: nat, ghost start: Option<nat>)
      returns (r: Option<nat>)
    requires HeldOf(m.log, full) && Ordered(full, m.term) && Opens(full, m.term, m.proposals, first, start)
    ensures r == Expected(m.log, m.proposals, first, start)
  {
    var l := m.log;
    if l.snapshotTerm >= m.term {
      return None;
    }
    if Last(l) >= U64_MAX {
      return None;
    }
    HeldOrdered(l, full, m.term);
    var low := Halve(l, m.term);
    HalvedIsFirst(l, full, m.term, low, first);
    var span := m.proposals + 1;
    if low + span > U64_MAX {
      return None;
    }
    var end := if low + span < Last(l) + 1 then low + span else Last(l) + 1;
    r := Scan(l, m.term, low, end);
    ScanIsStart(l, full, m.term, m.proposals, first, start, end, r);
  }

  lemma HeldOrdered(l: Log, full: seq<Entry>, term: nat)
    requires HeldOf(l, full) && Ordered(full, term)
    ensures forall i, j :: 0 <= i <= j < |l.entries| ==> l.entries[i].term <= l.entries[j].term
  {
    forall i, j | 0 <= i <= j < |l.entries|
      ensures l.entries[i].term <= l.entries[j].term
    {
      assert l.entries[i] == full[l.snapshot + i] && l.entries[j] == full[l.snapshot + j];
    }
  }

  lemma HalvedIsFirst(l: Log, full: seq<Entry>, term: nat, low: nat, first: nat)
    requires HeldOf(l, full) && Ordered(full, term) && FirstOf(full, term, first) && l.snapshotTerm < term
    requires l.snapshot < low <= Last(l) + 1
    requires forall i :: 0 <= i < low - l.snapshot - 1 ==> l.entries[i].term < term
    requires forall i :: low - l.snapshot - 1 <= i < |l.entries| ==> l.entries[i].term >= term
    ensures low == first && l.snapshot < first
  {
    forall i | 0 <= i < low - 1
      ensures full[i].term < term
    {
      if i >= l.snapshot {
        assert full[i] == l.entries[i - l.snapshot];
      } else {
        assert full[i].term <= full[l.snapshot - 1].term;
      }
    }
    assert low <= |full| ==> full[low - 1] == l.entries[low - l.snapshot - 1];
    FirstIsUnique(full, term, low, first);
  }

  lemma FirstIsUnique(full: seq<Entry>, term: nat, a: nat, b: nat)
    requires FirstOf(full, term, a) && FirstOf(full, term, b)
    ensures a == b
  {
  }

  lemma ScanIsStart(l: Log, full: seq<Entry>, term: nat, proposals: nat, first: nat, start: Option<nat>, end: nat,
                    r: Option<nat>)
    requires HeldOf(l, full) && Opens(full, term, proposals, first, start) && l.snapshot < first <= end
    requires end == if first + proposals + 1 < Last(l) + 1 then first + proposals + 1 else Last(l) + 1
    requires r.Some? ==>
      && first <= r.value < end && l.entries[r.value - l.snapshot - 1] == Opening(term)
      && forall i :: first - l.snapshot - 1 <= i < r.value - l.snapshot - 1 ==> l.entries[i] != Opening(term)
    requires r.None? ==>
      forall i :: first - l.snapshot - 1 <= i < end - l.snapshot - 1 ==> l.entries[i] != Opening(term)
    ensures r == start
  {
    hide Opening;
    assert forall i :: 0 <= i < |l.entries| ==> l.entries[i] == full[l.snapshot + i];
    assert start.Some? ==> l.entries[start.value - l.snapshot - 1] == full[start.value - 1];
    assert r.Some? ==> l.entries[r.value - l.snapshot - 1] == full[r.value - 1];
  }

  // ---------------------------------------------------------------- what is asked of it

  /** Whether the commit covers the entry the term began with. */
  method CommittedInTerm(m: Member, ghost full: seq<Entry>, ghost first: nat, ghost start: Option<nat>)
      returns (yes: bool)
    requires HeldOf(m.log, full) && Ordered(full, m.term) && Opens(full, m.term, m.proposals, first, start)
    ensures m.role == Leader ==> yes == m.leaderCommitted
    ensures m.role == Follower && m.fast ==>
      var expected := Expected(m.log, m.proposals, first, start);
      yes == (expected.Some? && expected.value <= m.commit)
    ensures m.role == Follower && m.fast && yes ==> start.Some? && start.value <= m.commit
    ensures m.role == Follower && !m.fast ==> yes == (TermAt(m.log, m.commit) == Some(m.term))
  {
    if m.role == Leader {
      return m.leaderCommitted;
    }
    if m.fast {
      var at := FindStart(m, full, first, start);
      return at.Some? && m.commit >= at.value;
    }
    return TermAt(m.log, m.commit) == Some(m.term);
  }

  method TermBeganBy(m: Member, index: nat, ghost full: seq<Entry>, ghost first: nat, ghost start: Option<nat>)
      returns (yes: bool)
    requires HeldOf(m.log, full) && Ordered(full, m.term) && Opens(full, m.term, m.proposals, first, start)
    ensures !m.fast ==> yes
    ensures m.fast ==>
      var expected := Expected(m.log, m.proposals, first, start);
      yes == (expected.Some? && expected.value <= index)
  {
    if !m.fast {
      return true;
    }
    var at := FindStart(m, full, first, start);
    return at.Some? && at.value <= index;
  }

  /** Without the fast track a term's first entry is the one it began with, so a commit held covers it
      exactly when the entry committed is of the term. */
  lemma ClassicAgrees(l: Log, full: seq<Entry>, term: nat, first: nat, commit: nat)
    requires HeldOf(l, full) && Ordered(full, term) && Opens(full, term, 0, first, Some(first))
    requires l.snapshot <= commit <= Last(l)
    ensures TermAt(l, commit) == Some(term) <==> first <= commit
  {
    hide Opening;
    if commit > 0 {
      assert TermAt(l, commit) == Some(full[commit - 1].term);
      if first <= commit {
        assert full[first - 1].term <= full[commit - 1].term;
      } else {
        assert full[commit - 1].term < term;
      }
    }
  }
}
