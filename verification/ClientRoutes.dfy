/**
 The client's route cache: ledgers with the hint last held for each and when it was last used, and
 the plain list it stands for, least recently used first.
 */
module ClientRoutes {
  import opened Basics

  const U64_MAX: nat := 0xFFFF_FFFF_FFFF_FFFF

  type Ledger = nat
  datatype Hint = Hint(epoch: nat, endpoint: nat)
  datatype Cached = Cached(hint: Hint, used: nat)

  // ---------------------------------------------------------------- the plain list

  datatype Held = Held(ledger: Ledger, hint: Hint)

  predicate Holds(list: seq<Held>, ledger: Ledger) {
    exists h <- list :: h.ledger == ledger
  }

  function Find(list: seq<Held>, ledger: Ledger): Option<Hint> {
    if list == [] then None
    else if list[0].ledger == ledger then Some(list[0].hint)
    else Find(list[1..], ledger)
  }

  function Drop(list: seq<Held>, ledger: Ledger): seq<Held> {
    if list == [] then []
    else if list[0].ledger == ledger then Drop(list[1..], ledger)
    else [list[0]] + Drop(list[1..], ledger)
  }

  /** A lookup moves what it finds to the recent end. */
  function Got(list: seq<Held>, ledger: Ledger): seq<Held> {
    if Find(list, ledger).None? then list else Drop(list, ledger) + [Held(ledger, Find(list, ledger).value)]
  }

  predicate Refuses(list: seq<Held>, ledger: Ledger, hint: Hint) {
    Find(list, ledger).Some? && hint.epoch < Find(list, ledger).value.epoch
  }

  /** A hint held goes to the recent end; for a new ledger, with the list full, the least recent leaves. */
  function Inserted(list: seq<Held>, capacity: nat, ledger: Ledger, hint: Hint): seq<Held> {
    if Refuses(list, ledger, hint) then list
    else if Find(list, ledger).Some? then Drop(list, ledger) + [Held(ledger, hint)]
    else if |list| >= capacity && list != [] then list[1..] + [Held(ledger, hint)]
    else list + [Held(ledger, hint)]
  }

  // ---------------------------------------------------------------- the cache stands for a list

  ghost predicate AllCached(entries: map<Ledger, Cached>, list: seq<Held>) {
    forall i :: 0 <= i < |list| ==> list[i].ledger in entries
  }

  ghost predicate AllListed(entries: map<Ledger, Cached>, list: seq<Held>) {
    forall ledger :: ledger in entries ==> Holds(list, ledger)
  }

  ghost predicate HintsHeld(entries: map<Ledger, Cached>, clock: nat, list: seq<Held>)
    requires AllCached(entries, list)
  {
    forall i :: 0 <= i < |list| ==>
      entries[list[i].ledger].hint == list[i].hint && entries[list[i].ledger].used <= clock
  }

  ghost predicate UsedInOrder(entries: map<Ledger, Cached>, list: seq<Held>)
    requires AllCached(entries, list)
  {
    forall i, j :: 0 <= i < j < |list| ==> entries[list[i].ledger].used < entries[list[j].ledger].used
  }

  /** The list holds each cached ledger once, with its hint, in the order of use. */
  ghost predicate Stands(entries: map<Ledger, Cached>, clock: nat, list: seq<Held>) {
    && AllCached(entries, list) && AllListed(entries, list)
    && HintsHeld(entries, clock, list) && UsedInOrder(entries, list)
  }

  lemma {:induction false} FindIs(list: seq<Held>, ledger: Ledger)
    ensures Find(list, ledger).Some? <==> Holds(list, ledger)
    ensures Find(list, ledger).Some? ==>
      exists i :: 0 <= i < |list| && list[i] == Held(ledger, Find(list, ledger).value)
  {
    if list != [] && list[0].ledger != ledger {
      FindIs(list[1..], ledger);
      if Find(list[1..], ledger).Some? {
        var i :| 0 <= i < |list[1..]| && list[1..][i] == Held(ledger, Find(list, ledger).value);
        assert list[i + 1] == Held(ledger, Find(list, ledger).value);
      }
      if Holds(list, ledger) {
        var h :| h in list && h.ledger == ledger;
        assert h in list[1..];
      }
    }
  }

  lemma FindAgrees(entries: map<Ledger, Cached>, clock: nat, list: seq<Held>, ledger: Ledger)
    requires Stands(entries, clock, list)
    ensures Find(list, ledger) == if ledger in entries then Some(entries[ledger].hint) else None
  {
    FindIs(list, ledger);
  }

  /** With distinct ledgers, dropping one takes out its place and no other. */
  lemma {:induction false} DropIs(list: seq<Held>, ledger: Ledger, i: nat)
    requires i < |list| && list[i].ledger == ledger
    requires forall j :: 0 <= j < |list| && j != i ==> list[j].ledger != ledger
    ensures Drop(list, ledger) == list[..i] + list[i + 1..]
  {
    if i > 0 {
      DropIs(list[1..], ledger, i - 1);
      assert list[..i] == [list[0]] + list[1..][..i - 1];
      assert list[i + 1..] == list[1..][i..];
    } else {
      DropNone(list[1..], ledger);
      assert list[..0] + list[1..] == list[1..];
    }
  }

  lemma {:induction false} DropNone(list: seq<Held>, ledger: Ledger)
    requires forall j :: 0 <= j < |list| ==> list[j].ledger != ledger
    ensures Drop(list, ledger) == list
  {
    if list != [] {
      DropNone(list[1..], ledger);
    }
  }

  lemma DistinctLedgers(entries: map<Ledger, Cached>, clock: nat, list: seq<Held>)
    requires Stands(entries, clock, list)
    ensures forall i, j :: 0 <= i < j < |list| ==> list[i].ledger != list[j].ledger
  {
  }

  /** The place of a held ledger, and what the list is without it. */
  lemma PlaceOf(entries: map<Ledger, Cached>, clock: nat, list: seq<Held>, ledger: Ledger) returns (i: nat)
    requires Stands(entries, clock, list) && ledger in entries
    ensures i < |list| && list[i].ledger == ledger && Drop(list, ledger) == list[..i] + list[i + 1..]
  {
    assert Holds(list, ledger);
    i :| i < |list| && list[i].ledger == ledger;
    DistinctLedgers(entries, clock, list);
    hide Stands;
    DropIs(list, ledger, i);
  }

  /** Taking one place out leaves a list of the rest. */
  lemma StandsWithout(entries: map<Ledger, Cached>, clock: nat, list: seq<Held>, i: nat)
    requires Stands(entries, clock, list) && i < |list|
    ensures Stands(entries - {list[i].ledger}, clock, list[..i] + list[i + 1..])
  {
    DistinctLedgers(entries, clock, list);
    hide AllListed, AllCached, HintsHeld, UsedInOrder;
    ListedWithout(entries, list, i);
    FitsWithout(entries, clock, list, i);
  }

  lemma FitsWithout(entries: map<Ledger, Cached>, clock: nat, list: seq<Held>, i: nat)
    requires AllCached(entries, list) && HintsHeld(entries, clock, list) && UsedInOrder(entries, list) && i < |list|
    requires forall i, j :: 0 <= i < j < |list| ==> list[i].ledger != list[j].ledger
    ensures var left := entries - {list[i].ledger}; var rest := list[..i] + list[i + 1..];
      AllCached(left, rest) && HintsHeld(left, clock, rest) && UsedInOrder(left, rest)
  {
    var rest := list[..i] + list[i + 1..];
    assert forall k :: 0 <= k < |rest| ==> rest[k] == list[if k < i then k else k + 1];
  }

  lemma ListedWithout(entries: map<Ledger, Cached>, list: seq<Held>, i: nat)
    requires AllListed(entries, list) && i < |list|
    ensures AllListed(entries - {list[i].ledger}, list[..i] + list[i + 1..])
  {
    var rest := list[..i] + list[i + 1..];
    forall ledger | ledger in entries - {list[i].ledger}
      ensures Holds(rest, ledger)
    {
      assert Holds(list, ledger);
      var at :| 0 <= at < |list| && list[at].ledger == ledger;
      assert rest[if at < i then at else at - 1] == list[at];
    }
  }

  /** Adding at the recent end, used now. */
  lemma StandsWith(entries: map<Ledger, Cached>, clock: nat, list: seq<Held>, ledger: Ledger, hint: Hint)
    requires Stands(entries, clock, list) && ledger !in entries
    ensures Stands(entries[ledger := Cached(hint, clock + 1)], clock + 1, list + [Held(ledger, hint)])
  {
    ListedWith(entries, list, ledger, hint, Cached(hint, clock + 1));
    hide AllListed;
    var more := list + [Held(ledger, hint)];
    assert forall k :: 0 <= k < |list| ==> more[k] == list[k];
  }

  lemma ListedWith(entries: map<Ledger, Cached>, list: seq<Held>, ledger: Ledger, hint: Hint, c: Cached)
    requires AllListed(entries, list)
    ensures AllListed(entries[ledger := c], list + [Held(ledger, hint)])
  {
    var more := list + [Held(ledger, hint)];
    assert more[|list|] == Held(ledger, hint);
    forall l | l in entries[ledger := c]
      ensures Holds(more, l)
    {
      if l != ledger {
        assert Holds(list, l);
        var at :| 0 <= at < |list| && list[at].ledger == l;
        assert more[at] == list[at];
      }
    }
  }

  lemma StandsLater(entries: map<Ledger, Cached>, clock: nat, list: seq<Held>)
    requires Stands(entries, clock, list)
    ensures Stands(entries, clock + 1, list)
  {
  }

  lemma EmptyStands(entries: map<Ledger, Cached>, clock: nat)
    requires Stands(entries, clock, [])
    ensures entries == map[]
  {
    assert forall l :: l in entries ==> Holds([], l);
  }

  lemma FrontIsCached(entries: map<Ledger, Cached>, clock: nat, list: seq<Held>)
    requires Stands(entries, clock, list) && list != []
    ensures list[0].ledger in entries
  {
  }

  lemma {:induction false} StandsSize(entries: map<Ledger, Cached>, clock: nat, list: seq<Held>)
    requires Stands(entries, clock, list)
    ensures |entries| == |list|
    decreases |list|
  {
    hide Stands;
    if list == [] {
      EmptyStands(entries, clock);
    } else {
      FrontIsCached(entries, clock, list);
      StandsWithout(entries, clock, list, 0);
      assert list[..0] + list[1..] == list[1..];
      StandsSize(entries - {list[0].ledger}, clock, list[1..]);
      OneFewer(entries, list[0].ledger);
    }
  }

  lemma OneFewer(entries: map<Ledger, Cached>, ledger: Ledger)
    requires ledger in entries
    ensures |entries - {ledger}| == |entries| - 1
  {
    assert (entries - {ledger}).Keys == entries.Keys - {ledger};
    assert |entries.Keys| == |entries| && |(entries - {ledger}).Keys| == |entries - {ledger}|;
  }

  /** The least recently used is the front of the list. */
  lemma LeastIsFront(entries: map<Ledger, Cached>, clock: nat, list: seq<Held>, ledger: Ledger)
    requires Stands(entries, clock, list) && ledger in entries
    requires forall l :: l in entries ==> entries[ledger].used <= entries[l].used
    ensures list != [] && list[0].ledger == ledger
  {
    assert Holds(list, ledger);
    var i :| 0 <= i < |list| && list[i].ledger == ledger;
  }

  // ---------------------------------------------------------------- one use of the cache

  function Tick(clock: nat): nat {
    if clock < U64_MAX then clock + 1 else U64_MAX
  }

  /** What a lookup leaves. */
  function Touched(entries: map<Ledger, Cached>, clock: nat, ledger: Ledger): map<Ledger, Cached> {
    if ledger in entries then entries[ledger := entries[ledger].(used := Tick(clock))] else entries
  }

  function Lookup(entries: map<Ledger, Cached>, ledger: Ledger): Option<Hint> {
    if ledger in entries then Some(entries[ledger].hint) else None
  }

  predicate Older(entries: map<Ledger, Cached>, ledger: Ledger, hint: Hint) {
    ledger in entries && hint.epoch < entries[ledger].hint.epoch
  }

  ghost predicate IsOldest(entries: map<Ledger, Cached>, ledger: Ledger) {
    ledger in entries && forall l :: l in entries ==> entries[ledger].used <= entries[l].used
  }

  /** What learning a hint that is not older leaves: one of the oldest gone if a new ledger finds no room. */
  ghost predicate Learned(entries: map<Ledger, Cached>, clock: nat, capacity: nat, ledger: Ledger, hint: Hint,
                          after: map<Ledger, Cached>)
  {
    if ledger in entries || |entries| < capacity || entries == map[]
    then after == entries[ledger := Cached(hint, Tick(clock))]
    else
      exists oldest: Ledger ::
        IsOldest(entries, oldest) && after == (entries - {oldest})[ledger := Cached(hint, Tick(clock))]
  }

  /** Before the clock saturates a lookup agrees with the plain list. */
  lemma LookAgrees(entries: map<Ledger, Cached>, clock: nat, list: seq<Held>, ledger: Ledger)
    requires Stands(entries, clock, list) && clock < U64_MAX
    ensures Lookup(entries, ledger) == Find(list, ledger)
    ensures Stands(Touched(entries, clock, ledger), Tick(clock), Got(list, ledger))
  {
    FindAgrees(entries, clock, list, ledger);
    if ledger !in entries {
      StandsLater(entries, clock, list);
    } else {
      MoveToEnd(entries, clock, list, ledger, entries[ledger].hint);
    }
  }

  lemma MoveToEnd(entries: map<Ledger, Cached>, clock: nat, list: seq<Held>, ledger: Ledger, hint: Hint)
    requires Stands(entries, clock, list) && ledger in entries
    ensures Stands(entries[ledger := Cached(hint, clock + 1)], clock + 1, Drop(list, ledger) + [Held(ledger, hint)])
  {
    var i := PlaceOf(entries, clock, list, ledger);
    StandsWithout(entries, clock, list, i);
    hide Stands;
    StandsWith(entries - {ledger}, clock, Drop(list, ledger), ledger, hint);
    assert (entries - {ledger})[ledger := Cached(hint, clock + 1)] == entries[ledger := Cached(hint, clock + 1)];
  }

  /** And so does learning a hint: an older one is refused on both sides, and what leaves is the front. */
  lemma LearnAgrees(entries: map<Ledger, Cached>, clock: nat, list: seq<Held>, capacity: nat, ledger: Ledger,
                    hint: Hint,
                    after: map<Ledger, Cached>)
    requires Stands(entries, clock, list) && clock < U64_MAX && capacity > 0
    requires !Older(entries, ledger, hint) && Learned(entries, clock, capacity, ledger, hint, after)
    ensures !Refuses(list, ledger, hint) && Stands(after, Tick(clock), Inserted(list, capacity, ledger, hint))
  {
    FindAgrees(entries, clock, list, ledger);
    StandsSize(entries, clock, list);
    if ledger in entries {
      MoveToEnd(entries, clock, list, ledger, hint);
    } else if |entries| < capacity {
      StandsWith(entries, clock, list, ledger, hint);
    } else {
      var oldest: Ledger :|
        IsOldest(entries, oldest) && after == (entries - {oldest})[ledger := Cached(hint, Tick(clock))];
      LeastIsFront(entries, clock, list, oldest);
      StandsWithout(entries, clock, list, 0);
      hide Stands;
      assert list[..0] + list[1..] == list[1..];
      StandsWith(entries - {oldest}, clock, list[1..], ledger, hint);
    }
  }

  lemma OlderIsRefused(entries: map<Ledger, Cached>, clock: nat, list: seq<Held>, ledger: Ledger, hint: Hint)
    requires Stands(entries, clock, list)
    ensures Older(entries, ledger, hint) == Refuses(list, ledger, hint)
  {
    FindAgrees(entries, clock, list, ledger);
  }

  // ---------------------------------------------------------------- the cache

  class Routes {
    var entries: map<Ledger, Cached>
    var clock: nat
    const capacity: nat

    constructor (c: nat)
      requires c > 0
      ensures capacity == c && clock == 0 && entries == map[]
    {
      entries, clock, capacity := map[], 0, c;
    }

    method Get(ledger: Ledger) returns (r: Option<Hint>)
      modifies this
      ensures r == Lookup(old(entries), ledger)
      ensures clock == Tick(old(clock)) && entries == Touched(old(entries), old(clock), ledger)
    {
      clock := if clock < U64_MAX then clock + 1 else U64_MAX;
      if ledger !in entries {
        return None;
      }
      r := Some(entries[ledger].hint);
      entries := entries[ledger := entries[ledger].(used := clock)];
    }

    /** A ledger used longest ago. */
    method Oldest() returns (ledger: Ledger)
      requires entries != map[]
      ensures IsOldest(entries, ledger)
    {
      var rest := entries.Keys;
      ledger :| ledger in rest;
      rest := rest - {ledger};
      while rest != {}
        invariant rest <= entries.Keys && ledger in entries
        invariant forall l :: l in entries && l !in rest ==> entries[ledger].used <= entries[l].used
        decreases |rest|
      {
        var l :| l in rest;
        if entries[l].used < entries[ledger].used {
          ledger := l;
        }
        rest := rest - {l};
      }
    }

    /** A hint older than the one held is refused and leaves everything as it was. */
    method Insert(ledger: Ledger, hint: Hint) returns (ok: bool)
      modifies this
      ensures ok == !Older(old(entries), ledger, hint)
      ensures !ok ==> entries == old(entries) && clock == old(clock)
      ensures ok ==> clock == Tick(old(clock)) && Learned(old(entries), old(clock), capacity, ledger, hint, entries)
    {
      if ledger in entries && hint.epoch < entries[ledger].hint.epoch {
        return false;
      }
      clock := if clock < U64_MAX then clock + 1 else U64_MAX;
      if ledger !in entries && |entries| >= capacity && entries != map[] {
        var oldest := Oldest();
        entries := entries - {oldest};
      }
      entries := entries[ledger := Cached(hint, clock)];
      return true;
    }
  }

  // ---------------------------------------------------------------- what the list promises

  datatype Use = Look(ledger: Ledger) | Learn(ledger: Ledger, hint: Hint)

  function After(list: seq<Held>, capacity: nat, use: Use): seq<Held> {
    match use
    case Look(ledger) => Got(list, ledger)
    case Learn(ledger, hint) => Inserted(list, capacity, ledger, hint)
  }

  function Run(list: seq<Held>, capacity: nat, uses: seq<Use>): seq<Held> {
    if uses == [] then list else After(Run(list, capacity, uses[..|uses| - 1]), capacity, uses[|uses| - 1])
  }

  /** Any uses, fewer than the clock can count, made of a cache: it stands for the list they make. */
  method UseCache(c: nat, uses: seq<Use>) returns (cache: Routes)
    requires c > 0 && |uses| < U64_MAX
    ensures fresh(cache) && cache.capacity == c && Stands(cache.entries, cache.clock, Run([], c, uses))
  {
    cache := new Routes(c);
    for i := 0 to |uses|
      invariant cache.capacity == c && cache.clock <= i
      invariant fresh(cache) && Stands(cache.entries, cache.clock, Run([], c, uses[..i]))
    {
      assert uses[..i + 1][..i] == uses[..i];
      ghost var list, held, clock := Run([], c, uses[..i]), cache.entries, cache.clock;
      match uses[i] {
        case Look(ledger) =>
          LookAgrees(held, clock, list, ledger);
          var _ := cache.Get(ledger);
        case Learn(ledger, hint) =>
          OlderIsRefused(held, clock, list, ledger, hint);
          var ok := cache.Insert(ledger, hint);
          if ok {
            LearnAgrees(held, clock, list, c, ledger, hint, cache.entries);
          }
      }
    }
    assert uses[..|uses|] == uses;
  }

  /** No ledger twice. */
  predicate Distinct(list: seq<Held>) {
    forall i, j :: 0 <= i < j < |list| ==> list[i].ledger != list[j].ledger
  }

  lemma {:induction false} DropRemoves(list: seq<Held>, ledger: Ledger)
    requires Distinct(list)
    ensures Distinct(Drop(list, ledger)) && !Holds(Drop(list, ledger), ledger)
    ensures |Drop(list, ledger)| == if Holds(list, ledger) then |list| - 1 else |list|
    ensures forall l :: l != ledger ==> Find(Drop(list, ledger), l) == Find(list, l)
    ensures forall h <- Drop(list, ledger) :: h in list
  {
    if list != [] {
      DropRemoves(list[1..], ledger);
      var rest := Drop(list[1..], ledger);
      if list[0].ledger == ledger {
        assert !Holds(list[1..], ledger);
      } else {
        assert Holds(list, ledger) <==> Holds(list[1..], ledger);
        assert forall k :: 0 <= k < |rest| ==> rest[k] in list[1..];
      }
    }
  }

  lemma {:induction false} FindAppend(list: seq<Held>, h: Held, l: Ledger)
    ensures Find(list + [h], l) ==
      if Holds(list, l) then Find(list, l) else if h.ledger == l then Some(h.hint) else None
  {
    if list != [] {
      assert (list + [h])[1..] == list[1..] + [h];
      FindAppend(list[1..], h, l);
      assert list[0].ledger != l ==> (Holds(list, l) <==> Holds(list[1..], l));
    }
  }

  lemma DistinctAppend(list: seq<Held>, h: Held)
    requires Distinct(list) && !Holds(list, h.ledger)
    ensures Distinct(list + [h])
  {
  }

  /** Every use keeps at most `capacity` ledgers, each once; a ledger still held has not gone to an older
      epoch; and only a ledger new to a full cache makes another leave, the one at the front. */
  lemma UseKeeps(list: seq<Held>, capacity: nat, use: Use, l: Ledger)
    requires Distinct(list) && |list| <= capacity && capacity > 0
    ensures var after := After(list, capacity, use);
      && Distinct(after) && |after| <= capacity
      && (Find(list, l).Some? && Find(after, l).Some? ==> Find(list, l).value.epoch <= Find(after, l).value.epoch)
      && (Find(list, l).Some? && Find(after, l).None? ==>
            use.Learn? && Find(list, use.ledger).None? && |list| == capacity && list[0].ledger == l)
  {
    FindIs(list, l);
    FindIs(list, use.ledger);
    DropRemoves(list, use.ledger);
    if Find(list, use.ledger).Some? {
      var kept := Drop(list, use.ledger);
      var hint := if use.Learn? then use.hint else Find(list, use.ledger).value;
      DistinctAppend(kept, Held(use.ledger, hint));
      FindAppend(kept, Held(use.ledger, hint), l);
      FindIs(kept, l);
    } else if use.Learn? {
      NewKeeps(list, capacity, use.ledger, use.hint, l);
    }
  }

  lemma NewKeeps(list: seq<Held>, capacity: nat, ledger: Ledger, hint: Hint, l: Ledger)
    requires Distinct(list) && |list| <= capacity && capacity > 0 && !Holds(list, ledger)
    ensures var kept := if |list| >= capacity && list != [] then list[1..] else list;
      var after := kept + [Held(ledger, hint)];
      && Distinct(after) && |after| <= capacity
      && (Find(list, l).Some? && Find(after, l).Some? ==> Find(list, l) == Find(after, l))
      && (Find(list, l).Some? && Find(after, l).None? ==> |list| == capacity && list[0].ledger == l)
  {
    FindIs(list, l);
    if |list| >= capacity {
      assert !Holds(list[1..], ledger);
      DistinctAppend(list[1..], Held(ledger, hint));
      FindAppend(list[1..], Held(ledger, hint), l);
      FindIs(list[1..], l);
    } else {
      DistinctAppend(list, Held(ledger, hint));
      FindAppend(list, Held(ledger, hint), l);
    }
  }

  /** However long it is used, the cache holds at most `capacity` ledgers, each once. */
  lemma {:induction false} RunKeeps(capacity: nat, uses: seq<Use>)
    requires capacity > 0
    ensures Distinct(Run([], capacity, uses)) && |Run([], capacity, uses)| <= capacity
  {
    if uses != [] {
      RunKeeps(capacity, uses[..|uses| - 1]);
      UseKeeps(Run([], capacity, uses[..|uses| - 1]), capacity, uses[|uses| - 1], 0);
    }
  }

  /** While a ledger stays held its epoch never decreases, over any number of uses. */
  lemma {:induction false} EpochNeverDecreases(capacity: nat, uses: seq<Use>, i: nat, l: Ledger)
    requires capacity > 0 && i <= |uses|
    requires forall j :: i <= j <= |uses| ==> Find(Run([], capacity, uses[..j]), l).Some?
    ensures Find(Run([], capacity, uses[..i]), l).Some? && Find(Run([], capacity, uses), l).Some?
    ensures Find(Run([], capacity, uses[..i]), l).value.epoch <= Find(Run([], capacity, uses), l).value.epoch
    decreases |uses|
  {
    assert uses[..|uses|] == uses;
    if i < |uses| {
      var front := uses[..|uses| - 1];
      assert forall j :: 0 <= j <= |front| ==> front[..j] == uses[..j];
      EpochNeverDecreases(capacity, front, i, l);
      RunKeeps(capacity, front);
      UseKeeps(Run([], capacity, front), capacity, uses[|uses| - 1], l);
    }
  }
}
