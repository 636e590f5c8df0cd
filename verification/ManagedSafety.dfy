/**
 What every durable write of the managed store keeps: the window's shape, that each file belongs to
 a live or not yet collected ordinal and fits its entry, and that nothing bound is ever rebound.
 */
module ManagedSafety {
  import opened Basics
  import opened ManagedModel

  // ---------------------------------------------------------------- the invariant

  function BindingOf(identity: Identity): Seal {
    Seal(identity.family, identity.hash)
  }

  /** The files of one ordinal fit its entry. */
  ghost predicate EntryFits(env: Env, p: Option<Prepared>, r: Option<Receipt>, e: Entry) {
    && (e.prepared ==> p.Some?)
    && (e.receipt.Some? ==> r.Some? && env.receiptHash(r.value) == e.receipt.value)
    && (p.Some? ==> e.intent.Some? && PreparedFault(env, e.key, e.intent.value, p.value) == None)
    && (p.Some? && r.Some? ==> ProvesRequest(env, r.value, p.value.request))
    && (p.None? && r.Some? ==> e.seal.Some? && Proves(env, r.value, e.key, e.seal.value.family, e.seal.value.hash))
    && (p.Some? && e.seal.Some? ==> e.prepared && e.seal.value == BindingOf(env.identity(p.value.request).value))
  }

  function PreparedAt(d: Disk, o: nat): Option<Prepared> {
    if o in d.prepared then Some(d.prepared[o]) else None
  }

  function ReceiptAt(d: Disk, o: nat): Option<Receipt> {
    if o in d.receipts then Some(d.receipts[o]) else None
  }

  predicate Holds(s: State, o: nat) {
    s.retired < o <= s.retired + |s.entries|
  }

  function EntryAt(s: State, o: nat): Entry
    requires Holds(s, o)
  {
    s.entries[o - s.retired - 1]
  }

  ghost predicate EntriesFit(env: Env, d: Disk) {
    forall o :: Holds(d.state, o) ==> EntryFits(env, PreparedAt(d, o), ReceiptAt(d, o), EntryAt(d.state, o))
  }

  /** No file at or below the collected mark, none above the frontier. */
  ghost predicate FilesBetween(d: Disk) {
    && (forall o <- d.prepared :: d.state.garbage < o <= d.state.frontier)
    && (forall o <- d.receipts :: d.state.garbage < o <= d.state.frontier)
  }

  /** A pending seal seals a live entry, with the binding the entry carries. */
  ghost predicate ControlFits(s: State) {
    s.control.Some? && s.control.value.command.SealOne? ==>
      var c := s.control.value.command;
      && Holds(s, c.key.ordinal) && EntryAt(s, c.key.ordinal).key == c.key
      && EntryAt(s, c.key.ordinal).seal == Some(Seal(c.family, c.hash))
  }

  ghost predicate Inv(env: Env, d: Disk) {
    && Fault(env, d.state) == None
    && EntriesFit(env, d) && FilesBetween(d) && ControlFits(d.state)
  }

  // ---------------------------------------------------------------- what a write may change

  /** What an entry binds it keeps: its key, and its intent, request, receipt and seal once it has them. */
  ghost predicate EntryExtends(e: Entry, f: Entry) {
    && f.key == e.key
    && (e.intent.Some? ==> f.intent == e.intent)
    && (e.prepared ==> f.prepared)
    && (e.receipt.Some? ==> f.receipt == e.receipt)
    && (e.seal.Some? ==> f.seal == e.seal)
  }

  ghost predicate MarksExtend(s: State, t: State) {
    && t.context == s.context && t.limits == s.limits && t.registration == s.registration
    && (s.registered.Some? ==> t.registered == s.registered)
    && s.frontier <= t.frontier && s.retired <= t.retired && s.garbage <= t.garbage && s.revision <= t.revision
    && (s.stopped ==> t.stopped && t.frontier == s.frontier)
    && (s.closed ==> t.closed)
  }

  ghost predicate EntriesExtend(s: State, t: State) {
    forall o :: Holds(s, o) && t.retired < o ==> Holds(t, o) && EntryExtends(EntryAt(s, o), EntryAt(t, o))
  }

  /** Above the retired mark no file is lost or changed. */
  ghost predicate FilesExtend(d: Disk, e: Disk) {
    && (forall o <- d.prepared :: e.state.retired < o ==> o in e.prepared && e.prepared[o] == d.prepared[o])
    && (forall o <- d.receipts :: e.state.retired < o ==> o in e.receipts && e.receipts[o] == d.receipts[o])
  }

  ghost predicate Extends(d: Disk, e: Disk) {
    MarksExtend(d.state, e.state) && EntriesExtend(d.state, e.state) && FilesExtend(d, e)
  }

  lemma ExtendsSelf(d: Disk)
    ensures Extends(d, d)
  {
  }

  lemma EntriesExtendTrans(r: State, s: State, t: State)
    requires EntriesExtend(r, s) && EntriesExtend(s, t) && s.retired <= t.retired
    ensures EntriesExtend(r, t)
  {
    forall o | Holds(r, o) && t.retired < o
      ensures Holds(t, o) && EntryExtends(EntryAt(r, o), EntryAt(t, o))
    {
      assert Holds(s, o);
    }
  }

  lemma ExtendsTrans(d: Disk, e: Disk, f: Disk)
    requires Extends(d, e) && Extends(e, f)
    ensures Extends(d, f)
  {
    EntriesExtendTrans(d.state, e.state, f.state);
  }

  // ---------------------------------------------------------------- the window

  /** The entries are those of the ordinals after the retired mark through the frontier, in order. */
  lemma WindowOf(env: Env, s: State)
    requires Fault(env, s) == None
    ensures s.garbage <= s.retired <= s.frontier && s.frontier - s.retired == |s.entries| <= env.limits.window
    ensures StreamOf(s).Ok? && s.context == env.context && StreamOf(s).value.context == s.context
    ensures forall i :: 0 <= i < |s.entries| ==> EntryValid(s.entries[i], StreamOf(s).value, s.retired + 1 + i)
    ensures forall o: nat :: Holds(s, o) <==> s.retired < o <= s.frontier
    ensures forall o: nat :: Holds(s, o) ==> EntryAt(s, o).key.ordinal == o
  {
  }

  /** An operation is found exactly when its key is that of a live entry, and then at its place. */
  lemma IndexFindsLive(env: Env, s: State, id: OperationId)
    requires Fault(env, s) == None
    ensures Index(s, id).Ok? <==> exists e <- s.entries :: e.key == KeyOf(id, s.context)
    ensures Index(s, id).Ok? ==>
      && Index(s, id).value < |s.entries| && s.entries[Index(s, id).value].key == KeyOf(id, s.context)
      && id.ordinal == s.retired + 1 + Index(s, id).value
  {
    WindowOf(env, s);
    hide Fault, EntryValid;
    if e :| e in s.entries && e.key == KeyOf(id, s.context) {
      var i :| 0 <= i < |s.entries| && s.entries[i] == e;
      LivePlace(env, s, id, i);
    }
  }

  lemma LivePlace(env: Env, s: State, id: OperationId, i: nat)
    requires Fault(env, s) == None && i < |s.entries| && s.entries[i].key == KeyOf(id, s.context)
    ensures Index(s, id) == Ok(i)
  {
    assert EntryValid(s.entries[i], StreamOf(s).value, s.retired + 1 + i);
  }

  // ---------------------------------------------------------------- saves

  lemma SaveKeeps(env: Env, d: Disk, s: State)
    requires Inv(env, d) && Fault(env, s) == None
    requires EntriesFit(env, d.(state := s)) && FilesBetween(d.(state := s)) && ControlFits(s)
    requires MarksExtend(d.state, s) && EntriesExtend(d.state, s)
    ensures Inv(env, Apply(d, Save(s))) && Extends(d, Apply(d, Save(s)))
  {
  }

  /** A save that leaves the entries and the marks. */
  lemma PlainSaveKeeps(env: Env, d: Disk, s: State)
    requires Inv(env, d) && Fault(env, s) == None && MarksExtend(d.state, s) && ControlFits(s)
    requires s.entries == d.state.entries && s.retired == d.state.retired && s.garbage == d.state.garbage
    requires s.frontier == d.state.frontier
    ensures Inv(env, Apply(d, Save(s))) && Extends(d, Apply(d, Save(s)))
  {
    hide Fault, MarksExtend;
    forall o | Holds(s, o)
      ensures EntryFits(env, PreparedAt(d.(state := s), o), ReceiptAt(d.(state := s), o), EntryAt(s, o))
    {
      assert Holds(d.state, o) && EntryAt(s, o) == EntryAt(d.state, o);
    }
    SaveKeeps(env, d, s);
  }

  /** A save that changes one entry, keeping what it binds. */
  lemma EntrySaveKeeps(env: Env, d: Disk, s: State, i: nat, e: Entry)
    requires Inv(env, d) && Fault(env, s) == None && MarksExtend(d.state, s) && ControlFits(s)
    requires i < |d.state.entries| && s.entries == d.state.entries[i := e]
    requires s.retired == d.state.retired && s.garbage == d.state.garbage && s.frontier == d.state.frontier
    requires EntryExtends(d.state.entries[i], e)
    requires var o := s.retired + 1 + i; EntryFits(env, PreparedAt(d, o), ReceiptAt(d, o), e)
    ensures Inv(env, Apply(d, Save(s))) && Extends(d, Apply(d, Save(s)))
  {
    hide Fault, MarksExtend, EntryFits, ControlFits;
    forall o | Holds(s, o)
      ensures EntryFits(env, PreparedAt(d.(state := s), o), ReceiptAt(d.(state := s), o), EntryAt(s, o))
    {
      assert Holds(d.state, o);
      assert o != s.retired + 1 + i ==> EntryAt(s, o) == EntryAt(d.state, o);
    }
    SaveKeeps(env, d, s);
  }

  lemma ReserveSaveKeeps(env: Env, d: Disk, s: State, e: Entry)
    requires Inv(env, d) && Fault(env, s) == None && !d.state.stopped && ControlFits(s)
    requires s == d.state.(entries := d.state.entries + [e], frontier := d.state.frontier + 1)
    requires e.intent.None? && !e.prepared && e.receipt.None? && e.seal.None?
    ensures Inv(env, Apply(d, Save(s))) && Extends(d, Apply(d, Save(s)))
  {
    WindowOf(env, d.state);
    hide Fault;
    forall o | Holds(s, o)
      ensures EntryFits(env, PreparedAt(d.(state := s), o), ReceiptAt(d.(state := s), o), EntryAt(s, o))
    {
      if o == s.frontier {
        assert o !in d.prepared && o !in d.receipts;
        assert EntryAt(s, o) == e;
      } else {
        assert Holds(d.state, o) && EntryAt(s, o) == EntryAt(d.state, o);
      }
    }
    SaveKeeps(env, d, s);
  }

  lemma DrainSaveKeeps(env: Env, d: Disk, s: State, count: nat)
    requires Inv(env, d) && Fault(env, s) == None && count <= |d.state.entries| && MarksExtend(d.state, s)
    requires s.entries == d.state.entries[count..] && s.retired == d.state.retired + count
    requires s.garbage == d.state.garbage && s.frontier == d.state.frontier && s.control.None?
    ensures Inv(env, Apply(d, Save(s))) && Extends(d, Apply(d, Save(s)))
  {
    hide Fault, MarksExtend, EntryFits;
    forall o | Holds(s, o)
      ensures EntryFits(env, PreparedAt(d.(state := s), o), ReceiptAt(d.(state := s), o), EntryAt(s, o))
    {
      assert Holds(d.state, o) && EntryAt(s, o) == EntryAt(d.state, o);
    }
    SaveKeeps(env, d, s);
  }

  lemma CollectedSaveKeeps(env: Env, d: Disk, s: State)
    requires Inv(env, d) && Fault(env, s) == None && s == d.state.(garbage := d.state.retired)
    requires forall o <- d.prepared :: d.state.retired < o
    requires forall o <- d.receipts :: d.state.retired < o
    ensures Inv(env, Apply(d, Save(s))) && Extends(d, Apply(d, Save(s)))
  {
    WindowOf(env, d.state);
    hide Fault, EntryFits;
    forall o | Holds(s, o)
      ensures EntryFits(env, PreparedAt(d.(state := s), o), ReceiptAt(d.(state := s), o), EntryAt(s, o))
    {
      assert Holds(d.state, o) && EntryAt(s, o) == EntryAt(d.state, o);
    }
    SaveKeeps(env, d, s);
  }

  // ---------------------------------------------------------------- files

  /** A request is written where none is, for an entry that binds its intent and carries no seal. */
  lemma PutPreparedKeeps(env: Env, d: Disk, o: nat, p: Prepared)
    requires Inv(env, d) && Holds(d.state, o) && o !in d.prepared
    requires var e := EntryAt(d.state, o);
      e.seal.None? && e.intent.Some? && PreparedFault(env, e.key, e.intent.value, p) == None
    ensures Inv(env, Apply(d, PutPrepared(o, p))) && Extends(d, Apply(d, PutPrepared(o, p)))
  {
    WindowOf(env, d.state);
    hide Fault, PreparedFault;
    var e := Apply(d, PutPrepared(o, p));
    assert EntryFits(env, PreparedAt(d, o), ReceiptAt(d, o), EntryAt(d.state, o));
    forall n | Holds(e.state, n)
      ensures EntryFits(env, PreparedAt(e, n), ReceiptAt(e, n), EntryAt(e.state, n))
    {
      assert EntryFits(env, PreparedAt(d, n), ReceiptAt(d, n), EntryAt(d.state, n));
    }
  }

  /** A receipt is written where none is, if it proves the request or, with none, the seal. */
  lemma PutReceiptKeeps(env: Env, d: Disk, o: nat, r: Receipt)
    requires Inv(env, d) && Holds(d.state, o) && o !in d.receipts
    requires o in d.prepared ==> ProvesRequest(env, r, d.prepared[o].request)
    requires o !in d.prepared ==> var e := EntryAt(d.state, o);
      e.seal.Some? && Proves(env, r, e.key, e.seal.value.family, e.seal.value.hash)
    ensures Inv(env, Apply(d, PutReceipt(o, r))) && Extends(d, Apply(d, PutReceipt(o, r)))
  {
    WindowOf(env, d.state);
    hide Fault, PreparedFault, Proves, ProvesRequest;
    var e := Apply(d, PutReceipt(o, r));
    forall n | Holds(e.state, n)
      ensures EntryFits(env, PreparedAt(e, n), ReceiptAt(e, n), EntryAt(e.state, n))
    {
      assert EntryFits(env, PreparedAt(d, n), ReceiptAt(d, n), EntryAt(d.state, n));
    }
  }

  lemma RemoveKeeps(env: Env, d: Disk, w: Write)
    requires Inv(env, d) && (w.RemovePrepared? || w.RemoveReceipt?) && w.ordinal <= d.state.retired
    ensures Inv(env, Apply(d, w)) && Extends(d, Apply(d, w))
  {
    hide Fault, EntryFits;
    var e := Apply(d, w);
    forall n | Holds(e.state, n)
      ensures EntryFits(env, PreparedAt(e, n), ReceiptAt(e, n), EntryAt(e.state, n))
    {
      assert EntryFits(env, PreparedAt(d, n), ReceiptAt(d, n), EntryAt(d.state, n));
    }
  }
}
