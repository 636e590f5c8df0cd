/**
 The state a checkpoint's image is of. Opening delivers a page and keeps it for the first drain, so until that
 drain hands over, a point asked for names an entry the application was not given.
 */
module CheckpointState {
  import opened Basics
  import opened CheckpointModel
  import opened CheckpointReplay
  import opened CheckpointRuns
  import opened CheckpointSteps

  // ---------------------------------------------------------------- what is outstanding

  /** How much of what was gathered was applied past what was delivered. */
  function LateCount(n: Node): nat {
    if n.delivered <= Applied(n) <= n.delivered + |Outstanding(n).entries| then Applied(n) - n.delivered else 0
  }

  /** The entries applied past what was delivered. */
  function Late(n: Node): seq<Entry> {
    var entries := Outstanding(n).entries; entries[|entries| - LateCount(n)..]
  }

  /** What was delivered and not handed over: kept at opening for the first drain. */
  function Owed(n: Node): Events {
    var o := Outstanding(n); o.(entries := o.entries[..|o.entries| - LateCount(n)])
  }

  lemma {:induction false} FoldedHistory(env: Env, from: nat, through: nat)
    requires from <= through <= |env.history|
    ensures Folded(env, AppAt(env, from), env.history[from..through]) == AppAt(env, through)
    decreases through
  {
    if from < through {
      FoldedHistory(env, from, through - 1);
      assert env.history[from..through][..through - 1 - from] == env.history[from..through - 1];
    }
  }

  /** With what was gathered the application would have the history through what was applied. */
  lemma GivenIs(env: Env, y: System)
    requires Inv(env, y) && StateFits(env, y)
    ensures y.given <= y.node.delivered <= Applied(y.node) <= |env.history|
    ensures Given(env, y.app, Outstanding(y.node)) == AppAt(env, Applied(y.node))
  {
    var o := Outstanding(y.node);
    FoldedHistory(env, From(y.given, o), Applied(y.node));
    hide Replayed, DiskFits, PendingFits, DownFits, WellFormed, HoldsHistory, Folded, AppAt, EntryNamed;
  }

  /** Where there is a point, what was gathered divides at the delivered entry. */
  lemma PointDivides(env: Env, y: System)
    requires Inv(env, y) && PointOf(y.node).Ok?
    ensures var n := y.node; var from := From(y.given, Owed(n));
      && y.given <= from <= n.delivered <= Applied(n) <= |env.history|
      && Owed(n).snapshot == Outstanding(n).snapshot && Owed(n).entries == env.history[from..n.delivered]
      && Late(n) == env.history[n.delivered..Applied(n)]
  {
    PointIs(env, y);
    var n := y.node;
    var from := From(y.given, Outstanding(n));
    hide Replayed, DiskFits, PendingFits, DownFits, WellFormed, HoldsHistory, EntryNamed, PointOf;
    assert env.history[from..Applied(n)][n.delivered - from..] == env.history[n.delivered..Applied(n)];
    assert env.history[from..Applied(n)][..n.delivered - from] == env.history[from..n.delivered];
  }

  // ---------------------------------------------------------------- one point

  /** What was delivered and not handed over leaves the application's state as it is. */
  predicate Unowed(env: Env, y: System) {
    Given(env, y.app, Owed(y.node)) == y.app
  }

  lemma OwedIs(env: Env, y: System)
    requires Inv(env, y) && StateFits(env, y) && PointOf(y.node).Ok?
    ensures y.given <= y.node.delivered <= |env.history|
    ensures Given(env, y.app, Owed(y.node)) == AppAt(env, y.node.delivered)
  {
    PointDivides(env, y);
    FoldedHistory(env, From(y.given, Owed(y.node)), y.node.delivered);
    hide Inv, Folded, AppAt, Owed, Late;
  }

  /** An image of the application's state fits the point then taken exactly when nothing is owed to the
      application: always once it was given what was delivered, and so between drains once the first one has
      handed over. */
  lemma ImageFitsExactly(env: Env, y: System, data: Bytes)
    requires Inv(env, y) && StateFits(env, y) && env.image(data) == y.app && PointOf(y.node).Ok?
    ensures ImageFits(env, PointOf(y.node).value, data) <==> Unowed(env, y)
    ensures y.given == y.node.delivered ==> Unowed(env, y)
    ensures y.node.drain.None? && y.node.kept.None? ==> y.given == y.node.delivered
  {
    PointIs(env, y);
    OwedIs(env, y);
    if y.given == y.node.delivered {
      OwedNothing(env, y);
    }
    NothingOwed(env, y);
    hide Inv, AppAt, Owed, PointOf, Given;
  }

  /** Nothing is owed to an application that was given what was delivered. */
  lemma OwedNothing(env: Env, y: System)
    requires Inv(env, y) && StateFits(env, y) && PointOf(y.node).Ok? && y.given == y.node.delivered
    ensures Unowed(env, y)
  {
    OwedIs(env, y);
    hide Inv, Owed, Given, AppAt;
  }

  lemma NothingOwed(env: Env, y: System)
    requires LiveFits(env, y)
    ensures y.node.drain.None? && y.node.kept.None? ==> y.given == y.node.delivered
  {
    hide WellFormed, HoldsHistory;
  }

  // ---------------------------------------------------------------- every step

  /** A point is captured only where nothing is owed to the application. */
  ghost predicate StateSound(env: Env, y: System, ev: Event) {
    ev.EvCapture? && PointOf(y.node).Ok? ==> Unowed(env, y)
  }

  /** Every state kept goes on being the history's exactly if the step is such. */
  lemma StepKeepsState(env: Env, y: System, ev: Event)
    requires Sane(env) && Inv(env, y) && StateFits(env, y) && Possible(env, y, ev)
    ensures StateFits(env, Step(env, y, ev)) <==> StateSound(env, y, ev)
  {
    if !y.node.up && !ev.EvOpen? && !ev.EvCrash? {
      return;
    }
    match ev
    case EvWrite(u) => WrittenState(env, y, u);
    case EvHand => HandedState(env, y);
    case EvCapture(data) => CapturedState(env, y, data);
    case EvBegin(i, ready) =>
      if i < |y.captures| {
        BegunState(env, y, y.captures[i], ready);
      }
    case EvFinish => FinishedState(env, y);
    case EvCrash(renewed) => CrashedState(env, y, renewed);
    case _ => RestState(env, y, ev);
  }

  lemma WrittenState(env: Env, y: System, u: Update)
    requires Inv(env, y) && StateFits(env, y) && Possible(env, y, EvWrite(u))
    ensures StateFits(env, Written(env, y, u))
  {
    PublishedFrame(y.node.store, u);
    hide Inv, Published, UpdateRecords, StoreFault, TermsBound, Committed, Contiguous, AppAt;
  }

  lemma HandedState(env: Env, y: System)
    requires Inv(env, y) && StateFits(env, y)
    ensures StateFits(env, HandedOver(env, y))
  {
    GivenIs(env, y);
    KeptOnce(env, y);
    hide Inv, Given, AppAt;
  }

  lemma KeptOnce(env: Env, y: System)
    requires LiveFits(env, y)
    ensures y.node.drain.Some? ==> y.node.kept.None?
  {
    hide WellFormed, HoldsHistory;
  }

  lemma CapturedState(env: Env, y: System, data: Bytes)
    requires Inv(env, y) && StateFits(env, y) && env.image(data) == y.app
    ensures StateFits(env, Captured(y, data)) <==> StateSound(env, y, EvCapture(data))
  {
    if PointOf(y.node).Ok? {
      PointIs(env, y);
      ImageFitsExactly(env, y, data);
      hide Inv, Unowed, AppAt, PointOf;
      var c := Capture(PointOf(y.node).value, data);
      assert Captured(y, data).captures == y.captures + [c];
      assert c in Captured(y, data).captures;
    }
  }

  lemma BegunState(env: Env, y: System, c: Capture, ready: bool)
    requires Inv(env, y) && StateFits(env, y) && c in y.captures
    ensures StateFits(env, Begun(env, y, c, ready))
  {
    assert EntryNamed(env, c.point);
    hide Inv, BeginFaultOf, CheckpointRecords, AppAt;
  }

  lemma FinishedState(env: Env, y: System)
    requires StateFits(env, y)
    ensures StateFits(env, Finished(y))
  {
    hide Trimmed, TermAt, AppAt;
  }

  lemma CrashedState(env: Env, y: System, renewed: bool)
    requires Inv(env, y) && StateFits(env, y) && Possible(env, y, EvCrash(renewed))
    ensures StateFits(env, Crashed(env, y, renewed))
  {
    if renewed {
      PendingReplays(env, y);
    }
    assert AppAt(env, 0) == env.initial;
    hide Replayed, WellFormed, HoldsHistory, LiveFits, StoreFault, CheckpointRecords, AppAt, EntryNamed, DownFits;
  }

  lemma RestState(env: Env, y: System, ev: Event)
    requires StateFits(env, y)
    requires !ev.EvWrite? && !ev.EvHand? && !ev.EvCapture? && !ev.EvBegin? && !ev.EvFinish? && !ev.EvCrash?
    ensures StateFits(env, Acted(env, y, ev))
  {
    hide AppAt, Over, AllAccepted, FirstPage;
  }
}
