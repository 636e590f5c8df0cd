/**
 The recursion check's search for the cycles of a call graph: Tarjan's algorithm with an
 explicit work stack. The search keeps its two dictionaries, its vertex stack and its work
 stack in local variables that it updates in place; `Search` names their values at one moment
 so that the invariant can be stated, and stepped, once.
 */
module Components {
  import opened CallGraph

  /** A vertex being visited and those of its callees not looked at yet. */
  datatype Frame = Frame(node: Symbol, pending: seq<Symbol>)

  datatype Call = Call(caller: Symbol, callee: Symbol)

  /** The search's variables, and the calls it has looked at so far. */
  datatype Search = Search(
    index: map<Symbol, nat>,
    low: map<Symbol, nat>,
    stack: seq<Symbol>,
    onStack: set<Symbol>,
    work: seq<Frame>,
    found: seq<seq<Symbol>>,
    seen: set<Call>)

  // ---------------------------------------------------------------- the invariant

  ghost predicate Numbered(g: Graph, s: Search, counter: nat) {
    && s.index.Keys == s.low.Keys
    && s.index.Keys <= Universe(g)
    && s.onStack <= s.index.Keys
    && (forall v :: v in s.index ==> s.index[v] < counter)
  }

  ghost predicate Stacked(s: Search) {
    && (forall i :: 0 <= i < |s.stack| ==> s.stack[i] in s.onStack && s.stack[i] in s.index)
    && (forall v :: v in s.onStack ==> v in s.stack)
    && (forall i, j :: 0 <= i < j < |s.stack| ==> s.index[s.stack[i]] < s.index[s.stack[j]])
  }

  ghost predicate Framed(s: Search) {
    && (forall k :: 0 <= k < |s.work| ==> s.work[k].node in s.onStack && s.work[k].node in s.index)
    && (forall i, j :: 0 <= i < j < |s.work| ==> s.index[s.work[i].node] < s.index[s.work[j].node])
    && (s.work == [] <==> s.stack == [])
    && (s.work != [] ==> s.stack[0] == s.work[0].node)
  }

  ghost predicate Active(s: Search, v: Symbol) {
    exists k :: 0 <= k < |s.work| && s.work[k].node == v
  }

  /** Every call is looked at, or waits in its caller's frame. */
  ghost predicate CallsTracked(g: Graph, s: Search) {
    && (forall k, z :: 0 <= k < |s.work| && z in Callees(g, s.work[k].node) ==>
          z in s.work[k].pending || Call(s.work[k].node, z) in s.seen)
    && (forall k, z :: 0 <= k < |s.work| && z in s.work[k].pending ==> z in Callees(g, s.work[k].node))
    && (forall v, z :: v in s.index && z in Callees(g, v) && !Active(s, v) ==> Call(v, z) in s.seen)
  }

  ghost predicate SeenAreIndexed(s: Search) {
    forall c :: c in s.seen ==> c.caller in s.index && c.callee in s.index
  }

  /** What left the stack; it calls only what left the stack. */
  ghost function Removed(s: Search): set<Symbol> {
    s.index.Keys - s.onStack
  }

  /** `x` is on the stack from frame `k`'s vertex up, below the next frame's. */
  ghost predicate InSegment(s: Search, k: int, x: Symbol) {
    && 0 <= k < |s.work|
    && x in s.onStack && x in s.index && s.work[k].node in s.index
    && s.index[s.work[k].node] <= s.index[x]
    && (k + 1 < |s.work| ==> s.work[k + 1].node in s.index && s.index[x] < s.index[s.work[k + 1].node])
  }

  ghost predicate FramesChain(g: Graph, s: Search) {
    forall i, j :: 0 <= i <= j < |s.work| ==> Reaches(g, s.work[i].node, s.work[j].node)
  }

  ghost predicate SegmentsMutual(g: Graph, s: Search) {
    forall k, x :: InSegment(s, k, x) ==> Mutual(g, s.work[k].node, x)
  }

  /** `z` shows what `v`'s low-link names. */
  ghost predicate Witness(g: Graph, s: Search, v: Symbol, z: Symbol) {
    && v in s.low && z in s.onStack && z in s.index
    && s.index[z] == s.low[v]
    && Reaches(g, v, z)
  }

  ghost predicate LowReached(g: Graph, s: Search) {
    forall k :: 0 <= k < |s.work| ==> LowOk(g, s, s.work[k].node)
  }

  ghost predicate LowOk(g: Graph, s: Search, v: Symbol) {
    && v in s.low && v in s.index
    && s.low[v] <= s.index[v]
    && exists z :: Witness(g, s, v, z)
  }

  ghost predicate LowBounds(s: Search) {
    forall k, c ::
      && c in s.seen && InSegment(s, k, c.caller) && c.callee in s.onStack && c.callee in s.index
      && s.work[k].node in s.low
      ==> s.low[s.work[k].node] <= s.index[c.callee]
  }

  ghost predicate Listed(found: seq<seq<Symbol>>, v: Symbol) {
    exists i :: 0 <= i < |found| && v in found[i]
  }

  /** The components listed are exactly the cyclic ones among what left the stack. */
  ghost predicate FoundExact(g: Graph, found: seq<seq<Symbol>>, removed: set<Symbol>) {
    && (forall i :: 0 <= i < |found| ==> IsComponent(g, found[i]) && OnCycle(g, found[i][0]))
    && (forall i, v :: 0 <= i < |found| && v in found[i] ==> v in removed)
    && (forall i, j, v :: 0 <= i < j < |found| && v in found[i] ==> v !in found[j])
    && (forall v :: v in removed && OnCycle(g, v) ==> Listed(found, v))
  }

  ghost predicate Invariant(g: Graph, s: Search, counter: nat) {
    && Numbered(g, s, counter)
    && Stacked(s)
    && Framed(s)
    && CallsTracked(g, s)
    && SeenAreIndexed(s)
    && ClosedUnderCalls(g, Removed(s))
    && FramesChain(g, s)
    && SegmentsMutual(g, s)
    && LowReached(g, s)
    && LowBounds(s)
    && FoundExact(g, s.found, Removed(s))
  }

  function Min(a: nat, b: nat): nat {
    if b < a then b else a
  }

  // ---------------------------------------------------------------- entering a vertex

  /** A vertex met for the first time: numbered, stacked, and given a frame. */
  ghost function Entered(s: Search, v: Symbol, callees: seq<Symbol>, counter: nat): Search {
    s.(index := s.index[v := counter], low := s.low[v := counter],
       stack := s.stack + [v], onStack := s.onStack + {v}, work := s.work + [Frame(v, callees)])
  }

  /** The callee `v` taken off the top frame's pending ones, and its call looked at. */
  ghost function Taken(s: Search, pending: seq<Symbol>, v: Symbol): Search
    requires s.work != []
  {
    var top := |s.work| - 1;
    s.(work := s.work[top := s.work[top].(pending := pending)], seen := s.seen + {Call(s.work[top].node, v)})
  }

  /** Everything the invariant says short of the calls' bookkeeping survives an entry below which
      the frames lead to the entered vertex. */
  lemma EnterVertex(g: Graph, s: Search, v: Symbol, callees: seq<Symbol>, counter: nat)
    requires Numbered(g, s, counter) && Stacked(s) && Framed(s) && CallsTracked(g, s)
    requires ClosedUnderCalls(g, Removed(s)) && FramesChain(g, s) && SegmentsMutual(g, s)
    requires LowReached(g, s) && LowBounds(s) && FoundExact(g, s.found, Removed(s))
    requires v in Universe(g) && v !in s.index
    requires forall c :: c in s.seen ==> c.caller in s.index && (c.callee in s.index || c.callee == v)
    requires forall z :: z in callees <==> z in Callees(g, v)
    requires s.work != [] ==> Reaches(g, s.work[|s.work| - 1].node, v)
    ensures Invariant(g, Entered(s, v, callees, counter), counter + 1)
  {
    EnterShape(g, s, v, callees, counter);
    EnterCalls(g, s, v, callees, counter);
    EnterReach(g, s, v, callees, counter);
    EnterLow(g, s, v, callees, counter);
    EnterFound(g, s, v, callees, counter);
  }

  lemma EnterShape(g: Graph, s: Search, v: Symbol, callees: seq<Symbol>, counter: nat)
    requires Numbered(g, s, counter) && Stacked(s) && Framed(s) && v in Universe(g) && v !in s.index
    ensures var t := Entered(s, v, callees, counter);
      Numbered(g, t, counter + 1) && Stacked(t) && Framed(t)
  {
    EnterStack(g, s, v, callees, counter);
    EnterFrames(g, s, v, callees, counter);
  }

  lemma EnterStack(g: Graph, s: Search, v: Symbol, callees: seq<Symbol>, counter: nat)
    requires Numbered(g, s, counter) && Stacked(s) && v in Universe(g) && v !in s.index
    ensures var t := Entered(s, v, callees, counter); Numbered(g, t, counter + 1) && Stacked(t)
  {
    var t := Entered(s, v, callees, counter);
    var n := |s.stack|;
    assert t.stack[n] == v;
    forall x | x in t.onStack ensures x in t.stack {
      if x != v {
        var i :| 0 <= i < n && s.stack[i] == x;
        assert t.stack[i] == x;
      }
    }
    forall i, j | 0 <= i < j < |t.stack|
      ensures t.index[t.stack[i]] < t.index[t.stack[j]]
    {
      assert t.stack[i] == s.stack[i];
      if j < n { assert t.stack[j] == s.stack[j]; }
    }
  }

  lemma EnterFrames(g: Graph, s: Search, v: Symbol, callees: seq<Symbol>, counter: nat)
    requires Numbered(g, s, counter) && Framed(s) && v !in s.index
    ensures Framed(Entered(s, v, callees, counter))
  {
    var t := Entered(s, v, callees, counter);
    var n := |s.work|;
    assert forall k :: 0 <= k < n ==> t.work[k] == s.work[k] && t.index[t.work[k].node] == s.index[s.work[k].node];
    assert t.work[n].node == v;
  }

  lemma EnterCalls(g: Graph, s: Search, v: Symbol, callees: seq<Symbol>, counter: nat)
    requires CallsTracked(g, s) && v !in s.index
    requires forall c :: c in s.seen ==> c.caller in s.index && (c.callee in s.index || c.callee == v)
    requires forall z :: z in callees <==> z in Callees(g, v)
    ensures var t := Entered(s, v, callees, counter); CallsTracked(g, t) && SeenAreIndexed(t)
  {
    var t := Entered(s, v, callees, counter);
    var n := |s.work|;
    assert t.work[n].node == v;
    forall x | Active(s, x)
      ensures Active(t, x)
    {
      var k :| 0 <= k < n && s.work[k].node == x;
      assert t.work[k].node == x;
    }
    assert Active(t, v);
    forall x, z | x in t.index && z in Callees(g, x) && !Active(t, x)
      ensures Call(x, z) in t.seen
    {
    }
  }

  lemma EnterSegments(g: Graph, s: Search, v: Symbol, callees: seq<Symbol>, counter: nat, k: int, x: Symbol)
    requires Numbered(g, s, counter) && Framed(s) && v !in s.index
    requires InSegment(Entered(s, v, callees, counter), k, x)
    ensures if k == |s.work| then x == v else InSegment(s, k, x)
  {
    var t := Entered(s, v, callees, counter);
    if k < |s.work| {
      assert t.work[k + 1].node == if k + 1 < |s.work| then s.work[k + 1].node else v;
    }
  }

  lemma EnterReach(g: Graph, s: Search, v: Symbol, callees: seq<Symbol>, counter: nat)
    requires Numbered(g, s, counter) && Framed(s) && v !in s.index
    requires FramesChain(g, s) && SegmentsMutual(g, s)
    requires s.work != [] ==> Reaches(g, s.work[|s.work| - 1].node, v)
    ensures var t := Entered(s, v, callees, counter); FramesChain(g, t) && SegmentsMutual(g, t)
  {
    var t := Entered(s, v, callees, counter);
    var n := |s.work|;
    ReachesSelf(g, v);
    forall i, j | 0 <= i <= j < |t.work|
      ensures Reaches(g, t.work[i].node, t.work[j].node)
    {
      if i < n && j == n {
        ReachesTrans(g, s.work[i].node, s.work[n - 1].node, v);
      }
    }
    forall k, x | InSegment(t, k, x)
      ensures Mutual(g, t.work[k].node, x)
    {
      EnterSegments(g, s, v, callees, counter, k, x);
    }
  }

  lemma EnterLow(g: Graph, s: Search, v: Symbol, callees: seq<Symbol>, counter: nat)
    requires Numbered(g, s, counter) && Framed(s) && v !in s.index
    requires LowReached(g, s) && LowBounds(s)
    requires forall c :: c in s.seen ==> c.caller in s.index && (c.callee in s.index || c.callee == v)
    ensures var t := Entered(s, v, callees, counter); LowReached(g, t) && LowBounds(t)
  {
    var t := Entered(s, v, callees, counter);
    var n := |s.work|;
    ReachesSelf(g, v);
    assert Witness(g, t, v, v);
    forall k | 0 <= k < |t.work|
      ensures LowOk(g, t, t.work[k].node)
    {
      if k < n {
        assert LowOk(g, s, s.work[k].node);
        var z :| Witness(g, s, s.work[k].node, z);
        assert Witness(g, t, t.work[k].node, z);
      }
    }
    forall k, c |
      && c in t.seen && InSegment(t, k, c.caller) && c.callee in t.onStack && c.callee in t.index
      && t.work[k].node in t.low
      ensures t.low[t.work[k].node] <= t.index[c.callee]
    {
      EnterSegments(g, s, v, callees, counter, k, c.caller);
      if k < n {
        assert LowOk(g, s, s.work[k].node);
      }
    }
  }

  lemma EnterFound(g: Graph, s: Search, v: Symbol, callees: seq<Symbol>, counter: nat)
    requires ClosedUnderCalls(g, Removed(s)) && FoundExact(g, s.found, Removed(s)) && v !in s.index
    ensures var t := Entered(s, v, callees, counter);
      ClosedUnderCalls(g, Removed(t)) && FoundExact(g, t.found, Removed(t))
  {
    assert Removed(Entered(s, v, callees, counter)) == Removed(s);
  }

  /** A root: both stacks are empty. */
  lemma EnterRoot(g: Graph, s: Search, v: Symbol, callees: seq<Symbol>, counter: nat)
    requires Invariant(g, s, counter) && s.work == [] && v in g && v !in s.index
    requires Lists(callees, Callees(g, v))
    ensures Invariant(g, Entered(s, v, callees, counter), counter + 1)
  {
    EnterVertex(g, s, v, callees, counter);
  }

  // ---------------------------------------------------------------- looking at a call

  lemma TakeCall(g: Graph, s: Search, pending: seq<Symbol>, v: Symbol, counter: nat)
    requires Numbered(g, s, counter) && Stacked(s) && Framed(s) && CallsTracked(g, s)
    requires s.work != [] && s.work[|s.work| - 1].pending == pending + [v]
    ensures var t := Taken(s, pending, v);
      && Numbered(g, t, counter) && Stacked(t) && Framed(t) && CallsTracked(g, t)
      && v in Callees(g, s.work[|s.work| - 1].node)
      && forall k, x :: InSegment(t, k, x) ==> InSegment(s, k, x)
  {
    TakeCalls(g, s, pending, v);
    TakeShape(g, s, pending, v, counter);
  }

  lemma TakeShape(g: Graph, s: Search, pending: seq<Symbol>, v: Symbol, counter: nat)
    requires Numbered(g, s, counter) && Stacked(s) && Framed(s) && s.work != []
    ensures var t := Taken(s, pending, v);
      && Numbered(g, t, counter) && Stacked(t) && Framed(t)
      && forall k, x :: InSegment(t, k, x) ==> InSegment(s, k, x)
  {
    var t := Taken(s, pending, v);
    assert forall k :: 0 <= k < |s.work| ==> t.work[k].node == s.work[k].node;
  }

  lemma TakeCalls(g: Graph, s: Search, pending: seq<Symbol>, v: Symbol)
    requires CallsTracked(g, s)
    requires s.work != [] && s.work[|s.work| - 1].pending == pending + [v]
    ensures CallsTracked(g, Taken(s, pending, v)) && v in Callees(g, s.work[|s.work| - 1].node)
  {
    var t := Taken(s, pending, v);
    var n := |s.work|;
    assert s.work[n - 1].pending[|pending|] == v;
    assert v in Callees(g, s.work[n - 1].node);
    forall k | 0 <= k < n
      ensures t.work[k].node == s.work[k].node
      ensures forall z :: z in t.work[k].pending ==> z in s.work[k].pending
      ensures forall z :: z in s.work[k].pending ==> z in t.work[k].pending || (k == n - 1 && z == v)
    {
    }
    forall x | Active(s, x) ensures Active(t, x) {
      var k :| 0 <= k < n && s.work[k].node == x;
      assert t.work[k].node == x;
    }
  }

  lemma TakenKeeps(g: Graph, s: Search, pending: seq<Symbol>, v: Symbol)
    requires s.work != []
    requires FramesChain(g, s) && SegmentsMutual(g, s)
    requires forall k, x :: InSegment(Taken(s, pending, v), k, x) ==> InSegment(s, k, x)
    ensures var t := Taken(s, pending, v); FramesChain(g, t) && SegmentsMutual(g, t)
  {
    var t := Taken(s, pending, v);
    assert forall k :: 0 <= k < |s.work| ==> t.work[k].node == s.work[k].node;
  }

  /** The top frame's low-link lowered to something the call just looked at leads to. */
  ghost function Lowered(s: Search, pending: seq<Symbol>, v: Symbol, low: nat): Search
    requires s.work != []
  {
    Taken(s, pending, v).(low := s.low[s.work[|s.work| - 1].node := low])
  }

  lemma LowerReached(g: Graph, s: Search, pending: seq<Symbol>, v: Symbol, low: nat)
    requires s.work != [] && Framed(s) && LowReached(g, s)
    requires v in Callees(g, s.work[|s.work| - 1].node)
    requires low == s.low[s.work[|s.work| - 1].node] || (v in s.onStack && v in s.index && low == s.index[v])
    requires low <= s.index[s.work[|s.work| - 1].node]
    ensures LowReached(g, Lowered(s, pending, v, low))
  {
    var t := Lowered(s, pending, v, low);
    var n := |s.work|;
    var node := s.work[n - 1].node;
    ReachesCallee(g, node, v);
    forall k | 0 <= k < n
      ensures LowOk(g, t, t.work[k].node)
    {
      assert t.work[k].node == s.work[k].node;
      assert LowOk(g, s, s.work[k].node);
      if k == n - 1 && low != s.low[node] {
        assert Witness(g, t, node, v);
      } else {
        var z :| Witness(g, s, s.work[k].node, z);
        assert Witness(g, t, t.work[k].node, z);
      }
    }
  }

  lemma LowerBounds(g: Graph, s: Search, pending: seq<Symbol>, v: Symbol, low: nat, counter: nat)
    requires s.work != [] && Numbered(g, s, counter) && Framed(s) && LowBounds(s)
    requires low <= s.low[s.work[|s.work| - 1].node]
    requires v in s.onStack ==> low <= s.index[v]
    ensures LowBounds(Lowered(s, pending, v, low))
  {
    var t := Lowered(s, pending, v, low);
    var n := |s.work|;
    assert forall k :: 0 <= k < n ==> t.work[k].node == s.work[k].node;
    forall k, c |
      && c in t.seen && InSegment(t, k, c.caller) && c.callee in t.onStack && c.callee in t.index
      && t.work[k].node in t.low
      ensures t.low[t.work[k].node] <= t.index[c.callee]
    {
      assert InSegment(s, k, c.caller);
      if c !in s.seen {
        assert c.caller == s.work[n - 1].node && k == n - 1;
      } else {
        assert s.low[s.work[k].node] <= s.index[c.callee];
      }
    }
  }

  /** A callee met for the first time. */
  lemma EnterCallee(g: Graph, s: Search, pending: seq<Symbol>, v: Symbol, callees: seq<Symbol>, counter: nat)
    requires Invariant(g, s, counter) && v !in s.index
    requires s.work != [] && s.work[|s.work| - 1].pending == pending + [v]
    requires forall z :: z in callees <==> z in Callees(g, v)
    ensures Invariant(g, Entered(Taken(s, pending, v), v, callees, counter), counter + 1)
  {
    var node := s.work[|s.work| - 1].node;
    var t := Taken(s, pending, v);
    TakeCall(g, s, pending, v, counter);
    CalleesInUniverse(g, node);
    ReachesCallee(g, node, v);
    TakenKeeps(g, s, pending, v);
    LowerReached(g, s, pending, v, s.low[node]);
    LowerBounds(g, s, pending, v, s.low[node], counter);
    assert Lowered(s, pending, v, s.low[node]) == t;
    EnterVertex(g, t, v, callees, counter);
  }

  /** A callee met before: the caller's low-link is lowered to its number while it is on the stack. */
  lemma LookAgain(g: Graph, s: Search, pending: seq<Symbol>, v: Symbol, low: nat, counter: nat)
    requires Invariant(g, s, counter) && v in s.index
    requires s.work != [] && s.work[|s.work| - 1].pending == pending + [v]
    requires low ==
      if v in s.onStack then Min(s.low[s.work[|s.work| - 1].node], s.index[v]) else s.low[s.work[|s.work| - 1].node]
    ensures Invariant(g, Lowered(s, pending, v, low), counter)
  {
    var node := s.work[|s.work| - 1].node;
    assert LowOk(g, s, node);
    TakeCall(g, s, pending, v, counter);
    TakenKeeps(g, s, pending, v);
    LowerReached(g, s, pending, v, low);
    LowerBounds(g, s, pending, v, low, counter);
    LoweredShape(g, s, pending, v, low, counter);
  }

  lemma LoweredShape(g: Graph, s: Search, pending: seq<Symbol>, v: Symbol, low: nat, counter: nat)
    requires s.work != [] && Numbered(g, s, counter) && Framed(s) && v in s.index && SeenAreIndexed(s)
    requires var t := Taken(s, pending, v);
      && Numbered(g, t, counter) && Stacked(t) && Framed(t) && CallsTracked(g, t)
      && FramesChain(g, t) && SegmentsMutual(g, t)
    ensures var t := Lowered(s, pending, v, low);
      && Numbered(g, t, counter) && Stacked(t) && Framed(t) && CallsTracked(g, t) && FramesChain(g, t)
      && SegmentsMutual(g, t) && SeenAreIndexed(t)
  {
    var m := Taken(s, pending, v);
    var t := Lowered(s, pending, v, low);
    forall k, x | InSegment(t, k, x) ensures Mutual(g, t.work[k].node, x) {
      assert InSegment(m, k, x);
    }
    forall x | Active(m, x) ensures Active(t, x) {
      var k :| 0 <= k < |m.work| && m.work[k].node == x;
      assert t.work[k].node == x;
    }
  }

  // ---------------------------------------------------------------- finishing a vertex

  /** Every vertex on the stack lies in some frame's segment. */
  lemma FindSegment(s: Search, x: Symbol, top: nat) returns (k: nat)
    requires Stacked(s) && Framed(s) && x in s.onStack
    requires top < |s.work| && (top + 1 < |s.work| ==> s.index[x] < s.index[s.work[top + 1].node])
    ensures k <= top && InSegment(s, k, x)
  {
    k := top;
    var i :| 0 <= i < |s.stack| && s.stack[i] == x;
    while s.index[x] < s.index[s.work[k].node]
      invariant k <= top && (k + 1 < |s.work| ==> s.index[x] < s.index[s.work[k + 1].node])
    {
      assert s.work[0].node == s.stack[0];
      k := k - 1;
    }
  }

  /** The top frame done: its vertex's low-link is passed on to the frame below. */
  ghost function PassedOn(s: Search): map<Symbol, nat>
    requires s.work != []
  {
    var n := |s.work|;
    if n > 1 && s.work[n - 2].node in s.low && s.work[n - 1].node in s.low
    then s.low[s.work[n - 2].node := Min(s.low[s.work[n - 2].node], s.low[s.work[n - 1].node])]
    else s.low
  }

  ghost function Merged(s: Search): Search
    requires s.work != []
  {
    s.(work := s.work[..|s.work| - 1], low := PassedOn(s))
  }

  lemma MergedFields(s: Search)
    requires s.work != []
    ensures Merged(s) == s.(work := s.work[..|s.work| - 1], low := PassedOn(s))
  {
  }

  /** A vertex that reaches below itself joins its caller's segment. */
  lemma FinishMember(g: Graph, s: Search, counter: nat)
    requires Invariant(g, s, counter) && s.work != [] && s.work[|s.work| - 1].pending == []
    requires s.low[s.work[|s.work| - 1].node] < s.index[s.work[|s.work| - 1].node]
    ensures Invariant(g, Merged(s), counter)
  {
    LowNeedsCaller(g, s);
    TopMeetsCaller(g, s, counter);
    MergeShape(g, s, counter);
    MergeCalls(g, s, counter);
    MergeSegments(g, s, counter);
    MergeLow(g, s, counter);
  }

  lemma LowNeedsCaller(g: Graph, s: Search)
    requires Stacked(s) && Framed(s) && LowReached(g, s) && s.work != []
    requires LowOk(g, s, s.work[|s.work| - 1].node)
    requires s.low[s.work[|s.work| - 1].node] < s.index[s.work[|s.work| - 1].node]
    ensures |s.work| > 1
  {
    var z :| Witness(g, s, s.work[|s.work| - 1].node, z);
    var i :| 0 <= i < |s.stack| && s.stack[i] == z;
    assert s.stack[0] == s.work[0].node;
  }

  lemma TopMeetsCaller(g: Graph, s: Search, counter: nat)
    requires Numbered(g, s, counter) && Stacked(s) && Framed(s) && |s.work| > 1
    requires FramesChain(g, s) && SegmentsMutual(g, s)
    requires LowOk(g, s, s.work[|s.work| - 1].node)
    requires s.low[s.work[|s.work| - 1].node] < s.index[s.work[|s.work| - 1].node]
    ensures Mutual(g, s.work[|s.work| - 2].node, s.work[|s.work| - 1].node)
  {
    var n := |s.work|;
    var node := s.work[n - 1].node;
    var z :| Witness(g, s, node, z);
    var k := FindSegment(s, z, n - 2);
    assert Mutual(g, s.work[k].node, z);
    ReachesTrans(g, node, z, s.work[k].node);
    ReachesTrans(g, node, s.work[k].node, s.work[n - 2].node);
  }

  lemma MergeShape(g: Graph, s: Search, counter: nat)
    requires Numbered(g, s, counter) && Stacked(s) && Framed(s) && FramesChain(g, s) && |s.work| > 1
    ensures var t := Merged(s); Numbered(g, t, counter) && Stacked(t) && Framed(t) && FramesChain(g, t)
  {
  }

  lemma MergeCalls(g: Graph, s: Search, counter: nat)
    requires Framed(s) && CallsTracked(g, s) && SeenAreIndexed(s)
    requires s.work != [] && s.work[|s.work| - 1].pending == []
    ensures var t := Merged(s); CallsTracked(g, t) && SeenAreIndexed(t)
  {
    var t := Merged(s);
    var n := |s.work|;
    forall x, z | x in t.index && z in Callees(g, x) && !Active(t, x)
      ensures Call(x, z) in t.seen
    {
      if x == s.work[n - 1].node {
        assert z !in s.work[n - 1].pending;
      } else {
        ActiveBelowTop(s, x);
      }
    }
  }

  lemma ActiveBelowTop(s: Search, x: Symbol)
    requires s.work != [] && x != s.work[|s.work| - 1].node
    ensures Active(s, x) ==> Active(Merged(s), x)
  {
    if Active(s, x) {
      var k :| 0 <= k < |s.work| && s.work[k].node == x;
      assert Merged(s).work[k].node == x;
    }
  }

  lemma MergedSegment(g: Graph, s: Search, counter: nat, k: int, x: Symbol)
    requires Framed(s) && |s.work| > 1 && InSegment(Merged(s), k, x)
    ensures InSegment(s, k, x) || (k == |s.work| - 2 && InSegment(s, k + 1, x))
  {
    var t := Merged(s);
    assert t.work[k] == s.work[k];
    if k + 1 < |t.work| { assert t.work[k + 1] == s.work[k + 1]; }
  }

  lemma MergeSegments(g: Graph, s: Search, counter: nat)
    requires Framed(s) && SegmentsMutual(g, s) && |s.work| > 1
    requires Mutual(g, s.work[|s.work| - 2].node, s.work[|s.work| - 1].node)
    ensures SegmentsMutual(g, Merged(s))
  {
    var t := Merged(s);
    var n := |s.work|;
    forall k, x | InSegment(t, k, x)
      ensures Mutual(g, t.work[k].node, x)
    {
      MergedSegment(g, s, counter, k, x);
      if !InSegment(s, k, x) {
        MutualTrans(g, s.work[n - 2].node, s.work[n - 1].node, x);
      }
    }
  }

  lemma MergeLow(g: Graph, s: Search, counter: nat)
    requires Numbered(g, s, counter) && Framed(s) && FramesChain(g, s) && LowReached(g, s) && LowBounds(s)
    requires |s.work| > 1
    ensures LowReached(g, Merged(s)) && LowBounds(Merged(s))
  {
    var t := Merged(s);
    var n := |s.work|;
    var node, parent := s.work[n - 1].node, s.work[n - 2].node;
    forall k | 0 <= k < n - 1
      ensures LowOk(g, t, t.work[k].node)
      ensures t.low[t.work[k].node] <= s.low[s.work[k].node]
    {
      assert t.work[k] == s.work[k];
      assert LowOk(g, s, s.work[k].node);
      assert LowOk(g, s, node);
      if k == n - 2 && s.low[node] < s.low[parent] {
        var z :| Witness(g, s, node, z);
        ReachesTrans(g, parent, node, z);
        assert Witness(g, t, parent, z);
      } else {
        var z :| Witness(g, s, s.work[k].node, z);
        assert Witness(g, t, t.work[k].node, z);
      }
    }
    forall k, c |
      && c in t.seen && InSegment(t, k, c.caller) && c.callee in t.onStack && c.callee in t.index
      && t.work[k].node in t.low
      ensures t.low[t.work[k].node] <= t.index[c.callee]
    {
      MergedSegment(g, s, counter, k, c.caller);
    }
  }

  // ---------------------------------------------------------------- taking a component off the stack

  /** The vertices the top frame's vertex leaves with when it is a component's root. */
  ghost function Top(s: Search): set<Symbol>
    requires s.work != []
  {
    set x | x in s.onStack && InSegment(s, |s.work| - 1, x)
  }

  lemma TopCallsTracked(g: Graph, s: Search, y: Symbol, z: Symbol)
    requires Framed(s) && CallsTracked(g, s) && s.work != [] && s.work[|s.work| - 1].pending == []
    requires y in Top(s) && z in Callees(g, y)
    ensures Call(y, z) in s.seen
  {
    var n := |s.work|;
    if Active(s, y) {
      var k :| 0 <= k < n && s.work[k].node == y;
      assert k == n - 1;
      assert z !in s.work[n - 1].pending;
    }
  }

  lemma TopClosed(g: Graph, s: Search)
    requires Framed(s) && CallsTracked(g, s) && SeenAreIndexed(s) && ClosedUnderCalls(g, Removed(s)) && LowBounds(s)
    requires s.work != [] && s.work[|s.work| - 1].pending == [] && s.work[|s.work| - 1].node in s.low
    requires s.low[s.work[|s.work| - 1].node] == s.index[s.work[|s.work| - 1].node]
    ensures ClosedUnderCalls(g, Top(s) + Removed(s))
  {
    var n := |s.work|;
    forall y, z | y in Top(s) + Removed(s) && z in Callees(g, y)
      ensures z in Top(s) + Removed(s)
    {
      if y in Top(s) {
        TopCallsTracked(g, s, y, z);
        var c := Call(y, z);
        assert InSegment(s, n - 1, c.caller);
        if z in s.onStack {
          assert s.low[s.work[n - 1].node] <= s.index[c.callee];
          assert InSegment(s, n - 1, z);
        }
      }
    }
  }

  /** The vertices above a root are exactly its strongly connected component. */
  lemma TopIsComponent(g: Graph, s: Search, w: Symbol)
    requires Framed(s) && SegmentsMutual(g, s) && s.work != []
    requires ClosedUnderCalls(g, Top(s) + Removed(s)) && ClosedUnderCalls(g, Removed(s))
    ensures w in Top(s) <==> Mutual(g, s.work[|s.work| - 1].node, w)
  {
    var node := s.work[|s.work| - 1].node;
    assert InSegment(s, |s.work| - 1, node);
    if Mutual(g, node, w) {
      ClosedHoldsReached(g, Top(s) + Removed(s), node, w);
      if w in Removed(s) {
        ClosedHoldsReached(g, Removed(s), w, node);
      }
    }
  }

  ghost predicate Lists(c: seq<Symbol>, m: set<Symbol>) {
    && (forall x :: x in c <==> x in m)
    && (forall i, j :: 0 <= i < j < |c| ==> c[i] != c[j])
  }

  lemma ListedTopIsComponent(g: Graph, s: Search, c: seq<Symbol>)
    requires Framed(s) && SegmentsMutual(g, s) && s.work != [] && Lists(c, Top(s))
    requires ClosedUnderCalls(g, Top(s) + Removed(s)) && ClosedUnderCalls(g, Removed(s))
    ensures IsComponent(g, c)
  {
    var node := s.work[|s.work| - 1].node;
    assert InSegment(s, |s.work| - 1, node);
    assert node in c;
    forall v, w | v in c
      ensures w in c <==> Mutual(g, v, w)
    {
      TopIsComponent(g, s, v);
      TopIsComponent(g, s, w);
      if Mutual(g, v, w) { MutualTrans(g, node, v, w); }
      if w in c { MutualTrans(g, v, node, w); }
    }
  }

  ghost function Extended(g: Graph, found: seq<seq<Symbol>>, c: seq<Symbol>, node: Symbol): seq<seq<Symbol>> {
    if |c| > 1 || node in Callees(g, node) then found + [c] else found
  }

  lemma ExtendFound(g: Graph, found: seq<seq<Symbol>>, removed: set<Symbol>, c: seq<Symbol>, m: set<Symbol>,
                    node: Symbol)
    requires FoundExact(g, found, removed) && IsComponent(g, c) && Lists(c, m) && m !! removed && node in c
    ensures FoundExact(g, Extended(g, found, c, node), removed + m)
  {
    hide OnCycle, Mutual;
    var after := Extended(g, found, c, node);
    CycleIffComponentCyclic(g, c, node);
    CycleIffComponentCyclic(g, c, c[0]);
    forall v | v in removed + m && OnCycle(g, v)
      ensures Listed(after, v)
    {
      if v in m {
        CycleIffComponentCyclic(g, c, v);
        assert |c| == 1 ==> v == c[0] && node == c[0];
        assert after[|found|] == c;
      } else {
        var i :| 0 <= i < |found| && v in found[i];
        assert v in after[i];
      }
    }
  }

  ghost function Cut(g: Graph, s: Search, pos: nat, c: seq<Symbol>): Search
    requires s.work != [] && pos <= |s.stack|
  {
    s.(work := s.work[..|s.work| - 1], low := PassedOn(s), stack := s.stack[..pos], onStack := s.onStack - Top(s),
       found := Extended(g, s.found, c, s.work[|s.work| - 1].node))
  }

  /** A vertex that reaches nothing below itself leaves with everything above it, as one component. */
  lemma FinishRoot(g: Graph, s: Search, pos: nat, c: seq<Symbol>, counter: nat)
    requires Invariant(g, s, counter) && s.work != [] && s.work[|s.work| - 1].pending == []
    requires s.low[s.work[|s.work| - 1].node] == s.index[s.work[|s.work| - 1].node]
    requires pos < |s.stack| && s.stack[pos] == s.work[|s.work| - 1].node && Lists(c, Top(s))
    ensures Invariant(g, Cut(g, s, pos, c), counter)
  {
    var t := Cut(g, s, pos, c);
    var node := s.work[|s.work| - 1].node;
    TopClosed(g, s);
    ListedTopIsComponent(g, s, c);
    assert InSegment(s, |s.work| - 1, node);
    ExtendFound(g, s.found, Removed(s), c, Top(s), node);
    assert Removed(t) == Removed(s) + Top(s);
    MergeCalls(g, s, counter);
    CutShape(g, s, pos, c, counter);
    CutSegments(g, s, pos, c, counter);
    CutLow(g, s, pos, c, counter);
    CutCalls(g, s, pos, c);
  }

  lemma CutCalls(g: Graph, s: Search, pos: nat, c: seq<Symbol>)
    requires s.work != [] && pos <= |s.stack|
    requires CallsTracked(g, Merged(s)) && SeenAreIndexed(Merged(s))
    ensures var t := Cut(g, s, pos, c); CallsTracked(g, t) && SeenAreIndexed(t)
  {
    var m := Merged(s);
    var t := Cut(g, s, pos, c);
    forall x | Active(m, x) ensures Active(t, x) {
      var k :| 0 <= k < |m.work| && m.work[k].node == x;
      assert t.work[k].node == x;
    }
  }

  lemma CutShape(g: Graph, s: Search, pos: nat, c: seq<Symbol>, counter: nat)
    requires Numbered(g, s, counter) && Stacked(s) && Framed(s) && s.work != []
    requires pos < |s.stack| && s.stack[pos] == s.work[|s.work| - 1].node
    ensures var t := Cut(g, s, pos, c); Numbered(g, t, counter) && Stacked(t) && Framed(t)
  {
    forall i | 0 <= i < |s.stack|
      ensures s.stack[i] in Top(s) <==> i >= pos
    {
      AboveRoot(s, pos, i);
    }
    CutStack(g, s, pos, c, counter);
    CutFrames(g, s, pos, c);
  }

  lemma AboveRoot(s: Search, pos: nat, i: nat)
    requires Stacked(s) && Framed(s) && s.work != []
    requires pos < |s.stack| && s.stack[pos] == s.work[|s.work| - 1].node && i < |s.stack|
    ensures s.stack[i] in Top(s) <==> i >= pos
  {
    assert InSegment(s, |s.work| - 1, s.stack[i]) <==> s.index[s.stack[pos]] <= s.index[s.stack[i]];
  }

  lemma CutStack(g: Graph, s: Search, pos: nat, c: seq<Symbol>, counter: nat)
    requires Numbered(g, s, counter) && Stacked(s) && s.work != [] && pos < |s.stack|
    requires forall i :: 0 <= i < |s.stack| ==> (s.stack[i] in Top(s) <==> i >= pos)
    ensures var t := Cut(g, s, pos, c); Numbered(g, t, counter) && Stacked(t)
  {
    var t := Cut(g, s, pos, c);
    forall v | v in t.onStack
      ensures v in t.stack
    {
      var i :| 0 <= i < |s.stack| && s.stack[i] == v;
      assert t.stack[i] == v;
    }
  }

  lemma CutFrames(g: Graph, s: Search, pos: nat, c: seq<Symbol>)
    requires Framed(s) && s.work != [] && pos < |s.stack| && s.stack[pos] == s.work[|s.work| - 1].node
    requires forall i :: 0 <= i < |s.stack| ==> (s.stack[i] in Top(s) <==> i >= pos)
    ensures Framed(Cut(g, s, pos, c))
  {
    var t := Cut(g, s, pos, c);
    var n := |s.work|;
    forall k | 0 <= k < n - 1
      ensures t.work[k] == s.work[k] && t.work[k].node in t.onStack
    {
      assert !InSegment(s, n - 1, s.work[k].node);
    }
    if n == 1 {
      assert s.stack[0] in Top(s) by { assert InSegment(s, 0, s.stack[0]); }
    } else {
      assert !InSegment(s, n - 1, s.stack[0]);
      assert pos > 0 && t.stack[0] == s.stack[0];
    }
  }

  lemma CutSegment(g: Graph, s: Search, pos: nat, c: seq<Symbol>, k: int, x: Symbol)
    requires Framed(s) && s.work != [] && pos <= |s.stack| && InSegment(Cut(g, s, pos, c), k, x)
    ensures InSegment(s, k, x)
  {
    var t := Cut(g, s, pos, c);
    assert t.work[k] == s.work[k];
    assert !InSegment(s, |s.work| - 1, x);
  }

  lemma CutSegments(g: Graph, s: Search, pos: nat, c: seq<Symbol>, counter: nat)
    requires Framed(s) && SegmentsMutual(g, s) && FramesChain(g, s) && s.work != [] && pos <= |s.stack|
    ensures var t := Cut(g, s, pos, c); SegmentsMutual(g, t) && FramesChain(g, t)
  {
    var t := Cut(g, s, pos, c);
    forall k, x | InSegment(t, k, x)
      ensures Mutual(g, t.work[k].node, x)
    {
      CutSegment(g, s, pos, c, k, x);
    }
  }

  lemma CutLow(g: Graph, s: Search, pos: nat, c: seq<Symbol>, counter: nat)
    requires Framed(s) && LowReached(g, s) && LowBounds(s) && s.work != [] && pos <= |s.stack|
    requires s.work[|s.work| - 1].node in s.low
    requires s.low[s.work[|s.work| - 1].node] == s.index[s.work[|s.work| - 1].node]
    ensures var t := Cut(g, s, pos, c); LowReached(g, t) && LowBounds(t)
  {
    var t := Cut(g, s, pos, c);
    var n := |s.work|;
    if n > 1 {
      assert LowOk(g, s, s.work[n - 2].node);
    }
    assert t.low == s.low;
    forall k | 0 <= k < n - 1
      ensures LowOk(g, t, t.work[k].node)
    {
      assert t.work[k] == s.work[k];
      assert LowOk(g, s, s.work[k].node);
      var z :| Witness(g, s, s.work[k].node, z);
      assert !InSegment(s, n - 1, z);
      assert Witness(g, t, t.work[k].node, z);
    }
    forall k, e |
      && e in t.seen && InSegment(t, k, e.caller) && e.callee in t.onStack && e.callee in t.index
      && t.work[k].node in t.low
      ensures t.low[t.work[k].node] <= t.index[e.callee]
    {
      CutSegment(g, s, pos, c, k, e.caller);
    }
  }

  // ---------------------------------------------------------------- the search

  /** A set's members, each once, in some order: the script sorts them. */
  method Listing(m: set<Symbol>) returns (c: seq<Symbol>)
    ensures Lists(c, m)
  {
    c := [];
    var rest := m;
    while rest != {}
      invariant rest <= m && Lists(c, m - rest)
    {
      var x :| x in rest;
      c := c + [x];
      rest := rest - {x};
    }
  }

  /** Takes vertices off the stack down to `node`, in the order they leave it. */
  method PopThrough(stack: seq<Symbol>, node: Symbol) returns (rest: seq<Symbol>, component: seq<Symbol>)
    requires node in stack && forall i, j :: 0 <= i < j < |stack| ==> stack[i] != stack[j]
    ensures |rest| < |stack| && rest == stack[..|rest|] && stack[|rest|] == node
    ensures |component| == |stack| - |rest|
    ensures forall i :: 0 <= i < |component| ==> component[i] == stack[|stack| - 1 - i]
  {
    rest, component := stack, [];
    while true
      invariant 0 < |rest| <= |stack| && rest == stack[..|rest|] && node in rest
      invariant |component| == |stack| - |rest|
      invariant forall i :: 0 <= i < |component| ==> component[i] == stack[|stack| - 1 - i]
      decreases |rest|
    {
      var member := rest[|rest| - 1];
      rest := rest[..|rest| - 1];
      component := component + [member];
      if member == node {
        break;
      }
    }
  }

  lemma PoppedIsTop(g: Graph, s: Search, counter: nat, rest: seq<Symbol>, component: seq<Symbol>)
    requires Invariant(g, s, counter) && s.work != []
    requires |rest| < |s.stack| && s.stack[|rest|] == s.work[|s.work| - 1].node
    requires |component| == |s.stack| - |rest|
    requires forall i :: 0 <= i < |component| ==> component[i] == s.stack[|s.stack| - 1 - i]
    ensures Lists(component, Top(s))
  {
    hide Numbered, CallsTracked, FramesChain, SegmentsMutual, LowReached, LowBounds, FoundExact, ClosedUnderCalls,
      InSegment;
    var n := |s.stack|;
    forall x | x in component
      ensures x in Top(s)
    {
      var i :| 0 <= i < |component| && component[i] == x;
      AboveRoot(s, |rest|, n - 1 - i);
    }
    forall x | x in Top(s)
      ensures x in component
    {
      var i :| 0 <= i < n && s.stack[i] == x;
      AboveRoot(s, |rest|, i);
      assert component[n - 1 - i] == x;
    }
    forall i, j | 0 <= i < j < |component|
      ensures component[i] != component[j]
    {
      assert s.index[s.stack[n - 1 - j]] < s.index[s.stack[n - 1 - i]];
    }
  }

  lemma StackDistinct(s: Search, i: nat, j: nat)
    requires Stacked(s) && i < j < |s.stack|
    ensures s.stack[i] != s.stack[j]
  {
    assert s.index[s.stack[i]] < s.index[s.stack[j]];
  }

  lemma AllFound(g: Graph, s: Search, counter: nat)
    requires Invariant(g, s, counter) && s.work == [] && g.Keys <= s.index.Keys
    ensures forall i :: 0 <= i < |s.found| ==> IsComponent(g, s.found[i])
    ensures forall i, j, v :: 0 <= i < j < |s.found| && v in s.found[i] ==> v !in s.found[j]
    ensures forall i, v :: 0 <= i < |s.found| && v in s.found[i] ==> OnCycle(g, v)
    ensures forall v :: OnCycle(g, v) ==> Listed(s.found, v)
  {
    forall i, v | 0 <= i < |s.found| && v in s.found[i]
      ensures OnCycle(g, v)
    {
      CycleIffComponentCyclic(g, s.found[i], s.found[i][0]);
      CycleIffComponentCyclic(g, s.found[i], v);
    }
    assert s.onStack == {};
    forall v | OnCycle(g, v)
      ensures Listed(s.found, v)
    {
      var p :| Joins(g, p, v, v) && |p| > 1;
      assert p[1] in Callees(g, v);
      assert v in Removed(s);
    }
  }

  /** What the invariant says of one moment's variables, as the search's own steps use it. */
  lemma SearchFacts(g: Graph, s: Search, counter: nat)
    requires Invariant(g, s, counter)
    ensures s.index.Keys == s.low.Keys && s.index.Keys <= Universe(g)
    ensures forall k :: 0 <= k < |s.work| ==>
      s.work[k].node in s.index && s.low[s.work[k].node] <= s.index[s.work[k].node]
    ensures s.work != [] ==> s.work[|s.work| - 1].node in s.stack
    ensures forall i, j :: 0 <= i < j < |s.stack| ==> s.stack[i] != s.stack[j]
    ensures forall i, j :: 0 <= i < j < |s.work| ==> s.work[i].node != s.work[j].node
  {
    forall i, j | 0 <= i < j < |s.stack| ensures s.stack[i] != s.stack[j] { StackDistinct(s, i, j); }
    forall k | 0 <= k < |s.work|
      ensures s.work[k].node in s.index && s.low[s.work[k].node] <= s.index[s.work[k].node]
    {
      assert LowOk(g, s, s.work[k].node);
    }
  }

  /** The search's variables, updated in place. */
  class ComponentSearch {
    const graph: Graph
    var index: map<Symbol, nat>
    var low: map<Symbol, nat>
    var onStack: set<Symbol>
    var stack: seq<Symbol>
    var work: seq<Frame>
    var found: seq<seq<Symbol>>
    var counter: nat
    ghost var seen: set<Call>

    ghost function State(): Search
      reads this
    {
      Search(index, low, stack, onStack, work, found, seen)
    }

    ghost predicate Valid()
      reads this
    {
      Invariant(graph, State(), counter)
    }

    constructor (g: Graph)
      ensures Valid() && work == [] && graph == g
    {
      graph := g;
      index, low, onStack, stack, work, found, counter, seen := map[], map[], {}, [], [], [], 0, {};
    }

    /** Numbers and stacks a vertex met for the first time, and gives it a frame. */
    method Enter(v: Symbol, callees: seq<Symbol>)
      modifies this
      ensures State() == Entered(old(State()), v, callees, old(counter)) && counter == old(counter) + 1
    {
      index, low := index[v := counter], low[v := counter];
      counter := counter + 1;
      stack, onStack := stack + [v], onStack + {v};
      work := work + [Frame(v, callees)];
    }

    /** A root's whole search: until the work stack is empty. */
    method SearchFrom(root: Symbol)
      requires Valid() && work == [] && root in graph && root !in index
      modifies this
      ensures Valid() && work == [] && old(index.Keys) + {root} <= index.Keys
    {
      hide Invariant;
      var callees := Listing(Callees(graph, root));
      EnterRoot(graph, State(), root, callees, counter);
      Enter(root, callees);
      while work != []
        invariant Valid() && old(index.Keys) + {root} <= index.Keys
        decreases Universe(graph) - index.Keys, |work|, if work == [] then 0 else |work[|work| - 1].pending|
      {
        Turn();
      }
    }

    /** One turn: the next call of the vertex on top is looked at, or the vertex is finished. */
    method Turn()
      requires Valid() && work != []
      modifies this
      ensures Valid()
      ensures old(index.Keys) <= index.Keys <= Universe(graph)
      ensures index.Keys == old(index.Keys) ==>
                || |work| < old(|work|)
                || (|work| == old(|work|) && |work[|work| - 1].pending| < old(|work[|work| - 1].pending|))
    {
      hide Invariant;
      ghost var s := State();
      var top := |work| - 1;
      var node, pending := work[top].node, work[top].pending;
      SearchFacts(graph, s, counter);
      if pending == [] {
        Finish();
        return;
      }
      var callee := pending[|pending| - 1];
      pending := pending[..|pending| - 1];
      assert s.work[top].pending == pending + [callee];
      work := work[top := work[top].(pending := pending)];
      seen := seen + {Call(node, callee)};
      if callee !in index {
        var callees := Listing(Callees(graph, callee));
        EnterCallee(graph, s, pending, callee, callees, counter);
        Enter(callee, callees);
        SearchFacts(graph, State(), counter);
        assert callee in index && callee !in old(index);
      } else {
        if callee in onStack {
          low := low[node := Min(low[node], index[callee])];
        }
        LookAgain(graph, s, pending, callee, low[node], counter);
        assert State() == Lowered(s, pending, callee, low[node]);
      }
    }

    /** A vertex whose calls are all looked at leaves the work stack; a root takes its component with it. */
    method Finish()
      requires Valid() && work != [] && work[|work| - 1].pending == []
      modifies this
      ensures Valid() && index == old(index) && |work| == old(|work|) - 1
    {
      hide Invariant;
      ghost var s := State();
      var node := work[|work| - 1].node;
      SearchFacts(graph, s, counter);
      work := work[..|work| - 1];
      if work != [] {
        var parent := work[|work| - 1].node;
        low := low[parent := Min(low[parent], low[node])];
      }
      assert low == PassedOn(s);
      assert low[node] == s.low[node];
      if low[node] == index[node] {
        TakeComponent(node, s);
      } else {
        FinishMember(graph, s, counter);
      }
    }

    /** Takes the root `node`'s component off the stack, and lists it if it is a cycle. */
    method TakeComponent(node: Symbol, ghost s: Search)
      requires Invariant(graph, s, counter) && s.work != [] && s.work[|s.work| - 1] == Frame(node, [])
      requires node in s.low && node in s.index && s.low[node] == s.index[node] && State() == Merged(s)
      modifies `stack, `onStack, `found
      ensures Valid()
    {
      hide Invariant, Top, Merged, PassedOn;
      SearchFacts(graph, s, counter);
      MergedFields(s);
      var rest, component := PopThrough(stack, node);
      PoppedIsTop(graph, s, counter, rest, component);
      stack := rest;
      onStack := onStack - set x | x in component;
      assert onStack == s.onStack - Top(s);
      if |component| > 1 || node in Callees(graph, node) {
        found := found + [component];
      }
      FinishRoot(graph, s, |rest|, component, counter);
      assert State() == Cut(graph, s, |rest|, component);
    }
  }

  /**
   The cycles of the call graph: each strongly connected component of more than one function,
   and each function that calls itself, listed once, its members each once, and nothing else.
   */
  method FindCycles(graph: Graph) returns (found: seq<seq<Symbol>>)
    ensures forall i :: 0 <= i < |found| ==> IsComponent(graph, found[i])
    ensures forall i, v :: 0 <= i < |found| && v in found[i] ==> OnCycle(graph, v)
    ensures forall v :: OnCycle(graph, v) ==> Listed(found, v)
    ensures forall i, j, v :: 0 <= i < j < |found| && v in found[i] ==> v !in found[j]
  {
    hide Invariant;
    var search := new ComponentSearch(graph);
    var roots := Listing(graph.Keys);
    for r := 0 to |roots|
      invariant search.Valid() && search.work == [] && search.graph == graph
      invariant forall i :: 0 <= i < r ==> roots[i] in search.index
    {
      if roots[r] !in search.index {
        search.SearchFrom(roots[r]);
      }
    }
    AllFound(graph, search.State(), search.counter);
    found := search.found;
  }
}
