/**
 Runs put together, and a run read off the states it passes through.
 */
module CheckpointPaths {
  import opened Basics
  import opened CheckpointModel
  import opened CheckpointRuns
  import opened CheckpointSteps
  import opened CheckpointTheorems

  lemma {:induction false} ReachConcat(env: Env, y: System, a: seq<Event>, b: seq<Event>)
    ensures Reach(env, y, a + b) == Reach(env, Reach(env, y, a), b)
    decreases |b|
  {
    hide Step;
    if b == [] {
      assert a + b == a;
    } else {
      var front := b[..|b| - 1];
      assert (a + b)[..|a + b| - 1] == a + front;
      ReachConcat(env, y, a, front);
    }
  }

  lemma HappensConcat(env: Env, y: System, a: seq<Event>, b: seq<Event>)
    requires Happens(env, y, a) && Happens(env, Reach(env, y, a), b)
    ensures Happens(env, y, a + b) && Reach(env, y, a + b) == Reach(env, Reach(env, y, a), b)
  {
    hide Possible, Reach;
    ReachConcat(env, y, a, b);
    forall i | 0 <= i < |a + b|
      ensures Possible(env, Reach(env, y, (a + b)[..i]), (a + b)[i])
    {
      if i < |a| {
        assert (a + b)[..i] == a[..i];
      } else {
        assert (a + b)[..i] == a + b[..i - |a|];
        ReachConcat(env, y, a, b[..i - |a|]);
      }
    }
  }

  /** The event can happen, and leaves `z`. */
  ghost predicate Moves(env: Env, y: System, ev: Event, z: System) {
    Possible(env, y, ev) && Step(env, y, ev) == z
  }

  ghost predicate Passes(env: Env, states: seq<System>, events: seq<Event>) {
    |states| == |events| + 1 && forall i :: 0 <= i < |events| ==> Moves(env, states[i], events[i], states[i + 1])
  }

  lemma {:induction false} PassesReaches(env: Env, states: seq<System>, events: seq<Event>, i: nat)
    requires Passes(env, states, events) && i <= |events|
    ensures Reach(env, states[0], events[..i]) == states[i]
  {
    hide Possible, Step;
    if i == 0 {
      assert events[..0] == [];
    } else {
      PassesReaches(env, states, events, i - 1);
      assert events[..i][..i - 1] == events[..i - 1] && events[..i][i - 1] == events[i - 1];
    }
  }

  lemma PassesHappens(env: Env, states: seq<System>, events: seq<Event>)
    requires Passes(env, states, events)
    ensures Happens(env, states[0], events) && Reach(env, states[0], events) == states[|events|]
  {
    hide Possible, Step, Reach;
    forall i | 0 <= i < |events|
      ensures Possible(env, Reach(env, states[0], events[..i]), events[i])
    {
      PassesReaches(env, states, events, i);
      assert Moves(env, states[i], events[i], states[i + 1]);
    }
    PassesReaches(env, states, events, |events|);
    assert events[..|events|] == events;
  }

  lemma ReachedInv(env: Env, y: System, events: seq<Event>)
    requires Sane(env) && Inv(env, y) && Happens(env, y, events)
    ensures Inv(env, Reach(env, y, events))
  {
    hide Inv, Sane, Reach, Happens;
    RunsKeepInv(env, y, events, |events|);
    assert events[..|events|] == events;
  }
}
