/**
 Converting a data directory, with a crash possible between any two durable steps: the old log
 stays the node's log until a verified copy is committed, and attempts repeated from whatever a
 crash left come to the same end.
 */
module ConvertRuns {
  import opened Basics
  import opened ConvertModel
  import opened ConvertCopy

  /** Where the old log's fence says the groups live. */
  datatype Fence = OnWal | OnLog(log: nat)

  /** `raft/`: the new log's file, once made, under its id; and what it and the group files hold. */
  datatype Raft = Raft(log: Option<nat>, store: Store)

  /** A data directory. `current` and `initialized` are the old log's two marker files; without
      the first there is no fence to read. */
  datatype DataDir = DataDir(
    current: bool, initialized: bool, fence: Fence, raft: Option<Raft>, segments: set<nat>, moved: set<nat>)

  /** What does not change: the old log's groups, its segments, and the new log's id. */
  datatype Origin = Origin(groups: seq<OldGroup>, segments: set<nat>, id: nat)

  function StorageOf(d: DataDir): Fence {
    if d.current then d.fence else OnWal
  }

  // ---------------------------------------------------------------- the durable steps

  ghost predicate Verified(o: Origin, raft: Option<Raft>) {
    && raft.Some? && raft.value.log == Some(o.id)
    && Accepted(o.groups, raft.value.store)
  }

  /** One durable step: anything under `raft/` while the fence names the old log; the commit of a
      verified copy; a segment moved aside after it. */
  ghost predicate Step(o: Origin, d: DataDir, e: DataDir) {
    || (StorageOf(d) == OnWal && e == d.(raft := e.raft))
    || (StorageOf(d) == OnWal && d.current && Verified(o, d.raft) && e == d.(fence := OnLog(o.id)))
    || (StorageOf(d).OnLog?
        && exists s :: s in d.segments && e == d.(segments := d.segments - {s}, moved := d.moved + {s}))
  }

  /** A directory that began with the old log holds it still, or a verified copy of it. */
  ghost predicate Inv(o: Origin, d: DataDir) {
    && Groups(o.groups) && d.current
    && d.segments !! d.moved && d.segments + d.moved == o.segments
    && (d.fence == OnWal ==> d.moved == {})
    && (d.fence.OnLog? ==> d.fence.log == o.id && Verified(o, d.raft))
  }

  ghost predicate IsRun(o: Origin, states: seq<DataDir>) {
    forall i :: 0 <= i < |states| - 1 ==> Step(o, states[i], states[i + 1])
  }

  lemma StepKeepsInv(o: Origin, d: DataDir, e: DataDir)
    requires Inv(o, d) && Step(o, d, e)
    ensures Inv(o, e)
    ensures StorageOf(d).OnLog? ==> StorageOf(e) == StorageOf(d) && e.raft == d.raft
  {
    hide AllCopied, Groups, Logged;
  }

  /** Every state of every run of attempts, wherever each was cut, holds the old log whole or a
      verified copy of it; and once committed, the copy is the node's for good. */
  lemma {:induction false} RunsKeepInv(o: Origin, states: seq<DataDir>, i: nat)
    requires IsRun(o, states) && i < |states| && Inv(o, states[0])
    ensures Inv(o, states[i])
    ensures StorageOf(states[0]).OnLog? ==>
      StorageOf(states[i]) == StorageOf(states[0]) && states[i].raft == states[0].raft
  {
    hide Inv, Step, StorageOf;
    if i > 0 {
      RunsKeepInv(o, states, i - 1);
      StepKeepsInv(o, states[i - 1], states[i]);
    }
  }

  // ---------------------------------------------------------------- what a start opens

  datatype Start = OpenWal | ConvertFirst | OpenShell

  function StartOn(d: DataDir, id: nat, fenceOpen: bool): Result<Start> {
    match StorageOf(d)
    case OnLog(log) =>
      if log != id then Err(Identity)
      else if d.raft == None || d.raft.value.log == None then Err(Missing)
      else Ok(OpenShell)
    case OnWal =>
      if !fenceOpen then
        if d.raft.Some? then Err(UnnamedStore) else Ok(OpenWal)
      else if d.current || d.initialized then Ok(ConvertFirst)
      else Ok(OpenShell)
  }

  /** In every state every run leaves, a start opens the shell exactly when a verified copy was
      committed; it opens the old log exactly when nothing was, no `raft/` exists and the upgrade
      fence is shut; and it refuses exactly an interrupted attempt behind a shut fence. */
  lemma StartAnswers(o: Origin, d: DataDir, fenceOpen: bool)
    requires Inv(o, d)
    ensures StartOn(d, o.id, fenceOpen) == Ok(OpenShell) <==> d.fence == OnLog(o.id) && Verified(o, d.raft)
    ensures StartOn(d, o.id, fenceOpen) == Ok(OpenWal) <==> d.fence == OnWal && d.raft == None && !fenceOpen
    ensures StartOn(d, o.id, fenceOpen) == Ok(ConvertFirst) <==> d.fence == OnWal && fenceOpen
    ensures StartOn(d, o.id, fenceOpen).Err? <==> d.fence == OnWal && d.raft.Some? && !fenceOpen
  {
    hide AllCopied, Groups, Logged;
    assert d.fence == OnWal || d.fence == OnLog(o.id);
  }

  lemma {:induction false} StartAfterAnyRun(o: Origin, states: seq<DataDir>, i: nat, fenceOpen: bool)
    requires IsRun(o, states) && i < |states| && Inv(o, states[0])
    ensures StartOn(states[i], o.id, fenceOpen) == Ok(OpenShell) ==> Verified(o, states[i].raft)
    ensures StartOn(states[i], o.id, fenceOpen) == Ok(OpenWal) ==>
      states[i].raft == None && states[i].segments == o.segments
  {
    RunsKeepInv(o, states, i);
    StartAnswers(o, states[i], fenceOpen);
  }

  // ---------------------------------------------------------------- an attempt

  datatype Outcome = Converted(copied: Copied, moved: nat) | Finished(moved: nat)

  /** What stands in the way of no attempt: room on the volume, and groups that move and verify. */
  ghost predicate Convertible(o: Origin, room: nat, fits: bool) {
    fits && forall i :: 0 <= i < |o.groups| ==> Movable(o.groups[i], room) && !Blank(o.groups[i])
  }

  /** A data directory under conversion, changed one durable step at a time. */
  class Conversion {
    const o: Origin
    var current: bool
    var initialized: bool
    var fence: Fence
    var raft: Option<Raft>
    var segments: set<nat>
    var moved: set<nat>
    /** The states passed through, the first as it was found. */
    ghost var passed: seq<DataDir>

    ghost function Dir(): DataDir
      reads this
    {
      DataDir(current, initialized, fence, raft, segments, moved)
    }

    ghost predicate Valid()
      reads this
    {
      && Inv(o, Dir()) && passed != [] && passed[|passed| - 1] == Dir() && IsRun(o, passed)
    }

    constructor (origin: Origin, d: DataDir)
      requires Inv(origin, d)
      ensures Valid() && o == origin && Dir() == d && passed == [d]
    {
      o := origin;
      current, initialized, fence, raft, segments, moved :=
        d.current, d.initialized, d.fence, d.raft, d.segments, d.moved;
      passed := [d];
    }

    /** A step under `raft/`: its removal, its making, the new log's file, the groups copied into it. */
    method ChangeRaft(r: Option<Raft>)
      requires Valid() && fence == OnWal
      modifies `raft, `passed
      ensures Valid() && raft == r
    {
      ghost var before := Dir();
      raft := r;
      passed := passed + [Dir()];
      StepKeepsInv(o, before, Dir());
    }

    /** Makes `raft/` anew, where there is none. */
    method MakeRaft()
      requires Valid() && fence == OnWal && raft.None?
      modifies `raft, `passed
      ensures Valid() && raft == Some(Raft(None, map[]))
    {
      ChangeRaft(Some(Raft(None, map[])));
    }

    method Commit()
      requires Valid() && fence == OnWal && Verified(o, raft)
      modifies `fence, `passed
      ensures Valid() && fence == OnLog(o.id)
    {
      hide Verified, Groups;
      ghost var before := Dir();
      fence := OnLog(o.id);
      passed := passed + [Dir()];
      StepKeepsInv(o, before, Dir());
    }

    method MoveSegment(s: nat)
      requires Valid() && fence.OnLog? && s in segments
      modifies `segments, `moved, `passed
      ensures Valid() && segments == old(segments) - {s}
    {
      hide Verified, Groups;
      ghost var before := Dir();
      segments, moved := segments - {s}, moved + {s};
      passed := passed + [Dir()];
      StepKeepsInv(o, before, Dir());
    }

    /** The old log's segments moved aside, one at a time. */
    method MoveSegments() returns (count: nat)
      requires Valid() && fence.OnLog?
      modifies `segments, `moved, `passed
      ensures Valid() && segments == {} && moved == o.segments && count == |old(segments)|
    {
      hide Verified, Groups, IsRun;
      count := 0;
      while segments != {}
        invariant Valid() && |segments| + count == |old(segments)|
        decreases segments
      {
        var s :| s in segments;
        MoveSegment(s);
        count := count + 1;
      }
    }

    /** One attempt, from whatever state an earlier one was cut in. `fits` says whether the volume
        holds the new log beside the old one. */
    method ConvertDataDir(splits: seq<nat>, room: nat, frame: nat, page: nat, fits: bool) returns (r: Result<Outcome>)
      requires Valid() && |splits| == |o.groups|
      requires forall i :: 0 <= i < |o.groups| ==> splits[i] <= |o.groups[i].entries|
      modifies this
      ensures Valid()
      ensures r.Ok? <==> old(fence).OnLog? || Convertible(o, room, fits)
      ensures r.Ok? ==> fence == OnLog(o.id) && Verified(o, raft) && segments == {} && moved == o.segments
      ensures old(fence).OnLog? ==> raft == old(raft) && r == Ok(Finished(|old(segments)|))
      ensures old(fence) == OnWal && r.Ok? ==>
        raft == Some(Raft(Some(o.id), FaithfulStore(o.groups))) && r.value == Converted(Total(o.groups), |o.segments|)
      ensures r.Err? ==> fence == OnWal && segments == o.segments
    {
      hide IsRun, AllCopied, Logged;
      if fence.OnLog? {
        var count := MoveSegments();
        return Ok(Finished(count));
      }
      if !fits {
        return Err(Disk);
      }
      if raft.Some? {
        ChangeRaft(None);
      }
      MakeRaft();
      ChangeRaft(Some(Raft(Some(o.id), map[])));
      var copied, store := CopyGroups(o.groups, splits, room, frame);
      ChangeRaft(Some(Raft(Some(o.id), store)));
      if copied.Err? {
        return Err(copied.error);
      }
      CopyVerifiesWhen(o.groups);
      var checked := Verify(o.groups, store, page);
      if checked.Err? {
        return Err(checked.error);
      }
      Commit();
      var count := MoveSegments();
      r := Ok(Converted(copied.value, count));
    }
  }
}
