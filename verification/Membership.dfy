/**
 A group's configuration and how it changes: the change an owner proposes, the configuration it is
 predicted to make, the one the core makes of its committed entry, and whose agreement decides.
 */
module Membership {
  import opened Basics

  type Result<T> = Attempt<T, Error>

  datatype Error = Noncanonical | Capacity | InvalidVoting | JointFirst | LearnerExists | NotLearner | AbsentOrLast

  type NodeId = nat

  const MAX_ROLE: nat := 1024
  const MAX_MEMBERS: nat := 2048

  /** A configuration as it is stated: four lists of members. */
  datatype Conf = Conf(
    voters: seq<NodeId>, outgoing: seq<NodeId>, learners: seq<NodeId>, next: seq<NodeId>, autoLeave: bool)

  /** What the lists mean. */
  datatype Roles = Roles(
    voters: set<NodeId>, outgoing: set<NodeId>, learners: set<NodeId>, next: set<NodeId>, autoLeave: bool)

  datatype Change = AddLearner(node: NodeId) | Promote(node: NodeId) | Remove(node: NodeId) | LeaveJoint

  function Members(s: seq<NodeId>): set<NodeId> {
    set x | x in s
  }

  function RolesOf(c: Conf): Roles {
    Roles(Members(c.voters), Members(c.outgoing), Members(c.learners), Members(c.next), c.autoLeave)
  }

  // ---------------------------------------------------------------- validity

  /** Roles that can decide: a voter, no zero, no member that votes and learns, and the joint-only
      parts empty when there is no outgoing half. */
  predicate ValidRoles(r: Roles) {
    && r.voters != {}
    && 0 !in r.voters && 0 !in r.outgoing && 0 !in r.learners && 0 !in r.next
    && r.learners !! r.voters && r.learners !! r.outgoing
    && r.next <= r.outgoing && r.next !! r.voters && r.next !! r.learners
    && (r.outgoing == {} ==> !r.autoLeave && r.next == {})
  }

  predicate Distinct(s: seq<NodeId>) {
    |Members(s)| == |s|
  }

  function ConfFault(c: Conf): Option<Error> {
    if |c.voters| + |c.outgoing| + |c.learners| + |c.next| > MAX_MEMBERS then Some(Capacity)
    else if !Distinct(c.voters) || !Distinct(c.outgoing) || !Distinct(c.learners) || !Distinct(c.next)
            || !ValidRoles(RolesOf(c))
    then Some(InvalidVoting)
    else None
  }

  predicate Ascending(s: seq<NodeId>) {
    forall i, j :: 0 <= i < j < |s| ==> s[i] < s[j]
  }

  predicate CanonicalList(s: seq<NodeId>) {
    |s| <= MAX_ROLE && Ascending(s)
  }

  function Fault(c: Conf): Option<Error> {
    if !CanonicalList(c.voters) || !CanonicalList(c.learners) || !CanonicalList(c.outgoing) || !CanonicalList(c.next)
    then Some(Noncanonical)
    else ConfFault(c)
  }

  lemma {:induction false} AscendingIsDistinct(s: seq<NodeId>)
    requires Ascending(s)
    ensures Distinct(s)
  {
    if s != [] {
      AscendingIsDistinct(s[1..]);
      assert Members(s) == {s[0]} + Members(s[1..]);
      assert s[0] !in Members(s[1..]);
    }
  }

  /** A canonical list is the only one of its members. */
  lemma {:induction false} CanonicalIsUnique(s: seq<NodeId>, t: seq<NodeId>)
    requires Ascending(s) && Ascending(t) && Members(s) == Members(t)
    ensures s == t
  {
    AscendingIsDistinct(s);
    AscendingIsDistinct(t);
    if s != [] {
      assert s[0] in Members(t) && t[0] in Members(s);
      assert s[0] == t[0];
      assert Members(s[1..]) == Members(s) - {s[0]} && Members(t[1..]) == Members(t) - {t[0]};
      CanonicalIsUnique(s[1..], t[1..]);
    }
  }

  /** A configuration is valid exactly when its lists ascend, are not too long and their roles can decide. */
  lemma ValidExactly(c: Conf)
    ensures Fault(c) == None <==>
      && CanonicalList(c.voters) && CanonicalList(c.learners) && CanonicalList(c.outgoing) && CanonicalList(c.next)
      && |c.voters| + |c.outgoing| + |c.learners| + |c.next| <= MAX_MEMBERS && ValidRoles(RolesOf(c))
  {
    hide ValidRoles, Distinct;
    if CanonicalList(c.voters) && CanonicalList(c.learners) && CanonicalList(c.outgoing) && CanonicalList(c.next) {
      AscendingIsDistinct(c.voters);
      AscendingIsDistinct(c.learners);
      AscendingIsDistinct(c.outgoing);
      AscendingIsDistinct(c.next);
    }
  }

  // ---------------------------------------------------------------- a change, predicted

  predicate Contains(r: Roles, node: NodeId) {
    node in r.voters || node in r.learners || node in r.outgoing || node in r.next
  }

  /** The roles a change makes. */
  function RolesAfter(change: Change, r: Roles): Roles {
    match change
    case AddLearner(node) => r.(learners := r.learners + {node})
    case Promote(node) => r.(learners := r.learners - {node}, voters := r.voters + {node})
    case Remove(node) => r.(learners := r.learners - {node}, voters := r.voters - {node})
    case LeaveJoint => r.(learners := r.learners + r.next, next := {}, outgoing := {}, autoLeave := false)
  }

  /** Why a change of a valid configuration is refused before anything is changed. */
  function ChangeFault(change: Change, c: Conf): Option<Error> {
    var r := RolesOf(c);
    if (c.outgoing != []) != change.LeaveJoint? then Some(JointFirst)
    else match change
      case AddLearner(node) => if node == 0 || Contains(r, node) then Some(LearnerExists) else None
      case Promote(node) => if node == 0 || node !in r.learners then Some(NotLearner) else None
      case Remove(node) =>
        if node == 0 || !Contains(r, node) || (|c.voters| == 1 && node in r.voters) then Some(AbsentOrLast) else None
      case LeaveJoint => None
  }

  /** What each change needs of the roles it is made from. */
  ghost predicate Admits(change: Change, r: Roles) {
    match change
    case AddLearner(node) => r.outgoing == {} && node != 0 && node !in r.voters + r.learners
    case Promote(node) => r.outgoing == {} && node in r.learners
    case Remove(node) => r.outgoing == {} && node in r.voters + r.learners && r.voters != {node}
    case LeaveJoint => r.outgoing != {}
  }

  /** What a change that is not admitted is refused with. */
  ghost function Refusal(change: Change, r: Roles): Error {
    if change.LeaveJoint? || r.outgoing != {} then JointFirst
    else match change
      case AddLearner(_) => LearnerExists
      case Promote(_) => NotLearner
      case Remove(_) => AbsentOrLast
  }

  lemma AdmitsExactly(change: Change, c: Conf)
    requires Fault(c) == None
    ensures ChangeFault(change, c) ==
      if Admits(change, RolesOf(c)) then None else Some(Refusal(change, RolesOf(c)))
  {
    ValidExactly(c);
    var r := RolesOf(c);
    assert c.outgoing != [] ==> c.outgoing[0] in r.outgoing;
    if change.Remove? && change.node in r.voters {
      OnlyVoter(c.voters, change.node);
    }
  }

  lemma OnlyVoter(s: seq<NodeId>, node: NodeId)
    requires Ascending(s) && node in Members(s)
    ensures |s| == 1 <==> Members(s) == {node}
  {
    AscendingIsDistinct(s);
  }

  /** Whether the changed role would still fit its list. */
  predicate Fits(change: Change, c: Conf) {
    match change
    case AddLearner(_) => |c.learners| < MAX_ROLE
    case Promote(_) => |c.voters| < MAX_ROLE
    case Remove(_) => true
    case LeaveJoint => |c.learners| + |c.next| <= MAX_ROLE
  }

  /** The list without `node`. */
  function Without(s: seq<NodeId>, node: NodeId): seq<NodeId> {
    if s == [] then [] else if s[0] == node then Without(s[1..], node) else [s[0]] + Without(s[1..], node)
  }

  lemma {:induction false} WithoutIs(s: seq<NodeId>, node: NodeId)
    ensures Members(Without(s, node)) == Members(s) - {node}
    ensures |Without(s, node)| <= |s|
    ensures Ascending(s) ==> Ascending(Without(s, node))
  {
    if s != [] {
      var rest := Without(s[1..], node);
      WithoutIs(s[1..], node);
      assert Members(s) == {s[0]} + Members(s[1..]);
      assert Members([s[0]] + rest) == {s[0]} + Members(rest);
      if Ascending(s) {
        assert Ascending(s[1..]);
        forall k | 0 <= k < |rest|
          ensures s[0] < rest[k]
        {
          assert rest[k] in Members(rest) && rest[k] in Members(s[1..]);
          var j :| 0 <= j < |s[1..]| && s[1..][j] == rest[k];
          assert s[j + 1] == rest[k];
        }
      }
    }
  }

  /** `members` put in order, one at a time: every list here is of distinct members. */
  method Sorted(members: seq<NodeId>) returns (r: seq<NodeId>)
    requires Distinct(members)
    ensures Ascending(r) && Members(r) == Members(members) && |r| == |members|
  {
    r := [];
    for i := 0 to |members|
      invariant Ascending(r) && Members(r) == Members(members[..i]) && |r| == i
    {
      DistinctNext(members, i);
      r := Place(r, members[i]);
      assert Members(members[..i + 1]) == Members(members[..i]) + {members[i]};
    }
    assert members[..|members|] == members;
  }

  method Place(s: seq<NodeId>, node: NodeId) returns (r: seq<NodeId>)
    requires Ascending(s) && node !in Members(s)
    ensures Ascending(r) && Members(r) == Members(s) + {node} && |r| == |s| + 1
  {
    var at := 0;
    while at < |s| && s[at] < node
      invariant at <= |s| && forall j :: 0 <= j < at ==> s[j] < node
    {
      at := at + 1;
    }
    hide Ascending;
    assert at < |s| ==> s[at] in Members(s);
    r := s[..at] + [node] + s[at..];
    PlacedAscends(s, at, node, r);
    PlacedMembers(s, at, node);
  }

  lemma PlacedAscends(s: seq<NodeId>, at: nat, node: NodeId, r: seq<NodeId>)
    requires Ascending(s) && at <= |s| && r == s[..at] + [node] + s[at..]
    requires (forall j :: 0 <= j < at ==> s[j] < node) && (at < |s| ==> node < s[at])
    ensures Ascending(r)
  {
    forall i, j | 0 <= i < j < |r|
      ensures r[i] < r[j]
    {
      assert r[i] == if i < at then s[i] else if i == at then node else s[i - 1];
      assert r[j] == if j < at then s[j] else if j == at then node else s[j - 1];
    }
  }

  lemma PlacedMembers(s: seq<NodeId>, at: nat, node: NodeId)
    requires at <= |s|
    ensures Members(s[..at] + [node] + s[at..]) == Members(s) + {node}
  {
    assert s == s[..at] + s[at..];
  }

  lemma DistinctNext(s: seq<NodeId>, i: nat)
    requires Distinct(s) && i < |s|
    ensures s[i] !in Members(s[..i])
  {
    if s[i] in Members(s[..i]) {
      assert Members(s) == Members(s[..i]) + Members(s[i + 1..]);
      MembersAtMost(s[..i]);
      MembersAtMost(s[i + 1..]);
      CardUnion(Members(s[..i]), Members(s[i + 1..]));
      assert false;
    }
  }

  lemma {:induction false} MembersAtMost(s: seq<NodeId>)
    ensures |Members(s)| <= |s|
  {
    if s != [] {
      MembersAtMost(s[1..]);
      assert Members(s) == {s[0]} + Members(s[1..]);
    }
  }

  lemma DistinctPush(s: seq<NodeId>, node: NodeId)
    requires Distinct(s) && node !in Members(s)
    ensures Distinct(s + [node]) && Members(s + [node]) == Members(s) + {node}
  {
    assert Members(s + [node]) == Members(s) + {node};
  }

  lemma DistinctJoin(s: seq<NodeId>, t: seq<NodeId>)
    requires Distinct(s) && Distinct(t) && Members(s) !! Members(t)
    ensures Distinct(s + t) && Members(s + t) == Members(s) + Members(t)
  {
    assert Members(s + t) == Members(s) + Members(t);
  }

  /** The lists after a change: pushed, sorted or filtered. */
  method Edited(change: Change, current: Conf) returns (next: Conf)
    requires Ascending(current.voters) && Ascending(current.learners) && Ascending(current.next)
    requires Ascending(current.outgoing)
    requires change.AddLearner? ==> change.node !in Members(current.learners)
    requires change.Promote? ==> change.node !in Members(current.voters)
    requires change.LeaveJoint? ==> Members(current.learners) !! Members(current.next)
    ensures RolesOf(next) == RolesAfter(change, RolesOf(current))
    ensures Ascending(next.voters) && Ascending(next.learners) && Ascending(next.next) && Ascending(next.outgoing)
    ensures |next.learners| <=
      |current.learners| + (if change.LeaveJoint? then |current.next| else if change.AddLearner? then 1 else 0)
    ensures change.AddLearner? ==> |next.learners| == |current.learners| + 1
    ensures change.LeaveJoint? ==>
      |next.learners| == |current.learners| + |current.next| && next.next == next.outgoing == []
    ensures change.Promote? ==> |next.voters| == |current.voters| + 1
    ensures !change.Promote? ==> |next.voters| <= |current.voters|
    ensures |next.next| <= |current.next| && |next.outgoing| <= |current.outgoing|
  {
    AscendingIsDistinct(current.learners);
    AscendingIsDistinct(current.voters);
    AscendingIsDistinct(current.next);
    hide Ascending, Distinct, Members, Without;
    next := current;
    match change {
      case AddLearner(node) =>
        DistinctPush(current.learners, node);
        var learners := Sorted(current.learners + [node]);
        next := next.(learners := learners);
      case Promote(node) =>
        DistinctPush(current.voters, node);
        WithoutIs(current.learners, node);
        var voters := Sorted(current.voters + [node]);
        next := next.(learners := Without(current.learners, node), voters := voters);
      case Remove(node) =>
        WithoutIs(current.learners, node);
        WithoutIs(current.voters, node);
        next := next.(learners := Without(current.learners, node), voters := Without(current.voters, node));
      case LeaveJoint =>
        DistinctJoin(current.learners, current.next);
        var learners := Sorted(current.learners + current.next);
        next := next.(learners := learners, next := [], outgoing := [], autoLeave := false);
        EmptyAscends();
    }
  }

  lemma EmptyAscends()
    ensures Ascending([]) && Members([]) == {}
  {
  }

  /** The predicted configuration. A change is accepted exactly when the configuration is valid, nothing
      else is under way, its own condition holds and the result fits; and then the result is canonical
      and its roles are those the change makes. */
  method ApplyTo(change: Change, current: Conf) returns (r: Result<Conf>)
    ensures r.Ok? <==> Fault(current) == None && Admits(change, RolesOf(current)) && Fits(change, current)
    ensures r.Ok? ==> Fault(r.value) == None && RolesOf(r.value) == RolesAfter(change, RolesOf(current))
    ensures Fault(current).Some? ==> r == Err(Fault(current).value)
    ensures Fault(current) == None && !Admits(change, RolesOf(current)) ==> r == Err(Refusal(change, RolesOf(current)))
    ensures Fault(current) == None && Admits(change, RolesOf(current)) && !Fits(change, current) ==>
      r == Err(Noncanonical)
  {
    var fault := Fault(current);
    if fault.Some? {
      return Err(fault.value);
    }
    var refused := ChangeFault(change, current);
    AdmitsExactly(change, current);
    if refused.Some? {
      return Err(refused.value);
    }
    ValidExactly(current);
    AfterIsValid(change, current);
    NewcomerIsNew(change, current);
    hide Fault, ValidRoles, RolesAfter, Ascending, ChangeFault, RolesOf, Admits;
    var next := Edited(change, current);
    ValidExactly(next);
    LongIsNoncanonical(next);
    var after := Fault(next);
    return if after.Some? then Err(after.value) else Ok(next);
  }

  lemma LongIsNoncanonical(c: Conf)
    ensures |c.voters| > MAX_ROLE || |c.learners| > MAX_ROLE ==> Fault(c) == Some(Noncanonical)
  {
  }

  lemma NewcomerIsNew(change: Change, c: Conf)
    requires ValidRoles(RolesOf(c)) && ChangeFault(change, c) == None
    ensures change.AddLearner? ==> change.node !in Members(c.learners)
    ensures change.Promote? ==> change.node !in Members(c.voters)
    ensures change.LeaveJoint? ==> Members(c.learners) !! Members(c.next)
    ensures !change.LeaveJoint? ==> c.outgoing == [] && c.next == []
  {
    if c.next != [] {
      assert c.next[0] in RolesOf(c).next;
    }
  }

  lemma AfterIsValid(change: Change, c: Conf)
    requires Fault(c) == None && ChangeFault(change, c) == None
    ensures ValidRoles(RolesAfter(change, RolesOf(c)))
  {
    ValidExactly(c);
    var r := RolesOf(c);
    if change.Remove? && change.node in r.voters {
      assert |c.voters| >= 2;
      var other := if c.voters[0] == change.node then c.voters[1] else c.voters[0];
      assert other in r.voters - {change.node};
    } else {
      var v :| v in r.voters;
      assert change.Promote? ==> v in RolesAfter(change, r).voters;
    }
  }

  // ---------------------------------------------------------------- a change, applied by the core

  datatype Single = AddNode(node: NodeId) | AddLearnerNode(node: NodeId) | RemoveNode(node: NodeId)
  datatype Transition = Auto | Implicit | Explicit
  /** A change as an entry states it. */
  datatype Stated = Stated(transition: Transition, changes: seq<Single>)

  datatype CoreError = ZeroMember | NoVoter | Overlap | AlreadyJoint | NotJoint | NotSimple

  function Encode(change: Change): Stated {
    match change
    case AddLearner(node) => Stated(Auto, [AddLearnerNode(node)])
    case Promote(node) => Stated(Auto, [AddNode(node)])
    case Remove(node) => Stated(Auto, [RemoveNode(node)])
    case LeaveJoint => Stated(Auto, [])
  }

  /** The changes stated that are not withdrawn. */
  function Standing(changes: seq<Single>): seq<Single> {
    if changes == [] then []
    else if changes[0].node == 0 then Standing(changes[1..])
    else [changes[0]] + Standing(changes[1..])
  }

  function CoreChange(r: Roles, change: Single): Roles {
    match change
    case AddNode(n) => r.(learners := r.learners - {n}, next := r.next - {n}, voters := r.voters + {n})
    case AddLearnerNode(n) =>
      if n in r.learners then r
      else if n in r.outgoing then r.(voters := r.voters - {n}, next := r.next + {n})
      else r.(voters := r.voters - {n}, next := r.next - {n}, learners := r.learners + {n})
    case RemoveNode(n) => r.(voters := r.voters - {n}, learners := r.learners - {n}, next := r.next - {n})
  }

  function CoreChanges(r: Roles, changes: seq<Single>): Roles
    decreases |changes|
  {
    if changes == [] then r else CoreChanges(CoreChange(r, changes[0]), changes[1..])
  }

  function CoreFault(r: Roles): Option<CoreError> {
    if 0 in r.voters || 0 in r.outgoing || 0 in r.learners || 0 in r.next then Some(ZeroMember)
    else if r.voters == {} then Some(NoVoter)
    else if !(r.learners !! r.voters && r.learners !! r.outgoing) then Some(Overlap)
    else if !(r.next <= r.outgoing && r.next !! r.voters && r.next !! r.learners) then Some(Overlap)
    else if r.outgoing == {} && (r.next != {} || r.autoLeave) then Some(NotJoint)
    else None
  }

  function Checked(r: Roles): Attempt<Roles, CoreError> {
    if CoreFault(r).Some? then Err(CoreFault(r).value) else Ok(r)
  }

  function Simple(r: Roles, changes: seq<Single>): Attempt<Roles, CoreError> {
    var next := CoreChanges(r, changes);
    if r.outgoing != {} then Err(AlreadyJoint)
    else if |r.voters - next.voters| + |next.voters - r.voters| > 1 then Err(NotSimple)
    else Checked(next)
  }

  function EnterJoint(r: Roles, autoLeave: bool, changes: seq<Single>): Attempt<Roles, CoreError> {
    if r.outgoing != {} then Err(AlreadyJoint)
    else Checked(CoreChanges(r.(outgoing := r.voters), changes).(autoLeave := autoLeave))
  }

  function LeaveJointly(r: Roles): Attempt<Roles, CoreError> {
    if r.outgoing == {} then Err(NotJoint)
    else Checked(r.(learners := r.learners + r.next, next := {}, outgoing := {}, autoLeave := false))
  }

  /** The configuration the core makes of a committed change: which transition is decided by what the
      entry states, withdrawn changes included. */
  function CoreApply(r: Roles, stated: Stated): Attempt<Roles, CoreError> {
    var changes := Standing(stated.changes);
    if stated.transition == Auto && stated.changes == [] then LeaveJointly(r)
    else if stated.transition != Auto || |stated.changes| > 1 then EnterJoint(r, stated.transition != Explicit, changes)
    else Simple(r, changes)
  }

  lemma CoreValid(r: Roles)
    ensures CoreFault(r) == None <==> ValidRoles(r)
  {
  }

  /** The last of the changes that names a member. */
  ghost function Naming(changes: seq<Single>, x: NodeId): Option<Single> {
    if changes == [] then None
    else if changes[|changes| - 1].node == x then Some(changes[|changes| - 1])
    else Naming(changes[..|changes| - 1], x)
  }

  /** Roles that do not overlap: learners neither vote nor voted, and those that are to learn still vote in the
      outgoing half alone. */
  ghost predicate Apart(r: Roles) {
    && r.learners !! r.voters && r.learners !! r.outgoing
    && r.next <= r.outgoing && r.next !! r.voters && r.next !! r.learners
  }

  /** The role a member has in `t`, made from `r` by changes of which `last` names it. */
  ghost predicate Becomes(r: Roles, t: Roles, x: NodeId, last: Option<Single>) {
    match last
    case None =>
      (x in t.voters <==> x in r.voters) && (x in t.learners <==> x in r.learners) && (x in t.next <==> x in r.next)
    case Some(AddNode(_)) => x in t.voters && x !in t.learners && x !in t.next
    case Some(AddLearnerNode(_)) =>
      x !in t.voters && (x in t.next <==> x in r.outgoing) && (x in t.learners <==> x !in r.outgoing)
    case Some(RemoveNode(_)) => x !in t.voters && x !in t.learners && x !in t.next
  }

  /** Of changes made in order, the last that names a member decides its role, and no other member's changes. */
  lemma {:induction false} LastDecides(r: Roles, changes: seq<Single>, x: NodeId)
    requires Apart(r)
    ensures var t := CoreChanges(r, changes);
      Apart(t) && t.outgoing == r.outgoing && t.autoLeave == r.autoLeave && Becomes(r, t, x, Naming(changes, x))
    decreases |changes|
  {
    if changes != [] {
      var last := changes[|changes| - 1];
      var before := changes[..|changes| - 1];
      LastDecides(r, before, x);
      OneMoreChange(r, before, last);
      assert before + [last] == changes;
    }
  }

  lemma {:induction false} OneMoreChange(r: Roles, changes: seq<Single>, last: Single)
    ensures CoreChanges(r, changes + [last]) == CoreChange(CoreChanges(r, changes), last)
    decreases |changes|
  {
    if changes == [] {
      assert [] + [last] == [last] && [last][1..] == [];
    } else {
      OneMoreChange(CoreChange(r, changes[0]), changes[1..], last);
      assert (changes + [last])[0] == changes[0] && (changes + [last])[1..] == changes[1..] + [last];
    }
  }

  lemma {:induction false} StandingNames(changes: seq<Single>, x: NodeId)
    ensures Naming(Standing(changes), x) == if x == 0 then None else Naming(changes, x)
  {
    if changes != [] {
      StandingNames(changes[1..], x);
      NamingFirst(changes, x);
      if changes[0].node != 0 {
        var standing := [changes[0]] + Standing(changes[1..]);
        assert standing[1..] == Standing(changes[1..]);
        NamingFirst(standing, x);
      }
    }
  }

  lemma {:induction false} NamingFirst(changes: seq<Single>, x: NodeId)
    requires changes != []
    ensures Naming(changes, x) ==
      if Naming(changes[1..], x).Some? then Naming(changes[1..], x)
      else if changes[0].node == x then Some(changes[0]) else None
  {
    if |changes| > 1 {
      var before := changes[..|changes| - 1];
      NamingFirst(before, x);
      assert before[1..] == changes[1..][..|changes| - 2] && changes[1..][|changes| - 2] == changes[|changes| - 1];
    }
  }

  /** The change that decides a member's role: the last that names it, those of no member being withdrawn. */
  ghost function Deciding(changes: seq<Single>, x: NodeId): Option<Single> {
    if x == 0 then None else Naming(changes, x)
  }

  /** Whether a stated change passes through a joint configuration. */
  ghost predicate Joins(stated: Stated) {
    stated.transition != Auto || |stated.changes| > 1
  }

  /** What a change that is not the leaving of a joint configuration makes of the roles. */
  ghost predicate Makes(r: Roles, stated: Stated, t: Roles) {
    && t.outgoing == (if Joins(stated) then r.voters else {})
    && t.autoLeave == (Joins(stated) && stated.transition != Explicit)
    && forall x :: Becomes(r.(outgoing := t.outgoing), t, x, Deciding(stated.changes, x))
  }

  /** The core applies a change exactly if it leaves a joint configuration that is one, or enters or simply makes
      another from one that is not joint, with a voter left; each member's role is then the one the last change
      naming it gives it. */
  lemma AppliedExactly(r: Roles, stated: Stated)
    requires ValidRoles(r)
    ensures var applied := CoreApply(r, stated);
      if stated == Stated(Auto, []) then
        if r.outgoing == {} then applied == Err(NotJoint)
        else applied == Ok(Roles(r.voters, {}, r.learners + r.next, {}, false))
      else if r.outgoing != {} then applied == Err(AlreadyJoint)
      else exists t :: Makes(r, stated, t) && applied == if t.voters == {} then Err(NoVoter) else Ok(t)
  {
    if stated == Stated(Auto, []) {
      if r.outgoing != {} {
        CoreValid(Roles(r.voters, {}, r.learners + r.next, {}, false));
      }
    } else if r.outgoing == {} {
      MadeExactly(r, stated);
    }
  }

  lemma MadeExactly(r: Roles, stated: Stated)
    requires ValidRoles(r) && r.outgoing == {} && stated != Stated(Auto, [])
    ensures exists t :: Makes(r, stated, t) && CoreApply(r, stated) == if t.voters == {} then Err(NoVoter) else Ok(t)
  {
    hide CoreChanges, Standing, Becomes;
    var changes := Standing(stated.changes);
    var from := if Joins(stated) then r.(outgoing := r.voters) else r;
    var made := CoreChanges(from, changes);
    var t := if Joins(stated) then made.(autoLeave := stated.transition != Explicit) else made;
    LastDecides(from, changes, 0);
    forall x
      ensures Becomes(from, t, x, Deciding(stated.changes, x))
    {
      LastDecides(from, changes, x);
      StandingNames(stated.changes, x);
      BecomesAlike(from, made, t, x, Naming(changes, x));
    }
    assert Becomes(from, t, 0, Deciding(stated.changes, 0));
    if !Joins(stated) {
      SingleMoves(r, stated, t);
    }
    assert r.(outgoing := t.outgoing) == from;
    assert Makes(r, stated, t);
    MadeIsChecked(r, from, t);
  }

  lemma BecomesAlike(r: Roles, s: Roles, t: Roles, x: NodeId, last: Option<Single>)
    requires Becomes(r, s, x, last) && t == s.(autoLeave := t.autoLeave)
    ensures Becomes(r, t, x, last)
  {
  }

  lemma SingleMoves(r: Roles, stated: Stated, t: Roles)
    requires |stated.changes| == 1 && t.outgoing == r.outgoing == {}
    requires forall x :: Becomes(r, t, x, Deciding(stated.changes, x))
    ensures |r.voters - t.voters| + |t.voters - r.voters| <= 1
  {
    var node := stated.changes[0].node;
    forall x | x != node
      ensures x in t.voters <==> x in r.voters
    {
      assert Becomes(r, t, x, Deciding(stated.changes, x));
      assert stated.changes[..0] == [] && Naming(stated.changes, x) == None;
    }
    MovesOne(r.voters, t.voters, node);
  }

  /** Of roles that do not overlap, only the want of a voter is refused. */
  lemma MadeIsChecked(r: Roles, from: Roles, t: Roles)
    requires ValidRoles(r) && r.outgoing == {} && (from == r || from == r.(outgoing := r.voters))
    requires Apart(t) && t.outgoing == from.outgoing && Becomes(from, t, 0, None)
    requires from == r ==> !t.autoLeave
    ensures Checked(t) == if t.voters == {} then Err(NoVoter) else Ok(t)
  {
  }

  /** What the core makes of an accepted change's entry is exactly what was predicted of it. */
  lemma PredictedIsApplied(change: Change, c: Conf)
    requires Fault(c) == None && ChangeFault(change, c) == None
    ensures CoreApply(RolesOf(c), Encode(change)) == Ok(RolesAfter(change, RolesOf(c)))
  {
    ValidExactly(c);
    AfterIsValid(change, c);
    NewcomerIsNew(change, c);
    if change.LeaveJoint? {
      assert c.outgoing[0] in RolesOf(c).outgoing;
    } else {
      assert RolesOf(c).outgoing == {};
    }
    hide Fault, ChangeFault, ValidRoles, RolesOf;
    RolesPredicted(change, RolesOf(c));
  }

  lemma RolesPredicted(change: Change, r: Roles)
    requires ValidRoles(r) && ValidRoles(RolesAfter(change, r)) && change.LeaveJoint? == (r.outgoing != {})
    requires change.AddLearner? ==> !Contains(r, change.node)
    ensures CoreApply(r, Encode(change)) == Ok(RolesAfter(change, r))
  {
    hide CoreFault;
    var after := RolesAfter(change, r);
    CoreValid(after);
    if !change.LeaveJoint? {
      var single := Encode(change).changes[0];
      assert change.node != 0 || (change.Remove? && after == r);
      if change.node == 0 {
        assert Standing([single]) == [];
      } else {
        assert Standing([single]) == [single];
        assert CoreChanges(r, [single]) == CoreChange(r, single) == after;
      }
      hide ValidRoles;
      MovesOne(r.voters, after.voters, change.node);
    }
  }

  lemma MovesOne(v: set<NodeId>, w: set<NodeId>, node: NodeId)
    requires w == v || w == v + {node} || w == v - {node}
    ensures |v - w| + |w - v| <= 1
  {
    assert v - w <= {node} && w - v <= {node};
    AtMostOne(v - w, node);
    AtMostOne(w - v, node);
    assert v - w == {} || w - v == {};
  }

  lemma AtMostOne(s: set<NodeId>, node: NodeId)
    requires s <= {node}
    ensures |s| <= 1
  {
    if s != {} {
      assert s == {node};
    }
  }

  // ---------------------------------------------------------------- who decides

  predicate Majority(voters: set<NodeId>, s: set<NodeId>) {
    2 * |s * voters| > |voters|
  }

  /** A decision needs a majority of the voters, and in a joint configuration of the outgoing ones too. */
  predicate Quorum(r: Roles, s: set<NodeId>) {
    Majority(r.voters, s) && (r.outgoing != {} ==> Majority(r.outgoing, s))
  }

  lemma CardUnion(a: set<NodeId>, b: set<NodeId>)
    ensures |a + b| + |a * b| == |a| + |b|
  {
    assert (a - b) + (a * b) == a && (a - b) !! (a * b);
    assert (a - b) + b == a + b && (a - b) !! b;
  }

  lemma CardSubset(a: set<NodeId>, b: set<NodeId>)
    requires a <= b
    ensures |a| <= |b|
  {
    assert b == a + (b - a);
  }

  /** Majorities of two voter sets at most one member apart meet. */
  lemma MajoritiesMeet(v: set<NodeId>, w: set<NodeId>, s: set<NodeId>, t: set<NodeId>)
    requires |v - w| + |w - v| <= 1 && Majority(v, s) && Majority(w, t)
    ensures s * t != {}
  {
    var a, b := s * v, t * w;
    CardUnion(a, b);
    CardSubset(a + b, v + w);
    CardUnion(v, w);
    assert (v - w) + (v * w) == v && (v - w) !! (v * w);
    assert (w - v) + (v * w) == w && (w - v) !! (v * w);
    assert |a * b| > 0;
    var x :| x in a * b;
    assert x in s * t;
  }

  lemma CoreChangesKeepOutgoing(r: Roles, changes: seq<Single>)
    ensures CoreChanges(r, changes).outgoing == r.outgoing
    decreases |changes|
  {
    if changes != [] {
      CoreChangesKeepOutgoing(CoreChange(r, changes[0]), changes[1..]);
    }
  }

  /** Whatever change the core applies, simple, into a joint configuration or out of one, every quorum
      before it meets every quorum after it. */
  lemma AppliedQuorumsMeet(r: Roles, stated: Stated, s: set<NodeId>, t: set<NodeId>)
    requires ValidRoles(r) && CoreApply(r, stated).Ok?
    requires Quorum(r, s) && Quorum(CoreApply(r, stated).value, t)
    ensures ValidRoles(CoreApply(r, stated).value) && s * t != {}
  {
    hide CoreChanges, Majority;
    var next := CoreApply(r, stated).value;
    CoreValid(next);
    var changes := Standing(stated.changes);
    if stated.transition == Auto && stated.changes == [] {
      MajoritiesMeet(r.voters, next.voters, s, t);
    } else if stated.transition != Auto || |stated.changes| > 1 {
      CoreChangesKeepOutgoing(r.(outgoing := r.voters), changes);
      assert next.outgoing == r.voters;
      MajoritiesMeet(r.voters, next.outgoing, s, t);
    } else {
      MajoritiesMeet(r.voters, next.voters, s, t);
    }
  }

  /** Every quorum of a configuration meets every quorum of the one an accepted change makes. */
  lemma ChangedQuorumsMeet(change: Change, c: Conf, s: set<NodeId>, t: set<NodeId>)
    requires Fault(c) == None && ChangeFault(change, c) == None
    requires Quorum(RolesOf(c), s) && Quorum(RolesAfter(change, RolesOf(c)), t)
    ensures s * t != {}
  {
    hide Quorum, ChangeFault, CoreApply;
    ValidExactly(c);
    PredictedIsApplied(change, c);
    AppliedQuorumsMeet(RolesOf(c), Encode(change), s, t);
  }

  ghost predicate MadeBy(change: Change, c: Conf, d: Conf) {
    && Fault(c) == None && ChangeFault(change, c) == None && Fault(d) == None
    && RolesOf(d) == RolesAfter(change, RolesOf(c))
  }

  /** Each configuration of a chain is made from the one before by a change that was accepted. */
  ghost predicate Chain(confs: seq<Conf>, changes: seq<Change>) {
    |confs| == |changes| + 1 && forall i :: 0 <= i < |changes| ==> MadeBy(changes[i], confs[i], confs[i + 1])
  }

  /** What the core holds once the changes' entries are applied in order, or why it refused one. */
  function CoreRun(r: Roles, changes: seq<Change>): Attempt<Roles, CoreError> {
    if changes == [] then Ok(r)
    else
      var before := CoreRun(r, changes[..|changes| - 1]);
      if before.Err? then before else CoreApply(before.value, Encode(changes[|changes| - 1]))
  }

  /** The core, given the entries of a whole chain, refuses none and holds after each what was predicted. */
  lemma {:induction false} ChainApplies(confs: seq<Conf>, changes: seq<Change>, k: nat)
    requires Chain(confs, changes) && k <= |changes|
    ensures CoreRun(RolesOf(confs[0]), changes[..k]) == Ok(RolesOf(confs[k]))
  {
    hide CoreApply, RolesOf, RolesAfter, Fault, ChangeFault;
    if k == 0 {
      assert changes[..0] == [];
    } else {
      ChainApplies(confs, changes, k - 1);
      assert changes[..k][..k - 1] == changes[..k - 1] && changes[..k][k - 1] == changes[k - 1];
      assert MadeBy(changes[k - 1], confs[k - 1], confs[k]);
      PredictedIsApplied(changes[k - 1], confs[k - 1]);
    }
  }

  /** So at no point of the chain can what the core held before an entry and what it holds after it decide
      apart. */
  lemma ChainQuorumsMeet(confs: seq<Conf>, changes: seq<Change>, i: nat, s: set<NodeId>, t: set<NodeId>)
    requires Chain(confs, changes) && i < |changes|
    ensures var before := CoreRun(RolesOf(confs[0]), changes[..i]);
      var after := CoreRun(RolesOf(confs[0]), changes[..i + 1]);
      before.Ok? && after.Ok? && (Quorum(before.value, s) && Quorum(after.value, t) ==> s * t != {})
  {
    hide Quorum, ChangeFault, Fault, CoreRun, RolesOf, RolesAfter;
    ChainApplies(confs, changes, i);
    ChainApplies(confs, changes, i + 1);
    assert MadeBy(changes[i], confs[i], confs[i + 1]);
    if Quorum(RolesOf(confs[i]), s) && Quorum(RolesOf(confs[i + 1]), t) {
      ChangedQuorumsMeet(changes[i], confs[i], s, t);
    }
  }

  // ---------------------------------------------------------------- the fast track's quorums

  /** The least number that is more than half. */
  function ClassicSize(members: nat): (size: nat)
    ensures members > 0 ==> members < 2 * size <= members + 2
    ensures members == 0 ==> size == 0
  {
    members / 2 + if members > 0 then 1 else 0
  }

  /** The least number that is three quarters or more. */
  function FastSize(members: nat): (size: nat)
    ensures 3 * members <= 4 * size < 3 * members + 4
  {
    members - members / 4
  }

  /** A fast quorum and a classic one have more than half of the classic one in common. */
  lemma FastMeetsClassic(voters: set<NodeId>, f: set<NodeId>, c: set<NodeId>)
    requires f <= voters && c <= voters && voters != {}
    requires |f| >= FastSize(|voters|) && |c| >= ClassicSize(|voters|)
    ensures 2 * |f * c| > |c|
  {
    CardUnion(f, c);
    CardSubset(f + c, voters);
  }

  /** Two fast quorums have at least half of the members in common, */
  lemma FastMeetsFast(voters: set<NodeId>, f: set<NodeId>, g: set<NodeId>)
    requires f <= voters && g <= voters && |f| >= FastSize(|voters|) && |g| >= FastSize(|voters|)
    ensures 2 * |f * g| >= |voters|
    ensures |voters| % 4 != 0 ==> 2 * |f * g| > |voters|
  {
    CardUnion(f, g);
    CardSubset(f + g, voters);
  }

  /** and no more than half for some two of them when the members are a multiple of four. */
  lemma FastMeetsFastInHalf(k: nat) returns (voters: set<NodeId>, f: set<NodeId>, g: set<NodeId>)
    requires k > 0
    ensures |voters| == 4 * k && f <= voters && g <= voters
    ensures |f| >= FastSize(|voters|) && |g| >= FastSize(|voters|) && 2 * |f * g| == |voters|
  {
    voters, f, g := UpTo(0, 4 * k), UpTo(0, 3 * k), UpTo(k, 4 * k);
    UpToSize(0, 4 * k);
    UpToSize(0, 3 * k);
    UpToSize(k, 4 * k);
    UpToSize(k, 3 * k);
    assert f * g == UpTo(k, 3 * k);
  }

  function UpTo(low: nat, high: nat): (s: set<NodeId>)
    ensures forall x :: x in s <==> low < x <= high
    decreases high
  {
    if low >= high then {} else UpTo(low, high - 1) + {high}
  }

  lemma {:induction false} UpToSize(low: nat, high: nat)
    requires low <= high
    ensures |UpTo(low, high)| == high - low
    decreases high
  {
    if low < high {
      UpToSize(low, high - 1);
    }
  }
}
