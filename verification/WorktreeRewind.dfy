/** A run of the delivery protocol in which the published candidate misses its target, because
    another writer reset the integration checkout before the merge (runtime/worktree_delivery.py). */
module WorktreeRewind {
  import opened Prelude
  import opened GitModel
  import opened WorktreeDelivery

  const FORK: Dag := map[0 := {}, 1 := {0}, 2 := {0}]

  const VALUE := Value(Inputs(2, 0, 1), None, InPreparation, false)

  const START := World(FORK, map[UserBranch(0) := 1], map[], map[], map[], map[], map[], map[], map[], {})

  function Resolved(): World {
    START.(pcs := map[0 := Planned(0, 1)])
  }

  function Scene(dag: Dag, leases: map<Dl, Pid>, heads: map<Dl, Commit>, dirty: map<Dl, bool>, pcs: map<Pid, Pc>): World {
    World(dag, map[UserBranch(0) := 1], map[0 := VALUE], map[], leases, heads, dirty, pcs, map[0 := VALUE.inputs], {})
  }

  function WithDelivery(): World {
    Scene(FORK, map[], map[], map[], map[0 := Registered(0, VALUE)])
  }

  function AfterCheckOut(): World {
    Scene(FORK, map[], map[0 := 1], map[0 := false], map[0 := CheckedOut(0, VALUE)])
  }

  function Intruded(): World {
    Scene(FORK, map[0 := 1], map[0 := 1], map[0 := false], map[0 := CheckedOut(0, VALUE), 1 := Foreign(0)])
  }

  function Rewound(): World {
    Scene(FORK, map[0 := 1], map[0 := 0], map[0 := false], map[0 := CheckedOut(0, VALUE), 1 := Foreign(0)])
  }

  function Left(): World {
    Scene(FORK, map[], map[0 := 0], map[0 := false], map[0 := CheckedOut(0, VALUE), 1 := Idle])
  }

  function Leased(): World {
    Scene(FORK, map[0 := 0], map[0 := 0], map[0 := false], map[0 := Merging(0, VALUE), 1 := Idle])
  }

  function AfterMerge(): World {
    Scene(FORK[3 := {0, 2}], map[0 := 0], map[0 := 3], map[0 := false], map[0 := Merged(0, VALUE, 3), 1 := Idle])
  }

  lemma PreparingSteps()
    ensures PrepareStep(START, 0, ResolveTarget(0), Resolved())
    ensures PrepareStep(Resolved(), 0, Register(0, 2), WithDelivery())
    ensures CheckOutStep(WithDelivery(), 0, CheckOut, AfterCheckOut())
  {}

  lemma IntruderSteps()
    ensures OutsideStep(AfterCheckOut(), 1, LeaseElsewhere(0), Intruded())
    ensures OutsideStep(Intruded(), 1, Rewind(0), Rewound())
  {}

  lemma IntruderLeaves()
    ensures OutsideStep(Rewound(), 1, LeaveElsewhere, Left())
  {}

  lemma MergeSteps()
    ensures CheckOutStep(Left(), 0, LeaseToMerge, Leased())
    ensures IntegrateStep(Leased(), 0, Merge(3), AfterMerge())
  {
    assert !IsAncestor(FORK, 2, 0);
    assert Grown(FORK, 3, {0, 2}) == AfterMerge().dag;
  }

  lemma OnwardToPrepare(s: World, p: Pid, step: Step, s': World)
    requires Reachable(s) && DagOk(s.dag) && PrepareStep(s, p, step, s')
    ensures Reachable(s')
  {
    Onward(s, p, step, s');
  }

  lemma OnwardToCheckOut(s: World, p: Pid, step: Step, s': World)
    requires Reachable(s) && DagOk(s.dag) && CheckOutStep(s, p, step, s')
    ensures Reachable(s')
  {
    Onward(s, p, step, s');
  }

  lemma OnwardOutside(s: World, p: Pid, step: Step, s': World)
    requires Reachable(s) && DagOk(s.dag) && OutsideStep(s, p, step, s')
    ensures Reachable(s')
  {
    Onward(s, p, step, s');
  }

  lemma OnwardToMerge(s: World, p: Pid, step: Step, s': World)
    requires Reachable(s) && DagOk(s.dag) && IntegrateStep(s, p, step, s')
    ensures Reachable(s')
  {
    Onward(s, p, step, s');
  }

  lemma StartIsReachable()
    ensures Reachable(START)
  {
    var worlds, moves: seq<Move> := [START], [];
    assert Run(worlds, moves) && worlds[|moves|] == START;
  }

  lemma CheckOutIsReachable()
    ensures Reachable(AfterCheckOut())
  {
    StartIsReachable();
    PreparingSteps();
    OnwardToPrepare(START, 0, ResolveTarget(0), Resolved());
    OnwardToPrepare(Resolved(), 0, Register(0, 2), WithDelivery());
    OnwardToCheckOut(WithDelivery(), 0, CheckOut, AfterCheckOut());
  }

  lemma LeftIsReachable()
    requires Reachable(AfterCheckOut())
    ensures Reachable(Left())
  {
    IntruderSteps();
    OnwardOutside(AfterCheckOut(), 1, LeaseElsewhere(0), Intruded());
    OnwardOutside(Intruded(), 1, Rewind(0), Rewound());
    IntruderLeaves();
    OnwardOutside(Rewound(), 1, LeaveElsewhere, Left());
  }

  lemma MergeIsReachable()
    requires Reachable(Left())
    ensures Reachable(AfterMerge())
  {
    MergeSteps();
    OnwardToCheckOut(Left(), 0, LeaseToMerge, Leased());
    OnwardToMerge(Leased(), 0, Merge(3), AfterMerge());
  }

  lemma MissesTarget(dag: Dag)
    requires dag == FORK[3 := {0, 2}] && DagOk(dag)
    ensures !IsAncestor(dag, 1, 3)
  {
    assert !IsAncestor(dag, 1, 0) && !IsAncestor(dag, 1, 2);
  }

  // ----- from the merge to the branch -----

  lemma OnwardToFinish(s: World, p: Pid, step: Step, s': World)
    requires Reachable(s) && DagOk(s.dag) && FinishStep(s, p, step, s')
    ensures Reachable(s')
  {
    Onward(s, p, step, s');
  }

  lemma OnwardToVerify(s: World, p: Pid, step: Step, s': World)
    requires Reachable(s) && DagOk(s.dag) && VerifyStep(s, p, step, s')
    ensures Reachable(s')
  {
    Onward(s, p, step, s');
  }

  lemma OnwardToJudge(s: World, p: Pid, step: Step, s': World)
    requires Reachable(s) && DagOk(s.dag) && JudgeStep(s, p, step, s')
    ensures Reachable(s')
  {
    Onward(s, p, step, s');
  }

  lemma OnwardToCheck(s: World, p: Pid, step: Step, s': World)
    requires Reachable(s) && DagOk(s.dag) && CheckStep(s, p, step, s')
    ensures Reachable(s')
  {
    Onward(s, p, step, s');
  }

  lemma OnwardToPublish(s: World, p: Pid, step: Step, s': World)
    requires Reachable(s) && DagOk(s.dag) && PublishStep(s, p, step, s')
    ensures Reachable(s')
  {
    Onward(s, p, step, s');
  }

  /** Nothing stands between the candidate and its branch: the checkout is the clean candidate,
      its ref holds it, the target is where it was, and the branch does not exist. */
  predicate Quiet(b: World, d: Dl, v: Value) {
    v.candidate.Some? && Unchanged(b, d, v) && HoldsCandidate(b, d, v.candidate.value) && TargetCurrent(b, v) && DeliveryBranch(d) !in b.refs
  }

  /** The process stands there, with this record stored; commits, refs and checkouts are as in `b`. */
  ghost predicate Standing(s: World, b: World, p: Pid, v: Value, pc: Pc, d: Dl, locked: bool, leased: bool) {
    && Reachable(s) && DagOk(s.dag) && PcOf(s, p) == pc && Quiet(b, d, v)
    && s.dag == b.dag && s.refs == b.refs && s.heads == b.heads && s.dirty == b.dirty
    && d in s.deliveries && s.deliveries[d] == v && (d in s.locks) == locked && (d in s.leases) == leased
  }

  lemma {:induction false} Prepares(b: World, p: Pid, d: Dl, v: Value) returns (s: World)
    requires Reachable(b) && DagOk(b.dag) && PcOf(b, p) == Referenced(d, v) && Quiet(b, d, v) && d !in b.locks && d !in b.leases
    ensures Standing(s, b, p, v, Idle, d, false, false)
  {
    var saved := To(Save(b, d, v), p, Reporting(d, v));
    OnwardToFinish(b, p, SavePrepared, saved);
    s := To(saved, p, Idle);
    OnwardToFinish(saved, p, PrepareReturns, s);
  }

  lemma {:induction false} Announces(s: World, b: World, p: Pid, d: Dl, v: Value) returns (s': World)
    requires Standing(s, b, p, v, Idle, d, false, false) && v.status == Prepared
    ensures var w := v.(status := Verifying, passed := false); Standing(s', b, p, w, Announced(d, w), d, true, false)
  {
    var w := v.(status := Verifying, passed := false);
    var locked := To(s.(locks := s.locks[d := p]), p, Verifier(d));
    OnwardToVerify(s, p, LockToVerify(d), locked);
    var eligible := To(locked, p, Eligible(d, v));
    OnwardToVerify(locked, p, CheckEligible, eligible);
    s' := To(Save(eligible, d, w), p, Announced(d, w));
    OnwardToVerify(eligible, p, Announce, s');
  }

  lemma {:induction false} Judges(s: World, b: World, p: Pid, d: Dl, v: Value) returns (s': World)
    requires Standing(s, b, p, v, Announced(d, v), d, true, false)
    ensures Reachable(s') && DagOk(s'.dag) && PcOf(s', p) == Judged(d, v.(passed := true, status := Verified))
    ensures s'.dag == b.dag && s'.refs == b.refs && s'.heads == b.heads && s'.dirty == b.dirty
    ensures d in s'.locks && d !in s'.leases
  {
    var running := To(s.(leases := s.leases[d := p]), p, Running(d, v));
    OnwardToJudge(s, p, LeaseToRun, running);
    s' := To(Unlease(running, d).(passes := running.passes + {d}), p, Judged(d, v.(passed := true, status := Verified)));
    OnwardToJudge(running, p, Judge(true), s');
  }

  lemma {:induction false} VerificationPasses(s: World, b: World, p: Pid, d: Dl, v: Value) returns (s': World)
    requires Standing(s, b, p, v, Announced(d, v), d, true, false)
    ensures Standing(s', b, p, v.(passed := true, status := Verified), Idle, d, false, false)
  {
    var w := v.(passed := true, status := Verified);
    var judged := Judges(s, b, p, d, v);
    var saved := To(Save(judged, d, w), p, Told(d, w));
    OnwardToJudge(judged, p, SaveJudgement, saved);
    s' := To(Unlock(saved, d), p, Idle);
    OnwardToJudge(saved, p, VerifyReturns, s');
  }

  lemma {:induction false} FindsCurrent(s: World, b: World, p: Pid, d: Dl, v: Value) returns (s': World)
    requires Standing(s, b, p, v, Idle, d, false, false) && v.status == Verified && v.passed
    ensures Standing(s', b, p, v, Current(d, v), d, true, false)
  {
    var locked := To(s.(locks := s.locks[d := p]), p, Publisher(d));
    OnwardToCheck(s, p, LockToPublish(d), locked);
    s' := To(locked, p, Current(d, v));
    OnwardToCheck(locked, p, CheckCurrent, s');
  }

  lemma {:induction false} FindsBranchAbsent(s: World, b: World, p: Pid, d: Dl, v: Value) returns (s': World)
    requires Standing(s, b, p, v, Current(d, v), d, true, false)
    ensures Standing(s', b, p, v, Absent(d, v), d, true, false)
  {
    var intact := To(s, p, Intact(d, v));
    OnwardToPublish(s, p, CheckRef, intact);
    s' := To(intact, p, Absent(d, v));
    OnwardToPublish(intact, p, FindAbsent, s');
  }

  /** The merge is done and nothing stands in the way of its publication. */
  predicate Unhindered(s: World, p: Pid, d: Dl, v: Value, c: Commit) {
    && PcOf(s, p) == Merged(d, v, c) && Service(CandidateRef(d)) !in s.refs && d !in s.locks
    && d in s.heads && s.heads[d] == c && d in s.dirty && !s.dirty[d] && TargetCurrent(s, v) && DeliveryBranch(d) !in s.refs
  }

  lemma {:induction false} GetsItsRef(s: World, p: Pid, d: Dl, v: Value, c: Commit) returns (b: World)
    requires Reachable(s) && DagOk(s.dag) && Unhindered(s, p, d, v, c)
    ensures var w := v.(candidate := Some(c), status := Prepared);
      Reachable(b) && b.dag == s.dag && PcOf(b, p) == Referenced(d, w) && Quiet(b, d, w) && d !in b.locks && d !in b.leases
  {
    var w := v.(candidate := Some(c), status := Prepared);
    b := To(Unlease(s, d).(refs := s.refs[Service(CandidateRef(d)) := c]), p, Referenced(d, w));
    OnwardToMerge(s, p, CreateRef, b);
  }

  /** From any reachable world in which a process has merged the candidate and nothing stands in
      the way, some run creates the delivery branch at that candidate. */
  lemma {:induction false} MergedCanBePublished(s: World, p: Pid, d: Dl, v: Value, c: Commit) returns (before: World, after: World)
    requires Reachable(s) && DagOk(s.dag) && Unhindered(s, p, d, v, c)
    ensures Reachable(before) && Publishes(before, Move(p, RefTransaction), d, c) && Next(before, p, RefTransaction, after) && Reachable(after)
    ensures after.dag == s.dag && TargetCurrent(after, v) && DeliveryBranch(d) in after.refs && after.refs[DeliveryBranch(d)] == c
  {
    var w := v.(candidate := Some(c), status := Prepared);
    var b := GetsItsRef(s, p, d, v, c);
    before := VerifiedAndFound(b, p, d, w);
    after := To(before.(refs := before.refs[DeliveryBranch(d) := c]), p, Exposed(d, w.(passed := true, status := Verified)));
    OnwardToPublish(before, p, RefTransaction, after);
  }

  lemma {:induction false} VerifiedAndFound(b: World, p: Pid, d: Dl, v: Value) returns (s: World)
    requires Reachable(b) && DagOk(b.dag) && PcOf(b, p) == Referenced(d, v) && Quiet(b, d, v) && d !in b.locks && d !in b.leases
    requires v.status == Prepared
    ensures var w := v.(passed := true, status := Verified); Standing(s, b, p, w, Absent(d, w), d, true, false)
  {
    var announced := v.(status := Verifying, passed := false);
    s := Prepares(b, p, d, v);
    s := Announces(s, b, p, d, v);
    s := VerificationPasses(s, b, p, d, announced);
    s := FindsCurrent(s, b, p, d, v.(passed := true, status := Verified));
    s := FindsBranchAbsent(s, b, p, d, v.(passed := true, status := Verified));
  }

  lemma {:induction false} MergedFacts(s: World)
    requires s == AfterMerge()
    ensures Unhindered(s, 0, 0, VALUE, 3)
    ensures s.dag == FORK[3 := {0, 2}] && DagOk(s.dag)
  {}

  /** Without that proviso the claim is false, and the candidate is delivered: between the
      creation of the checkout and the merge another writer leases the checkout, resets it and
      leaves; the verification passes and the branch is created without the target in it. */
  lemma {:induction false} RewoundCandidateMissesTarget() returns (before: World, after: World)
    ensures Reachable(before) && Publishes(before, Move(0, RefTransaction), 0, 3) && Next(before, 0, RefTransaction, after) && Reachable(after)
    ensures TargetCurrent(after, VALUE) && DeliveryBranch(0) in after.refs && after.refs[DeliveryBranch(0)] == 3
    ensures DagOk(after.dag) && !IsAncestor(after.dag, VALUE.inputs.targetSha, 3)
  {
    CheckOutIsReachable();
    LeftIsReachable();
    MergeIsReachable();
    var s := AfterMerge();
    MergedFacts(s);
    before, after := MergedCanBePublished(s, 0, 0, VALUE, 3);
    MissesTarget(s.dag);
  }
}
