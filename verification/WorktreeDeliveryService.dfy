/** Preparing, verifying and publishing a delivery as one process does it, with every other
    process free to move between any two of its steps (runtime/worktree_delivery.py). */
module WorktreeDeliveryServices {
  import opened Prelude
  import opened GitModel
  import opened WorktreeDelivery

  /** Moves of processes other than `p` lead from one world to the other. */
  ghost predicate OthersPath(worlds: seq<World>, moves: seq<Move>, p: Pid) {
    && |worlds| == |moves| + 1
    && forall i :: 0 <= i < |moves| ==> Next(worlds[i], moves[i].pid, moves[i].step, worlds[i + 1]) && moves[i].pid != p
  }

  ghost predicate OthersMoved(s: World, s': World, p: Pid) {
    exists worlds: seq<World>, moves: seq<Move> :: OthersPath(worlds, moves, p) && worlds[0] == s && worlds[|moves|] == s'
  }

  lemma ReachableHasInv(s: World)
    requires Reachable(s)
    ensures Inv(s)
  {
    var worlds: seq<World>, moves: seq<Move> :| Run(worlds, moves) && worlds[|moves|] == s;
    RunKeepsInv(worlds, moves, |moves|);
  }

  lemma OneOtherMove(s: World, move: Move, s': World, p: Pid)
    requires Inv(s) && Next(s, move.pid, move.step, s') && move.pid != p
    ensures HistoryGrows(s, s') && PcOf(s', p) == PcOf(s, p)
  {
    assert PcOk(s, PcOf(s, move.pid)) && CommitsExist(s, PcOf(s, move.pid));
    StepKeepsInv(s, move.pid, move.step, s');
    StepEffect(s, move.pid, move.step, s');
  }

  lemma {:induction false} OthersKeepMyPlace(worlds: seq<World>, moves: seq<Move>, n: nat, p: Pid)
    requires OthersPath(worlds, moves, p) && n <= |moves| && Reachable(worlds[0])
    ensures Reachable(worlds[n]) && HistoryGrows(worlds[0], worlds[n]) && PcOf(worlds[n], p) == PcOf(worlds[0], p)
  {
    if n == 0 {
      ReachableHasInv(worlds[0]);
    } else {
      OthersKeepMyPlace(worlds, moves, n - 1, p);
      ReachableHasInv(worlds[n - 1]);
      OneOtherMove(worlds[n - 1], moves[n - 1], worlds[n], p);
      GrowthIsTransitive(worlds[0], worlds[n - 1], worlds[n]);
      Onward(worlds[n - 1], moves[n - 1].pid, moves[n - 1].step, worlds[n]);
    }
  }

  class WorktreeDeliveryService {
    const pid: Pid
    var world: World

    constructor (pid: Pid, world: World)
      ensures this.pid == pid && this.world == world
    {
      this.pid, this.world := pid, world;
    }

    function At(): Pc
      reads this
    {
      PcOf(world, pid)
    }

    method Interfere()
      modifies this`world
      ensures OthersMoved(old(world), world, pid)
    {
      ghost var worlds, moves: seq<Move> := [world], [];
      assert OthersPath(worlds, moves, pid) && worlds[0] == world && worlds[|moves|] == world;
    }

    method Wait()
      requires Reachable(world)
      modifies this`world
      ensures Reachable(world) && HistoryGrows(old(world), world) && At() == old(At())
    {
      ghost var before := world;
      Interfere();
      ghost var worlds: seq<World>, moves: seq<Move> :|
        OthersPath(worlds, moves, pid) && worlds[0] == before && worlds[|moves|] == world;
      OthersKeepMyPlace(worlds, moves, |moves|, pid);
    }

    lemma HasInv()
      requires Reachable(world)
      ensures Inv(world) && PcOk(world, At())
    {
      ReachableHasInv(world);
    }

    lemma HasDag()
      requires Reachable(world)
      ensures DagOk(world.dag)
    {
      ReachableHasInv(world);
    }

    // One step of the protocol, by its kind.

    method TakePrepare(ghost step: Step, next: World)
      requires Reachable(world) && PrepareStep(world, pid, step, next)
      modifies this`world
      ensures Reachable(world) && HistoryGrows(old(world), world) && world == next
    {
      HasInv();
      StepKeepsInv(world, pid, step, next);
      Onward(world, pid, step, next);
      world := next;
    }

    method TakeCheckOut(ghost step: Step, next: World)
      requires Reachable(world) && CheckOutStep(world, pid, step, next)
      modifies this`world
      ensures Reachable(world) && HistoryGrows(old(world), world) && world == next
    {
      HasInv();
      StepKeepsInv(world, pid, step, next);
      Onward(world, pid, step, next);
      world := next;
    }

    method TakeIntegrate(ghost step: Step, next: World)
      requires Reachable(world) && DagOk(world.dag) && IntegrateStep(world, pid, step, next)
      modifies this`world
      ensures Reachable(world) && HistoryGrows(old(world), world) && world == next
    {
      HasInv();
      StepKeepsInv(world, pid, step, next);
      Onward(world, pid, step, next);
      world := next;
    }

    method TakeFinish(ghost step: Step, next: World)
      requires Reachable(world) && FinishStep(world, pid, step, next)
      modifies this`world
      ensures Reachable(world) && HistoryGrows(old(world), world) && world == next
    {
      HasInv();
      StepKeepsInv(world, pid, step, next);
      Onward(world, pid, step, next);
      world := next;
    }

    method TakeVerify(ghost step: Step, next: World)
      requires Reachable(world) && VerifyStep(world, pid, step, next)
      modifies this`world
      ensures Reachable(world) && HistoryGrows(old(world), world) && world == next
    {
      HasInv();
      StepKeepsInv(world, pid, step, next);
      Onward(world, pid, step, next);
      world := next;
    }

    method TakeJudge(ghost step: Step, next: World)
      requires Reachable(world) && DagOk(world.dag) && JudgeStep(world, pid, step, next)
      modifies this`world
      ensures Reachable(world) && HistoryGrows(old(world), world) && world == next
    {
      HasInv();
      StepKeepsInv(world, pid, step, next);
      Onward(world, pid, step, next);
      world := next;
    }

    method TakeCheck(ghost step: Step, next: World)
      requires Reachable(world) && CheckStep(world, pid, step, next)
      modifies this`world
      ensures Reachable(world) && HistoryGrows(old(world), world) && world == next
    {
      HasInv();
      StepKeepsInv(world, pid, step, next);
      Onward(world, pid, step, next);
      world := next;
    }

    method TakePublish(ghost step: Step, next: World)
      requires Reachable(world) && PublishStep(world, pid, step, next)
      modifies this`world
      ensures Reachable(world) && HistoryGrows(old(world), world) && world == next
    {
      HasInv();
      StepKeepsInv(world, pid, step, next);
      Onward(world, pid, step, next);
      world := next;
    }

    // ----- prepare -----

    /** A failure anywhere in the preparation is saved over the record. */
    method Fail()
      requires Reachable(world) && Preparing(At())
      modifies this`world
      ensures Reachable(world) && HistoryGrows(old(world), world) && At() == Idle
    {
      var pc := At();
      TakeFinish(PrepareFails, To(Save(world, pc.d, pc.v.(status := Status.Failed)).(
        leases := if pc.Merging? || pc.Merged? then world.leases - {pc.d} else world.leases), pid, Idle));
    }

    /** A merge of the source into the head is possible: up to date, or `number` is free for the
        merge commit. */
    predicate Mergeable(s: World, d: Dl, source: Commit, number: Commit)
      requires DagOk(s.dag)
    {
      d in s.heads && (IsAncestor(s.dag, source, s.heads[d]) || (number !in s.dag && MayGrow(s.dag, number, {s.heads[d], source})))
    }

    /** What can stop a preparation, told by where the process stands. */
    ghost predicate StopsPreparing(at: World, d: Dl, number: Commit) {
      && Reachable(at) && DagOk(at.dag)
      && match PcOf(at, pid)
         case Planned(_, _) => d in at.inputs
         case CheckedOut(e, _) => e == d && d in at.leases
         case Merging(e, v) => e == d && !Mergeable(at, d, v.inputs.source, number)
         case Merged(e, _, _) => e == d && Service(CandidateRef(d)) in at.refs
         case _ => false
    }

    /** Reads the target, then registers the delivery with its inputs fixed. */
    method Begin(d: Dl, target: nat, source: Commit, dirty: bool, ghost number: Commit) returns (v: Option<Value>, ghost at: World)
      requires Reachable(world) && At() == Idle && source in world.dag
      modifies this`world
      ensures v.None? ==> UserBranch(target) !in old(world.refs) || dirty || StopsPreparing(at, d, number)
      ensures Reachable(world) && At() == if v.Some? then Registered(d, v.value) else Idle
      ensures v.Some? ==> v.value.inputs == Inputs(source, target, v.value.inputs.targetSha) && d in world.inputs && world.inputs[d] == v.value.inputs
    {
      at := world;
      if UserBranch(target) !in world.refs { return None, at; }
      var sha := world.refs[UserBranch(target)];
      TakePrepare(ResolveTarget(target), To(world, pid, Planned(target, sha)));
      Wait();
      at := world;
      if dirty || d in world.inputs {
        HasDag();
        TakePrepare(SourceIsDirty, To(world, pid, Idle));
        return None, at;
      }
      v := Some(Value(Inputs(source, target, sha), None, InPreparation, false));
      TakePrepare(Register(d, source), To(Save(world, d, v.value).(inputs := world.inputs[d := v.value.inputs]), pid, Registered(d, v.value)));
    }

    /** The integration checkout at the target commit. */
    method AddCheckout(d: Dl, v: Value)
      requires Reachable(world) && At() == Registered(d, v)
      modifies this`world
      ensures Reachable(world) && HistoryGrows(old(world), world) && At() == CheckedOut(d, v) && d in world.heads
    {
      Wait();
      TakeCheckOut(CheckOut, To(world.(heads := world.heads[d := v.inputs.targetSha], dirty := world.dirty[d := false]), pid, CheckedOut(d, v)));
      Wait();
    }

    method TakeLease(d: Dl, v: Value) returns (leased: bool)
      requires Reachable(world) && At() == CheckedOut(d, v)
      modifies this`world
      ensures Reachable(world) && HistoryGrows(old(world), world) && At() == if leased then Merging(d, v) else CheckedOut(d, v)
      ensures leased == (d !in old(world.leases))
    {
      leased := d !in world.leases;
      if leased {
        TakeCheckOut(LeaseToMerge, To(world.(leases := world.leases[d := pid]), pid, Merging(d, v)));
      }
      Wait();
    }

    /** The commit a merge of the source into the head would give; `number` is for a new one. */
    method MergeCommit(d: Dl, v: Value, number: Commit) returns (commit: Option<Commit>)
      requires DagOk(world.dag) && At() == Merging(d, v) && d in world.heads
      ensures commit.Some? == Mergeable(world, d, v.inputs.source, number)
      ensures commit.Some? ==>
        if IsAncestor(world.dag, v.inputs.source, world.heads[d]) then commit.value == world.heads[d]
        else commit.value !in world.dag && MayGrow(world.dag, commit.value, {world.heads[d], v.inputs.source})
    {
      var head, source := world.heads[d], v.inputs.source;
      if IsAncestor(world.dag, source, head) { return Some(head); }
      commit := if number !in world.dag && MayGrow(world.dag, number, {head, source}) then Some(number) else None;
    }

    method MergeSource(d: Dl, v: Value, number: Commit) returns (merged: bool)
      requires Reachable(world) && At() == Merging(d, v) && d in world.heads
      modifies this`world
      ensures Reachable(world) && HistoryGrows(old(world), world)
      ensures !merged ==> StopsPreparing(old(world), d, number)
      ensures merged ==> At().Merged? && At().d == d && At().v == v
      ensures !merged ==> At() == Merging(d, v)
    {
      HasDag();
      var commit := MergeCommit(d, v, number);
      merged := commit.Some?;
      if merged {
        TakeIntegrate(Merge(commit.value), To(
          world.(dag := Grown(world.dag, commit.value, {world.heads[d], v.inputs.source}), heads := world.heads[d := commit.value]),
          pid, Merged(d, v, commit.value)));
      }
      Wait();
    }

    /** The candidate's dedicated ref, created only when absent. */
    method FixCandidate(d: Dl, v: Value, ghost number: Commit) returns (fixed: bool)
      requires Reachable(world) && At().Merged? && At().d == d && At().v == v
      modifies this`world
      ensures Reachable(world) && HistoryGrows(old(world), world) && Preparing(At()) && At().d == d
      ensures !fixed ==> StopsPreparing(old(world), d, number)
      ensures fixed ==> At().Referenced? && Service(CandidateRef(d)) in world.refs
    {
      HasDag();
      var commit := At().commit;
      fixed := Service(CandidateRef(d)) !in world.refs;
      if fixed {
        TakeIntegrate(CreateRef, To(Unlease(world, d).(refs := world.refs[Service(CandidateRef(d)) := commit]),
                                    pid, Referenced(d, v.(candidate := Some(commit), status := Prepared))));
      }
      Wait();
    }

    method Conflict(d: Dl, v: Value)
      requires Reachable(world) && At() == Merging(d, v)
      modifies this`world
      ensures Reachable(world) && HistoryGrows(old(world), world) && At() == Referenced(d, v.(status := Conflicting))
    {
      HasDag();
      TakeIntegrate(MergeConflicts, To(Unlease(world, d), pid, Referenced(d, v.(status := Conflicting))));
      Wait();
    }

    /** Saves the outcome; reading it back may still fail, which is saved as a failure. */
    method Report(shown: bool)
      requires Reachable(world) && At().Referenced?
      modifies this`world
      ensures Reachable(world) && HistoryGrows(old(world), world) && At() == Idle
    {
      var d, v := At().d, At().v;
      TakeFinish(SavePrepared, To(Save(world, d, v), pid, Reporting(d, v)));
      Wait();
      if shown { TakeFinish(PrepareReturns, To(world, pid, Idle)); } else { Fail(); }
    }

    /** The merge of a registered delivery, up to its dedicated ref or a conflict. */
    method Integrate(d: Dl, v: Value, number: Commit, conflicts: bool) returns (done: bool, fixed: bool, ghost at: World)
      requires Reachable(world) && At() == Registered(d, v)
      modifies this`world
      ensures Reachable(world) && HistoryGrows(old(world), world) && Preparing(At())
      ensures done ==> At().Referenced? && (fixed || conflicts)
      ensures !done ==> StopsPreparing(at, d, number)
      ensures fixed ==> done && Service(CandidateRef(d)) in world.refs
    {
      done, fixed := false, false;
      AddCheckout(d, v);
      at := world;
      HasDag();
      var leased := TakeLease(d, v);
      if !leased { return; }
      if conflicts {
        Conflict(d, v);
        done := true;
        return;
      }
      at := world;
      var merged := MergeSource(d, v, number);
      if !merged { return; }
      at := world;
      fixed := FixCandidate(d, v, number);
      done := fixed;
    }

    /** Prepares a candidate. When it succeeds the candidate is fixed for good: its inputs are
        recorded and a dedicated ref holds it. */
    method Prepare(d: Dl, target: nat, source: Commit, number: Commit, dirty: bool, conflicts: bool, preserved: bool, shown: bool)
      returns (ok: bool, ghost at: World)
      requires Reachable(world) && At() == Idle && source in world.dag
      modifies this`world
      ensures Reachable(world) && At() == Idle
      ensures ok ==> d in world.inputs && world.inputs[d].source == source && world.inputs[d].target == target
      ensures ok ==> Service(CandidateRef(d)) in world.refs
      ensures ok || UserBranch(target) !in old(world.refs) || dirty || conflicts || !preserved || !shown || StopsPreparing(at, d, number)
    {
      var v;
      v, at := Begin(d, target, source, dirty, number);
      if v.None? { return false, at; }
      var done, fixed;
      done, fixed, at := Integrate(d, v.value, number, conflicts);
      if done && (preserved || !fixed) { Report(shown); } else { Fail(); }
      ok := fixed && preserved && shown;
    }

    // ----- verify -----

    /** A current candidate is stored and its checkout still is that clean commit. */
    predicate Verifiable(s: World, d: Dl) {
      && d in s.deliveries && Shown(s, s.deliveries[d]) in {Prepared, Verified, Status.Failed}
      && s.deliveries[d].candidate.Some? && Unchanged(s, d, s.deliveries[d])
    }

    /** What can stop a verification, told by where the process stands. */
    ghost predicate StopsVerifying(at: World, d: Dl) {
      && Reachable(at)
      && match PcOf(at, pid)
         case Idle => d in at.locks
         case Verifier(e) => e == d && !Verifiable(at, d)
         case Announced(e, _) => e == d && d in at.leases
         case Running(e, v) => e == d && !Unchanged(at, d, v)
         case _ => false
    }

    /** Takes the delivery's lock and checks that a current, unchanged candidate is there. */
    method LockEligible(d: Dl) returns (v: Option<Value>, ghost at: World)
      requires Reachable(world) && At() == Idle
      modifies this`world
      ensures Reachable(world) && At() == if v.Some? then Eligible(d, v.value) else Idle
      ensures v.None? ==> StopsVerifying(at, d)
    {
      at := world;
      if d in world.locks { return None, at; }
      TakeVerify(LockToVerify(d), To(world.(locks := world.locks[d := pid]), pid, Verifier(d)));
      Wait();
      at := world;
      if Verifiable(world, d) {
        v := Some(world.deliveries[d]);
        TakeVerify(CheckEligible, To(world, pid, Eligible(d, v.value)));
      } else {
        v := None;
        TakeVerify(NotEligible, To(Unlock(world, d), pid, Idle));
      }
    }

    /** Withdraws the earlier evidence before the command starts. */
    method AnnounceRun(d: Dl, v: Value) returns (w: Value)
      requires Reachable(world) && At() == Eligible(d, v)
      modifies this`world
      ensures Reachable(world) && At() == Announced(d, w) && w == v.(status := Verifying, passed := false)
    {
      w := v.(status := Verifying, passed := false);
      TakeVerify(Announce, To(Save(world, d, w), pid, Announced(d, w)));
      Wait();
    }

    method FailVerification(d: Dl, v: Value)
      requires Reachable(world) && (At() == Announced(d, v) || At() == Running(d, v) || At() == Judged(d, v) || At() == Told(d, v))
      modifies this`world
      ensures Reachable(world) && HistoryGrows(old(world), world) && At() == Idle
      ensures d in world.deliveries && world.deliveries[d].status == Status.Failed && !world.deliveries[d].passed
    {
      HasDag();
      var running := At().Running?;
      TakeJudge(VerifyFails, To(Save(world, d, v.(status := Status.Failed, passed := false)).(
        locks := world.locks - {d}, leases := if running then world.leases - {d} else world.leases), pid, Idle));
    }

    method LeaseForRun(d: Dl, v: Value) returns (leased: bool)
      requires Reachable(world) && At() == Announced(d, v)
      modifies this`world
      ensures Reachable(world) && At() == if leased then Running(d, v) else Announced(d, v)
      ensures leased == (d !in old(world.leases))
    {
      HasDag();
      leased := d !in world.leases;
      if leased { TakeJudge(LeaseToRun, To(world.(leases := world.leases[d := pid]), pid, Running(d, v))); }
      Wait();
    }

    /** The command may do anything to the checkout, commit included. */
    method RunCommand(d: Dl, v: Value, head: Commit, parents: set<Commit>, dirty: bool)
      requires Reachable(world) && At() == Running(d, v)
      modifies this`world
      ensures Reachable(world) && At() == Running(d, v)
    {
      HasDag();
      if MayGrow(world.dag, head, parents) {
        TakeJudge(Command(head, parents, dirty), To(world.(dag := Grown(world.dag, head, parents),
          heads := world.heads[d := head], dirty := world.dirty[d := dirty]), pid, Running(d, v)));
      }
      Wait();
    }

    /** Judges the run: passed only if the command succeeded and left the clean candidate. */
    method JudgeRun(d: Dl, v: Value, succeeded: bool) returns (w: Value)
      requires Reachable(world) && At() == Running(d, v)
      modifies this`world
      ensures Reachable(world) && At() == Judged(d, w) && w.candidate == v.candidate
      ensures w.passed == (succeeded && old(Unchanged(world, d, v))) && (w.passed ==> d in world.passes)
    {
      HasInv();
      var passed := succeeded && Unchanged(world, d, v);
      w := v.(passed := passed, status := if passed then Verified else Status.Failed);
      TakeJudge(Judge(succeeded), To(Unlease(world, d).(passes := if passed then world.passes + {d} else world.passes), pid, Judged(d, w)));
      Wait();
    }

    method SaveOutcome(d: Dl, v: Value)
      requires Reachable(world) && At() == Judged(d, v)
      modifies this`world
      ensures Reachable(world) && HistoryGrows(old(world), world) && At() == Told(d, v)
    {
      HasDag();
      TakeJudge(SaveJudgement, To(Save(world, d, v), pid, Told(d, v)));
      Wait();
    }

    method ReturnOutcome(d: Dl, v: Value)
      requires Reachable(world) && At() == Told(d, v)
      modifies this`world
      ensures Reachable(world) && HistoryGrows(old(world), world) && At() == Idle
    {
      HasDag();
      TakeJudge(VerifyReturns, To(Unlock(world, d), pid, Idle));
    }

    /** The announced run under its lease, judged. */
    method RunAndJudge(d: Dl, v: Value, head: Commit, parents: set<Commit>, dirty: bool, succeeded: bool)
      returns (w: Option<Value>, ghost at: World)
      requires Reachable(world) && At() == Announced(d, v)
      modifies this`world
      ensures Reachable(world) && At() == if w.Some? then Judged(d, w.value) else Announced(d, v)
      ensures w.Some? && w.value.passed ==> succeeded && d in world.passes
      ensures w.None? || (succeeded && !w.value.passed) ==> StopsVerifying(at, d)
    {
      at := world;
      var leased := LeaseForRun(d, v);
      if !leased { return None, at; }
      RunCommand(d, v, head, parents, dirty);
      at := world;
      var judged := JudgeRun(d, v, succeeded);
      w := Some(judged);
    }

    /** Verifies a candidate. It only reports success for a command that succeeded, and then the
        pass is on record. */
    method Verify(d: Dl, head: Commit, parents: set<Commit>, dirty: bool, succeeded: bool, saved: bool, shown: bool)
      returns (passed: bool, ghost at: World)
      requires Reachable(world) && At() == Idle
      modifies this`world
      ensures Reachable(world) && At() == Idle
      ensures passed ==> succeeded && saved && shown && d in world.passes
      ensures passed || !succeeded || !saved || !shown || StopsVerifying(at, d)
    {
      passed := false;
      var v;
      v, at := LockEligible(d);
      if v.None? { return; }
      Wait();
      var announced := AnnounceRun(d, v.value);
      var w;
      w, at := RunAndJudge(d, announced, head, parents, dirty, succeeded);
      if w.None? {
        FailVerification(d, announced);
        return;
      }
      if !saved {
        FailVerification(d, w.value);
        return;
      }
      SaveOutcome(d, w.value);
      if shown { ReturnOutcome(d, w.value); } else { FailVerification(d, w.value); }
      passed := shown && w.value.passed;
    }

    // ----- publish -----

    method Decline(d: Dl)
      requires Reachable(world) && (At().Current? || At().Intact? || At().Absent?) && At().d == d
      modifies this`world
      ensures Reachable(world) && At() == Idle
    {
      TakePublish(PublishFails, To(Unlock(world, d), pid, Idle));
    }

    /** The stored delivery may be published as far as its record and its target tell. */
    predicate Publishable(s: World, d: Dl) {
      d in s.deliveries && Shown(s, s.deliveries[d]) == Verified && s.deliveries[d].passed
    }

    /** What can stop a publication, told by where the process stands. */
    ghost predicate StopsPublishing(at: World, d: Dl) {
      && Reachable(at)
      && match PcOf(at, pid)
         case Idle => d in at.locks
         case Publisher(e) => e == d && !Publishable(at, d)
         case Intact(e, v) => e == d && DeliveryBranch(d) in at.refs && Some(at.refs[DeliveryBranch(d)]) != v.candidate
         case Absent(e, v) => e == d && (!TargetCurrent(at, v) || DeliveryBranch(d) in at.refs)
         case _ => false
    }

    method CheckVerified(d: Dl) returns (v: Option<Value>)
      requires Reachable(world) && At() == Publisher(d)
      modifies this`world
      ensures Reachable(world) && At() == if v.Some? then Current(d, v.value) else Idle
      ensures v.Some? == old(Publishable(world, d)) && (v.Some? ==> v.value == old(world.deliveries[d]))
      ensures HistoryGrows(old(world), world)
    {
      if Publishable(world, d) {
        v := Some(world.deliveries[d]);
        TakeCheck(CheckCurrent, To(world, pid, Current(d, v.value)));
      } else {
        v := None;
        TakeCheck(NothingToPublish, To(Unlock(world, d), pid, Idle));
      }
    }

    /** Takes the lock; only a verified, passed delivery whose target has not moved goes on. */
    method LockCurrent(d: Dl) returns (v: Option<Value>, ghost at: World)
      requires Reachable(world) && At() == Idle
      modifies this`world
      ensures Reachable(world) && At() == if v.Some? then Current(d, v.value) else Idle
      ensures Reachable(at) && v.Some? == (d !in old(world.locks) && Publishable(at, d))
      ensures v.None? ==> StopsPublishing(at, d)
      ensures v.Some? ==> v.value == at.deliveries[d] && v.value.passed
    {
      at := world;
      if d in world.locks { return None, at; }
      TakeCheck(LockToPublish(d), To(world.(locks := world.locks[d := pid]), pid, Publisher(d)));
      Wait();
      at := world;
      v := CheckVerified(d);
    }

    method CheckDedicatedRef(d: Dl, v: Value)
      requires Reachable(world) && At() == Current(d, v)
      modifies this`world
      ensures Reachable(world) && At() == Intact(d, v) && v.candidate.Some?
    {
      HasInv();
      TakePublish(CheckRef, To(world, pid, Intact(d, v)));
      Wait();
    }

    /** The branch: found as it should be, found otherwise, or created together with a check
        that the target has still not moved. */
    method Expose(d: Dl, v: Value) returns (exposed: bool, ghost at: World)
      requires Reachable(world) && At() == Intact(d, v) && v.candidate.Some?
      modifies this`world
      ensures Reachable(world) && At() == if exposed then Exposed(d, v) else Idle
      ensures Reachable(at)
      ensures exposed ==
        if DeliveryBranch(d) in old(world.refs) then old(world.refs)[DeliveryBranch(d)] == v.candidate.value
        else TargetCurrent(at, v) && DeliveryBranch(d) !in at.refs
      ensures !exposed ==> StopsPublishing(at, d)
    {
      at := world;
      if DeliveryBranch(d) in world.refs {
        exposed := world.refs[DeliveryBranch(d)] == v.candidate.value;
        if exposed { TakePublish(FindSame, To(world, pid, Exposed(d, v))); } else { Decline(d); }
      } else {
        TakePublish(FindAbsent, To(world, pid, Absent(d, v)));
        Wait();
        at := world;
        exposed := CreateBranch(d, v);
      }
    }

    /** One ref transaction: verify the target, create the branch. */
    method CreateBranch(d: Dl, v: Value) returns (created: bool)
      requires Reachable(world) && At() == Absent(d, v) && v.candidate.Some?
      modifies this`world
      ensures Reachable(world) && At() == if created then Exposed(d, v) else Idle
      ensures created == old(TargetCurrent(world, v) && DeliveryBranch(d) !in world.refs)
      ensures world.refs == if created then old(world.refs)[DeliveryBranch(d) := v.candidate.value] else old(world.refs)
    {
      created := TargetCurrent(world, v) && DeliveryBranch(d) !in world.refs;
      if created {
        TakePublish(RefTransaction, To(world.(refs := world.refs[DeliveryBranch(d) := v.candidate.value]), pid, Exposed(d, v)));
      } else {
        TakePublish(PublishFails, To(Unlock(world, d), pid, Idle));
      }
    }

    /** Publishes a verified candidate; what is saved as published passed a verification and is
        the commit the dedicated ref holds. */
    method Publish(d: Dl) returns (ok: bool, ghost at: World)
      requires Reachable(world) && At() == Idle
      modifies this`world
      ensures Reachable(world) && At() == Idle && (ok || StopsPublishing(at, d))
      ensures ok ==> d in world.deliveries && world.deliveries[d].status == Published && d in world.passes
      ensures ok ==> world.deliveries[d].candidate.Some? && HoldsCandidate(world, d, world.deliveries[d].candidate.value)
    {
      var v;
      v, at := LockCurrent(d);
      if v.None? { return false, at; }
      Wait();
      CheckDedicatedRef(d, v.value);
      ok, at := Expose(d, v.value);
      if ok {
        Wait();
        SaveAsPublished(d, v.value);
      }
    }

    method SaveAsPublished(d: Dl, v: Value)
      requires Reachable(world) && At() == Exposed(d, v)
      modifies this`world
      ensures Reachable(world) && At() == Idle
      ensures d in world.deliveries && world.deliveries[d].status == Published && d in world.passes
      ensures world.deliveries[d].candidate.Some? && HoldsCandidate(world, d, world.deliveries[d].candidate.value)
    {
      HasInv();
      TakePublish(SavePublished, To(Unlock(Save(world, d, v.(status := Published)), d), pid, Idle));
    }
  }
}
