/** A delivery is published on its latest verdict: no judgement of it lies between the pass and
    the creation of its branch (runtime/worktree_delivery.py). */
module WorktreeVerdicts {
  import opened Prelude
  import opened GitModel
  import opened WorktreeDelivery

  /** The delivery whose lock the process holds. */
  function LockOf(pc: Pc): Option<Dl> {
    match pc
    case Verifier(d) => Some(d)
    case Eligible(d, _) => Some(d)
    case Announced(d, _) => Some(d)
    case Running(d, _) => Some(d)
    case Judged(d, _) => Some(d)
    case Told(d, _) => Some(d)
    case Publisher(d) => Some(d)
    case Current(d, _) => Some(d)
    case Intact(d, _) => Some(d)
    case Absent(d, _) => Some(d)
    case Exposed(d, _) => Some(d)
    case _ => None
  }

  ghost predicate LocksInv(s: World) {
    forall p: Pid :: LockOf(PcOf(s, p)).Some? ==> LockOf(PcOf(s, p)).value in s.locks && s.locks[LockOf(PcOf(s, p)).value] == p
  }

  /** What one step may do to the locks. */
  predicate LocksMove(s: World, p: Pid, s': World) {
    var lock, lock' := LockOf(PcOf(s, p)), LockOf(PcOf(s', p));
    && s'.pcs == s.pcs[p := PcOf(s', p)]
    && (|| (s'.locks == s.locks && (lock' == lock || lock'.None?))
        || (lock'.Some? && lock'.value !in s.locks && s'.locks == s.locks[lock'.value := p])
        || (lock.Some? && s'.locks == s.locks - {lock.value} && lock'.None?)
        || (lock'.None? && s'.locks == Without(s, p).locks))
  }

  lemma MoveKeepsLocks(s: World, p: Pid, s': World)
    requires LocksInv(s) && LocksMove(s, p, s')
    ensures LocksInv(s')
  {
    assert forall q: Pid :: q != p ==> PcOf(s', q) == PcOf(s, q);
  }

  /** A verification has been announced and not been judged yet. */
  predicate Pending(pc: Pc) {
    pc.Announced? || pc.Running?
  }

  predicate Passed(pc: Pc) {
    HasValue(pc) && pc.v.passed
  }

  /** Who prepares or awaits a judgement holds no pass. */
  predicate LocalOk(pc: Pc) {
    Preparing(pc) || Pending(pc) ==> !pc.v.passed
  }

  /** The one record a step may save; a pass is saved by its holder only. */
  predicate SavesMove(s: World, p: Pid, s': World) {
    var pc, d := PcOf(s, p), About(PcOf(s, p), PcOf(s', p));
    || s'.deliveries == s.deliveries
    || (d in s'.deliveries && s'.deliveries == s.deliveries[d := s'.deliveries[d]]
        && (s'.deliveries[d].passed ==> Passed(pc) && pc.d == d && LockOf(pc).Some?))
  }

  /** Where a pass in the hands of a process comes from: the judgement, its own hands, the record. */
  predicate PassesMove(s: World, p: Pid, step: Step, s': World) {
    var pc, pc' := PcOf(s, p), PcOf(s', p);
    Passed(pc') ==>
      && LockOf(pc') == Some(pc'.d)
      && (|| (step.Judge? && pc.Running? && pc.d == pc'.d)
          || (Passed(pc) && pc.d == pc'.d)
          || (pc'.d in s.deliveries && pc'.v == s.deliveries[pc'.d]))
  }

  /** An announced verification has taken back the pass in the record. */
  predicate PendingMove(s: World, p: Pid, s': World) {
    var pc, pc' := PcOf(s, p), PcOf(s', p);
    Pending(pc') ==>
      || (Pending(pc) && pc.d == pc'.d && s'.deliveries == s.deliveries)
      || (pc'.d in s'.deliveries && !s'.deliveries[pc'.d].passed)
  }

  predicate JudgesMove(s: World, p: Pid, step: Step, s': World) {
    var pc, pc' := PcOf(s, p), PcOf(s', p);
    step.Judge? && pc.Running? ==> pc'.Judged? && pc'.d == pc.d && s'.deliveries == s.deliveries
  }

  predicate VerdictMove(s: World, p: Pid, step: Step, s': World) {
    && LocksMove(s, p, s') && LocalOk(PcOf(s', p)) && SavesMove(s, p, s') && PassesMove(s, p, step, s')
    && PendingMove(s, p, s') && JudgesMove(s, p, step, s')
  }

  lemma PrepareMovesVerdict(s: World, p: Pid, step: Step, s': World)
    requires LocalOk(PcOf(s, p)) && PrepareStep(s, p, step, s')
    ensures VerdictMove(s, p, step, s')
  {}

  lemma CheckOutMovesVerdict(s: World, p: Pid, step: Step, s': World)
    requires LocalOk(PcOf(s, p)) && CheckOutStep(s, p, step, s')
    ensures VerdictMove(s, p, step, s')
  {}

  lemma IntegrateMovesVerdict(s: World, p: Pid, step: Step, s': World)
    requires LocalOk(PcOf(s, p)) && DagOk(s.dag) && IntegrateStep(s, p, step, s')
    ensures VerdictMove(s, p, step, s')
  {}

  lemma FinishMovesVerdict(s: World, p: Pid, step: Step, s': World)
    requires LocalOk(PcOf(s, p)) && FinishStep(s, p, step, s')
    ensures VerdictMove(s, p, step, s')
  {}

  lemma VerifyMovesVerdict(s: World, p: Pid, step: Step, s': World)
    requires LocalOk(PcOf(s, p)) && VerifyStep(s, p, step, s')
    ensures VerdictMove(s, p, step, s')
  {}

  lemma JudgeMovesLocks(s: World, p: Pid, step: Step, s': World)
    requires DagOk(s.dag) && JudgeStep(s, p, step, s')
    ensures LocksMove(s, p, s')
  {}

  lemma JudgeMovesPasses(s: World, p: Pid, step: Step, s': World)
    requires LocalOk(PcOf(s, p)) && DagOk(s.dag) && JudgeStep(s, p, step, s')
    ensures LocalOk(PcOf(s', p)) && PassesMove(s, p, step, s') && PendingMove(s, p, s') && JudgesMove(s, p, step, s')
  {}

  lemma JudgeSaves(s: World, p: Pid, step: Step, s': World)
    requires LocalOk(PcOf(s, p)) && DagOk(s.dag) && JudgeStep(s, p, step, s')
    ensures SavesMove(s, p, s')
  {}

  lemma JudgeMovesVerdict(s: World, p: Pid, step: Step, s': World)
    requires LocalOk(PcOf(s, p)) && DagOk(s.dag) && JudgeStep(s, p, step, s')
    ensures VerdictMove(s, p, step, s')
  {
    JudgeMovesLocks(s, p, step, s');
    JudgeMovesPasses(s, p, step, s');
    JudgeSaves(s, p, step, s');
  }

  lemma CheckMovesVerdict(s: World, p: Pid, step: Step, s': World)
    requires LocalOk(PcOf(s, p)) && CheckStep(s, p, step, s')
    ensures VerdictMove(s, p, step, s')
  {}

  lemma PublishMovesVerdict(s: World, p: Pid, step: Step, s': World)
    requires LocalOk(PcOf(s, p)) && PositionOk(s, PcOf(s, p)) && PublishStep(s, p, step, s')
    ensures VerdictMove(s, p, step, s')
  {}

  lemma OutsideMovesVerdict(s: World, p: Pid, step: Step, s': World)
    requires LocalOk(PcOf(s, p)) && (Passed(PcOf(s, p)) ==> LockOf(PcOf(s, p)) == Some(PcOf(s, p).d))
    requires DagOk(s.dag) && OutsideStep(s, p, step, s')
    ensures VerdictMove(s, p, step, s')
  {}

  lemma StepMovesVerdict(s: World, p: Pid, step: Step, s': World)
    requires LocalOk(PcOf(s, p)) && PositionOk(s, PcOf(s, p)) && Next(s, p, step, s')
    requires Passed(PcOf(s, p)) ==> LockOf(PcOf(s, p)) == Some(PcOf(s, p).d)
    ensures VerdictMove(s, p, step, s')
  {
    if PrepareStep(s, p, step, s') { PrepareMovesVerdict(s, p, step, s'); }
    else if CheckOutStep(s, p, step, s') { CheckOutMovesVerdict(s, p, step, s'); }
    else if IntegrateStep(s, p, step, s') { IntegrateMovesVerdict(s, p, step, s'); }
    else if FinishStep(s, p, step, s') { FinishMovesVerdict(s, p, step, s'); }
    else if VerifyStep(s, p, step, s') { VerifyMovesVerdict(s, p, step, s'); }
    else if JudgeStep(s, p, step, s') { JudgeMovesVerdict(s, p, step, s'); }
    else if CheckStep(s, p, step, s') { CheckMovesVerdict(s, p, step, s'); }
    else if PublishStep(s, p, step, s') { PublishMovesVerdict(s, p, step, s'); }
    else { OutsideMovesVerdict(s, p, step, s'); }
  }

  // ----- the latest verdict -----

  /** The move is a judgement of this delivery. */
  predicate JudgesDelivery(s: World, move: Move, d: Dl) {
    move.step.Judge? && PcOf(s, move.pid).Running? && PcOf(s, move.pid).d == d
  }

  predicate Verdict(s': World, move: Move) {
    Passed(PcOf(s', move.pid))
  }

  predicate Then(latest: bool, s: World, move: Move, s': World, d: Dl) {
    if JudgesDelivery(s, move, d) then Verdict(s', move) else latest
  }

  /** The latest judgement of the delivery among the first `n` moves was a pass. */
  ghost predicate Latest(worlds: seq<World>, moves: seq<Move>, n: nat, d: Dl)
    requires |worlds| == |moves| + 1 && n <= |moves|
  {
    n > 0 && Then(Latest(worlds, moves, n - 1, d), worlds[n - 1], moves[n - 1], worlds[n], d)
  }

  /** What a position says about the verdict on a delivery. */
  predicate PositionSays(s: World, pc: Pc, d: Dl, latest: bool) {
    && LocalOk(pc) && (Passed(pc) ==> LockOf(pc) == Some(pc.d) && (pc.d == d ==> latest))
    && (Pending(pc) && pc.d == d && d in s.deliveries ==> !s.deliveries[d].passed)
  }

  /** Every pass anywhere is the latest verdict, and none is left while one is pending. */
  ghost predicate VerdictInv(s: World, d: Dl, latest: bool) {
    && LocksInv(s)
    && (d in s.deliveries && s.deliveries[d].passed ==> latest)
    && forall p: Pid :: PositionSays(s, PcOf(s, p), d, latest)
  }

  lemma OwnPosition(s: World, p: Pid, step: Step, s': World, d: Dl, latest: bool)
    requires VerdictInv(s, d, latest) && VerdictMove(s, p, step, s')
    ensures PositionSays(s', PcOf(s', p), d, Then(latest, s, Move(p, step), s', d))
  {
    assert PositionSays(s, PcOf(s, p), d, latest);
  }

  lemma OtherPosition(s: World, p: Pid, step: Step, s': World, d: Dl, latest: bool, q: Pid)
    requires VerdictInv(s, d, latest) && VerdictMove(s, p, step, s') && q != p
    ensures PositionSays(s', PcOf(s', q), d, Then(latest, s, Move(p, step), s', d))
  {
    assert PcOf(s', q) == PcOf(s, q);
    assert PositionSays(s, PcOf(s, p), d, latest) && PositionSays(s, PcOf(s, q), d, latest);
    assert LockOf(PcOf(s, p)).Some? && LockOf(PcOf(s, q)).Some? ==> LockOf(PcOf(s, p)) != LockOf(PcOf(s, q));
  }

  lemma StoredVerdict(s: World, p: Pid, step: Step, s': World, d: Dl, latest: bool)
    requires VerdictInv(s, d, latest) && VerdictMove(s, p, step, s') && d in s'.deliveries && s'.deliveries[d].passed
    ensures Then(latest, s, Move(p, step), s', d)
  {
    assert PositionSays(s, PcOf(s, p), d, latest);
  }

  lemma MoveKeepsVerdict(s: World, p: Pid, step: Step, s': World, d: Dl, latest: bool)
    requires VerdictInv(s, d, latest) && VerdictMove(s, p, step, s')
    ensures VerdictInv(s', d, Then(latest, s, Move(p, step), s', d))
  {
    MoveKeepsLocks(s, p, s');
    if d in s'.deliveries && s'.deliveries[d].passed { StoredVerdict(s, p, step, s', d, latest); }
    forall q: Pid ensures PositionSays(s', PcOf(s', q), d, Then(latest, s, Move(p, step), s', d)) {
      if q == p { OwnPosition(s, p, step, s', d, latest); } else { OtherPosition(s, p, step, s', d, latest, q); }
    }
  }

  lemma {:induction false} RunKeepsVerdict(worlds: seq<World>, moves: seq<Move>, n: nat, d: Dl)
    requires Run(worlds, moves) && n <= |moves|
    ensures VerdictInv(worlds[n], d, Latest(worlds, moves, n, d))
  {
    if n == 0 {
      assert forall p: Pid :: PcOf(worlds[0], p) == Idle;
    } else {
      var s, move, s' := worlds[n - 1], moves[n - 1], worlds[n];
      var latest := Latest(worlds, moves, n - 1, d);
      RunKeepsVerdict(worlds, moves, n - 1, d);
      RunKeepsInv(worlds, moves, n - 1);
      assert PositionSays(s, PcOf(s, move.pid), d, latest) && PcOk(s, PcOf(s, move.pid));
      StepMovesVerdict(s, move.pid, move.step, s');
      MoveKeepsVerdict(s, move.pid, move.step, s', d, latest);
    }
  }

  predicate NotJudgedBetween(worlds: seq<World>, moves: seq<Move>, m: nat, n: nat, d: Dl)
    requires |worlds| == |moves| + 1 && m <= n <= |moves|
  {
    forall k :: m < k < n ==> !JudgesDelivery(worlds[k], moves[k], d)
  }

  lemma {:induction false} LatestIsAJudgement(worlds: seq<World>, moves: seq<Move>, n: nat, d: Dl) returns (m: nat)
    requires |worlds| == |moves| + 1 && n <= |moves| && Latest(worlds, moves, n, d)
    ensures m < n && JudgesDelivery(worlds[m], moves[m], d) && Verdict(worlds[m + 1], moves[m])
    ensures NotJudgedBetween(worlds, moves, m, n, d)
  {
    if JudgesDelivery(worlds[n - 1], moves[n - 1], d) { m := n - 1; } else { m := LatestIsAJudgement(worlds, moves, n - 1, d); }
  }

  lemma JudgedPass(s: World, move: Move, s': World, d: Dl)
    requires DagOk(s.dag) && PcOk(s, PcOf(s, move.pid))
    requires Next(s, move.pid, move.step, s') && JudgesDelivery(s, move, d) && Verdict(s', move)
    ensures exists c :: Passes(s, move, d, c) && HoldsCandidate(s, d, c)
  {
    assert JudgeStep(s, move.pid, move.step, s');
    assert Passes(s, move, d, s.heads[d]) && HoldsCandidate(s, d, s.heads[d]);
  }

  /** A branch is only created on the latest verdict: the published candidate passed, and the
      delivery has not been judged since. */
  lemma {:induction false} PublishedOnLatestVerdict(worlds: seq<World>, moves: seq<Move>, n: nat, d: Dl, c: Commit)
    requires Run(worlds, moves) && n < |moves| && Publishes(worlds[n], moves[n], d, c)
    ensures exists m :: 0 <= m < n && Passes(worlds[m], moves[m], d, c) && NotJudgedBetween(worlds, moves, m, n, d)
  {
    RunKeepsInv(worlds, moves, n);
    RunKeepsVerdict(worlds, moves, n, d);
    TransactionFacts(worlds[n], moves[n], worlds[n + 1], d, c);
    assert PcOk(worlds[n], PcOf(worlds[n], moves[n].pid));
    assert PositionSays(worlds[n], PcOf(worlds[n], moves[n].pid), d, Latest(worlds, moves, n, d));
    var m := LatestIsAJudgement(worlds, moves, n, d);
    RunKeepsInv(worlds, moves, m);
    assert PcOk(worlds[m], PcOf(worlds[m], moves[m].pid));
    JudgedPass(worlds[m], moves[m], worlds[m + 1], d);
    var e :| Passes(worlds[m], moves[m], d, e) && HoldsCandidate(worlds[m], d, e);
    RunGrows(worlds, moves, m, n);
  }
}
