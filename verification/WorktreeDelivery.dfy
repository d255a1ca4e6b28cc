/** Deliveries: a candidate merge is prepared, verified and published as a branch while the
    target moves, writers come and go and processes die (runtime/worktree_delivery.py). */
module WorktreeDelivery {
  import opened Prelude
  import opened GitModel

  type Pid = nat
  type Dl = nat

  datatype Status = InPreparation | Prepared | Conflicting | Failed | Verifying | Verified | Published | Stale

  /** What a delivery integrates; fixed when it is registered. */
  datatype Inputs = Inputs(source: Commit, target: nat, targetSha: Commit)

  datatype Value = Value(inputs: Inputs, candidate: Option<Commit>, status: Status, passed: bool)

  datatype Pc =
    | Idle
    // prepare
    | Planned(target: nat, sha: Commit)
    | Registered(d: Dl, v: Value)
    | CheckedOut(d: Dl, v: Value)
    | Merging(d: Dl, v: Value)
    | Merged(d: Dl, v: Value, commit: Commit)
    | Referenced(d: Dl, v: Value)
    | Reporting(d: Dl, v: Value)
    // verify, under the delivery's lock
    | Verifier(d: Dl)
    | Eligible(d: Dl, v: Value)
    | Announced(d: Dl, v: Value)
    | Running(d: Dl, v: Value)
    | Judged(d: Dl, v: Value)
    | Told(d: Dl, v: Value)
    // publish, under the delivery's lock
    | Publisher(d: Dl)
    | Current(d: Dl, v: Value)
    | Intact(d: Dl, v: Value)
    | Absent(d: Dl, v: Value)
    | Exposed(d: Dl, v: Value)
    // a writer that leased the integration checkout for something else
    | Foreign(d: Dl)

  datatype World = World(
    dag: Dag, refs: Refs, deliveries: map<Dl, Value>, locks: map<Dl, Pid>, leases: map<Dl, Pid>,
    heads: map<Dl, Commit>, dirty: map<Dl, bool>, pcs: map<Pid, Pc>,
    // history: the inputs each delivery was registered with, and which passed a verification
    inputs: map<Dl, Inputs>, passes: set<Dl>)

  datatype Step =
    | ResolveTarget(target: nat) | SourceIsDirty | Register(d: Dl, source: Commit) | CheckOut | LeaseToMerge | Merge(commit: Commit)
    | MergeConflicts | CreateRef | SavePrepared | PrepareReturns | PrepareFails
    | LockToVerify(d: Dl) | CheckEligible | NotEligible | Announce | LeaseToRun | Command(head: Commit, parents: set<Commit>, dirty: bool)
    | Judge(succeeded: bool) | SaveJudgement | VerifyReturns | VerifyFails
    | LockToPublish(d: Dl) | CheckCurrent | NothingToPublish | CheckRef | FindAbsent | FindSame | RefTransaction | PublishFails | SavePublished
    | LeaseElsewhere(d: Dl) | Commit(head: Commit, parents: set<Commit>, dirty: bool) | Rewind(head: Commit) | LeaveElsewhere
    | MoveBranch(ref: Ref, to: Option<Commit>) | AddCommit(commit: Commit, parents: set<Commit>) | Crash

  function PcOf(s: World, p: Pid): Pc {
    if p in s.pcs then s.pcs[p] else Idle
  }

  function To(s: World, p: Pid, pc: Pc): World {
    s.(pcs := s.pcs[p := pc])
  }

  function Save(s: World, d: Dl, v: Value): World {
    s.(deliveries := s.deliveries[d := v])
  }

  /** The target branch still is where the delivery was prepared for. */
  predicate TargetCurrent(s: World, v: Value) {
    UserBranch(v.inputs.target) in s.refs && s.refs[UserBranch(v.inputs.target)] == v.inputs.targetSha
  }

  /** A stored delivery as readers see it: out of date once the target has moved. */
  function Shown(s: World, v: Value): Status {
    if (v.status == Prepared || v.status == Verified || v.status == Published) && !TargetCurrent(s, v) then Stale else v.status
  }

  predicate HoldsCandidate(s: World, d: Dl, c: Commit) {
    Service(CandidateRef(d)) in s.refs && s.refs[Service(CandidateRef(d))] == c
  }

  predicate Unchanged(s: World, d: Dl, v: Value) {
    d in s.heads && d in s.dirty && !s.dirty[d] && Some(s.heads[d]) == v.candidate
  }

  function Grown(dag: Dag, c: Commit, parents: set<Commit>): Dag {
    if c in dag then dag else dag[c := parents]
  }

  predicate MayGrow(dag: Dag, c: Commit, parents: set<Commit>) {
    c in dag || forall p :: p in parents ==> p in dag && p < c
  }

  function Unlease(s: World, d: Dl): World {
    s.(leases := s.leases - {d})
  }

  function Unlock(s: World, d: Dl): World {
    s.(locks := s.locks - {d})
  }

  function Without(s: World, p: Pid): World {
    s.(locks := map d | d in s.locks && s.locks[d] != p :: s.locks[d],
       leases := map d | d in s.leases && s.leases[d] != p :: s.leases[d])
  }

  predicate Unprepared(pc: Pc) {
    pc.Registered? || pc.CheckedOut? || pc.Merging? || pc.Merged?
  }

  predicate Preparing(pc: Pc) {
    Unprepared(pc) || pc.Referenced? || pc.Reporting?
  }

  /** Registration of a delivery. */
  ghost predicate PrepareStep(s: World, p: Pid, step: Step, s': World) {
    var pc := PcOf(s, p);
    match step
    case ResolveTarget(target) =>
      pc.Idle? && UserBranch(target) in s.refs && s' == To(s, p, Planned(target, s.refs[UserBranch(target)]))
    case SourceIsDirty =>
      pc.Planned? && s' == To(s, p, Idle)
    case Register(d, source) =>
      && pc.Planned? && d !in s.inputs && source in s.dag
      && var inputs := Inputs(source, pc.target, pc.sha);
         s' == To(Save(s, d, Value(inputs, None, InPreparation, false)).(inputs := s.inputs[d := inputs]),
                  p, Registered(d, Value(inputs, None, InPreparation, false)))
    case _ => false
  }

  /** The integration checkout and its lease. */
  ghost predicate CheckOutStep(s: World, p: Pid, step: Step, s': World) {
    var pc := PcOf(s, p);
    match step
    case CheckOut =>
      && pc.Registered?
      && s' == To(s.(heads := s.heads[pc.d := pc.v.inputs.targetSha], dirty := s.dirty[pc.d := false]), p, CheckedOut(pc.d, pc.v))
    case LeaseToMerge =>
      pc.CheckedOut? && pc.d !in s.leases && s' == To(s.(leases := s.leases[pc.d := p]), p, Merging(pc.d, pc.v))
    case _ => false
  }

  /** The merge under the lease and its dedicated ref. */
  ghost predicate IntegrateStep(s: World, p: Pid, step: Step, s': World)
    requires DagOk(s.dag)
  {
    var pc := PcOf(s, p);
    match step
    case Merge(commit) =>
      && pc.Merging? && pc.d in s.heads
      && (if IsAncestor(s.dag, pc.v.inputs.source, s.heads[pc.d]) then commit == s.heads[pc.d]
          else commit !in s.dag && MayGrow(s.dag, commit, {s.heads[pc.d], pc.v.inputs.source}))
      && s' == To(s.(dag := Grown(s.dag, commit, {s.heads[pc.d], pc.v.inputs.source}), heads := s.heads[pc.d := commit]),
                  p, Merged(pc.d, pc.v, commit))
    case MergeConflicts =>
      pc.Merging? && s' == To(Unlease(s, pc.d), p, Referenced(pc.d, pc.v.(status := Conflicting)))
    case CreateRef =>
      && pc.Merged? && Service(CandidateRef(pc.d)) !in s.refs
      && s' == To(Unlease(s, pc.d).(refs := s.refs[Service(CandidateRef(pc.d)) := pc.commit]),
                  p, Referenced(pc.d, pc.v.(candidate := Some(pc.commit), status := Prepared)))
    case _ => false
  }

  /** The record is saved and shown; any failure so far is saved over it. */
  ghost predicate FinishStep(s: World, p: Pid, step: Step, s': World) {
    var pc := PcOf(s, p);
    match step
    case SavePrepared =>
      pc.Referenced? && s' == To(Save(s, pc.d, pc.v), p, Reporting(pc.d, pc.v))
    case PrepareReturns =>
      pc.Reporting? && s' == To(s, p, Idle)
    case PrepareFails =>
      && Preparing(pc)
      && s' == To(Save(s, pc.d, pc.v.(status := Failed)).(
                    leases := if pc.Merging? || pc.Merged? then s.leases - {pc.d} else s.leases), p, Idle)
    case _ => false
  }

  /** Verification up to its announcement in the record. */
  ghost predicate VerifyStep(s: World, p: Pid, step: Step, s': World) {
    var pc := PcOf(s, p);
    match step
    case LockToVerify(d) =>
      pc.Idle? && d !in s.locks && s' == To(s.(locks := s.locks[d := p]), p, Verifier(d))
    case CheckEligible =>
      && pc.Verifier? && pc.d in s.deliveries && Shown(s, s.deliveries[pc.d]) in {Prepared, Verified, Failed}
      && s.deliveries[pc.d].candidate.Some? && Unchanged(s, pc.d, s.deliveries[pc.d])
      && s' == To(s, p, Eligible(pc.d, s.deliveries[pc.d]))
    case NotEligible =>
      (pc.Verifier? || pc.Eligible?) && s' == To(Unlock(s, pc.d), p, Idle)
    case Announce =>
      && pc.Eligible?
      && var v := pc.v.(status := Verifying, passed := false);
         s' == To(Save(s, pc.d, v), p, Announced(pc.d, v))
    case _ => false
  }

  /** The verification command under the lease, its judgement, and how verification ends. */
  ghost predicate JudgeStep(s: World, p: Pid, step: Step, s': World)
    requires DagOk(s.dag)
  {
    var pc := PcOf(s, p);
    match step
    case LeaseToRun =>
      pc.Announced? && pc.d !in s.leases && s' == To(s.(leases := s.leases[pc.d := p]), p, Running(pc.d, pc.v))
    case Command(head, parents, dirty) =>
      && pc.Running? && MayGrow(s.dag, head, parents)
      && s' == To(s.(dag := Grown(s.dag, head, parents), heads := s.heads[pc.d := head], dirty := s.dirty[pc.d := dirty]), p, pc)
    case Judge(succeeded) =>
      && pc.Running?
      && var passed := succeeded && Unchanged(s, pc.d, pc.v);
         s' == To(Unlease(s, pc.d).(passes := if passed then s.passes + {pc.d} else s.passes),
                  p, Judged(pc.d, pc.v.(passed := passed, status := if passed then Verified else Failed)))
    case SaveJudgement =>
      pc.Judged? && s' == To(Save(s, pc.d, pc.v), p, Told(pc.d, pc.v))
    case VerifyReturns =>
      pc.Told? && s' == To(Unlock(s, pc.d), p, Idle)
    case VerifyFails =>
      && (pc.Announced? || pc.Running? || pc.Judged? || pc.Told?)
      && s' == To(Save(s, pc.d, pc.v.(status := Failed, passed := false)).(
                    locks := s.locks - {pc.d}, leases := if pc.Running? then s.leases - {pc.d} else s.leases), p, Idle)
    case _ => false
  }

  ghost predicate CheckStep(s: World, p: Pid, step: Step, s': World) {
    var pc := PcOf(s, p);
    match step
    case LockToPublish(d) =>
      pc.Idle? && d !in s.locks && s' == To(s.(locks := s.locks[d := p]), p, Publisher(d))
    case CheckCurrent =>
      && pc.Publisher? && pc.d in s.deliveries && Shown(s, s.deliveries[pc.d]) == Verified && s.deliveries[pc.d].passed
      && s' == To(s, p, Current(pc.d, s.deliveries[pc.d]))
    case NothingToPublish =>
      pc.Publisher? && s' == To(Unlock(s, pc.d), p, Idle)
    case _ => false
  }

  /** Publication, once the record has been found current and verified. */
  ghost predicate PublishStep(s: World, p: Pid, step: Step, s': World) {
    var pc := PcOf(s, p);
    match step
    case CheckRef =>
      && pc.Current? && pc.v.candidate.Some? && HoldsCandidate(s, pc.d, pc.v.candidate.value)
      && s' == To(s, p, Intact(pc.d, pc.v))
    case FindAbsent =>
      pc.Intact? && DeliveryBranch(pc.d) !in s.refs && s' == To(s, p, Absent(pc.d, pc.v))
    case FindSame =>
      && pc.Intact? && DeliveryBranch(pc.d) in s.refs && Some(s.refs[DeliveryBranch(pc.d)]) == pc.v.candidate
      && s' == To(s, p, Exposed(pc.d, pc.v))
    case RefTransaction =>
      && pc.Absent? && TargetCurrent(s, pc.v) && DeliveryBranch(pc.d) !in s.refs && pc.v.candidate.Some?
      && s' == To(s.(refs := s.refs[DeliveryBranch(pc.d) := pc.v.candidate.value]), p, Exposed(pc.d, pc.v))
    case PublishFails =>
      (pc.Current? || pc.Intact? || pc.Absent? || pc.Exposed?) && s' == To(Unlock(s, pc.d), p, Idle)
    case SavePublished =>
      pc.Exposed? && s' == To(Unlock(Save(s, pc.d, pc.v.(status := Published)), pc.d), p, Idle)
    case _ => false
  }

  /** Everything else: other writers in the integration checkout, branches, commits, deaths. */
  ghost predicate OutsideStep(s: World, p: Pid, step: Step, s': World)
    requires DagOk(s.dag)
  {
    var pc := PcOf(s, p);
    match step
    case LeaseElsewhere(d) =>
      pc.Idle? && d in s.heads && d !in s.leases && s' == To(s.(leases := s.leases[d := p]), p, Foreign(d))
    case Commit(head, parents, dirty) =>
      && pc.Foreign? && pc.d in s.heads
      && (head == s.heads[pc.d] || (head !in s.dag && s.heads[pc.d] in parents && MayGrow(s.dag, head, parents)))
      && s' == To(s.(dag := Grown(s.dag, head, parents), heads := s.heads[pc.d := head], dirty := s.dirty[pc.d := dirty]), p, pc)
    case Rewind(head) =>
      pc.Foreign? && pc.d in s.heads && head in s.dag && s' == To(s.(heads := s.heads[pc.d := head]), p, pc)
    case LeaveElsewhere =>
      pc.Foreign? && s' == To(Unlease(s, pc.d), p, Idle)
    case MoveBranch(ref, to) =>
      && !ref.Service? && (to.Some? ==> to.value in s.dag)
      && s' == To(s.(refs := if to.Some? then s.refs[ref := to.value] else s.refs - {ref}), p, pc)
    case AddCommit(commit, parents) =>
      commit !in s.dag && MayGrow(s.dag, commit, parents) && s' == To(s.(dag := Grown(s.dag, commit, parents)), p, pc)
    case Crash => s' == To(Without(s, p), p, Idle)
    case _ => false
  }

  ghost predicate Next(s: World, p: Pid, step: Step, s': World) {
    DagOk(s.dag)
    && (PrepareStep(s, p, step, s') || CheckOutStep(s, p, step, s') || IntegrateStep(s, p, step, s') || FinishStep(s, p, step, s')
        || VerifyStep(s, p, step, s') || JudgeStep(s, p, step, s')
        || CheckStep(s, p, step, s') || PublishStep(s, p, step, s') || OutsideStep(s, p, step, s'))
  }

  ghost predicate RefsOk(s: World) {
    forall ref :: ref in s.refs ==> s.refs[ref] in s.dag
  }

  ghost predicate Init(s: World) {
    && DagOk(s.dag) && RefsOk(s) && (forall d :: Service(CandidateRef(d)) !in s.refs)
    && s.deliveries == map[] && s.locks == map[] && s.leases == map[] && s.heads == map[] && s.pcs == map[]
    && s.inputs == map[] && s.passes == {}
  }

  // ----- the invariant -----

  /** A delivery record, stored or in the hands of a process. */
  ghost predicate ValueOk(s: World, d: Dl, v: Value) {
    && d in s.inputs && v.inputs == s.inputs[d] && v.inputs.source in s.dag && v.inputs.targetSha in s.dag
    && (v.candidate.Some? ==> HoldsCandidate(s, d, v.candidate.value))
    && (v.passed ==> v.candidate.Some? && d in s.passes)
  }

  predicate HasValue(pc: Pc) {
    !pc.Idle? && !pc.Planned? && !pc.Verifier? && !pc.Publisher? && !pc.Foreign?
  }

  predicate NeedsCandidate(pc: Pc) {
    pc.Eligible? || pc.Announced? || pc.Running? || pc.Judged? || pc.Told?
  }

  predicate NeedsPass(pc: Pc) {
    pc.Current? || pc.Intact? || pc.Absent? || pc.Exposed?
  }

  predicate PositionOk(s: World, pc: Pc) {
    && (NeedsCandidate(pc) ==> pc.v.candidate.Some?)
    && (NeedsPass(pc) ==> pc.v.passed)
    && (Unprepared(pc) ==> pc.v.candidate.None? && !pc.v.passed)
    && (pc.Planned? ==> pc.sha in s.dag)
  }

  ghost predicate PcOk(s: World, pc: Pc)
    requires DagOk(s.dag)
  {
    && PositionOk(s, pc)
    && (HasValue(pc) ==> ValueOk(s, pc.d, pc.v))
    && (pc.Merged? ==> pc.commit in s.dag && IsAncestor(s.dag, pc.v.inputs.source, pc.commit))
  }

  /** The candidate of a delivery contains its source. */
  ghost predicate CandidateOk(s: World, d: Dl)
    requires DagOk(s.dag)
  {
    Service(CandidateRef(d)) in s.refs ==>
      d in s.inputs && IsAncestor(s.dag, s.inputs[d].source, s.refs[Service(CandidateRef(d))])
  }

  ghost predicate Inv(s: World) {
    && DagOk(s.dag) && RefsOk(s)
    && (forall d :: d in s.heads ==> s.heads[d] in s.dag && d in s.inputs)
    && (forall d :: d in s.deliveries ==> ValueOk(s, d, s.deliveries[d]))
    && (forall p: Pid :: PcOk(s, PcOf(s, p)))
    && (forall d :: CandidateOk(s, d))
  }

  /** Commits, dedicated refs, registrations and passes are never taken back. */
  ghost predicate HistoryGrows(s: World, s': World) {
    && DagOk(s.dag) && DagOk(s'.dag) && Extends(s.dag, s'.dag)
    && (forall k :: Service(k) in s.refs ==> Service(k) in s'.refs && s'.refs[Service(k)] == s.refs[Service(k)])
    && (forall d :: d in s.inputs ==> d in s'.inputs && s'.inputs[d] == s.inputs[d])
    && s.passes <= s'.passes
    && (forall d :: d in s.heads ==> d in s'.heads)
  }

  ghost predicate DagGrows(dag: Dag, dag': Dag) {
    dag' == dag || exists c, parents :: MayGrow(dag, c, parents) && dag' == Grown(dag, c, parents)
  }

  predicate Delivers(pc: Pc) {
    !pc.Idle? && !pc.Planned?
  }

  /** The delivery a process position is about. */
  function About(pc: Pc, pc': Pc): Dl {
    if Delivers(pc) then pc.d else if Delivers(pc') then pc'.d else 0
  }

  /** The merge commit: the head itself when it already contains the source, else a new commit
      on top of both. */
  ghost predicate MergedFrom(s: World, pc: Pc, s': World, pc': Pc)
    requires DagOk(s.dag)
  {
    && pc.Merging? && pc'.Merged? && pc'.v == pc.v && pc'.d == pc.d && pc.d in s.heads
    && (if IsAncestor(s.dag, pc.v.inputs.source, s.heads[pc.d]) then s'.dag == s.dag && pc'.commit == s.heads[pc.d]
        else pc'.commit !in s.dag && pc'.commit in s'.dag && s'.dag[pc'.commit] == {s.heads[pc.d], pc.v.inputs.source})
  }

  /** Where the new head of an integration checkout comes from. */
  predicate HeadFrom(s: World, pc: Pc, step: Step, s': World, h: Commit) {
    && Delivers(pc) && h in s'.dag
    && (|| (pc.Registered? && h == pc.v.inputs.targetSha)
        || (pc.d in s.heads && (h == s.heads[pc.d] || s.heads[pc.d] in s'.dag[h]))
        || pc.Running?
        || (step.Rewind? && pc.Foreign? && pc.d in s.heads))
  }

  /** What one step may do, spelled out for the delivery it is about. */
  ghost predicate Effect(s: World, p: Pid, step: Step, s': World)
    requires DagOk(s.dag)
  {
    var pc, pc' := PcOf(s, p), PcOf(s', p);
    var d := About(pc, pc');
    && s'.pcs == s.pcs[p := pc'] && DagGrows(s.dag, s'.dag)
    && (s'.heads == s.heads || (d in s'.heads && s'.heads == s.heads[d := s'.heads[d]] && HeadFrom(s, pc, step, s', s'.heads[d])))
    && (s'.inputs == s.inputs || (d !in s.inputs && d in s'.inputs && s'.inputs == s.inputs[d := s'.inputs[d]]))
    && (s'.passes == s.passes || (pc.Running? && pc'.Judged? && pc'.v.passed && Unchanged(s, d, pc.v) && s'.passes == s.passes + {d}))
    && (pc'.Merged? ==> pc' == pc || MergedFrom(s, pc, s', pc'))
    && (s'.deliveries == s.deliveries || (d in s'.deliveries && s'.deliveries == s.deliveries[d := s'.deliveries[d]]))
  }

  /** The service adds the candidate's dedicated ref and, once absent, the delivery branch. */
  ghost predicate AddsRef(s: World, p: Pid, s': World) {
    var pc := PcOf(s, p);
    || s'.refs == s.refs
    || (pc.Merged? && Service(CandidateRef(pc.d)) !in s.refs && s'.refs == s.refs[Service(CandidateRef(pc.d)) := pc.commit])
    || (pc.Absent? && DeliveryBranch(pc.d) !in s.refs && pc.v.candidate.Some?
        && s'.refs == s.refs[DeliveryBranch(pc.d) := pc.v.candidate.value])
  }

  ghost predicate MovesBranch(s: World, s': World) {
    exists ref: Ref :: !ref.Service? && (s'.refs == s.refs - {ref}
      || (ref in s'.refs && s'.refs[ref] in s.dag && s'.refs == s.refs[ref := s'.refs[ref]]))
  }

  ghost predicate RefsMove(s: World, p: Pid, step: Step, s': World) {
    AddsRef(s, p, s') || (step.MoveBranch? && MovesBranch(s, s'))
  }

  /** Checkouts and candidates the step is about point at existing commits. */
  predicate CommitsExist(s: World, pc: Pc) {
    && (Delivers(pc) && pc.d in s.heads ==> s.heads[pc.d] in s.dag)
    && (HasValue(pc) ==> pc.v.inputs.targetSha in s.dag && (pc.v.candidate.Some? ==> pc.v.candidate.value in s.dag))
  }

  lemma PrepareEffect(s: World, p: Pid, step: Step, s': World)
    requires DagOk(s.dag) && CommitsExist(s, PcOf(s, p)) && PrepareStep(s, p, step, s')
    ensures Effect(s, p, step, s')
  {}

  lemma CheckOutEffect(s: World, p: Pid, step: Step, s': World)
    requires DagOk(s.dag) && CommitsExist(s, PcOf(s, p)) && CheckOutStep(s, p, step, s')
    ensures Effect(s, p, step, s')
  {}

  lemma IntegrateEffect(s: World, p: Pid, step: Step, s': World)
    requires DagOk(s.dag) && CommitsExist(s, PcOf(s, p)) && IntegrateStep(s, p, step, s')
    ensures Effect(s, p, step, s')
  {}

  lemma FinishEffect(s: World, p: Pid, step: Step, s': World)
    requires DagOk(s.dag) && CommitsExist(s, PcOf(s, p)) && FinishStep(s, p, step, s')
    ensures Effect(s, p, step, s')
  {}

  lemma VerifyEffect(s: World, p: Pid, step: Step, s': World)
    requires DagOk(s.dag) && CommitsExist(s, PcOf(s, p)) && VerifyStep(s, p, step, s')
    ensures Effect(s, p, step, s')
  {}

  lemma JudgeEffect(s: World, p: Pid, step: Step, s': World)
    requires DagOk(s.dag) && CommitsExist(s, PcOf(s, p)) && JudgeStep(s, p, step, s')
    ensures Effect(s, p, step, s')
  {}

  lemma CheckEffect(s: World, p: Pid, step: Step, s': World)
    requires DagOk(s.dag) && CommitsExist(s, PcOf(s, p)) && CheckStep(s, p, step, s')
    ensures Effect(s, p, step, s')
  {}

  lemma PublishEffect(s: World, p: Pid, step: Step, s': World)
    requires DagOk(s.dag) && CommitsExist(s, PcOf(s, p)) && PublishStep(s, p, step, s')
    ensures Effect(s, p, step, s')
  {}

  lemma OutsideEffect(s: World, p: Pid, step: Step, s': World)
    requires DagOk(s.dag) && CommitsExist(s, PcOf(s, p)) && OutsideStep(s, p, step, s')
    ensures Effect(s, p, step, s')
  {}

  lemma PrepareMovesRefs(s: World, p: Pid, step: Step, s': World)
    requires DagOk(s.dag) && CommitsExist(s, PcOf(s, p)) && PrepareStep(s, p, step, s')
    ensures RefsMove(s, p, step, s')
  {}

  lemma CheckOutMovesRefs(s: World, p: Pid, step: Step, s': World)
    requires DagOk(s.dag) && CommitsExist(s, PcOf(s, p)) && CheckOutStep(s, p, step, s')
    ensures RefsMove(s, p, step, s')
  {}

  lemma IntegrateMovesRefs(s: World, p: Pid, step: Step, s': World)
    requires DagOk(s.dag) && CommitsExist(s, PcOf(s, p)) && IntegrateStep(s, p, step, s')
    ensures RefsMove(s, p, step, s')
  {}

  lemma FinishMovesRefs(s: World, p: Pid, step: Step, s': World)
    requires DagOk(s.dag) && CommitsExist(s, PcOf(s, p)) && FinishStep(s, p, step, s')
    ensures RefsMove(s, p, step, s')
  {}

  lemma VerifyMovesRefs(s: World, p: Pid, step: Step, s': World)
    requires DagOk(s.dag) && CommitsExist(s, PcOf(s, p)) && VerifyStep(s, p, step, s')
    ensures RefsMove(s, p, step, s')
  {}

  lemma JudgeMovesRefs(s: World, p: Pid, step: Step, s': World)
    requires DagOk(s.dag) && CommitsExist(s, PcOf(s, p)) && JudgeStep(s, p, step, s')
    ensures RefsMove(s, p, step, s')
  {}

  lemma CheckMovesRefs(s: World, p: Pid, step: Step, s': World)
    requires DagOk(s.dag) && CommitsExist(s, PcOf(s, p)) && CheckStep(s, p, step, s')
    ensures RefsMove(s, p, step, s')
  {}

  lemma PublishMovesRefs(s: World, p: Pid, step: Step, s': World)
    requires DagOk(s.dag) && CommitsExist(s, PcOf(s, p)) && PublishStep(s, p, step, s')
    ensures RefsMove(s, p, step, s')
  {}

  lemma OutsideMovesRefs(s: World, p: Pid, step: Step, s': World)
    requires DagOk(s.dag) && CommitsExist(s, PcOf(s, p)) && OutsideStep(s, p, step, s')
    ensures RefsMove(s, p, step, s')
  {}

  /** A record made from another one of the same delivery. */
  predicate Derived(s': World, d: Dl, v: Value, v': Value) {
    && v'.inputs == v.inputs
    && (v'.candidate == v.candidate || (v'.candidate.Some? && HoldsCandidate(s', d, v'.candidate.value)))
    && (v'.passed ==> (v.passed && v'.candidate == v.candidate) || (v'.candidate.Some? && d in s'.passes))
  }

  predicate Fresh(s: World, s': World, d: Dl, v: Value) {
    d in s'.inputs && v.inputs == s'.inputs[d] && v.candidate.None? && !v.passed && v.inputs.source in s.dag && v.inputs.targetSha in s.dag
  }

  predicate Comes(s: World, pc: Pc, s': World, d: Dl, v: Value) {
    || (HasValue(pc) && pc.d == d && Derived(s', d, pc.v, v))
    || (d in s.deliveries && v == s.deliveries[d])
    || Fresh(s, s', d, v)
  }

  /** What the step leaves in the hands of the process and in the store comes from a record. */
  predicate Carries(s: World, p: Pid, s': World) {
    var pc, pc' := PcOf(s, p), PcOf(s', p);
    var d := About(pc, pc');
    && PositionOk(s', pc')
    && (HasValue(pc') ==> pc'.d == d && Comes(s, pc, s', d, pc'.v))
    && (s'.deliveries == s.deliveries || (d in s'.deliveries && Comes(s, pc, s', d, s'.deliveries[d])))
  }

  lemma PrepareCarries(s: World, p: Pid, step: Step, s': World)
    requires DagOk(s.dag) && PositionOk(s, PcOf(s, p)) && RefsOk(s) && PrepareStep(s, p, step, s')
    ensures Carries(s, p, s')
  {}

  lemma CheckOutCarries(s: World, p: Pid, step: Step, s': World)
    requires DagOk(s.dag) && PositionOk(s, PcOf(s, p)) && CheckOutStep(s, p, step, s')
    ensures Carries(s, p, s')
  {}

  lemma IntegrateCarries(s: World, p: Pid, step: Step, s': World)
    requires DagOk(s.dag) && PositionOk(s, PcOf(s, p)) && IntegrateStep(s, p, step, s')
    ensures Carries(s, p, s')
  {}

  lemma FinishCarries(s: World, p: Pid, step: Step, s': World)
    requires DagOk(s.dag) && PositionOk(s, PcOf(s, p)) && FinishStep(s, p, step, s')
    ensures Carries(s, p, s')
  {}

  lemma VerifyCarries(s: World, p: Pid, step: Step, s': World)
    requires DagOk(s.dag) && PositionOk(s, PcOf(s, p)) && VerifyStep(s, p, step, s')
    ensures Carries(s, p, s')
  {}

  lemma JudgeCarries(s: World, p: Pid, step: Step, s': World)
    requires DagOk(s.dag) && PositionOk(s, PcOf(s, p)) && JudgeStep(s, p, step, s')
    ensures Carries(s, p, s')
  {}

  lemma CheckCarries(s: World, p: Pid, step: Step, s': World)
    requires DagOk(s.dag) && PositionOk(s, PcOf(s, p)) && CheckStep(s, p, step, s')
    ensures Carries(s, p, s')
  {}

  lemma PublishCarries(s: World, p: Pid, step: Step, s': World)
    requires DagOk(s.dag) && PositionOk(s, PcOf(s, p)) && PublishStep(s, p, step, s')
    ensures Carries(s, p, s')
  {}

  lemma OutsideCarries(s: World, p: Pid, step: Step, s': World)
    requires DagOk(s.dag) && PositionOk(s, PcOf(s, p)) && OutsideStep(s, p, step, s')
    ensures Carries(s, p, s')
  {}

  lemma StepEffect(s: World, p: Pid, step: Step, s': World)
    requires DagOk(s.dag) && CommitsExist(s, PcOf(s, p)) && Next(s, p, step, s')
    ensures Effect(s, p, step, s')
  {
    if PrepareStep(s, p, step, s') { PrepareEffect(s, p, step, s'); }
    else if CheckOutStep(s, p, step, s') { CheckOutEffect(s, p, step, s'); }
    else if IntegrateStep(s, p, step, s') { IntegrateEffect(s, p, step, s'); }
    else if FinishStep(s, p, step, s') { FinishEffect(s, p, step, s'); }
    else if VerifyStep(s, p, step, s') { VerifyEffect(s, p, step, s'); }
    else if JudgeStep(s, p, step, s') { JudgeEffect(s, p, step, s'); }
    else if CheckStep(s, p, step, s') { CheckEffect(s, p, step, s'); }
    else if PublishStep(s, p, step, s') { PublishEffect(s, p, step, s'); }
    else { OutsideEffect(s, p, step, s'); }
  }

  lemma StepMovesRefs(s: World, p: Pid, step: Step, s': World)
    requires DagOk(s.dag) && CommitsExist(s, PcOf(s, p)) && Next(s, p, step, s')
    ensures RefsMove(s, p, step, s')
  {
    if PrepareStep(s, p, step, s') { PrepareMovesRefs(s, p, step, s'); }
    else if CheckOutStep(s, p, step, s') { CheckOutMovesRefs(s, p, step, s'); }
    else if IntegrateStep(s, p, step, s') { IntegrateMovesRefs(s, p, step, s'); }
    else if FinishStep(s, p, step, s') { FinishMovesRefs(s, p, step, s'); }
    else if VerifyStep(s, p, step, s') { VerifyMovesRefs(s, p, step, s'); }
    else if JudgeStep(s, p, step, s') { JudgeMovesRefs(s, p, step, s'); }
    else if CheckStep(s, p, step, s') { CheckMovesRefs(s, p, step, s'); }
    else if PublishStep(s, p, step, s') { PublishMovesRefs(s, p, step, s'); }
    else { OutsideMovesRefs(s, p, step, s'); }
  }

  lemma StepCarries(s: World, p: Pid, step: Step, s': World)
    requires DagOk(s.dag) && PositionOk(s, PcOf(s, p)) && RefsOk(s) && Next(s, p, step, s')
    ensures Carries(s, p, s')
  {
    if PrepareStep(s, p, step, s') { PrepareCarries(s, p, step, s'); }
    else if CheckOutStep(s, p, step, s') { CheckOutCarries(s, p, step, s'); }
    else if IntegrateStep(s, p, step, s') { IntegrateCarries(s, p, step, s'); }
    else if FinishStep(s, p, step, s') { FinishCarries(s, p, step, s'); }
    else if VerifyStep(s, p, step, s') { VerifyCarries(s, p, step, s'); }
    else if JudgeStep(s, p, step, s') { JudgeCarries(s, p, step, s'); }
    else if CheckStep(s, p, step, s') { CheckCarries(s, p, step, s'); }
    else if PublishStep(s, p, step, s') { PublishCarries(s, p, step, s'); }
    else { OutsideCarries(s, p, step, s'); }
  }

  lemma ValueStaysOk(s: World, s': World, d: Dl, v: Value)
    requires HistoryGrows(s, s') && ValueOk(s, d, v)
    ensures ValueOk(s', d, v)
  {}

  lemma PcStaysOk(s: World, s': World, pc: Pc)
    requires HistoryGrows(s, s') && PcOk(s, pc)
    ensures PcOk(s', pc)
  {
    if pc.Merged? { AncestryPersists(s.dag, s'.dag, pc.v.inputs.source, pc.commit); }
  }

  lemma CandidateStaysOk(s: World, s': World, d: Dl)
    requires HistoryGrows(s, s') && CandidateOk(s, d) && Service(CandidateRef(d)) in s.refs
    ensures CandidateOk(s', d)
  {
    AncestryPersists(s.dag, s'.dag, s.inputs[d].source, s.refs[Service(CandidateRef(d))]);
  }

  lemma GrowthKeepsCommits(dag: Dag, dag': Dag)
    requires DagOk(dag) && DagGrows(dag, dag')
    ensures DagOk(dag') && Extends(dag, dag')
  {}

  lemma MergeContainsBoth(s: World, pc: Pc, s': World, pc': Pc)
    requires DagOk(s.dag) && DagOk(s'.dag) && MergedFrom(s, pc, s', pc') && s.heads[pc.d] in s.dag
    ensures IsAncestor(s'.dag, pc.v.inputs.source, pc'.commit) && IsAncestor(s'.dag, s.heads[pc.d], pc'.commit)
  {
    if !IsAncestor(s.dag, pc.v.inputs.source, s.heads[pc.d]) {
      ParentIsAncestor(s'.dag, pc.v.inputs.source, pc'.commit);
      ParentIsAncestor(s'.dag, s.heads[pc.d], pc'.commit);
    }
  }

  lemma EffectGrows(s: World, p: Pid, step: Step, s': World)
    requires DagOk(s.dag) && RefsOk(s) && PcOk(s, PcOf(s, p)) && Effect(s, p, step, s') && RefsMove(s, p, step, s')
    ensures HistoryGrows(s, s') && RefsOk(s')
  {
    GrowthKeepsCommits(s.dag, s'.dag);
  }

  lemma ComingValueIsOk(s: World, s': World, pc: Pc, d: Dl, v: Value)
    requires HistoryGrows(s, s') && PcOk(s, pc) && Comes(s, pc, s', d, v) && (d in s.deliveries ==> ValueOk(s, d, s.deliveries[d]))
    ensures ValueOk(s', d, v)
  {
    if HasValue(pc) && pc.d == d && Derived(s', d, pc.v, v) {
      ValueStaysOk(s, s', d, pc.v);
    } else if d in s.deliveries && v == s.deliveries[d] {
      ValueStaysOk(s, s', d, v);
    }
  }

  lemma OwnPositionIsOk(s: World, p: Pid, step: Step, s': World)
    requires Inv(s) && Effect(s, p, step, s') && HistoryGrows(s, s') && Carries(s, p, s')
    ensures PcOk(s', PcOf(s', p))
  {
    var pc, pc' := PcOf(s, p), PcOf(s', p);
    assert PcOk(s, pc);
    if HasValue(pc') { ComingValueIsOk(s, s', pc, pc'.d, pc'.v); }
    if pc'.Merged? {
      if pc' == pc { PcStaysOk(s, s', pc); } else { MergeContainsBoth(s, pc, s', pc'); }
    }
  }

  lemma StoreStaysOk(s: World, p: Pid, step: Step, s': World, d: Dl)
    requires Inv(s) && Effect(s, p, step, s') && HistoryGrows(s, s') && Carries(s, p, s') && d in s'.deliveries
    ensures ValueOk(s', d, s'.deliveries[d])
  {
    assert PcOk(s, PcOf(s, p));
    if d in s.deliveries && s'.deliveries[d] == s.deliveries[d] {
      ValueStaysOk(s, s', d, s.deliveries[d]);
    } else {
      assert d == About(PcOf(s, p), PcOf(s', p));
      ComingValueIsOk(s, s', PcOf(s, p), d, s'.deliveries[d]);
    }
  }

  lemma CandidatesStayOk(s: World, p: Pid, step: Step, s': World, d: Dl)
    requires Inv(s) && RefsMove(s, p, step, s') && HistoryGrows(s, s')
    ensures CandidateOk(s', d)
  {
    assert CandidateOk(s, d) && PcOk(s, PcOf(s, p));
    if Service(CandidateRef(d)) in s.refs {
      CandidateStaysOk(s, s', d);
    } else if Service(CandidateRef(d)) in s'.refs {
      PcStaysOk(s, s', PcOf(s, p));
    }
  }

  lemma StepKeepsInv(s: World, p: Pid, step: Step, s': World)
    requires Inv(s) && Next(s, p, step, s')
    ensures Inv(s') && HistoryGrows(s, s')
  {
    assert PcOk(s, PcOf(s, p)) && CommitsExist(s, PcOf(s, p));
    StepEffect(s, p, step, s');
    StepMovesRefs(s, p, step, s');
    StepCarries(s, p, step, s');
    MovesKeepInv(s, p, step, s');
  }

  lemma MovesKeepInv(s: World, p: Pid, step: Step, s': World)
    requires Inv(s) && Effect(s, p, step, s') && RefsMove(s, p, step, s') && Carries(s, p, s')
    ensures Inv(s') && HistoryGrows(s, s')
  {
    assert PcOk(s, PcOf(s, p));
    EffectGrows(s, p, step, s');
    forall q: Pid ensures PcOk(s', PcOf(s', q)) {
      if q == p {
        OwnPositionIsOk(s, p, step, s');
      } else {
        assert PcOf(s', q) == PcOf(s, q);
        PcStaysOk(s, s', PcOf(s, q));
      }
    }
    forall d | d in s'.heads ensures s'.heads[d] in s'.dag && d in s'.inputs {
      if d !in s.heads { assert d == PcOf(s, p).d; }
    }
    forall d | d in s'.deliveries ensures ValueOk(s', d, s'.deliveries[d]) { StoreStaysOk(s, p, step, s', d); }
    forall d ensures CandidateOk(s', d) { CandidatesStayOk(s, p, step, s', d); }
  }

  // ----- every run -----

  datatype Move = Move(pid: Pid, step: Step)

  ghost predicate Run(worlds: seq<World>, moves: seq<Move>) {
    && |worlds| == |moves| + 1 && Init(worlds[0])
    && forall i :: 0 <= i < |moves| ==> Next(worlds[i], moves[i].pid, moves[i].step, worlds[i + 1])
  }

  lemma {:induction false} RunKeepsInv(worlds: seq<World>, moves: seq<Move>, n: nat)
    requires Run(worlds, moves) && n <= |moves|
    ensures Inv(worlds[n])
  {
    if n == 0 {
      assert forall p: Pid :: PcOf(worlds[0], p) == Idle;
    } else {
      RunKeepsInv(worlds, moves, n - 1);
      StepKeepsInv(worlds[n - 1], moves[n - 1].pid, moves[n - 1].step, worlds[n]);
    }
  }

  lemma GrowthIsTransitive(a: World, b: World, c: World)
    requires HistoryGrows(a, b) && HistoryGrows(b, c)
    ensures HistoryGrows(a, c)
  {}

  lemma {:induction false} RunGrows(worlds: seq<World>, moves: seq<Move>, m: nat, n: nat)
    requires Run(worlds, moves) && m <= n <= |moves|
    ensures HistoryGrows(worlds[m], worlds[n])
  {
    if m < n {
      RunGrows(worlds, moves, m, n - 1);
      RunKeepsInv(worlds, moves, n - 1);
      StepKeepsInv(worlds[n - 1], moves[n - 1].pid, moves[n - 1].step, worlds[n]);
      GrowthIsTransitive(worlds[m], worlds[n - 1], worlds[n]);
    } else {
      RunKeepsInv(worlds, moves, n);
    }
  }

  /** A verification of `d` ends well: the command succeeded and the checkout still is the
      clean candidate. */
  predicate Passes(s: World, move: Move, d: Dl, candidate: Commit) {
    && move.step == Judge(true) && PcOf(s, move.pid).Running? && PcOf(s, move.pid).d == d
    && d in s.heads && s.heads[d] == candidate && d in s.dirty && !s.dirty[d]
    && PcOf(s, move.pid).v.candidate == Some(candidate)
  }

  /** A verification can only be judged passed when its command succeeded. */
  lemma JudgedBySuccess(s: World, move: Move, s': World)
    requires Next(s, move.pid, move.step, s') && PcOf(s, move.pid).Running?
    requires PcOf(s', move.pid).Judged? && PcOf(s', move.pid).v.passed
    ensures move.step == Judge(true)
  {}

  lemma PassIsRecordedByJudge(s: World, move: Move, s': World, d: Dl)
    requires Inv(s) && Next(s, move.pid, move.step, s') && d in s'.passes && d !in s.passes
    ensures exists c :: Passes(s, move, d, c) && HoldsCandidate(s, d, c)
  {
    assert PcOk(s, PcOf(s, move.pid)) && CommitsExist(s, PcOf(s, move.pid));
    StepEffect(s, move.pid, move.step, s');
    JudgedBySuccess(s, move, s');
    assert Passes(s, move, d, s.heads[d]) && HoldsCandidate(s, d, s.heads[d]);
  }

  lemma {:induction false} PassedMeansJudged(worlds: seq<World>, moves: seq<Move>, n: nat, d: Dl)
    requires Run(worlds, moves) && n <= |moves| && d in worlds[n].passes
    ensures exists m, c :: 0 <= m < n && Passes(worlds[m], moves[m], d, c) && HoldsCandidate(worlds[m], d, c)
  {
    if d in worlds[n - 1].passes {
      PassedMeansJudged(worlds, moves, n - 1, d);
    } else {
      RunKeepsInv(worlds, moves, n - 1);
      PassIsRecordedByJudge(worlds[n - 1], moves[n - 1], worlds[n], d);
    }
  }

  /** The process creates a delivery branch in this move. */
  predicate Publishes(s: World, move: Move, d: Dl, candidate: Commit) {
    move.step.RefTransaction? && PcOf(s, move.pid).Absent? && PcOf(s, move.pid).d == d
    && PcOf(s, move.pid).v.candidate == Some(candidate)
  }

  lemma TransactionFacts(s: World, move: Move, s': World, d: Dl, c: Commit)
    requires Inv(s) && Next(s, move.pid, move.step, s') && Publishes(s, move, d, c)
    ensures d in s.inputs && UserBranch(s.inputs[d].target) in s.refs && s.refs[UserBranch(s.inputs[d].target)] == s.inputs[d].targetSha
    ensures DeliveryBranch(d) !in s.refs && s'.refs == s.refs[DeliveryBranch(d) := c]
    ensures HoldsCandidate(s, d, c) && IsAncestor(s.dag, s.inputs[d].source, c) && d in s.passes
  {
    assert PcOk(s, PcOf(s, move.pid)) && CandidateOk(s, d);
    assert PublishStep(s, move.pid, move.step, s');
  }

  /** Published evidence. In any run, with deaths and a moving target, a delivery branch is only
      created while its target still is where the delivery started, it points at the candidate,
      the candidate contains the source, and that very candidate passed a verification before. */
  lemma PublishedEvidence(worlds: seq<World>, moves: seq<Move>, n: nat, d: Dl, c: Commit)
    requires Run(worlds, moves) && n < |moves| && Publishes(worlds[n], moves[n], d, c)
    ensures DagOk(worlds[n].dag) && d in worlds[n].inputs
    ensures var inputs := worlds[n].inputs[d];
      && UserBranch(inputs.target) in worlds[n].refs && worlds[n].refs[UserBranch(inputs.target)] == inputs.targetSha
      && IsAncestor(worlds[n].dag, inputs.source, c)
    ensures DeliveryBranch(d) !in worlds[n].refs && worlds[n + 1].refs == worlds[n].refs[DeliveryBranch(d) := c]
    ensures exists m :: 0 <= m < n && Passes(worlds[m], moves[m], d, c)
  {
    RunKeepsInv(worlds, moves, n);
    TransactionFacts(worlds[n], moves[n], worlds[n + 1], d, c);
    PassedMeansJudged(worlds, moves, n, d);
    var m, e :| 0 <= m < n && Passes(worlds[m], moves[m], d, e) && HoldsCandidate(worlds[m], d, e);
    RunGrows(worlds, moves, m, n);
  }

  /** However often a delivery is published, after whatever deaths, deletions and later
      verifications, its branch gets the same value. */
  lemma PublishingIsStable(worlds: seq<World>, moves: seq<Move>, m: nat, n: nat, d: Dl, c: Commit, e: Commit)
    requires Run(worlds, moves) && m <= n < |moves|
    requires Publishes(worlds[m], moves[m], d, c) && Publishes(worlds[n], moves[n], d, e)
    ensures c == e
  {
    RunKeepsInv(worlds, moves, m);
    RunKeepsInv(worlds, moves, n);
    TransactionFacts(worlds[m], moves[m], worlds[m + 1], d, c);
    TransactionFacts(worlds[n], moves[n], worlds[n + 1], d, e);
    RunGrows(worlds, moves, m, n);
  }

  predicate AddsOnlyOwnRefs(refs: Refs, refs': Refs) {
    && (forall ref :: ref in refs ==> ref in refs' && refs'[ref] == refs[ref])
    && (forall ref :: ref in refs' && ref !in refs ==> ref.DeliveryBranch? || (ref.Service? && ref.ref.CandidateRef?))
  }

  lemma AddedRefIsOwn(s: World, p: Pid, s': World)
    requires AddsRef(s, p, s')
    ensures AddsOnlyOwnRefs(s.refs, s'.refs)
  {}

  /** The service adds refs of its own and never changes one that exists, the target least of all. */
  lemma ServiceMovesNoRef(s: World, p: Pid, step: Step, s': World)
    requires Inv(s) && Next(s, p, step, s') && !step.MoveBranch?
    ensures AddsOnlyOwnRefs(s.refs, s'.refs)
  {
    assert PcOk(s, PcOf(s, p)) && CommitsExist(s, PcOf(s, p));
    StepMovesRefs(s, p, step, s');
    AddedRefIsOwn(s, p, s');
  }

  // ----- the target -----

  /** The exact condition for a candidate to contain an older commit, its target say: the head
      of the integration checkout or the source contained it when they were merged. */
  lemma CandidateContains(s: World, pc: Pc, s': World, pc': Pc, t: Commit)
    requires DagOk(s.dag) && DagOk(s'.dag) && Extends(s.dag, s'.dag) && MergedFrom(s, pc, s', pc')
    requires s.heads[pc.d] in s.dag && pc.v.inputs.source in s.dag && t in s.dag
    ensures IsAncestor(s'.dag, t, pc'.commit) <==>
      IsAncestor(s.dag, t, s.heads[pc.d]) || IsAncestor(s.dag, t, pc.v.inputs.source)
  {
    var head, source := s.heads[pc.d], pc.v.inputs.source;
    MergeContainsBoth(s, pc, s', pc');
    if IsAncestor(s.dag, t, head) {
      LiftAncestry(s.dag, s'.dag, t, head, pc'.commit);
    } else if IsAncestor(s.dag, t, source) {
      LiftAncestry(s.dag, s'.dag, t, source, pc'.commit);
    } else if IsAncestor(s'.dag, t, pc'.commit) {
      NothingElseContained(s, pc, s', pc', t);
    }
  }

  lemma LiftAncestry(dag: Dag, dag': Dag, a: Commit, b: Commit, c: Commit)
    requires DagOk(dag) && DagOk(dag') && Extends(dag, dag') && IsAncestor(dag, a, b) && IsAncestor(dag', b, c)
    ensures IsAncestor(dag', a, c)
  {
    AncestryPersists(dag, dag', a, b);
    AncestryIsTransitive(dag', a, b, c);
  }

  lemma NothingElseContained(s: World, pc: Pc, s': World, pc': Pc, t: Commit)
    requires DagOk(s.dag) && DagOk(s'.dag) && Extends(s.dag, s'.dag) && MergedFrom(s, pc, s', pc')
    requires s.heads[pc.d] in s.dag && pc.v.inputs.source in s.dag && t in s.dag && IsAncestor(s'.dag, t, pc'.commit)
    ensures IsAncestor(s.dag, t, s.heads[pc.d]) || IsAncestor(s.dag, t, pc.v.inputs.source)
  {
    if IsAncestor(s.dag, pc.v.inputs.source, s.heads[pc.d]) { return; }
    var q :| q in s'.dag[pc'.commit] && IsAncestor(s'.dag, t, q);
    AncestryIsOld(s.dag, s'.dag, t, q);
  }

  /** Nothing new gets into the history of an old commit. */
  lemma {:induction false} AncestryIsOld(dag: Dag, dag': Dag, a: Commit, c: Commit)
    requires DagOk(dag) && DagOk(dag') && Extends(dag, dag') && c in dag && IsAncestor(dag', a, c)
    ensures IsAncestor(dag, a, c)
    decreases c
  {
    if a != c {
      var p :| p in dag'[c] && IsAncestor(dag', a, p);
      AncestryIsOld(dag, dag', a, p);
    }
  }

  /** The target commit is contained in all that leads to the candidate. */
  ghost predicate TargetInv(s: World, d: Dl)
    requires DagOk(s.dag)
  {
    d in s.inputs ==>
      && (Service(CandidateRef(d)) in s.refs ==> IsAncestor(s.dag, s.inputs[d].targetSha, s.refs[Service(CandidateRef(d))]))
      && (Service(CandidateRef(d)) !in s.refs && d in s.heads ==> IsAncestor(s.dag, s.inputs[d].targetSha, s.heads[d]))
      && (Service(CandidateRef(d)) !in s.refs ==>
            forall p: Pid :: PcOf(s, p).Merged? && PcOf(s, p).d == d ==> IsAncestor(s.dag, s.inputs[d].targetSha, PcOf(s, p).commit))
  }

  /** A writer resets the integration checkout while there is no candidate yet. */
  predicate Rewinds(s: World, p: Pid, step: Step, d: Dl) {
    step.Rewind? && PcOf(s, p) == Foreign(d) && Service(CandidateRef(d)) !in s.refs
  }

  lemma HeadStaysOnTarget(s: World, p: Pid, step: Step, s': World, d: Dl)
    requires Inv(s) && Effect(s, p, step, s') && HistoryGrows(s, s') && TargetInv(s, d) && !Rewinds(s, p, step, d)
    requires d in s.inputs && d in s'.heads && Service(CandidateRef(d)) !in s.refs
    ensures IsAncestor(s'.dag, s.inputs[d].targetSha, s'.heads[d])
  {
    var t, pc := s.inputs[d].targetSha, PcOf(s, p);
    assert PcOk(s, pc);
    if s'.heads == s.heads || pc.d != d || (d in s.heads && s'.heads[d] == s.heads[d]) {
      AncestryPersists(s.dag, s'.dag, t, s.heads[d]);
    } else if d in s.heads && s.heads[d] in s'.dag[s'.heads[d]] {
      ParentIsAncestor(s'.dag, s.heads[d], s'.heads[d]);
      LiftAncestry(s.dag, s'.dag, t, s.heads[d], s'.heads[d]);
    }
  }

  lemma MergedStaysOnTarget(s: World, p: Pid, step: Step, s': World, d: Dl, q: Pid)
    requires Inv(s) && Effect(s, p, step, s') && HistoryGrows(s, s') && TargetInv(s, d)
    requires d in s.inputs && PcOf(s', q).Merged? && PcOf(s', q).d == d
    requires Service(CandidateRef(d)) !in s.refs
    ensures IsAncestor(s'.dag, s.inputs[d].targetSha, PcOf(s', q).commit)
  {
    var t, pc, pc' := s.inputs[d].targetSha, PcOf(s, q), PcOf(s', q);
    if pc == pc' {
      AncestryPersists(s.dag, s'.dag, t, pc.commit);
    } else {
      assert q == p;
      MergeContainsBoth(s, pc, s', pc');
      LiftAncestry(s.dag, s'.dag, t, s.heads[d], pc'.commit);
    }
  }

  lemma CandidateStaysOnTarget(s: World, p: Pid, step: Step, s': World, d: Dl)
    requires Inv(s) && RefsMove(s, p, step, s') && HistoryGrows(s, s') && TargetInv(s, d)
    requires d in s.inputs && Service(CandidateRef(d)) in s'.refs
    ensures IsAncestor(s'.dag, s.inputs[d].targetSha, s'.refs[Service(CandidateRef(d))])
  {
    AncestryPersists(s.dag, s'.dag, s.inputs[d].targetSha,
      if Service(CandidateRef(d)) in s.refs then s.refs[Service(CandidateRef(d))] else PcOf(s, p).commit);
  }

  lemma NewDeliveryIsOnTarget(s: World, p: Pid, step: Step, s': World, d: Dl)
    requires Inv(s) && Inv(s') && Effect(s, p, step, s') && RefsMove(s, p, step, s') && d !in s.inputs
    ensures TargetInv(s', d)
  {
    if d in s'.inputs {
      assert CandidateOk(s, d) && PcOk(s, PcOf(s, p));
      assert Service(CandidateRef(d)) !in s'.refs;
      assert d !in s.heads;
      forall q: Pid ensures PcOf(s', q).Merged? ==> PcOf(s', q).d != d {
        assert PcOk(s, PcOf(s, q));
        assert q != p ==> PcOf(s', q) == PcOf(s, q);
      }
    }
  }

  lemma StepKeepsTarget(s: World, p: Pid, step: Step, s': World, d: Dl)
    requires Inv(s) && Inv(s') && HistoryGrows(s, s') && Effect(s, p, step, s') && RefsMove(s, p, step, s')
    requires TargetInv(s, d) && !Rewinds(s, p, step, d)
    ensures TargetInv(s', d)
  {
    if d !in s.inputs { NewDeliveryIsOnTarget(s, p, step, s', d); return; }
    if Service(CandidateRef(d)) in s'.refs {
      CandidateStaysOnTarget(s, p, step, s', d);
    } else {
      if d in s'.heads { HeadStaysOnTarget(s, p, step, s', d); }
      forall q: Pid | PcOf(s', q).Merged? && PcOf(s', q).d == d ensures IsAncestor(s'.dag, s'.inputs[d].targetSha, PcOf(s', q).commit) {
        MergedStaysOnTarget(s, p, step, s', d, q);
      }
    }
  }

  lemma {:induction false} RunKeepsTarget(worlds: seq<World>, moves: seq<Move>, n: nat, d: Dl)
    requires Run(worlds, moves) && n <= |moves|
    requires forall k :: 0 <= k < n ==> !Rewinds(worlds[k], moves[k].pid, moves[k].step, d)
    ensures DagOk(worlds[n].dag) && TargetInv(worlds[n], d)
  {
    RunKeepsInv(worlds, moves, n);
    if n > 0 {
      RunKeepsTarget(worlds, moves, n - 1, d);
      RunKeepsInv(worlds, moves, n - 1);
      KeepTarget(worlds[n - 1], moves[n - 1], worlds[n], d);
    }
  }

  lemma KeepTarget(s: World, move: Move, s': World, d: Dl)
    requires Inv(s) && Inv(s') && Next(s, move.pid, move.step, s') && TargetInv(s, d) && !Rewinds(s, move.pid, move.step, d)
    ensures TargetInv(s', d)
  {
    StepKeepsInv(s, move.pid, move.step, s');
    assert PcOk(s, PcOf(s, move.pid)) && CommitsExist(s, PcOf(s, move.pid));
    StepEffect(s, move.pid, move.step, s');
    StepMovesRefs(s, move.pid, move.step, s');
    StepKeepsTarget(s, move.pid, move.step, s', d);
  }

  /** Unless somebody rewound the integration checkout before the candidate was fixed, the
      published candidate contains the target it was prepared for. */
  lemma PublishedContainsTarget(worlds: seq<World>, moves: seq<Move>, n: nat, d: Dl, c: Commit)
    requires Run(worlds, moves) && n < |moves| && Publishes(worlds[n], moves[n], d, c)
    requires forall k :: 0 <= k < n ==> !Rewinds(worlds[k], moves[k].pid, moves[k].step, d)
    ensures DagOk(worlds[n].dag) && d in worlds[n].inputs && IsAncestor(worlds[n].dag, worlds[n].inputs[d].targetSha, c)
  {
    RunKeepsInv(worlds, moves, n);
    TransactionFacts(worlds[n], moves[n], worlds[n + 1], d, c);
    RunKeepsTarget(worlds, moves, n, d);
  }

  // ----- reachable worlds -----

  ghost predicate Reachable(s: World) {
    exists worlds: seq<World>, moves: seq<Move> :: Run(worlds, moves) && worlds[|moves|] == s
  }

  lemma Onward(s: World, p: Pid, step: Step, s': World)
    requires Reachable(s) && Next(s, p, step, s')
    ensures Reachable(s')
  {
    var worlds: seq<World>, moves: seq<Move> :| Run(worlds, moves) && worlds[|moves|] == s;
    var worlds', moves' := worlds + [s'], moves + [Move(p, step)];
    forall i | 0 <= i < |moves'| ensures Next(worlds'[i], moves'[i].pid, moves'[i].step, worlds'[i + 1]) {
      if i < |moves| { assert Next(worlds[i], moves[i].pid, moves[i].step, worlds[i + 1]); }
    }
    assert Run(worlds', moves') && worlds'[|moves'|] == s';
  }
}
