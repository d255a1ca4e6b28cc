/** Managed worktrees, their writers and their removal as a multi-process protocol: file
    locks die with their holder, status records and the command marker survive
    (runtime/workspace_lease.py, runtime/worktrees.py). */
module WorktreeLeases {
  import opened Prelude
  import opened GitModel

  type Pid = nat
  type Wt = nat

  datatype Status = Creating | Ready | Active | Quarantined | Removed

  datatype Held = Held(ref: Dedicated, commit: Commit)

  datatype Record = Record(status: Status, base: Commit, preserved: seq<Held>)

  /** What was removed: the head of the checkout and the record that allowed it. */
  datatype Retirement = Retirement(head: Commit, record: Record)

  /** How the last writer of a worktree ended. */
  datatype LastWriter = Never | Writing | Finished | Broke

  /** Where a writer stands with a shell command. */
  datatype Cmd = NoCommand | Locked | Clear | Marked | Running(command: nat) | Confirmed | Unconfirmed | Seen(record: Record) | Over

  datatype Pc =
    | Idle
    | InPlace
    | Sharing(w: Wt)
    | Holding(w: Wt)
    | Admitted(w: Wt, seen: Record)
    | Body(w: Wt, cmd: Cmd)
    | Failing(w: Wt)
    | Quarantining(w: Wt, seen: Record)
    | Ending(w: Wt)
    | Closing(w: Wt, seen: Record)
    | Releasing(w: Wt)
    | Preserving(w: Wt, held: Held)
    | Recording(w: Wt, held: Held, seen: Record)
    | Inspecting(w: Wt)
    | Removing(w: Wt, seen: Record)
    | Gone(w: Wt, seen: Record)
    | Making(w: Wt, record: Record)
    | Made(w: Wt, record: Record)
    | Returning(w: Wt, record: Record)

  datatype World = World(
    exclusive: Option<Pid>, shared: set<Pid>, locks: map<Wt, Pid>, commandLock: Option<Pid>, marker: Option<Wt>,
    records: map<Wt, Record>, dag: Dag, refs: Refs, heads: map<Wt, Commit>, dirty: map<Wt, bool>,
    pcs: map<Pid, Pc>,
    // history
    last: map<Wt, LastWriter>, open: set<nat>, retired: map<Wt, Retirement>)

  function PcOf(s: World, p: Pid): Pc {
    if p in s.pcs then s.pcs[p] else Idle
  }

  function To(s: World, p: Pid, pc: Pc): World {
    s.(pcs := s.pcs[p := pc])
  }

  function Save(s: World, w: Wt, record: Record): World {
    s.(records := s.records[w := record])
  }

  function Unlock(s: World, w: Wt): World {
    s.(locks := s.locks - {w})
  }

  datatype Step =
    | EnterInPlace | LeaveInPlace
    | Share(w: Wt) | Lock | LockBusy | Admit | Refuse | Activate
    | Work(head: Commit, parents: set<Commit>, dirty: bool)
    | Finish | Break | ReadToQuarantine | SaveQuarantine | ReadToEnd | SaveReady | Release
    | LockCommands | SeeNoMarker | CommandRefused | WriteMarker | Start(command: nat) | Confirm | Unmark
    | LoseTrack | ReadForCommand | QuarantineForCommand | UnlockCommands
    | BeginPreserve(w: Wt, held: Held) | ReadToPreserve | SavePreserved | PreserveFails
    | BeginRemove(w: Wt) | CheckRemovable | RemoveFails | DeleteCheckout | SaveRemoved
    | BeginCreate(w: Wt, base: Commit) | AddCheckout | SaveCreated | CreateFails | CreateReturns
    | MoveRef(ref: Ref, commit: Option<Commit>)
    | Crash

  /** The commit named by a ref is still recorded there and has `head` in its history. */
  ghost predicate HeldBy(s: World, head: Commit, held: Held)
    requires DagOk(s.dag)
  {
    Service(held.ref) in s.refs && s.refs[Service(held.ref)] == held.commit && IsAncestor(s.dag, head, held.commit)
  }

  /** The test `remove` makes while it holds the worktree's lock. */
  ghost predicate Removable(s: World, w: Wt)
    requires DagOk(s.dag)
  {
    w in s.records && s.records[w].status == Ready && Clean(s, w, s.records[w])
  }

  ghost predicate Kept(s: World, head: Commit, record: Record)
    requires DagOk(s.dag)
  {
    head == record.base || exists i :: 0 <= i < |record.preserved| && HeldBy(s, head, record.preserved[i])
  }

  /** Nothing uncommitted, and every commit below the head kept by the base or a recorded ref. */
  ghost predicate Clean(s: World, w: Wt, record: Record)
    requires DagOk(s.dag)
  {
    w in s.heads && w in s.dirty && !s.dirty[w] && Kept(s, s.heads[w], record)
  }

  function Without(s: World, p: Pid): World {
    s.(exclusive := if s.exclusive == Some(p) then None else s.exclusive,
       shared := s.shared - {p},
       locks := map w | w in s.locks && s.locks[w] != p :: s.locks[w],
       commandLock := if s.commandLock == Some(p) then None else s.commandLock,
       last := match PcOf(s, p)
         case Body(w, _) => s.last[w := Broke]
         case _ => s.last)
  }

  /** The in-place lease, and the managed lease up to the point where its body starts. */
  ghost predicate AcquireStep(s: World, p: Pid, step: Step, s': World)
    requires DagOk(s.dag)
  {
    var pc := PcOf(s, p);
    match step
    case EnterInPlace =>
      pc.Idle? && s.exclusive.None? && s.shared == {} && s' == To(s.(exclusive := Some(p)), p, InPlace)
    case LeaveInPlace =>
      pc.InPlace? && s' == To(s.(exclusive := None), p, Idle)
    case Share(w) =>
      pc.Idle? && w in s.records && s.exclusive.None? && s' == To(s.(shared := s.shared + {p}), p, Sharing(w))
    case Lock =>
      pc.Sharing? && pc.w !in s.locks && s' == To(s.(locks := s.locks[pc.w := p]), p, Holding(pc.w))
    case LockBusy =>
      pc.Sharing? && pc.w in s.locks && s' == To(s.(shared := s.shared - {p}), p, Idle)
    case Admit =>
      && pc.Holding? && pc.w in s.records && s.records[pc.w].status == Ready
      && s' == To(s, p, Admitted(pc.w, s.records[pc.w]))
    case Refuse =>
      pc.Holding? && pc.w in s.records && s.records[pc.w].status != Ready && s' == To(s, p, Releasing(pc.w))
    case Activate =>
      && pc.Admitted?
      && s' == To(Save(s, pc.w, pc.seen.(status := Active)).(last := s.last[pc.w := Writing]), p, Body(pc.w, NoCommand))
    case _ => false
  }

  /** The writer's body, and how it fails. */
  ghost predicate WriterStep(s: World, p: Pid, step: Step, s': World)
    requires DagOk(s.dag)
  {
    var pc := PcOf(s, p);
    match step
    case Work(head, parents, dirty) =>
      && pc.Body? && (head in s.dag || Grows(s.dag, head, parents, s.dag[head := parents]))
      && s' == To(s.(dag := if head in s.dag then s.dag else s.dag[head := parents],
                     heads := s.heads[pc.w := head], dirty := s.dirty[pc.w := dirty]), p, pc)
    case Finish =>
      pc.Body? && pc.cmd.NoCommand? && s' == To(s.(last := s.last[pc.w := Finished]), p, Ending(pc.w))
    case Break =>
      pc.Body? && pc.cmd.NoCommand? && s' == To(s.(last := s.last[pc.w := Broke]), p, Failing(pc.w))
    case ReadToQuarantine =>
      pc.Failing? && pc.w in s.records && s' == To(s, p, Quarantining(pc.w, s.records[pc.w]))
    case SaveQuarantine =>
      pc.Quarantining? && s' == To(Save(s, pc.w, pc.seen.(status := Quarantined)), p, Releasing(pc.w))
    case _ => false
  }

  ghost predicate LeaveStep(s: World, p: Pid, step: Step, s': World) {
    var pc := PcOf(s, p);
    match step
    case ReadToEnd =>
      && pc.Ending? && pc.w in s.records
      && s' == To(s, p, if s.records[pc.w].status == Active then Closing(pc.w, s.records[pc.w]) else Releasing(pc.w))
    case SaveReady =>
      pc.Closing? && s' == To(Save(s, pc.w, pc.seen.(status := Ready)), p, Releasing(pc.w))
    case Release =>
      pc.Releasing? && s' == To(Unlock(s, pc.w).(shared := s.shared - {p}), p, Idle)
    case _ => false
  }

  /** A shell command inside a writer's body, under the host-wide command lock. */
  ghost predicate CommandStep(s: World, p: Pid, step: Step, s': World) {
    PcOf(s, p).Body? &&
    var w, cmd := PcOf(s, p).w, PcOf(s, p).cmd;
    match step
    case LockCommands =>
      cmd.NoCommand? && s.commandLock.None? && s' == To(s.(commandLock := Some(p)), p, Body(w, Locked))
    case SeeNoMarker =>
      && cmd.Locked? && s.marker.None? && w in s.records && (s.records[w].status == Ready || s.records[w].status == Active)
      && s' == To(s, p, Body(w, Clear))
    case CommandRefused =>
      cmd.Locked? && s' == To(s, p, Body(w, Over))
    case WriteMarker =>
      cmd.Clear? && s' == To(s.(marker := Some(w)), p, Body(w, Marked))
    case Start(command) =>
      cmd.Marked? && command !in s.open && s' == To(s.(open := s.open + {command}), p, Body(w, Running(command)))
    case Confirm =>
      cmd.Running? && s' == To(s.(open := s.open - {cmd.command}), p, Body(w, Confirmed))
    case Unmark =>
      cmd.Confirmed? && s' == To(s.(marker := None), p, Body(w, Over))
    case LoseTrack =>
      (cmd.Running? || cmd.Marked?) && s' == To(s, p, Body(w, Unconfirmed))
    case ReadForCommand =>
      cmd.Unconfirmed? && w in s.records && s' == To(s, p, Body(w, Seen(s.records[w])))
    case QuarantineForCommand =>
      cmd.Seen? && s' == To(Save(s, w, cmd.record.(status := Quarantined)), p, Body(w, Over))
    case UnlockCommands =>
      cmd.Over? && s' == To(s.(commandLock := None), p, Body(w, NoCommand))
    case _ => false
  }

  ghost predicate PreserveStep(s: World, p: Pid, step: Step, s': World)
    requires DagOk(s.dag)
  {
    var pc := PcOf(s, p);
    match step
    case BeginPreserve(w, held) =>
      && pc.Idle? && w in s.records && w !in s.locks && Service(held.ref) in s.refs && s.refs[Service(held.ref)] == held.commit
      && s' == To(s.(locks := s.locks[w := p]), p, Preserving(w, held))
    case ReadToPreserve =>
      && pc.Preserving? && pc.w in s.records && s.records[pc.w].status == Ready
      && s' == To(s, p, Recording(pc.w, pc.held, s.records[pc.w]))
    case PreserveFails =>
      pc.Preserving? && s' == To(Unlock(s, pc.w), p, Idle)
    case SavePreserved =>
      && pc.Recording?
      && s' == To(Unlock(Save(s, pc.w, pc.seen.(preserved := pc.seen.preserved + [pc.held])), pc.w), p, Idle)
    case _ => false
  }

  ghost predicate RemoveStep(s: World, p: Pid, step: Step, s': World)
    requires DagOk(s.dag)
  {
    var pc := PcOf(s, p);
    match step
    case BeginRemove(w) =>
      pc.Idle? && w in s.records && w !in s.locks && s' == To(s.(locks := s.locks[w := p]), p, Inspecting(w))
    case CheckRemovable =>
      pc.Inspecting? && Removable(s, pc.w) && s' == To(s, p, Removing(pc.w, s.records[pc.w]))
    case RemoveFails =>
      (pc.Inspecting? || pc.Removing?) && s' == To(Unlock(s, pc.w), p, Idle)
    case DeleteCheckout =>
      pc.Removing? && s' == To(s, p, Gone(pc.w, pc.seen))
    case SaveRemoved =>
      && pc.Gone? && pc.w in s.heads
      && s' == To(Unlock(Save(s, pc.w, pc.seen.(status := Removed)), pc.w).(retired := s.retired[pc.w := Retirement(s.heads[pc.w], pc.seen)]), p, Idle)
    case _ => false
  }

  ghost predicate CreateStep(s: World, p: Pid, step: Step, s': World) {
    var pc := PcOf(s, p);
    match step
    case BeginCreate(w, base) =>
      && pc.Idle? && w !in s.records && base in s.dag
      && s' == To(Save(s, w, Record(Creating, base, [])).(last := s.last[w := Never]), p, Making(w, Record(Creating, base, [])))
    case AddCheckout =>
      && pc.Making?
      && s' == To(s.(heads := s.heads[pc.w := pc.record.base], dirty := s.dirty[pc.w := false]), p, Made(pc.w, pc.record))
    case SaveCreated =>
      pc.Made? && s' == To(Save(s, pc.w, pc.record.(status := Ready)), p, Returning(pc.w, pc.record))
    case CreateFails =>
      (pc.Making? || pc.Made? || pc.Returning?) && s' == To(Save(s, pc.w, pc.record.(status := Quarantined)), p, Idle)
    case CreateReturns =>
      pc.Returning? && s' == To(s, p, Idle)
    case _ => false
  }

  /** Branches move freely and anyone may add a dedicated ref. A process may die anywhere,
      which releases its locks and nothing else. */
  ghost predicate OutsideStep(s: World, p: Pid, step: Step, s': World) {
    match step
    case MoveRef(ref, commit) =>
      && (commit.Some? ==> commit.value in s.dag)
      && (ref.Service? ==> ref !in s.refs && commit.Some?)
      && s' == To(s.(refs := if commit.Some? then s.refs[ref := commit.value] else s.refs - {ref}), p, PcOf(s, p))
    case Crash => s' == To(Without(s, p), p, Idle)
    case _ => false
  }

  ghost predicate Next(s: World, p: Pid, step: Step, s': World) {
    DagOk(s.dag)
    && (|| AcquireStep(s, p, step, s') || WriterStep(s, p, step, s') || LeaveStep(s, p, step, s') || CommandStep(s, p, step, s')
        || PreserveStep(s, p, step, s') || RemoveStep(s, p, step, s') || CreateStep(s, p, step, s') || OutsideStep(s, p, step, s'))
  }

  ghost predicate Init(s: World) {
    && s.exclusive.None? && s.shared == {} && s.locks == map[] && s.commandLock.None? && s.marker.None?
    && s.records == map[] && s.heads == map[] && s.pcs == map[] && s.open == {} && s.retired == map[] && DagOk(s.dag)
  }

  // ----- the invariant -----

  /** The worktree whose lock the process holds. */
  function LockOf(pc: Pc): Option<Wt> {
    match pc
    case Idle | InPlace | Sharing(_) | Making(_, _) | Made(_, _) | Returning(_, _) => None
    case _ => Some(pc.w)
  }

  predicate IsWriter(pc: Pc) {
    pc.Sharing? || pc.Holding? || pc.Admitted? || pc.Body? || pc.Failing? || pc.Quarantining? || pc.Ending?
    || pc.Closing? || pc.Releasing?
  }

  /** The global lease: one in-place writer or any number of managed ones. */
  ghost predicate SharesInv(s: World) {
    && (forall p: Pid :: s.exclusive == Some(p) <==> PcOf(s, p).InPlace?)
    && (forall p: Pid :: p in s.shared <==> IsWriter(PcOf(s, p)))
    && (s.exclusive.Some? ==> s.shared == {})
  }

  ghost predicate HeldInv(s: World) {
    forall p: Pid, w :: LockOf(PcOf(s, p)) == Some(w) ==> w in s.locks && s.locks[w] == p
  }

  ghost predicate LocksInv(s: World) {
    SharesInv(s) && HeldInv(s)
  }

  /** What one step may do to the locks. */
  ghost predicate LocksMove(s: World, p: Pid, s': World) {
    var pc, pc' := PcOf(s, p), PcOf(s', p);
    && s'.pcs == s.pcs[p := pc']
    && (|| (s'.exclusive == s.exclusive && pc.InPlace? == pc'.InPlace?)
        || (s.exclusive.None? && s.shared == {} && s'.exclusive == Some(p) && pc'.InPlace?)
        || (pc.InPlace? && s'.exclusive.None? && !pc'.InPlace?))
    && (|| (s'.shared == s.shared && IsWriter(pc) == IsWriter(pc'))
        || (s.exclusive.None? && s'.exclusive.None? && s'.shared == s.shared + {p} && IsWriter(pc'))
        || (s'.shared == s.shared - {p} && !IsWriter(pc')))
    && (|| (s'.locks == s.locks && (LockOf(pc') == LockOf(pc) || LockOf(pc').None?))
        || (LockOf(pc').Some? && LockOf(pc').value !in s.locks && s'.locks == s.locks[LockOf(pc').value := p])
        || (LockOf(pc).Some? && s'.locks == s.locks - {LockOf(pc).value} && LockOf(pc').None?))
  }

  lemma AcquireMovesLocks(s: World, p: Pid, step: Step, s': World)
    requires DagOk(s.dag) && AcquireStep(s, p, step, s')
    ensures LocksMove(s, p, s')
  {}

  lemma WriterMovesLocks(s: World, p: Pid, step: Step, s': World)
    requires DagOk(s.dag) && WriterStep(s, p, step, s')
    ensures LocksMove(s, p, s')
  {}

  lemma LeaveMovesLocks(s: World, p: Pid, step: Step, s': World)
    requires LeaveStep(s, p, step, s')
    ensures LocksMove(s, p, s')
  {}

  lemma CommandLeavesLocks(s: World, p: Pid, step: Step, s': World)
    requires CommandStep(s, p, step, s')
    ensures s'.exclusive == s.exclusive && s'.shared == s.shared && s'.locks == s.locks && s'.pcs == s.pcs[p := PcOf(s', p)]
    ensures PcOf(s, p).Body? && PcOf(s', p).Body? && PcOf(s', p).w == PcOf(s, p).w
  {}

  lemma CommandMovesLocks(s: World, p: Pid, step: Step, s': World)
    requires CommandStep(s, p, step, s')
    ensures LocksMove(s, p, s')
  {
    CommandLeavesLocks(s, p, step, s');
  }

  lemma PreserveMovesLocks(s: World, p: Pid, step: Step, s': World)
    requires DagOk(s.dag) && PreserveStep(s, p, step, s')
    ensures LocksMove(s, p, s')
  {}

  lemma RemoveMovesLocks(s: World, p: Pid, step: Step, s': World)
    requires DagOk(s.dag) && RemoveStep(s, p, step, s')
    ensures LocksMove(s, p, s')
  {}

  lemma CreateMovesLocks(s: World, p: Pid, step: Step, s': World)
    requires CreateStep(s, p, step, s')
    ensures LocksMove(s, p, s')
  {}

  lemma MoveKeepsLocks(s: World, p: Pid, s': World)
    requires LocksInv(s) && LocksMove(s, p, s')
    ensures LocksInv(s')
  {
    assert forall q: Pid :: q != p ==> PcOf(s', q) == PcOf(s, q);
    assert IsWriter(PcOf(s, p)) ==> !PcOf(s, p).InPlace?;
  }

  lemma OutsideKeepsLocks(s: World, p: Pid, step: Step, s': World)
    requires LocksInv(s) && OutsideStep(s, p, step, s')
    ensures LocksInv(s')
  {
    assert forall q: Pid :: q != p ==> PcOf(s', q) == PcOf(s, q);
  }

  lemma StepKeepsLocks(s: World, p: Pid, step: Step, s': World)
    requires LocksInv(s) && Next(s, p, step, s')
    ensures LocksInv(s')
  {
    if OutsideStep(s, p, step, s') { OutsideKeepsLocks(s, p, step, s'); return; }
    assert LocksMove(s, p, s') by {
      if AcquireStep(s, p, step, s') { AcquireMovesLocks(s, p, step, s'); }
      else if WriterStep(s, p, step, s') { WriterMovesLocks(s, p, step, s'); }
      else if LeaveStep(s, p, step, s') { LeaveMovesLocks(s, p, step, s'); }
      else if CommandStep(s, p, step, s') { CommandMovesLocks(s, p, step, s'); }
      else if PreserveStep(s, p, step, s') { PreserveMovesLocks(s, p, step, s'); }
      else if RemoveStep(s, p, step, s') { RemoveMovesLocks(s, p, step, s'); }
      else { CreateMovesLocks(s, p, step, s'); }
    }
    MoveKeepsLocks(s, p, s');
  }

  // ----- records -----

  /** The process works on an admitted worktree. */
  predicate PastAdmission(pc: Pc) {
    pc.Admitted? || pc.Body? || pc.Failing? || pc.Quarantining? || pc.Ending? || pc.Closing?
    || pc.Recording? || pc.Removing? || pc.Gone?
  }

  predicate Creates(pc: Pc) {
    pc.Making? || pc.Made?
  }

  predicate CleanLast(s: World, w: Wt) {
    w in s.last && (s.last[w] == Never || s.last[w] == Finished)
  }

  predicate LastIs(s: World, w: Wt, last: LastWriter) {
    w in s.last && s.last[w] == last
  }

  predicate Recorded(s: World, w: Wt) {
    w in s.records && s.records[w].status != Creating
  }

  /** What a process position says about the worktree it works on. */
  ghost predicate PositionInv(s: World, pc: Pc) {
    && (PastAdmission(pc) ==> Recorded(s, pc.w) && pc.w !in s.retired)
    && (Creates(pc) ==> pc.w in s.records && s.records[pc.w].status == Creating)
    && match pc
       case Admitted(w, seen) => seen.status == Ready && CleanLast(s, w)
       case Body(w, _) => LastIs(s, w, Writing)
       case Failing(w) => LastIs(s, w, Broke)
       case Quarantining(w, _) => LastIs(s, w, Broke)
       case Ending(w) => LastIs(s, w, Finished)
       case Closing(w, _) => LastIs(s, w, Finished)
       case Recording(w, _, seen) => seen.status == Ready && CleanLast(s, w)
       case Making(w, _) => LastIs(s, w, Never)
       case Made(w, _) => LastIs(s, w, Never)
       case Returning(w, _) => Recorded(s, w)
       case _ => true
  }

  ghost predicate ReadyInv(s: World, w: Wt) {
    && (w in s.records && s.records[w].status == Ready ==> CleanLast(s, w))
    && (w in s.retired ==> w in s.records && (s.records[w].status == Removed || s.records[w].status == Quarantined))
  }

  ghost predicate RecordsInv(s: World) {
    && (forall w :: ReadyInv(s, w))
    && (forall p: Pid :: PositionInv(s, PcOf(s, p)))
    && (forall p: Pid, q: Pid :: Creates(PcOf(s, p)) && Creates(PcOf(s, q)) && PcOf(s, p).w == PcOf(s, q).w ==> p == q)
  }

  /** The records and history changed at most at one worktree. */
  ghost predicate OnlyAt(s: World, s': World, w: Wt) {
    && w in s'.records && s'.records == s.records[w := s'.records[w]]
    && (s'.last == s.last || (w in s'.last && s'.last == s.last[w := s'.last[w]]))
    && (s'.retired == s.retired || (w in s'.retired && s'.retired == s.retired[w := s'.retired[w]]))
  }

  predicate SameRecords(s: World, s': World) {
    s'.records == s.records && s'.last == s.last && s'.retired == s.retired
  }

  /** What one step may do to the records: its own worktree's, from a position that owns it. */
  ghost predicate RecordsMove(s: World, p: Pid, s': World) {
    var pc, pc' := PcOf(s, p), PcOf(s', p);
    && s'.pcs == s.pcs[p := pc']
    && PositionInv(s', pc')
    && (!pc.Idle? && !pc.InPlace? && LastIs(s, pc.w, Broke) ==> LastIs(s', pc.w, Broke))
    && (Creates(pc') ==> pc'.w !in s.records || (Creates(pc) && pc.w == pc'.w))
    && (|| SameRecords(s, s')
        || (pc.Idle? && pc'.Making? && pc'.w !in s.records && s' == Save(s, pc'.w, pc'.record).(last := s.last[pc'.w := Never], pcs := s'.pcs))
        || (Creates(pc) && OnlyAt(s, s', pc.w) && ReadyInv(s', pc.w))
        || (PastAdmission(pc) && OnlyAt(s, s', pc.w) && ReadyInv(s', pc.w) && Recorded(s', pc.w))
        || (pc.Returning? && OnlyAt(s, s', pc.w) && ReadyInv(s', pc.w) && Recorded(s', pc.w)
            && s'.last == s.last && s'.retired == s.retired))
  }

  ghost predicate LocalInv(s: World, pc: Pc) {
    PositionInv(s, pc) && (!pc.Idle? && !pc.InPlace? ==> ReadyInv(s, pc.w))
  }

  lemma AcquireMovesRecords(s: World, p: Pid, step: Step, s': World)
    requires LocalInv(s, PcOf(s, p)) && DagOk(s.dag) && AcquireStep(s, p, step, s')
    ensures RecordsMove(s, p, s')
  {}

  lemma WriterMovesRecords(s: World, p: Pid, step: Step, s': World)
    requires LocalInv(s, PcOf(s, p)) && DagOk(s.dag) && WriterStep(s, p, step, s')
    ensures RecordsMove(s, p, s')
  {}

  lemma LeaveMovesRecords(s: World, p: Pid, step: Step, s': World)
    requires LocalInv(s, PcOf(s, p)) && LeaveStep(s, p, step, s')
    ensures RecordsMove(s, p, s')
  {}

  lemma CommandMovesRecords(s: World, p: Pid, step: Step, s': World)
    requires LocalInv(s, PcOf(s, p)) && CommandStep(s, p, step, s')
    ensures RecordsMove(s, p, s')
  {}

  lemma PreserveMovesRecords(s: World, p: Pid, step: Step, s': World)
    requires LocalInv(s, PcOf(s, p)) && DagOk(s.dag) && PreserveStep(s, p, step, s')
    ensures RecordsMove(s, p, s')
  {}

  lemma RemoveMovesRecords(s: World, p: Pid, step: Step, s': World)
    requires LocalInv(s, PcOf(s, p)) && DagOk(s.dag) && RemoveStep(s, p, step, s')
    ensures RecordsMove(s, p, s')
  {}

  lemma CreateMovesRecords(s: World, p: Pid, step: Step, s': World)
    requires LocalInv(s, PcOf(s, p)) && CreateStep(s, p, step, s')
    ensures RecordsMove(s, p, s')
  {}

  lemma OutsideMovesRecords(s: World, p: Pid, step: Step, s': World)
    requires LocalInv(s, PcOf(s, p)) && OutsideStep(s, p, step, s')
    ensures RecordsMove(s, p, s')
  {}

  lemma StepMovesRecords(s: World, p: Pid, step: Step, s': World)
    requires LocalInv(s, PcOf(s, p)) && Next(s, p, step, s')
    ensures RecordsMove(s, p, s')
  {
    if AcquireStep(s, p, step, s') { AcquireMovesRecords(s, p, step, s'); }
    else if WriterStep(s, p, step, s') { WriterMovesRecords(s, p, step, s'); }
    else if LeaveStep(s, p, step, s') { LeaveMovesRecords(s, p, step, s'); }
    else if CommandStep(s, p, step, s') { CommandMovesRecords(s, p, step, s'); }
    else if PreserveStep(s, p, step, s') { PreserveMovesRecords(s, p, step, s'); }
    else if RemoveStep(s, p, step, s') { RemoveMovesRecords(s, p, step, s'); }
    else if CreateStep(s, p, step, s') { CreateMovesRecords(s, p, step, s'); }
    else { OutsideMovesRecords(s, p, step, s'); }
  }

  predicate AgreeAt(s: World, s': World, w: Wt) {
    && (w in s.records) == (w in s'.records) && (w in s.records ==> s.records[w] == s'.records[w])
    && (w in s.last) == (w in s'.last) && (w in s.last ==> s.last[w] == s'.last[w])
    && (w in s.retired) == (w in s'.retired)
  }

  lemma SamePosition(s: World, s': World, pc: Pc)
    requires PositionInv(s, pc) && (!pc.Idle? && !pc.InPlace? ==> AgreeAt(s, s', pc.w))
    ensures PositionInv(s', pc)
  {}

  /** The worktree whose record and history a step changes, if any. */
  function Touched(s: World, p: Pid, s': World): Option<Wt> {
    if SameRecords(s, s') then None
    else if PcOf(s, p).Idle? then (if PcOf(s', p).Making? then Some(PcOf(s', p).w) else None)
    else if PcOf(s, p).InPlace? then None else Some(PcOf(s, p).w)
  }

  lemma ElsewhereAgrees(s: World, s': World, v: Wt, w: Wt)
    requires OnlyAt(s, s', v) && v != w
    ensures AgreeAt(s, s', w)
  {}

  lemma OnlyTouchedChanges(s: World, p: Pid, s': World, w: Wt)
    requires RecordsMove(s, p, s') && Touched(s, p, s') != Some(w)
    ensures AgreeAt(s, s', w)
  {
    var pc := PcOf(s, p);
    if !SameRecords(s, s') && !pc.Idle? {
      assert OnlyAt(s, s', pc.w);
      ElsewhereAgrees(s, s', pc.w, w);
    }
  }

  /** Nobody else stands where the touched worktree would matter to it. */
  lemma TouchedIsOwn(s: World, p: Pid, s': World, q: Pid)
    requires LocksInv(s) && RecordsInv(s) && RecordsMove(s, p, s') && p != q
    requires !PcOf(s, q).Idle? && !PcOf(s, q).InPlace? && Touched(s, p, s') == Some(PcOf(s, q).w)
    ensures !Creates(PcOf(s, q)) && (PastAdmission(PcOf(s, q)) || PcOf(s, q).Returning? ==> Recorded(s', PcOf(s, q).w))
    ensures PastAdmission(PcOf(s, q)) ==> s'.last == s.last && s'.retired == s.retired
  {
    assert PositionInv(s, PcOf(s, p)) && PositionInv(s, PcOf(s, q));
  }

  lemma OthersKeepTheirPosition(s: World, p: Pid, s': World, q: Pid)
    requires LocksInv(s) && RecordsInv(s) && RecordsMove(s, p, s') && p != q
    ensures PositionInv(s', PcOf(s, q))
  {
    var pc := PcOf(s, q);
    assert PositionInv(s, pc);
    if pc.Idle? || pc.InPlace? {
    } else if Touched(s, p, s') == Some(pc.w) {
      TouchedIsOwn(s, p, s', q);
    } else {
      OnlyTouchedChanges(s, p, s', pc.w);
      SamePosition(s, s', pc);
    }
  }

  lemma CreatorsStayAlone(s: World, p: Pid, s': World, q: Pid, r: Pid)
    requires RecordsInv(s) && RecordsMove(s, p, s')
    requires Creates(PcOf(s', q)) && Creates(PcOf(s', r)) && PcOf(s', q).w == PcOf(s', r).w
    ensures q == r
  {
    assert PositionInv(s, PcOf(s, q)) && PositionInv(s, PcOf(s, r));
    assert forall i: Pid :: i != p ==> PcOf(s', i) == PcOf(s, i);
  }

  lemma ReadyStaysClean(s: World, p: Pid, s': World, w: Wt)
    requires RecordsInv(s) && RecordsMove(s, p, s')
    ensures ReadyInv(s', w)
  {
    assert ReadyInv(s, w);
    if Touched(s, p, s') != Some(w) { OnlyTouchedChanges(s, p, s', w); }
  }

  lemma MoveKeepsRecords(s: World, p: Pid, s': World)
    requires LocksInv(s) && RecordsInv(s) && RecordsMove(s, p, s')
    ensures RecordsInv(s')
  {
    forall q: Pid ensures PositionInv(s', PcOf(s', q)) {
      if q != p { OthersKeepTheirPosition(s, p, s', q); }
    }
    forall w ensures ReadyInv(s', w) { ReadyStaysClean(s, p, s', w); }
    forall q: Pid, r: Pid | Creates(PcOf(s', q)) && Creates(PcOf(s', r)) && PcOf(s', q).w == PcOf(s', r).w ensures q == r {
      CreatorsStayAlone(s, p, s', q, r);
    }
  }

  // ----- removal -----

  predicate Leaving(pc: Pc) {
    pc.Removing? || pc.Gone?
  }

  ghost predicate RetiredInv(s: World, w: Wt)
    requires DagOk(s.dag)
  {
    w in s.retired ==> Clean(s, w, s.retired[w].record) && s.heads[w] == s.retired[w].head
  }

  ghost predicate RemovalInv(s: World) {
    && DagOk(s.dag)
    && (forall p: Pid :: Leaving(PcOf(s, p)) ==> Clean(s, PcOf(s, p).w, PcOf(s, p).seen))
    && (forall w :: RetiredInv(s, w))
  }

  ghost predicate HistoryGrows(s: World, s': World) {
    && DagOk(s.dag) && DagOk(s'.dag) && Extends(s.dag, s'.dag)
    && forall k :: Service(k) in s.refs ==> Service(k) in s'.refs && s'.refs[Service(k)] == s.refs[Service(k)]
  }

  predicate SameCheckouts(s: World, s': World) {
    s'.heads == s.heads && s'.dirty == s.dirty
  }

  ghost predicate CheckoutAt(s: World, s': World, w: Wt) {
    && w in s'.heads && s'.heads == s.heads[w := s'.heads[w]]
    && w in s'.dirty && s'.dirty == s.dirty[w := s'.dirty[w]]
  }

  /** What one step may do to checkouts, commits and retirements. */
  ghost predicate RemovalMove(s: World, p: Pid, s': World) {
    var pc, pc' := PcOf(s, p), PcOf(s', p);
    && s'.pcs == s.pcs[p := pc'] && HistoryGrows(s, s')
    && (SameCheckouts(s, s') || ((pc.Body? || pc.Making?) && CheckoutAt(s, s', pc.w)))
    && (Leaving(pc') ==> SameCheckouts(s, s') && Clean(s, pc'.w, pc'.seen))
    && (s'.retired == s.retired
        || (pc.Gone? && SameCheckouts(s, s') && pc.w in s.heads && s'.retired == s.retired[pc.w := Retirement(s.heads[pc.w], pc.seen)]))
  }

  lemma AcquireMovesRemoval(s: World, p: Pid, step: Step, s': World)
    requires (Leaving(PcOf(s, p)) && DagOk(s.dag) ==> Clean(s, PcOf(s, p).w, PcOf(s, p).seen)) && DagOk(s.dag) && AcquireStep(s, p, step, s')
    ensures RemovalMove(s, p, s')
  {}

  lemma WriterMovesRemoval(s: World, p: Pid, step: Step, s': World)
    requires (Leaving(PcOf(s, p)) && DagOk(s.dag) ==> Clean(s, PcOf(s, p).w, PcOf(s, p).seen)) && DagOk(s.dag) && WriterStep(s, p, step, s')
    ensures RemovalMove(s, p, s')
  {}

  lemma LeaveMovesRemoval(s: World, p: Pid, step: Step, s': World)
    requires (Leaving(PcOf(s, p)) && DagOk(s.dag) ==> Clean(s, PcOf(s, p).w, PcOf(s, p).seen)) && DagOk(s.dag) && LeaveStep(s, p, step, s')
    ensures RemovalMove(s, p, s')
  {}

  lemma CommandMovesRemoval(s: World, p: Pid, step: Step, s': World)
    requires (Leaving(PcOf(s, p)) && DagOk(s.dag) ==> Clean(s, PcOf(s, p).w, PcOf(s, p).seen)) && DagOk(s.dag) && CommandStep(s, p, step, s')
    ensures RemovalMove(s, p, s')
  {}

  lemma PreserveMovesRemoval(s: World, p: Pid, step: Step, s': World)
    requires (Leaving(PcOf(s, p)) && DagOk(s.dag) ==> Clean(s, PcOf(s, p).w, PcOf(s, p).seen)) && DagOk(s.dag) && PreserveStep(s, p, step, s')
    ensures RemovalMove(s, p, s')
  {}

  lemma RemoveMovesRemoval(s: World, p: Pid, step: Step, s': World)
    requires (Leaving(PcOf(s, p)) && DagOk(s.dag) ==> Clean(s, PcOf(s, p).w, PcOf(s, p).seen)) && DagOk(s.dag) && RemoveStep(s, p, step, s')
    ensures RemovalMove(s, p, s')
  {}

  lemma CreateMovesRemoval(s: World, p: Pid, step: Step, s': World)
    requires (Leaving(PcOf(s, p)) && DagOk(s.dag) ==> Clean(s, PcOf(s, p).w, PcOf(s, p).seen)) && DagOk(s.dag) && CreateStep(s, p, step, s')
    ensures RemovalMove(s, p, s')
  {}

  lemma OutsideMovesRemoval(s: World, p: Pid, step: Step, s': World)
    requires (Leaving(PcOf(s, p)) && DagOk(s.dag) ==> Clean(s, PcOf(s, p).w, PcOf(s, p).seen)) && DagOk(s.dag) && OutsideStep(s, p, step, s')
    ensures RemovalMove(s, p, s')
  {}

  lemma StepMovesRemoval(s: World, p: Pid, step: Step, s': World)
    requires (Leaving(PcOf(s, p)) && DagOk(s.dag) ==> Clean(s, PcOf(s, p).w, PcOf(s, p).seen)) && Next(s, p, step, s')
    ensures RemovalMove(s, p, s')
  {
    if AcquireStep(s, p, step, s') { AcquireMovesRemoval(s, p, step, s'); }
    else if WriterStep(s, p, step, s') { WriterMovesRemoval(s, p, step, s'); }
    else if LeaveStep(s, p, step, s') { LeaveMovesRemoval(s, p, step, s'); }
    else if CommandStep(s, p, step, s') { CommandMovesRemoval(s, p, step, s'); }
    else if PreserveStep(s, p, step, s') { PreserveMovesRemoval(s, p, step, s'); }
    else if RemoveStep(s, p, step, s') { RemoveMovesRemoval(s, p, step, s'); }
    else if CreateStep(s, p, step, s') { CreateMovesRemoval(s, p, step, s'); }
    else { OutsideMovesRemoval(s, p, step, s'); }
  }

  lemma {:induction false} KeptStaysKept(s: World, s': World, head: Commit, record: Record)
    requires HistoryGrows(s, s') && Kept(s, head, record)
    ensures Kept(s', head, record)
  {
    if head != record.base {
      var i :| 0 <= i < |record.preserved| && HeldBy(s, head, record.preserved[i]);
      AncestryPersists(s.dag, s'.dag, head, record.preserved[i].commit);
      assert HeldBy(s', head, record.preserved[i]);
    }
  }

  lemma CleanStaysClean(s: World, s': World, w: Wt, record: Record)
    requires HistoryGrows(s, s') && Clean(s, w, record)
    requires w in s'.heads && w in s'.dirty && s'.heads[w] == s.heads[w] && s'.dirty[w] == s.dirty[w]
    ensures Clean(s', w, record)
  {
    KeptStaysKept(s, s', s.heads[w], record);
  }

  lemma LeavingCheckoutIsStill(s: World, p: Pid, s': World, q: Pid)
    requires LocksInv(s) && RecordsInv(s) && RemovalInv(s) && RemovalMove(s, p, s')
    requires Leaving(PcOf(s', q))
    ensures Clean(s', PcOf(s', q).w, PcOf(s', q).seen)
  {
    var pc := PcOf(s', q);
    if q != p {
      assert pc == PcOf(s, q);
      assert PositionInv(s, PcOf(s, p)) && PositionInv(s, pc);
    }
    CleanStaysClean(s, s', pc.w, pc.seen);
  }

  lemma RetiredStaysRetired(s: World, p: Pid, s': World, w: Wt)
    requires RecordsInv(s) && RemovalInv(s) && RemovalMove(s, p, s')
    ensures RetiredInv(s', w)
  {
    assert RetiredInv(s, w) && ReadyInv(s, w) && PositionInv(s, PcOf(s, p));
    if w in s'.retired {
      CleanStaysClean(s, s', w, s'.retired[w].record);
    }
  }

  lemma MoveKeepsRemoval(s: World, p: Pid, s': World)
    requires LocksInv(s) && RecordsInv(s) && RemovalInv(s) && RemovalMove(s, p, s')
    ensures RemovalInv(s')
  {
    forall q: Pid | Leaving(PcOf(s', q)) ensures Clean(s', PcOf(s', q).w, PcOf(s', q).seen) { LeavingCheckoutIsStill(s, p, s', q); }
    forall w ensures RetiredInv(s', w) { RetiredStaysRetired(s, p, s', w); }
  }

  // ----- commands -----

  function CmdOf(pc: Pc): Cmd {
    if pc.Body? then pc.cmd else NoCommand
  }

  predicate CmdInv(s: World, cmd: Cmd) {
    match cmd
    case Clear => s.marker.None?
    case Marked => s.marker.Some? && s.open == {}
    case Running(command) => s.marker.Some? && s.open == {command}
    case Confirmed => s.open == {}
    case _ => true
  }

  ghost predicate CommandInv(s: World) {
    && (forall p: Pid :: s.commandLock == Some(p) <==> !CmdOf(PcOf(s, p)).NoCommand?)
    && (forall p: Pid :: CmdInv(s, CmdOf(PcOf(s, p))))
    && (s.open != {} ==> s.marker.Some?)
  }

  /** What one step may do to the command lock, the marker and the running commands. */
  ghost predicate CommandMove(s: World, p: Pid, s': World) {
    var pc', cmd, cmd' := PcOf(s', p), CmdOf(PcOf(s, p)), CmdOf(PcOf(s', p));
    && s'.pcs == s.pcs[p := pc']
    && (|| (s'.commandLock == s.commandLock && cmd.NoCommand? == cmd'.NoCommand?)
        || (s.commandLock.None? && s'.commandLock == Some(p) && !cmd'.NoCommand?)
        || (!cmd.NoCommand? && s'.commandLock.None? && cmd'.NoCommand?))
    && ((s'.marker == s.marker && s'.open == s.open) || !cmd.NoCommand?)
    && (s.open <= s'.open || (cmd.Running? && cmd'.Confirmed?))
    && CmdInv(s', cmd') && (s'.open != {} ==> s'.marker.Some?)
  }

  ghost predicate LocalCommandInv(s: World, p: Pid) {
    && CmdInv(s, CmdOf(PcOf(s, p))) && (s.open != {} ==> s.marker.Some?)
    && (s.commandLock == Some(p) <==> !CmdOf(PcOf(s, p)).NoCommand?)
  }

  lemma AcquireMovesCommand(s: World, p: Pid, step: Step, s': World)
    requires LocalCommandInv(s, p) && DagOk(s.dag) && AcquireStep(s, p, step, s')
    ensures CommandMove(s, p, s')
  {}

  lemma WriterMovesCommand(s: World, p: Pid, step: Step, s': World)
    requires LocalCommandInv(s, p) && DagOk(s.dag) && WriterStep(s, p, step, s')
    ensures CommandMove(s, p, s')
  {}

  lemma LeaveMovesCommand(s: World, p: Pid, step: Step, s': World)
    requires LocalCommandInv(s, p) && LeaveStep(s, p, step, s')
    ensures CommandMove(s, p, s')
  {}

  lemma CommandMovesCommand(s: World, p: Pid, step: Step, s': World)
    requires LocalCommandInv(s, p) && CommandStep(s, p, step, s')
    ensures CommandMove(s, p, s')
  {}

  lemma PreserveMovesCommand(s: World, p: Pid, step: Step, s': World)
    requires LocalCommandInv(s, p) && DagOk(s.dag) && PreserveStep(s, p, step, s')
    ensures CommandMove(s, p, s')
  {}

  lemma RemoveMovesCommand(s: World, p: Pid, step: Step, s': World)
    requires LocalCommandInv(s, p) && DagOk(s.dag) && RemoveStep(s, p, step, s')
    ensures CommandMove(s, p, s')
  {}

  lemma CreateMovesCommand(s: World, p: Pid, step: Step, s': World)
    requires LocalCommandInv(s, p) && CreateStep(s, p, step, s')
    ensures CommandMove(s, p, s')
  {}

  lemma OutsideMovesCommand(s: World, p: Pid, step: Step, s': World)
    requires LocalCommandInv(s, p) && OutsideStep(s, p, step, s')
    ensures CommandMove(s, p, s')
  {}

  lemma StepMovesCommand(s: World, p: Pid, step: Step, s': World)
    requires LocalCommandInv(s, p) && Next(s, p, step, s')
    ensures CommandMove(s, p, s')
  {
    if AcquireStep(s, p, step, s') { AcquireMovesCommand(s, p, step, s'); }
    else if WriterStep(s, p, step, s') { WriterMovesCommand(s, p, step, s'); }
    else if LeaveStep(s, p, step, s') { LeaveMovesCommand(s, p, step, s'); }
    else if CommandStep(s, p, step, s') { CommandMovesCommand(s, p, step, s'); }
    else if PreserveStep(s, p, step, s') { PreserveMovesCommand(s, p, step, s'); }
    else if RemoveStep(s, p, step, s') { RemoveMovesCommand(s, p, step, s'); }
    else if CreateStep(s, p, step, s') { CreateMovesCommand(s, p, step, s'); }
    else { OutsideMovesCommand(s, p, step, s'); }
  }

  lemma MoveKeepsCommand(s: World, p: Pid, s': World)
    requires CommandInv(s) && CommandMove(s, p, s')
    ensures CommandInv(s')
  {
    assert forall q: Pid :: q != p ==> PcOf(s', q) == PcOf(s, q);
  }

  // ----- every step, every run -----

  ghost predicate Inv(s: World) {
    LocksInv(s) && RecordsInv(s) && RemovalInv(s) && CommandInv(s)
  }

  lemma StepKeepsInv(s: World, p: Pid, step: Step, s': World)
    requires Inv(s) && Next(s, p, step, s')
    ensures Inv(s') && HistoryGrows(s, s')
  {
    StepKeepsLocks(s, p, step, s');
    assert LocalInv(s, PcOf(s, p));
    StepMovesRecords(s, p, step, s');
    MoveKeepsRecords(s, p, s');
    StepMovesRemoval(s, p, step, s');
    MoveKeepsRemoval(s, p, s');
    StepMovesCommand(s, p, step, s');
    MoveKeepsCommand(s, p, s');
  }

  datatype Move = Move(pid: Pid, step: Step)

  ghost predicate Run(worlds: seq<World>, moves: seq<Move>) {
    && |worlds| == |moves| + 1 && Init(worlds[0])
    && forall i :: 0 <= i < |moves| ==> Next(worlds[i], moves[i].pid, moves[i].step, worlds[i + 1])
  }

  lemma {:induction false} RunKeepsInv(worlds: seq<World>, moves: seq<Move>, n: nat)
    requires Run(worlds, moves) && n <= |moves|
    ensures Inv(worlds[n])
  {
    if n == 0 {
      InitHasInv(worlds[0]);
    } else {
      RunKeepsInv(worlds, moves, n - 1);
      StepKeepsInv(worlds[n - 1], moves[n - 1].pid, moves[n - 1].step, worlds[n]);
    }
  }

  lemma InitHasInv(s: World)
    requires Init(s)
    ensures Inv(s)
  {
    assert forall p: Pid :: PcOf(s, p) == Idle;
  }

  /** A process that may change files: in place, or in a managed worktree it was admitted to. */
  predicate Writes(pc: Pc) {
    pc.InPlace? || pc.Body?
  }

  lemma WritersApart(s: World, p: Pid, q: Pid)
    requires LocksInv(s) && p != q && Writes(PcOf(s, p)) && Writes(PcOf(s, q))
    ensures PcOf(s, p).Body? && PcOf(s, q).Body? && PcOf(s, p).w != PcOf(s, q).w
  {
    assert LockOf(PcOf(s, p)).Some? ==> s.locks[LockOf(PcOf(s, p)).value] == p;
  }

  /** In every reachable state an in-place writer is the only writer of any kind, and two
      writers never share a worktree, wherever processes died before. */
  lemma WritersExcludeEachOther(worlds: seq<World>, moves: seq<Move>, n: nat, p: Pid, q: Pid)
    requires Run(worlds, moves) && n <= |moves| && p != q
    requires Writes(PcOf(worlds[n], p)) && Writes(PcOf(worlds[n], q))
    ensures PcOf(worlds[n], p).Body? && PcOf(worlds[n], q).Body? && PcOf(worlds[n], p).w != PcOf(worlds[n], q).w
  {
    RunKeepsInv(worlds, moves, n);
    WritersApart(worlds[n], p, q);
  }

  /** The writer of `w` dies or fails in this move. */
  predicate WriterBreaks(s: World, move: Move, w: Wt) {
    PcOf(s, move.pid).Body? && PcOf(s, move.pid).w == w && (move.step.Crash? || move.step.Break?)
  }

  predicate WriterEnters(s: World, move: Move, w: Wt) {
    PcOf(s, move.pid).Admitted? && PcOf(s, move.pid).w == w && move.step.Activate?
  }

  predicate Broken(s: World, w: Wt) {
    LastIs(s, w, Broke) && w in s.records
  }

  lemma OnlyWritersBreak(s: World, p: Pid, step: Step, s': World)
    requires Next(s, p, step, s')
    ensures step.Break? ==> DagOk(s.dag) && WriterStep(s, p, step, s')
    ensures step.Crash? ==> OutsideStep(s, p, step, s')
  {}

  lemma BreakLeavesBroken(s: World, p: Pid, s': World)
    requires DagOk(s.dag) && WriterStep(s, p, Break, s') && PositionInv(s, PcOf(s, p))
    ensures PcOf(s, p).Body? && Broken(s', PcOf(s, p).w)
  {}

  lemma CrashLeavesBroken(s: World, p: Pid, s': World)
    requires OutsideStep(s, p, Crash, s') && PositionInv(s, PcOf(s, p)) && PcOf(s, p).Body?
    ensures Broken(s', PcOf(s, p).w)
  {}

  lemma BreakingBreaks(s: World, move: Move, s': World, w: Wt)
    requires PositionInv(s, PcOf(s, move.pid)) && WriterBreaks(s, move, w) && Next(s, move.pid, move.step, s')
    ensures Broken(s', w)
  {
    OnlyWritersBreak(s, move.pid, move.step, s');
    if move.step.Break? { BreakLeavesBroken(s, move.pid, s'); } else { CrashLeavesBroken(s, move.pid, s'); }
  }

  lemma BrokenStaysBroken(s: World, p: Pid, s': World, w: Wt)
    requires RecordsInv(s) && RecordsMove(s, p, s') && Broken(s, w)
    ensures Broken(s', w)
  {
    if Touched(s, p, s') != Some(w) { OnlyTouchedChanges(s, p, s', w); }
  }

  lemma BrokenIsNotEntered(s: World, move: Move, w: Wt)
    requires PositionInv(s, PcOf(s, move.pid)) && Broken(s, w)
    ensures !WriterEnters(s, move, w)
  {}

  lemma {:induction false} BrokenForGood(worlds: seq<World>, moves: seq<Move>, m: nat, n: nat, w: Wt)
    requires Run(worlds, moves) && m <= n <= |moves| && Broken(worlds[m], w)
    ensures Broken(worlds[n], w)
  {
    if m < n {
      BrokenForGood(worlds, moves, m, n - 1, w);
      RunKeepsInv(worlds, moves, n - 1);
      assert Next(worlds[n - 1], moves[n - 1].pid, moves[n - 1].step, worlds[n]);
      StepMovesRecords(worlds[n - 1], moves[n - 1].pid, moves[n - 1].step, worlds[n]);
      BrokenStaysBroken(worlds[n - 1], moves[n - 1].pid, worlds[n], w);
    }
  }

  /** Once a writer has died or failed in a worktree, no writer enters that worktree again. */
  lemma NobodyEntersAfterABreak(worlds: seq<World>, moves: seq<Move>, m: nat, n: nat, w: Wt)
    requires Run(worlds, moves) && m < n < |moves| && WriterBreaks(worlds[m], moves[m], w)
    ensures !WriterEnters(worlds[n], moves[n], w)
  {
    RunKeepsInv(worlds, moves, m);
    assert PositionInv(worlds[m], PcOf(worlds[m], moves[m].pid));
    BreakingBreaks(worlds[m], moves[m], worlds[m + 1], w);
    BrokenForGood(worlds, moves, m + 1, n, w);
    RunKeepsInv(worlds, moves, n);
    BrokenIsNotEntered(worlds[n], moves[n], w);
  }

  /** The exit of the given command is confirmed between these worlds. */
  predicate Confirms(s: World, p: Pid, s': World, command: nat) {
    CmdOf(PcOf(s, p)) == Running(command) && CmdOf(PcOf(s', p)) == Confirmed
  }

  lemma UnconfirmedStaysOpen(s: World, p: Pid, s': World, command: nat)
    requires CommandInv(s) && CommandMove(s, p, s') && command in s.open && !Confirms(s, p, s', command)
    ensures command in s'.open
  {
    assert CmdInv(s, CmdOf(PcOf(s, p)));
  }

  lemma OnlyCommandsStart(s: World, p: Pid, step: Step, s': World)
    requires Next(s, p, step, s') && step.Start?
    ensures CommandStep(s, p, step, s')
  {}

  lemma StartingNeedsSilence(s: World, move: Move, s': World)
    requires CommandInv(s) && Next(s, move.pid, move.step, s') && move.step.Start?
    ensures s.open == {} && s'.open == {move.step.command}
  {
    OnlyCommandsStart(s, move.pid, move.step, s');
    assert CmdInv(s, CmdOf(PcOf(s, move.pid)));
  }

  /** Between the starts of two commands, anywhere on the host, the exit of the first one was
      confirmed: a lost or killed command blocks every later one. */
  lemma {:induction false} CommandsNeverOverlap(worlds: seq<World>, moves: seq<Move>, m: nat, n: nat)
    requires Run(worlds, moves) && m < n < |moves| && moves[m].step.Start? && moves[n].step.Start?
    ensures exists k :: m < k < n && Confirms(worlds[k], moves[k].pid, worlds[k + 1], moves[m].step.command)
  {
    var command := moves[m].step.command;
    RunKeepsInv(worlds, moves, m);
    StartingNeedsSilence(worlds[m], moves[m], worlds[m + 1]);
    if forall k | m < k < n :: !Confirms(worlds[k], moves[k].pid, worlds[k + 1], command) {
      for k := m + 1 to n
        invariant command in worlds[k].open
      {
        RunKeepsInv(worlds, moves, k);
        StepMovesCommand(worlds[k], moves[k].pid, moves[k].step, worlds[k + 1]);
        UnconfirmedStaysOpen(worlds[k], moves[k].pid, worlds[k + 1], command);
      }
      RunKeepsInv(worlds, moves, n);
      StartingNeedsSilence(worlds[n], moves[n], worlds[n + 1]);
      assert false;
    }
  }

  lemma RetirementStays(s: World, p: Pid, s': World, w: Wt)
    requires RecordsInv(s) && RemovalMove(s, p, s') && w in s.retired
    ensures w in s'.retired && s'.retired[w] == s.retired[w]
  {
    assert PositionInv(s, PcOf(s, p));
  }

  lemma {:induction false} RetiredForGood(worlds: seq<World>, moves: seq<Move>, m: nat, n: nat, w: Wt)
    requires Run(worlds, moves) && m <= n <= |moves| && w in worlds[m].retired
    ensures w in worlds[n].retired && worlds[n].retired[w] == worlds[m].retired[w]
  {
    if m < n {
      RetiredForGood(worlds, moves, m, n - 1, w);
      RunKeepsInv(worlds, moves, n - 1);
      StepMovesRemoval(worlds[n - 1], moves[n - 1].pid, moves[n - 1].step, worlds[n]);
      RetirementStays(worlds[n - 1], moves[n - 1].pid, worlds[n], w);
    }
  }

  /** The commit is in the history of the base, or one of the recorded refs still holds it. */
  ghost predicate StillReachable(s: World, record: Record, c: Commit)
    requires DagOk(s.dag)
  {
    IsAncestor(s.dag, c, record.base) || exists i :: 0 <= i < |record.preserved| && HeldBy(s, c, record.preserved[i])
  }

  lemma KeptCommitsAreReachable(s: World, head: Commit, record: Record, c: Commit)
    requires DagOk(s.dag) && Kept(s, head, record) && IsAncestor(s.dag, c, head)
    ensures StillReachable(s, record, c)
  {
    if head != record.base {
      var i :| 0 <= i < |record.preserved| && HeldBy(s, head, record.preserved[i]);
      AncestryIsTransitive(s.dag, c, head, record.preserved[i].commit);
      assert HeldBy(s, c, record.preserved[i]);
    }
  }

  lemma RemovalRetires(s: World, p: Pid, step: Step, s': World)
    requires RemovalInv(s) && Next(s, p, step, s') && step.SaveRemoved?
    ensures PcOf(s, p).Gone? && Clean(s, PcOf(s, p).w, PcOf(s, p).seen) && PcOf(s, p).w in s'.retired
    ensures s'.retired[PcOf(s, p).w] == Retirement(s.heads[PcOf(s, p).w], PcOf(s, p).seen)
  {}

  lemma RetiredCommitsAreReachable(s: World, w: Wt, c: Commit)
    requires DagOk(s.dag) && w in s.retired && RetiredInv(s, w) && IsAncestor(s.dag, c, s.retired[w].head)
    ensures StillReachable(s, s.retired[w].record, c)
  {
    KeptCommitsAreReachable(s, s.retired[w].head, s.retired[w].record, c);
  }

  /** Removing a worktree loses no work: at the removal nothing was uncommitted, and then and
      ever after the worktree's branch names the removed head, and each commit below it is in
      the history of the base or of a ref that was recorded. */
  lemma RemovalLosesNothing(worlds: seq<World>, moves: seq<Move>, m: nat, n: nat, c: Commit)
    requires Run(worlds, moves) && m < n <= |moves| && moves[m].step.SaveRemoved?
    ensures PcOf(worlds[m], moves[m].pid).Gone?
    ensures var w, record := PcOf(worlds[m], moves[m].pid).w, PcOf(worlds[m], moves[m].pid).seen;
      && w in worlds[m].heads && w in worlds[m].dirty && !worlds[m].dirty[w]
      && w in worlds[n].heads && worlds[n].heads[w] == worlds[m].heads[w]
      && DagOk(worlds[n].dag) && (IsAncestor(worlds[n].dag, c, worlds[m].heads[w]) ==> StillReachable(worlds[n], record, c))
  {
    var pc := PcOf(worlds[m], moves[m].pid);
    RunKeepsInv(worlds, moves, m);
    RemovalRetires(worlds[m], moves[m].pid, moves[m].step, worlds[m + 1]);
    RetiredForGood(worlds, moves, m + 1, n, pc.w);
    RunKeepsInv(worlds, moves, n);
    assert RetiredInv(worlds[n], pc.w);
    if IsAncestor(worlds[n].dag, c, worlds[m].heads[pc.w]) {
      RetiredCommitsAreReachable(worlds[n], pc.w, c);
    }
  }
}
