/** The worktree operations as the processes run them: every sub-step is one move of the
    protocol, and other processes move between any two of them (runtime/worktrees.py,
    runtime/workspace_lease.py). */
module WorktreeServices {
  import opened Prelude
  import opened GitModel
  import opened WorktreeLeases

  /** Some moves lead from one world to the other, none of them by `avoid`. */
  ghost predicate Path(worlds: seq<World>, moves: seq<Move>, avoid: Option<Pid>) {
    && |worlds| == |moves| + 1
    && forall i :: 0 <= i < |moves| ==> Leads(worlds, moves, i) && avoid != Some(moves[i].pid)
  }

  ghost predicate Evolves(s: World, s': World, avoid: Option<Pid>) {
    exists worlds: seq<World>, moves: seq<Move> :: Path(worlds, moves, avoid) && worlds[0] == s && worlds[|moves|] == s'
  }

  lemma EvolvesToItself(s: World, avoid: Option<Pid>)
    ensures Evolves(s, s, avoid)
  {
    var worlds, moves: seq<Move> := [s], [];
    assert Path(worlds, moves, avoid) && worlds[0] == s && worlds[|moves|] == s;
  }

  lemma Join(a: World, b: World, c: World, avoid: Option<Pid>)
    requires Evolves(a, b, None) && Evolves(b, c, avoid)
    ensures Evolves(a, c, None)
  {
    var worlds: seq<World>, moves: seq<Move> :| Path(worlds, moves, None) && worlds[0] == a && worlds[|moves|] == b;
    var worlds': seq<World>, moves': seq<Move> :| Path(worlds', moves', avoid) && worlds'[0] == b && worlds'[|moves'|] == c;
    JoinedPath(worlds, moves, worlds', moves', avoid);
  }

  /** The i-th move leads on, seen as one fact so that paths can be cut and joined. */
  ghost predicate Leads(worlds: seq<World>, moves: seq<Move>, i: nat)
    requires i < |moves| && |worlds| == |moves| + 1
  {
    Next(worlds[i], moves[i].pid, moves[i].step, worlds[i + 1])
  }

  lemma JoinedPath(worlds: seq<World>, moves: seq<Move>, worlds': seq<World>, moves': seq<Move>, avoid: Option<Pid>)
    requires Path(worlds, moves, None) && Path(worlds', moves', avoid) && worlds[|moves|] == worlds'[0]
    ensures Evolves(worlds[0], worlds'[|moves'|], None)
  {
    var all, steps := worlds + worlds'[1..], moves + moves';
    assert forall j :: 0 <= j < |worlds'| ==> all[|moves| + j] == worlds'[j];
    forall i | 0 <= i < |steps| ensures Leads(all, steps, i) {
      if i < |moves| {
        assert Leads(worlds, moves, i) && all[i] == worlds[i] && all[i + 1] == worlds[i + 1];
      } else {
        var j := i - |moves|;
        assert Leads(worlds', moves', j) && all[|moves| + j] == worlds'[j] && all[|moves| + (j + 1)] == worlds'[j + 1];
      }
    }
    assert Path(all, steps, None);
    assert all[0] == worlds[0] && all[|steps|] == worlds'[|moves'|];
  }

  /** A world that some run of the protocol ends in. */
  ghost predicate Reachable(s: World) {
    DagOk(s.dag) && exists init: World :: Init(init) && Evolves(init, s, None)
  }

  lemma OwnMove(s: World, p: Pid, step: Step, s': World)
    requires Next(s, p, step, s')
    ensures Evolves(s, s', None)
  {
    var worlds, moves := [s, s'], [Move(p, step)];
    assert Path(worlds, moves, None) && worlds[0] == s && worlds[|moves|] == s';
  }

  lemma EvolvedHasInv(init: World, s: World)
    requires Init(init) && Evolves(init, s, None)
    ensures Inv(s)
  {
    var worlds: seq<World>, moves: seq<Move> :| Path(worlds, moves, None) && worlds[0] == init && worlds[|moves|] == s;
    assert Run(worlds, moves);
    RunKeepsInv(worlds, moves, |moves|);
  }

  lemma StaysReachable(s: World, s': World, avoid: Option<Pid>)
    requires Reachable(s) && Evolves(s, s', avoid)
    ensures Reachable(s')
  {
    var init :| Init(init) && Evolves(init, s, None);
    Join(init, s, s', avoid);
    assert Evolves(init, s', None);
    EvolvedHasInv(init, s');
  }

  lemma ReachableHasInv(s: World)
    requires Reachable(s)
    ensures Inv(s)
  {
    var init :| Init(init) && Evolves(init, s, None);
    EvolvedHasInv(init, s);
  }

  /** Records and dedicated refs are never taken away, and such a ref is never moved. */
  ghost predicate Lasting(s: World, s': World) {
    && (forall w :: w in s.records ==> w in s'.records)
    && (forall k :: Service(k) in s.refs ==> Service(k) in s'.refs && s'.refs[Service(k)] == s.refs[Service(k)])
  }

  predicate SameCheckout(s: World, s': World, w: Wt) {
    && (w in s.heads ==> w in s'.heads && s'.heads[w] == s.heads[w])
    && (w in s.dirty ==> w in s'.dirty && s'.dirty[w] == s.dirty[w])
  }

  /** What moves of the others leave a process: its position, and the checkout it owns. */
  ghost predicate Untouched(s: World, s': World, p: Pid) {
    && Reachable(s') && PcOf(s', p) == PcOf(s, p) && Lasting(s, s')
    && (PcOf(s, p).Body? || PcOf(s, p).Made? ==> SameCheckout(s, s', PcOf(s, p).w))
  }

  lemma OwnedCheckoutStays(s: World, s': World, q: Pid, p: Pid)
    requires LocksInv(s) && RecordsInv(s) && RemovalMove(s, q, s') && q != p && (PcOf(s, p).Body? || PcOf(s, p).Made?)
    ensures SameCheckout(s, s', PcOf(s, p).w)
  {
    assert PositionInv(s, PcOf(s, p)) && PositionInv(s, PcOf(s, q));
  }

  lemma MoveOfAnother(worlds: seq<World>, moves: seq<Move>, i: nat, p: Pid)
    requires i < |moves| && |worlds| == |moves| + 1 && Leads(worlds, moves, i) && moves[i].pid != p && Reachable(worlds[i])
    ensures Untouched(worlds[i], worlds[i + 1], p)
  {
    var s, s', q, step := worlds[i], worlds[i + 1], moves[i].pid, moves[i].step;
    ReachableHasInv(s);
    assert LocalInv(s, PcOf(s, q));
    StepMovesRecords(s, q, step, s');
    StepMovesRemoval(s, q, step, s');
    OwnMove(s, q, step, s');
    StaysReachable(s, s', None);
    if PcOf(s, p).Body? || PcOf(s, p).Made? { OwnedCheckoutStays(s, s', q, p); }
  }

  lemma {:induction false} OthersMove(worlds: seq<World>, moves: seq<Move>, n: nat, p: Pid)
    requires Path(worlds, moves, Some(p)) && n <= |moves| && Reachable(worlds[0])
    ensures Untouched(worlds[0], worlds[n], p)
  {
    if n > 0 {
      OthersMove(worlds, moves, n - 1, p);
      MoveOfAnother(worlds, moves, n - 1, p);
    }
  }

  lemma AfterOthers(s: World, s': World, p: Pid)
    requires Reachable(s) && Evolves(s, s', Some(p))
    ensures Untouched(s, s', p)
  {
    var worlds: seq<World>, moves: seq<Move> :| Path(worlds, moves, Some(p)) && worlds[0] == s && worlds[|moves|] == s';
    OthersMove(worlds, moves, |moves|, p);
  }

  datatype Entry = Entered | Busy | NotReady

  /** One process using the service; `world` is what the processes share, files and locks. */
  class WorktreeService {
    const pid: Pid
    var world: World

    constructor (pid: Pid, world: World)
      ensures this.pid == pid && this.world == world
    {
      this.pid, this.world := pid, world;
    }

    function At(): Pc
      reads this
    {
      PcOf(world, pid)
    }

    /** Any moves of the other processes, and of people using the repository. */
    method Interfere()
      modifies this`world
      ensures Evolves(old(world), world, Some(pid))
    {
      EvolvesToItself(world, Some(pid));
    }

    /** Lets the others move; what this process stands for is untouched. */
    method Wait()
      requires Reachable(world)
      modifies this`world
      ensures Evolves(old(world), world, Some(pid)) && Untouched(old(world), world, pid)
    {
      ghost var before := world;
      Interfere();
      AfterOthers(before, world, pid);
    }

    // One step of the protocol, by its kind.

    method TakeAcquire(ghost step: Step, next: World)
      requires Reachable(world) && AcquireStep(world, pid, step, next)
      modifies this`world
      ensures Reachable(world) && world == next
    {
      OwnMove(world, pid, step, next);
      StaysReachable(world, next, None);
      world := next;
    }

    method TakeWriter(ghost step: Step, next: World)
      requires Reachable(world) && WriterStep(world, pid, step, next)
      modifies this`world
      ensures Reachable(world) && world == next
    {
      OwnMove(world, pid, step, next);
      StaysReachable(world, next, None);
      world := next;
    }

    method TakeLeave(ghost step: Step, next: World)
      requires Reachable(world) && LeaveStep(world, pid, step, next)
      modifies this`world
      ensures Reachable(world) && world == next
    {
      OwnMove(world, pid, step, next);
      StaysReachable(world, next, None);
      world := next;
    }

    method TakeCommand(ghost step: Step, next: World)
      requires Reachable(world) && CommandStep(world, pid, step, next)
      modifies this`world
      ensures Reachable(world) && world == next
    {
      OwnMove(world, pid, step, next);
      StaysReachable(world, next, None);
      world := next;
    }

    method TakePreserve(ghost step: Step, next: World)
      requires Reachable(world) && PreserveStep(world, pid, step, next)
      modifies this`world
      ensures Reachable(world) && world == next
    {
      OwnMove(world, pid, step, next);
      StaysReachable(world, next, None);
      world := next;
    }

    method TakeRemove(ghost step: Step, next: World)
      requires Reachable(world) && RemoveStep(world, pid, step, next)
      modifies this`world
      ensures Reachable(world) && world == next
    {
      OwnMove(world, pid, step, next);
      StaysReachable(world, next, None);
      world := next;
    }

    method TakeCreate(ghost step: Step, next: World)
      requires Reachable(world) && CreateStep(world, pid, step, next)
      modifies this`world
      ensures Reachable(world) && world == next
    {
      OwnMove(world, pid, step, next);
      StaysReachable(world, next, None);
      world := next;
    }

    /** The shared global lease, then the worktree's own lock. */
    method ManagedWriter(w: Wt) returns (held: bool, ghost at: World)
      requires Reachable(world) && At() == Idle && w in world.records
      modifies this`world
      ensures Reachable(world) && Lasting(old(world), world)
      ensures At() == if held then Holding(w) else Idle
      ensures Reachable(at) && Lasting(old(world), at) && held == (at.exclusive.None? && w !in at.locks)
    {
      at := world;
      if world.exclusive.Some? { return false, at; }
      TakeAcquire(Share(w), To(world.(shared := world.shared + {pid}), pid, Sharing(w)));
      Wait();
      at := world;
      SharingExcludesInPlace();
      held := w !in world.locks;
      if held {
        TakeAcquire(Lock, To(world.(locks := world.locks[w := pid]), pid, Holding(w)));
      } else {
        TakeAcquire(LockBusy, To(world.(shared := world.shared - {pid}), pid, Idle));
      }
    }

    lemma SharingExcludesInPlace()
      requires Reachable(world) && At().Sharing?
      ensures world.exclusive.None?
    {
      ReachableHasInv(world);
      assert IsWriter(PcOf(world, pid));
    }

    method Leave(w: Wt)
      requires Reachable(world) && At() == Releasing(w)
      modifies this`world
      ensures Reachable(world) && At() == Idle && w !in world.locks && Lasting(old(world), world)
    {
      Wait();
      TakeLeave(Release, To(Unlock(world, w).(shared := world.shared - {pid}), pid, Idle));
    }

    /** What entering finds in the world where it is decided. */
    ghost predicate Finds(r: Entry, at: World, w: Wt) {
      match r
      case Busy => at.exclusive.Some? || w in at.locks
      case NotReady => w in at.records && at.records[w].status != Ready
      case Entered => w in at.records && at.records[w].status == Ready && CleanLast(at, w)
    }

    /** Enters the managed lease: admits only a ready worktree, whose last writer ended well,
        and marks it active. `at` is the world in which that was decided. */
    method EnterLease(w: Wt) returns (r: Entry, ghost at: World)
      requires Reachable(world) && At() == Idle && w in world.records
      modifies this`world
      ensures Reachable(world) && Lasting(old(world), world)
      ensures At() == if r == Entered then Body(w, NoCommand) else Idle
      ensures Reachable(at) && Lasting(old(world), at) && Finds(r, at, w)
      ensures r == Entered ==> w in world.records && world.records[w].status == Active
    {
      var held;
      held, at := ManagedWriter(w);
      if !held { return Busy, at; }
      Wait();
      at := world;
      if world.records[w].status == Ready {
        ReadyIsClean(w);
        MarkWriter(w);
        r := Entered;
      } else {
        TakeAcquire(Refuse, To(world, pid, Releasing(w)));
        Leave(w);
        r := NotReady;
      }
    }

    /** Admitted under the lock, the process saves the record it read as active. */
    method MarkWriter(w: Wt)
      requires Reachable(world) && At() == Holding(w) && w in world.records && world.records[w].status == Ready
      modifies this`world
      ensures Reachable(world) && At() == Body(w, NoCommand) && w in world.records && Lasting(old(world), world)
      ensures world.records[w] == old(world.records[w]).(status := Active)
    {
      var current := world.records[w];
      TakeAcquire(Admit, To(world, pid, Admitted(w, current)));
      Wait();
      TakeAcquire(Activate, To(Save(world, w, current.(status := Active)).(last := world.last[w := Writing]), pid, Body(w, NoCommand)));
    }

    lemma ReadyIsClean(w: Wt)
      requires Reachable(world) && w in world.records && world.records[w].status == Ready
      ensures CleanLast(world, w)
    {
      ReachableHasInv(world);
      assert ReadyInv(world, w);
    }

    lemma BodyHasRecord()
      requires Reachable(world) && (PastAdmission(At()) || Creates(At()))
      ensures At().w in world.records
    {
      ReachableHasInv(world);
      assert PositionInv(world, PcOf(world, pid));
    }

    /** The body raised: the record as read then is saved as quarantined. */
    method EndBroken(w: Wt) returns (ghost read: World)
      requires Reachable(world) && At() == Body(w, NoCommand)
      modifies this`world
      ensures Reachable(world) && At() == Releasing(w) && Reachable(read) && w in read.records
      ensures w in world.records && world.records[w] == read.records[w].(status := Quarantined)
    {
      TakeWriter(Break, To(world.(last := world.last[w := Broke]), pid, Failing(w)));
      Wait();
      BodyHasRecord();
      read := world;
      TakeWriter(ReadToQuarantine, To(world, pid, Quarantining(w, world.records[w])));
      Wait();
      TakeWriter(SaveQuarantine, To(Save(world, w, At().seen.(status := Quarantined)), pid, Releasing(w)));
    }

    /** The body ended: ready again unless something put the worktree into quarantine meanwhile. */
    method EndCleanly(w: Wt) returns (ghost read: World)
      requires Reachable(world) && At() == Body(w, NoCommand)
      modifies this`world
      ensures Reachable(world) && At() == Releasing(w) && Reachable(read) && w in read.records
      ensures w in world.records && world.records[w] == Reopened(read.records[w])
    {
      TakeWriter(Finish, To(world.(last := world.last[w := Finished]), pid, Ending(w)));
      Wait();
      BodyHasRecord();
      read := world;
      if world.records[w].status == Active {
        Reopen(w);
      } else {
        TakeLeave(ReadToEnd, To(world, pid, Releasing(w)));
      }
    }

    function Reopened(record: Record): Record {
      if record.status == Active then record.(status := Ready) else record
    }

    method Reopen(w: Wt)
      requires Reachable(world) && At() == Ending(w) && w in world.records && world.records[w].status == Active
      modifies this`world
      ensures Reachable(world) && At() == Releasing(w)
      ensures w in world.records && world.records[w] == old(world.records[w]).(status := Ready)
    {
      var latest := world.records[w];
      TakeLeave(ReadToEnd, To(world, pid, Closing(w, latest)));
      Wait();
      TakeLeave(SaveReady, To(Save(world, w, latest.(status := Ready)), pid, Releasing(w)));
    }

    /** Leaves the managed lease. `read` is the world the record was read in, `saved` the one
        in which, still under the lock, the lease was done with it. */
    method ExitLease(w: Wt, raised: bool) returns (ghost read: World, ghost saved: World)
      requires Reachable(world) && At() == Body(w, NoCommand)
      modifies this`world
      ensures Reachable(world) && At() == Idle && w !in world.locks && w in world.records
      ensures Reachable(read) && Reachable(saved) && PcOf(saved, pid) == Releasing(w) && Lasting(saved, world)
      ensures w in read.records && w in saved.records
      ensures saved.records[w] == if raised then read.records[w].(status := Quarantined) else Reopened(read.records[w])
    {
      if raised { read := EndBroken(w); } else { read := EndCleanly(w); }
      saved := world;
      Leave(w);
    }

    method EndScope(w: Wt)
      requires Reachable(world) && At() == Body(w, Over)
      modifies this`world
      ensures Reachable(world) && At() == Body(w, NoCommand) && world.commandLock.None?
    {
      Wait();
      TakeCommand(UnlockCommands, To(world.(commandLock := None), pid, Body(w, NoCommand)));
    }

    /** Writes the durable marker once it is known that none was left behind. */
    method MarkActive(w: Wt)
      requires Reachable(world) && At() == Body(w, Locked) && world.marker.None?
      requires w in world.records && (world.records[w].status == Ready || world.records[w].status == Active)
      modifies this`world
      ensures Reachable(world) && At() == Body(w, Marked)
    {
      TakeCommand(SeeNoMarker, To(world, pid, Body(w, Clear)));
      Wait();
      TakeCommand(WriteMarker, To(world.(marker := Some(w)), pid, Body(w, Marked)));
    }

    /** The host-wide lock, taken without waiting. */
    method LockScope(w: Wt) returns (locked: bool)
      requires Reachable(world) && At() == Body(w, NoCommand)
      modifies this`world
      ensures Reachable(world) && At() == Body(w, if locked then Locked else NoCommand)
      ensures locked == old(world.commandLock).None? && (locked ==> w in world.records)
    {
      locked := world.commandLock.None?;
      if locked {
        TakeCommand(LockCommands, To(world.(commandLock := Some(pid)), pid, Body(w, Locked)));
        Wait();
        BodyHasRecord();
      }
    }

    /** No marker left behind, and a record under which commands may run. */
    ghost predicate Usable(s: World, w: Wt) {
      s.marker.None? && w in s.records && (s.records[w].status == Ready || s.records[w].status == Active)
    }

    /** The start of the scope: the lock, no marker left behind, a usable record. */
    method OpenScope(w: Wt) returns (open: bool, ghost at: World)
      requires Reachable(world) && At() == Body(w, NoCommand)
      modifies this`world
      ensures Reachable(world) && At() == Body(w, if open then Marked else NoCommand)
      ensures Reachable(at) && open == (old(world.commandLock).None? && Usable(at, w))
    {
      at := world;
      var locked := LockScope(w);
      if !locked { return false, at; }
      at := world;
      open := world.marker.None? && (world.records[w].status == Ready || world.records[w].status == Active);
      if open {
        MarkActive(w);
      } else {
        TakeCommand(CommandRefused, To(world, pid, Body(w, Over)));
        EndScope(w);
      }
    }

    method QuarantineAfterCommand(w: Wt)
      requires Reachable(world) && At() == Body(w, Unconfirmed)
      modifies this`world
      ensures Reachable(world) && At() == Body(w, Over) && w in world.records && world.records[w].status == Quarantined
    {
      BodyHasRecord();
      var record := world.records[w];
      TakeCommand(ReadForCommand, To(world, pid, Body(w, Seen(record))));
      Wait();
      TakeCommand(QuarantineForCommand, To(Save(world, w, record.(status := Quarantined)), pid, Body(w, Over)));
    }

    /** A command whose exit was not confirmed: the marker stays and the worktree is quarantined. */
    method Abandon(w: Wt)
      requires Reachable(world) && (At() == Body(w, Marked) || (At().Body? && At().w == w && At().cmd.Running?))
      modifies this`world
      ensures Reachable(world) && At() == Body(w, Over) && w in world.records && world.records[w].status == Quarantined
    {
      TakeCommand(LoseTrack, To(world, pid, Body(w, Unconfirmed)));
      Wait();
      QuarantineAfterCommand(w);
    }

    lemma MarkedIsSilent()
      requires Reachable(world) && At().Body? && At().cmd.Marked?
      ensures world.open == {}
    {
      ReachableHasInv(world);
      assert CmdInv(world, CmdOf(PcOf(world, pid)));
    }

    /** The confirmed exit: only then is the marker taken away. */
    method Settle(w: Wt, command: nat)
      requires Reachable(world) && At() == Body(w, Running(command))
      modifies this`world
      ensures Reachable(world) && At() == Body(w, Over) && world.marker.None?
    {
      TakeCommand(Confirm, To(world.(open := world.open - {command}), pid, Body(w, Confirmed)));
      Wait();
      TakeCommand(Unmark, To(world.(marker := None), pid, Body(w, Over)));
    }

    method Launch(w: Wt, command: nat)
      requires Reachable(world) && At() == Body(w, Marked)
      modifies this`world
      ensures Reachable(world) && At() == Body(w, Running(command))
    {
      MarkedIsSilent();
      TakeCommand(Start(command), To(world.(open := world.open + {command}), pid, Body(w, Running(command))));
      Wait();
    }

    /** One command inside the body: `prepared` says whether its environment could be built,
        `confirmed` whether the exit of all its processes was. */
    method RunCommand(w: Wt, command: nat, prepared: bool, confirmed: bool) returns (started: bool, ghost at: World)
      requires Reachable(world) && At() == Body(w, NoCommand)
      modifies this`world
      ensures Reachable(world) && At() == Body(w, NoCommand)
      ensures Reachable(at) && started == (old(world.commandLock).None? && Usable(at, w) && prepared)
    {
      var open;
      open, at := OpenScope(w);
      if !open { return false, at; }
      Wait();
      started := prepared;
      if started { Launch(w, command); }
      if started && confirmed { Settle(w, command); } else { Abandon(w); }
      EndScope(w);
    }

    /** The worktree is unlocked, ready, and its record names the ref. */
    predicate Recorded(w: Wt, held: Held)
      reads this
    {
      w !in world.locks && w in world.records && world.records[w].status == Ready && held in world.records[w].preserved
    }

    /** Adds the ref to the record that was read under the lock. */
    method Append(w: Wt, held: Held, record: Record)
      requires Reachable(world) && At() == Recording(w, held, record)
      modifies this`world
      ensures Reachable(world) && At() == Idle && Recorded(w, held)
    {
      ReadyWhenRecorded();
      TakePreserve(SavePreserved, To(Unlock(Save(world, w, record.(preserved := record.preserved + [held])), w), pid, Idle));
    }

    method Decline(w: Wt, held: Held)
      requires Reachable(world) && At() == Preserving(w, held)
      modifies this`world
      ensures Reachable(world) && At() == Idle
    {
      TakePreserve(PreserveFails, To(Unlock(world, w), pid, Idle));
    }

    method ReadUnderLock(w: Wt, held: Held)
      requires Reachable(world) && At() == Preserving(w, held) && w in world.records && world.records[w].status == Ready
      modifies this`world
      ensures Reachable(world) && At() == Recording(w, held, old(world.records[w]))
    {
      TakePreserve(ReadToPreserve, To(world, pid, Recording(w, held, world.records[w])));
      Wait();
    }

    /** Records a dedicated ref that holds work of the worktree. */
    method Preserve(w: Wt, held: Held) returns (ok: bool, ghost at: World)
      requires Reachable(world) && At() == Idle && w in world.records
      modifies this`world
      ensures Reachable(world) && At() == Idle && (ok ==> Recorded(w, held))
      ensures Reachable(at) && Lasting(old(world), at)
      ensures ok == (Service(held.ref) in old(world.refs) && old(world.refs)[Service(held.ref)] == held.commit && w !in old(world.locks)
                     && w in at.records && at.records[w].status == Ready)
    {
      at := world;
      ok := false;
      if Service(held.ref) !in world.refs || world.refs[Service(held.ref)] != held.commit || w in world.locks { return; }
      TakePreserve(BeginPreserve(w, held), To(world.(locks := world.locks[w := pid]), pid, Preserving(w, held)));
      Wait();
      at := world;
      var record := world.records[w];
      ok := record.status == Ready;
      if ok {
        ReadUnderLock(w, held);
        Append(w, held, record);
      } else {
        Decline(w, held);
      }
    }

    lemma ReadyWhenRecorded()
      requires Reachable(world) && At().Recording?
      ensures At().seen.status == Ready
    {
      ReachableHasInv(world);
      assert PositionInv(world, PcOf(world, pid));
    }

    lemma CheckoutExists()
      requires Reachable(world) && Leaving(At())
      ensures At().w in world.heads
    {
      ReachableHasInv(world);
      assert Clean(world, PcOf(world, pid).w, PcOf(world, pid).seen);
    }

    /** The loop over the recorded refs: some ref still holds the head. */
    method IsKept(w: Wt) returns (kept: bool)
      requires DagOk(world.dag) && w in world.records && w in world.heads
      ensures kept == Kept(world, world.heads[w], world.records[w])
    {
      var head, refs := world.heads[w], world.records[w].preserved;
      kept := head == world.records[w].base;
      for i := 0 to |refs|
        invariant kept == (head == world.records[w].base || exists j :: 0 <= j < i && HeldBy(world, head, refs[j]))
      {
        var ref := Service(refs[i].ref);
        if ref in world.refs && world.refs[ref] == refs[i].commit && IsAncestor(world.dag, head, refs[i].commit) {
          assert HeldBy(world, head, refs[i]);
          kept := true;
        } else {
          assert !HeldBy(world, head, refs[i]);
        }
      }
    }

    /** Under the lock: ready, clean, and every commit held by the base or a recorded ref. */
    method Inspect(w: Wt) returns (removable: bool)
      requires Reachable(world) && At() == Inspecting(w) && w in world.records
      modifies this`world
      ensures Reachable(world) && removable == old(Removable(world, w))
      ensures At() == if removable then Removing(w, old(world.records[w])) else Idle
    {
      removable := w in world.heads && w in world.dirty && world.records[w].status == Ready && !world.dirty[w];
      if removable { removable := IsKept(w); }
      if removable {
        TakeRemove(CheckRemovable, To(world, pid, Removing(w, world.records[w])));
      } else {
        TakeRemove(RemoveFails, To(Unlock(world, w), pid, Idle));
      }
    }

    /** Removes a clean worktree whose work is held by a recorded ref. */
    method Remove(w: Wt, deleted: bool) returns (removed: bool, ghost at: World)
      requires Reachable(world) && At() == Idle && w in world.records
      modifies this`world
      ensures Reachable(world) && At() == Idle
      ensures removed ==> w in world.records && world.records[w].status == Removed && w !in world.locks && w in world.retired
      ensures Reachable(at) && Lasting(old(world), at) && removed == (w !in old(world.locks) && Removable(at, w) && deleted)
    {
      at := world;
      if w in world.locks { return false, at; }
      TakeRemove(BeginRemove(w), To(world.(locks := world.locks[w := pid]), pid, Inspecting(w)));
      Wait();
      at := world;
      removed := Inspect(w);
      if removed { removed := Delete(w, deleted); }
    }

    method Delete(w: Wt, deleted: bool) returns (removed: bool)
      requires Reachable(world) && At().Removing? && At().w == w
      modifies this`world
      ensures Reachable(world) && At() == Idle && removed == deleted
      ensures removed ==> w in world.records && world.records[w].status == Removed && w !in world.locks && w in world.retired
    {
      var record := At().seen;
      removed := deleted;
      Wait();
      if !deleted {
        TakeRemove(RemoveFails, To(Unlock(world, w), pid, Idle));
        return;
      }
      TakeRemove(DeleteCheckout, To(world, pid, Gone(w, record)));
      Wait();
      CheckoutExists();
      TakeRemove(SaveRemoved, To(Unlock(Save(world, w, record.(status := Removed)), w).(
        retired := world.retired[w := Retirement(world.heads[w], record)]), pid, Idle));
    }

    method Register(w: Wt, record: Record)
      requires Reachable(world) && At() == Idle && w !in world.records
      requires record.base in world.dag && record == Record(Creating, record.base, [])
      modifies this`world
      ensures Reachable(world) && At() == Making(w, record) && Lasting(old(world), world)
    {
      TakeCreate(BeginCreate(w, record.base), To(Save(world, w, record).(last := world.last[w := Never]), pid, Making(w, record)));
      Wait();
    }

    method AddCheckoutFor(w: Wt, record: Record)
      requires Reachable(world) && At() == Making(w, record)
      modifies this`world
      ensures Reachable(world) && At() == Made(w, record) && Lasting(old(world), world)
      ensures w in world.heads && world.heads[w] == record.base && w in world.dirty && !world.dirty[w]
    {
      TakeCreate(AddCheckout, To(world.(heads := world.heads[w := record.base], dirty := world.dirty[w := false]), pid, Made(w, record)));
      Wait();
    }

    method SaveAsReady(w: Wt, record: Record) returns (ghost at: World)
      requires Reachable(world) && At() == Made(w, record)
      modifies this`world
      ensures Reachable(world) && At() == Returning(w, record) && Lasting(old(world), at)
      ensures Reachable(at) && w in at.records && at.records[w] == record.(status := Ready)
      ensures at.heads == old(world.heads) && at.dirty == old(world.dirty)
    {
      TakeCreate(SaveCreated, To(Save(world, w, record.(status := Ready)), pid, Returning(w, record)));
      at := world;
      Wait();
    }

    method EndCreate(w: Wt, record: Record, ok: bool)
      requires Reachable(world) && w in world.records
      requires At() == Returning(w, record) || (!ok && (At() == Making(w, record) || At() == Made(w, record)))
      modifies this`world
      ensures Reachable(world) && At() == Idle
      ensures w in world.records && (!ok ==> world.records[w] == record.(status := Quarantined))
    {
      if ok {
        TakeCreate(CreateReturns, To(world, pid, Idle));
      } else {
        TakeCreate(CreateFails, To(Save(world, w, record.(status := Quarantined)), pid, Idle));
      }
    }

    /** Opened for writers: a clean checkout of the base. */
    ghost predicate Opened(at: World, w: Wt, base: Commit) {
      && Reachable(at) && w in at.records && at.records[w] == Record(Ready, base, [])
      && w in at.heads && at.heads[w] == base && w in at.dirty && !at.dirty[w]
    }

    /** Registers a worktree, adds its checkout and opens it; any failure quarantines it. `at`
        is the world in which it was opened, if it was. */
    method Create(w: Wt, base: Commit, added: bool, saved: bool, inspected: bool) returns (ok: bool, ghost at: World)
      requires Reachable(world) && At() == Idle && w !in world.records && base in world.dag
      modifies this`world
      ensures Reachable(world) && At() == Idle && ok == (added && saved && inspected)
      ensures w in world.records && (!ok ==> world.records[w] == Record(Quarantined, base, []))
      ensures added && saved ==> Opened(at, w, base) && Lasting(old(world), at)
    {
      var record := Record(Creating, base, []);
      ok := added && saved && inspected;
      at := world;
      Register(w, record);
      if added {
        AddCheckoutFor(w, record);
        if saved { at := SaveAsReady(w, record); }
      }
      StillRecorded(w);
      EndCreate(w, record, ok);
    }

    lemma StillRecorded(w: Wt)
      requires Reachable(world) && (Creates(At()) || At().Returning?) && At().w == w
      ensures w in world.records
    {
      ReachableHasInv(world);
      assert PositionInv(world, PcOf(world, pid));
    }

    method TakeOutside(ghost step: Step, next: World)
      requires Reachable(world) && OutsideStep(world, pid, step, next)
      modifies this`world
      ensures Reachable(world) && world == next
    {
      OwnMove(world, pid, step, next);
      StaysReachable(world, next, None);
      world := next;
    }

    lemma HasCheckout()
      requires Reachable(world)
      ensures DagOk(world.dag)
    {
      ReachableHasInv(world);
    }

    /** Everything in the worktree is in this commit. */
    predicate CommittedAt(s: World, w: Wt, head: Commit) {
      w in s.heads && s.heads[w] == head && w in s.dirty && !s.dirty[w]
    }

    /** Commits what is uncommitted, as a commit numbered `number` on top of the head. */
    method CommitChanges(w: Wt, number: Commit) returns (head: Option<Commit>)
      requires Reachable(world) && At() == Body(w, NoCommand)
      modifies this`world
      ensures Reachable(world) && At() == Body(w, NoCommand) && Lasting(old(world), world)
      ensures head.Some? ==> head.value in world.dag && CommittedAt(world, w, head.value)
    {
      HasCheckout();
      if w !in world.heads || w !in world.dirty || world.heads[w] !in world.dag { return None; }
      head := Some(world.heads[w]);
      if world.dirty[w] {
        if number in world.dag || number <= world.heads[w] { return None; }
        head := Some(number);
        TakeWriter(Work(number, {world.heads[w]}, false), To(
          world.(dag := world.dag[number := {world.heads[w]}], heads := world.heads[w := number], dirty := world.dirty[w := false]),
          pid, Body(w, NoCommand)));
      }
    }

    /** Adds the dedicated ref of a checkpoint; an existing one is never moved. */
    method AddRef(w: Wt, n: nat, commit: Commit) returns (added: bool)
      requires Reachable(world) && At() == Body(w, NoCommand)
      modifies this`world
      ensures Reachable(world) && At() == Body(w, NoCommand)
      ensures added == (Service(Dedicated.Checkpoint(n)) !in old(world.refs) && commit in old(world.dag))
      ensures added ==> world.refs == old(world.refs)[Service(Dedicated.Checkpoint(n)) := commit]
      ensures world.heads == old(world.heads) && world.dirty == old(world.dirty)
      ensures world.records == old(world.records) && world.dag == old(world.dag)
    {
      var ref := Service(Dedicated.Checkpoint(n));
      added := ref !in world.refs && commit in world.dag;
      if added {
        TakeOutside(MoveRef(ref, Some(commit)), To(world.(refs := world.refs[ref := commit]), pid, Body(w, NoCommand)));
      }
    }

    /** Under the lease: everything is committed and the commit gets a new dedicated ref. */
    method SaveWork(w: Wt, n: nat, number: Commit) returns (held: Option<Held>, ghost at: World)
      requires Reachable(world) && At() == Body(w, NoCommand)
      modifies this`world
      ensures Reachable(world) && At() == Body(w, NoCommand)
      ensures held.Some? ==> NewRef(old(world), n, at, w, held.value)
    {
      held, at := None, world;
      var head := CommitChanges(w, number);
      Wait();
      if head.None? { return; }
      var added := AddRef(w, n, head.value);
      at := world;
      if added {
        held := Some(Held(Dedicated.Checkpoint(n), head.value));
        assert HeldBy(at, head.value, held.value);
      }
      Wait();
    }

    /** The ref was not there in the one world, and holds the worktree's work in the later one. */
    ghost predicate NewRef(s: World, n: nat, at: World, w: Wt, held: Held) {
      && held.ref == Dedicated.Checkpoint(n) && Service(held.ref) !in s.refs
      && Lasting(s, at) && Holds(at, w, held)
    }

    /** Saves the work of a worktree: a new dedicated ref under its lease, recorded after it as
        preserving the worktree. `at` is the world in which the ref was added. */
    method Checkpoint(w: Wt, n: nat, number: Commit) returns (held: Option<Held>, ghost at: World)
      requires Reachable(world) && At() == Idle && w in world.records
      modifies this`world
      ensures Reachable(world) && At() == Idle
      ensures held.Some? ==> NewRef(old(world), n, at, w, held.value) && Recorded(w, held.value)
    {
      at := world;
      var entry, _ := EnterLease(w);
      if entry != Entered { return None, at; }
      ghost var entered := world;
      held, at := SaveWork(w, n, number);
      if held.Some? { NewRefBefore(old(world), entered, n, at, w, held.value); }
      var _, _ := ExitLease(w, held.None?);
      if held.None? { return; }
      var ok, _ := Preserve(w, held.value);
      if !ok { held := None; }
    }

    lemma NewRefBefore(s: World, t: World, n: nat, at: World, w: Wt, held: Held)
      requires Lasting(s, t) && NewRef(t, n, at, w, held)
      ensures NewRef(s, n, at, w, held)
    {}

    /** The worktree has nothing but the commit the ref holds. */
    ghost predicate Holds(s: World, w: Wt, held: Held) {
      && Reachable(s) && PcOf(s, pid) == Body(w, NoCommand) && CommittedAt(s, w, held.commit)
      && HeldBy(s, held.commit, held)
    }
  }
}
