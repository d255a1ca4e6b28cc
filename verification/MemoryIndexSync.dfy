/** The synchronizer's drain loop, run while service commands interfere between any two
    of its sub-steps (memory/index_sync.py, memory/semantic_index.py). */
module MemoryIndexSync {
  import opened Prelude
  import opened MemoryDomain
  import opened MemoryStore
  import opened MemoryCommands
  import opened MemorySystem
  import opened MemoryOutbox
  import opened MemoryConvergence

  /** How an external call ends: normally, or by raising before or after its effect. */
  datatype Outcome = Returns | RaisesBefore | RaisesAfter

  /** What goes wrong while one event is processed. */
  datatype Faults = Faults(
    getRaises: bool, index: Outcome, complete: Outcome, traceRaises: bool, retry: Outcome, failureTraceRaises: bool)

  const NO_FAULTS := Faults(false, Returns, Returns, false, Returns, false)

  /** The event is counted as completed: everything up to its completion returned. */
  predicate Counts(f: Faults) {
    !f.getRaises && f.index == Returns && f.complete == Returns
  }

  /** The event is retried: something in the `try` block raised, its trace at the latest. */
  predicate Retries(f: Faults) {
    !Counts(f) || f.traceRaises
  }

  /** The drain itself ends with an exception: the `except` block raised. */
  predicate Dies(f: Faults) {
    Retries(f) && (f.retry != Returns || f.failureTraceRaises)
  }

  /** Counted and retried: the write succeeded and its trace raised. */
  predicate CountsTwice(f: Faults) {
    Counts(f) && f.traceRaises
  }

  /** How many of the first `n` events are of a kind. */
  function CountOf(faults: nat -> Faults, kind: Faults -> bool, n: nat): nat {
    if n == 0 then 0 else CountOf(faults, kind, n - 1) + if kind(faults(n - 1)) then 1 else 0
  }

  /** Completed and retried events are all events and once more those whose trace raised after
      the write. */
  lemma {:induction false} CountersOverlap(faults: nat -> Faults, n: nat)
    ensures CountOf(faults, Counts, n) + CountOf(faults, Retries, n) == n + CountOf(faults, CountsTwice, n)
  {
    if n > 0 { CountersOverlap(faults, n - 1); }
  }

  lemma {:induction false} CountOfIsPositiveIff(faults: nat -> Faults, kind: Faults -> bool, n: nat)
    ensures CountOf(faults, kind, n) > 0 <==> exists i :: 0 <= i < n && kind(faults(i))
  {
    if n > 0 { CountOfIsPositiveIff(faults, kind, n - 1); }
  }

  /** The two counters exceed the number of events if and only if some trace raised after its
      event's write. */
  lemma {:induction false} CountersExceedIff(faults: nat -> Faults, n: nat)
    ensures CountOf(faults, Counts, n) + CountOf(faults, Retries, n) > n <==> exists i :: 0 <= i < n && CountsTwice(faults(i))
  {
    CountersOverlap(faults, n);
    CountOfIsPositiveIff(faults, CountsTwice, n);
  }

  lemma ReachableKeepsInv(policy: Policy, s: World)
    requires Reachable(policy, s)
    ensures Inv(s)
  {
    var worlds, steps :| Run(policy, worlds, steps) && Init(worlds[0]) && worlds[|steps|] == s;
    RunKeepsInv(policy, worlds, steps, |steps|);
  }

  /** Service commands leave the index, the synchronizer and existing events alone. */
  ghost predicate CommandsOnly(a: World, b: World) {
    && b.index == a.index && b.sync == a.sync && b.clock >= a.clock
    && forall k :: k in a.db.outbox ==> k in b.db.outbox && b.db.outbox[k] == a.db.outbox[k]
  }

  ghost predicate RowsKept(before: Outbox, after: Outbox) {
    forall j :: j in before ==> j in after && after[j] == before[j]
  }

  /** Of the existing events only the given one changed, and only in its status. */
  ghost predicate HeadSettled(before: Outbox, after: Outbox, k: nat) {
    && k in before && k in after && after[k] == before[k].(status := after[k].status)
    && forall j :: j in before && j != k ==> j in after && after[j] == before[j]
  }

  function Pow2(n: nat): nat {
    if n == 0 then 1 else 2 * Pow2(n - 1)
  }

  /** The back-off: doubling, capped after eight doublings. */
  function Delay(base: nat, attempts: nat): nat {
    base * Pow2(Min(attempts, 8))
  }

  lemma {:induction false} Pow2Grows(m: nat, n: nat)
    requires m <= n
    ensures 1 <= Pow2(m) <= Pow2(n)
  {
    if m < n { Pow2Grows(m, n - 1); }
    else if m > 0 { Pow2Grows(m - 1, m - 1); }
  }

  /** The back-off never shrinks and never exceeds 256 times the base. */
  lemma DelayIsBounded(base: nat, attempts: nat, attempts': nat)
    requires attempts <= attempts'
    ensures base <= Delay(base, attempts) <= Delay(base, attempts') <= 256 * base
  {
    Pow2Grows(0, Min(attempts, 8));
    Pow2Grows(Min(attempts, 8), Min(attempts', 8));
    Pow2Grows(Min(attempts', 8), 8);
    assert Pow2(8) == 256;
    Scale(base, 1, Pow2(Min(attempts, 8)));
    Scale(base, Pow2(Min(attempts, 8)), Pow2(Min(attempts', 8)));
    Scale(base, Pow2(Min(attempts', 8)), 256);
  }

  lemma Scale(base: nat, x: nat, y: nat)
    requires x <= y
    ensures base * x <= base * y
  {}

  function IdsOf(events: seq<Event>): seq<nat> {
    seq(|events|, i requires 0 <= i < |events| => events[i].id)
  }

  function ClaimedRows(outbox: Outbox, events: seq<Event>): Outbox {
    SetStatus(outbox, set i | 0 <= i < |events| :: events[i].id, Processing)
  }

  lemma ClaimIsStep(s: World, events: seq<Event>)
    requires s.sync == Idle
    requires forall i :: 0 <= i < |events| ==>
      && events[i].id in s.db.outbox && Ready(s.db.outbox[events[i].id], s.clock)
      && events[i] == s.db.outbox[events[i].id].(status := Processing)
    ensures SyncStep(s, Claim(IdsOf(events)),
      s.(db := s.db.(outbox := ClaimedRows(s.db.outbox, events)), sync := if events == [] then Idle else Busy(events, AtHead)))
  {
    var ids, rows := IdsOf(events), ClaimedRows(s.db.outbox, events);
    assert (set k | k in ids) == set i | 0 <= i < |events| :: events[i].id by {
      forall i | 0 <= i < |events| ensures events[i].id in ids { assert ids[i] == events[i].id; }
    }
    var outbox := SetStatus(s.db.outbox, (set k | k in ids), Processing);
    assert outbox == rows;
    forall i | 0 <= i < |events| ensures ids[i] == events[i].id && ids[i] in outbox && outbox[ids[i]] == events[i] {
      assert ids[i] in ids;
    }
    assert seq(|ids|, i requires 0 <= i < |ids| && ids[i] in outbox => outbox[ids[i]]) == events;
    assert forall i :: 0 <= i < |ids| ==> ids[i] in s.db.outbox && Ready(s.db.outbox[ids[i]], s.clock);
  }

  lemma AllReadyClaimed(outbox: Outbox, events: seq<Event>, now: Time)
    requires forall k :: k in outbox ==> !Ready(ClaimedRows(outbox, events)[k], now)
    ensures forall k :: k in outbox && Ready(outbox[k], now) ==> exists i :: 0 <= i < |events| && events[i].id == k
  {}

  class SemanticIndex {
    var points: set<Point>

    constructor ()
      ensures points == {}
    {
      points := {};
    }

    /** The point id is derived from (id, version), so inserting again changes nothing. */
    method Upsert(item: MemoryItem, outcome: Outcome) returns (raised: bool)
      modifies this
      ensures raised == (outcome != Returns)
      ensures points == if outcome == RaisesBefore then old(points) else old(points) + {(item.id, item.version)}
    {
      if outcome == RaisesBefore { return true; }
      points := points + {(item.id, item.version)};
      raised := outcome == RaisesAfter;
    }

    /** Removes every version of the item. */
    method Delete(memoryId: Id, outcome: Outcome) returns (raised: bool)
      modifies this
      ensures raised == (outcome != Returns)
      ensures points == if outcome == RaisesBefore then old(points) else DropItem(old(points), memoryId)
    {
      if outcome == RaisesBefore { return true; }
      points := DropItem(points, memoryId);
      raised := outcome == RaisesAfter;
    }
  }

  class MemoryIndexSynchronizer {
    const policy: Policy
    const repository: PostgresMemoryRepository
    const index: SemanticIndex
    const retryBase: nat
    var clock: Time
    ghost var inflight: set<Pending>
    ghost var sync: Sync

    constructor (policy: Policy, repository: PostgresMemoryRepository, index: SemanticIndex, retryBase: int, clock: Time)
      requires repository.Db() == Database(map[], map[], map[]) && index.points == {}
      ensures this.repository == repository && this.index == index && this.policy == policy
      ensures this.retryBase == Max(1, retryBase) && this.clock == clock
      ensures sync == Idle && Reachable(policy, View())
    {
      this.policy, this.repository, this.index := policy, repository, index;
      this.retryBase, this.clock := Max(1, retryBase), clock;
      inflight, sync := {}, Idle;
      new;
      ghost var worlds, steps: seq<Step> := [View()], [];
      assert Run(policy, worlds, steps) && Init(worlds[0]) && worlds[|steps|] == View();
    }

    ghost function View(): World
      reads this, repository, index
    {
      World(repository.Db(), index.points, clock, inflight, sync)
    }

    /** A sub-step of the synchronizer that touches nothing but its own position. */
    ghost method Advance(step: Step, phase: Phase)
      requires Reachable(policy, View()) && sync.Busy?
      requires Next(policy, View(), step, View().(sync := sync.(phase := phase)))
      modifies this`sync
      ensures Reachable(policy, View()) && sync == old(sync).(phase := phase)
    {
      ghost var before := View();
      sync := sync.(phase := phase);
      Reach(policy, before, step, View());
    }

    /** Any number of service commands and any passing of time. Callers only know that the
        system stays reachable and what commands cannot touch. */
    method Interfere()
      requires Reachable(policy, View())
      modifies repository, this`clock, this`inflight
      ensures Reachable(policy, View()) && CommandsOnly(old(View()), View())
    {}

    lemma HeadIsStored(e: Event)
      requires Reachable(policy, View()) && sync.Busy? && sync.batch != [] && sync.batch[0] == e
      ensures e.id in repository.outbox
    {
      ReachableKeepsInv(policy, View());
      assert SameKey(repository.outbox[e.id], e.memoryId, e.version, e.op);
    }

    /** An upsert is called for: the item read is there, at the event's version, and retrievable
        when this is decided. */
    predicate Wanted(e: Event, item: Option<MemoryItem>, now: Time) {
      e.op == Upsert && item.Some? && item.value.version == e.version && item.value.Retrievable(now)
    }

    /** Reads the item and decides, with commands in between. */
    method ReadAndDecide(e: Event, fault: Faults) returns (upsert: Option<MemoryItem>, raised: bool, ghost item: Option<MemoryItem>)
      requires Reachable(policy, View()) && At(View(), AtHead) && sync.batch[0] == e
      modifies repository, this`clock, this`inflight, this`sync
      ensures Reachable(policy, View()) && RowsKept(old(repository.outbox), repository.outbox)
      ensures raised == fault.getRaises
      ensures !raised ==> item == if e.memoryId in old(repository.items) then Some(old(repository.items)[e.memoryId]) else None
      ensures upsert == if !raised && Wanted(e, item, clock) then item else None
      ensures sync == Busy(old(sync.batch), if raised then Failed else
        Decided(if upsert.Some? then Some((upsert.value.id, upsert.value.version)) else None))
    {
      raised := fault.getRaises;
      upsert, item := None, None;
      if raised {
        Advance(Raises, Failed);
        return;
      }
      var read := repository.Get(e.memoryId);
      item := read;
      Advance(GetItem, HasItem(read));
      Interfere();
      if e.op == Upsert && read.Some? && read.value.version == e.version && read.value.Retrievable(clock) {
        upsert := read;
      }
      Advance(Decide, Decided(Target(e, read, clock)));
    }

    method WriteDecision(e: Event, upsert: Option<MemoryItem>, fault: Faults) returns (raised: bool)
      requires Reachable(policy, View()) && sync.Busy? && sync.batch != [] && sync.batch[0] == e
      requires sync.phase == Decided(if upsert.Some? then Some((upsert.value.id, upsert.value.version)) else None)
      modifies index, this`sync
      ensures Reachable(policy, View())
      ensures raised == (fault.index != Returns) && sync == Busy(old(sync.batch), if raised then Failed else Wrote)
    {
      ghost var before := View();
      if upsert.Some? {
        raised := index.Upsert(upsert.value, fault.index);
      } else {
        raised := index.Delete(e.memoryId, fault.index);
      }
      sync := Busy(sync.batch, if raised then Failed else Wrote);
      Reach(policy, before, if raised then IndexRaises(fault.index == RaisesAfter) else WriteIndex, View());
    }

    method MarkCompleted(e: Event, fault: Faults) returns (raised: bool)
      requires Reachable(policy, View()) && At(View(), Wrote) && sync.batch[0] == e
      modifies repository`outbox, this`sync
      ensures Reachable(policy, View()) && HeadSettled(old(repository.outbox), repository.outbox, e.id)
      ensures raised == (fault.complete != Returns) && sync == Busy(old(sync.batch), if raised then Failed else Marked)
      ensures !raised ==> repository.outbox[e.id].status == Completed
    {
      HeadIsStored(e);
      ghost var before := View();
      if fault.complete != RaisesBefore { var found := repository.CompleteIndexEvent(e.id); }
      raised := fault.complete != Returns;
      sync := Busy(sync.batch, if raised then Failed else Marked);
      Reach(policy, before, if raised then CompleteRaises(fault.complete == RaisesAfter) else Complete, View());
    }

    /** The `try` block for the first event of the batch. `counted` tells whether the
        completed counter was advanced; the trace callback comes after that. */
    method Attempt(e: Event, fault: Faults) returns (counted: bool, raised: bool)
      requires Reachable(policy, View()) && At(View(), AtHead) && sync.batch[0] == e
      modifies repository, index, this`clock, this`inflight, this`sync
      ensures Reachable(policy, View())
      ensures sync == Busy(old(sync.batch), if raised then Failed else Marked)
      ensures counted == Counts(fault) && raised == Retries(fault)
      ensures HeadSettled(old(repository.outbox), repository.outbox, e.id)
      ensures counted ==> repository.outbox[e.id].status == Completed
    {
      counted := false;
      var upsert: Option<MemoryItem>;
      HeadIsStored(e);
      ghost var item;
      upsert, raised, item := ReadAndDecide(e, fault);
      if raised { return; }
      Interfere();
      raised := WriteDecision(e, upsert, fault);
      if raised { return; }
      Interfere();
      raised := MarkCompleted(e, fault);
      if raised { return; }
      counted, raised := true, fault.traceRaises;
      if raised { Advance(Raises, Failed); }
    }

    /** The `except` block: back off and go on with the rest of the batch. */
    method RetryHead(e: Event)
      requires Reachable(policy, View()) && At(View(), Failed) && sync.batch[0] == e
      modifies repository`outbox, this`sync
      ensures Reachable(policy, View()) && sync == AfterHead(old(sync))
      ensures e.id in old(repository.outbox)
      ensures repository.outbox == old(repository.outbox)[e.id :=
        Reschedule(old(repository.outbox)[e.id], clock + Delay(retryBase, e.attempts))]
    {
      HeadIsStored(e);
      ghost var before := View();
      var at := clock + Delay(retryBase, e.attempts);
      var found := repository.RetryIndexEvent(e.id, at);
      sync := AfterHead(sync);
      Reach(policy, before, RetryLater(at), View());
    }

    /** Claims ready events; the batch is what the claiming statement returned. */
    method ClaimBatch(limit: int) returns (events: seq<Event>)
      requires Reachable(policy, View()) && sync == Idle
      modifies repository`outbox, this`sync
      ensures Reachable(policy, View()) && |events| <= Max(1, limit)
      ensures sync == if events == [] then Idle else Busy(events, AtHead)
      ensures forall i, j :: 0 <= i < j < |events| ==> events[i].id != events[j].id
      ensures forall i :: 0 <= i < |events| ==> events[i].id in repository.outbox
      ensures repository.outbox.Keys == old(repository.outbox).Keys
      ensures |events| < Max(1, limit) ==>
        forall k :: k in old(repository.outbox) && Ready(old(repository.outbox)[k], clock) ==> exists i :: 0 <= i < |events| && events[i].id == k
    {
      assert Keyed(repository.Db()) by { ReachableKeepsInv(policy, View()); }
      ghost var before := View();
      events := repository.ClaimIndexEvents(limit, clock);
      sync := if events == [] then Idle else Busy(events, AtHead);
      ClaimIsStep(before, events);
      Reach(policy, before, Claim(IdsOf(events)), View());
      if |events| < Max(1, limit) {
        AllReadyClaimed(before.db.outbox, events, clock);
      }
    }

    /** One turn of the loop. `died` means that the retry raised, which ends the drain and
        leaves the rest of the batch in processing. */
    method Turn(e: Event, fault: Faults) returns (counted: bool, retried: bool, died: bool)
      requires Reachable(policy, View()) && At(View(), AtHead) && sync.batch[0] == e
      modifies repository, index, this`clock, this`inflight, this`sync
      ensures Reachable(policy, View()) && sync == if died then Idle else AfterHead(old(sync))
      ensures counted == Counts(fault) && died == Dies(fault) && (!died ==> retried == Retries(fault))
      ensures e.id in repository.outbox && (counted && !retried && !died ==> repository.outbox[e.id].status == Completed)
      ensures forall j :: j in old(repository.outbox) && j != e.id ==> j in repository.outbox && repository.outbox[j] == old(repository.outbox)[j]
    {
      var raised;
      retried, died := false, false;
      counted, raised := Attempt(e, fault);
      if raised {
        Interfere();
        ghost var before := View();
        if fault.retry == RaisesBefore {
          sync := Idle;
          Reach(policy, before, Die, View());
          died := true;
          return;
        }
        RetryHead(e);
        retried := fault.retry == Returns;
        if fault.retry == RaisesAfter || fault.failureTraceRaises {
          before := View();
          sync := Idle;
          Reach(policy, before, Die, View());
          died := true;
        }
      } else {
        ghost var before := View();
        sync := AfterHead(sync);
        Reach(policy, before, Trace, View());
      }
    }

    /** One iteration: commands in between, then the turn of the next event. */
    method Iterate(events: seq<Event>, i: nat, fault: Faults) returns (counted: bool, retried: bool, died: bool)
      requires Reachable(policy, View()) && i < |events| && sync == Busy(events[i..], AtHead)
      requires forall j :: 0 <= j < |events| ==> events[j].id in repository.outbox
      modifies repository, index, this`clock, this`inflight, this`sync
      ensures Reachable(policy, View())
      ensures sync == if !died && i + 1 < |events| then Busy(events[i + 1..], AtHead) else Idle
      ensures counted == Counts(fault) && died == Dies(fault) && (!died ==> retried == Retries(fault))
      ensures forall j :: 0 <= j < |events| ==> events[j].id in repository.outbox
      ensures fault == NO_FAULTS && AllCompleted(old(repository.outbox), events, i) ==> AllCompleted(repository.outbox, events, i + 1)
    {
      Interfere();
      HeadOf(events, i);
      counted, retried, died := Turn(events[i], fault);
    }

    /** The loop over a claimed batch. */
    method Process(events: seq<Event>, faults: nat -> Faults) returns (completed: nat, retried: nat, died: bool)
      requires Reachable(policy, View()) && sync == if events == [] then Idle else Busy(events, AtHead)
      requires forall j :: 0 <= j < |events| ==> events[j].id in repository.outbox
      modifies repository, index, this`clock, this`inflight, this`sync
      ensures Reachable(policy, View()) && sync == Idle
      ensures died == AnyDies(faults, |events|)
      ensures !died ==> completed == CountOf(faults, Counts, |events|) && retried == CountOf(faults, Retries, |events|)
      ensures Faultless(faults, |events|) ==> AllCompleted(repository.outbox, events, |events|)
    {
      completed, retried, died := 0, 0, false;
      var i := 0;
      while i < |events|
        invariant 0 <= i <= |events|
        invariant Reachable(policy, View()) && sync == if i < |events| then Busy(events[i..], AtHead) else Idle
        invariant !AnyDies(faults, i)
        invariant completed == CountOf(faults, Counts, i) && retried == CountOf(faults, Retries, i)
        invariant forall j :: 0 <= j < |events| ==> events[j].id in repository.outbox
        invariant Faultless(faults, |events|) ==> AllCompleted(repository.outbox, events, i)
      {
        var counted, again, stop := Iterate(events, i, faults(i));
        if stop {
          died := true;
          return;
        }
        if counted { completed := completed + 1; }
        if again { retried := retried + 1; }
        i := i + 1;
      }
    }

    /** The counters of a drain that did not die: events whose write succeeded but whose trace
        raised are counted twice, as completed and as retried. */
    method Drain(limit: int, faults: nat -> Faults) returns (claimed: nat, completed: nat, retried: nat, died: bool)
      requires Reachable(policy, View()) && sync == Idle
      modifies repository, index, this`clock, this`inflight, this`sync
      ensures Reachable(policy, View()) && sync == Idle
      ensures Drained(repository.outbox) ==> IndexAgrees(View())
      ensures claimed <= Max(1, limit)
      ensures died == AnyDies(faults, claimed)
      ensures !died ==> completed == CountOf(faults, Counts, claimed) && retried == CountOf(faults, Retries, claimed)
      ensures !died ==> completed + retried == claimed + CountOf(faults, CountsTwice, claimed)
      ensures Faultless(faults, claimed) && claimed < Max(1, limit) ==>
        forall k :: k in old(repository.outbox) && Ready(old(repository.outbox)[k], old(clock)) ==>
          k in repository.outbox && repository.outbox[k].status == Completed
    {
      var events := ClaimBatch(limit);
      claimed := |events|;
      completed, retried, died := Process(events, faults);
      CountersOverlap(faults, claimed);
      if Drained(repository.outbox) { AgreesWhenDrained(policy, View()); }
    }
  }

  /** Some event's retry raised. */
  predicate AnyDies(faults: nat -> Faults, n: nat) {
    exists i :: 0 <= i < n && Dies(faults(i))
  }

  predicate Faultless(faults: nat -> Faults, n: nat) {
    forall i :: 0 <= i < n ==> faults(i) == NO_FAULTS
  }

  predicate AllCompleted(outbox: Outbox, events: seq<Event>, n: nat) {
    forall j :: 0 <= j < n && j < |events| ==> events[j].id in outbox && outbox[events[j].id].status == Completed
  }

  lemma HeadOf(events: seq<Event>, i: nat)
    requires i < |events|
    ensures events[i..] != [] && events[i..][0] == events[i]
    ensures events[i..][1..] == events[i + 1..] && (i + 1 == |events| <==> events[i..][1..] == [])
  {}

  lemma AgreesWhenDrained(policy: Policy, s: World)
    requires Reachable(policy, s) && Drained(s.db.outbox)
    ensures IndexAgrees(s)
  {
    var worlds, steps :| Run(policy, worlds, steps) && Init(worlds[0]) && worlds[|steps|] == s;
    OutboxConverges(policy, worlds, steps, |steps|);
  }
}
