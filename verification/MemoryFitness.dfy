/** Exactly which transactions the outbox can take: after any other one some run drains the
    outbox and leaves a retrievable item out of the index (memory/postgres_repository.py,
    memory/index_sync.py). */
module MemoryFitness {
  import opened Prelude
  import opened MemoryDomain
  import opened MemoryStore
  import opened MemorySystem
  import opened MemoryOutbox

  /** Some run with fit transactions only leads from one world to the other. */
  ghost predicate Reaches(s: World, s': World) {
    exists worlds: seq<World>, steps: seq<Step> :: FitPath(worlds, steps) && worlds[0] == s && worlds[|steps|] == s'
  }

  lemma ReachesItself(s: World)
    ensures Reaches(s, s)
  {
    var worlds, steps: seq<Step> := [s], [];
    assert FitPath(worlds, steps) && worlds[0] == s && worlds[|steps|] == s;
  }

  lemma {:induction false} ReachesOn(s: World, t: World, step: Step, t': World)
    requires Reaches(s, t) && RepositoryStep(t, step, t') && (step.Commit? ==> Fit(t.db, step.tx, t.clock))
    ensures Reaches(s, t')
  {
    var worlds: seq<World>, steps: seq<Step> :| FitPath(worlds, steps) && worlds[0] == s && worlds[|steps|] == t;
    PathOn(worlds, steps, step, t');
    assert (worlds + [t'])[0] == s && (worlds + [t'])[|steps + [step]|] == t';
  }

  lemma {:induction false} PathOn(worlds: seq<World>, steps: seq<Step>, step: Step, t': World)
    requires FitPath(worlds, steps) && RepositoryStep(worlds[|steps|], step, t')
    requires step.Commit? ==> Fit(worlds[|steps|].db, step.tx, worlds[|steps|].clock)
    ensures FitPath(worlds + [t'], steps + [step])
  {
    var worlds', steps' := worlds + [t'], steps + [step];
    forall i | 0 <= i < |steps'|
      ensures RepositoryStep(worlds'[i], steps'[i], worlds'[i + 1])
      ensures steps'[i].Commit? ==> Fit(worlds'[i].db, steps'[i].tx, worlds'[i].clock)
    {
      if i < |steps| { assert RepositoryStep(worlds[i], steps[i], worlds[i + 1]); }
    }
  }

  lemma ReachedHasCore(s: World, t: World)
    requires Core(s) && Reaches(s, t)
    ensures Core(t)
  {
    var worlds: seq<World>, steps: seq<Step> :| FitPath(worlds, steps) && worlds[0] == s && worlds[|steps|] == t;
    FitPathKeepsCore(worlds, steps, |steps|);
  }

  // ----- one event, start to end -----

  function Settle(s: World, k: nat): World
    requires k in s.db.outbox && s.db.outbox[k].memoryId in s.db.items
  {
    var e := s.db.outbox[k];
    World(s.db.(outbox := s.db.outbox[k := e.(status := Completed)]),
          IndexEffect(s.index, e.memoryId, Target(e, Some(s.db.items[e.memoryId]), s.clock)),
          s.clock, s.inflight, Idle)
  }

  ghost predicate Settleable(s: World, k: nat) {
    s.sync == Idle && Keyed(s.db) && k in s.db.outbox && Ready(s.db.outbox[k], s.clock) && s.db.outbox[k].memoryId in s.db.items
  }

  function Claimed(s: World, k: nat): World
    requires k in s.db.outbox
  {
    var e := s.db.outbox[k].(status := Processing);
    s.(db := s.db.(outbox := s.db.outbox[k := e]), sync := Busy([e], AtHead))
  }

  lemma {:induction false} ClaimStep(s: World, k: nat)
    requires Settleable(s, k)
    ensures SyncStep(s, Claim([k]), Claimed(s, k))
  {
    var ids, t := [k], Claimed(s, k);
    var outbox := SetStatus(s.db.outbox, (set j | j in ids), Processing);
    assert (set j | j in ids) == {k} by { assert ids[0] in ids; }
    assert outbox == t.db.outbox && ids != [];
    assert seq(|ids|, i requires 0 <= i < |ids| && ids[i] in outbox => outbox[ids[i]]) == t.sync.batch;
    assert forall i :: 0 <= i < |ids| ==> ids[i] in s.db.outbox && Ready(s.db.outbox[ids[i]], s.clock);
  }

  lemma {:induction false} WorkSteps(s: World, k: nat)
    requires Settleable(s, k)
    ensures Reaches(Claimed(s, k), Settle(s, k))
  {
    var c := Claimed(s, k);
    var e := c.sync.batch[0];
    var item := s.db.items[e.memoryId];
    var target := Target(e, Some(item), s.clock);
    var got := c.(sync := Busy([e], HasItem(Some(item))));
    var decided := c.(sync := Busy([e], Decided(target)));
    var wrote := c.(index := IndexEffect(c.index, e.memoryId, target), sync := Busy([e], Wrote));
    var marked := MarkDone(wrote).(sync := Busy([e], Marked));
    ReachesItself(c);
    ReachesOn(c, c, GetItem, got);
    ReachesOn(c, got, Decide, decided);
    ReachesOn(c, decided, WriteIndex, wrote);
    ReachesOn(c, wrote, Complete, marked);
    ReachesOn(c, marked, Trace, marked.(sync := Idle));
    assert marked.db.outbox == Settle(s, k).db.outbox;
  }

  lemma {:induction false} Join(a: World, b: World, c: World)
    requires Reaches(a, b) && Reaches(b, c)
    ensures Reaches(a, c)
  {
    var worlds: seq<World>, steps: seq<Step> :| FitPath(worlds, steps) && worlds[0] == b && worlds[|steps|] == c;
    for i := 0 to |steps|
      invariant Reaches(a, worlds[i])
    {
      assert RepositoryStep(worlds[i], steps[i], worlds[i + 1]);
      ReachesOn(a, worlds[i], steps[i], worlds[i + 1]);
    }
  }

  /** A ready event can be worked off without anything in between. */
  lemma {:induction false} SettleIsReached(s: World, t: World, k: nat)
    requires Reaches(s, t) && Settleable(t, k)
    ensures Reaches(s, Settle(t, k)) && Settle(t, k).sync == Idle && Keyed(Settle(t, k).db)
  {
    ClaimStep(t, k);
    ReachesOn(s, t, Claim([k]), Claimed(t, k));
    WorkSteps(t, k);
    Join(s, Claimed(t, k), Settle(t, k));
  }

  lemma {:induction false} TickIsReached(s: World, t: World, to: Time)
    requires Reaches(s, t) && to >= t.clock
    ensures Reaches(s, t.(clock := to))
  {
    ReachesOn(s, t, Tick(to), t.(clock := to));
  }

  // ----- what is lost -----

  /** The item is retrievable, nothing is left to do, and the index does not have it. */
  ghost predicate Lost(t: World, id: Id) {
    && Drained(t.db.outbox) && id in t.db.items && t.db.items[id].Retrievable(t.clock)
    && (id, t.db.items[id].version) !in t.index
  }

  ghost predicate CanLose(s: World, id: Id) {
    exists t :: Reaches(s, t) && Lost(t, id)
  }

  /** A world at rest: no work outstanding, and all items well formed. */
  ghost predicate AtRest(s: World) {
    && Core(s) && Drained(s.db.outbox) && s.sync == Idle
    && forall id :: id in s.db.items ==> s.db.items[id].WellFormed()
  }

  function After(s: World, tx: Tx, eventId: nat, eventId': nat): World
    requires Apply(s.db, tx, eventId, eventId', s.clock).Ok?
  {
    s.(db := Apply(s.db, tx, eventId, eventId', s.clock).value)
  }

  /** All rows but the given ones are completed. */
  predicate DrainedBut(outbox: Outbox, open: set<nat>) {
    forall k :: k in outbox && k !in open ==> outbox[k].status == Completed
  }

  /** An active item that is not valid yet, with one open event: worked off at once, the event
      leaves the item out of the index for good. */
  lemma {:induction false} TooEarlyIsLost(s: World, t: World, k: nat, id: Id)
    requires Reaches(s, t) && Settleable(t, k) && DrainedBut(t.db.outbox, {k})
    requires t.db.outbox[k].memoryId == id && id in t.db.items && t.db.items[id].id == id
    requires t.db.items[id].status == Active && t.db.items[id].WellFormed() && t.db.items[id].validFrom > t.clock
    ensures CanLose(s, id)
  {
    SettleIsReached(s, t, k);
    var u := Settle(t, k);
    TickIsReached(s, u, t.db.items[id].validFrom);
    assert Lost(u.(clock := t.db.items[id].validFrom), id);
  }

  lemma {:induction false} FutureDatedItemIsLost(s: World, item: MemoryItem, rows: seq<Evidence>, eventId: nat, eventId': nat)
    requires AtRest(s) && item.WellFormed() && item.status == Active && item.validFrom > s.clock
    requires Apply(s.db, Tx.Create(item, rows), eventId, eventId', s.clock).Ok?
    ensures CanLose(After(s, Tx.Create(item, rows), eventId, eventId'), item.id)
  {
    var t := After(s, Tx.Create(item, rows), eventId, eventId');
    NeverSwallowed(s.db, item, Upsert, s.clock);
    ScheduleAdds(s.db.outbox, eventId, item, Upsert, s.clock);
    ReachesItself(t);
    TooEarlyIsLost(t, t, eventId, item.id);
  }

  lemma {:induction false} ConfirmedTooEarlyIsLost(s: World, id: Id, expected: nat, console: Option<ConsoleGuard>, eventId: nat, eventId': nat)
    requires AtRest(s) && id in s.db.items && s.db.items[id].validFrom > s.clock
    requires Apply(s.db, Transition(id, Active, expected, console), eventId, eventId', s.clock).Ok?
    ensures CanLose(After(s, Transition(id, Active, expected, console), eventId, eventId'), id)
  {
    var t := After(s, Transition(id, Active, expected, console), eventId, eventId');
    NeverSwallowed(s.db, t.db.items[id], Upsert, s.clock);
    ScheduleAdds(s.db.outbox, eventId, t.db.items[id], Upsert, s.clock);
    ReachesItself(t);
    TooEarlyIsLost(t, t, eventId, id);
  }

  function DeleteRow(s: World, eventId: nat, id: Id, version: nat): Event {
    Event(eventId, id, version, Delete, Pending, 0, s.clock, s.clock)
  }

  function UpsertRow(s: World, eventId: nat, item: MemoryItem): Event {
    Event(eventId, item.id, item.version, Upsert, Pending, 0, s.clock, s.clock)
  }

  lemma {:induction false} SupersedeRows(s: World, oldId: Id, item: MemoryItem, rows: seq<Evidence>, expected: nat, eventId: nat, eventId': nat)
    requires AtRest(s) && Apply(s.db, Supersede(oldId, item, rows, expected), eventId, eventId', s.clock).Ok?
    ensures var db := After(s, Supersede(oldId, item, rows, expected), eventId, eventId').db;
      && oldId in s.db.items && item.id !in s.db.items && eventId !in s.db.outbox && eventId' !in s.db.outbox && eventId != eventId'
      && db.items.Keys == s.db.items.Keys + {item.id} && db.items[item.id] == item
      && (forall id :: id in s.db.items ==> db.items[id].id == id)
      && db.outbox == s.db.outbox[eventId := DeleteRow(s, eventId, oldId, expected + 1)][eventId' := UpsertRow(s, eventId', item)]
  {
    var superseded := Transitioned(s.db.items[oldId], Superseded, s.clock).value;
    NeverSwallowed(s.db, superseded, Delete, s.clock);
    ScheduleAdds(s.db.outbox, eventId, superseded, Delete, s.clock);
    var middle := s.db.outbox[eventId := DeleteRow(s, eventId, oldId, expected + 1)];
    assert !HasKey(middle, item.id, item.version, Upsert);
    ScheduleAdds(middle, eventId', item, Upsert, s.clock);
  }

  /** What a replacement leaves: the old item's delete and the new item's upsert, both open. */
  lemma {:induction false} SupersedeOpensTwo(s: World, oldId: Id, item: MemoryItem, rows: seq<Evidence>, expected: nat, eventId: nat, eventId': nat)
    requires AtRest(s) && Apply(s.db, Supersede(oldId, item, rows, expected), eventId, eventId', s.clock).Ok?
    ensures var t := After(s, Supersede(oldId, item, rows, expected), eventId, eventId');
      && t.db.items.Keys == s.db.items.Keys + {item.id} && t.db.items[item.id] == item && item.id !in s.db.items && oldId in s.db.items
      && Keyed(t.db) && eventId != eventId' && DrainedBut(t.db.outbox, {eventId, eventId'})
      && eventId in t.db.outbox && t.db.outbox[eventId] == DeleteRow(s, eventId, oldId, expected + 1)
      && eventId' in t.db.outbox && t.db.outbox[eventId'] == UpsertRow(s, eventId', item)
      && forall k :: k in t.db.outbox && k != eventId' ==> t.db.outbox[k].memoryId != item.id
  {
    SupersedeRows(s, oldId, item, rows, expected, eventId, eventId');
  }

  lemma {:induction false} FutureDatedReplacementIsLost(s: World, oldId: Id, item: MemoryItem, rows: seq<Evidence>, expected: nat,
                                                        eventId: nat, eventId': nat)
    requires AtRest(s) && item.WellFormed() && item.status == Active && item.validFrom > s.clock
    requires Apply(s.db, Supersede(oldId, item, rows, expected), eventId, eventId', s.clock).Ok?
    ensures CanLose(After(s, Supersede(oldId, item, rows, expected), eventId, eventId'), item.id)
  {
    var t := After(s, Supersede(oldId, item, rows, expected), eventId, eventId');
    SupersedeOpensTwo(s, oldId, item, rows, expected, eventId, eventId');
    ReachesItself(t);
    SettleIsReached(t, t, eventId);
    TooEarlyIsLost(t, Settle(t, eventId), eventId', item.id);
  }

  lemma {:induction false} FreshId(outbox: Outbox) returns (k: nat)
    ensures k !in outbox
  {
    k := 0;
    var keys := outbox.Keys;
    while keys != {}
      invariant forall j :: j in outbox && j !in keys ==> j < k
      decreases keys
    {
      var j :| j in keys;
      k := Max(k, j + 1);
      keys := keys - {j};
    }
  }

  lemma {:induction false} ConfirmOpensOne(t: World, id: Id, k: nat)
    requires Keyed(t.db) && id in t.db.items && t.db.items[id].status == Candidate && k !in t.db.outbox
    requires forall j :: j in t.db.outbox && t.db.outbox[j].memoryId == id ==> t.db.outbox[j].version <= t.db.items[id].version
    ensures var tx := Transition(id, Active, t.db.items[id].version, None);
      var r := Apply(t.db, tx, k, 0, t.clock);
      && r.Ok? && r.value.items == t.db.items[id := Transitioned(t.db.items[id], Active, t.clock).value] && Keyed(r.value)
      && r.value.outbox == t.db.outbox[k := Event(k, id, t.db.items[id].version + 1, Upsert, Pending, 0, t.clock, t.clock)]
  {
    var item := Transitioned(t.db.items[id], Active, t.clock).value;
    assert !HasKey(t.db.outbox, id, item.version, Upsert);
    ScheduleAdds(t.db.outbox, k, item, Upsert, t.clock);
  }

  /** A candidate that replaced an item and was confirmed: its two upserts may be worked off in
      any order, and the older one, coming last, drops the point the newer one wrote. */
  lemma {:induction false} ReplacingCandidateIsLost(s: World, oldId: Id, item: MemoryItem, rows: seq<Evidence>, expected: nat,
                                                    eventId: nat, eventId': nat)
    requires AtRest(s) && item.WellFormed() && item.status == Candidate && !Ended(item, s.clock)
    requires Apply(s.db, Supersede(oldId, item, rows, expected), eventId, eventId', s.clock).Ok?
    ensures CanLose(After(s, Supersede(oldId, item, rows, expected), eventId, eventId'), item.id)
  {
    var t := After(s, Supersede(oldId, item, rows, expected), eventId, eventId');
    SupersedeOpensTwo(s, oldId, item, rows, expected, eventId, eventId');
    ReachesItself(t);
    var now := Max(s.clock, item.validFrom);
    TickIsReached(t, t, now);
    var waited := t.(clock := now);
    var k := FreshId(t.db.outbox);
    ConfirmOpensOne(waited, item.id, k);
    var tx := Transition(item.id, Active, item.version, None);
    var confirmed := After(waited, tx, k, 0);
    ReachesOn(t, waited, Commit(tx, k, 0), confirmed);
    StaleUpsertComesLast(t, confirmed, item.id, eventId, k, eventId');
  }

  lemma StartIsAtRest(s: World)
    requires Init(s)
    ensures AtRest(s)
  {}

  lemma {:induction false} FirstItem(s: World, first: MemoryItem) returns (t: World)
    requires Init(s) && first.WellFormed() && first.status == Active && first.supersedes.None? && first.validFrom <= s.clock
    ensures Reaches(s, t) && AtRest(t) && t.clock == s.clock && t.db.items == map[first.id := first] && t.db.outbox.Keys == {0}
  {
    var tx := Tx.Create(first, []);
    NeverSwallowed(s.db, first, Upsert, s.clock);
    ScheduleAdds(s.db.outbox, 0, first, Upsert, s.clock);
    var stored := After(s, tx, 0, 0);
    ReachesItself(s);
    ReachesOn(s, s, Commit(tx, 0, 0), stored);
    assert stored.db.outbox == map[0 := UpsertRow(s, 0, first)];
    SettleIsReached(s, stored, 0);
    t := Settle(stored, 0);
    StartIsAtRest(s);
    ReachedHasCore(s, t);
  }

  /** From the empty store: an item is stored and indexed, a candidate replaces it, and it can be
      lost. */
  lemma {:induction false} ReplacementIsLostFromTheStart(s: World, first: MemoryItem, item: MemoryItem) returns (t: World)
    requires Init(s) && first.WellFormed() && first.status == Active && first.supersedes.None? && first.validFrom <= s.clock
    requires item.WellFormed() && item.status == Candidate && !Ended(item, s.clock)
    requires item.id != first.id && item.supersedes == Some(first.id) && item.owner == first.owner
    ensures Reaches(s, t) && Apply(t.db, Supersede(first.id, item, [], first.version), 1, 2, t.clock).Ok?
    ensures CanLose(After(t, Supersede(first.id, item, [], first.version), 1, 2), item.id)
  {
    t := FirstItem(s, first);
    ReplacesFirst(t, first, item);
    ReplacingCandidateIsLost(t, first.id, item, [], first.version, 1, 2);
  }

  lemma ReplacesFirst(t: World, first: MemoryItem, item: MemoryItem)
    requires t.db.items == map[first.id := first] && t.db.outbox.Keys == {0} && first.status == Active
    requires item.id != first.id && item.supersedes == Some(first.id) && item.owner == first.owner
    ensures Apply(t.db, Supersede(first.id, item, [], first.version), 1, 2, t.clock).Ok?
  {}

  lemma {:induction false} StaleUpsertComesLast(s: World, t: World, id: Id, other: nat, newer: nat, older: nat)
    requires Reaches(s, t) && t.sync == Idle && Keyed(t.db) && other != newer && newer != older && other != older
    requires Settleable(t, other) && Settleable(t, newer) && Settleable(t, older) && DrainedBut(t.db.outbox, {other, newer, older})
    requires id in t.db.items && t.db.items[id].Retrievable(t.clock)
    requires t.db.outbox[older].memoryId == id && t.db.outbox[older].version < t.db.items[id].version
    ensures CanLose(s, id)
  {
    SettleIsReached(s, t, other);
    var t1 := Settle(t, other);
    SettleIsReached(s, t1, newer);
    var t2 := Settle(t1, newer);
    SettleIsReached(s, t2, older);
    assert Lost(Settle(t2, older), id);
  }

  // ----- the exact condition -----

  /** Whatever fit transactions follow, a drained outbox means an agreeing index. */
  ghost predicate Converging(s: World) {
    forall t :: Reaches(s, t) && Drained(t.db.outbox) ==> IndexAgrees(t)
  }

  lemma LosingIsNotConverging(s: World, id: Id)
    requires CanLose(s, id)
    ensures !Converging(s)
  {
    var t :| Reaches(s, t) && Lost(t, id);
    assert !IndexAgrees(t);
  }

  lemma {:induction false} FitConverges(s: World, tx: Tx, eventId: nat, eventId': nat)
    requires Core(s) && Fit(s.db, tx, s.clock) && Apply(s.db, tx, eventId, eventId', s.clock).Ok?
    ensures Converging(After(s, tx, eventId, eventId'))
  {
    var s' := After(s, tx, eventId, eventId');
    CommitKeepsCore(s, tx, eventId, eventId', s');
    forall t | Reaches(s', t) && Drained(t.db.outbox) ensures IndexAgrees(t) {
      ReachedHasCore(s', t);
      DrainedCoreAgrees(t);
    }
  }

  /** From any world at rest, a transaction of well-formed items leaves a converging repository
      if and only if it is fit. */
  lemma {:induction false} ConvergesIffFit(s: World, tx: Tx, eventId: nat, eventId': nat)
    requires AtRest(s) && Apply(s.db, tx, eventId, eventId', s.clock).Ok?
    requires tx.Create? || tx.Supersede? ==> tx.item.WellFormed()
    ensures Converging(After(s, tx, eventId, eventId')) <==> Fit(s.db, tx, s.clock)
  {
    var s' := After(s, tx, eventId, eventId');
    if Fit(s.db, tx, s.clock) {
      FitConverges(s, tx, eventId, eventId');
    } else {
      match tx
      case Create(item, rows) =>
        FutureDatedItemIsLost(s, item, rows, eventId, eventId');
        LosingIsNotConverging(s', item.id);
      case Transition(id, target, expected, console) =>
        ConfirmedTooEarlyIsLost(s, id, expected, console, eventId, eventId');
        LosingIsNotConverging(s', id);
      case Supersede(oldId, item, rows, expected) =>
        if item.status == Active {
          FutureDatedReplacementIsLost(s, oldId, item, rows, expected, eventId, eventId');
        } else {
          ReplacingCandidateIsLost(s, oldId, item, rows, expected, eventId, eventId');
        }
        LosingIsNotConverging(s', item.id);
    }
  }
}
