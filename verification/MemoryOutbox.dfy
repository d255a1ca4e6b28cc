/** The transactional outbox for any user of the repository: which transactions it can take,
    and that with those alone a drained outbox means an agreeing index
    (memory/postgres_repository.py, memory/index_sync.py). */
module MemoryOutbox {
  import opened Prelude
  import opened MemoryDomain
  import opened MemoryStore
  import opened MemorySystem

  predicate Ended(item: MemoryItem, clock: Time) {
    item.validUntil.Some? && item.validUntil.value <= clock
  }

  /** What a transaction must not do for the index to converge: put an active item, or make one
      active, before it is valid, or replace an item by a candidate whose time is not over. */
  predicate Fit(db: Database, tx: Tx, clock: Time) {
    match tx
    case Create(item, _) => item.status == Active ==> item.validFrom <= clock
    case Transition(id, target, _, _) => target == Active && id in db.items ==> db.items[id].validFrom <= clock
    case Supersede(_, item, _, _) =>
      (item.status == Active ==> item.validFrom <= clock) && (item.status == Candidate ==> Ended(item, clock))
    case AddEvidence(_, _, _) => true
  }

  // ----- the truth store -----

  /** What may happen to one row in one commit. */
  ghost predicate Evolves(a: MemoryItem, b: MemoryItem) {
    && b.id == a.id && b.owner == a.owner && b.kind == a.kind
    && b.content == a.content && b.normalized == a.normalized
    && b.validFrom == a.validFrom && b.validUntil == a.validUntil && b.supersedes == a.supersedes
    && if b.version == a.version then b.status == a.status
       else b.version == a.version + 1 && b.status in AllowedTargets(a.status)
  }

  /** Which events an item can have: upserts of no later version, only of the present one while
      it is active and its time is not over, none while it is a candidate; deletes once it ended. */
  ghost predicate RowShape(item: MemoryItem, e: Event, clock: Time) {
    && e.version <= item.version
    && match e.op
       case Upsert =>
         Terminal(item.status) || Ended(item, clock) || (item.status == Active && e.version == item.version)
       case Delete => Terminal(item.status)
  }

  ghost predicate StoreInv(db: Database, clock: Time) {
    && Keyed(db)
    && (forall id :: id in db.items && db.items[id].status == Active ==> db.items[id].validFrom <= clock)
    && (forall k :: k in db.outbox ==>
          db.outbox[k].memoryId in db.items && RowShape(db.items[db.outbox[k].memoryId], db.outbox[k], clock))
  }

  /** The event that tells the index about an item that became what it is. */
  predicate OpOf(item: MemoryItem, op: IndexOp) {
    op == (if item.status == Active then Upsert else Delete)
  }

  predicate Announces(item: MemoryItem, wasThere: bool, e: Event) {
    && e.memoryId == item.id && e.version == item.version && e.status == Pending
    && (wasThere || item.status == Active ==> OpOf(item, e.op))
  }

  ghost predicate NewRow(before: Database, after: Database, id: Id) {
    id in after.items
    && exists k :: k in after.outbox && k !in before.outbox && Announces(after.items[id], id in before.items, after.outbox[k])
  }

  /** Rows are never lost, and every changed item and every new active one gets a fresh pending
      event in the same commit. */
  ghost predicate Committed(before: Database, after: Database) {
    && (forall id :: id in before.items ==> id in after.items && Evolves(before.items[id], after.items[id]))
    && (forall k :: k in before.outbox ==> k in after.outbox && after.outbox[k] == before.outbox[k])
    && (forall id :: id in after.items ==>
          || (id in before.items && after.items[id].version == before.items[id].version)
          || (id !in before.items && after.items[id].status != Active)
          || NewRow(before, after, id))
  }

  /** The unique key never swallows an event: no row exists yet for a new version. */
  lemma NeverSwallowed(db: Database, item: MemoryItem, op: IndexOp, clock: Time)
    requires StoreInv(db, clock)
    requires item.id in db.items ==> item.version == db.items[item.id].version + 1
    ensures !HasKey(db.outbox, item.id, item.version, op)
  {}

  lemma ScheduleAdds(outbox: Outbox, eventId: nat, item: MemoryItem, op: IndexOp, now: Time)
    requires !HasKey(outbox, item.id, item.version, op)
    ensures var r := Schedule(outbox, eventId, item, op, now);
      r.Ok? ==> eventId !in outbox && r.value == outbox[eventId := Event(eventId, item.id, item.version, op, Pending, 0, now, now)]
  {}

  /** One item written together with its event, or a new item that is not active without one. */
  ghost predicate Put(before: Database, item: MemoryItem, e: Option<Event>, after: Database, clock: Time) {
    && after.items == before.items[item.id := item]
    && (item.status == Active ==> item.validFrom <= clock)
    && (item.id in before.items ==> Evolves(before.items[item.id], item) && item.version == before.items[item.id].version + 1)
    && match e
       case None => after.outbox == before.outbox && item.id !in before.items && item.status != Active
       case Some(row) =>
         && row.id !in before.outbox && after.outbox == before.outbox[row.id := row]
         && Announces(item, item.id in before.items, row) && RowShape(item, row, clock)
  }

  lemma PutCommits(before: Database, item: MemoryItem, e: Option<Event>, after: Database, clock: Time)
    requires Put(before, item, e, after, clock) && Keyed(before)
    ensures Committed(before, after)
  {
    if e.Some? { assert Announces(after.items[item.id], item.id in before.items, after.outbox[e.value.id]); }
  }

  lemma PutKeepsStore(before: Database, item: MemoryItem, e: Option<Event>, after: Database, clock: Time)
    requires StoreInv(before, clock) && Put(before, item, e, after, clock)
    ensures StoreInv(after, clock)
  {
    forall k | k in after.outbox
      ensures after.outbox[k].memoryId in after.items && RowShape(after.items[after.outbox[k].memoryId], after.outbox[k], clock)
    {
      if k in before.outbox { assert RowShape(before.items[before.outbox[k].memoryId], before.outbox[k], clock); }
    }
  }

  lemma PutElsewhere(before: Database, item: MemoryItem, e: Option<Event>, after: Database, clock: Time)
    requires Put(before, item, e, after, clock)
    ensures item.id in after.items && forall id :: id in after.items && id != item.id ==> id in before.items && after.items[id] == before.items[id]
  {}

  /** A transaction is one write with its event, or two in the case of a replacement, or new
      evidence that changes nothing but a timestamp. */
  lemma CreateIsPut(db: Database, item: MemoryItem, rows: seq<Evidence>, eventId: nat, now: Time) returns (e: Option<Event>)
    requires StoreInv(db, now) && Fit(db, Create(item, rows), now)
    ensures var r := ApplyCreate(db, item, rows, eventId, now); r.Ok? ==> Put(db, item, e, r.value, now)
  {
    e := None;
    if item.status == Active && item.id !in db.items {
      NeverSwallowed(db, item, Upsert, now);
      ScheduleAdds(db.outbox, eventId, item, Upsert, now);
      e := Some(Event(eventId, item.id, item.version, Upsert, Pending, 0, now, now));
    }
  }

  lemma TransitionIsPut(db: Database, id: Id, target: Status, expected: nat, console: Option<ConsoleGuard>, eventId: nat, now: Time)
    returns (e: Option<Event>)
    requires StoreInv(db, now) && Fit(db, Transition(id, target, expected, console), now)
    ensures var r := ApplyTransition(db, id, target, expected, console, eventId, now);
      r.Ok? ==> Put(db, r.value.items[id], e, r.value, now)
  {
    e := None;
    var r := ApplyTransition(db, id, target, expected, console, eventId, now);
    if r.Ok? {
      var updated := Transitioned(db.items[id], target, now).value;
      var op := if target == Active then Upsert else Delete;
      NeverSwallowed(db, updated, op, now);
      ScheduleAdds(db.outbox, eventId, updated, op, now);
      e := Some(Event(eventId, id, updated.version, op, Pending, 0, now, now));
    }
  }

  lemma SupersedeIsTwoPuts(db: Database, oldId: Id, item: MemoryItem, rows: seq<Evidence>, expected: nat,
                           eventId: nat, eventId': nat, now: Time)
    returns (middle: Database, e: Option<Event>, e': Option<Event>)
    requires StoreInv(db, now) && Fit(db, Supersede(oldId, item, rows, expected), now)
    ensures var r := ApplySupersede(db, oldId, item, rows, expected, eventId, eventId', now);
      r.Ok? ==>
        && Put(db, r.value.items[oldId], e, middle, now)
        && StoreInv(middle, now) && Put(middle, item, e', r.value, now) && item.id !in middle.items
  {
    middle, e, e' := db, None, None;
    var r := ApplySupersede(db, oldId, item, rows, expected, eventId, eventId', now);
    if r.Ok? {
      var superseded := Transitioned(db.items[oldId], Superseded, now).value;
      NeverSwallowed(db, superseded, Delete, now);
      ScheduleAdds(db.outbox, eventId, superseded, Delete, now);
      e := Some(Event(eventId, oldId, superseded.version, Delete, Pending, 0, now, now));
      middle := Database(db.items[oldId := superseded], db.evidence, db.outbox[eventId := e.value]);
      PutKeepsStore(db, superseded, e, middle, now);
      NeverSwallowed(middle, item, Upsert, now);
      ScheduleAdds(middle.outbox, eventId', item, Upsert, now);
      e' := Some(Event(eventId', item.id, item.version, Upsert, Pending, 0, now, now));
    }
  }

  lemma CommittedTwice(a: Database, b: Database, c: Database, changed: Id)
    requires Committed(a, b) && Committed(b, c)
    requires forall id :: id in b.items && id != changed ==> id in a.items && b.items[id] == a.items[id]
    requires changed in a.items && (changed in b.items && changed in c.items ==> c.items[changed] == b.items[changed])
    ensures Committed(a, c)
  {
    forall id | id in c.items
      ensures
        || (id in a.items && c.items[id].version == a.items[id].version)
        || (id !in a.items && c.items[id].status != Active)
        || NewRow(a, c, id)
    {
      if NewRow(b, c, id) {
        var k :| k in c.outbox && k !in b.outbox && Announces(c.items[id], id in b.items, c.outbox[k]);
        assert k !in a.outbox && Announces(c.items[id], id in a.items, c.outbox[k]);
      } else if NewRow(a, b, id) {
        var k :| k in b.outbox && k !in a.outbox && Announces(b.items[id], id in a.items, b.outbox[k]);
        assert k in c.outbox && Announces(c.items[id], id in a.items, c.outbox[k]);
      }
    }
  }

  lemma TwoPutsCommit(before: Database, first: MemoryItem, e: Option<Event>, middle: Database,
                      second: MemoryItem, e': Option<Event>, after: Database, clock: Time)
    requires StoreInv(before, clock) && Put(before, first, e, middle, clock) && StoreInv(middle, clock)
    requires Put(middle, second, e', after, clock) && second.id !in middle.items
    requires first.id in before.items
    ensures StoreInv(after, clock) && Committed(before, after)
  {
    PutKeepsStore(middle, second, e', after, clock);
    assert Committed(before, middle) by { PutCommits(before, first, e, middle, clock); }
    assert Committed(middle, after) by { PutCommits(middle, second, e', after, clock); }
    PutElsewhere(before, first, e, middle, clock);
    PutElsewhere(middle, second, e', after, clock);
    CommittedTwice(before, middle, after, first.id);
  }

  lemma CreateCommits(db: Database, item: MemoryItem, rows: seq<Evidence>, eventId: nat, now: Time)
    requires StoreInv(db, now) && Fit(db, Create(item, rows), now)
    ensures var r := ApplyCreate(db, item, rows, eventId, now); r.Ok? ==> StoreInv(r.value, now) && Committed(db, r.value)
  {
    var r := ApplyCreate(db, item, rows, eventId, now);
    if r.Ok? {
      var e := CreateIsPut(db, item, rows, eventId, now);
      PutKeepsStore(db, item, e, r.value, now);
      PutCommits(db, item, e, r.value, now);
    }
  }

  lemma TransitionCommits(db: Database, id: Id, target: Status, expected: nat, console: Option<ConsoleGuard>, eventId: nat, now: Time)
    requires StoreInv(db, now) && Fit(db, Transition(id, target, expected, console), now)
    ensures var r := ApplyTransition(db, id, target, expected, console, eventId, now);
      r.Ok? ==> StoreInv(r.value, now) && Committed(db, r.value)
  {
    var r := ApplyTransition(db, id, target, expected, console, eventId, now);
    if r.Ok? {
      var e := TransitionIsPut(db, id, target, expected, console, eventId, now);
      PutKeepsStore(db, r.value.items[id], e, r.value, now);
      PutCommits(db, r.value.items[id], e, r.value, now);
    }
  }

  lemma SupersedeCommits(db: Database, oldId: Id, item: MemoryItem, rows: seq<Evidence>, expected: nat,
                         eventId: nat, eventId': nat, now: Time)
    requires StoreInv(db, now) && Fit(db, Supersede(oldId, item, rows, expected), now)
    ensures var r := ApplySupersede(db, oldId, item, rows, expected, eventId, eventId', now);
      r.Ok? ==> StoreInv(r.value, now) && Committed(db, r.value)
  {
    var r := ApplySupersede(db, oldId, item, rows, expected, eventId, eventId', now);
    if r.Ok? {
      var middle, e, e' := SupersedeIsTwoPuts(db, oldId, item, rows, expected, eventId, eventId', now);
      TwoPutsCommit(db, r.value.items[oldId], e, middle, item, e', r.value, now);
    }
  }

  lemma EvidenceCommits(db: Database, id: Id, rows: seq<Evidence>, expected: Option<nat>, now: Time)
    requires StoreInv(db, now)
    ensures var r := ApplyAddEvidence(db, id, rows, expected, now); r.Ok? ==> StoreInv(r.value, now) && Committed(db, r.value)
  {}

  /** Every fit transaction keeps the store in order and carries a fresh event for every change
      of state. */
  lemma ApplyKeepsStore(db: Database, tx: Tx, eventId: nat, eventId': nat, now: Time)
    requires StoreInv(db, now) && Fit(db, tx, now)
    ensures var r := Apply(db, tx, eventId, eventId', now); r.Ok? ==> StoreInv(r.value, now) && Committed(db, r.value)
  {
    match tx
    case Create(item, rows) => CreateCommits(db, item, rows, eventId, now);
    case Transition(id, target, expected, console) => TransitionCommits(db, id, target, expected, console, eventId, now);
    case Supersede(oldId, item, rows, expected) => SupersedeCommits(db, oldId, item, rows, expected, eventId, eventId', now);
    case AddEvidence(id, rows, expected) => EvidenceCommits(db, id, rows, expected, now);
  }

  // ----- index and synchronizer -----

  /** Some event about `id`, other than `except`, has still to be completed. */
  ghost predicate OpenRow(outbox: Outbox, id: Id, except: int) {
    exists k :: k in outbox && k != except && outbox[k].memoryId == id && outbox[k].status != Completed
  }

  ghost predicate IndexInv(s: World) {
    && (forall id :: id in s.db.items && s.db.items[id].status == Active && !Ended(s.db.items[id], s.clock) ==>
          OpenRow(s.db.outbox, id, -1) || (id, s.db.items[id].version) in s.index)
    && (forall p :: p in s.index ==>
          && p.0 in s.db.items && s.db.items[p.0].status != Candidate
          && if s.db.items[p.0].status == Active then p.1 == s.db.items[p.0].version else OpenRow(s.db.outbox, p.0, -1))
  }

  ghost predicate BatchInv(s: World) {
    s.sync.Busy? ==> forall i :: 0 <= i < |s.sync.batch| ==>
      var e := s.sync.batch[i];
      e.id in s.db.outbox && SameKey(s.db.outbox[e.id], e.memoryId, e.version, e.op)
  }

  /** What the synchronizer may still rely on while commits fall between its sub-steps. */
  ghost predicate HeadInv(s: World)
    requires s.sync.Busy? && s.sync.batch != [] && s.sync.batch[0].memoryId in s.db.items
  {
    var e := s.sync.batch[0];
    var current := s.db.items[e.memoryId];
    match s.sync.phase
    case HasItem(item) =>
      && item.Some? && item.value.id == e.memoryId
      && (current.status == Active && !Ended(current, s.clock) ==> item.value.status == Active)
      && (item.value.status == Active ==>
            && item.value.validFrom <= s.clock && current.status != Candidate
            && if current.status == Active then item.value.version == current.version && item.value.validUntil == current.validUntil
               else OpenRow(s.db.outbox, e.memoryId, e.id))
    case Decided(target) =>
      if target.Some? then
        && target.value.0 == e.memoryId && current.status != Candidate
        && if current.status == Active then target.value.1 == current.version else OpenRow(s.db.outbox, e.memoryId, e.id)
      else current.status == Active ==> Ended(current, s.clock)
    case Wrote =>
      && (current.status == Active && !Ended(current, s.clock) ==> (e.memoryId, current.version) in s.index)
      && (forall p :: p in s.index && p.0 == e.memoryId && current.status != Active ==> OpenRow(s.db.outbox, e.memoryId, e.id))
    case _ => true
  }

  ghost predicate Core(s: World) {
    && StoreInv(s.db, s.clock) && IndexInv(s) && BatchInv(s)
    && (s.sync.Busy? && s.sync.batch != [] ==> HeadInv(s))
  }

  lemma OpenRowsPersist(before: Database, after: Database)
    requires Committed(before, after) && Keyed(after)
    ensures forall id, except :: OpenRow(before.outbox, id, except) ==> OpenRow(after.outbox, id, except)
    ensures forall id, except :: NewRow(before, after, id) && except in before.outbox ==> OpenRow(after.outbox, id, except)
    ensures forall id :: NewRow(before, after, id) ==> OpenRow(after.outbox, id, -1)
  {
    forall id, except | OpenRow(before.outbox, id, except) ensures OpenRow(after.outbox, id, except) {
      var k :| k in before.outbox && k != except && before.outbox[k].memoryId == id && before.outbox[k].status != Completed;
      assert k in after.outbox;
    }
  }

  lemma CommitKeepsIndex(s: World, s': World)
    requires StoreInv(s.db, s.clock) && IndexInv(s) && BatchInv(s) && Committed(s.db, s'.db) && Keyed(s'.db)
    requires s'.index == s.index && s'.clock == s.clock && s'.sync == s.sync
    ensures IndexInv(s') && BatchInv(s')
  {
    OpenRowsPersist(s.db, s'.db);
    forall id | id in s'.db.items && s'.db.items[id].status == Active && !Ended(s'.db.items[id], s'.clock)
      ensures OpenRow(s'.db.outbox, id, -1) || (id, s'.db.items[id].version) in s'.index
    {
      if !NewRow(s.db, s'.db, id) {
        assert Evolves(s.db.items[id], s'.db.items[id]);
      }
    }
    forall p | p in s'.index
      ensures p.0 in s'.db.items && s'.db.items[p.0].status != Candidate
      ensures if s'.db.items[p.0].status == Active then p.1 == s'.db.items[p.0].version else OpenRow(s'.db.outbox, p.0, -1)
    {
      assert Evolves(s.db.items[p.0], s'.db.items[p.0]);
      if s.db.items[p.0].status == Active && s'.db.items[p.0].status != Active { assert NewRow(s.db, s'.db, p.0); }
    }
  }

  lemma CommitKeepsHead(s: World, s': World)
    requires StoreInv(s.db, s.clock) && BatchInv(s) && Committed(s.db, s'.db) && StoreInv(s'.db, s'.clock)
    requires s'.index == s.index && s'.clock == s.clock && s'.sync == s.sync
    requires s.sync.Busy? && s.sync.batch != [] && HeadInv(s)
    ensures HeadInv(s')
  {
    OpenRowsPersist(s.db, s'.db);
    var e := s.sync.batch[0];
    assert RowShape(s.db.items[e.memoryId], s.db.outbox[e.id], s.clock);
    assert Evolves(s.db.items[e.memoryId], s'.db.items[e.memoryId]);
    if s'.db.items[e.memoryId].version != s.db.items[e.memoryId].version { assert NewRow(s.db, s'.db, e.memoryId); }
  }

  /** Rows keep their identity and only the status of some of them changes. */
  ghost predicate Restatused(before: Outbox, after: Outbox) {
    && after.Keys == before.Keys
    && forall k :: k in before ==> after[k].id == before[k].id && SameKey(after[k], before[k].memoryId, before[k].version, before[k].op)
  }

  lemma RestatusKeepsStore(before: Database, after: Database, clock: Time)
    requires StoreInv(before, clock) && Restatused(before.outbox, after.outbox) && after.items == before.items
    ensures StoreInv(after, clock)
  {
    forall k | k in after.outbox ensures RowShape(after.items[after.outbox[k].memoryId], after.outbox[k], clock) {
      assert RowShape(before.items[before.outbox[k].memoryId], before.outbox[k], clock);
    }
  }

  /** Reopening or claiming rows can only make more work outstanding. */
  lemma ReopenKeepsIndex(s: World, s': World)
    requires StoreInv(s.db, s.clock) && IndexInv(s)
    requires Restatused(s.db.outbox, s'.db.outbox) && s'.db.items == s.db.items
    requires forall k :: k in s.db.outbox && s.db.outbox[k].status != Completed ==> s'.db.outbox[k].status != Completed
    requires s'.index == s.index && s'.clock == s.clock
    ensures IndexInv(s')
  {
    forall id | OpenRow(s.db.outbox, id, -1) ensures OpenRow(s'.db.outbox, id, -1) {
      var k :| k in s.db.outbox && s.db.outbox[k].memoryId == id && s.db.outbox[k].status != Completed;
      assert k in s'.db.outbox;
    }
  }

  lemma GetKeepsCore(s: World, s': World)
    requires Core(s) && SyncStep(s, GetItem, s')
    ensures Core(s')
  {
    var e := s.sync.batch[0];
    assert RowShape(s.db.items[e.memoryId], s.db.outbox[e.id], s.clock);
  }

  lemma DecideKeepsCore(s: World, s': World)
    requires Core(s) && SyncStep(s, Decide, s')
    ensures Core(s')
  {
    var e := s.sync.batch[0];
    assert RowShape(s.db.items[e.memoryId], s.db.outbox[e.id], s.clock);
  }

  lemma IndexWriteKeepsCore(s: World, step: Step, s': World)
    requires Core(s) && SyncStep(s, step, s') && (step.WriteIndex? || step.IndexRaises?)
    ensures Core(s')
  {
    var e := s.sync.batch[0];
    assert RowShape(s.db.items[e.memoryId], s.db.outbox[e.id], s.clock);
    if OpenRow(s.db.outbox, e.memoryId, e.id) {
      var k :| k in s.db.outbox && k != e.id && s.db.outbox[k].memoryId == e.memoryId && s.db.outbox[k].status != Completed;
      assert OpenRow(s.db.outbox, e.memoryId, -1);
    }
  }

  lemma ClosingLeavesOthersOpen(before: Outbox, k: nat, id: Id, except: int)
    requires k in before && OpenRow(before, id, except) && (before[k].memoryId != id || except == k)
    ensures OpenRow(before[k := before[k].(status := Completed)], id, -1)
  {
    var j :| j in before && j != except && before[j].memoryId == id && before[j].status != Completed;
    var after := before[k := before[k].(status := Completed)];
    assert j != k && j in after && after[j] == before[j];
  }

  /** The heart of the matter: completing an event closes it only after the index already
      shows what it asked for, or while another event about the same item is still open. */
  lemma CompletingKeepsIndex(s: World, s': World)
    requires StoreInv(s.db, s.clock) && IndexInv(s) && BatchInv(s) && At(s, Wrote) && HeadInv(s)
    requires s'.db == MarkDone(s).db && s'.index == s.index && s'.clock == s.clock
    ensures IndexInv(s')
  {
    var e := s.sync.batch[0];
    var after := s.db.outbox[e.id := s.db.outbox[e.id].(status := Completed)];
    assert s'.db == s.db.(outbox := after) by { assert SameKey(s.db.outbox[e.id], e.memoryId, e.version, e.op); }
    forall p | p in s'.index
      ensures if s'.db.items[p.0].status == Active then p.1 == s'.db.items[p.0].version else OpenRow(s'.db.outbox, p.0, -1)
    {
      if s.db.items[p.0].status != Active {
        if p.0 == e.memoryId {
          ClosingLeavesOthersOpen(s.db.outbox, e.id, p.0, e.id);
        } else {
          ClosingLeavesOthersOpen(s.db.outbox, e.id, p.0, -1);
        }
      }
    }
    forall id | id in s'.db.items && s'.db.items[id].status == Active && !Ended(s'.db.items[id], s'.clock)
      ensures OpenRow(s'.db.outbox, id, -1) || (id, s'.db.items[id].version) in s'.index
    {
      if id != e.memoryId && OpenRow(s.db.outbox, id, -1) { ClosingLeavesOthersOpen(s.db.outbox, e.id, id, -1); }
    }
  }

  lemma MarkDoneRestatuses(s: World)
    requires BatchInv(s) && At(s, Wrote)
    ensures Restatused(s.db.outbox, MarkDone(s).db.outbox) && MarkDone(s).db.items == s.db.items
  {}

  lemma BatchDependsOnKeys(s: World, s': World)
    requires BatchInv(s) && Restatused(s.db.outbox, s'.db.outbox)
    requires s.sync.Busy? && s'.sync.Busy? && s'.sync.batch == s.sync.batch
    ensures BatchInv(s')
  {
    forall i | 0 <= i < |s.sync.batch|
      ensures var e := s.sync.batch[i]; e.id in s'.db.outbox && SameKey(s'.db.outbox[e.id], e.memoryId, e.version, e.op)
    {
      assert SameKey(s.db.outbox[s.sync.batch[i].id], s.sync.batch[i].memoryId, s.sync.batch[i].version, s.sync.batch[i].op);
    }
  }

  lemma CompleteKeepsCore(s: World, step: Step, s': World)
    requires Core(s) && SyncStep(s, step, s') && (step.Complete? || step.CompleteRaises?)
    ensures Core(s')
  {
    MarkDoneRestatuses(s);
    BatchDependsOnKeys(s, s');
    if step.Complete? || step.applied {
      CompletingKeepsIndex(s, s');
      RestatusKeepsStore(s.db, s'.db, s.clock);
    }
  }

  lemma ClaimRestatuses(s: World, ids: seq<nat>, s': World)
    requires StoreInv(s.db, s.clock) && SyncStep(s, Claim(ids), s')
    ensures Restatused(s.db.outbox, s'.db.outbox) && BatchInv(s')
    ensures s'.db.items == s.db.items && s'.clock == s.clock && s'.index == s.index
    ensures forall k :: k in s.db.outbox && s.db.outbox[k].status != Completed ==> s'.db.outbox[k].status != Completed
    ensures s'.sync.Busy? ==> s'.sync.phase == AtHead
  {}

  /** Rows of a batch are about items that exist. */
  lemma BatchIsKnown(s: World)
    requires StoreInv(s.db, s.clock) && BatchInv(s) && s.sync.Busy?
    ensures forall i :: 0 <= i < |s.sync.batch| ==> s.sync.batch[i].memoryId in s.db.items
  {
    forall i | 0 <= i < |s.sync.batch| ensures s.sync.batch[i].memoryId in s.db.items {
      assert SameKey(s.db.outbox[s.sync.batch[i].id], s.sync.batch[i].memoryId, s.sync.batch[i].version, s.sync.batch[i].op);
    }
  }

  lemma ClaimKeepsCore(s: World, ids: seq<nat>, s': World)
    requires Core(s) && SyncStep(s, Claim(ids), s')
    ensures Core(s')
  {
    ClaimRestatuses(s, ids, s');
    RestatusKeepsStore(s.db, s'.db, s.clock);
    ReopenKeepsIndex(s, s');
    if s'.sync.Busy? { BatchIsKnown(s'); }
  }

  lemma RetryRestatuses(s: World, at: Time, s': World)
    requires StoreInv(s.db, s.clock) && BatchInv(s) && SyncStep(s, RetryLater(at), s')
    ensures Restatused(s.db.outbox, s'.db.outbox) && BatchInv(s')
    ensures s'.db.items == s.db.items && s'.clock == s.clock && s'.index == s.index
    ensures forall k :: k in s.db.outbox && s.db.outbox[k].status != Completed ==> s'.db.outbox[k].status != Completed
    ensures s'.sync.Busy? ==> s'.sync.phase == AtHead
  {}

  lemma RetryKeepsCore(s: World, at: Time, s': World)
    requires Core(s) && SyncStep(s, RetryLater(at), s')
    ensures Core(s')
  {
    RetryRestatuses(s, at, s');
    RestatusKeepsStore(s.db, s'.db, s.clock);
    ReopenKeepsIndex(s, s');
    if s'.sync.Busy? { BatchIsKnown(s'); }
  }

  lemma SyncKeepsCore(s: World, step: Step, s': World)
    requires Core(s) && SyncStep(s, step, s')
    ensures Core(s')
  {
    match step
    case Claim(ids) => ClaimKeepsCore(s, ids, s');
    case GetItem => GetKeepsCore(s, s');
    case Decide => DecideKeepsCore(s, s');
    case WriteIndex => IndexWriteKeepsCore(s, step, s');
    case IndexRaises(_) => IndexWriteKeepsCore(s, step, s');
    case Complete => CompleteKeepsCore(s, step, s');
    case CompleteRaises(_) => CompleteKeepsCore(s, step, s');
    case RetryLater(at) => RetryKeepsCore(s, at, s');
    case _ =>
  }

  lemma TickKeepsCore(s: World, s': World)
    requires Core(s) && s'.clock >= s.clock && s' == s.(clock := s'.clock)
    ensures Core(s')
  {
    forall k | k in s'.db.outbox ensures RowShape(s'.db.items[s'.db.outbox[k].memoryId], s'.db.outbox[k], s'.clock) {
      assert RowShape(s.db.items[s.db.outbox[k].memoryId], s.db.outbox[k], s.clock);
    }
  }

  lemma CommitKeepsCore(s: World, tx: Tx, eventId: nat, eventId': nat, s': World)
    requires Core(s) && Fit(s.db, tx, s.clock)
    requires var r := Apply(s.db, tx, eventId, eventId', s.clock);
      s'.db == (if r.Ok? then r.value else s.db) && s'.index == s.index && s'.clock == s.clock && s'.sync == s.sync
    ensures Core(s')
  {
    if Apply(s.db, tx, eventId, eventId', s.clock).Ok? {
      ApplyKeepsStore(s.db, tx, eventId, eventId', s.clock);
      CommitKeepsIndex(s, s');
      if s.sync.Busy? && s.sync.batch != [] { CommitKeepsHead(s, s'); }
    }
  }

  // ----- any user of the repository -----

  /** One step of any user of the repository: time passes, any transaction commits or fails, or
      the synchronizer goes on. */
  ghost predicate RepositoryStep(s: World, step: Step, s': World) {
    match step
    case Tick(to) => to >= s.clock && s' == s.(clock := to)
    case Commit(tx, eventId, eventId') =>
      var r := Apply(s.db, tx, eventId, eventId', s.clock);
      s' == s.(db := if r.Ok? then r.value else s.db)
    case _ => SyncStep(s, step, s')
  }

  /** Such steps one after the other, all transactions among them fit. */
  ghost predicate FitPath(worlds: seq<World>, steps: seq<Step>) {
    && |worlds| == |steps| + 1
    && forall i :: 0 <= i < |steps| ==>
         && RepositoryStep(worlds[i], steps[i], worlds[i + 1])
         && (steps[i].Commit? ==> Fit(worlds[i].db, steps[i].tx, worlds[i].clock))
  }

  lemma {:induction false} FitPathKeepsCore(worlds: seq<World>, steps: seq<Step>, n: nat)
    requires FitPath(worlds, steps) && Core(worlds[0]) && n < |worlds|
    ensures Core(worlds[n])
  {
    if n > 0 {
      FitPathKeepsCore(worlds, steps, n - 1);
      var s, step, s' := worlds[n - 1], steps[n - 1], worlds[n];
      assert RepositoryStep(s, step, s');
      match step
      case Tick(_) => TickKeepsCore(s, s');
      case Commit(tx, eventId, eventId') => CommitKeepsCore(s, tx, eventId, eventId', s');
      case _ => SyncKeepsCore(s, step, s');
    }
  }

  ghost predicate Drained(outbox: Outbox) {
    forall k :: k in outbox ==> outbox[k].status == Completed
  }

  /** Only current versions of active items are indexed, and everything retrievable is. */
  ghost predicate IndexAgrees(s: World) {
    && (forall p :: p in s.index ==> p.0 in s.db.items && s.db.items[p.0].status == Active && p.1 == s.db.items[p.0].version)
    && (forall id :: id in s.db.items && s.db.items[id].Retrievable(s.clock) ==> (id, s.db.items[id].version) in s.index)
  }

  lemma DrainedCoreAgrees(s: World)
    requires Core(s) && Drained(s.db.outbox)
    ensures IndexAgrees(s)
  {}

  /** Every run of every user of the repository whose transactions are fit converges. */
  lemma RepositoryConverges(worlds: seq<World>, steps: seq<Step>, n: nat)
    requires FitPath(worlds, steps) && Init(worlds[0]) && n < |worlds|
    requires Drained(worlds[n].db.outbox)
    ensures IndexAgrees(worlds[n])
  {
    FitPathKeepsCore(worlds, steps, n);
    DrainedCoreAgrees(worlds[n]);
  }
}
