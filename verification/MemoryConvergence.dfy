/** The service keeps to what the outbox can take, so once it is drained the index agrees with
    the truth store, whatever the interleaving of commits, index failures and synchronizer deaths. */
module MemoryConvergence {
  import opened Prelude
  import opened MemoryDomain
  import opened MemoryStore
  import opened MemoryCommands
  import opened MemorySystem
  import opened MemoryOutbox

  // ----- the truth store -----

  /** The event the item's current state needs. */
  ghost predicate NeededRow(db: Database, id: Id)
    requires id in db.items
  {
    var item := db.items[id];
    && (item.status == Active ==> HasKey(db.outbox, id, item.version, Upsert))
    && (Terminal(item.status) ==> HasKey(db.outbox, id, item.version, Delete))
  }

  ghost predicate TruthInv(db: Database, clock: Time) {
    && StoreInv(db, clock)
    && (forall id :: id in db.items ==> db.items[id].WellFormed() && db.items[id].validFrom <= clock)
    && (forall id :: id in db.items ==> NeededRow(db, id))
  }

  /** Nothing the service commits is unfit. */
  lemma SoundIsFit(db: Database, tx: Tx, clock: Time)
    requires TruthInv(db, clock) && Sound(db, tx, clock)
    ensures Fit(db, tx, clock)
  {}

  lemma CommittedKeepsNeeded(before: Database, after: Database, id: Id)
    requires Committed(before, after) && Keyed(after) && id in after.items
    requires if id in before.items then NeededRow(before, id) else !Terminal(after.items[id].status)
    ensures NeededRow(after, id)
  {
    if id in before.items && after.items[id].version == before.items[id].version {
      forall op | HasKey(before.outbox, id, before.items[id].version, op) ensures HasKey(after.outbox, id, before.items[id].version, op) {
        var k :| k in before.outbox && SameKey(before.outbox[k], id, before.items[id].version, op);
        assert SameKey(after.outbox[k], id, before.items[id].version, op);
      }
    } else if NewRow(before, after, id) {
      var k :| k in after.outbox && k !in before.outbox && Announces(after.items[id], id in before.items, after.outbox[k]);
      assert SameKey(after.outbox[k], id, after.items[id].version, after.outbox[k].op);
    }
  }

  /** New items of the service are active or candidates, well formed and not ahead of the clock. */
  lemma NewItemsAreSound(db: Database, tx: Tx, eventId: nat, eventId': nat, now: Time, id: Id)
    requires Sound(db, tx, now)
    ensures var r := Apply(db, tx, eventId, eventId', now);
      r.Ok? && id in r.value.items && id !in db.items ==>
        r.value.items[id].WellFormed() && r.value.items[id].validFrom <= now && !Terminal(r.value.items[id].status)
  {}

  lemma KeptItemsStayWellFormed(db: Database, tx: Tx, eventId: nat, eventId': nat, now: Time, id: Id)
    requires id in db.items && db.items[id].WellFormed()
    ensures var r := Apply(db, tx, eventId, eventId', now); r.Ok? && id in r.value.items ==> r.value.items[id].WellFormed()
  {}

  /** Every service transaction keeps the truth invariant and carries a fresh event for
      every change of state. */
  lemma ApplyKeepsTruth(db: Database, tx: Tx, eventId: nat, eventId': nat, now: Time)
    requires TruthInv(db, now) && Sound(db, tx, now)
    ensures var r := Apply(db, tx, eventId, eventId', now); r.Ok? ==> TruthInv(r.value, now) && Committed(db, r.value)
  {
    SoundIsFit(db, tx, now);
    ApplyKeepsStore(db, tx, eventId, eventId', now);
    var r := Apply(db, tx, eventId, eventId', now);
    if r.Ok? {
      forall id | id in r.value.items
        ensures r.value.items[id].WellFormed() && r.value.items[id].validFrom <= now && NeededRow(r.value, id)
      {
        NewItemsAreSound(db, tx, eventId, eventId', now, id);
        if id in db.items { KeptItemsStayWellFormed(db, tx, eventId, eventId', now, id); }
        CommittedKeepsNeeded(db, r.value, id);
      }
    }
  }

  lemma SoundPersists(before: Database, after: Database, tx: Tx, clock: Time, clock': Time)
    requires Sound(before, tx, clock) && Committed(before, after) && clock <= clock'
    ensures Sound(after, tx, clock')
  {}

  lemma RestatusKeepsTruth(before: Database, after: Database, clock: Time)
    requires TruthInv(before, clock) && Restatused(before.outbox, after.outbox) && after.items == before.items
    ensures TruthInv(after, clock)
  {
    RestatusKeepsStore(before, after, clock);
    forall id | id in after.items ensures NeededRow(after, id) {
      assert NeededRow(before, id);
      KeysPersist(before.outbox, after.outbox, id, before.items[id].version);
    }
  }

  lemma KeysPersist(before: Outbox, after: Outbox, id: Id, v: nat)
    requires Restatused(before, after)
    ensures forall op :: HasKey(before, id, v, op) ==> HasKey(after, id, v, op)
  {
    forall op | HasKey(before, id, v, op) ensures HasKey(after, id, v, op) {
      var k :| k in before && SameKey(before[k], id, v, op);
      assert SameKey(after[k], id, v, op);
    }
  }

  // ----- the whole system -----

  ghost predicate InflightInv(s: World) {
    forall p :: p in s.inflight ==> match p
      case NeedsListing(_, status, now, _) => (status == Active || status == Candidate) && now <= s.clock
      case Planned(tx) => Sound(s.db, tx, s.clock)
  }

  ghost predicate Inv(s: World) {
    TruthInv(s.db, s.clock) && InflightInv(s) && Core(s)
  }

  lemma BeginWriteKeepsInflight(policy: Policy, s: World, step: Step, s': World)
    requires Inv(s) && CommandStep(policy, s, step, s') && step.BeginWrite?
    ensures InflightInv(s')
  {
    var status := Admit(step.p, step.ctx, step.remember).value;
    if step.exact.Some? { PlanWriteIsSound(policy, step.p, status, s.clock, step.exact, [], step.newId, s.db, s.clock); }
  }

  lemma ReadListingKeepsInflight(policy: Policy, s: World, step: Step, s': World)
    requires Inv(s) && CommandStep(policy, s, step, s') && step.ReadListing?
    ensures InflightInv(s')
  {
    var pending := step.pending;
    PlanWriteIsSound(policy, pending.p, pending.status, pending.now, None, step.actives, pending.newId, s.db, s.clock);
  }

  lemma BeginItemKeepsInflight(policy: Policy, s: World, step: Step, s': World)
    requires Inv(s) && CommandStep(policy, s, step, s') && step.BeginItem?
    ensures InflightInv(s')
  {
    PlanItemIsSound(policy, s.db, step.ctx, step.command, s.clock);
  }

  /** Reading and planning change nothing but what is in flight. */
  lemma PlanningKeepsInv(policy: Policy, s: World, step: Step, s': World)
    requires Inv(s) && CommandStep(policy, s, step, s') && !step.Commit? && !step.Tick?
    ensures Inv(s')
  {
    assert s' == s.(inflight := s'.inflight);
    match step
    case BeginWrite(_, _, _, _, _) => BeginWriteKeepsInflight(policy, s, step, s');
    case ReadListing(_, _) => ReadListingKeepsInflight(policy, s, step, s');
    case BeginItem(_, _) => BeginItemKeepsInflight(policy, s, step, s');
    case _ =>
  }

  lemma TickKeepsInv(policy: Policy, s: World, step: Step, s': World)
    requires Inv(s) && CommandStep(policy, s, step, s') && step.Tick?
    ensures Inv(s')
  {
    TickKeepsCore(s, s');
  }

  lemma CommitKeepsInv(policy: Policy, s: World, step: Step, s': World)
    requires Inv(s) && CommandStep(policy, s, step, s') && step.Commit?
    ensures Inv(s')
  {
    var r := Apply(s.db, step.tx, step.eventId, step.eventId', s.clock);
    assert Sound(s.db, step.tx, s.clock);
    SoundIsFit(s.db, step.tx, s.clock);
    CommitKeepsCore(s, step.tx, step.eventId, step.eventId', s');
    if r.Ok? {
      ApplyKeepsTruth(s.db, step.tx, step.eventId, step.eventId', s.clock);
      forall tx | Planned(tx) in s'.inflight ensures Sound(s'.db, tx, s'.clock) {
        SoundPersists(s.db, s'.db, tx, s.clock, s.clock);
      }
    }
  }

  lemma SyncRestatuses(s: World, step: Step, s': World)
    requires Core(s) && SyncStep(s, step, s')
    ensures Restatused(s.db.outbox, s'.db.outbox) && s'.db.items == s.db.items && s'.clock == s.clock && s'.inflight == s.inflight
  {
    if step.Claim? { ClaimRestatuses(s, step.ids, s'); }
    if step.RetryLater? { RetryRestatuses(s, step.at, s'); }
    if step.Complete? || step.CompleteRaises? { MarkDoneRestatuses(s); }
  }

  lemma SyncKeepsInv(s: World, step: Step, s': World)
    requires Inv(s) && SyncStep(s, step, s')
    ensures Inv(s')
  {
    SyncKeepsCore(s, step, s');
    SyncRestatuses(s, step, s');
    RestatusKeepsTruth(s.db, s'.db, s.clock);
  }

  lemma {:induction false} RunKeepsInv(policy: Policy, worlds: seq<World>, steps: seq<Step>, n: nat)
    requires Run(policy, worlds, steps) && Init(worlds[0]) && n < |worlds|
    ensures Inv(worlds[n])
  {
    if n > 0 {
      RunKeepsInv(policy, worlds, steps, n - 1);
      StepKeepsInv(policy, worlds[n - 1], steps[n - 1], worlds[n]);
    }
  }

  lemma StepKeepsInv(policy: Policy, s: World, step: Step, s': World)
    requires Inv(s) && Next(policy, s, step, s')
    ensures Inv(s')
  {
    if SyncStep(s, step, s') { SyncKeepsInv(s, step, s'); }
    else if step.Commit? { CommitKeepsInv(policy, s, step, s'); }
    else if step.Tick? { TickKeepsInv(policy, s, step, s'); }
    else { PlanningKeepsInv(policy, s, step, s'); }
  }

  /** The service converges: in every state of every interleaving, a drained outbox means that
      the index agrees. */
  lemma OutboxConverges(policy: Policy, worlds: seq<World>, steps: seq<Step>, n: nat)
    requires Run(policy, worlds, steps) && Init(worlds[0]) && n < |worlds|
    requires Drained(worlds[n].db.outbox)
    ensures IndexAgrees(worlds[n])
  {
    RunKeepsInv(policy, worlds, steps, n);
    DrainedCoreAgrees(worlds[n]);
  }
}
