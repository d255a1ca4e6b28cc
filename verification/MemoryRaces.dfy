/** Commands that race on one version of one item: status changes exclude each other and every
    later command, merges of evidence do not (memory/postgres_repository.py). */
module MemoryRaces {
  import opened Prelude
  import opened MemoryDomain
  import opened MemoryStore
  import opened MemoryCommands
  import opened MemorySystem
  import opened MemoryOutbox
  import opened MemoryConvergence
  import opened MemoryChains

  /** The item and the version a transaction insists on. */
  function Guard(tx: Tx): Option<(Id, nat)> {
    match tx
    case Create(_, _) => None
    case Transition(id, _, expected, _) => Some((id, expected))
    case Supersede(oldId, _, _, expected) => Some((oldId, expected))
    case AddEvidence(id, _, expected) => if expected.Some? then Some((id, expected.value)) else None
  }

  predicate ChangesStatus(tx: Tx, id: Id) {
    (tx.Transition? && tx.memoryId == id) || (tx.Supersede? && tx.oldId == id)
  }

  ghost predicate Commits(s: World, step: Step) {
    step.Commit? && Apply(s.db, step.tx, step.eventId, step.eventId', s.clock).Ok?
  }

  /** A status change of the item commits in this step. */
  ghost predicate Changes(s: World, step: Step, id: Id) {
    Commits(s, step) && ChangesStatus(step.tx, id)
  }

  // ----- over a run -----

  /** The item is as it was but for its time stamp. */
  predicate Same(before: Items, after: Items, id: Id) {
    id in before && id in after && after[id] == before[id].(updatedAt := after[id].updatedAt)
  }

  lemma {:induction false} CommitSparesOthers(db: Database, tx: Tx, eventId: nat, eventId': nat, now: Time, id: Id)
    requires id in db.items && !ChangesStatus(tx, id)
    ensures var r := Apply(db, tx, eventId, eventId', now);
      r.Ok? ==> Same(db.items, r.value.items, id)
  {}

  /** A step without a status change of the item leaves it as it is but for its time stamp. */
  lemma {:induction false} StepSparesItem(policy: Policy, s: World, step: Step, s': World, id: Id)
    requires Next(policy, s, step, s') && id in s.db.items && !Changes(s, step, id)
    ensures Same(s.db.items, s'.db.items, id)
  {
    if step.Commit? {
      CommitStep(policy, s, step, s');
      if Commits(s, step) { CommitSparesOthers(s.db, step.tx, step.eventId, step.eventId', s.clock, id); }
    } else {
      OtherStepsKeepItems(policy, s, step, s');
    }
  }

  lemma {:induction false} CommitStep(policy: Policy, s: World, step: Step, s': World)
    requires Next(policy, s, step, s') && step.Commit?
    ensures s'.db == (if Commits(s, step) then Apply(s.db, step.tx, step.eventId, step.eventId', s.clock).value else s.db)
  {}

  lemma {:induction false} RunSparesItem(policy: Policy, worlds: seq<World>, steps: seq<Step>, i: nat, j: nat, id: Id)
    requires Run(policy, worlds, steps) && i <= j <= |steps| && id in worlds[i].db.items
    requires forall k :: i <= k < j ==> !Changes(worlds[k], steps[k], id)
    ensures Same(worlds[i].db.items, worlds[j].db.items, id)
    decreases j - i
  {
    if i < j {
      RunSparesItem(policy, worlds, steps, i, j - 1, id);
      RunStepSparesItem(policy, worlds, steps, j - 1, id);
    }
  }

  lemma {:induction false} RunStepSparesItem(policy: Policy, worlds: seq<World>, steps: seq<Step>, k: nat, id: Id)
    requires Run(policy, worlds, steps) && k < |steps| && id in worlds[k].db.items && !Changes(worlds[k], steps[k], id)
    ensures Same(worlds[k].db.items, worlds[k + 1].db.items, id)
  {
    StepSparesItem(policy, worlds[k], steps[k], worlds[k + 1], id);
  }

  /** A status change that commits moves the item past the version it insisted on. */
  lemma {:induction false} StatusChangeMovesOn(policy: Policy, worlds: seq<World>, steps: seq<Step>, k: nat, id: Id)
    requires Run(policy, worlds, steps) && Init(worlds[0]) && k < |steps|
    requires Changes(worlds[k], steps[k], id)
    ensures id in worlds[k].db.items && id in worlds[k + 1].db.items
    ensures worlds[k + 1].db.items[id].version == worlds[k].db.items[id].version + 1
    ensures Guard(steps[k].tx) == Some((id, worlds[k].db.items[id].version))
  {
    CommitStep(policy, worlds[k], steps[k], worlds[k + 1]);
    ChangeRaisesVersion(worlds[k].db, steps[k].tx, steps[k].eventId, steps[k].eventId', worlds[k].clock, id);
  }

  lemma {:induction false} ChangeRaisesVersion(db: Database, tx: Tx, eventId: nat, eventId': nat, now: Time, id: Id)
    requires ChangesStatus(tx, id) && Apply(db, tx, eventId, eventId', now).Ok?
    ensures id in db.items && Guard(tx) == Some((id, db.items[id].version))
    ensures var after := Apply(db, tx, eventId, eventId', now).value; id in after.items && after.items[id].version == db.items[id].version + 1
  {}

  lemma {:induction false} OutOfDateFails(db: Database, tx: Tx, eventId: nat, eventId': nat, now: Time)
    requires Guard(tx).Some? && Guard(tx).value.0 in db.items && db.items[Guard(tx).value.0].version != Guard(tx).value.1
    ensures Apply(db, tx, eventId, eventId', now).Err?
  {}

  /** Once a status change has committed on a version of an item, every later command that
      insists on that version fails: status changes and merges of evidence alike. */
  lemma {:induction false} RacesHaveOneWinner(policy: Policy, worlds: seq<World>, steps: seq<Step>, i: nat, j: nat, id: Id)
    requires Run(policy, worlds, steps) && Init(worlds[0]) && i < j < |steps| && steps[j].Commit?
    requires Changes(worlds[i], steps[i], id) && Guard(steps[i].tx) == Guard(steps[j].tx)
    ensures !Commits(worlds[j], steps[j])
  {
    StatusChangeMovesOn(policy, worlds, steps, i, id);
    RunKeepsHistory(policy, worlds, steps, i + 1, j);
    OutOfDateFails(worlds[j].db, steps[j].tx, steps[j].eventId, steps[j].eventId', worlds[j].clock);
  }

  /** The transaction would commit if the item still were the given row: nothing but the item
      itself is in its way. */
  ghost predicate CommitsOn(db: Database, row: MemoryItem, tx: Tx, eventId: nat, eventId': nat, now: Time)
    requires Guard(tx).Some?
  {
    Apply(db.(items := db.items[Guard(tx).value.0 := row]), tx, eventId, eventId', now).Ok?
  }

  lemma {:induction false} TimeStampsDoNotMatter(db: Database, row: MemoryItem, tx: Tx, eventId: nat, eventId': nat, now: Time)
    requires Guard(tx).Some? && Guard(tx).value.0 in db.items
    requires db.items[Guard(tx).value.0] == row.(updatedAt := db.items[Guard(tx).value.0].updatedAt)
    ensures Apply(db, tx, eventId, eventId', now).Ok? <==> CommitsOn(db, row, tx, eventId, eventId', now)
  {
    assert (db.items[Guard(tx).value.0 := row]).Keys == db.items.Keys;
  }

  /** A command planned on what it read at `i`, with nothing else in its way at `j`, commits if
      and only if no status change of its item has committed in between. */
  lemma {:induction false} CommitsIffStatusUnchanged(policy: Policy, worlds: seq<World>, steps: seq<Step>, i: nat, j: nat, id: Id)
    requires Run(policy, worlds, steps) && Init(worlds[0]) && i <= j < |steps| && steps[j].Commit? && id in worlds[i].db.items
    requires Guard(steps[j].tx) == Some((id, worlds[i].db.items[id].version))
    requires CommitsOn(worlds[j].db, worlds[i].db.items[id], steps[j].tx, steps[j].eventId, steps[j].eventId', worlds[j].clock)
    ensures Commits(worlds[j], steps[j]) <==>
      forall k :: i <= k < j ==> !Changes(worlds[k], steps[k], id)
  {
    if forall k :: i <= k < j ==> !Changes(worlds[k], steps[k], id) {
      RunSparesItem(policy, worlds, steps, i, j, id);
      TimeStampsDoNotMatter(worlds[j].db, worlds[i].db.items[id], steps[j].tx, steps[j].eventId, steps[j].eventId', worlds[j].clock);
    } else {
      var k :| i <= k < j && Changes(worlds[k], steps[k], id);
      RunKeepsHistory(policy, worlds, steps, i, k);
      StatusChangeMovesOn(policy, worlds, steps, k, id);
      RunKeepsHistory(policy, worlds, steps, k + 1, j);
      OutOfDateFails(worlds[j].db, steps[j].tx, steps[j].eventId, steps[j].eventId', worlds[j].clock);
    }
  }

  /** Of two commands on one version that would each commit alone, both commit, one after the
      other, if and only if the first is a merge of evidence. */
  lemma {:induction false} BothCommitIffFirstMerges(db: Database, first: Tx, second: Tx, e: nat, e': nat, now: Time, f: nat, f': nat, later: Time)
    requires Guard(first).Some? && Guard(first) == Guard(second)
    requires Apply(db, first, e, e', now).Ok? && Apply(db, second, f, f', later).Ok?
    ensures Apply(Apply(db, first, e, e', now).value, second, f, f', later).Ok? <==> first.AddEvidence?
  {
    var id := Guard(first).value.0;
    var after := Apply(db, first, e, e', now).value;
    if first.AddEvidence? {
      MergeLeavesRoom(db, first, second, e, e', now, f, f', later);
    } else {
      ChangeRaisesVersion(db, first, e, e', now, id);
      OutOfDateFails(after, second, f, f', later);
    }
  }

  lemma {:induction false} MergeLeavesRoom(db: Database, first: Tx, second: Tx, e: nat, e': nat, now: Time, f: nat, f': nat, later: Time)
    requires first.AddEvidence? && Guard(first).Some? && Guard(first) == Guard(second)
    requires Apply(db, first, e, e', now).Ok? && Apply(db, second, f, f', later).Ok?
    ensures Apply(Apply(db, first, e, e', now).value, second, f, f', later).Ok?
  {
    var after := Apply(db, first, e, e', now).value;
    assert after.items.Keys == db.items.Keys && after.outbox == db.outbox;
  }

  // ----- a race with two winners -----

  const POLICY := Policy((s: string) => s, (x: string, y: string) => false, None)

  const OWNER := OwnerKey(User, "u")

  const CTX := Context("u", "s", None, None, None, None)

  const CLAIM := Proposal("a", Fact, OWNER, ExplicitUser, [Evidence(Source(0), 0, ExplicitUser, "a", 0)], 1.0, 1.0, true, None, None)

  const ITEM := MemoryItem(1, OWNER, Fact, "a", "a", Active, 1.0, 1.0, 0, None, Some(0), None, 1, 0)

  function Merge(): Tx {
    AddEvidence(1, BindEvidence(CLAIM.rows, 1), Some(1))
  }

  const REVOKE := Transition(1, Revoked, 1, None)

  function Empty(): World {
    World(Database(map[], map[], map[]), {}, 0, {}, Idle)
  }

  function Reading(): World {
    Empty().(inflight := {NeedsListing(CLAIM, Active, 0, 1)})
  }

  function Planning(): World {
    Empty().(inflight := {Planned(Create(ITEM, BindEvidence(CLAIM.rows, 1)))})
  }

  function InStore(): World {
    Empty().(db := Database(map[1 := ITEM], InsertEvidence(map[], 1, BindEvidence(CLAIM.rows, 1)),
                            map[0 := Event(0, 1, 1, Upsert, Pending, 0, 0, 0)]))
  }

  function Merging(): World {
    InStore().(inflight := {Planned(Merge())})
  }

  function Racing(): World {
    InStore().(inflight := {Planned(Merge()), Planned(REVOKE)})
  }

  function Merged(): World {
    InStore().(db := Apply(InStore().db, Merge(), 1, 2, 0).value, inflight := {Planned(REVOKE)})
  }

  lemma {:induction false} FirstSteps()
    ensures CommandStep(POLICY, Empty(), BeginWrite(CLAIM, CTX, true, 1, None), Reading())
    ensures CommandStep(POLICY, Reading(), ReadListing(NeedsListing(CLAIM, Active, 0, 1), []), Planning())
  {
    assert CTX.Permits(OWNER);
  }

  lemma {:induction false} StoreStep()
    ensures CommandStep(POLICY, Planning(), Commit(Create(ITEM, BindEvidence(CLAIM.rows, 1)), 0, 0), InStore())
  {}

  lemma {:induction false} RaceSteps()
    ensures CommandStep(POLICY, InStore(), BeginWrite(CLAIM, CTX, true, 2, Some(ITEM)), Merging())
    ensures CommandStep(POLICY, Merging(), BeginItem(Revoke(1), CTX), Racing())
  {
    assert CTX.Permits(OWNER);
    assert Comparable(CLAIM, [ITEM][0]) && [ITEM][0].normalized == POLICY.normalize(CLAIM.content);
  }

  lemma {:induction false} MergeStep()
    ensures CommandStep(POLICY, Racing(), Commit(Merge(), 1, 2), Merged()) && Commits(Racing(), Commit(Merge(), 1, 2))
  {}

  lemma {:induction false} RevokeCommits()
    ensures Commits(Merged(), Commit(REVOKE, 1, 2))
  {}

  lemma {:induction false} Onward(s: World, step: Step, s': World)
    requires Reachable(POLICY, s) && CommandStep(POLICY, s, step, s')
    ensures Reachable(POLICY, s')
  {
    Reach(POLICY, s, step, s');
  }

  lemma {:induction false} StoredIsReachable()
    ensures Reachable(POLICY, InStore())
  {
    var worlds, steps: seq<Step> := [Empty()], [];
    assert Run(POLICY, worlds, steps) && Init(worlds[0]) && worlds[|steps|] == Empty();
    FirstSteps();
    Onward(Empty(), BeginWrite(CLAIM, CTX, true, 1, None), Reading());
    Onward(Reading(), ReadListing(NeedsListing(CLAIM, Active, 0, 1), []), Planning());
    StoreStep();
    Onward(Planning(), Commit(Create(ITEM, BindEvidence(CLAIM.rows, 1)), 0, 0), InStore());
  }

  /** Remembering once more and revoking race on version one of an item, both planned in one
      reachable world, and both commit: the merge of evidence comes first and leaves the version. */
  lemma {:induction false} MergeAndRevokeBothCommit()
    ensures Reachable(POLICY, Racing()) && Planned(Merge()) in Racing().inflight && Planned(REVOKE) in Racing().inflight
    ensures Guard(Merge()) == Guard(REVOKE) == Some((1, 1))
    ensures CommandStep(POLICY, Racing(), Commit(Merge(), 1, 2), Merged()) && Commits(Racing(), Commit(Merge(), 1, 2))
    ensures Planned(REVOKE) in Merged().inflight && Commits(Merged(), Commit(REVOKE, 1, 2))
  {
    StoredIsReachable();
    RaceSteps();
    Onward(InStore(), BeginWrite(CLAIM, CTX, true, 2, Some(ITEM)), Merging());
    Onward(Merging(), BeginItem(Revoke(1), CTX), Racing());
    MergeStep();
    RevokeCommits();
  }
}
