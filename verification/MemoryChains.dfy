/** Supersession chains, races on one version, and what proposals may touch. */
module MemoryChains {
  import opened Prelude
  import opened MemoryDomain
  import opened MemoryStore
  import opened MemoryCommands
  import opened MemorySystem
  import opened MemoryOutbox
  import opened MemoryConvergence

  // ----- supersession -----

  ghost predicate Names(items: Items, child: Id, parent: Id) {
    child in items && items[child].supersedes == Some(parent)
  }

  ghost predicate LinkOk(items: Items, child: Id, parent: Id)
    requires child in items
  {
    && parent in items
    && items[parent].status == Superseded
    && items[child].owner == items[parent].owner && items[child].kind == items[parent].kind
    && items[child].status != Candidate
    && (if items[child].status == Active then items[child].version >= items[parent].version
        else items[child].version > items[parent].version)
  }

  ghost predicate ChainInv(items: Items) {
    && (forall c, p :: Names(items, c, p) ==> LinkOk(items, c, p))
    && (forall p :: p in items && items[p].status == Superseded ==> exists c :: Names(items, c, p))
    && (forall c, c', p :: Names(items, c, p) && Names(items, c', p) ==> c == c')
  }

  lemma TransitionKeepsChains(items: Items, id: Id, updated: MemoryItem)
    requires ChainInv(items) && id in items
    requires Evolves(items[id], updated) && updated.status != Superseded
    ensures ChainInv(items[id := updated])
  {
    var after := items[id := updated];
    assert forall c, p :: Names(after, c, p) <==> Names(items, c, p);
    forall c, p | Names(after, c, p) ensures LinkOk(after, c, p) { assert LinkOk(items, c, p); }
    forall p | p in after && after[p].status == Superseded ensures exists c :: Names(after, c, p) {
      var c :| Names(items, c, p);
      assert Names(after, c, p);
    }
  }

  lemma SupersedeKeepsChains(items: Items, oldId: Id, superseded: MemoryItem, item: MemoryItem)
    requires ChainInv(items) && oldId in items && item.id !in items
    requires items[oldId].status == Active && Evolves(items[oldId], superseded) && superseded.status == Superseded
    requires item.supersedes == Some(oldId) && item.status == Active && item.version == superseded.version
    requires item.owner == superseded.owner && item.kind == superseded.kind
    ensures ChainInv(items[oldId := superseded][item.id := item])
  {
    var after := items[oldId := superseded][item.id := item];
    assert forall c, p :: Names(after, c, p) <==> Names(items, c, p) || (c == item.id && p == oldId);
    forall c, p | Names(after, c, p) ensures LinkOk(after, c, p) {
      if Names(items, c, p) { assert LinkOk(items, c, p); }
    }
    forall p | p in after && after[p].status == Superseded ensures exists c :: Names(after, c, p) {
      if p == oldId { assert Names(after, item.id, p); }
      else { var c :| Names(items, c, p); assert Names(after, c, p); }
    }
    forall c, c', p | Names(after, c, p) && Names(after, c', p) ensures c == c' {
      if Names(items, c, p) { assert LinkOk(items, c, p); }
      if Names(items, c', p) { assert LinkOk(items, c', p); }
    }
  }

  lemma CreateKeepsChains(items: Items, item: MemoryItem)
    requires ChainInv(items) && item.id !in items && item.supersedes.None? && item.status != Superseded
    ensures ChainInv(items[item.id := item])
  {
    var after := items[item.id := item];
    assert forall c, p :: Names(after, c, p) <==> Names(items, c, p);
    forall c, p | Names(after, c, p) ensures LinkOk(after, c, p) { assert LinkOk(items, c, p); }
    forall p | p in after && after[p].status == Superseded ensures exists c :: Names(after, c, p) {
      var c :| Names(items, c, p);
      assert Names(after, c, p);
    }
  }

  lemma CommitKeepsChains(db: Database, tx: Tx, eventId: nat, eventId': nat, now: Time)
    requires TruthInv(db, now) && Sound(db, tx, now) && ChainInv(db.items)
    ensures var r := Apply(db, tx, eventId, eventId', now); r.Ok? ==> ChainInv(r.value.items)
  {
    var r := Apply(db, tx, eventId, eventId', now);
    if r.Ok? {
      match tx
      case Create(item, _) => CreateKeepsChains(db.items, item);
      case Transition(id, target, _, _) => TransitionKeepsChains(db.items, id, r.value.items[id]);
      case Supersede(oldId, item, _, _) =>
        SupersedeKeepsChains(db.items, oldId, Transitioned(db.items[oldId], Superseded, now).value, item);
      case AddEvidence(id, _, _) => TransitionKeepsChainsTouch(db.items, id, r.value.items[id]);
    }
  }

  lemma TransitionKeepsChainsTouch(items: Items, id: Id, touched: MemoryItem)
    requires ChainInv(items) && id in items && Evolves(items[id], touched) && touched.version == items[id].version
    ensures ChainInv(items[id := touched])
  {
    var after := items[id := touched];
    assert forall c, p :: Names(after, c, p) <==> Names(items, c, p);
    forall c, p | Names(after, c, p) ensures LinkOk(after, c, p) { assert LinkOk(items, c, p); }
    forall p | p in after && after[p].status == Superseded ensures exists c :: Names(after, c, p) {
      var c :| Names(items, c, p);
      assert Names(after, c, p);
    }
  }

  lemma {:induction false} ChainsHold(policy: Policy, worlds: seq<World>, steps: seq<Step>, n: nat)
    requires Run(policy, worlds, steps) && Init(worlds[0]) && n < |worlds|
    ensures ChainInv(worlds[n].db.items)
  {
    if n > 0 {
      ChainsHold(policy, worlds, steps, n - 1);
      RunKeepsInv(policy, worlds, steps, n - 1);
      StepKeepsChains(policy, worlds[n - 1], steps[n - 1], worlds[n]);
    }
  }

  lemma {:induction false} StepKeepsChains(policy: Policy, s: World, step: Step, s': World)
    requires Inv(s) && ChainInv(s.db.items) && Next(policy, s, step, s')
    ensures ChainInv(s'.db.items)
  {
    if step.Commit? {
      CommitStepApplies(policy, s, step, s');
      CommitKeepsChains(s.db, step.tx, step.eventId, step.eventId', s.clock);
    } else {
      OtherStepsKeepItems(policy, s, step, s');
    }
  }

  lemma {:induction false} CommitStepApplies(policy: Policy, s: World, step: Step, s': World)
    requires InflightInv(s) && step.Commit? && Next(policy, s, step, s')
    ensures Sound(s.db, step.tx, s.clock)
    ensures var r := Apply(s.db, step.tx, step.eventId, step.eventId', s.clock);
      s'.db.items == if r.Ok? then r.value.items else s.db.items
  {}

  lemma {:induction false} OtherStepsKeepItems(policy: Policy, s: World, step: Step, s': World)
    requires !step.Commit? && Next(policy, s, step, s')
    ensures s'.db.items == s.db.items
  {}

  /** A chain from older to newer: every member names the one before it. */
  ghost predicate Chain(items: Items, path: seq<Id>) {
    && (forall i :: 0 <= i < |path| ==> path[i] in items)
    && (forall i :: 0 < i < |path| ==> Names(items, path[i], path[i - 1]))
  }

  lemma {:induction false} ChainVersionsRise(items: Items, path: seq<Id>, i: nat, j: nat)
    requires ChainInv(items) && Chain(items, path) && i < j < |path|
    ensures items[path[i]].status == Superseded
    ensures items[path[j]].owner == items[path[i]].owner && items[path[j]].kind == items[path[i]].kind
    ensures if items[path[j]].status == Active then items[path[i]].version <= items[path[j]].version
            else items[path[i]].version < items[path[j]].version
  {
    assert Names(items, path[j], path[j - 1]) && LinkOk(items, path[j], path[j - 1]);
    if i < j - 1 { ChainVersionsRise(items, path, i, j - 1); }
  }

  /** In every reachable state chains are acyclic, keep owner and kind, and at most their
      newest member is active. */
  lemma ChainsAreSound(policy: Policy, worlds: seq<World>, steps: seq<Step>, n: nat, path: seq<Id>)
    requires Run(policy, worlds, steps) && Init(worlds[0]) && n < |worlds|
    requires Chain(worlds[n].db.items, path)
    ensures var items := worlds[n].db.items;
      && (forall i, j :: 0 <= i < j < |path| ==> path[i] != path[j])
      && (forall i, j :: 0 <= i < |path| && 0 <= j < |path| ==>
            items[path[i]].owner == items[path[j]].owner && items[path[i]].kind == items[path[j]].kind)
      && (forall i :: 0 <= i < |path| - 1 ==> items[path[i]].status == Superseded)
  {
    var items := worlds[n].db.items;
    ChainsHold(policy, worlds, steps, n);
    forall i, j | 0 <= i < j < |path|
      ensures path[i] != path[j]
      ensures items[path[i]].owner == items[path[j]].owner && items[path[i]].kind == items[path[j]].kind
      ensures items[path[i]].status == Superseded
    {
      ChainVersionsRise(items, path, i, j);
    }
    forall i | 0 <= i < |path| - 1 ensures items[path[i]].status == Superseded { ChainVersionsRise(items, path, i, i + 1); }
  }

  /** Chains do not branch: of two chains from one item, the shorter is a prefix of the longer. */
  lemma {:induction false} ChainsDoNotBranch(policy: Policy, worlds: seq<World>, steps: seq<Step>, n: nat,
                                             path: seq<Id>, path': seq<Id>)
    requires Run(policy, worlds, steps) && Init(worlds[0]) && n < |worlds|
    requires Chain(worlds[n].db.items, path) && Chain(worlds[n].db.items, path')
    requires 0 < |path| <= |path'| && path[0] == path'[0]
    ensures path == path'[..|path|]
    decreases |path|
  {
    ChainsHold(policy, worlds, steps, n);
    if |path| > 1 {
      var k := |path| - 1;
      ChainsDoNotBranch(policy, worlds, steps, n, path[..k], path');
      assert path[k - 1] == path'[..k][k - 1];
      assert Names(worlds[n].db.items, path[k], path[k - 1]) && Names(worlds[n].db.items, path'[k], path'[k - 1]);
    }
  }

  /** An item is superseded exactly when one other item names it. */
  lemma SupersededIffNamed(policy: Policy, worlds: seq<World>, steps: seq<Step>, n: nat, p: Id)
    requires Run(policy, worlds, steps) && Init(worlds[0]) && n < |worlds| && p in worlds[n].db.items
    ensures var items := worlds[n].db.items;
      items[p].status == Superseded <==>
        exists c :: Names(items, c, p) && c != p && forall c' :: Names(items, c', p) ==> c' == c
  {
    var items := worlds[n].db.items;
    ChainsHold(policy, worlds, steps, n);
    forall c | Names(items, c, p) ensures LinkOk(items, c, p) {}
    if items[p].status == Superseded {
      var c :| Names(items, c, p);
      assert forall c' :: Names(items, c', p) ==> c' == c;
    }
  }

  // ----- history -----

  /** What never changes about a row, and that its status can only differ with its version. */
  ghost predicate History(before: Items, after: Items) {
    forall id :: id in before ==>
      && id in after
      && after[id].owner == before[id].owner && after[id].kind == before[id].kind
      && after[id].version >= before[id].version
      && (after[id].version == before[id].version ==> after[id].status == before[id].status)
  }

  /** One step changes a status exactly when it raises the version, and then by one. */
  lemma StatusChangeRaisesVersion(policy: Policy, worlds: seq<World>, steps: seq<Step>, n: nat, id: Id)
    requires Run(policy, worlds, steps) && Init(worlds[0]) && n < |steps| && id in worlds[n].db.items
    ensures id in worlds[n + 1].db.items
    ensures var a, b := worlds[n].db.items[id], worlds[n + 1].db.items[id];
      && b.owner == a.owner && b.kind == a.kind
      && b.version == a.version + (if b.status == a.status then 0 else 1)
      && (b.status != a.status ==> b.status in AllowedTargets(a.status))
  {
    RunKeepsInv(policy, worlds, steps, n);
    assert Next(policy, worlds[n], steps[n], worlds[n + 1]);
    StepEvolves(policy, worlds[n], steps[n], worlds[n + 1], id);
  }

  lemma StepEvolves(policy: Policy, s: World, step: Step, s': World, id: Id)
    requires TruthInv(s.db, s.clock) && (step.Commit? && Planned(step.tx) in s.inflight ==> Sound(s.db, step.tx, s.clock))
    requires Next(policy, s, step, s') && id in s.db.items
    ensures id in s'.db.items && Evolves(s.db.items[id], s'.db.items[id])
  {
    if step.Commit? {
      CommitEvolves(s.db, step.tx, step.eventId, step.eventId', s.clock, id);
    } else {
      assert s'.db.items == s.db.items;
    }
  }

  lemma CommitEvolves(db: Database, tx: Tx, eventId: nat, eventId': nat, now: Time, id: Id)
    requires TruthInv(db, now) && Sound(db, tx, now) && id in db.items
    ensures var r := Apply(db, tx, eventId, eventId', now);
      r.Ok? ==> id in r.value.items && Evolves(db.items[id], r.value.items[id])
  {
    ApplyKeepsTruth(db, tx, eventId, eventId', now);
  }

  lemma {:induction false} RunKeepsHistory(policy: Policy, worlds: seq<World>, steps: seq<Step>, a: nat, b: nat)
    requires Run(policy, worlds, steps) && Init(worlds[0]) && a <= b < |worlds|
    ensures History(worlds[a].db.items, worlds[b].db.items)
    decreases b - a
  {
    if a < b {
      RunKeepsHistory(policy, worlds, steps, a, b - 1);
      forall id | id in worlds[b - 1].db.items
        ensures id in worlds[b].db.items
        ensures var x, y := worlds[b - 1].db.items[id], worlds[b].db.items[id];
          y.owner == x.owner && y.kind == x.kind && y.version == x.version + (if y.status == x.status then 0 else 1)
      {
        StatusChangeRaisesVersion(policy, worlds, steps, b - 1, id);
      }
    }
  }

  // ----- proposals -----

  /** Active items, their evidence and the outbox stay as they are; a new item is a candidate. */
  ghost predicate FactsUntouched(before: Database, after: Database) {
    && after.outbox == before.outbox
    && (forall id :: id in before.items && before.items[id].status != Candidate ==> id in after.items && after.items[id] == before.items[id])
    && (forall id :: id in before.items ==> id in after.items && after.items[id].status == before.items[id].status
                                            && after.items[id].version == before.items[id].version)
    && (forall id :: id in after.items && id !in before.items ==> after.items[id].status == Candidate)
    && (forall k :: k in before.evidence ==> k in after.evidence && after.evidence[k] == before.evidence[k])
    && (forall k :: k in after.evidence && k !in before.evidence ==>
          after.evidence[k].memoryId in after.items && after.items[after.evidence[k].memoryId].status == Candidate)
  }

  /** A proposal plans either more evidence for the candidate it matched, or a new candidate. */
  lemma ProposalPlans(policy: Policy, p: Proposal, now: Time, exact: Option<MemoryItem>, actives: seq<MemoryItem>, newId: Id)
    requires exact.Some? ==> exact.value.status == Candidate
    requires exact.None? ==> forall i :: 0 <= i < |actives| ==> actives[i].status == Active
    ensures var plan := PlanWrite(policy, p, Candidate, now, exact, actives, newId);
      plan.Ok? ==> match plan.value
        case AddEvidence(id, _, expected) => exact.Some? && id == exact.value.id && expected == Some(exact.value.version)
        case Create(item, _) => item.id == newId && item.status == Candidate && item.supersedes.None?
        case _ => false
  {
    var existing := if exact.Some? then [exact.value] else actives;
    var d := MemoryCommands.Decide(policy, p, existing);
    if d.existing.Some? {
      var i :| 0 <= i < |existing| && existing[i] == d.existing.value;
    }
  }

  /** A proposal reads at `a`, lists at `b`, and commits at `n`, with confirmations and
      anything else in between. */
  lemma ProposalsNeverTouchFacts(policy: Policy, worlds: seq<World>, steps: seq<Step>, a: nat, b: nat, n: nat,
                                 p: Proposal, newId: Id, exact: Option<MemoryItem>, actives: seq<MemoryItem>,
                                 eventId: nat, eventId': nat)
    requires Run(policy, worlds, steps) && Init(worlds[0]) && a <= b <= n < |worlds|
    requires IsExact(worlds[a].db.items, p.owner, p.kind, policy.normalize(p.content), Candidate, worlds[a].clock, exact)
    requires exact.None? ==> IsActiveListing(worlds[b].db.items, [p.owner], worlds[a].clock, actives)
    ensures var plan := PlanWrite(policy, p, Candidate, worlds[a].clock, exact, actives, newId);
      plan.Ok? ==>
        var r := Apply(worlds[n].db, plan.value, eventId, eventId', worlds[n].clock);
        r.Ok? ==> FactsUntouched(worlds[n].db, r.value)
  {
    var plan := PlanWrite(policy, p, Candidate, worlds[a].clock, exact, actives, newId);
    ProposalPlans(policy, p, worlds[a].clock, exact, actives, newId);
    RunKeepsHistory(policy, worlds, steps, a, n);
    if plan.Ok? { PlannedProposalTouchesNoFact(worlds[n].db, plan.value, exact, eventId, eventId', worlds[n].clock); }
  }

  lemma PlannedProposalTouchesNoFact(db: Database, tx: Tx, exact: Option<MemoryItem>, eventId: nat, eventId': nat, now: Time)
    requires exact.Some? && exact.value.id in db.items && db.items[exact.value.id].version == exact.value.version ==>
      db.items[exact.value.id].status == Candidate
    requires match tx
      case AddEvidence(id, _, expected) => exact.Some? && id == exact.value.id && expected == Some(exact.value.version)
      case Create(item, _) => item.status == Candidate && item.supersedes.None?
      case _ => false
    ensures var r := Apply(db, tx, eventId, eventId', now); r.Ok? ==> FactsUntouched(db, r.value)
  {}
}
