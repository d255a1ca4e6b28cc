/** Candidates for one statement and the times they are valid: which commands, run one after
    another, keep those times apart (memory/command_service.py). */
module MemoryWindows {
  import opened Prelude
  import opened MemoryDomain
  import opened MemoryStore
  import opened MemoryCommands
  import opened MemorySystem
  import opened MemoryOutbox
  import opened MemoryConvergence

  ghost predicate SameClaim(x: MemoryItem, y: MemoryItem) {
    x.owner == y.owner && x.kind == y.kind && x.normalized == y.normalized
  }

  ghost predicate Clash(items: Items, x: Id, y: Id, t: Time) {
    && x in items && y in items && x != y
    && items[x].status == Candidate && items[y].status == Candidate && SameClaim(items[x], items[y])
    && items[x].InWindow(t) && items[y].InWindow(t)
  }

  /** No instant lies in the windows of two candidates for the same statement. */
  ghost predicate WindowsDisjoint(items: Items) {
    forall x, y, t :: !Clash(items, x, y, t)
  }

  /** No candidate for the statement is valid now. */
  ghost predicate NoCandidate(items: Items, owner: OwnerKey, kind: Kind, normalized: string, now: Time) {
    IsExact(items, owner, kind, normalized, Candidate, now, None)
  }

  /** A new candidate starting now keeps windows disjoint exactly when no candidate for its
      statement is valid now: the lookup every proposal makes first. */
  lemma NewCandidateFits(items: Items, item: MemoryItem, now: Time)
    requires WindowsDisjoint(items) && item.id !in items && item.status == Candidate && item.validFrom == now && item.WellFormed()
    requires forall id :: id in items ==> items[id].id == id && items[id].validFrom <= now
    ensures WindowsDisjoint(items[item.id := item]) <==> NoCandidate(items, item.owner, item.kind, item.normalized, now)
  {
    var after := items[item.id := item];
    if !NoCandidate(items, item.owner, item.kind, item.normalized, now) {
      var k :| k in items && MatchesExact(items[k], item.owner, item.kind, item.normalized, Candidate, now);
      assert Clash(after, k, item.id, now);
    }
    forall x: Id, y: Id, t | Clash(after, x, y, t)
      ensures Clash(items, x, y, t)
        || exists k :: k in items && MatchesExact(items[k], item.owner, item.kind, item.normalized, Candidate, now)
    {
      if x == item.id || y == item.id {
        assert MatchesExact(items[if x == item.id then y else x], item.owner, item.kind, item.normalized, Candidate, now);
      }
    }
  }

  // ----- one command -----

  /** One service command run without interference. */
  datatype Solo =
    | Writing(p: Proposal, ctx: Context, remember: bool, newId: Id)
    | OnItem(command: ItemCommand, ctx: Context)
    | Console(id: Id, target: Status, version: nat, guard: ConsoleGuard)

  ghost predicate SoloStep(policy: Policy, before: Database, solo: Solo, eventId: nat, eventId': nat, now: Time, after: Database) {
    match solo
    case Writing(p, ctx, remember, newId) =>
      exists r :: WriteRan(policy, before, p, ctx, remember, newId, eventId, eventId', now, after, r)
    case OnItem(command, ctx) =>
      exists r :: Ran(before, PlanItem(policy, before.items, ctx, command, now), eventId, eventId', now, after, r)
    case Console(id, target, version, guard) =>
      && target in {Active, Rejected, Revoked}
      && exists r :: Stored(before, Tx.Transition(id, target, version, Some(guard)), eventId, eventId', now, after, r)
  }

  predicate AddsCandidate(tx: Tx) {
    tx.Create? && tx.item.status == Candidate
  }

  lemma EvolvedWindows(before: Items, after: Items)
    requires WindowsDisjoint(before)
    requires forall id :: id in before ==> id in after && Evolves(before[id], after[id])
    requires forall id :: id in after && after[id].status == Candidate ==> id in before
    ensures WindowsDisjoint(after)
  {
    forall id | id in after && after[id].status == Candidate ensures Evolves(before[id], after[id]) {}
    forall x, y, t ensures Clash(after, x, y, t) ==> Clash(before, x, y, t) {}
  }

  lemma NewCandidatesAreCreated(before: Database, tx: Tx, eventId: nat, eventId': nat, now: Time)
    requires Sound(before, tx, now) && !AddsCandidate(tx)
    ensures var r := Apply(before, tx, eventId, eventId', now);
      r.Ok? ==> forall id :: id in r.value.items && r.value.items[id].status == Candidate ==> id in before.items
  {}

  /** A stored transaction keeps windows disjoint unless it adds a candidate next to one. */
  lemma StoredFitsIff(before: Database, tx: Tx, eventId: nat, eventId': nat, now: Time, after: Database,
                      r: Result<MemoryItem, MemoryError>)
    requires TruthInv(before, now) && Sound(before, tx, now) && Stored(before, tx, eventId, eventId', now, after, r)
    requires WindowsDisjoint(before.items) && r.Ok? && (AddsCandidate(tx) ==> tx.item.validFrom == now)
    ensures TruthInv(after, now)
    ensures WindowsDisjoint(after.items) <==>
      (AddsCandidate(tx) ==> NoCandidate(before.items, tx.item.owner, tx.item.kind, tx.item.normalized, now))
  {
    ApplyKeepsTruth(before, tx, eventId, eventId', now);
    if AddsCandidate(tx) {
      NewCandidateFits(before.items, tx.item, now);
    } else {
      NewCandidatesAreCreated(before, tx, eventId, eventId', now);
      EvolvedWindows(before.items, after.items);
    }
  }

  /** What is decided for a write before the rule for candidates under review. */
  function DecisionOf(policy: Policy, p: Proposal, exact: Option<MemoryItem>, actives: seq<MemoryItem>): ConflictDecision {
    MemoryCommands.Decide(policy, p, if exact.Some? then [exact.value] else actives)
  }

  /** A write adds a candidate in two cases: a proposal whose lookup found none, and a remembered
      statement the resolver was uncertain about. */
  lemma WritePlans(policy: Policy, items: Items, p: Proposal, status: Status, now: Time, exact: Option<MemoryItem>,
                   actives: seq<MemoryItem>, newId: Id)
    requires status == Active || status == Candidate
    requires ReadsOf(items, p.owner, p.kind, policy.normalize(p.content), status, now, exact, actives)
    ensures var plan := PlanWrite(policy, p, status, now, exact, actives, newId);
      plan.Ok? ==>
        && (AddsCandidate(plan.value) ==>
              var item := plan.value.item;
              && item.id == newId && item.owner == p.owner && item.kind == p.kind && item.normalized == policy.normalize(p.content)
              && item.validFrom == now)
        && (status == Candidate && AddsCandidate(plan.value) ==>
              NoCandidate(items, p.owner, p.kind, policy.normalize(p.content), now))
        && (status == Active ==> (AddsCandidate(plan.value) <==> DecisionOf(policy, p, exact, actives).action == KeepCandidate))
  {
    var existing := if exact.Some? then [exact.value] else actives;
    if exact.Some? && status == Candidate {
      assert Comparable(p, existing[0]) && existing[0].normalized == policy.normalize(p.content);
    }
  }

  /** A write that returns an item keeps windows disjoint if and only if it is not one that the
      resolver was uncertain about while a candidate for its statement was valid. */
  lemma WriteKeepsWindowsIff(policy: Policy, before: Database, p: Proposal, status: Status, exact: Option<MemoryItem>,
                             actives: seq<MemoryItem>, newId: Id, eventId: nat, eventId': nat, now: Time, after: Database,
                             r: Result<MemoryItem, MemoryError>)
    requires TruthInv(before, now) && WindowsDisjoint(before.items) && (status == Active || status == Candidate)
    requires ReadsOf(before.items, p.owner, p.kind, policy.normalize(p.content), status, now, exact, actives)
    requires Ran(before, PlanWrite(policy, p, status, now, exact, actives, newId), eventId, eventId', now, after, r) && r.Ok?
    ensures TruthInv(after, now)
    ensures WindowsDisjoint(after.items) <==>
      (status == Active && DecisionOf(policy, p, exact, actives).action == KeepCandidate ==>
         NoCandidate(before.items, p.owner, p.kind, policy.normalize(p.content), now))
  {
    var plan := PlanWrite(policy, p, status, now, exact, actives, newId);
    PlanWriteIsSound(policy, p, status, now, exact, actives, newId, before, now);
    WritePlans(policy, before.items, p, status, now, exact, actives, newId);
    StoredFitsIff(before, plan.value, eventId, eventId', now, after, r);
  }

  /** A remembered statement was stored as a candidate while one for it was valid. */
  ghost predicate KeptSecond(policy: Policy, before: Database, solo: Solo, now: Time, after: Database) {
    && solo.Writing? && solo.remember
    && solo.newId !in before.items && solo.newId in after.items && after.items[solo.newId].status == Candidate
    && !NoCandidate(before.items, solo.p.owner, solo.p.kind, policy.normalize(solo.p.content), now)
  }

  lemma CreatedIsNew(before: Database, tx: Tx, eventId: nat, eventId': nat, now: Time, newId: Id)
    requires Sound(before, tx, now) && newId !in before.items
    ensures var r := Apply(before, tx, eventId, eventId', now);
      r.Ok? && newId in r.value.items && r.value.items[newId].status == Candidate ==> AddsCandidate(tx) && tx.item.id == newId
  {}

  lemma WrittenKeepsWindowsIff(policy: Policy, before: Database, p: Proposal, ctx: Context, remember: bool, newId: Id,
                               eventId: nat, eventId': nat, now: Time, after: Database, r: Result<MemoryItem, MemoryError>)
    requires TruthInv(before, now) && WindowsDisjoint(before.items)
    requires WriteRan(policy, before, p, ctx, remember, newId, eventId, eventId', now, after, r)
    ensures TruthInv(after, now)
    ensures WindowsDisjoint(after.items) <==> !KeptSecond(policy, before, Writing(p, ctx, remember, newId), now, after)
    ensures policy.resolver.None? ==> WindowsDisjoint(after.items)
  {
    var admitted := Admit(p, ctx, remember);
    if r.Ok? {
      var status := admitted.value;
      var exact, actives :|
        && ReadsOf(before.items, p.owner, p.kind, policy.normalize(p.content), status, now, exact, actives)
        && Ran(before, PlanWrite(policy, p, status, now, exact, actives, newId), eventId, eventId', now, after, r);
      var plan := PlanWrite(policy, p, status, now, exact, actives, newId);
      PlanWriteIsSound(policy, p, status, now, exact, actives, newId, before, now);
      WritePlans(policy, before.items, p, status, now, exact, actives, newId);
      WriteKeepsWindowsIff(policy, before, p, status, exact, actives, newId, eventId, eventId', now, after, r);
      if newId !in before.items { CreatedIsNew(before, plan.value, eventId, eventId', now, newId); }
    }
  }

  lemma OthersKeepWindows(policy: Policy, before: Database, solo: Solo, eventId: nat, eventId': nat, now: Time, after: Database)
    requires TruthInv(before, now) && WindowsDisjoint(before.items) && !solo.Writing?
    requires SoloStep(policy, before, solo, eventId, eventId', now, after)
    ensures TruthInv(after, now) && WindowsDisjoint(after.items)
  {
    match solo
    case OnItem(command, ctx) =>
      var plan := PlanItem(policy, before.items, ctx, command, now);
      var r :| Ran(before, plan, eventId, eventId', now, after, r);
      if r.Ok? {
        PlanItemIsSound(policy, before, ctx, command, now);
        StoredFitsIff(before, plan.value, eventId, eventId', now, after, r);
      }
    case Console(id, target, version, guard) =>
      var tx := Tx.Transition(id, target, version, Some(guard));
      var r :| Stored(before, tx, eventId, eventId', now, after, r);
      if r.Ok? { StoredFitsIff(before, tx, eventId, eventId', now, after, r); }
  }

  lemma SoloKeepsWindowsIff(policy: Policy, before: Database, solo: Solo, eventId: nat, eventId': nat, now: Time, after: Database)
    requires TruthInv(before, now) && WindowsDisjoint(before.items)
    requires SoloStep(policy, before, solo, eventId, eventId', now, after)
    ensures TruthInv(after, now)
    ensures WindowsDisjoint(after.items) <==> !KeptSecond(policy, before, solo, now, after)
    ensures policy.resolver.None? ==> WindowsDisjoint(after.items)
  {
    if solo.Writing? {
      var r :| WriteRan(policy, before, solo.p, solo.ctx, solo.remember, solo.newId, eventId, eventId', now, after, r);
      WrittenKeepsWindowsIff(policy, before, solo.p, solo.ctx, solo.remember, solo.newId, eventId, eventId', now, after, r);
    } else {
      OthersKeepWindows(policy, before, solo, eventId, eventId', now, after);
    }
  }

  // ----- sequential runs -----

  /** One command of a sequential run: when it ran and what it did. */
  datatype SoloCall = SoloCall(solo: Solo, eventId: nat, eventId': nat, now: Time)

  ghost predicate Called(policy: Policy, before: Database, call: SoloCall, after: Database) {
    SoloStep(policy, before, call.solo, call.eventId, call.eventId', call.now, after)
  }

  ghost predicate SequentialRun(policy: Policy, dbs: seq<Database>, calls: seq<SoloCall>) {
    && |dbs| == |calls| + 1
    && dbs[0] == Database(map[], map[], map[])
    && (forall i, j :: 0 <= i <= j < |calls| ==> calls[i].now <= calls[j].now)
    && forall i :: 0 <= i < |calls| ==> Called(policy, dbs[i], calls[i], dbs[i + 1])
  }

  lemma TruthLasts(db: Database, now: Time, later: Time)
    requires TruthInv(db, now) && now <= later
    ensures TruthInv(db, later)
  {}

  ghost predicate KeepsSecond(policy: Policy, dbs: seq<Database>, calls: seq<SoloCall>, i: nat)
    requires |dbs| == |calls| + 1 && i < |calls|
  {
    KeptSecond(policy, dbs[i], calls[i].solo, calls[i].now, dbs[i + 1])
  }

  /** In a sequential run with a clock that never runs backwards, no two candidates for one
      statement are ever valid at the same instant if and only if no uncertain statement was
      kept next to a valid candidate for it. Without a resolver there is no such statement. */
  lemma {:induction false} CandidateWindowsDisjointIff(policy: Policy, dbs: seq<Database>, calls: seq<SoloCall>, n: nat)
    requires SequentialRun(policy, dbs, calls) && n < |dbs|
    ensures (forall m :: 0 <= m <= n ==> WindowsDisjoint(dbs[m].items)) <==> forall i :: 0 <= i < n ==> !KeepsSecond(policy, dbs, calls, i)
    ensures (forall m :: 0 <= m <= n ==> WindowsDisjoint(dbs[m].items)) && n > 0 ==> TruthInv(dbs[n], calls[n - 1].now)
    ensures policy.resolver.None? ==> forall m :: 0 <= m <= n ==> WindowsDisjoint(dbs[m].items)
  {
    if n > 0 {
      CandidateWindowsDisjointIff(policy, dbs, calls, n - 1);
      var call := calls[n - 1];
      if forall m :: 0 <= m <= n - 1 ==> WindowsDisjoint(dbs[m].items) {
        if n > 1 {
          assert calls[n - 2].now <= call.now;
          TruthLasts(dbs[n - 1], calls[n - 2].now, call.now);
        }
        assert Called(policy, dbs[n - 1], call, dbs[n]);
        SoloKeepsWindowsIff(policy, dbs[n - 1], call.solo, call.eventId, call.eventId', call.now, dbs[n]);
        assert KeepsSecond(policy, dbs, calls, n - 1) <==> !WindowsDisjoint(dbs[n].items);
      }
    } else {
      assert WindowsDisjoint(dbs[0].items);
    }
  }

  // ----- a run that ends in a clash -----

  const OWNER := OwnerKey(User, "u")
  const CONTEXT := Context("u", "s", None, None, None, None)

  /** Two different statements that resemble each other and whose relation the resolver does not know. */
  predicate Undecided(policy: Policy, a: string, b: string) {
    && a != "" && b != "" && policy.normalize(a) != "" && policy.normalize(b) != ""
    && policy.normalize(a) != policy.normalize(b) && policy.similar(b, a)
    && policy.resolver.Some? && policy.resolver.value(a, b) == Uncertain
  }

  function Said(content: string): Proposal {
    Proposal(content, Fact, OWNER, ExplicitUser, [], 1.0, 1.0, true, None, None)
  }

  function Note(policy: Policy, id: Id, content: string, status: Status): MemoryItem {
    MemoryItem(id, OWNER, Fact, content, policy.normalize(content), status, 1.0, 1.0, 0, None,
      if status == Active then Some(0) else None, None, 1, 0)
  }

  /** The store after the first `n` statements. */
  function Notes(policy: Policy, a: string, b: string, n: nat): Database {
    var outbox := map[0 := Event(0, 1, 1, Upsert, EventStatus.Pending, 0, 0, 0)];
    var first, second, third := Note(policy, 1, a, Active), Note(policy, 2, b, Candidate), Note(policy, 3, b, Candidate);
    if n == 0 then Database(map[], map[], map[])
    else if n == 1 then Database(map[1 := first], map[], outbox)
    else if n == 2 then Database(map[1 := first, 2 := second], map[], outbox)
    else Database(map[1 := first, 2 := second, 3 := third], map[], outbox)
  }

  function Saying(a: string, b: string, n: nat): SoloCall {
    SoloCall(Writing(Said(if n == 0 then a else b), CONTEXT, true, n + 1), 0, 0, 0)
  }

  /** Reads, plan and commit of one remembered statement, put together. */
  lemma {:induction false} SayingIsCalled(policy: Policy, before: Database, p: Proposal, actives: seq<MemoryItem>, item: MemoryItem, after: Database)
    requires Admit(p, CONTEXT, true) == Ok(Active) && policy.normalize(p.content) != ""
    requires ReadsOf(before.items, p.owner, p.kind, policy.normalize(p.content), Active, 0, None, actives)
    requires PlanWrite(policy, p, Active, 0, None, actives, item.id) == Ok(Tx.Create(item, []))
    requires ApplyCreate(before, item, [], 0, 0) == Ok(after) && item.id in after.items && after.items[item.id] == item
    ensures Called(policy, before, SoloCall(Writing(p, CONTEXT, true, item.id), 0, 0, 0), after)
  {
    var r: Result<MemoryItem, MemoryError> := Ok(item);
    assert Ran(before, PlanWrite(policy, p, Active, 0, None, actives, item.id), 0, 0, 0, after, r);
    assert WriteRan(policy, before, p, CONTEXT, true, item.id, 0, 0, 0, after, r);
  }

  lemma {:induction false} FirstIsActive(policy: Policy, a: string, b: string)
    requires Undecided(policy, a, b)
    ensures Called(policy, Notes(policy, a, b, 0), Saying(a, b, 0), Notes(policy, a, b, 1))
  {
    var before, item := Notes(policy, a, b, 0), Note(policy, 1, a, Active);
    assert CONTEXT.Permits(OWNER);
    assert BindEvidence([], 1) == [];
    assert !HasKey(before.outbox, 1, 1, Upsert);
    assert Notes(policy, a, b, 1).outbox == before.outbox[0 := Event(0, 1, 1, Upsert, EventStatus.Pending, 0, 0, 0)];
    SayingIsCalled(policy, before, Said(a), [], item, Notes(policy, a, b, 1));
  }

  lemma {:induction false} LaterPlan(policy: Policy, a: string, b: string, n: nat, actives: seq<MemoryItem>)
    requires Undecided(policy, a, b) && (n == 1 || n == 2) && actives == [Note(policy, 1, a, Active)]
    ensures PlanWrite(policy, Said(b), Active, 0, None, actives, n + 1) == Ok(Tx.Create(Note(policy, n + 1, b, Candidate), []))
  {
    var p := Said(b);
    assert Comparable(p, actives[0]) && actives[0].normalized != policy.normalize(b);
    assert MemoryCommands.Decide(policy, p, actives).action == KeepCandidate;
    assert BindEvidence([], n + 1) == [];
  }

  lemma {:induction false} LaterReads(policy: Policy, a: string, b: string, n: nat, actives: seq<MemoryItem>)
    requires Undecided(policy, a, b) && (n == 1 || n == 2) && actives == [Note(policy, 1, a, Active)]
    ensures ReadsOf(Notes(policy, a, b, n).items, OWNER, Fact, policy.normalize(b), Active, 0, None, actives)
  {
    assert actives[0] in actives;
  }

  lemma {:induction false} LaterStores(policy: Policy, a: string, b: string, n: nat)
    requires n == 1 || n == 2
    ensures var item, after := Note(policy, n + 1, b, Candidate), Notes(policy, a, b, n + 1);
      ApplyCreate(Notes(policy, a, b, n), item, [], 0, 0) == Ok(after) && n + 1 in after.items && after.items[n + 1] == item
  {}

  lemma {:induction false} LaterIsCandidate(policy: Policy, a: string, b: string, n: nat)
    requires Undecided(policy, a, b) && (n == 1 || n == 2)
    ensures Called(policy, Notes(policy, a, b, n), Saying(a, b, n), Notes(policy, a, b, n + 1))
  {
    var actives := [Note(policy, 1, a, Active)];
    assert CONTEXT.Permits(OWNER);
    LaterReads(policy, a, b, n, actives);
    LaterPlan(policy, a, b, n, actives);
    LaterStores(policy, a, b, n);
    SayingIsCalled(policy, Notes(policy, a, b, n), Said(b), actives, Note(policy, n + 1, b, Candidate), Notes(policy, a, b, n + 1));
  }

  lemma {:induction false} SayingNext(policy: Policy, a: string, b: string, n: nat)
    requires Undecided(policy, a, b) && n < 3
    ensures Called(policy, Notes(policy, a, b, n), Saying(a, b, n), Notes(policy, a, b, n + 1))
  {
    if n == 0 { FirstIsActive(policy, a, b); } else { LaterIsCandidate(policy, a, b, n); }
  }

  lemma {:induction false} NotesClash(policy: Policy, a: string, b: string)
    ensures Clash(Notes(policy, a, b, 3).items, 2, 3, 0)
    ensures KeptSecond(policy, Notes(policy, a, b, 2), Saying(a, b, 2).solo, 0, Notes(policy, a, b, 3))
  {
    assert MatchesExact(Notes(policy, a, b, 2).items[2], OWNER, Fact, policy.normalize(b), Candidate, 0);
  }

  /** Whatever the policy, remembering one undecided statement after the other, and the second
      one again, leaves two candidates for it. */
  lemma {:induction false} UncertainTwiceClashes(policy: Policy, a: string, b: string) returns (dbs: seq<Database>, calls: seq<SoloCall>)
    requires Undecided(policy, a, b)
    ensures SequentialRun(policy, dbs, calls) && |calls| == 3
    ensures forall i :: 0 <= i < 3 ==> calls[i] == Saying(a, b, i)
    ensures KeepsSecond(policy, dbs, calls, 2) && Clash(dbs[3].items, 2, 3, 0)
  {
    dbs := seq(4, (i: nat) => Notes(policy, a, b, i));
    calls := seq(3, (i: nat) => Saying(a, b, i));
    NotesClash(policy, a, b);
    forall i | 0 <= i < 3 ensures Called(policy, dbs[i], calls[i], dbs[i + 1]) { SayingNext(policy, a, b, i); }
  }
}
