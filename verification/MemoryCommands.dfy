/** Write proposals, the conflict policy and the commands that turn a read snapshot into
    one transaction (memory/conflict_service.py, memory/command_service.py). */
module MemoryCommands {
  import opened Prelude
  import opened MemoryDomain
  import opened MemoryStore

  datatype Verdict = Duplicate | Conflict | Uncertain

  /** Text normalization, the token-overlap test and the optional semantic resolver are
      arbitrary functions here. */
  datatype Policy = Policy(
    normalize: string -> string,
    similar: (string, string) -> bool,
    resolver: Option<(string, string) -> Verdict>)

  datatype Proposal = Proposal(
    content: string, kind: Kind, owner: OwnerKey, sourceType: SourceType, rows: seq<Evidence>,
    confidence: real, salience: real, explicit: bool, validUntil: Option<Time>, conflictsWith: Option<Id>)

  datatype Action = CreateNew | MergeExact | MergeSemantic | Replace | KeepCandidate

  datatype ConflictDecision = ConflictDecision(action: Action, existing: Option<MemoryItem>)

  predicate Comparable(p: Proposal, item: MemoryItem) {
    item.owner == p.owner && item.kind == p.kind && !Terminal(item.status)
  }

  /** The first member satisfying the test, in sequence order. */
  function First(rows: seq<MemoryItem>, test: MemoryItem -> bool): (r: Option<MemoryItem>)
    ensures r.None? <==> forall i :: 0 <= i < |rows| ==> !test(rows[i])
    ensures r.Some? ==> exists i :: 0 <= i < |rows| && rows[i] == r.value && test(rows[i])
                                 && forall j :: 0 <= j < i ==> !test(rows[j])
  {
    if rows == [] then None
    else if test(rows[0]) then Some(rows[0])
    else
      var later := First(rows[1..], test);
      assert forall j :: 1 <= j < |rows| ==> rows[j] == rows[1..][j - 1];
      assert later.Some? ==> exists i :: 1 <= i < |rows| && rows[i] == later.value && test(rows[i])
                                 && forall j :: 0 <= j < i ==> !test(rows[j]) by {
        if later.Some? {
          var i :| 0 <= i < |rows[1..]| && rows[1..][i] == later.value && test(rows[1..][i])
                   && forall j :: 0 <= j < i ==> !test(rows[1..][j]);
          assert forall j :: 1 <= j < i + 1 ==> rows[j] == rows[1..][j - 1];
          assert rows[i + 1] == later.value;
        }
      }
      later
  }

  /** `MemoryConflictService.decide`: an exact match beats a similar one, which beats the
      correction a trusted caller names. */
  function Decide(policy: Policy, p: Proposal, existing: seq<MemoryItem>): (d: ConflictDecision)
    ensures d.existing.Some? ==> d.existing.value in existing && Comparable(p, d.existing.value)
    ensures d.existing.None? <==> d.action == CreateNew
    ensures d.action == MergeExact <==>
      exists i :: 0 <= i < |existing| && Comparable(p, existing[i]) && existing[i].normalized == policy.normalize(p.content)
    ensures d.action == MergeExact ==> d.existing.value.normalized == policy.normalize(p.content)
    ensures d.action == KeepCandidate ==> policy.resolver.Some?
    ensures d.action == Replace && policy.resolver.None? ==> p.conflictsWith == Some(d.existing.value.id)
  {
    var normalized := policy.normalize(p.content);
    var exact := First(existing, (item: MemoryItem) => Comparable(p, item) && item.normalized == normalized);
    if exact.Some? then ConflictDecision(MergeExact, exact)
    else
      var near := First(existing, (item: MemoryItem) => Comparable(p, item) && policy.similar(p.content, item.content));
      if near.Some? then
        var verdict := if policy.resolver.Some? then policy.resolver.value(near.value.content, p.content) else Duplicate;
        match verdict
        case Conflict => ConflictDecision(Replace, near)
        case Uncertain => ConflictDecision(KeepCandidate, near)
        case Duplicate => ConflictDecision(MergeSemantic, near)
      else
        var named := if p.conflictsWith.None? then None
                     else First(existing, (item: MemoryItem) => Comparable(p, item) && item.id == p.conflictsWith.value);
        if named.Some? then ConflictDecision(Replace, named) else ConflictDecision(CreateNew, None)
  }

  function BindEvidence(rows: seq<Evidence>, memoryId: Id): seq<Evidence> {
    seq(|rows|, i requires 0 <= i < |rows| => rows[i].(id := Bound(memoryId, rows[i].id), memoryId := memoryId))
  }

  /** Authorization and the explicit-request rule; Ok carries the status a new item gets. */
  function Admit(p: Proposal, ctx: Context, remember: bool): Result<Status, MemoryError> {
    if !ctx.Permits(p.owner) then Err(ScopeDenied)
    else if remember then
      if p.explicit && (p.sourceType == ExplicitUser || p.sourceType == LegacyImport) then Ok(Active) else Err(InvalidValue)
    else Ok(Candidate)
  }

  /** A review candidate only ever merges into another candidate. */
  function Reviewed(d: ConflictDecision, status: Status): ConflictDecision {
    if status == Candidate && !(d.action == MergeExact && d.existing.Some? && d.existing.value.status == Candidate)
    then ConflictDecision(CreateNew, None) else d
  }

  /** `_create_or_merge` from its reads: the exact match, or else the active listing. */
  function PlanWrite(policy: Policy, p: Proposal, status: Status, now: Time,
                     exact: Option<MemoryItem>, actives: seq<MemoryItem>, newId: Id): Result<Tx, MemoryError>
  {
    var normalized := policy.normalize(p.content);
    var d := Reviewed(Decide(policy, p, if exact.Some? then [exact.value] else actives), status);
    if d.existing.Some? && (d.action == MergeExact || d.action == MergeSemantic) then
      Ok(AddEvidence(d.existing.value.id, BindEvidence(p.rows, d.existing.value.id), Some(d.existing.value.version)))
    else
      var status' := if d.action == KeepCandidate then Candidate else status;
      var replaced := if d.action == Replace then d.existing else None;
      var item := MemoryItem(newId, p.owner, p.kind, p.content, normalized, status', p.confidence, p.salience,
        now, p.validUntil, if status' == Active then Some(now) else None,
        if replaced.Some? then Some(replaced.value.id) else None,
        if replaced.Some? then replaced.value.version + 1 else 1, now);
      if !item.WellFormed() then Err(InvalidValue)
      else if replaced.Some? then Ok(Supersede(replaced.value.id, item, BindEvidence(p.rows, newId), replaced.value.version))
      else Ok(Create(item, BindEvidence(p.rows, newId)))
  }

  /** The commands that start from one item. */
  datatype ItemCommand =
    | Confirm(id: Id)
    | Reject(id: Id)
    | Revoke(id: Id)
    | Update(id: Id, content: string, rows: seq<Evidence>, newId: Id)

  function PlanItem(policy: Policy, items: Items, ctx: Context, command: ItemCommand, now: Time): Result<Tx, MemoryError> {
    if command.id !in items then Err(NotFound)
    else
      var item := items[command.id];
      if !ctx.Permits(item.owner) then Err(ScopeDenied)
      else match command
        case Confirm(id) =>
          if item.validUntil.Some? && item.validUntil.value <= now then Err(InvalidValue)
          else Ok(Transition(id, Active, item.version, None))
        case Reject(id) => Ok(Transition(id, Rejected, item.version, None))
        case Revoke(id) => Ok(Transition(id, Revoked, item.version, None))
        case Update(id, content, rows, newId) =>
          if item.status != Active || policy.normalize(content) == "" then Err(InvalidValue)
          else
            var revised := MemoryItem(newId, item.owner, item.kind, content, policy.normalize(content), Active,
              item.confidence, item.salience, now, item.validUntil, Some(now), Some(id), item.version + 1, now);
            if !revised.WellFormed() then Err(InvalidValue)
            else Ok(Supersede(id, revised, BindEvidence(rows, newId), item.version))
  }

  /** A plan that failed changed nothing; one that succeeded ran as one transaction. */
  ghost predicate Ran(before: Database, plan: Result<Tx, MemoryError>, eventId: nat, eventId': nat, now: Time,
                      after: Database, r: Result<MemoryItem, MemoryError>)
  {
    match plan
    case Err(e) => r == Err(e) && after == before
    case Ok(tx) => Stored(before, tx, eventId, eventId', now, after, r)
  }

  /** The reads of `_create_or_merge`: the listing is only consulted without an exact match. */
  ghost predicate ReadsOf(items: Items, owner: OwnerKey, kind: Kind, normalized: string, status: Status, now: Time,
                          exact: Option<MemoryItem>, actives: seq<MemoryItem>)
  {
    && IsExact(items, owner, kind, normalized, status, now, exact)
    && (exact.None? ==> IsActiveListing(items, [owner], now, actives))
  }

  ghost predicate WriteRan(policy: Policy, before: Database, p: Proposal, ctx: Context, remember: bool, newId: Id,
                        eventId: nat, eventId': nat, now: Time, after: Database, r: Result<MemoryItem, MemoryError>)
  {
    match Admit(p, ctx, remember)
    case Err(e) => r == Err(e) && after == before
    case Ok(status) =>
      if policy.normalize(p.content) == "" then r == Err(InvalidValue) && after == before
      else exists exact, actives ::
        && ReadsOf(before.items, p.owner, p.kind, policy.normalize(p.content), status, now, exact, actives)
        && Ran(before, PlanWrite(policy, p, status, now, exact, actives, newId), eventId, eventId', now, after, r)
  }

  predicate Contains(outer: string, inner: string) {
    exists tail :: 0 <= tail <= |outer| && inner <= outer[tail..]
  }

  predicate Overlaps(item: MemoryItem, normalized: string) {
    Contains(item.normalized, normalized) || Contains(normalized, item.normalized)
  }

  /** The service over one repository, each command running without interference. */
  class MemoryCommandService {
    const policy: Policy
    const repository: PostgresMemoryRepository

    constructor (policy: Policy, repository: PostgresMemoryRepository)
      ensures this.policy == policy && this.repository == repository
    {
      this.policy, this.repository := policy, repository;
    }

    function Plan(items: Items, ctx: Context, command: ItemCommand, now: Time): Result<Tx, MemoryError> {
      PlanItem(policy, items, ctx, command, now)
    }

    method Owned(id: Id, ctx: Context) returns (r: Result<MemoryItem, MemoryError>)
      ensures r == if id !in repository.items then Err(NotFound)
                   else if !ctx.Permits(repository.items[id].owner) then Err(ScopeDenied)
                   else Ok(repository.items[id])
    {
      var item := repository.Get(id);
      if item.None? { return Err(NotFound); }
      if !ctx.Permits(item.value.owner) { return Err(ScopeDenied); }
      r := Ok(item.value);
    }

    method ConfirmItem(id: Id, ctx: Context, eventId: nat, now: Time) returns (r: Result<MemoryItem, MemoryError>)
      modifies repository
      ensures Ran(old(repository.Db()), Plan(old(repository.items), ctx, Confirm(id), now), eventId, 0, now, repository.Db(), r)
    {
      var item := Owned(id, ctx);
      if item.Err? { return item; }
      if item.value.validUntil.Some? && item.value.validUntil.value <= now { return Err(InvalidValue); }
      r := repository.Transition(id, Active, item.value.version, None, eventId, now);
    }

    method RejectItem(id: Id, ctx: Context, eventId: nat, now: Time) returns (r: Result<MemoryItem, MemoryError>)
      modifies repository
      ensures Ran(old(repository.Db()), Plan(old(repository.items), ctx, Reject(id), now), eventId, 0, now, repository.Db(), r)
    {
      var item := Owned(id, ctx);
      if item.Err? { return item; }
      r := repository.Transition(id, Rejected, item.value.version, None, eventId, now);
    }

    method RevokeItem(id: Id, ctx: Context, eventId: nat, now: Time) returns (r: Result<MemoryItem, MemoryError>)
      modifies repository
      ensures Ran(old(repository.Db()), Plan(old(repository.items), ctx, Revoke(id), now), eventId, 0, now, repository.Db(), r)
    {
      var item := Owned(id, ctx);
      if item.Err? { return item; }
      r := repository.Transition(id, Revoked, item.value.version, None, eventId, now);
    }

    method UpdateItem(id: Id, content: string, ctx: Context, rows: seq<Evidence>, newId: Id,
                      eventId: nat, eventId': nat, now: Time) returns (r: Result<MemoryItem, MemoryError>)
      modifies repository
      ensures Ran(old(repository.Db()), Plan(old(repository.items), ctx, Update(id, content, rows, newId), now),
                  eventId, eventId', now, repository.Db(), r)
    {
      var item := Owned(id, ctx);
      if item.Err? { return item; }
      var current := item.value;
      if current.status != Active { return Err(InvalidValue); }
      var normalized := policy.normalize(content);
      if normalized == "" { return Err(InvalidValue); }
      var revised := MemoryItem(newId, current.owner, current.kind, content, normalized, Active,
        current.confidence, current.salience, now, current.validUntil, Some(now), Some(id), current.version + 1, now);
      if !revised.WellFormed() { return Err(InvalidValue); }
      r := repository.Supersede(id, revised, BindEvidence(rows, newId), current.version, eventId, eventId', now);
    }

    /** `remember` and `propose`. */
    method Write(p: Proposal, ctx: Context, remember: bool, newId: Id, eventId: nat, eventId': nat, now: Time)
      returns (r: Result<MemoryItem, MemoryError>)
      requires Keyed(repository.Db())
      modifies repository
      ensures WriteRan(policy, old(repository.Db()), p, ctx, remember, newId, eventId, eventId', now, repository.Db(), r)
    {
      var status := Admit(p, ctx, remember);
      if status.Err? { return Err(status.error); }
      var normalized := policy.normalize(p.content);
      if normalized == "" { return Err(InvalidValue); }
      var exact := repository.FindExact(p.owner, p.kind, normalized, status.value, now);
      var actives: seq<MemoryItem> := [];
      if exact.None? { actives := repository.ListActive([p.owner], now); }
      assert ReadsOf(old(repository.Db()).items, p.owner, p.kind, normalized, status.value, now, exact, actives);
      var planned := PlanWrite(policy, p, status.value, now, exact, actives, newId);
      if planned.Err? { return Err(planned.error); }
      r := repository.Execute(planned.value, eventId, eventId', now);
    }

    predicate Forgotten(item: MemoryItem, query: string, ctx: Context, now: Time) {
      && policy.normalize(query) != ""
      && ctx.Permits(item.owner) && item.Retrievable(now) && Overlaps(item, policy.normalize(query))
    }

    /** Revoking a listed item succeeds: its version is current and its event key is unused. */
    method RevokeListed(item: MemoryItem, ctx: Context, eventId: nat, now: Time) returns (updated: MemoryItem)
      requires item.id in repository.items && repository.items[item.id] == item
      requires item.status == Active && ctx.Permits(item.owner)
      requires OutboxBounded(repository.Db()) && eventId !in repository.outbox
      modifies repository
      ensures Transitioned(item, Revoked, now) == Ok(updated)
      ensures repository.items == old(repository.items)[item.id := updated]
      ensures repository.evidence == old(repository.evidence)
      ensures repository.outbox.Keys == old(repository.outbox).Keys + {eventId} && OutboxBounded(repository.Db())
    {
      assert !HasKey(repository.outbox, item.id, item.version + 1, Delete);
      var r := RevokeItem(item.id, ctx, eventId, now);
      updated := r.value;
    }

    predicate OthersSame(before: Items, now: Items, matches: seq<MemoryItem>) {
      forall id :: id in before && id in now && (forall i :: 0 <= i < |matches| ==> matches[i].id != id) ==> now[id] == before[id]
    }

    /** The loop of `forget`: one revocation per match, in order. */
    method RevokeAll(matches: seq<MemoryItem>, ctx: Context, eventIds: seq<nat>, now: Time) returns (revoked: seq<MemoryItem>)
      requires OutboxBounded(repository.Db()) && |matches| <= |eventIds|
      requires forall i, j :: 0 <= i < j < |eventIds| ==> eventIds[i] != eventIds[j]
      requires forall i :: 0 <= i < |eventIds| ==> eventIds[i] !in repository.outbox
      requires DistinctIds(matches)
      requires forall i :: 0 <= i < |matches| ==>
        && matches[i].id in repository.items && repository.items[matches[i].id] == matches[i]
        && matches[i].status == Active && ctx.Permits(matches[i].owner)
      modifies repository
      ensures repository.items.Keys == old(repository.items).Keys && repository.evidence == old(repository.evidence)
      ensures |revoked| == |matches|
      ensures forall i :: 0 <= i < |matches| ==>
        Transitioned(matches[i], Revoked, now) == Ok(revoked[i]) && repository.items[matches[i].id] == revoked[i]
      ensures forall id :: id in repository.items && (forall i :: 0 <= i < |matches| ==> matches[i].id != id) ==>
        repository.items[id] == old(repository.items)[id]
    {
      revoked := [];
      ghost var before := repository.items;
      while |revoked| < |matches|
        invariant |revoked| <= |matches|
        invariant repository.items.Keys == before.Keys && repository.evidence == old(repository.evidence)
        invariant OutboxBounded(repository.Db())
        invariant forall j :: |revoked| <= j < |eventIds| ==> eventIds[j] !in repository.outbox
        invariant forall j :: |revoked| <= j < |matches| ==> repository.items[matches[j].id] == matches[j]
        invariant forall j :: 0 <= j < |revoked| ==>
          Transitioned(matches[j], Revoked, now) == Ok(revoked[j]) && repository.items[matches[j].id] == revoked[j]
        invariant OthersSame(before, repository.items, matches)
      {
        var updated := RevokeListed(matches[|revoked|], ctx, eventIds[|revoked|], now);
        revoked := revoked + [updated];
      }
    }

    /** `forget`: every retrievable item of the context whose normalized text contains the
        query's or is contained in it is revoked; nothing else changes. */
    method Forget(query: string, ctx: Context, eventIds: seq<nat>, now: Time) returns (revoked: seq<MemoryItem>)
      requires Keyed(repository.Db()) && OutboxBounded(repository.Db())
      requires |eventIds| >= |repository.items|
      requires forall i, j :: 0 <= i < j < |eventIds| ==> eventIds[i] != eventIds[j]
      requires forall i :: 0 <= i < |eventIds| ==> eventIds[i] !in repository.outbox
      modifies repository
      ensures repository.items.Keys == old(repository.items).Keys && repository.evidence == old(repository.evidence)
      ensures forall id :: id in repository.items ==>
        if Forgotten(old(repository.items)[id], query, ctx, now)
        then Transitioned(old(repository.items)[id], Revoked, now) == Ok(repository.items[id]) && repository.items[id] in revoked
        else repository.items[id] == old(repository.items)[id]
    {
      var normalized := policy.normalize(query);
      if normalized == "" { return []; }
      var owners := ctx.AllowedOwners();
      var active := repository.ListActive(owners, now);
      ghost var before := repository.items;
      var matches := Overlapping(active, normalized);
      ListingFits(before, active, owners, now);
      forall i | 0 <= i < |matches| ensures matches[i] in active && matches[i] in matches {}
      revoked := RevokeAll(matches, ctx, eventIds, now);
      ForgetEffect(before, repository.items, owners, active, normalized, revoked, now);
    }
  }

  ghost predicate DistinctIds(rows: seq<MemoryItem>) {
    forall i, j :: 0 <= i < j < |rows| ==> rows[i].id != rows[j].id
  }

  lemma ForgetEffect(before: Items, after: Items, owners: seq<OwnerKey>, active: seq<MemoryItem>, normalized: string,
                     revoked: seq<MemoryItem>, now: Time)
    requires IsActiveListing(before, owners, now, active) && after.Keys == before.Keys
    requires forall k :: k in before ==> before[k].id == k
    requires var matches := Overlapping(active, normalized);
      && |revoked| == |matches|
      && (forall i :: 0 <= i < |matches| ==>
            && Transitioned(matches[i], Revoked, now) == Ok(revoked[i])
            && matches[i].id in after && after[matches[i].id] == revoked[i])
      && (forall id :: id in after && (forall i :: 0 <= i < |matches| ==> matches[i].id != id) ==> after[id] == before[id])
    ensures forall id :: id in before ==>
      if before[id].owner in owners && before[id].Retrievable(now) && Overlaps(before[id], normalized)
      then Transitioned(before[id], Revoked, now) == Ok(after[id]) && after[id] in revoked
      else after[id] == before[id]
  {
    var matches := Overlapping(active, normalized);
    forall id | id in before
      ensures if before[id].owner in owners && before[id].Retrievable(now) && Overlaps(before[id], normalized)
        then Transitioned(before[id], Revoked, now) == Ok(after[id]) && after[id] in revoked
        else after[id] == before[id]
    {
      if before[id].owner in owners && before[id].Retrievable(now) && Overlaps(before[id], normalized) {
        assert before[id] in active && before[id] in matches;
        var i :| 0 <= i < |matches| && matches[i] == before[id];
        assert revoked[i] == after[id];
      } else {
        forall i | 0 <= i < |matches| ensures matches[i].id != id {
          assert matches[i] in matches && matches[i] in active;
        }
      }
    }
  }

  /** The comprehension of `forget`. */
  function Overlapping(rows: seq<MemoryItem>, normalized: string): (matches: seq<MemoryItem>)
    ensures forall x :: x in matches <==> x in rows && Overlaps(x, normalized)
    ensures |matches| <= |rows|
    ensures DistinctIds(rows) ==> DistinctIds(matches)
  {
    if rows == [] then [] else
      var rest := Overlapping(rows[1..], normalized);
      assert DistinctIds(rows) ==> DistinctIds(rows[1..]);
      assert forall i :: 0 <= i < |rest| ==> rest[i] in rest && rest[i] in rows[1..];
      if Overlaps(rows[0], normalized) then [rows[0]] + rest else rest
  }

  lemma ListingFits(items: Items, rows: seq<MemoryItem>, owners: seq<OwnerKey>, now: Time)
    requires IsActiveListing(items, owners, now, rows)
    ensures |rows| <= |items|
    ensures DistinctIds(rows)
  {
    var ids := seq(|rows|, i requires 0 <= i < |rows| => rows[i].id);
    DistinctFits(ids, items.Keys);
  }

  lemma {:induction false} DistinctFits(ids: seq<nat>, s: set<nat>)
    requires forall i :: 0 <= i < |ids| ==> ids[i] in s
    requires forall i, j :: 0 <= i < j < |ids| ==> ids[i] != ids[j]
    ensures |ids| <= |s|
  {
    if ids != [] {
      DistinctFits(ids[1..], s - {ids[0]});
    }
  }
}
