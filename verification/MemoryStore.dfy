/** The PostgreSQL truth store: item, evidence and outbox rows, and the transactions
    over them (memory/postgres_repository.py). */
module MemoryStore {
  import opened Prelude
  import opened MemoryDomain
  import RowOrder

  // Digests are injective, so a bound evidence id is the pair it is the digest of.
  datatype EvidenceId = Source(n: nat) | Bound(memory: Id, source: EvidenceId)

  datatype Evidence = Evidence(id: EvidenceId, memoryId: Id, sourceType: SourceType, excerpt: string, createdAt: Time)

  datatype IndexOp = Upsert | Delete

  datatype EventStatus = Pending | Processing | Retry | Completed

  datatype Event = Event(
    id: nat, memoryId: Id, version: nat, op: IndexOp,
    status: EventStatus, attempts: nat, nextAttempt: Time, createdAt: Time)

  type Items = map<Id, MemoryItem>
  type EvidenceRows = map<EvidenceId, Evidence>
  type Outbox = map<nat, Event>

  datatype Database = Database(items: Items, evidence: EvidenceRows, outbox: Outbox)

  /** The extra checks of `transition_scoped`: owners the console may touch and the
      lifecycle state it showed. */
  datatype ConsoleGuard = ConsoleGuard(owners: seq<OwnerKey>, expected: Status)

  datatype Tx =
    | Create(item: MemoryItem, rows: seq<Evidence>)
    | Transition(memoryId: Id, target: Status, expected: nat, console: Option<ConsoleGuard>)
    | Supersede(oldId: Id, item: MemoryItem, rows: seq<Evidence>, expected: nat)
    | AddEvidence(memoryId: Id, rows: seq<Evidence>, expectedVersion: Option<nat>)

  /** ON CONFLICT (id) DO NOTHING, row by row; every inserted row belongs to `memoryId`. */
  function InsertEvidence(table: EvidenceRows, memoryId: Id, rows: seq<Evidence>): (r: EvidenceRows)
    ensures forall k :: k in table ==> k in r && r[k] == table[k]
    ensures forall k :: k in r && k !in table ==> r[k].memoryId == memoryId && exists i :: 0 <= i < |rows| && rows[i].id == k
    ensures forall i :: 0 <= i < |rows| ==> rows[i].id in r
    decreases |rows|
  {
    if rows == [] then table
    else
      var row := rows[0];
      InsertEvidence(if row.id in table then table else table[row.id := row.(memoryId := memoryId)], memoryId, rows[1..])
  }

  predicate SameKey(e: Event, memoryId: Id, version: nat, op: IndexOp) {
    e.memoryId == memoryId && e.version == version && e.op == op
  }

  predicate HasKey(outbox: Outbox, memoryId: Id, version: nat, op: IndexOp) {
    exists k :: k in outbox && SameKey(outbox[k], memoryId, version, op)
  }

  /** ON CONFLICT (memory_id, memory_version, operation) DO NOTHING; any other duplicate
      key aborts the transaction. */
  function Schedule(outbox: Outbox, eventId: nat, item: MemoryItem, op: IndexOp, now: Time): Result<Outbox, MemoryError> {
    if HasKey(outbox, item.id, item.version, op) then Ok(outbox)
    else if eventId in outbox then Err(UniqueViolation)
    else Ok(outbox[eventId := Event(eventId, item.id, item.version, op, Pending, 0, now, now)])
  }

  function ApplyCreate(db: Database, item: MemoryItem, rows: seq<Evidence>, eventId: nat, now: Time): Result<Database, MemoryError> {
    if item.id in db.items then Err(VersionConflict)
    else if item.supersedes.Some? && item.supersedes.value !in db.items then Err(InvalidValue)
    else
      var outbox := if item.status == Active then Schedule(db.outbox, eventId, item, Upsert, now) else Ok(db.outbox);
      if outbox.Err? then Err(VersionConflict)
      else Ok(Database(db.items[item.id := item], InsertEvidence(db.evidence, item.id, rows), outbox.value))
  }

  function ConsoleAllows(guard: ConsoleGuard, item: MemoryItem, expected: nat, now: Time): Result<(), MemoryError> {
    if item.owner !in guard.owners then Err(ScopeDenied)
    else if item.version != expected then Err(VersionConflict)
    else if item.status != guard.expected then Err(InvalidTransition)
    else if item.validUntil.Some? && item.validUntil.value <= now then Err(InvalidTransition)
    else Ok(())
  }

  function ApplyTransition(db: Database, memoryId: Id, target: Status, expected: nat, console: Option<ConsoleGuard>,
                           eventId: nat, now: Time): Result<Database, MemoryError>
  {
    if memoryId !in db.items then Err(NotFound)
    else
      var item := db.items[memoryId];
      var allowed := if console.Some? then ConsoleAllows(console.value, item, expected, now) else Ok(());
      if allowed.Err? then Err(allowed.error)
      else if item.version != expected then Err(VersionConflict)
      else
        var updated := Transitioned(item, target, now);
        if updated.Err? then Err(InvalidTransition)
        else
          var op := if target == Active then Upsert else Delete;
          var outbox := Schedule(db.outbox, eventId, updated.value, op, now);
          if outbox.Err? then Err(outbox.error)
          else Ok(db.(items := db.items[memoryId := updated.value], outbox := outbox.value))
  }

  function ApplySupersede(db: Database, oldId: Id, item: MemoryItem, rows: seq<Evidence>, expected: nat,
                          eventId: nat, eventId': nat, now: Time): Result<Database, MemoryError>
  {
    if oldId !in db.items then Err(NotFound)
    else
      var old' := db.items[oldId];
      if old'.version != expected then Err(VersionConflict)
      else if item.supersedes != Some(oldId) || item.owner != old'.owner then Err(InvalidTransition)
      else
        var superseded := Transitioned(old', Superseded, now);
        if superseded.Err? then Err(InvalidTransition)
        else if item.id in db.items then Err(UniqueViolation)
        else
          var first := Schedule(db.outbox, eventId, superseded.value, Delete, now);
          if first.Err? then Err(first.error)
          else
            var second := Schedule(first.value, eventId', item, Upsert, now);
            if second.Err? then Err(second.error)
            else Ok(Database(
              db.items[oldId := superseded.value][item.id := item],
              InsertEvidence(db.evidence, item.id, rows), second.value))
  }

  function ApplyAddEvidence(db: Database, memoryId: Id, rows: seq<Evidence>, expected: Option<nat>, now: Time): Result<Database, MemoryError> {
    if memoryId !in db.items then Err(NotFound)
    else if expected.Some? && db.items[memoryId].version != expected.value then Err(VersionConflict)
    else Ok(db.(
      items := db.items[memoryId := db.items[memoryId].(updatedAt := now)],
      evidence := InsertEvidence(db.evidence, memoryId, rows)))
  }

  /** One committed or rolled-back transaction. */
  function Apply(db: Database, tx: Tx, eventId: nat, eventId': nat, now: Time): Result<Database, MemoryError> {
    match tx
    case Create(item, rows) => ApplyCreate(db, item, rows, eventId, now)
    case Transition(id, target, expected, console) => ApplyTransition(db, id, target, expected, console, eventId, now)
    case Supersede(oldId, item, rows, expected) => ApplySupersede(db, oldId, item, rows, expected, eventId, eventId', now)
    case AddEvidence(id, rows, expected) => ApplyAddEvidence(db, id, rows, expected, now)
  }

  /** The item a transaction returns. */
  function TargetOf(tx: Tx): Id {
    match tx
    case Create(item, _) => item.id
    case Transition(id, _, _, _) => id
    case Supersede(_, item, _, _) => item.id
    case AddEvidence(id, _, _) => id
  }

  /** The transaction committed and its item was returned, or nothing changed at all. */
  ghost predicate Stored(before: Database, tx: Tx, eventId: nat, eventId': nat, now: Time,
                         after: Database, r: Result<MemoryItem, MemoryError>)
  {
    match Apply(before, tx, eventId, eventId', now)
    case Err(e) => r == Err(e) && after == before
    case Ok(db) => after == db && TargetOf(tx) in db.items && r == Ok(db.items[TargetOf(tx)])
  }

  // ----- index events -----

  predicate Ready(e: Event, now: Time) {
    (e.status == Pending || e.status == Retry) && e.nextAttempt <= now
  }

  function ReadyIds(outbox: Outbox, now: Time): set<nat> {
    set k | k in outbox && Ready(outbox[k], now)
  }

  function SetStatus(outbox: Outbox, ids: set<nat>, status: EventStatus): Outbox {
    map k | k in outbox :: if k in ids then outbox[k].(status := status) else outbox[k]
  }

  function Reschedule(e: Event, at: Time): Event {
    e.(status := Retry, attempts := e.attempts + 1, nextAttempt := at)
  }

  // ----- queries -----

  predicate MatchesExact(item: MemoryItem, owner: OwnerKey, kind: Kind, normalized: string, status: Status, now: Time) {
    && item.owner == owner && item.kind == kind && item.normalized == normalized
    && (item.status == Candidate || item.status == Active)
    && item.status == status && item.InWindow(now)
  }

  /** `find_exact` with both lifecycle filters: the most recently updated match. */
  ghost predicate IsExact(items: Items, owner: OwnerKey, kind: Kind, normalized: string, status: Status, now: Time,
                          found: Option<MemoryItem>)
  {
    match found
    case None => forall k :: k in items ==> !MatchesExact(items[k], owner, kind, normalized, status, now)
    case Some(item) =>
      && item.id in items && items[item.id] == item
      && MatchesExact(item, owner, kind, normalized, status, now)
      && forall k :: k in items && MatchesExact(items[k], owner, kind, normalized, status, now)
           ==> items[k].updatedAt < item.updatedAt || (items[k].updatedAt == item.updatedAt && k <= item.id)
  }

  /** `list_active`: the retrievable rows of the owners, each once, newest first. */
  ghost predicate IsActiveListing(items: Items, owners: seq<OwnerKey>, now: Time, rows: seq<MemoryItem>) {
    && (forall i :: 0 <= i < |rows| ==>
          rows[i].id in items && items[rows[i].id] == rows[i] && rows[i].owner in owners && rows[i].Retrievable(now))
    && (forall k :: k in items && items[k].owner in owners && items[k].Retrievable(now) ==> items[k] in rows)
    && (forall i, j :: 0 <= i < j < |rows| ==>
          rows[i].updatedAt > rows[j].updatedAt || (rows[i].updatedAt == rows[j].updatedAt && rows[i].id < rows[j].id))
  }

  /** Every row is stored under its own primary key. */
  ghost predicate Keyed(db: Database) {
    && (forall k :: k in db.items ==> db.items[k].id == k)
    && (forall k :: k in db.outbox ==> db.outbox[k].id == k)
  }

  /** No index event is about a version its item has not reached. */
  ghost predicate OutboxBounded(db: Database) {
    forall k :: k in db.outbox ==>
      && db.outbox[k].memoryId in db.items
      && db.outbox[k].version <= db.items[db.outbox[k].memoryId].version
  }

  class PostgresMemoryRepository {
    var items: Items
    var evidence: EvidenceRows
    var outbox: Outbox

    constructor ()
      ensures Db() == Database(map[], map[], map[])
    {
      items, evidence, outbox := map[], map[], map[];
    }

    function Db(): Database
      reads this
    {
      Database(items, evidence, outbox)
    }

    method Get(memoryId: Id) returns (item: Option<MemoryItem>)
      ensures item.Some? <==> memoryId in items
      ensures item.Some? ==> item.value == items[memoryId]
    {
      item := if memoryId in items then Some(items[memoryId]) else None;
    }

    method InsertEvidenceRows(memoryId: Id, rows: seq<Evidence>)
      modifies this`evidence
      ensures evidence == InsertEvidence(old(evidence), memoryId, rows)
    {
      var i := 0;
      while i < |rows|
        invariant 0 <= i <= |rows|
        invariant InsertEvidence(evidence, memoryId, rows[i..]) == InsertEvidence(old(evidence), memoryId, rows)
      {
        assert rows[i..][0] == rows[i] && rows[i..][1..] == rows[i + 1..];
        if rows[i].id !in evidence {
          evidence := evidence[rows[i].id := rows[i].(memoryId := memoryId)];
        }
        i := i + 1;
      }
    }

    /** False means the statement raised and the transaction must roll back. */
    method ScheduleRow(eventId: nat, item: MemoryItem, op: IndexOp, now: Time) returns (ok: bool)
      modifies this`outbox
      ensures var r := Schedule(old(outbox), eventId, item, op, now);
        ok == r.Ok? && outbox == if r.Ok? then r.value else old(outbox)
    {
      if HasKey(outbox, item.id, item.version, op) { return true; }
      if eventId in outbox { return false; }
      outbox := outbox[eventId := Event(eventId, item.id, item.version, op, Pending, 0, now, now)];
      ok := true;
    }

    method Create(item: MemoryItem, rows: seq<Evidence>, eventId: nat, now: Time)
      returns (r: Result<MemoryItem, MemoryError>)
      modifies this
      ensures Stored(old(Db()), Tx.Create(item, rows), eventId, 0, now, Db(), r)
    {
      var began := (items, evidence, outbox);
      if item.id in items { return Err(VersionConflict); }
      if item.supersedes.Some? && item.supersedes.value !in items { return Err(InvalidValue); }
      items := items[item.id := item];
      InsertEvidenceRows(item.id, rows);
      if item.status == Active {
        var ok := ScheduleRow(eventId, item, Upsert, now);
        if !ok {
          items, evidence, outbox := began.0, began.1, began.2;
          return Err(VersionConflict);
        }
      }
      r := Ok(item);
    }

    method Transition(memoryId: Id, target: Status, expected: nat, console: Option<ConsoleGuard>, eventId: nat, now: Time)
      returns (r: Result<MemoryItem, MemoryError>)
      modifies this
      ensures Stored(old(Db()), Tx.Transition(memoryId, target, expected, console), eventId, 0, now, Db(), r)
    {
      var began := (items, evidence, outbox);
      if memoryId !in items { return Err(NotFound); }
      var item := items[memoryId];
      if console.Some? && item.owner !in console.value.owners { return Err(ScopeDenied); }
      if item.version != expected { return Err(VersionConflict); }
      if console.Some? {
        if item.status != console.value.expected { return Err(InvalidTransition); }
        if item.validUntil.Some? && item.validUntil.value <= now { return Err(InvalidTransition); }
      }
      var updated := Transitioned(item, target, now);
      if updated.Err? { return Err(InvalidTransition); }
      items := items[memoryId := updated.value];
      var ok := ScheduleRow(eventId, updated.value, if target == Active then Upsert else Delete, now);
      if !ok {
        items, evidence, outbox := began.0, began.1, began.2;
        return Err(UniqueViolation);
      }
      r := Ok(updated.value);
    }

    method Supersede(oldId: Id, item: MemoryItem, rows: seq<Evidence>, expected: nat, eventId: nat, eventId': nat, now: Time)
      returns (r: Result<MemoryItem, MemoryError>)
      modifies this
      ensures Stored(old(Db()), Tx.Supersede(oldId, item, rows, expected), eventId, eventId', now, Db(), r)
    {
      var began := (items, evidence, outbox);
      if oldId !in items { return Err(NotFound); }
      var previous := items[oldId];
      if previous.version != expected { return Err(VersionConflict); }
      if item.supersedes != Some(oldId) || item.owner != previous.owner { return Err(InvalidTransition); }
      var superseded := Transitioned(previous, Superseded, now);
      if superseded.Err? { return Err(InvalidTransition); }
      items := items[oldId := superseded.value];
      if item.id in items {
        items := began.0;
        return Err(UniqueViolation);
      }
      items := items[item.id := item];
      InsertEvidenceRows(item.id, rows);
      var ok := ScheduleRow(eventId, superseded.value, Delete, now);
      if ok { ok := ScheduleRow(eventId', item, Upsert, now); }
      if !ok {
        items, evidence, outbox := began.0, began.1, began.2;
        return Err(UniqueViolation);
      }
      r := Ok(item);
    }

    method AddEvidence(memoryId: Id, rows: seq<Evidence>, expected: Option<nat>, now: Time)
      returns (r: Result<MemoryItem, MemoryError>)
      modifies this
      ensures Stored(old(Db()), Tx.AddEvidence(memoryId, rows, expected), 0, 0, now, Db(), r)
    {
      if memoryId !in items { return Err(NotFound); }
      var item := items[memoryId];
      if expected.Some? && item.version != expected.value { return Err(VersionConflict); }
      InsertEvidenceRows(memoryId, rows);
      items := items[memoryId := item.(updatedAt := now)];
      r := Ok(items[memoryId]);
    }

    method Execute(tx: Tx, eventId: nat, eventId': nat, now: Time) returns (r: Result<MemoryItem, MemoryError>)
      modifies this
      ensures Stored(old(Db()), tx, eventId, eventId', now, Db(), r)
    {
      match tx {
        case Create(item, rows) => r := Create(item, rows, eventId, now);
        case Transition(id, target, expected, console) => r := Transition(id, target, expected, console, eventId, now);
        case Supersede(oldId, item, rows, expected) => r := Supersede(oldId, item, rows, expected, eventId, eventId', now);
        case AddEvidence(id, rows, expected) => r := AddEvidence(id, rows, expected, now);
      }
    }

    method FindExact(owner: OwnerKey, kind: Kind, normalized: string, status: Status, now: Time)
      returns (found: Option<MemoryItem>)
      requires Keyed(Db())
      ensures IsExact(items, owner, kind, normalized, status, now, found)
    {
      var matches := set k | k in items && MatchesExact(items[k], owner, kind, normalized, status, now);
      var table := items;
      var newest := (k: nat) => if k in table then -table[k].updatedAt else 0;
      var rows := RowOrder.SelectOrdered(matches, 1, newest, false);
      if rows == [] {
        assert forall k :: k in items && MatchesExact(items[k], owner, kind, normalized, status, now) ==> k in matches;
        return None;
      }
      assert rows[0] in rows;
      forall k | k in items && MatchesExact(items[k], owner, kind, normalized, status, now)
        ensures items[k].updatedAt < items[rows[0]].updatedAt || (items[k].updatedAt == items[rows[0]].updatedAt && k <= rows[0])
      {
        assert k in matches;
        if k != rows[0] { assert k !in rows && RowOrder.Before(rows[0], k, newest, false); }
      }
      found := Some(items[rows[0]]);
    }

    method ListActive(owners: seq<OwnerKey>, now: Time) returns (rows: seq<MemoryItem>)
      requires Keyed(Db())
      ensures IsActiveListing(items, owners, now, rows)
    {
      var matches := set k | k in items && items[k].owner in owners && items[k].Retrievable(now);
      var table := items;
      var newest := (k: nat) => if k in table then -table[k].updatedAt else 0;
      var ids := RowOrder.SelectOrdered(matches, |matches|, newest, true);
      rows := seq(|ids|, i requires 0 <= i < |ids| => if ids[i] in table then table[ids[i]] else Stub());
      forall i | 0 <= i < |ids| ensures ids[i] in matches && rows[i] == items[ids[i]] {}
      forall k | k in matches ensures items[k] in rows {
        var i :| 0 <= i < |ids| && ids[i] == k;
        assert rows[i] == items[k];
      }
      forall i, j | 0 <= i < j < |rows|
        ensures rows[i].updatedAt > rows[j].updatedAt || (rows[i].updatedAt == rows[j].updatedAt && rows[i].id < rows[j].id)
      {
        assert RowOrder.Before(ids[i], ids[j], newest, true);
      }
    }

    /** UPDATE ... status = 'processing' over the oldest ready rows, SKIP LOCKED being
        irrelevant with one synchronizer. */
    method ClaimIndexEvents(limit: int, now: Time) returns (claimed: seq<Event>)
      requires Keyed(Db())
      modifies this`outbox
      ensures forall i :: 0 <= i < |claimed| ==>
        && claimed[i].id in old(outbox) && Ready(old(outbox)[claimed[i].id], now)
        && claimed[i] == old(outbox)[claimed[i].id].(status := Processing)
      ensures forall i, j :: 0 <= i < j < |claimed| ==> claimed[i].id != claimed[j].id
      ensures outbox == SetStatus(old(outbox), set i | 0 <= i < |claimed| :: claimed[i].id, Processing)
      ensures |claimed| == Min(Max(1, limit), |ReadyIds(old(outbox), now)|)
      ensures forall i, k :: 0 <= i < |claimed| && k in outbox && Ready(outbox[k], now) ==>
        claimed[i].createdAt <= outbox[k].createdAt
      ensures |claimed| < Max(1, limit) ==> forall k :: k in outbox ==> !Ready(outbox[k], now)
    {
      var ready := ReadyIds(outbox, now);
      var table := outbox;
      var oldest := (k: nat) => if k in table then table[k].createdAt else 0;
      var ids := RowOrder.SelectOrdered(ready, Max(1, limit), oldest, true);
      RowOrder.OrderedIsDistinct(ids, oldest, true);
      var chosen := set i | 0 <= i < |ids| :: ids[i];
      forall k | k in chosen ensures k in ready { var i :| 0 <= i < |ids| && ids[i] == k; assert ids[i] in ids; }
      forall i | 0 <= i < |ids| ensures ids[i] in chosen && ids[i] in ready { assert ids[i] in ids; }
      outbox := SetStatus(outbox, chosen, Processing);
      claimed := seq(|ids|, i requires 0 <= i < |ids| && ids[i] in outbox reads this => outbox[ids[i]]);
      assert forall i :: 0 <= i < |ids| ==> claimed[i].id == ids[i];
      assert chosen == set i | 0 <= i < |claimed| :: claimed[i].id;
      if |claimed| < Max(1, limit) {
        forall k | k in outbox ensures !Ready(outbox[k], now) { assert k in ready ==> k in ids; }
      }
      forall i, k | 0 <= i < |claimed| && k in outbox && Ready(outbox[k], now)
        ensures claimed[i].createdAt <= outbox[k].createdAt
      {
        assert k in ready && k !in chosen && ids[i] in ids;
        assert k !in ids;
        assert RowOrder.Before(ids[i], k, oldest, true);
      }
    }

    method CompleteIndexEvent(eventId: nat) returns (ok: bool)
      modifies this`outbox
      ensures ok == (eventId in old(outbox))
      ensures outbox == if ok then old(outbox)[eventId := old(outbox)[eventId].(status := Completed)] else old(outbox)
    {
      ok := eventId in outbox;
      if ok { outbox := outbox[eventId := outbox[eventId].(status := Completed)]; }
    }

    method RetryIndexEvent(eventId: nat, nextAttempt: Time) returns (ok: bool)
      modifies this`outbox
      ensures ok == (eventId in old(outbox))
      ensures outbox == if ok then old(outbox)[eventId := Reschedule(old(outbox)[eventId], nextAttempt)] else old(outbox)
    {
      ok := eventId in outbox;
      if ok { outbox := outbox[eventId := Reschedule(outbox[eventId], nextAttempt)]; }
    }
  }

  function Stub(): MemoryItem {
    MemoryItem(0, OwnerKey(User, "-"), Fact, "-", "-", Rejected, 0.0, 0.0, 0, None, None, None, 1, 0)
  }
}
