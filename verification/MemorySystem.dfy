/** The whole memory system as a transition system: service commands whose reads and
    commits interleave freely, one index synchronizer that may fail or die between any two
    of its sub-steps, and a monotone clock. */
module MemorySystem {
  import opened Prelude
  import opened MemoryDomain
  import opened MemoryStore
  import opened MemoryCommands

  type Point = (Id, nat)

  /** A command that has read but not committed. */
  datatype Pending =
    | NeedsListing(p: Proposal, status: Status, now: Time, newId: Id)
    | Planned(tx: Tx)

  /** Where the synchronizer stands with the first event of its batch. */
  datatype Phase =
    | AtHead
    | HasItem(item: Option<MemoryItem>)
    | Decided(target: Option<Point>)
    | Wrote
    | Marked
    | Failed

  datatype Sync = Idle | Busy(batch: seq<Event>, phase: Phase)

  datatype World = World(db: Database, index: set<Point>, clock: Time, inflight: set<Pending>, sync: Sync)

  datatype Step =
    | Tick(to: Time)
    | BeginWrite(p: Proposal, ctx: Context, remember: bool, newId: Id, exact: Option<MemoryItem>)
    | ReadListing(pending: Pending, actives: seq<MemoryItem>)
    | BeginItem(command: ItemCommand, ctx: Context)
    | BeginConsole(id: Id, target: Status, version: nat, console: ConsoleGuard)
    | Commit(tx: Tx, eventId: nat, eventId': nat)
    | Claim(ids: seq<nat>)
    | GetItem
    | Decide
    | WriteIndex
    | IndexRaises(applied: bool)
    | Complete
    | CompleteRaises(applied: bool)
    | Trace
    | Raises
    | RetryLater(at: Time)
    | Die

  ghost predicate Init(s: World) {
    s.db == Database(map[], map[], map[]) && s.index == {} && s.inflight == {} && s.sync == Idle
  }

  function PlanOf(policy: Policy, pending: Pending, exact: Option<MemoryItem>, actives: seq<MemoryItem>): Result<Tx, MemoryError>
    requires pending.NeedsListing?
  {
    PlanWrite(policy, pending.p, pending.status, pending.now, exact, actives, pending.newId)
  }

  ghost function Launch(s: World, plan: Result<Tx, MemoryError>): World {
    if plan.Ok? then s.(inflight := s.inflight + {Planned(plan.value)}) else s
  }

  /** The service side. */
  ghost predicate CommandStep(policy: Policy, s: World, step: Step, s': World) {
    match step
    case Tick(to) => to >= s.clock && s' == s.(clock := to)
    case BeginWrite(p, ctx, remember, newId, exact) =>
      var admitted := Admit(p, ctx, remember);
      && admitted.Ok? && policy.normalize(p.content) != ""
      && IsExact(s.db.items, p.owner, p.kind, policy.normalize(p.content), admitted.value, s.clock, exact)
      && var pending := NeedsListing(p, admitted.value, s.clock, newId);
         s' == if exact.Some? then Launch(s, PlanOf(policy, pending, exact, []))
               else s.(inflight := s.inflight + {pending})
    case ReadListing(pending, actives) =>
      && pending in s.inflight && pending.NeedsListing?
      && IsActiveListing(s.db.items, [pending.p.owner], pending.now, actives)
      && s' == Launch(s.(inflight := s.inflight - {pending}), PlanOf(policy, pending, None, actives))
    case BeginItem(command, ctx) => s' == Launch(s, PlanItem(policy, s.db.items, ctx, command, s.clock))
    case BeginConsole(id, target, version, console) =>
      && target in {Active, Rejected, Revoked}
      && s' == Launch(s, Ok(Transition(id, target, version, Some(console))))
    case Commit(tx, eventId, eventId') =>
      && Planned(tx) in s.inflight
      && var r := Apply(s.db, tx, eventId, eventId', s.clock);
         s' == s.(inflight := s.inflight - {Planned(tx)}, db := if r.Ok? then r.value else s.db)
    case _ => false
  }

  function AfterHead(sync: Sync): Sync
    requires sync.Busy? && sync.batch != []
  {
    if |sync.batch| == 1 then Idle else Busy(sync.batch[1..], AtHead)
  }

  function DropItem(index: set<Point>, id: Id): set<Point> {
    set p | p in index && p.0 != id
  }

  /** The effect of the decided index call. */
  function IndexEffect(index: set<Point>, id: Id, target: Option<Point>): set<Point> {
    if target.Some? then index + {target.value} else DropItem(index, id)
  }

  /** What one event asks for, given the item read for it. */
  function Target(e: Event, item: Option<MemoryItem>, now: Time): Option<Point> {
    if e.op == Upsert && item.Some? && item.value.version == e.version && item.value.Retrievable(now)
    then Some((item.value.id, item.value.version)) else None
  }

  predicate At(s: World, phase: Phase) {
    s.sync.Busy? && s.sync.batch != [] && s.sync.phase == phase
  }

  /** The synchronizer side. Any set of ready rows may be claimed in any order. */
  ghost predicate SyncStep(s: World, step: Step, s': World) {
    match step
    case Claim(ids) =>
      && s.sync == Idle
      && (forall i :: 0 <= i < |ids| ==> ids[i] in s.db.outbox && Ready(s.db.outbox[ids[i]], s.clock))
      && var outbox := SetStatus(s.db.outbox, (set k | k in ids), Processing);
         s' == s.(db := s.db.(outbox := outbox),
                  sync := if ids == [] then Idle
                          else Busy(seq(|ids|, i requires 0 <= i < |ids| && ids[i] in outbox => outbox[ids[i]]), AtHead))
    case GetItem =>
      && At(s, AtHead)
      && var id := s.sync.batch[0].memoryId;
         s' == s.(sync := s.sync.(phase := HasItem(if id in s.db.items then Some(s.db.items[id]) else None)))
    case Decide =>
      && s.sync.Busy? && s.sync.batch != [] && s.sync.phase.HasItem?
      && s' == s.(sync := s.sync.(phase := Decided(Target(s.sync.batch[0], s.sync.phase.item, s.clock))))
    case WriteIndex =>
      && s.sync.Busy? && s.sync.batch != [] && s.sync.phase.Decided?
      && s' == s.(index := IndexEffect(s.index, s.sync.batch[0].memoryId, s.sync.phase.target), sync := s.sync.(phase := Wrote))
    case IndexRaises(applied) =>
      && s.sync.Busy? && s.sync.batch != [] && s.sync.phase.Decided?
      && s' == s.(index := if applied then IndexEffect(s.index, s.sync.batch[0].memoryId, s.sync.phase.target) else s.index,
                  sync := s.sync.(phase := Failed))
    case Complete => At(s, Wrote) && s' == MarkDone(s).(sync := s.sync.(phase := Marked))
    case CompleteRaises(applied) =>
      At(s, Wrote) && s' == (if applied then MarkDone(s) else s).(sync := s.sync.(phase := Failed))
    case Trace => At(s, Marked) && s' == s.(sync := AfterHead(s.sync))
    case Raises => (At(s, AtHead) || At(s, Marked)) && s' == s.(sync := s.sync.(phase := Failed))
    case RetryLater(at) =>
      && At(s, Failed) && s.sync.batch[0].id in s.db.outbox
      && var k := s.sync.batch[0].id;
         s' == s.(db := s.db.(outbox := s.db.outbox[k := Reschedule(s.db.outbox[k], at)]), sync := AfterHead(s.sync))
    case Die => s' == s.(sync := Idle)
    case _ => false
  }

  function MarkDone(s: World): World
    requires s.sync.Busy? && s.sync.batch != []
  {
    var k := s.sync.batch[0].id;
    if k in s.db.outbox then s.(db := s.db.(outbox := s.db.outbox[k := s.db.outbox[k].(status := Completed)])) else s
  }

  ghost predicate Next(policy: Policy, s: World, step: Step, s': World) {
    CommandStep(policy, s, step, s') || SyncStep(s, step, s')
  }

  /** A run: `worlds[i + 1]` follows `worlds[i]` by `steps[i]`. */
  ghost predicate Run(policy: Policy, worlds: seq<World>, steps: seq<Step>) {
    && |worlds| == |steps| + 1
    && forall i :: 0 <= i < |steps| ==> Next(policy, worlds[i], steps[i], worlds[i + 1])
  }

  /** A world that some run ends in. */
  ghost predicate Reachable(policy: Policy, s: World) {
    exists worlds, steps :: Run(policy, worlds, steps) && Init(worlds[0]) && worlds[|steps|] == s
  }

  lemma Reach(policy: Policy, s: World, step: Step, s': World)
    requires Reachable(policy, s) && Next(policy, s, step, s')
    ensures Reachable(policy, s')
  {
    var worlds, steps :| Run(policy, worlds, steps) && Init(worlds[0]) && worlds[|steps|] == s;
    RunOn(policy, worlds, steps, step, s');
    assert Init((worlds + [s'])[0]) && (worlds + [s'])[|steps + [step]|] == s';
  }

  lemma {:induction false} RunOn(policy: Policy, worlds: seq<World>, steps: seq<Step>, step: Step, s': World)
    requires Run(policy, worlds, steps) && Next(policy, worlds[|steps|], step, s')
    ensures Run(policy, worlds + [s'], steps + [step])
  {
    var worlds', steps' := worlds + [s'], steps + [step];
    forall i | 0 <= i < |steps'| ensures Next(policy, worlds'[i], steps'[i], worlds'[i + 1]) {
      if i < |steps| { assert Next(policy, worlds[i], steps[i], worlds[i + 1]); }
    }
  }

  // ----- what service transactions look like, whenever they commit -----

  /** The plan fits every later state too: it rests only on what never changes. */
  ghost predicate Sound(db: Database, tx: Tx, clock: Time) {
    match tx
    case Create(item, _) =>
      && item.WellFormed() && item.supersedes.None? && item.version == 1
      && (item.status == Active || item.status == Candidate) && item.validFrom <= clock
    case Transition(_, target, _, _) => target in {Active, Rejected, Revoked}
    case Supersede(oldId, item, _, expected) =>
      && item.WellFormed() && item.supersedes == Some(oldId) && item.status == Active && item.version == expected + 1
      && item.validFrom <= clock
      && oldId in db.items && item.owner == db.items[oldId].owner && item.kind == db.items[oldId].kind
    case AddEvidence(id, _, expected) => expected.Some? && id in db.items && db.items[id].version >= expected.value
  }

  lemma PlanWriteIsSound(policy: Policy, p: Proposal, status: Status, now: Time, exact: Option<MemoryItem>,
                         actives: seq<MemoryItem>, newId: Id, db: Database, clock: Time)
    requires status == Active || status == Candidate
    requires exact.Some? ==> exact.value.id in db.items && db.items[exact.value.id] == exact.value
    requires exact.None? ==> forall i :: 0 <= i < |actives| ==> actives[i].id in db.items && db.items[actives[i].id] == actives[i]
    requires now <= clock
    ensures var plan := PlanWrite(policy, p, status, now, exact, actives, newId);
      plan.Ok? ==> Sound(db, plan.value, clock)
  {
    var existing := if exact.Some? then [exact.value] else actives;
    var d := MemoryCommands.Decide(policy, p, existing);
    if d.existing.Some? {
      var i :| 0 <= i < |existing| && existing[i] == d.existing.value;
    }
  }

  lemma PlanItemIsSound(policy: Policy, db: Database, ctx: Context, command: ItemCommand, now: Time)
    requires Keyed(db)
    ensures var plan := PlanItem(policy, db.items, ctx, command, now);
      plan.Ok? ==> Sound(db, plan.value, now)
  {}
}
