/** The governed memory entities: items, owners, contexts and the status lifecycle
    (memory/domain.py, memory/commands.py). */
module MemoryDomain {
  import opened Prelude

  // UUIDs and timestamps: only equality, and for ids the text order used by ORDER BY, matter.
  type Id = nat
  type Time = int

  datatype OwnerScope = User | Project | Application | Workspace | Task

  datatype OwnerKey = OwnerKey(scope: OwnerScope, id: string)

  datatype Kind = Preference | Fact | Decision | Procedure | Constraint | Relationship

  datatype Status = Candidate | Active | Superseded | Revoked | Expired | Rejected

  datatype SourceType = ExplicitUser | Inferred | CodingConclusion | LegacyImport

  datatype MemoryError =
    | NotFound
    | VersionConflict
    | InvalidTransition
    | ScopeDenied
    | InvalidValue
    | UniqueViolation

  datatype MemoryItem = MemoryItem(
    id: Id, owner: OwnerKey, kind: Kind, content: string, normalized: string,
    status: Status, confidence: real, salience: real,
    validFrom: Time, validUntil: Option<Time>, lastConfirmed: Option<Time>,
    supersedes: Option<Id>, version: nat, updatedAt: Time)
  {
    /** What the constructor of the frozen record accepts. */
    predicate WellFormed() {
      && content != "" && normalized != ""
      && 0.0 <= confidence <= 1.0 && 0.0 <= salience <= 1.0
      && version >= 1
      && (validUntil.Some? ==> validUntil.value > validFrom)
    }

    predicate InWindow(now: Time) {
      validFrom <= now && (validUntil.None? || validUntil.value > now)
    }

    predicate Retrievable(now: Time) {
      status == Active && InWindow(now)
    }
  }

  function AllowedTargets(s: Status): set<Status> {
    match s
    case Candidate => {Active, Rejected, Revoked, Expired}
    case Active => {Superseded, Revoked, Expired}
    case _ => {}
  }

  predicate Terminal(s: Status) { s != Candidate && s != Active }

  function Transitioned(item: MemoryItem, target: Status, now: Time): (r: Result<MemoryItem, MemoryError>)
    ensures r.Ok? <==> target in AllowedTargets(item.status)
    ensures r.Ok? ==>
      && r.value.version == item.version + 1
      && r.value.status != item.status
      && (item.WellFormed() ==> r.value.WellFormed())
      && !Terminal(item.status)
      && (r.value.status == Active ==> item.status == Candidate)
  {
    if target !in AllowedTargets(item.status) then Err(InvalidTransition)
    else Ok(item.(
      status := target,
      version := item.version + 1,
      updatedAt := now,
      lastConfirmed := if target == Active then Some(now) else item.lastConfirmed))
  }

  datatype Context = Context(
    user: string, session: string,
    application: Option<string>, workspace: Option<string>,
    project: Option<string>, task: Option<string>)
  {
    /** The user always, then each further scope only when it is named. */
    function AllowedOwners(): (owners: seq<OwnerKey>)
      ensures forall o :: o in owners <==>
        match o.scope
        case User => o.id == user
        case Application => Named(application) == Some(o.id)
        case Workspace => Named(workspace) == Some(o.id)
        case Project => Named(project) == Some(o.id)
        case Task => Named(task) == Some(o.id)
    {
      [OwnerKey(User, user)]
      + OwnerOf(Application, application) + OwnerOf(Workspace, workspace)
      + OwnerOf(Project, project) + OwnerOf(Task, task)
    }

    predicate Permits(owner: OwnerKey) { owner in AllowedOwners() }
  }

  /** An empty string names nothing, exactly as a missing one. */
  function Named(value: Option<string>): Option<string> {
    if value == Some("") then None else value
  }

  function OwnerOf(scope: OwnerScope, value: Option<string>): (owners: seq<OwnerKey>)
    ensures forall o :: o in owners <==> o.scope == scope && Named(value) == Some(o.id)
  {
    if Named(value).Some? then [OwnerKey(scope, value.value)] else []
  }
}
