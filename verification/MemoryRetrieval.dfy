/** Retrieval: the index only proposes, the truth store decides
    (memory/semantic_retrieval.py). */
module MemoryRetrieval {
  import opened Prelude
  import opened MemoryDomain
  import opened MemoryStore

  datatype IndexHit = IndexHit(memoryId: Id, version: nat, score: real)

  datatype Scored = Scored(item: MemoryItem, relevance: real, score: real)

  datatype Reason = MissingSource | ScopeMismatch | InactiveOrExpired | StaleVersion | Repeated

  datatype Retrieved = Retrieved(hits: seq<Scored>, degraded: bool, drops: map<Reason, nat>)

  /** The sort key compared in descending order. */
  predicate AtLeast(a: Scored, b: Scored) {
    a.score > b.score || (a.score == b.score && a.item.updatedAt >= b.item.updatedAt)
  }

  ghost predicate Descending(s: seq<Scored>) {
    forall i, j :: 0 <= i < j < |s| ==> AtLeast(s[i], s[j])
  }

  function Insert(x: Scored, s: seq<Scored>): (r: seq<Scored>)
    ensures |r| == |s| + 1
    ensures forall y :: y in r <==> y == x || y in s
    ensures multiset(r) == multiset{x} + multiset(s)
  {
    if s == [] then [x]
    else if AtLeast(x, s[0]) then [x] + s
    else
      assert s == [s[0]] + s[1..];
      [s[0]] + Insert(x, s[1..])
  }

  lemma {:induction false} InsertKeepsOrder(x: Scored, s: seq<Scored>)
    requires Descending(s)
    ensures Descending(Insert(x, s))
  {
    if s != [] && !AtLeast(x, s[0]) {
      InsertKeepsOrder(x, s[1..]);
      forall y | y in Insert(x, s[1..]) ensures AtLeast(s[0], y) {}
    }
  }

  /** A stable descending sort. */
  function Sorted(s: seq<Scored>): (r: seq<Scored>)
    ensures |r| == |s| && multiset(r) == multiset(s)
    ensures forall y :: y in r <==> y in s
  {
    if s == [] then []
    else
      assert s == [s[0]] + s[1..];
      Insert(s[0], Sorted(s[1..]))
  }

  lemma {:induction false} SortedDescends(s: seq<Scored>)
    ensures Descending(Sorted(s))
  {
    if s != [] {
      SortedDescends(s[1..]);
      InsertKeepsOrder(s[0], Sorted(s[1..]));
    }
  }

  /** The index hit describes the stored item as it is now, in a permitted scope. */
  predicate Current(items: Items, owners: seq<OwnerKey>, now: Time, hit: IndexHit) {
    && hit.memoryId in items
    && items[hit.memoryId].owner in owners && items[hit.memoryId].Retrievable(now)
    && items[hit.memoryId].version == hit.version
  }

  /** Why a hit is dropped, in the order the reasons are tried. */
  predicate DroppedFor(items: Items, owners: seq<OwnerKey>, now: Time, indexed: seq<IndexHit>, i: nat, reason: Reason)
    requires i < |indexed|
  {
    var hit := indexed[i];
    match reason
    case MissingSource => hit.memoryId !in items
    case ScopeMismatch => hit.memoryId in items && items[hit.memoryId].owner !in owners
    case InactiveOrExpired =>
      && hit.memoryId in items && items[hit.memoryId].owner in owners && !items[hit.memoryId].Retrievable(now)
    case StaleVersion =>
      && hit.memoryId in items && items[hit.memoryId].owner in owners && items[hit.memoryId].Retrievable(now)
      && items[hit.memoryId].version != hit.version
    case Repeated =>
      && Current(items, owners, now, hit)
      && exists j :: 0 <= j < i && indexed[j].memoryId == hit.memoryId && Current(items, owners, now, indexed[j])
  }

  /** The first current hit of an item. */
  predicate Accepted(items: Items, owners: seq<OwnerKey>, now: Time, indexed: seq<IndexHit>, i: nat)
    requires i < |indexed|
  {
    && Current(items, owners, now, indexed[i])
    && forall j :: 0 <= j < i && indexed[j].memoryId == indexed[i].memoryId ==> !Current(items, owners, now, indexed[j])
  }

  lemma AcceptedOrDroppedOnce(items: Items, owners: seq<OwnerKey>, now: Time, indexed: seq<IndexHit>, i: nat)
    requires i < |indexed|
    ensures Accepted(items, owners, now, indexed, i) <==> !exists r :: DroppedFor(items, owners, now, indexed, i, r)
    ensures forall r, r' :: DroppedFor(items, owners, now, indexed, i, r) && DroppedFor(items, owners, now, indexed, i, r') ==> r == r'
  {
    if !Accepted(items, owners, now, indexed, i) {
      assert DroppedFor(items, owners, now, indexed, i, MissingSource)
        || DroppedFor(items, owners, now, indexed, i, ScopeMismatch)
        || DroppedFor(items, owners, now, indexed, i, InactiveOrExpired)
        || DroppedFor(items, owners, now, indexed, i, StaleVersion)
        || DroppedFor(items, owners, now, indexed, i, Repeated);
    }
  }

  /** How many of the first `n` hits are dropped for the reason. */
  function Drops(items: Items, owners: seq<OwnerKey>, now: Time, indexed: seq<IndexHit>, n: nat, reason: Reason): nat
    requires n <= |indexed|
  {
    if n == 0 then 0
    else Drops(items, owners, now, indexed, n - 1, reason) + (if DroppedFor(items, owners, now, indexed, n - 1, reason) then 1 else 0)
  }

  function Count(drops: map<Reason, nat>, reason: Reason): nat {
    if reason in drops then drops[reason] else 0
  }

  function Total(drops: map<Reason, nat>): nat {
    Count(drops, MissingSource) + Count(drops, ScopeMismatch) + Count(drops, InactiveOrExpired)
    + Count(drops, StaleVersion) + Count(drops, Repeated)
  }

  /** Nothing scored was left out in favour of something worse. */
  ghost predicate Best(hits: seq<Scored>, scored: seq<Scored>, limit: nat) {
    && |hits| == Min(limit, |scored|)
    && Descending(hits)
    && (forall h :: h in hits ==> h in scored)
    && (forall x :: x in scored && x !in hits ==> |hits| == limit && forall h :: h in hits ==> AtLeast(h, x))
  }

  lemma PrefixOutranksRest(sorted: seq<Scored>, k: nat)
    requires Descending(sorted) && k <= |sorted|
    ensures Descending(sorted[..k])
    ensures forall h :: h in sorted[..k] ==> h in sorted
    ensures forall x, h :: x in sorted && x !in sorted[..k] && h in sorted[..k] ==> AtLeast(h, x)
  {
    forall x, h | x in sorted && x !in sorted[..k] && h in sorted[..k] ensures AtLeast(h, x) {
      assert sorted == sorted[..k] + sorted[k..];
      var j :| 0 <= j < |sorted[k..]| && sorted[k..][j] == x;
      var i :| 0 <= i < k && sorted[..k][i] == h;
      assert sorted[i] == h && sorted[k + j] == x;
    }
  }

  lemma TopIsBest(scored: seq<Scored>, limit: nat)
    ensures Best(Sorted(scored)[..Min(limit, |scored|)], scored, limit)
  {
    SortedDescends(scored);
    PrefixOutranksRest(Sorted(scored), Min(limit, |scored|));
  }

  ghost predicate DistinctItems(s: seq<Scored>) {
    forall i, j :: 0 <= i < j < |s| ==> s[i].item.id != s[j].item.id
  }

  lemma {:induction false} SortKeepsDistinct(s: seq<Scored>)
    requires DistinctItems(s)
    ensures DistinctItems(Sorted(s))
  {
    if s != [] {
      SortKeepsDistinct(s[1..]);
      var rest := Sorted(s[1..]);
      assert forall y :: y in rest ==> y in s[1..];
      InsertKeepsDistinct(s[0], rest);
    }
  }

  lemma {:induction false} InsertKeepsDistinct(x: Scored, s: seq<Scored>)
    requires DistinctItems(s) && forall y :: y in s ==> y.item.id != x.item.id
    ensures DistinctItems(Insert(x, s))
  {
    if s != [] && !AtLeast(x, s[0]) {
      InsertKeepsDistinct(x, s[1..]);
      assert forall y :: y in s[1..] ==> y.item.id != s[0].item.id;
    }
  }

  function Clip(score: real): real {
    if score < 0.0 then 0.0 else if score > 1.0 then 1.0 else score
  }

  class SemanticMemoryRetrievalService {
    const repository: PostgresMemoryRepository
    const topK: nat
    const rank: (MemoryItem, real, Time) -> real
    const lexical: (string, string) -> real

    constructor (repository: PostgresMemoryRepository, topK: int,
                 rank: (MemoryItem, real, Time) -> real, lexical: (string, string) -> real)
      ensures this.repository == repository && this.topK == Max(1, topK) && this.rank == rank && this.lexical == lexical
    {
      this.repository, this.topK, this.rank, this.lexical := repository, Max(1, topK), rank, lexical;
    }

    /** A requested zero means "not requested". */
    function Limit(requested: Option<int>): (limit: nat)
      ensures limit >= 1
    {
      if requested.None? || requested.value == 0 then Max(1, topK) else Max(1, requested.value)
    }

    /** The scores of the accepted hits among the first `n`, in hit order. */
    function AcceptedScores(items: Items, owners: seq<OwnerKey>, now: Time, indexed: seq<IndexHit>, n: nat): seq<Scored>
      requires n <= |indexed|
    {
      if n == 0 then []
      else
        AcceptedScores(items, owners, now, indexed, n - 1)
        + (if Accepted(items, owners, now, indexed, n - 1) then [ScoreOf(indexed[n - 1], items, now)] else [])
    }

    lemma {:induction false} AcceptedScoresExact(items: Items, owners: seq<OwnerKey>, now: Time, indexed: seq<IndexHit>, n: nat)
      requires n <= |indexed| && forall k :: k in items ==> items[k].id == k
      ensures var scored := AcceptedScores(items, owners, now, indexed, n);
        && DistinctItems(scored)
        && (forall x :: x in scored ==> FromHit(items, owners, now, indexed, n, x))
        && (forall i :: 0 <= i < n && Accepted(items, owners, now, indexed, i) ==> ScoreOf(indexed[i], items, now) in scored)
    {
      if n > 0 {
        AcceptedScoresExact(items, owners, now, indexed, n - 1);
        var before := AcceptedScores(items, owners, now, indexed, n - 1);
        forall x | x in before
          ensures FromHit(items, owners, now, indexed, n, x)
          ensures Accepted(items, owners, now, indexed, n - 1) ==> x.item.id != indexed[n - 1].memoryId
        {
          var i :| 0 <= i < n - 1 && Accepted(items, owners, now, indexed, i) && x == ScoreOf(indexed[i], items, now);
        }
      }
    }

    ghost predicate FromHit(items: Items, owners: seq<OwnerKey>, now: Time, indexed: seq<IndexHit>, n: nat, x: Scored)
      requires n <= |indexed|
    {
      exists i :: 0 <= i < n && Accepted(items, owners, now, indexed, i) && x == ScoreOf(indexed[i], items, now)
    }

    /** Scores the hits that survive the checks and counts the others by reason. */
    method Filter(indexed: seq<IndexHit>, owners: seq<OwnerKey>, now: Time) returns (scored: seq<Scored>, drops: map<Reason, nat>)
      ensures scored == AcceptedScores(repository.items, owners, now, indexed, |indexed|)
      ensures forall r :: Count(drops, r) == Drops(repository.items, owners, now, indexed, |indexed|, r)
      ensures |indexed| == |scored| + Total(drops)
    {
      scored, drops := [], map[];
      var items := repository.items;
      var seen: set<Id> := {};
      var n := 0;
      while n < |indexed|
        invariant 0 <= n <= |indexed|
        invariant forall id :: id in seen <==> SeenBefore(items, owners, now, indexed, n, id)
        invariant scored == AcceptedScores(items, owners, now, indexed, n)
        invariant forall r :: Count(drops, r) == Drops(items, owners, now, indexed, n, r)
        invariant n == |scored| + Total(drops)
      {
        var hit := indexed[n];
        var reason := Check(hit, seen, owners, now, indexed, n);
        AcceptedOrDroppedOnce(items, owners, now, indexed, n);
        if reason.Some? {
          drops := drops[reason.value := Count(drops, reason.value) + 1];
        } else {
          seen := seen + {hit.memoryId};
          scored := scored + [ScoreOf(hit, items, now)];
        }
        n := n + 1;
      }
    }

    /** The checks on one hit, in order; the first that fails is the reason to drop it. */
    method Check(hit: IndexHit, seen: set<Id>, owners: seq<OwnerKey>, now: Time, ghost indexed: seq<IndexHit>, ghost n: nat)
      returns (reason: Option<Reason>)
      requires n < |indexed| && indexed[n] == hit
      requires forall id :: id in seen <==> SeenBefore(repository.items, owners, now, indexed, n, id)
      ensures reason.Some? ==> DroppedFor(repository.items, owners, now, indexed, n, reason.value)
      ensures reason.None? ==> Accepted(repository.items, owners, now, indexed, n)
    {
      var items := repository.items;
      reason :=
        if hit.memoryId !in items then Some(MissingSource)
        else if items[hit.memoryId].owner !in owners then Some(ScopeMismatch)
        else if !items[hit.memoryId].Retrievable(now) then Some(InactiveOrExpired)
        else if items[hit.memoryId].version != hit.version then Some(StaleVersion)
        else if hit.memoryId in seen then Some(Repeated)
        else None;
    }

    ghost predicate SeenBefore(items: Items, owners: seq<OwnerKey>, now: Time, indexed: seq<IndexHit>, n: nat, id: Id)
      requires n <= |indexed|
    {
      exists j :: 0 <= j < n && indexed[j].memoryId == id && Current(items, owners, now, indexed[j])
    }

    function ScoreOf(hit: IndexHit, items: Items, now: Time): Scored {
      if hit.memoryId in items then Scored(items[hit.memoryId], Clip(hit.score), rank(items[hit.memoryId], Clip(hit.score), now))
      else Scored(Stub(), 0.0, 0.0)
    }

    function LexicalScore(query: string, item: MemoryItem, now: Time): Scored {
      Scored(item, lexical(query, item.content), rank(item, lexical(query, item.content), now))
    }

    predicate Matching(query: string, item: MemoryItem, owners: seq<OwnerKey>, now: Time) {
      item.owner in owners && item.Retrievable(now) && lexical(query, item.content) > 0.0
    }

    /** Exactly the matching items, each once, with its lexical score. */
    ghost predicate LexicalScores(query: string, items: Items, owners: seq<OwnerKey>, now: Time, scored: seq<Scored>) {
      && DistinctItems(scored)
      && (forall x :: x in scored ==>
            && x.item.id in items && items[x.item.id] == x.item
            && Matching(query, x.item, owners, now) && x == LexicalScore(query, x.item, now))
      && forall id :: id in items && Matching(query, items[id], owners, now) ==> LexicalScore(query, items[id], now) in scored
    }

    /** The lexical fallback over the permitted active items. */
    method Fallback(query: string, owners: seq<OwnerKey>, now: Time) returns (scored: seq<Scored>)
      requires Keyed(repository.Db())
      ensures LexicalScores(query, repository.items, owners, now, scored)
    {
      var rows := repository.ListActive(owners, now);
      scored := [];
      var n := 0;
      while n < |rows|
        invariant 0 <= n <= |rows|
        invariant DistinctItems(scored)
        invariant forall x :: x in scored ==> x == LexicalScore(query, x.item, now) && x.relevance > 0.0
        invariant forall x :: x in scored ==> exists i :: 0 <= i < n && rows[i] == x.item
        invariant forall i :: 0 <= i < n && lexical(query, rows[i].content) > 0.0 ==> LexicalScore(query, rows[i], now) in scored
      {
        if lexical(query, rows[n].content) > 0.0 {
          scored := scored + [LexicalScore(query, rows[n], now)];
        }
        n := n + 1;
      }
    }

    /** `searched` is whatever the index answered, or None when it failed. */
    method Retrieve(query: string, ctx: Context, requested: Option<int>, searched: Option<seq<IndexHit>>, now: Time)
      returns (result: Retrieved)
      requires Keyed(repository.Db())
      ensures result.degraded == searched.None?
      ensures |result.hits| <= Limit(requested) && DistinctItems(result.hits) && Descending(result.hits)
      ensures forall h :: h in result.hits ==>
        && h.item.id in repository.items && repository.items[h.item.id] == h.item
        && ctx.Permits(h.item.owner) && h.item.Retrievable(now)
      ensures searched.Some? ==>
        var items, owners, indexed := repository.items, ctx.AllowedOwners(), searched.value;
        var scored := AcceptedScores(items, owners, now, indexed, |indexed|);
        && Best(result.hits, scored, Limit(requested))
        && |indexed| == |scored| + Total(result.drops)
        && (forall h :: h in result.hits ==> FromHit(items, owners, now, indexed, |indexed|, h))
        && (forall r :: Count(result.drops, r) == Drops(items, owners, now, indexed, |indexed|, r))
      ensures searched.None? ==>
        && result.drops == map[]
        && (forall h :: h in result.hits ==> Matching(query, h.item, ctx.AllowedOwners(), now) && h == LexicalScore(query, h.item, now))
        && exists scored :: LexicalScores(query, repository.items, ctx.AllowedOwners(), now, scored) && Best(result.hits, scored, Limit(requested))
    {
      var limit := Limit(requested);
      var owners := ctx.AllowedOwners();
      var scored: seq<Scored>;
      var drops: map<Reason, nat> := map[];
      if searched.None? {
        scored := Fallback(query, owners, now);
      } else {
        scored, drops := Filter(searched.value, owners, now);
        AcceptedScoresExact(repository.items, owners, now, searched.value, |searched.value|);
      }
      TopIsBest(scored, limit);
      SortKeepsDistinct(scored);
      var sorted := Sorted(scored);
      result := Retrieved(sorted[..Min(limit, |sorted|)], searched.None?, drops);
      assert Best(result.hits, scored, limit);
    }
  }
}
