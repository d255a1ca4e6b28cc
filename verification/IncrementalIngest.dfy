/** Incremental synchronisation of a chunk index with a file tree, with failures anywhere
    (knowledge/incremental.py; the index calls of knowledge/security_rag.py). */
module IncrementalIngest {
  import opened Prelude

  type Path = nat
  // Modification time and size; a file's content is taken to be a function of both.
  type Fingerprint = nat

  // A chunk id is a digest of the path, the span and the text: other paths give other ids.
  datatype ChunkId = ChunkId(path: Path, digest: nat)

  datatype Chunk = Chunk(id: ChunkId, payload: nat)

  type Index = map<ChunkId, Chunk>

  type Chunker = (Path, Fingerprint) -> seq<Chunk>

  type Tree = map<Path, Fingerprint>

  ghost predicate ChunkerOk(chunker: Chunker) {
    forall p, f, i :: 0 <= i < |chunker(p, f)| ==> chunker(p, f)[i].id.path == p
  }

  /** Upserting chunks in order; a later chunk replaces an earlier one with the same id. */
  function Written(index: Index, chunks: seq<Chunk>): Index
    decreases chunks
  {
    if chunks == [] then index else Written(index[chunks[0].id := chunks[0]], chunks[1..])
  }

  function AtPath(index: Index, p: Path): Index {
    map id | id in index && id.path == p :: index[id]
  }

  function Cleared(index: Index, p: Path): Index {
    map id | id in index && id.path != p :: index[id]
  }

  function FileIndex(chunker: Chunker, p: Path, f: Fingerprint): Index {
    Written(map[], chunker(p, f))
  }

  /** A full rebuild: an empty collection, then every file in the order of the listing. */
  function Rebuilt(chunker: Chunker, tree: Tree, listing: seq<Path>): Index
    requires forall i :: 0 <= i < |listing| ==> listing[i] in tree
  {
    if listing == [] then map[]
    else Written(Rebuilt(chunker, tree, listing[..|listing| - 1]), chunker(listing[|listing| - 1], tree[listing[|listing| - 1]]))
  }

  predicate Lists(listing: seq<Path>, tree: Tree) {
    && (forall i :: 0 <= i < |listing| ==> listing[i] in tree)
    && (forall i, j :: 0 <= i < j < |listing| ==> listing[i] != listing[j])
    && (forall p :: p in tree ==> p in listing)
  }

  /** The index holds the chunks of exactly these files. */
  ghost predicate Holds(chunker: Chunker, index: Index, tree: Tree) {
    forall p :: AtPath(index, p) == if p in tree then FileIndex(chunker, p, tree[p]) else map[]
  }

  /** What the saved state has to say truly: files it calls unchanged are indexed as they are,
      and nothing is indexed that it does not know of. */
  ghost predicate Recoverable(chunker: Chunker, saved: Tree, index: Index, tree: Tree) {
    forall p ::
      && (p in tree && p in saved && saved[p] == tree[p] ==> AtPath(index, p) == FileIndex(chunker, p, tree[p]))
      && (p !in tree && p !in saved ==> AtPath(index, p) == map[])
  }

  /** What a completed synchronisation leaves for a path. */
  function Target(chunker: Chunker, saved: Tree, index: Index, tree: Tree, p: Path): Index {
    if p in tree then (if p in saved && saved[p] == tree[p] then AtPath(index, p) else FileIndex(chunker, p, tree[p]))
    else if p in saved then map[] else AtPath(index, p)
  }

  // ----- the index, path by path -----

  lemma {:induction false} WrittenAtPath(index: Index, chunks: seq<Chunk>, p: Path, q: Path)
    requires forall i :: 0 <= i < |chunks| ==> chunks[i].id.path == p
    ensures AtPath(Written(index, chunks), q) == if p == q then Written(AtPath(index, p), chunks) else AtPath(index, q)
    decreases chunks
  {
    if chunks != [] {
      var index' := index[chunks[0].id := chunks[0]];
      WrittenAtPath(index', chunks[1..], p, q);
      assert p == q ==> AtPath(index', p) == AtPath(index, p)[chunks[0].id := chunks[0]];
      assert p != q ==> AtPath(index', q) == AtPath(index, q);
    }
  }

  lemma {:induction false} WrittenInParts(index: Index, a: seq<Chunk>, b: seq<Chunk>)
    ensures Written(index, a + b) == Written(Written(index, a), b)
    decreases a
  {
    if a == [] {
      assert a + b == b;
    } else {
      assert (a + b)[1..] == a[1..] + b;
      WrittenInParts(index[a[0].id := a[0]], a[1..], b);
    }
  }

  lemma ClearedAtPath(index: Index, p: Path, q: Path)
    ensures AtPath(Cleared(index, p), q) == if p == q then map[] else AtPath(index, q)
  {}

  lemma ReindexedAtPath(chunker: Chunker, index: Index, p: Path, f: Fingerprint, q: Path)
    requires ChunkerOk(chunker)
    ensures AtPath(Written(Cleared(index, p), chunker(p, f)), q) == if p == q then FileIndex(chunker, p, f) else AtPath(index, q)
  {
    WrittenAtPath(Cleared(index, p), chunker(p, f), p, q);
    ClearedAtPath(index, p, q);
  }

  lemma SamePathsSameIndex(a: Index, b: Index)
    requires forall p :: AtPath(a, p) == AtPath(b, p)
    ensures a == b
  {
    forall id ensures (id in a <==> id in b) && (id in a ==> a[id] == b[id]) {
      assert AtPath(a, id.path) == AtPath(b, id.path);
      assert id in a <==> id in AtPath(a, id.path);
      assert id in b <==> id in AtPath(b, id.path);
    }
  }

  lemma {:induction false} RebuiltAtPath(chunker: Chunker, tree: Tree, listing: seq<Path>, p: Path)
    requires ChunkerOk(chunker)
    requires forall i :: 0 <= i < |listing| ==> listing[i] in tree
    requires forall i, j :: 0 <= i < j < |listing| ==> listing[i] != listing[j]
    ensures AtPath(Rebuilt(chunker, tree, listing), p) == if p in listing then FileIndex(chunker, p, tree[p]) else map[]
  {
    if listing != [] {
      var n := |listing| - 1;
      RebuiltAtPath(chunker, tree, listing[..n], p);
      WrittenAtPath(Rebuilt(chunker, tree, listing[..n]), chunker(listing[n], tree[listing[n]]), listing[n], p);
      assert listing == listing[..n] + [listing[n]];
    }
  }

  /** Holding exactly the files of the tree is being what a full rebuild makes, in any order. */
  lemma HoldsIffRebuilt(chunker: Chunker, index: Index, tree: Tree, listing: seq<Path>)
    requires ChunkerOk(chunker) && Lists(listing, tree)
    ensures Holds(chunker, index, tree) <==> index == Rebuilt(chunker, tree, listing)
  {
    forall p ensures AtPath(Rebuilt(chunker, tree, listing), p) == if p in tree then FileIndex(chunker, p, tree[p]) else map[] {
      RebuiltAtPath(chunker, tree, listing, p);
    }
    if Holds(chunker, index, tree) {
      SamePathsSameIndex(index, Rebuilt(chunker, tree, listing));
    }
  }

  /** One completed run equals a rebuild exactly when the saved state told the truth. */
  lemma SyncEqualsRebuildIff(chunker: Chunker, saved: Tree, index: Index, tree: Tree, listing: seq<Path>, synced: Index)
    requires ChunkerOk(chunker) && Lists(listing, tree)
    requires forall p :: AtPath(synced, p) == Target(chunker, saved, index, tree, p)
    ensures synced == Rebuilt(chunker, tree, listing) <==> Recoverable(chunker, saved, index, tree)
  {
    HoldsIffRebuilt(chunker, synced, tree, listing);
    if Holds(chunker, synced, tree) {
      forall p
        ensures p in tree && p in saved && saved[p] == tree[p] ==> AtPath(index, p) == FileIndex(chunker, p, tree[p])
        ensures p !in tree && p !in saved ==> AtPath(index, p) == map[]
      {
        assert AtPath(synced, p) == Target(chunker, saved, index, tree, p);
      }
    }
  }

  /** A consistent state is truthful about every later tree. */
  lemma ConsistentIsRecoverable(chunker: Chunker, saved: Tree, index: Index, tree: Tree)
    requires Holds(chunker, index, saved)
    ensures Recoverable(chunker, saved, index, tree)
  {}

  /** The empty state is truthful only about an index without foreign chunks. */
  lemma ForgottenStateLeavesOrphans(chunker: Chunker, index: Index, tree: Tree)
    ensures Recoverable(chunker, map[], index, tree) <==> forall id :: id in index ==> id.path in tree
  {
    if forall id :: id in index ==> id.path in tree {
      forall p ensures p !in tree ==> AtPath(index, p) == map[] {}
    }
    if Recoverable(chunker, map[], index, tree) {
      forall id | id in index ensures id.path in tree {
        assert id in AtPath(index, id.path);
      }
    }
  }

  /** The vector store. It serves `calls` more calls; the next one raises, after its effect
      if `late`. */
  class SecurityIndex {
    var points: Index
    var calls: nat
    var late: bool

    constructor (calls: nat, late: bool)
      ensures points == map[] && this.calls == calls && this.late == late
    {
      points, this.calls, this.late := map[], calls, late;
    }

    method Attempt(next: Index) returns (raised: bool)
      modifies this
      ensures raised == (old(calls) == 0)
      ensures points == next || (raised && points == old(points))
    {
      raised := calls == 0;
      if !raised || late { points := next; }
      if !raised { calls := calls - 1; }
    }

    method DeleteFileChunks(path: Path) returns (raised: bool)
      modifies this
      ensures points == Cleared(old(points), path) || (raised && points == old(points))
    {
      raised := Attempt(Cleared(points, path));
    }

    /** Writes batch by batch. A failure leaves a prefix of the chunks written. */
    method UpsertChunks(chunks: seq<Chunk>, batchSize: int) returns (raised: bool, indexed: nat)
      modifies this
      ensures exists n :: 0 <= n <= |chunks| && points == Written(old(points), chunks[..n]) && (!raised ==> n == |chunks|)
      ensures !raised ==> indexed == |chunks|
    {
      var size := Max(1, batchSize);
      ghost var before := points;
      raised, indexed := false, 0;
      assert chunks[..0] == [];
      while indexed < |chunks|
        invariant indexed <= |chunks| && points == Written(before, chunks[..indexed])
      {
        var end := Min(|chunks|, indexed + size);
        assert chunks[..end] == chunks[..indexed] + chunks[indexed..end];
        WrittenInParts(before, chunks[..indexed], chunks[indexed..end]);
        raised := Attempt(Written(points, chunks[indexed..end]));
        if raised {
          assert points == Written(before, chunks[..indexed]) || points == Written(before, chunks[..end]);
          return;
        }
        indexed := end;
      }
      assert chunks[..|chunks|] == chunks;
    }
  }

  datatype IngestResult = IngestResult(filesSeen: nat, filesIndexed: nat, filesDeleted: nat, chunksIndexed: nat)

  // How writing the state file ends: a torn file is read back as no state at all.
  datatype Saving = Saves | SavesNothing | Tears

  predicate Changed(saved: Tree, tree: Tree, p: Path)
    requires p in tree
  {
    p !in saved || saved[p] != tree[p]
  }

  function ChangedIn(saved: Tree, tree: Tree, listing: seq<Path>, n: nat): nat
    requires n <= |listing| && forall i :: 0 <= i < |listing| ==> listing[i] in tree
  {
    if n == 0 then 0 else ChangedIn(saved, tree, listing, n - 1) + if Changed(saved, tree, listing[n - 1]) then 1 else 0
  }

  function ChunksIn(chunker: Chunker, saved: Tree, tree: Tree, listing: seq<Path>, n: nat): nat
    requires n <= |listing| && forall i :: 0 <= i < |listing| ==> listing[i] in tree
  {
    if n == 0 then 0
    else ChunksIn(chunker, saved, tree, listing, n - 1)
         + if Changed(saved, tree, listing[n - 1]) then |chunker(listing[n - 1], tree[listing[n - 1]])| else 0
  }

  /** A run indexes no file exactly when no listed file changed. */
  lemma {:induction false} NothingChangedNothingIndexed(saved: Tree, tree: Tree, listing: seq<Path>, n: nat)
    requires n <= |listing| && forall i :: 0 <= i < |listing| ==> listing[i] in tree
    ensures ChangedIn(saved, tree, listing, n) == 0 <==> forall i :: 0 <= i < n ==> !Changed(saved, tree, listing[i])
  {
    if n > 0 { NothingChangedNothingIndexed(saved, tree, listing, n - 1); }
  }

  /** The index after the first phase: the chunks of removed files are gone. */
  ghost predicate Pruned(before: Index, now: Index, gone: set<Path>) {
    forall p :: AtPath(now, p) == if p in gone then map[] else AtPath(before, p)
  }

  /** The index while files are re-indexed: the listed prefix is done, the rest as before. */
  ghost predicate Advanced(chunker: Chunker, saved: Tree, tree: Tree, done: seq<Path>, before: Index, now: Index) {
    forall p :: AtPath(now, p) ==
      if p in tree && p in done && Changed(saved, tree, p) then FileIndex(chunker, p, tree[p]) else AtPath(before, p)
  }

  /** Whatever a failed run left at paths it was about to replace or remove. */
  ghost predicate Harmless(saved: Tree, tree: Tree, before: Index, now: Index) {
    forall p :: (p in tree && !Changed(saved, tree, p)) || (p !in tree && p !in saved) ==> AtPath(now, p) == AtPath(before, p)
  }

  /** The index changed at most at one path. */
  ghost predicate OnlyAt(before: Index, now: Index, p: Path) {
    forall q :: q != p ==> AtPath(now, q) == AtPath(before, q)
  }

  lemma HarmlessStaysRecoverable(chunker: Chunker, saved: Tree, tree: Tree, before: Index, now: Index)
    requires Harmless(saved, tree, before, now)
    ensures Recoverable(chunker, saved, before, tree) ==> Recoverable(chunker, saved, now, tree)
  {}

  lemma PruneOne(before: Index, now: Index, gone: set<Path>, p: Path, next: Index)
    requires Pruned(before, now, gone) && next == Cleared(now, p)
    ensures Pruned(before, next, gone + {p})
  {
    forall q ensures AtPath(next, q) == if q in gone + {p} then map[] else AtPath(before, q) { ClearedAtPath(now, p, q); }
  }

  lemma AdvanceOne(chunker: Chunker, saved: Tree, tree: Tree, done: seq<Path>, before: Index, now: Index, p: Path, next: Index)
    requires ChunkerOk(chunker) && p in tree && Advanced(chunker, saved, tree, done, before, now)
    requires next == if Changed(saved, tree, p) then Written(Cleared(now, p), chunker(p, tree[p])) else now
    ensures Advanced(chunker, saved, tree, done + [p], before, next)
  {
    forall q ensures AtPath(next, q) ==
      if q in tree && q in done + [p] && Changed(saved, tree, q) then FileIndex(chunker, q, tree[q]) else AtPath(before, q)
    {
      if Changed(saved, tree, p) { ReindexedAtPath(chunker, now, p, tree[p], q); }
    }
  }

  lemma AdvancedIsHarmless(chunker: Chunker, saved: Tree, tree: Tree, done: seq<Path>, before: Index, now: Index, p: Path, next: Index)
    requires Advanced(chunker, saved, tree, done, before, now) && p in tree && Changed(saved, tree, p)
    requires OnlyAt(now, next, p)
    ensures Harmless(saved, tree, before, next)
  {}

  lemma DoneIsHarmless(chunker: Chunker, saved: Tree, tree: Tree, done: seq<Path>, before: Index, now: Index)
    requires Advanced(chunker, saved, tree, done, before, now)
    ensures Harmless(saved, tree, before, now)
  {}

  lemma PartlyWritten(chunker: Chunker, now: Index, p: Path, f: Fingerprint, n: nat, next: Index)
    requires ChunkerOk(chunker) && n <= |chunker(p, f)|
    requires next == now || next == Cleared(now, p) || next == Written(Cleared(now, p), chunker(p, f)[..n])
    ensures OnlyAt(now, next, p)
  {
    forall q | q != p ensures AtPath(next, q) == AtPath(now, q) {
      ClearedAtPath(now, p, q);
      WrittenAtPath(Cleared(now, p), chunker(p, f)[..n], p, q);
    }
  }

  class IncrementalIngester {
    const index: SecurityIndex
    const chunker: Chunker
    const batchSize: int
    var saved: Tree

    constructor (index: SecurityIndex, chunker: Chunker, batchSize: int)
      ensures this.index == index && this.chunker == chunker && this.batchSize == batchSize && saved == map[]
    {
      this.index, this.chunker, this.batchSize, saved := index, chunker, batchSize, map[];
    }

    /** Deletes the chunks of files that are gone. */
    method Prune(gone: set<Path>) returns (raised: bool)
      modifies index
      ensures !raised ==> Pruned(old(index.points), index.points, gone)
      ensures exists part :: part <= gone && Pruned(old(index.points), index.points, part)
    {
      ghost var before := index.points;
      var rest := gone;
      assert Pruned(before, index.points, {});
      while rest != {}
        invariant rest <= gone && Pruned(before, index.points, gone - rest)
        decreases rest
      {
        var p :| p in rest;
        ghost var now := index.points;
        raised := index.DeleteFileChunks(p);
        PruneOne(before, now, gone - rest, p, Cleared(now, p));
        assert gone - (rest - {p}) == gone - rest + {p};
        if raised {
          assert Pruned(before, index.points, gone - rest) || Pruned(before, index.points, gone - rest + {p});
          return;
        }
        rest := rest - {p};
      }
      assert gone - rest == gone;
      raised := false;
    }

    /** Replaces the chunks of one file. */
    method Reindex(p: Path, f: Fingerprint, readable: bool) returns (raised: bool, indexed: nat)
      requires ChunkerOk(chunker)
      modifies index
      ensures !raised ==> index.points == Written(Cleared(old(index.points), p), chunker(p, f)) && indexed == |chunker(p, f)|
      ensures OnlyAt(old(index.points), index.points, p)
    {
      ghost var before := index.points;
      indexed := 0;
      raised := index.DeleteFileChunks(p);
      PartlyWritten(chunker, before, p, f, 0, index.points);
      if raised || !readable { return true, 0; }
      var chunks := chunker(p, f);
      raised, indexed := index.UpsertChunks(chunks, batchSize);
      ghost var n :| 0 <= n <= |chunks| && index.points == Written(Cleared(before, p), chunks[..n]) && (!raised ==> n == |chunks|);
      PartlyWritten(chunker, before, p, f, n, index.points);
      assert chunks[..|chunks|] == chunks;
    }

    /** One listed file: re-indexed if it changed, else skipped. */
    method Refresh(p: Path, tree: Tree, readable: bool) returns (raised: bool, files: nat, chunks: nat)
      requires ChunkerOk(chunker) && p in tree
      modifies index
      ensures raised ==> Changed(saved, tree, p) && OnlyAt(old(index.points), index.points, p)
      ensures !raised && Changed(saved, tree, p) ==>
        index.points == Written(Cleared(old(index.points), p), chunker(p, tree[p])) && files == 1 && chunks == |chunker(p, tree[p])|
      ensures !Changed(saved, tree, p) ==> index.points == old(index.points) && files == 0 && chunks == 0
    {
      raised, files, chunks := false, 0, 0;
      if Changed(saved, tree, p) {
        raised, chunks := Reindex(p, tree[p], readable);
        files := 1;
      }
    }

    /** The next file of the listing, after those before it. */
    method RefreshNext(listing: seq<Path>, i: nat, tree: Tree, readable: bool, ghost before: Index)
      returns (raised: bool, files: nat, chunks: nat)
      requires ChunkerOk(chunker) && i < |listing| && listing[i] in tree
      requires Advanced(chunker, saved, tree, listing[..i], before, index.points)
      modifies index
      ensures raised ==> Harmless(saved, tree, before, index.points)
      ensures !raised ==> Advanced(chunker, saved, tree, listing[..i + 1], before, index.points)
      ensures !raised ==> files == if Changed(saved, tree, listing[i]) then 1 else 0
      ensures !raised ==> chunks == if Changed(saved, tree, listing[i]) then |chunker(listing[i], tree[listing[i]])| else 0
    {
      var p := listing[i];
      ghost var now := index.points;
      raised, files, chunks := Refresh(p, tree, readable);
      if raised {
        AdvancedIsHarmless(chunker, saved, tree, listing[..i], before, now, p, index.points);
      } else {
        AdvanceOne(chunker, saved, tree, listing[..i], before, now, p, index.points);
        assert listing[..i + 1] == listing[..i] + [p];
      }
    }

    /** The loop over the listed files. */
    method ReindexChanged(listing: seq<Path>, tree: Tree, unreadable: set<Path>) returns (raised: bool, files: nat, chunks: nat)
      requires ChunkerOk(chunker) && forall i :: 0 <= i < |listing| ==> listing[i] in tree
      modifies index
      ensures !raised ==> Advanced(chunker, saved, tree, listing, old(index.points), index.points)
      ensures !raised ==> files == ChangedIn(saved, tree, listing, |listing|) && chunks == ChunksIn(chunker, saved, tree, listing, |listing|)
      ensures Harmless(saved, tree, old(index.points), index.points)
    {
      ghost var before := index.points;
      raised, files, chunks := false, 0, 0;
      for i := 0 to |listing|
        invariant Advanced(chunker, saved, tree, listing[..i], before, index.points)
        invariant files == ChangedIn(saved, tree, listing, i) && chunks == ChunksIn(chunker, saved, tree, listing, i)
      {
        var indexed, written;
        raised, indexed, written := RefreshNext(listing, i, tree, listing[i] !in unreadable, before);
        if raised { return; }
        files, chunks := files + indexed, chunks + written;
      }
      assert listing[..|listing|] == listing;
      DoneIsHarmless(chunker, saved, tree, listing, before, index.points);
    }

    /** One synchronisation. Completed, it equals a full rebuild exactly when the saved state
        told the truth about the index; stopped anywhere, it leaves a state that still does. */
    method Sync(listing: seq<Path>, tree: Tree, unreadable: set<Path>, saving: Saving) returns (r: Option<IngestResult>)
      requires ChunkerOk(chunker) && Lists(listing, tree)
      modifies this`saved, index
      ensures r.Some? ==> saved == tree
      ensures r.Some? ==> (index.points == Rebuilt(chunker, tree, listing) <==> Recoverable(chunker, old(saved), old(index.points), tree))
      ensures r.Some? ==> r.value == IngestResult(|listing|, ChangedIn(old(saved), tree, listing, |listing|), |old(saved).Keys - tree.Keys|,
                                                 ChunksIn(chunker, old(saved), tree, listing, |listing|))
      ensures Recoverable(chunker, old(saved), old(index.points), tree) ==> Recoverable(chunker, saved, index.points, tree)
    {
      r := None;
      ghost var before := index.points;
      var gone := saved.Keys - tree.Keys;
      var raised := Prune(gone);
      assert Harmless(saved, tree, before, index.points);
      HarmlessStaysRecoverable(chunker, saved, tree, before, index.points);
      if raised { return; }
      ghost var pruned := index.points;
      var files, chunks;
      raised, files, chunks := ReindexChanged(listing, tree, unreadable);
      HarmlessStaysRecoverable(chunker, saved, tree, pruned, index.points);
      if raised { return; }
      forall p ensures AtPath(index.points, p) == Target(chunker, saved, before, tree, p) {
        assert p in tree <==> p in listing;
      }
      SyncEqualsRebuildIff(chunker, saved, before, tree, listing, index.points);
      HoldsIffRebuilt(chunker, index.points, tree, listing);
      if saving == SavesNothing { return; }
      saved := if saving == Tears then map[] else tree;
      if saving == Saves {
        r := Some(IngestResult(|listing|, files, |gone|, chunks));
      }
    }
  }
}
