/** Commits, ancestry and refs: what the worktree services observe of Git. */
module GitModel {
  import opened Prelude

  // A commit names its parents by digest, so they exist before it does; numbering commits
  // in creation order makes that explicit.
  type Commit = nat

  type Dag = map<Commit, set<Commit>>

  /** Refs under the service's own prefix: only ever created, with the all-zero old value. */
  datatype Dedicated = Checkpoint(n: nat) | CandidateRef(delivery: nat)

  datatype Ref =
    | UserBranch(name: nat)
    | DeliveryBranch(delivery: nat)
    | Service(ref: Dedicated)

  type Refs = map<Ref, Commit>

  ghost predicate DagOk(dag: Dag) {
    forall c {:trigger dag[c]} :: c in dag ==> forall p :: p in dag[c] ==> p < c && p in dag
  }

  /** `git merge-base --is-ancestor a c`. */
  predicate IsAncestor(dag: Dag, a: Commit, c: Commit)
    requires DagOk(dag)
    decreases c
  {
    c in dag && (a == c || exists p :: p in dag[c] && IsAncestor(dag, a, p))
  }

  /** A new commit on top of existing ones. */
  ghost predicate Grows(dag: Dag, c: Commit, parents: set<Commit>, dag': Dag) {
    && c !in dag && (forall p :: p in parents ==> p in dag && p < c)
    && dag' == dag[c := parents]
  }

  ghost predicate Extends(dag: Dag, dag': Dag) {
    forall c :: c in dag ==> c in dag' && dag'[c] == dag[c]
  }

  lemma {:induction false} AncestryPersists(dag: Dag, dag': Dag, a: Commit, c: Commit)
    requires DagOk(dag) && DagOk(dag') && Extends(dag, dag') && IsAncestor(dag, a, c)
    ensures IsAncestor(dag', a, c)
    decreases c
  {
    if a != c {
      var p :| p in dag[c] && IsAncestor(dag, a, p);
      AncestryPersists(dag, dag', a, p);
    }
  }

  lemma {:induction false} AncestryIsTransitive(dag: Dag, a: Commit, b: Commit, c: Commit)
    requires DagOk(dag) && IsAncestor(dag, a, b) && IsAncestor(dag, b, c)
    ensures IsAncestor(dag, a, c)
    decreases c
  {
    if b != c {
      var p :| p in dag[c] && IsAncestor(dag, b, p);
      AncestryIsTransitive(dag, a, b, p);
    }
  }

  lemma ParentIsAncestor(dag: Dag, p: Commit, c: Commit)
    requires DagOk(dag) && c in dag && p in dag[c]
    ensures IsAncestor(dag, p, c)
  {
    assert p in dag && IsAncestor(dag, p, p);
  }
}
