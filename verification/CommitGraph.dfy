/**
 Commits by creation order: a commit's parents were created before it. Ancestry and merge
 bases are computed on that graph.
 */
module CommitGraph {
  import opened WorktreeFs

  datatype Commit = Commit(tree: Tree, parents: seq<nat>)

  type Graph = seq<Commit>

  ghost predicate GraphOk(g: Graph) {
    forall x :: 0 <= x < |g| ==> CommitOk(g, x)
  }

  ghost predicate CommitOk(g: Graph, x: nat)
    requires x < |g|
  {
    ValidTree(g[x].tree) && forall k :: 0 <= k < |g[x].parents| ==> g[x].parents[k] < x
  }

  // `y` is `x` or one of its ancestors.
  predicate Reaches(g: Graph, x: nat, y: nat)
    decreases x
  {
    x == y || (x < |g| && exists k :: 0 <= k < |g[x].parents| && g[x].parents[k] < x && Reaches(g, g[x].parents[k], y))
  }

  predicate Common(g: Graph, x: nat, y: nat, z: nat) {
    Reaches(g, x, z) && Reaches(g, y, z)
  }

  // The best common ancestors: those no other common ancestor descends from.
  function MergeBases(g: Graph, x: nat, y: nat): set<nat> {
    set z: nat | z < |g| && Common(g, x, y, z)
                 && forall w: nat :: w < |g| && w != z && Common(g, x, y, w) ==> !Reaches(g, w, z)
  }

  lemma ReachesSelf(g: Graph, x: nat)
    ensures Reaches(g, x, x)
  {
  }

  lemma MergeBasesExist(g: Graph, x: nat, y: nat)
    ensures forall z :: z in MergeBases(g, x, y) ==> z < |g|
  {
  }

  lemma {:induction false} ReachesGoesBack(g: Graph, x: nat, y: nat)
    requires Reaches(g, x, y)
    ensures y <= x
    decreases x
  {
    if x != y {
      var k :| 0 <= k < |g[x].parents| && g[x].parents[k] < x && Reaches(g, g[x].parents[k], y);
      ReachesGoesBack(g, g[x].parents[k], y);
    }
  }

  lemma {:induction false} ReachesIsTransitive(g: Graph, x: nat, y: nat, z: nat)
    requires Reaches(g, x, y) && Reaches(g, y, z)
    ensures Reaches(g, x, z)
    decreases x
  {
    if x != y {
      var k :| 0 <= k < |g[x].parents| && g[x].parents[k] < x && Reaches(g, g[x].parents[k], y);
      ReachesIsTransitive(g, g[x].parents[k], y, z);
    }
  }

  lemma {:induction false} ReachesIgnoresNewerCommits(g: Graph, g': Graph, x: nat, y: nat)
    requires g <= g' && x < |g|
    ensures Reaches(g, x, y) <==> Reaches(g', x, y)
    decreases x
  {
    assert g[x] == g'[x];
    forall k | 0 <= k < |g[x].parents| && g[x].parents[k] < x
      ensures Reaches(g, g[x].parents[k], y) <==> Reaches(g', g[x].parents[k], y)
    {
      ReachesIgnoresNewerCommits(g, g', g[x].parents[k], y);
    }
  }

  // The base tip is the only merge base exactly when it is already an ancestor.
  lemma MergeBaseOfAncestor(g: Graph, x: nat, y: nat)
    requires x < |g| && y < |g|
    ensures Reaches(g, x, y) <==> y in MergeBases(g, x, y)
    ensures Reaches(g, x, y) ==> MergeBases(g, x, y) == {y}
  {
    if Reaches(g, x, y) {
      forall w: nat | w < |g| && w != y && Common(g, x, y, w) ensures !Reaches(g, w, y) {
        ReachesGoesBack(g, y, w);
        if Reaches(g, w, y) { ReachesGoesBack(g, w, y); }
      }
      assert Common(g, x, y, y);
      forall z | z in MergeBases(g, x, y) ensures z == y {
        assert Common(g, x, y, y);
      }
    }
  }
}
