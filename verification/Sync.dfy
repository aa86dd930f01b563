/**
 Integrating a base branch into a feature branch: a three-way merge of every path changed
 on either side since the merge base, committed with both tips as parents and
 force-pushed. The loop over changed paths is proved to compute the whole-tree merge, and
 the exact condition under which its worktree writes succeed is given.
 */
module Sync {
  import opened Text
  import opened Diff3
  import opened GitMerge
  import opened WorktreeFs
  import opened CommitGraph

  // readPath
  function ReadPath(t: Tree, p: string): PathContent {
    if p in t then PathContent(true, t[p], false)
    else if exists q :: q in t && Under(q, p) then PathContent(false, "", true)
    else PathContent(false, "", false)
  }

  lemma ReadPathIs(t: Tree, p: string)
    ensures var c := ReadPath(t, p);
            && (c.present <==> p in t) && c.data == (if p in t then t[p] else "")
            && (c.isDir <==> p !in t && exists q :: q in t && Under(q, p))
  {
  }

  // The trees of the merge base, the branch ("ours") and the base branch ("theirs").
  datatype Sides = Sides(base: Tree, ours: Tree, theirs: Tree)

  function MergedAt(s: Sides, p: string, diff: Differ): MergeResult
    requires ValidDiff(diff)
  {
    ResolvePath(ReadPath(s.base, p), ReadPath(s.ours, p), ReadPath(s.theirs, p), diff)
  }

  // The policy applied at every path there is.
  function MergedTree(s: Sides, diff: Differ): Tree
    requires ValidDiff(diff)
  {
    map p | p in s.base.Keys + s.ours.Keys + s.theirs.Keys && !MergedAt(s, p, diff).omit :: MergedAt(s, p, diff).content
  }

  predicate Differs(t: Tree, u: Tree, p: string) {
    (p in t) != (p in u) || (p in t && t[p] != u[p])
  }

  // Changed on either side since the merge base.
  function ChangedPaths(s: Sides): set<string> {
    set p | p in s.base.Keys + s.ours.Keys + s.theirs.Keys
            && (Differs(s.base, s.theirs, p) || Differs(s.base, s.ours, p))
  }

  lemma UnchangedPathKeepsOurs(s: Sides, p: string, diff: Differ)
    requires ValidDiff(diff) && p !in ChangedPaths(s)
    ensures !MergedAt(s, p, diff).conflict
    ensures MergedAt(s, p, diff).omit <==> p !in s.ours
    ensures p in s.ours ==> MergedAt(s, p, diff).content == s.ours[p]
  {
  }

  lemma MergedTreeHolds(s: Sides, p: string, diff: Differ)
    requires ValidDiff(diff)
    ensures p in MergedTree(s, diff) <==> !MergedAt(s, p, diff).omit
    ensures p in MergedTree(s, diff) ==> MergedTree(s, diff)[p] == MergedAt(s, p, diff).content
  {
    if p !in s.base.Keys + s.ours.Keys + s.theirs.Keys {
      assert MergedAt(s, p, diff).omit;
    }
  }

  /******* What the merge does at a path, by the three trees *******/

  // Whether two trees have the same at a path: nothing, or the same file.
  predicate Agree(t: Tree, u: Tree, p: string) {
    (p in t <==> p in u) && (p in t && p in u ==> t[p] == u[p])
  }

  predicate Binary(b: string) {
    exists i :: 0 <= i < |b| && i < 8000 && b[i] == '\0'
  }

  // A path that one side left alone is as the other side has it, without a conflict.
  lemma OneSidedChangeIsTaken(s: Sides, p: string, diff: Differ)
    requires ValidDiff(diff)
    ensures Agree(s.base, s.ours, p) ==> Agree(MergedTree(s, diff), s.theirs, p) && !MergedAt(s, p, diff).conflict
    ensures Agree(s.base, s.theirs, p) ==> Agree(MergedTree(s, diff), s.ours, p) && !MergedAt(s, p, diff).conflict
    ensures p !in s.ours && p !in s.theirs ==> p !in MergedTree(s, diff) && !MergedAt(s, p, diff).conflict
  {
    MergedTreeHolds(s, p, diff);
  }

  // A file that one side deleted and the other changed stays, in conflict unless binary:
  // marked, with the survivor on its side and the other said to be deleted.
  lemma DeletionAgainstChange(s: Sides, p: string, diff: Differ)
    requires ValidDiff(diff)
    requires p in s.base && (p in s.ours) != (p in s.theirs)
    requires !Agree(s.base, s.ours, p) && !Agree(s.base, s.theirs, p)
    ensures var survivor := if p in s.ours then s.ours[p] else s.theirs[p];
            && p in MergedTree(s, diff)
            && (MergedAt(s, p, diff).conflict <==> !Binary(survivor) && !Binary(s.base[p]))
            && (Binary(survivor) || Binary(s.base[p]) ==> MergedTree(s, diff)[p] == survivor)
            && (MergedAt(s, p, diff).conflict ==>
                  Laid(MergedTree(s, diff)[p], if p in s.ours then s.ours[p] else "", s.base[p],
                       if p in s.theirs then s.theirs[p] else ""))
  {
    hide Laid, Block;
    MergedTreeHolds(s, p, diff);
    var survivor := if p in s.ours then s.ours[p] else s.theirs[p];
    IsBinaryIff(survivor);
    IsBinaryIff(s.base[p]);
    BlockIsLaid(if p in s.ours then s.ours[p] else "", s.base[p], if p in s.theirs then s.theirs[p] else "");
  }

  // A file that both sides have and changed is theirs if a version of it is binary, and
  // else the line merge, in conflict exactly where both changed a region differently.
  lemma BothSidesChanged(s: Sides, p: string, diff: Differ)
    requires ValidDiff(diff)
    requires p in s.ours && p in s.theirs && !Agree(s.base, s.ours, p) && !Agree(s.base, s.theirs, p)
    ensures var base := if p in s.base then s.base[p] else "";
            var binary := Binary(base) || Binary(s.ours[p]) || Binary(s.theirs[p]);
            && p in MergedTree(s, diff)
            && (binary ==> MergedTree(s, diff)[p] == s.theirs[p] && !MergedAt(s, p, diff).conflict)
            && (!binary ==>
                  && MergedTree(s, diff)[p] == Render(Pieces(base, s.ours[p], s.theirs[p], diff))
                  && (MergedAt(s, p, diff).conflict <==>
                        exists c :: c in Regions(base, s.ours[p], s.theirs[p], diff) && c.kind == Both && c.a != c.b))
  {
    hide Pieces, Render, AllMerged, Regions;
    MergedTreeHolds(s, p, diff);
    var base := if p in s.base then s.base[p] else "";
    IsBinaryIff(base);
    IsBinaryIff(s.ours[p]);
    IsBinaryIff(s.theirs[p]);
    PiecesConflictIff(base, s.ours[p], s.theirs[p], diff);
  }

  // The markers left in the merged tree are exactly at the conflicting paths.
  lemma MarkedPathsAreConflicts(s: Sides, p: string, diff: Differ)
    requires ValidDiff(diff) && p in MergedTree(s, diff)
    requires forall q :: q in s.base ==> !HasMarkers(s.base[q])
    requires forall q :: q in s.ours ==> !HasMarkers(s.ours[q])
    requires forall q :: q in s.theirs ==> !HasMarkers(s.theirs[q])
    ensures HasMarkers(MergedTree(s, diff)[p]) <==> MergedAt(s, p, diff).conflict
  {
    MergedTreeHolds(s, p, diff);
    NoMarkersInEmpty();
    MarkersMeanConflict(ReadPath(s.base, p), ReadPath(s.ours, p), ReadPath(s.theirs, p), diff);
  }

  /******* Sorted paths *******/

  predicate StrLess(a: string, b: string) {
    if b == "" then false
    else if a == "" then true
    else a[0] < b[0] || (a[0] == b[0] && StrLess(a[1..], b[1..]))
  }

  ghost predicate Sorted(ps: seq<string>) {
    forall i, j :: 0 <= i < j < |ps| ==> StrLess(ps[i], ps[j])
  }

  lemma {:induction false} StrLessIsTransitive(a: string, b: string, c: string)
    requires StrLess(a, b) && StrLess(b, c)
    ensures StrLess(a, c)
  {
    if a != "" && a[0] == b[0] == c[0] {
      StrLessIsTransitive(a[1..], b[1..], c[1..]);
    }
  }

  lemma {:induction false} StrLessIsTotal(a: string, b: string)
    ensures StrLess(a, b) || StrLess(b, a) || a == b
    ensures !(StrLess(a, b) && StrLess(b, a))
    ensures !StrLess(a, a)
  {
    if a != "" {
      StrLessIsTotal(a[1..], if b == "" then b else b[1..]);
      if b != "" && a[0] == b[0] && a[1..] == b[1..] {
        assert a == [a[0]] + a[1..] && b == [b[0]] + b[1..];
      }
    }
  }

  // A directory sorts before everything below it.
  lemma {:induction false} PrefixSortsFirst(d: string, p: string)
    requires |d| < |p| && p[..|d|] == d
    ensures StrLess(d, p)
  {
    if d != "" {
      assert p[..|d|][0] == d[0] && p[..|d|][1..] == d[1..];
      assert p[1..][..|d| - 1] == d[1..];
      PrefixSortsFirst(d[1..], p[1..]);
    }
  }

  function InsertPath(p: string, ps: seq<string>): seq<string> {
    if ps == [] || StrLess(p, ps[0]) then [p] + ps else [ps[0]] + InsertPath(p, ps[1..])
  }

  lemma {:induction false} InsertPathSorts(p: string, ps: seq<string>)
    requires Sorted(ps) && p !in ps
    ensures Sorted(InsertPath(p, ps))
    ensures forall q :: q in InsertPath(p, ps) <==> q == p || q in ps
  {
    if ps != [] && !StrLess(p, ps[0]) {
      InsertPathSorts(p, ps[1..]);
      StrLessIsTotal(p, ps[0]);
      var rest := InsertPath(p, ps[1..]);
      forall k | 0 <= k < |rest| ensures StrLess(ps[0], rest[k]) {
        assert rest[k] in rest;
        if rest[k] != p {
          var j :| 0 <= j < |ps[1..]| && ps[1..][j] == rest[k];
          assert ps[j + 1] == rest[k];
        }
      }
      assert forall q :: q in ps <==> q == ps[0] || q in ps[1..];
    } else if ps != [] {
      forall k | 0 <= k < |ps| ensures StrLess(p, ps[k]) {
        if k > 0 { StrLessIsTransitive(p, ps[0], ps[k]); }
      }
    }
  }

  // Collecting the changed set into a slice and sort.Strings.
  method SortedPaths(changed: set<string>) returns (paths: seq<string>)
    ensures Sorted(paths)
    ensures forall p :: p in paths <==> p in changed
  {
    paths := [];
    var todo := changed;
    while todo != {}
      invariant Sorted(paths) && todo <= changed
      invariant forall p :: p in paths <==> p in changed && p !in todo
      decreases todo
    {
      var p :| p in todo;
      InsertPathSorts(p, paths);
      paths := InsertPath(p, paths);
      todo := todo - {p};
    }
  }

  // The candidate paths: both diffs against the merge base, collected in one set.
  method CollectChanged(s: Sides) returns (changed: set<string>)
    ensures changed == ChangedPaths(s)
  {
    changed := {};
    var pairs := [(s.base, s.theirs), (s.base, s.ours)];
    for i := 0 to |pairs|
      invariant i == 0 ==> changed == {}
      invariant i == 1 ==> forall p :: p in changed <==> (p in s.base || p in s.theirs) && Differs(s.base, s.theirs, p)
      invariant i == 2 ==> forall p :: p in changed <==> p in ChangedPaths(s)
    {
      var (from, to) := pairs[i];
      changed := changed + set p | p in from.Keys + to.Keys && Differs(from, to, p);
    }
  }

  /******* The apply loop *******/

  // Where the worktree refuses path `p`: something above it is a file of the merged
  // tree, or the branch has files below it.
  ghost predicate Clashes(s: Sides, p: string, diff: Differ)
    requires ValidDiff(diff)
  {
    HasFileAbove(MergedTree(s, diff), p) || p in DirsOf(s.ours)
  }

  // After the paths in `done`, the worktree holds their merged state and ours elsewhere.
  ghost predicate Halfway(files: Tree, s: Sides, done: seq<string>, diff: Differ)
    requires ValidDiff(diff)
  {
    forall p ::
      && (p in files <==> if p in done then !MergedAt(s, p, diff).omit else p in s.ours)
      && (p in files ==> files[p] == if p in done then MergedAt(s, p, diff).content else s.ours[p])
  }

  ghost predicate DirsHalfway(dirs: set<string>, s: Sides, done: seq<string>) {
    && DirsOf(s.ours) <= dirs
    && forall d :: d in dirs ==> d in DirsOf(s.ours) || exists p :: p in done && Under(p, d)
  }

  // At the next path in order, the obstacles present are exactly the clashes.
  lemma ObstaclesAreClashes(files: Tree, dirs: set<string>, s: Sides, paths: seq<string>, i: nat, diff: Differ)
    requires ValidDiff(diff) && Sorted(paths) && i < |paths|
    requires forall p :: p in paths <==> p in ChangedPaths(s)
    requires Halfway(files, s, paths[..i], diff) && DirsHalfway(dirs, s, paths[..i])
    ensures HasFileAbove(files, paths[i]) <==> HasFileAbove(MergedTree(s, diff), paths[i])
    ensures paths[i] in dirs <==> paths[i] in DirsOf(s.ours)
    ensures paths[i] in dirs ==> exists q :: q in files && Under(q, paths[i])
  {
    hide MergedAt, MergedTree, ChangedPaths, StrLess, DirsOf;
    var p := paths[i];
    forall q | Under(p, q) ensures q in files <==> q in MergedTree(s, diff) {
      MergedTreeHolds(s, q, diff);
      PrefixSortsFirst(q, p);
      if q in paths {
        EarlierIsDone(paths, i, q);
      } else {
        UnchangedPathKeepsOurs(s, q, diff);
      }
    }
    if p in dirs {
      forall q | q in paths[..i] ensures !Under(q, p) {
        var k :| 0 <= k < i && paths[k] == q;
        StrLessIsTotal(p, q);
        if Under(q, p) { PrefixSortsFirst(p, q); }
      }
      DirsOfHolds(s.ours, p);
      var q :| q in s.ours && Under(q, p);
      PrefixSortsFirst(p, q);
      LaterIsNotDone(paths, i, q);
      assert q in files;
    }
  }

  lemma EarlierIsDone(paths: seq<string>, i: nat, q: string)
    requires Sorted(paths) && i < |paths| && q in paths && StrLess(q, paths[i])
    ensures q in paths[..i]
  {
    var k :| 0 <= k < |paths| && paths[k] == q;
    StrLessIsTotal(q, paths[i]);
    assert k < i;
    assert paths[..i][k] == q;
  }

  lemma LaterIsNotDone(paths: seq<string>, i: nat, q: string)
    requires Sorted(paths) && i < |paths| && StrLess(paths[i], q)
    ensures q !in paths[..i]
  {
    forall k | 0 <= k < i ensures paths[k] != q {
      StrLessIsTransitive(paths[k], paths[i], q);
      StrLessIsTotal(paths[k], q);
    }
  }

  lemma LoopComputesMergedTree(files: Tree, s: Sides, paths: seq<string>, diff: Differ)
    requires ValidDiff(diff)
    requires forall p :: p in paths <==> p in ChangedPaths(s)
    requires Halfway(files, s, paths, diff)
    ensures files == MergedTree(s, diff)
  {
    hide MergedAt, MergedTree, ChangedPaths;
    forall p
      ensures p in files <==> p in MergedTree(s, diff)
      ensures p in files ==> files[p] == MergedTree(s, diff)[p]
    {
      MergedTreeHolds(s, p, diff);
      if p !in paths { UnchangedPathKeepsOurs(s, p, diff); }
    }
  }

  method ApplyResult(wt: Worktree, p: string, res: MergeResult) returns (ok: bool)
    requires wt.Valid()
    requires p in wt.dirs ==> exists q :: q in wt.files && Under(q, p)
    modifies wt
    ensures wt.Valid()
    ensures ok <==> !HasFileAbove(old(wt.files), p) && p !in old(wt.dirs)
    ensures ok && res.omit ==> wt.files == old(wt.files) - {p} && wt.dirs == old(wt.dirs)
    ensures ok && !res.omit ==> wt.files == old(wt.files)[p := res.content] && wt.dirs == old(wt.dirs) + Ancestors(p)
  {
    if res.omit {
      var removed := wt.Remove(p);
      return removed != FsError;
    }
    var written := wt.Write(p, res.content);
    ok := written == Done;
  }

  lemma ApplyKeepsHalfway(files: Tree, dirs: set<string>, s: Sides, paths: seq<string>, i: nat, diff: Differ)
    requires ValidDiff(diff) && Sorted(paths) && i < |paths|
    requires Halfway(files, s, paths[..i], diff) && DirsHalfway(dirs, s, paths[..i])
    ensures var p := paths[i]; var res := MergedAt(s, p, diff);
            && Halfway(if res.omit then files - {p} else files[p := res.content], s, paths[..i + 1], diff)
            && DirsHalfway(if res.omit then dirs else dirs + Ancestors(p), s, paths[..i + 1])
  {
    hide MergedAt, StrLess, DirsOf, Ancestors;
    var p := paths[i];
    assert paths[..i + 1] == paths[..i] + [p];
    forall d | d in Ancestors(p) ensures Under(p, d) { AncestorsAreAbove(p, d); }
  }

  method ApplyPaths(wt: Worktree, s: Sides, paths: seq<string>, diff: Differ)
    returns (ok: bool, conflicts: seq<string>)
    requires ValidDiff(diff) && wt.Valid() && wt.files == s.ours && wt.dirs == DirsOf(s.ours)
    requires Sorted(paths) && forall p :: p in paths <==> p in ChangedPaths(s)
    modifies wt
    ensures wt.Valid()
    ensures ok <==> forall p :: p in ChangedPaths(s) ==> !Clashes(s, p, diff)
    ensures ok ==> wt.files == MergedTree(s, diff)
    ensures ok ==> Sorted(conflicts) && forall p :: p in conflicts <==> MergedAt(s, p, diff).conflict
  {
    hide MergedAt, MergedTree, ChangedPaths, StrLess, DirsOf, Ancestors;
    conflicts := [];
    for i := 0 to |paths|
      invariant wt.Valid()
      invariant Halfway(wt.files, s, paths[..i], diff) && DirsHalfway(wt.dirs, s, paths[..i])
      invariant forall k :: 0 <= k < i ==> !Clashes(s, paths[k], diff)
      invariant Selected(conflicts, s, paths[..i], diff)
    {
      var p := paths[i];
      var res := MergedAt(s, p, diff);
      ObstaclesAreClashes(wt.files, wt.dirs, s, paths, i, diff);
      ApplyKeepsHalfway(wt.files, wt.dirs, s, paths, i, diff);
      SelectNext(conflicts, s, paths, i, diff);
      var applied := ApplyResult(wt, p, res);
      if !applied {
        assert Clashes(s, p, diff) && p in ChangedPaths(s);
        return false, [];
      }
      if res.conflict {
        conflicts := conflicts + [p];
      }
    }
    assert paths[..|paths|] == paths;
    LoopComputesMergedTree(wt.files, s, paths, diff);
    forall p ensures p in conflicts <==> MergedAt(s, p, diff).conflict {
      if p !in paths { UnchangedPathKeepsOurs(s, p, diff); }
    }
    forall p | p in ChangedPaths(s) ensures !Clashes(s, p, diff) {
      var k :| 0 <= k < |paths| && paths[k] == p;
    }
    ok := true;
  }

  // The conflicting ones among `done`, still in order.
  ghost predicate Selected(conflicts: seq<string>, s: Sides, done: seq<string>, diff: Differ)
    requires ValidDiff(diff)
  {
    Sorted(conflicts) && forall p :: p in conflicts <==> p in done && MergedAt(s, p, diff).conflict
  }

  lemma SelectNext(conflicts: seq<string>, s: Sides, paths: seq<string>, i: nat, diff: Differ)
    requires ValidDiff(diff) && Sorted(paths) && i < |paths| && Selected(conflicts, s, paths[..i], diff)
    ensures Selected(if MergedAt(s, paths[i], diff).conflict then conflicts + [paths[i]] else conflicts,
                     s, paths[..i + 1], diff)
  {
    hide MergedAt, StrLess;
    assert paths[..i + 1] == paths[..i] + [paths[i]];
    forall j | 0 <= j < |conflicts| ensures StrLess(conflicts[j], paths[i]) {
      assert conflicts[j] in conflicts;
      var k :| 0 <= k < i && paths[k] == conflicts[j];
    }
  }

  /******* The whole sync *******/

  datatype SyncResult =
    | Synced(clean: bool, conflicts: seq<string>, commit: Commits)
    | SyncFailed

  // The commit a sync reports: an index, or git's zero hash.
  datatype Commits = At(index: nat) | ZeroHash

  // What makes a sync fail by itself: its arguments, an unrelated base, or a result that needs
  // a directory where a file is or the reverse.
  ghost predicate CannotSync(g: Graph, refs: map<string, nat>, branch: string, base: string, diff: Differ, mb: nat)
    requires ValidDiff(diff)
  {
    || branch == "" || base == "" || branch == base || branch !in refs || base !in refs
    || refs[branch] >= |g| || refs[base] >= |g|
    || MergeBases(g, refs[branch], refs[base]) == {}
    || (mb in MergeBases(g, refs[branch], refs[base]) && mb < |g|
        && ResultsClash(Sides(g[mb].tree, g[refs[branch]].tree, g[refs[base]].tree), diff))
  }

  ghost predicate ResultsClash(s: Sides, diff: Differ)
    requires ValidDiff(diff)
  {
    exists p :: p in ChangedPaths(s) && Clashes(s, p, diff)
  }

  class Repo {
    var commits: Graph
    var refs: map<string, nat>
    ghost var faults: nat

    ghost predicate Valid()
      reads this
    {
      GraphOk(commits) && forall b :: b in refs ==> refs[b] < |commits|
    }

    constructor ()
      ensures Valid() && commits == [] && refs == map[]
    {
      commits := [];
      refs := map[];
      faults := 0;
    }

    // Every network step may fail, which `faults` counts; a push that failed may have arrived.
    method Reachable() returns (ok: bool)
      modifies this`faults
      ensures faults == if ok then old(faults) else old(faults) + 1
    {
      ok := *;
      if !ok { faults := faults + 1; }
    }

    method SyncBranch(branch: string, base: string, diff: Differ) returns (r: SyncResult, ghost mb: nat)
      requires Valid() && ValidDiff(diff)
      modifies this
      ensures Valid()
      ensures r.SyncFailed? && (commits != old(commits) || refs != old(refs)) ==>
                exists unheard :: SyncSpec(old(commits), old(refs), commits, refs, branch, base, diff, mb, unheard)
      ensures branch == "" || base == "" || branch == base ==> r.SyncFailed?
      ensures branch !in old(refs) || base !in old(refs) ==> r.SyncFailed?
      ensures r.Synced? ==> SyncSpec(old(commits), old(refs), commits, refs, branch, base, diff, mb, r)
      ensures r.SyncFailed? && faults == old(faults) ==> CannotSync(commits, refs, branch, base, diff, mb)
    {
      hide MergedTree, MergedAt, ChangedPaths, Clashes, Sorted, Reaches, MergeBases, ValidTree, ResultsClash, DiskOk;
      hide DirsOf;
      mb := 0;
      if branch == "" || base == "" || branch == base {
        return SyncFailed, mb;
      }
      var cloned := Reachable();
      if !cloned || branch !in refs {
        return SyncFailed, mb;
      }
      var fetched := Reachable();
      if !fetched || base !in refs {
        return SyncFailed, mb;
      }
      var branchTip, baseTip := refs[branch], refs[base];
      MergeBaseOfAncestor(commits, branchTip, baseTip);
      if branchTip == baseTip {
        ReachesSelf(commits, branchTip);
        return Synced(true, [], At(branchTip)), mb;
      }
      var bases := MergeBases(commits, branchTip, baseTip);
      if bases == {} {
        return SyncFailed, mb;
      }
      var mergeBase :| mergeBase in bases;
      MergeBasesExist(commits, branchTip, baseTip);
      mb := mergeBase;
      if mergeBase == baseTip {
        return Synced(true, [], At(branchTip)), mb;
      }
      assert CommitOk(commits, branchTip);
      var s := Sides(commits[mergeBase].tree, commits[branchTip].tree, commits[baseTip].tree);
      var changed := CollectChanged(s);
      var paths := SortedPaths(changed);
      var wt := new Worktree(s.ours);
      var ok, conflicts := ApplyPaths(wt, s, paths, diff);
      ResultsClashIff(s, diff);
      if !ok {
        return SyncFailed, mb;
      }
      r := Synced(|conflicts| == 0, conflicts, At(|commits|));
      // An unchanged tree is refused as an empty commit, and that is tolerated.
      if wt.files == s.ours {
        var pushed := Reachable();
        r := if pushed then r.(commit := ZeroHash) else SyncFailed;
        return;
      }
      FilesAreValid(Disk(wt.files, wt.dirs));
      ghost var heard := r;
      var pushed := CommitAndPush(branch, branchTip, baseTip, wt.files);
      assert commits != old(commits) ==>
          SyncSpec(old(commits), old(refs), commits, refs, branch, base, diff, mb, heard);
      if !pushed {
        return SyncFailed, mb;
      }
    }

    // The merge commit, with both tips as parents, and the push of the branch.
    method CommitAndPush(branch: string, tip: nat, baseTip: nat, tree: Tree) returns (ok: bool)
      requires Valid() && ValidTree(tree) && tip < |commits| && baseTip < |commits|
      modifies this
      ensures Valid()
      ensures || (commits == old(commits) && refs == old(refs))
              || (commits == old(commits) + [Commit(tree, [tip, baseTip])]
                  && refs == old(refs)[branch := |old(commits)|])
      ensures ok ==> commits != old(commits)
      ensures faults == if ok then old(faults) else old(faults) + 1
    {
      hide ValidTree;
      ok := Reachable();
      if ok {
        AppendKeepsGraphOk(commits, Commit(tree, [tip, baseTip]));
        commits := commits + [Commit(tree, [tip, baseTip])];
        refs := refs[branch := |commits| - 1];
        ok := Reachable();
      }
    }
  }

  lemma ResultsClashIff(s: Sides, diff: Differ)
    requires ValidDiff(diff)
    ensures ResultsClash(s, diff) <==> !forall p :: p in ChangedPaths(s) ==> !Clashes(s, p, diff)
  {
    hide ChangedPaths, Clashes;
  }

  lemma AppendKeepsGraphOk(g: Graph, c: Commit)
    requires GraphOk(g) && ValidTree(c.tree) && forall k :: 0 <= k < |c.parents| ==> c.parents[k] < |g|
    ensures GraphOk(g + [c])
  {
    forall x | 0 <= x < |g + [c]| ensures CommitOk(g + [c], x) {
      if x < |g| { assert CommitOk(g, x); }
    }
  }

  // What a completed sync did to the commits and the refs, and what it reported.
  ghost predicate SyncSpec(g: Graph, refs: map<string, nat>, g': Graph, refs': map<string, nat>,
                           branch: string, base: string, diff: Differ, mb: nat, r: SyncResult)
    requires ValidDiff(diff)
  {
    && branch in refs && base in refs && branch != base && refs[branch] < |g| && refs[base] < |g| && r.Synced?
    && var tip, baseTip := refs[branch], refs[base];
       if Reaches(g, tip, baseTip) then g' == g && refs' == refs && r == Synced(true, [], At(tip))
       else
         && mb in MergeBases(g, tip, baseTip)
         && var s := Sides(g[mb].tree, g[tip].tree, g[baseTip].tree);
            && (forall p :: p in ChangedPaths(s) ==> !Clashes(s, p, diff))
            && (r.clean <==> r.conflicts == [])
            && Sorted(r.conflicts)
            && (forall p :: p in r.conflicts <==> MergedAt(s, p, diff).conflict)
            && if MergedTree(s, diff) == g[tip].tree then g' == g && refs' == refs && r.commit == ZeroHash
               else
                 && g' == g + [Commit(MergedTree(s, diff), [tip, baseTip])]
                 && refs' == refs[branch := |g|]
                 && r.commit == At(|g|)
  }

  // Whether a sync has anything to commit: the merged tree is not the branch's own.
  predicate Changes(g: Graph, tip: nat, baseTip: nat, mb: nat, diff: Differ)
    requires ValidDiff(diff) && tip < |g| && baseTip < |g| && mb < |g|
  {
    MergedTree(Sides(g[mb].tree, g[tip].tree, g[baseTip].tree), diff) != g[tip].tree
  }

  // Afterwards the base tip is an ancestor exactly when it was one before, or the merged
  // tree differs from the branch's own. Otherwise no merge commit exists.
  lemma SyncIntegratesUnlessTreeUnchanged(g: Graph, refs: map<string, nat>, g': Graph, refs': map<string, nat>,
                                          branch: string, base: string, diff: Differ, mb: nat, r: SyncResult)
    requires ValidDiff(diff) && GraphOk(g) && SyncSpec(g, refs, g', refs', branch, base, diff, mb, r)
    ensures branch in refs' && refs'[base] == refs[base]
    ensures Reaches(g, refs[branch], refs[base]) || mb < |g|
    ensures Reaches(g', refs'[branch], refs[base]) <==>
            Reaches(g, refs[branch], refs[base]) || Changes(g, refs[branch], refs[base], mb, diff)
    ensures r.commit.At? <==> Reaches(g', refs'[branch], refs[base])
    ensures refs'[branch] != refs[branch] ==>
              refs'[branch] == |g| < |g'| && |g'[|g|].parents| == 2 &&
              g'[|g|].parents[0] == refs[branch] && g'[|g|].parents[1] == refs[base]
  {
    hide MergedTree, MergedAt, ChangedPaths, Clashes, Sorted;
    if refs'[branch] != refs[branch] {
      var k := 1;
      assert g'[|g|].parents[k] == refs[base] && Reaches(g', g'[|g|].parents[k], refs[base]);
    }
  }

  // Both branches deleted the same file on their own: the sync completes, commits nothing,
  // and leaves the base tip outside the branch's history.
  lemma SameDeletionIsNotIntegrated(diff: Differ)
    requires ValidDiff(diff)
    ensures var g := [Commit(map["f" := "x"], []), Commit(map[], [0]), Commit(map[], [0])];
            var refs := map["feature" := 1, "main" := 2];
            && GraphOk(g) && SyncSpec(g, refs, g, refs, "feature", "main", diff, 0, Synced(true, [], ZeroHash))
            && !Reaches(g, refs["feature"], refs["main"]) && !Changes(g, 1, 2, 0, diff)
  {
    var g := [Commit(map["f" := "x"], []), Commit(map[], [0]), Commit(map[], [0])];
    var s := Sides(g[0].tree, g[1].tree, g[2].tree);
    ForkHasItsRootAsMergeBase(g);
    assert HasFileAbove(g[0].tree, "f") ==> Under("f", "f");
    forall x | 0 <= x < |g| ensures CommitOk(g, x) {}
    forall p ensures !MergedAt(s, p, diff).conflict && MergedAt(s, p, diff).omit && !Clashes(s, p, diff) {}
    assert MergedTree(s, diff) == g[1].tree;
  }

  lemma ForkHasItsRootAsMergeBase(g: Graph)
    requires |g| == 3 && g[0].parents == [] && g[1].parents == [0] && g[2].parents == [0]
    ensures !Reaches(g, 1, 2) && 0 in MergeBases(g, 1, 2)
  {
    assert g[1].parents[0] == 0 && g[2].parents[0] == 0;
    forall y: nat ensures Reaches(g, 0, y) <==> y == 0 {}
    forall y: nat ensures Reaches(g, 1, y) <==> y == 1 || y == 0 {}
    forall y: nat ensures Reaches(g, 2, y) <==> y == 2 || y == 0 {}
  }

  // A second sync with unmoved tips finds the base tip as the only merge base and leaves
  // everything as it is, reporting the same tip.
  lemma SecondSyncChangesNothing(g: Graph, refs: map<string, nat>, g1: Graph, refs1: map<string, nat>,
                                 g2: Graph, refs2: map<string, nat>, branch: string, base: string,
                                 diff: Differ, mb: nat, mb2: nat, r: SyncResult, r2: SyncResult)
    requires ValidDiff(diff) && GraphOk(g)
    requires SyncSpec(g, refs, g1, refs1, branch, base, diff, mb, r) && r.commit.At?
    requires SyncSpec(g1, refs1, g2, refs2, branch, base, diff, mb2, r2)
    ensures MergeBases(g1, refs1[branch], refs1[base]) == {refs1[base]}
    ensures g2 == g1 && refs2 == refs1 && r2 == Synced(true, [], r.commit)
  {
    hide MergedTree, MergedAt, ChangedPaths, Clashes, Sorted;
    SyncIntegratesUnlessTreeUnchanged(g, refs, g1, refs1, branch, base, diff, mb, r);
    MergeBaseOfAncestor(g1, refs1[branch], refs1[base]);
  }

  lemma {:induction false} SortedIsUnique(a: seq<string>, b: seq<string>)
    requires Sorted(a) && Sorted(b) && forall p :: p in a <==> p in b
    ensures a == b
  {
    SameEmptiness(a, b);
    SameEmptiness(b, a);
    if a != [] {
      FirstIsLeast(a);
      FirstIsLeast(b);
      StrLessIsTotal(a[0], b[0]);
      assert a[0] in b && b[0] in a;
      forall p ensures p in a[1..] <==> p in b[1..] {
        RestIsWithoutFirst(a, p);
        RestIsWithoutFirst(b, p);
      }
      SortedIsUnique(a[1..], b[1..]);
      assert a == [a[0]] + a[1..] && b == [b[0]] + b[1..];
    }
  }

  lemma SameEmptiness(a: seq<string>, b: seq<string>)
    requires forall p :: p in a <==> p in b
    ensures a != [] ==> b != []
  {
    if a != [] { assert a[0] in b; }
  }

  lemma FirstIsLeast(a: seq<string>)
    requires Sorted(a) && a != []
    ensures Sorted(a[1..]) && forall p :: p in a ==> p == a[0] || StrLess(a[0], p)
  {
    hide StrLess;
  }

  lemma RestIsWithoutFirst(a: seq<string>, p: string)
    requires Sorted(a) && a != []
    ensures p in a[1..] <==> p in a && p != a[0]
  {
    hide StrLess;
    StrLessIsTotal(a[0], a[0]);
    assert a == [a[0]] + a[1..];
  }

  // A second sync after one that committed nothing commits nothing again: from the same
  // merge base it leaves everything as it is and reports the same.
  lemma SecondSyncCommitsNothingAgain(g: Graph, refs: map<string, nat>, g1: Graph, refs1: map<string, nat>,
                                      g2: Graph, refs2: map<string, nat>, branch: string, base: string,
                                      diff: Differ, mb: nat, r: SyncResult, r2: SyncResult)
    requires ValidDiff(diff) && GraphOk(g)
    requires SyncSpec(g, refs, g1, refs1, branch, base, diff, mb, r) && r.commit.ZeroHash?
    requires SyncSpec(g1, refs1, g2, refs2, branch, base, diff, mb, r2)
    ensures g2 == g1 == g && refs2 == refs1 == refs && r2 == r
  {
    hide MergedTree, MergedAt, ChangedPaths, Clashes, Sorted, Reaches, MergeBases;
    SortedIsUnique(r.conflicts, r2.conflicts);
  }
}
