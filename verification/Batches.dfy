/**
 Applying a batch of file operations to a worktree. A worktree that has been in use can
 hold directories its files do not need; they never change what a batch does to the
 files, but they can be in its way.
 */
module Batches {
  import opened Text
  import opened WorktreeFs
  import opened Staging

  // Whether a tree's .gitignore files exclude a path.
  type Ignore = (Tree, string) -> bool

  datatype Outcome = Refused | Applied(disk: Disk)

  // One operation; `at` is the tree whose ignore rules were read.
  function RunOp(k: Disk, op: FileOp, at: Tree, ignore: Ignore): Outcome {
    var p := OpPath(op);
    if !LegalPath(p) || ignore(at, p) then Refused
    else if op.op == "delete" then
      if p in k.files then Applied(Disk(k.files - {p}, k.dirs))
      else if p !in k.dirs then Applied(k)
      else if Occupied(k, p) then Refused
      else Applied(Disk(k.files, k.dirs - {p}))
    else if HasFileAbove(k.files, p) || p in k.dirs then Refused
    else Applied(Disk(k.files[p := op.content], k.dirs + Ancestors(p)))
  }

  function Effect(k: Disk, ops: seq<FileOp>, at: Tree, ignore: Ignore): Outcome {
    if ops == [] then Applied(k)
    else
      match Effect(k, ops[..|ops| - 1], at, ignore)
      case Refused => Refused
      case Applied(mid) => RunOp(mid, ops[|ops| - 1], at, ignore)
  }

  function Fresh(tree: Tree): Disk {
    Disk(tree, DirsOf(tree))
  }

  predicate Accepted(at: Tree, ops: seq<FileOp>, ignore: Ignore) {
    forall op :: op in ops ==> LegalPath(OpPath(op)) && !ignore(at, OpPath(op))
  }

  method ApplyOp(wt: Worktree, op: FileOp, at: Tree, ignore: Ignore) returns (ok: bool)
    requires wt.Valid()
    modifies wt
    ensures wt.Valid()
    ensures var was := old(Disk(wt.files, wt.dirs));
            && (ok <==> RunOp(was, op, at, ignore).Applied?)
            && Disk(wt.files, wt.dirs) == if ok then RunOp(was, op, at, ignore).disk else was
  {
    var p := TrimSpace(op.path);
    if p == "" || Contains(p, "..") || HasPrefix(p, "/") {
      return false;
    }
    if ignore(at, p) {
      return false;
    }
    if op.op == "delete" {
      if p !in wt.files && p !in wt.dirs {
        return true;
      }
      var removed := wt.Remove(p);
      return removed != FsError;
    }
    var written := wt.Write(p, op.content);
    ok := written == Done;
  }

  // A batch that is refused stops where it is: what the operations before did stays.
  method ApplyOps(wt: Worktree, ops: seq<FileOp>, ignore: Ignore) returns (ok: bool)
    requires wt.Valid()
    modifies wt
    ensures wt.Valid()
    ensures ok <==> Effect(old(Disk(wt.files, wt.dirs)), ops, old(wt.files), ignore).Applied?
    ensures var was := old(Disk(wt.files, wt.dirs));
            exists i :: 0 <= i <= |ops| && (ok <==> i == |ops|)
              && Effect(was, ops[..i], was.files, ignore) == Applied(Disk(wt.files, wt.dirs))
  {
    hide RunOp;
    var at := wt.files;
    ghost var was := Disk(wt.files, wt.dirs);
    for i := 0 to |ops|
      invariant wt.Valid() && Effect(was, ops[..i], at, ignore) == Applied(Disk(wt.files, wt.dirs))
    {
      assert ops[..i + 1][..i] == ops[..i];
      var applied := ApplyOp(wt, ops[i], at, ignore);
      if !applied {
        assert Effect(was, ops[..i + 1], at, ignore).Refused?;
        RunsByPrefix(was, ops, i + 1, at, ignore);
        return false;
      }
    }
    assert ops[..|ops|] == ops;
    ok := true;
  }

  lemma {:induction false} RunsByPrefix(k: Disk, ops: seq<FileOp>, i: nat, at: Tree, ignore: Ignore)
    requires i <= |ops|
    ensures Effect(k, ops, at, ignore).Applied? ==> Effect(k, ops[..i], at, ignore).Applied?
  {
    if i == |ops| {
      assert ops[..i] == ops;
    } else {
      assert ops[..|ops| - 1][..i] == ops[..i];
      RunsByPrefix(k, ops[..|ops| - 1], i, at, ignore);
    }
  }

  // A batch that goes through does to the files what its operations say.
  lemma {:induction false} RunFolds(k: Disk, ops: seq<FileOp>, at: Tree, ignore: Ignore)
    ensures Effect(k, ops, at, ignore).Applied? ==>
              Effect(k, ops, at, ignore).disk.files == Fold(k.files, ops) && Accepted(at, ops, ignore)
  {
    hide LegalPath, HasFileAbove, Ancestors, Occupied;
    if ops != [] {
      RunFolds(k, ops[..|ops| - 1], at, ignore);
      assert ops == ops[..|ops| - 1] + [ops[|ops| - 1]];
    }
  }

  lemma RunOpIsOk(k: Disk, op: FileOp, at: Tree, ignore: Ignore)
    requires DiskOk(k)
    ensures RunOp(k, op, at, ignore).Applied? ==> DiskOk(RunOp(k, op, at, ignore).disk)
  {
    hide LegalPath, Ancestors, Under;
    if RunOp(k, op, at, ignore).Applied? && op.op != "delete" {
      WriteIsValid(k.files, k.dirs, OpPath(op), op.content);
    }
  }

  lemma {:induction false} RunIsOk(k: Disk, ops: seq<FileOp>, at: Tree, ignore: Ignore)
    requires DiskOk(k)
    ensures Effect(k, ops, at, ignore).Applied? ==> DiskOk(Effect(k, ops, at, ignore).disk)
  {
    hide RunOp, DiskOk;
    if ops != [] {
      RunIsOk(k, ops[..|ops| - 1], at, ignore);
      var mid := Effect(k, ops[..|ops| - 1], at, ignore);
      if mid.Applied? { RunOpIsOk(mid.disk, ops[|ops| - 1], at, ignore); }
    }
  }

  /******* Directories in the way *******/

  // The same files, with more directories.
  predicate Roomier(k: Disk, more: Disk) {
    k.files == more.files && k.dirs <= more.dirs
  }

  lemma RunOpWithFewerDirs(k: Disk, more: Disk, op: FileOp, at: Tree, ignore: Ignore)
    requires Roomier(k, more) && RunOp(more, op, at, ignore).Applied?
    ensures RunOp(k, op, at, ignore).Applied?
    ensures Roomier(RunOp(k, op, at, ignore).disk, RunOp(more, op, at, ignore).disk)
  {
    hide LegalPath, HasFileAbove, Ancestors, Under;
  }

  // What goes through on a worktree goes through, to the same effect, on one with fewer
  // directories.
  lemma {:induction false} RunWithFewerDirs(k: Disk, more: Disk, ops: seq<FileOp>, at: Tree, ignore: Ignore)
    requires Roomier(k, more) && Effect(more, ops, at, ignore).Applied?
    ensures Effect(k, ops, at, ignore).Applied?
    ensures Roomier(Effect(k, ops, at, ignore).disk, Effect(more, ops, at, ignore).disk)
  {
    hide RunOp;
    if ops != [] {
      var n := |ops| - 1;
      RunWithFewerDirs(k, more, ops[..n], at, ignore);
      var mid, roomy := Effect(k, ops[..n], at, ignore).disk, Effect(more, ops[..n], at, ignore).disk;
      RunOpWithFewerDirs(mid, roomy, ops[n], at, ignore);
    }
  }

  // A directory that only the fuller worktree has stands where the operation writes, or
  // below where it deletes.
  ghost predicate Obstructs(k: Disk, more: Disk, op: FileOp) {
    exists d :: d in more.dirs && d !in k.dirs && if op.op == "delete" then Under(d, OpPath(op)) else d == OpPath(op)
  }

  lemma RunOpRefusesIff(k: Disk, more: Disk, op: FileOp, at: Tree, ignore: Ignore)
    requires Roomier(k, more) && DiskOk(k) && DiskOk(more) && RunOp(k, op, at, ignore).Applied?
    ensures RunOp(more, op, at, ignore).Refused? <==> Obstructs(k, more, op)
  {
    hide LegalPath, HasFileAbove, Ancestors, Under;
    var p := OpPath(op);
    if op.op == "delete" && RunOp(more, op, at, ignore).Refused? {
      forall q | q in k.files ensures !Under(q, p) {
        assert Under(q, p) ==> p in k.dirs && Occupied(k, p);
      }
      var d :| d in more.dirs && Under(d, p);
      assert d in k.dirs ==> p in k.dirs && Occupied(k, p);
    }
  }

  // The operation at which a fuller worktree refuses what a fresh one accepts.
  ghost predicate ObstructedAt(tree: Tree, k: Disk, ops: seq<FileOp>, ignore: Ignore, i: nat) {
    && i < |ops|
    && Effect(Fresh(tree), ops[..i], tree, ignore).Applied? && Effect(k, ops[..i], tree, ignore).Applied?
    && Obstructs(Effect(Fresh(tree), ops[..i], tree, ignore).disk, Effect(k, ops[..i], tree, ignore).disk, ops[i])
  }

  lemma {:induction false} RefusalHasATurn(k: Disk, ops: seq<FileOp>, at: Tree, ignore: Ignore) returns (i: nat)
    requires Effect(k, ops, at, ignore).Refused?
    ensures i < |ops| && Effect(k, ops[..i], at, ignore).Applied?
    ensures RunOp(Effect(k, ops[..i], at, ignore).disk, ops[i], at, ignore).Refused?
  {
    hide RunOp;
    var n := |ops| - 1;
    if Effect(k, ops[..n], at, ignore).Applied? {
      i := n;
    } else {
      i := RefusalHasATurn(k, ops[..n], at, ignore);
      assert ops[..n][..i] == ops[..i];
    }
  }

  lemma FreshIsRoomiest(tree: Tree, k: Disk)
    requires DiskOk(k) && k.files == tree
    ensures DiskOk(Fresh(tree)) && Roomier(Fresh(tree), k)
  {
    CheckoutIsValid(tree);
    forall d | d in DirsOf(tree) ensures d in k.dirs { DirsOfHolds(tree, d); }
  }

  lemma TurnRefusesIff(tree: Tree, k: Disk, ops: seq<FileOp>, ignore: Ignore, i: nat)
    requires DiskOk(k) && k.files == tree && Effect(Fresh(tree), ops, tree, ignore).Applied?
    requires i < |ops| && Effect(k, ops[..i], tree, ignore).Applied?
    ensures RunOp(Effect(k, ops[..i], tree, ignore).disk, ops[i], tree, ignore).Refused? <==>
            ObstructedAt(tree, k, ops, ignore, i)
  {
    hide RunOp, Obstructs, DiskOk, Fresh;
    FreshIsRoomiest(tree, k);
    RunsByPrefix(Fresh(tree), ops, i, tree, ignore);
    RunsByPrefix(Fresh(tree), ops, i + 1, tree, ignore);
    assert ops[..i + 1][..i] == ops[..i];
    RunWithFewerDirs(Fresh(tree), k, ops[..i], tree, ignore);
    RunIsOk(k, ops[..i], tree, ignore);
    RunIsOk(Fresh(tree), ops[..i], tree, ignore);
    var mid, full := Effect(Fresh(tree), ops[..i], tree, ignore).disk, Effect(k, ops[..i], tree, ignore).disk;
    RunOpRefusesIff(mid, full, ops[i], tree, ignore);
  }

  // A batch that a fresh clone accepts is refused by a worktree with leftover directories
  // exactly when one of them is in the way of an operation at its turn.
  lemma RefusedIffObstructed(tree: Tree, k: Disk, ops: seq<FileOp>, ignore: Ignore)
    requires DiskOk(k) && k.files == tree && Effect(Fresh(tree), ops, tree, ignore).Applied?
    ensures Effect(k, ops, tree, ignore).Refused? <==> exists i :: ObstructedAt(tree, k, ops, ignore, i)
  {
    hide RunOp, Obstructs, DiskOk, Fresh;
    if Effect(k, ops, tree, ignore).Refused? {
      var i := RefusalHasATurn(k, ops, tree, ignore);
      TurnRefusesIff(tree, k, ops, ignore, i);
    }
    if i: nat :| ObstructedAt(tree, k, ops, ignore, i) {
      TurnRefusesIff(tree, k, ops, ignore, i);
      assert ops[..i + 1][..i] == ops[..i];
      RunsByPrefix(k, ops, i + 1, tree, ignore);
    }
  }
}
