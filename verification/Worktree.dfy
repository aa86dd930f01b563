/**
 A git worktree as the merge and the commit manager use it: files by slash-separated
 path, plus the directories that exist. Directories appear with the files below them and
 stay when those files go.
 */
module WorktreeFs {

  type Tree = map<string, string>

  // `dir` is a proper ancestor directory of `p`.
  predicate Under(p: string, dir: string) {
    |dir| < |p| && p[..|dir|] == dir && p[|dir|] == '/'
  }

  predicate HasFileAbove(files: Tree, p: string) {
    exists q :: q in files && Under(p, q)
  }

  // No file is also a directory of another file.
  predicate ValidTree(t: Tree) {
    forall p :: p in t ==> !HasFileAbove(t, p)
  }

  function Ancestors(p: string): set<string> {
    set i: nat | i < |p| && p[i] == '/' :: p[..i]
  }

  function DirsOf(t: Tree): set<string> {
    set p, d | p in t && d in Ancestors(p) :: d
  }

  lemma AncestorsAreAbove(p: string, d: string)
    ensures d in Ancestors(p) <==> Under(p, d)
  {
    if Under(p, d) { assert p[..|d|] == d; }
  }

  lemma DirsOfHolds(t: Tree, d: string)
    ensures d in DirsOf(t) <==> exists p :: p in t && Under(p, d)
  {
    if d in DirsOf(t) {
      var p :| p in t && d in Ancestors(p);
      AncestorsAreAbove(p, d);
    }
    if p :| p in t && Under(p, d) {
      AncestorsAreAbove(p, d);
      assert d in DirsOf(t);
    }
  }

  datatype FsResult = Done | NotExist | FsError

  // What is on disk.
  datatype Disk = Disk(files: Tree, dirs: set<string>)

  // A directory per file or directory below it, and nothing that is both.
  ghost predicate DiskOk(k: Disk) {
    && ValidTree(k.files)
    && (forall d :: d in k.dirs ==> d !in k.files)
    && (forall p, d :: p in k.files && Under(p, d) ==> d in k.dirs)
    && (forall e, d :: e in k.dirs && Under(e, d) ==> d in k.dirs)
  }

  lemma FilesAreValid(k: Disk)
    requires DiskOk(k)
    ensures ValidTree(k.files)
  {
  }

  // Something is in the directory `p`.
  predicate Occupied(k: Disk, p: string) {
    (exists q :: q in k.files && Under(q, p)) || (exists d :: d in k.dirs && Under(d, p))
  }

  class Worktree {
    var files: Tree
    var dirs: set<string>

    ghost predicate Valid()
      reads this
    {
      DiskOk(Disk(files, dirs))
    }

    // A clone: exactly the commit's tree.
    constructor (tree: Tree)
      requires ValidTree(tree)
      ensures Valid() && files == tree && dirs == DirsOf(tree)
    {
      files := tree;
      dirs := DirsOf(tree);
      new;
      CheckoutIsValid(tree);
    }

    // The worktree of a clone that has been in use.
    constructor Reuse(k: Disk)
      requires DiskOk(k)
      ensures Valid() && files == k.files && dirs == k.dirs
    {
      files := k.files;
      dirs := k.dirs;
    }

    // Filesystem.Remove
    method Remove(p: string) returns (r: FsResult)
      requires Valid()
      modifies this
      ensures Valid()
      ensures p in old(files) ==> r == Done && files == old(files) - {p} && dirs == old(dirs)
      ensures p !in old(files) ==> files == old(files)
      ensures p !in old(files) && p !in old(dirs) ==>
                dirs == old(dirs) && (r == FsError <==> HasFileAbove(old(files), p)) && (r == FsError || r == NotExist)
      ensures p in old(dirs) ==>
                if Occupied(Disk(old(files), old(dirs)), p) then r == FsError && dirs == old(dirs)
                else r == Done && dirs == old(dirs) - {p}
    {
      if p in files {
        files := files - {p};
        return Done;
      }
      if p in dirs {
        if Occupied(Disk(files, dirs), p) {
          return FsError;
        }
        dirs := dirs - {p};
        return Done;
      }
      if HasFileAbove(files, p) {
        return FsError;
      }
      r := NotExist;
    }

    // MkdirAll of the parent, then Create and write.
    method Write(p: string, data: string) returns (r: FsResult)
      requires Valid()
      modifies this
      ensures Valid()
      ensures r == Done <==> !HasFileAbove(old(files), p) && p !in old(dirs)
      ensures r == Done ==> files == old(files)[p := data] && dirs == old(dirs) + Ancestors(p)
      ensures r != Done ==> files == old(files) && dirs == old(dirs)
      ensures r != Done ==> r == FsError
    {
      if HasFileAbove(files, p) {
        return FsError;
      }
      if p in dirs {
        return FsError;
      }
      WriteIsValid(files, dirs, p, data);
      files := files[p := data];
      dirs := dirs + Ancestors(p);
      r := Done;
    }
  }

  lemma UnderIsTransitive(p: string, d: string, e: string)
    requires Under(p, d) && Under(d, e)
    ensures Under(p, e)
  {
    assert p[..|e|] == d[..|e|];
    assert p[|e|] == d[|e|];
  }

  lemma CheckoutIsValid(tree: Tree)
    requires ValidTree(tree)
    ensures DiskOk(Disk(tree, DirsOf(tree)))
  {
    forall d ensures d in DirsOf(tree) <==> exists p :: p in tree && Under(p, d) {
      DirsOfHolds(tree, d);
    }
    forall e, d | e in DirsOf(tree) && Under(e, d) ensures d in DirsOf(tree) {
      var p :| p in tree && Under(p, e);
      UnderIsTransitive(p, e, d);
    }
  }

  lemma WriteIsValid(files: Tree, dirs: set<string>, p: string, data: string)
    requires DiskOk(Disk(files, dirs)) && !HasFileAbove(files, p) && p !in dirs
    ensures DiskOk(Disk(files[p := data], dirs + Ancestors(p)))
  {
    forall d ensures d in Ancestors(p) <==> Under(p, d) { AncestorsAreAbove(p, d); }
    forall e, d | e in Ancestors(p) && Under(e, d) ensures d in Ancestors(p) {
      UnderIsTransitive(p, e, d);
    }
  }
}
