/**
 Runs of the manager: sequences of operations that show what the cache changes, and what a
 caller can rely on across operations.
 */
module CloneRuns {
  import opened Text
  import opened WorktreeFs
  import opened Staging
  import opened Batches
  import opened CloneCache

  /******* A reset to a dropped commit *******/

  // The run that shows it: two writes in a row, then a reset to the commit the second one
  // dropped. Through the cached clone it goes through, though a fresh clone would not know
  // that commit: the branch does not reach it.
  method ResetToDroppedCommit(m: Manager, o: Options, first: seq<FileOp>, second: seq<FileOp>, ignore: Ignore)
    returns (r: Result<History>)
    requires m.Valid() && Plain(o) && o in m.remote
    requires CanWrite(m.remote[o], first) && m.Starts(o, first, ignore).Applied?
    requires var h, k := Written(m.remote[o], first), m.Starts(o, first, ignore).disk;
             && CanWrite(h, second) && Effect(k, second, Tip(h).tree, ignore).Applied?
             && !m.git.fails(Effect(k, second, Tip(h).tree, ignore).disk, Tip(h).tree)
    modifies m
    ensures m.Valid()
    ensures var dropped := old(Written(m.remote[o], first));
            && dropped !in Reached(Written(dropped, second))
            && (m.faults == old(m.faults) ==> r == Ok(dropped) && m.remote == old(m.remote)[o := dropped])
  {
    hide CanWrite, Written, Reached, Fold, HostOk, CacheOk, GitOk, Effect, StartDisk, StartObjects, OpensOn;
    SecondWriteDropsTheFirst(m.remote[o], first, second);
    WriteCases(m.remote[o], first);
    WriteCases(Written(m.remote[o], first), second);
    ghost var h0, k0 := m.remote[o], m.Starts(o, first, ignore).disk;
    TipIsValid(m.remote, o);
    StartIsOk(m.git, m.cache, m.nextDir, m.clock, o, Tip(h0).tree);
    var one := m.ApplyFiles(o, first, ignore);
    if one.Err? { return one; }
    ghost var clean := m.faults == old(m.faults);
    if clean { StartsWhereTheWriteEnded(m.git, m.cache, m.nextDir, m.clock, o, one.value); }
    var two := m.ApplyFiles(o, second, ignore);
    if two.Err? { return two; }
    if m.faults == old(m.faults) { StartsWhereTheWriteEnded(m.git, m.cache, m.nextDir, m.clock, o, two.value); }
    r := m.ResetTo(o, one.value);
  }

  // Such writes exist.
  lemma TwoWritesToOneFile(ignore: Ignore, git: Git)
    requires GitOk(git) && forall t, p :: !ignore(t, p)
    ensures var h: History := [Commit(map[], "init", [])];
            var first, second := [FileOp("f", "update", "1")], [FileOp("f", "update", "2")];
            var one, two := map["f" := "1"], map["f" := "2"];
            && CanWrite(h, first) && Effect(Fresh(map[]), first, map[], ignore) == Applied(Fresh(one))
            && CanWrite(Written(h, first), second) && Tip(Written(h, first)).tree == one
            && Effect(Fresh(one), second, one, ignore) == Applied(Fresh(two)) && !git.fails(Fresh(two), one)
  {
    var h: History := [Commit(map[], "init", [])];
    var first, second := [FileOp("f", "update", "1")], [FileOp("f", "update", "2")];
    var one, two := map["f" := "1"], map["f" := "2"];
    SingleWrite(map[], "f", "1", ignore);
    SingleWrite(one, "f", "2", ignore);
    assert one["f" := "2"] == two && map[]["f" := "1"] == one;
    assert !HasPrefix("init", PLACEHOLDER_PREFIX);
    assert "f" !in Tip(h).tree && "f" in one && one["f"] != two["f"];
    OneFileIsValid("f", "1");
    OneFileIsValid("f", "2");
    CheckoutIsValid(two);
    ResetIsOk(git, Fresh(two), one);
  }

  lemma OneFileIsValid(p: string, content: string)
    requires |p| == 1 && p[0] != '/'
    ensures ValidTree(map[p := content]) && DirsOf(map[p := content]) == {} && Ancestors(p) == {}
  {
    forall d ensures d !in DirsOf(map[p := content]) { DirsOfHolds(map[p := content], d); }
  }

  lemma SingleWrite(t: Tree, p: string, content: string, ignore: Ignore)
    requires |p| == 1 && !IsSpace(p[0]) && p[0] != '/' && p != "."
    requires !ignore(t, p) && forall q :: q in t ==> q == p
    ensures var ops := [FileOp(p, "update", content)];
            && Fold(t, ops) == t[p := content]
            && Effect(Fresh(t), ops, t, ignore) == Applied(Fresh(t[p := content]))
  {
    var op := FileOp(p, "update", content);
    assert TrimSpace(p) == p;
    assert [op][..0] == [] && Fold(t, []) == t;
    OneFileIsValid(p, content);
    if t != map[] {
      assert t.Keys == {p};
      assert t == map[p := t[p]];
      OneFileIsValid(p, t[p]);
    }
    assert DirsOf(t) == {};
    assert t[p := content] == map[p := content];
  }

  /******* A leftover directory *******/

  predicate Proper(p: string, at: Tree, ignore: Ignore) {
    TrimSpace(p) == p && LegalPath(p) && !ignore(at, p)
  }

  // `f` is the one file below the directory `d`.
  predicate OnlyFile(t: Tree, f: string, d: string) {
    f in t && Under(f, d) && forall q :: q in t && Under(q, d) ==> q == f
  }

  lemma DeleteKeepsDirectories(k: Disk, f: string, d: string, ignore: Ignore)
    requires DiskOk(k) && OnlyFile(k.files, f, d) && Proper(f, k.files, ignore)
    ensures Effect(k, [FileOp(f, "delete", "")], k.files, ignore) == Applied(Disk(k.files - {f}, k.dirs))
    ensures Fold(k.files, [FileOp(f, "delete", "")]) == k.files - {f} != k.files && d in k.dirs
  {
    var ops := [FileOp(f, "delete", "")];
    assert ops[..0] == [];
    assert Fold(k.files, []) == k.files;
  }

  lemma WriteOverDirectory(t: Tree, dirs: set<string>, d: string, content: string, ignore: Ignore)
    requires d in dirs && Proper(d, t, ignore)
    requires d !in t && !HasFileAbove(t, d) && forall q :: q in t ==> !Under(q, d)
    ensures Effect(Disk(t, dirs), [FileOp(d, "update", content)], t, ignore).Refused?
    ensures Effect(Fresh(t), [FileOp(d, "update", content)], t, ignore).Applied?
    ensures Fold(t, [FileOp(d, "update", content)]) != t
  {
    var ops := [FileOp(d, "update", content)];
    assert ops[..0] == [];
    assert Fold(t, []) == t;
    DirsOfHolds(t, d);
  }

  // The run that shows it: delete the only file of a directory, then write a file where the
  // directory was. A fresh clone accepts the second batch, the cached one refuses it.
  method LeftoverDirectoryRefuses(m: Manager, o: Options, f: string, d: string, content: string, ignore: Ignore)
    returns (one: Result<History>, two: Result<History>)
    requires m.Valid() && Plain(o) && o in m.remote
    requires var t := Tip(m.remote[o]).tree;
             OnlyFile(t, f, d) && Proper(f, t, ignore) && Proper(d, t - {f}, ignore)
    modifies m
    ensures m.Valid()
    ensures var h := old(Written(m.remote[o], [FileOp(f, "delete", "")]));
            var ops, t := [FileOp(d, "update", content)], Tip(h).tree;
            && t == old(Tip(m.remote[o]).tree) - {f}
            && CanWrite(h, ops) && Effect(Fresh(t), ops, t, ignore).Applied?
            && (m.faults == old(m.faults) ==> one == Ok(h) && two == Err(BadOp) && m.remote == old(m.remote)[o := h])
  {
    hide Effect, Fold, CanWrite, Written, HostOk, CacheOk, GitOk, StartDisk, StartObjects, Reached, Proper, OpensOn;
    ghost var h0, t0 := m.remote[o], Tip(m.remote[o]).tree;
    ghost var k0 := StartDisk(m.git, m.cache, o, t0);
    var first, second := [FileOp(f, "delete", "")], [FileOp(d, "update", content)];
    TipIsValid(m.remote, o);
    StartIsOk(m.git, m.cache, m.nextDir, m.clock, o, t0);
    DeleteKeepsDirectories(k0, f, d, ignore);
    DirectoryOfFile(k0, f, d);
    WriteOverDirectory(t0 - {f}, k0.dirs, d, content, ignore);
    WriteCases(h0, first);
    WriteCases(Written(h0, first), second);
    one := m.ApplyFiles(o, first, ignore);
    if one.Ok? { StartsWhereTheWriteEnded(m.git, m.cache, m.nextDir, m.clock, o, one.value); }
    two := m.ApplyFiles(o, second, ignore);
  }

  lemma WriteCases(h: History, ops: seq<FileOp>)
    ensures CanWrite(h, ops) <==> ops != [] && Fold(Tip(h).tree, ops) != Tip(h).tree
    ensures Tip(Written(h, ops)).tree == Fold(Tip(h).tree, ops)
  {
  }

  lemma DirectoryOfFile(k: Disk, f: string, d: string)
    requires DiskOk(k) && OnlyFile(k.files, f, d)
    ensures d in k.dirs && d !in k.files && !HasFileAbove(k.files - {f}, d)
    ensures forall q :: q in k.files - {f} ==> !Under(q, d)
  {
    forall q | q in k.files ensures !Under(d, q) {
      if Under(d, q) { UnderIsTransitive(f, d, q); }
    }
  }

  // Such files exist.
  lemma DirectoryWithOneFile(ignore: Ignore)
    requires forall t, p :: !ignore(t, p)
    ensures var t := map["a/f" := "1", "b" := "2"];
            ValidTree(t) && OnlyFile(t, "a/f", "a") && Proper("a/f", t, ignore) && Proper("a", t - {"a/f"}, ignore)
  {
    assert "a/f"[..1] == "a" && "a/f"[1] == '/';
    assert "b"[0] != 'a' && "a/f"[0] != 'b';
    assert TrimSpace("a/f") == "a/f" && TrimSpace("a") == "a";
    assert !HasPrefix("a", "/") by { assert "a"[..1][0] == 'a'; }
    assert !Contains("a", "..") && LegalPath("a");
    assert forall k: nat :: k <= 3 ==> !ContainsAt("a/f", "..", k) by {
      forall k: nat | k <= 3 ensures !ContainsAt("a/f", "..", k) {
        if k + 2 <= 3 { assert "a/f"[k..k + 2][0] == "a/f"[k]; assert "a/f"[k] != '.'; }
      }
    }
  }

  /******* A write and a commit *******/

  // A write to a settled branch, then a commit: without faults both go through.
  method WriteThenClose(m: Manager, o: Options, ops: seq<FileOp>, message: string, ignore: Ignore)
    returns (written: Result<History>, closed: Result<History>)
    requires m.Valid() && Plain(o) && o in m.remote && !Open(m.remote[o]) && !AllSpaces(message)
    modifies m
    ensures m.Valid()
    ensures m.faults == old(m.faults) && written.Ok? ==>
              && closed.Ok? && m.remote == old(m.remote)[o := closed.value]
              && closed.value[..|closed.value| - 1] == old(m.remote[o])
              && Tip(closed.value).tree == Fold(old(Tip(m.remote[o]).tree), ops) && Tip(closed.value).message == message
  {
    hide Fold, HostOk, CacheOk, GitOk, Effect, StartDisk, StartObjects, Reached, AllSpaces;
    written := m.ApplyFiles(o, ops, ignore);
    if written.Ok? {
      ghost var h := old(m.remote[o]);
      WriteCanBeClosed(h, ops, message);
      CanCloseIff(written.value, message);
    }
    closed := m.Close(o, message);
  }
}
