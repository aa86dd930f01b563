/**
 The manager that runs branch operations through a bounded cache of clones. What an
 operation that goes through does to the remote is said in terms of the remote alone:
 whatever earlier calls left in a cached clone, it is what a fresh one would do. What a
 cached clone can do otherwise is to refuse a batch, because of directories left in its
 worktree, and to know commits that a fresh one does not. Every network step may fail,
 and a failed push may still have arrived.
 */
module CloneCache {
  import opened Text
  import opened WorktreeFs
  import opened Staging
  import opened Batches

  datatype Options = Options(url: string, branch: string)

  // `objects` are the commits in the clone's object store, `disk` its worktree.
  datatype Cloned = Cloned(dir: nat, ref: Options, local: History, disk: Disk, objects: set<History>, last: nat)

  // What a hard reset to a tree does on a worktree, as far as it is not determined: whether
  // it fails, and which directories it leaves.
  datatype Git = Git(fails: (Disk, Tree) -> bool, leaves: (Disk, Tree) -> set<string>)

  datatype Error =
    | NoOps | NoMessage | BadOp | NoChanges | NothingStaged | UnknownCommit | NoBranch | ResetFailed
    | Network

  datatype Result<+T> = Ok(value: T) | Err(error: Error)

  datatype StatusInfo = StatusInfo(placeholder: bool, staged: bool, tip: History, mergeTip: History)

  function Key(o: Options): string {
    o.url + "\0" + o.branch
  }

  predicate Plain(o: Options) {
    '\0' !in o.url
  }

  lemma LongerUrlHasOtherKeys(a: Options, b: Options)
    requires Plain(b) && |a.url| < |b.url|
    ensures Key(a) != Key(b)
  {
    assert Key(a)[|a.url|] == '\0' && Key(b)[|a.url|] == b.url[|a.url|];
  }

  lemma KeySeparates(a: Options, b: Options)
    requires Plain(a) && Plain(b)
    ensures Key(a) == Key(b) <==> a == b
  {
    var n := |a.url|;
    if n < |b.url| {
      LongerUrlHasOtherKeys(a, b);
    } else if |b.url| < n {
      LongerUrlHasOtherKeys(b, a);
    } else {
      assert Key(a)[..n] == a.url && Key(b)[..n] == b.url;
      assert Key(a)[n + 1..] == a.branch && Key(b)[n + 1..] == b.branch;
    }
  }

  // The commits a tip reaches, through first and further parents.
  function Reached(h: seq<Commit>): set<History> {
    if h == [] then {}
    else
      var n := |h| - 1;
      Reached(h[..n]) + {h} + (set j, p | 0 <= j < |h[n].merged| && p in Reached(h[n].merged[j].history) :: p)
  }

  lemma {:induction false} ReachedIsClosed(h: seq<Commit>, p: History)
    requires p in Reached(h)
    ensures Reached(p) <= Reached(h)
  {
    var n := |h| - 1;
    if p != h {
      if p in Reached(h[..n]) {
        ReachedIsClosed(h[..n], p);
      } else {
        var j :| 0 <= j < |h[n].merged| && p in Reached(h[n].merged[j].history);
        ReachedIsClosed(h[n].merged[j].history, p);
      }
    }
  }

  lemma {:induction false} PrefixReachesLess(h: seq<Commit>, p: seq<Commit>)
    requires p <= h
    ensures Reached(p) <= Reached(h) && (p != [] ==> p in Reached(h))
  {
    if p != h {
      assert p <= h[..|h| - 1];
      PrefixReachesLess(h[..|h| - 1], p);
    }
  }

  // On top of a history, a commit that merges nothing reaches itself and that history.
  lemma ReachedGrows(h: seq<Commit>, c: Commit)
    requires c.merged == []
    ensures Reached(h + [c]) == Reached(h) + {h + [c]}
  {
    assert (h + [c])[..|h|] == h;
  }

  ghost predicate HistoryOk(h: seq<Commit>) {
    forall p :: p in Reached(h) ==> ValidTree(Tip(p).tree)
  }

  ghost predicate HostOk(remote: map<Options, History>) {
    forall o :: o in remote ==> HistoryOk(remote[o])
  }

  /******* The cache as a value *******/

  ghost predicate EntryOk(k: string, c: Cloned, nextDir: nat, clock: nat) {
    && Plain(c.ref) && k == Key(c.ref) && c.dir < nextDir && c.last <= clock
    && DiskOk(c.disk) && forall h :: h in c.objects ==> HistoryOk(h)
  }

  // One entry per branch, each in a directory of its own.
  ghost predicate CacheOk(cache: map<string, Cloned>, nextDir: nat, clock: nat) {
    && (forall k :: k in cache ==> EntryOk(k, cache[k], nextDir, clock))
    && (forall j, k :: j in cache && k in cache && cache[j].dir == cache[k].dir ==> j == k)
  }

  function Dirs(cache: map<string, Cloned>): set<nat> {
    set k | k in cache :: cache[k].dir
  }

  lemma CacheOkLater(cache: map<string, Cloned>, nextDir: nat, clock: nat, nextDir': nat, clock': nat)
    requires CacheOk(cache, nextDir, clock) && nextDir <= nextDir' && clock <= clock'
    ensures CacheOk(cache, nextDir', clock')
  {
  }

  lemma EntryLookup(cache: map<string, Cloned>, nextDir: nat, clock: nat, o: Options)
    requires CacheOk(cache, nextDir, clock) && Plain(o) && Key(o) in cache
    ensures cache[Key(o)].ref == o && EntryOk(Key(o), cache[Key(o)], nextDir, clock)
  {
    KeySeparates(cache[Key(o)].ref, o);
  }

  lemma NoEmptyKey(cache: map<string, Cloned>, nextDir: nat, clock: nat)
    requires CacheOk(cache, nextDir, clock)
    ensures "" !in cache
  {
  }

  lemma CacheOkRemove(cache: map<string, Cloned>, nextDir: nat, clock: nat, k: string)
    requires CacheOk(cache, nextDir, clock) && k in cache
    ensures CacheOk(cache - {k}, nextDir, clock)
    ensures cache[k].dir in Dirs(cache) && Dirs(cache - {k}) == Dirs(cache) - {cache[k].dir}
    ensures |cache - {k}| == |cache| - 1
  {
    assert (cache - {k}).Keys == cache.Keys - {k};
    forall d ensures d in Dirs(cache - {k}) <==> d in Dirs(cache) && d != cache[k].dir {
      if j :| j in cache && cache[j].dir == d && d != cache[k].dir { assert (cache - {k})[j].dir == d; }
    }
  }

  lemma CacheOkUpdate(cache: map<string, Cloned>, nextDir: nat, clock: nat, k: string, c: Cloned)
    requires CacheOk(cache, nextDir, clock) && k in cache
    requires EntryOk(k, c, nextDir, clock) && c.dir == cache[k].dir
    ensures CacheOk(cache[k := c], nextDir, clock)
    ensures Dirs(cache[k := c]) == Dirs(cache) && |cache[k := c]| == |cache|
  {
    assert cache[k := c].Keys == cache.Keys;
    assert forall j :: j in cache ==> cache[k := c][j].dir == cache[j].dir;
  }

  lemma CacheOkInsert(cache: map<string, Cloned>, nextDir: nat, clock: nat, k: string, c: Cloned)
    requires CacheOk(cache, nextDir, clock) && k !in cache
    requires EntryOk(k, c, nextDir, clock) && c.dir !in Dirs(cache)
    ensures CacheOk(cache[k := c], nextDir, clock)
    ensures Dirs(cache[k := c]) == Dirs(cache) + {c.dir} && |cache[k := c]| == |cache| + 1
  {
    hide EntryOk, Dirs;
    var more := cache[k := c];
    assert more.Keys == cache.Keys + {k};
    forall j | j in cache ensures more[j] == cache[j] && cache[j].dir != c.dir { DirIsListed(cache, j); }
    DirsAfterInsert(cache, k, c);
  }

  lemma DirIsListed(cache: map<string, Cloned>, k: string)
    requires k in cache
    ensures cache[k].dir in Dirs(cache)
  {
  }

  lemma DirsAfterInsert(cache: map<string, Cloned>, k: string, c: Cloned)
    requires k !in cache
    ensures Dirs(cache[k := c]) == Dirs(cache) + {c.dir}
  {
    var more := cache[k := c];
    assert more[k].dir == c.dir;
    forall d | d in Dirs(cache) ensures d in Dirs(more) {
      var j :| j in cache && cache[j].dir == d;
      assert more[j].dir == d;
    }
  }

  // A plain push moves a branch that is absent, or that the new tip descends from.
  predicate Accepts(remote: map<Options, History>, o: Options, h: History) {
    o in remote ==> remote[o] in Reached(h)
  }

  /******* What a reset leaves *******/

  // A file of the tree has a directory in its place, or a file in place of a directory.
  predicate Tangled(k: Disk, tree: Tree) {
    exists p :: p in tree && (p in k.dirs || HasFileAbove(k.files, p))
  }

  // A reset makes the files those of the tree, or fails over a file that would replace a
  // directory or the reverse. It may leave directories, and changes nothing when the files
  // are those of the tree already.
  ghost predicate ResetOk(git: Git, k: Disk, tree: Tree) {
    && (git.fails(k, tree) ==> Tangled(k, tree))
    && (!git.fails(k, tree) ==>
          && DiskOk(Disk(tree, git.leaves(k, tree))) && git.leaves(k, tree) <= DirsOf(tree) + k.dirs
          && (k.files == tree ==> git.leaves(k, tree) == k.dirs))
  }

  ghost predicate GitOk(git: Git) {
    forall k, tree :: DiskOk(k) && ValidTree(tree) ==> ResetOk(git, k, tree)
  }

  // The worktree an operation on a branch with this tree starts from when no call fails.
  function StartDisk(git: Git, cache: map<string, Cloned>, o: Options, tree: Tree): Disk {
    if Key(o) in cache && !git.fails(cache[Key(o)].disk, tree) then Disk(tree, git.leaves(cache[Key(o)].disk, tree))
    else Fresh(tree)
  }

  // The commits known then.
  function StartObjects(git: Git, cache: map<string, Cloned>, o: Options, h: History): set<History> {
    if Key(o) in cache && !git.fails(cache[Key(o)].disk, Tip(h).tree) then cache[Key(o)].objects + Reached(h)
    else Reached(h)
  }

  lemma ResetIsOk(git: Git, k: Disk, tree: Tree)
    requires GitOk(git) && DiskOk(k) && ValidTree(tree)
    ensures ResetOk(git, k, tree)
  {
  }

  // A reset to the tree that is there already changes nothing.
  lemma ResetInPlace(git: Git, k: Disk)
    requires GitOk(git) && DiskOk(k)
    ensures !git.fails(k, k.files) && git.leaves(k, k.files) == k.dirs
  {
    assert ResetOk(git, k, k.files);
    assert !Tangled(k, k.files);
  }

  lemma StartIsOk(git: Git, cache: map<string, Cloned>, nextDir: nat, clock: nat, o: Options, tree: Tree)
    requires GitOk(git) && CacheOk(cache, nextDir, clock) && ValidTree(tree)
    ensures DiskOk(StartDisk(git, cache, o, tree)) && StartDisk(git, cache, o, tree).files == tree
  {
    CheckoutIsValid(tree);
    if Key(o) in cache { ResetIsOk(git, cache[Key(o)].disk, tree); }
  }

  ghost predicate Subcache(a: map<string, Cloned>, b: map<string, Cloned>) {
    forall k :: k in a ==> k in b && a[k] == b[k]
  }

  function Refreshed(git: Git, c: Cloned, h: History): Cloned {
    var tree := Tip(h).tree;
    c.(local := h, disk := Disk(tree, git.leaves(c.disk, tree)), objects := c.objects + Reached(h))
  }

  function Submitted(h: History, ops: seq<FileOp>, message: string): History {
    h + [Commit(Fold(Tip(h).tree, ops), message, [])]
  }

  lemma ReachedAreOk(h: History)
    requires HistoryOk(h)
    ensures forall p :: p in Reached(h) ==> HistoryOk(p)
  {
    forall p | p in Reached(h) ensures HistoryOk(p) { ReachedIsClosed(h, p); }
  }

  lemma RefreshedIsOk(git: Git, remote: map<Options, History>, c: Cloned, nextDir: nat, clock: nat)
    requires GitOk(git) && HostOk(remote) && c.ref in remote && EntryOk(Key(c.ref), c, nextDir, clock)
    requires !git.fails(c.disk, Tip(remote[c.ref]).tree)
    ensures EntryOk(Key(c.ref), Refreshed(git, c, remote[c.ref]).(last := clock), nextDir, clock)
  {
    ReachedAreOk(remote[c.ref]);
    TipIsValid(remote, c.ref);
    ResetIsOk(git, c.disk, Tip(remote[c.ref]).tree);
  }

  lemma FreshIsOk(remote: map<Options, History>, c: Cloned, nextDir: nat, clock: nat)
    requires HostOk(remote) && c.ref in remote && Plain(c.ref) && c.dir < nextDir && c.last <= clock
    requires c.objects == Reached(remote[c.ref]) && c.disk == Fresh(Tip(remote[c.ref]).tree)
    ensures EntryOk(Key(c.ref), c, nextDir, clock)
  {
    ReachedAreOk(remote[c.ref]);
    TipIsValid(remote, c.ref);
    CheckoutIsValid(Tip(remote[c.ref]).tree);
  }

  lemma KnownIsOk(c: Cloned, nextDir: nat, clock: nat, h: History)
    requires EntryOk(Key(c.ref), c, nextDir, clock) && h in c.objects
    ensures HistoryOk(h) && ValidTree(Tip(h).tree)
  {
  }

  lemma NewDirIsUnused(cache: map<string, Cloned>, nextDir: nat, clock: nat)
    requires CacheOk(cache, nextDir, clock)
    ensures nextDir !in Dirs(cache)
  {
  }

  lemma TipIsValid(remote: map<Options, History>, o: Options)
    requires HostOk(remote) && o in remote
    ensures ValidTree(Tip(remote[o]).tree) && HistoryOk(remote[o])
  {
  }

  lemma NextTipIsOk(remote: map<Options, History>, o: Options, h: History, tree: Tree)
    requires HostOk(remote) && o in remote && ValidTree(tree) && Tip(h).tree == tree
    requires h[..|h| - 1] <= remote[o] && (Tip(h).merged == [] || Tip(h).merged == Tip(remote[o]).merged)
    ensures HistoryOk(h)
  {
    PrefixReachesLess(remote[o], h[..|h| - 1]);
  }

  lemma WrittenIsOk(remote: map<Options, History>, o: Options, ops: seq<FileOp>)
    requires HostOk(remote) && o in remote && ValidTree(Fold(Tip(remote[o]).tree, ops))
    ensures HistoryOk(Written(remote[o], ops)) && Tip(Written(remote[o], ops)).tree == Fold(Tip(remote[o]).tree, ops)
  {
    hide HostOk, HistoryOk, Fold, IsPlaceholder;
    NextTipIsOk(remote, o, Written(remote[o], ops), Fold(Tip(remote[o]).tree, ops));
  }

  lemma HostOkAfter(remote: map<Options, History>, o: Options, h: History)
    requires HostOk(remote) && HistoryOk(h)
    ensures HostOk(remote[o := h])
  {
  }

  // Apart from the entry in use, what was dropped was used no later than what was kept, and
  // nothing was as long as there was room.
  ghost predicate OnlyOldestDropped(was: map<string, Cloned>, now: map<string, Cloned>, own: string, caps: int) {
    && (|was| < caps ==> forall j :: j in was && j != own ==> j in now)
    && (|was| >= caps >= 1 ==> |now| >= caps - 1)
    && forall j, k :: j in was && j !in now && j != own && k in now && k != own ==> was[j].last <= now[k].last
  }

  lemma EntryDiskIsOk(o: Options, c: Cloned, nextDir: nat, clock: nat)
    requires EntryOk(Key(o), c, nextDir, clock)
    ensures DiskOk(c.disk)
  {
  }

  lemma StartWithoutCache(git: Git, cache: map<string, Cloned>, o: Options, h: History)
    ensures Key(o) !in cache ==> StartObjects(git, cache, o, h) == Reached(h)
    ensures Key(o) !in cache ==> StartDisk(git, cache, o, Tip(h).tree) == Fresh(Tip(h).tree)
    ensures Reached(h) <= StartObjects(git, cache, o, h)
  {
  }

  // What the clone's own worktree lets through, a fresh one does.
  lemma StartRefusesMore(git: Git, cache: map<string, Cloned>, nextDir: nat, clock: nat, o: Options, tree: Tree,
                         ops: seq<FileOp>, ignore: Ignore)
    requires GitOk(git) && CacheOk(cache, nextDir, clock) && ValidTree(tree)
    ensures Effect(StartDisk(git, cache, o, tree), ops, tree, ignore).Applied? ==>
              Effect(Fresh(tree), ops, tree, ignore).Applied?
  {
    hide Effect, CacheOk, GitOk, StartDisk, Fresh;
    StartIsOk(git, cache, nextDir, clock, o, tree);
    FreshIsRoomiest(tree, StartDisk(git, cache, o, tree));
    if Effect(StartDisk(git, cache, o, tree), ops, tree, ignore).Applied? {
      RunWithFewerDirs(Fresh(tree), StartDisk(git, cache, o, tree), ops, tree, ignore);
    }
  }

  class Manager {
    const caps: int
    const git: Git
    var remote: map<Options, History>
    var cache: map<string, Cloned>
    var live: set<nat>
    var nextDir: nat
    var clock: nat
    ghost var faults: nat

    // The directories on disk are exactly those of the cached clones, which are bounded.
    ghost predicate Valid()
      reads this
    {
      && GitOk(git) && HostOk(remote) && CacheOk(cache, nextDir, clock) && live == Dirs(cache)
      && |cache| <= if caps >= 1 then caps else 1
    }

    constructor (git: Git, remote: map<Options, History>)
      requires GitOk(git) && HostOk(remote)
      ensures Valid() && this.git == git && this.remote == remote && cache == map[] && caps == 8
    {
      this.git := git;
      this.remote := remote;
      caps := 8;
      cache, live, nextDir, clock, faults := map[], {}, 0, 0, 0;
    }

    // Any step that leaves the process may fail; `faults` counts the failures.
    method Online() returns (ok: bool)
      modifies this`faults
      ensures faults == if ok then old(faults) else old(faults) + 1
    {
      ok := *;
      if !ok { faults := faults + 1; }
    }

    // A clock that never runs backwards.
    method Now() returns (t: nat)
      requires CacheOk(cache, nextDir, clock)
      modifies this`clock
      ensures t == clock && old(clock) <= clock && CacheOk(cache, nextDir, clock)
    {
      var d: nat :| true;
      CacheOkLater(cache, nextDir, clock, nextDir, clock + d);
      clock := clock + d;
      t := clock;
    }

    /******* The cache *******/

    // The eviction scan: a key with the earliest use, or "" when there is none.
    method Oldest() returns (oldest: string)
      requires "" !in cache
      ensures oldest == "" ==> cache == map[]
      ensures oldest != "" ==> oldest in cache && forall k :: k in cache ==> cache[oldest].last <= cache[k].last
    {
      oldest := "";
      var todo := cache.Keys;
      while todo != {}
        invariant todo <= cache.Keys
        invariant oldest == "" ==> todo == cache.Keys
        invariant oldest != "" ==> oldest in cache
        invariant oldest != "" ==> forall k :: k in cache && k !in todo ==> cache[oldest].last <= cache[k].last
        decreases todo
      {
        var k :| k in todo;
        if oldest == "" || cache[k].last < cache[oldest].last {
          oldest := k;
        }
        todo := todo - {k};
      }
    }

    // Drops least-recently-used clones, with their directories, while at capacity.
    method Evict()
      requires CacheOk(cache, nextDir, clock)
      modifies this`cache, this`live
      ensures CacheOk(cache, nextDir, clock) && live == old(live) - (Dirs(old(cache)) - Dirs(cache))
      ensures |cache| < caps || cache == map[]
      ensures old(|cache|) < caps ==> cache == old(cache)
      ensures old(|cache|) >= caps >= 1 ==> |cache| == caps - 1
      ensures Subcache(cache, old(cache)) && Dirs(cache) <= Dirs(old(cache))
      ensures forall j, k :: j in old(cache) && j !in cache && k in cache ==> old(cache)[j].last <= cache[k].last
    {
      hide CacheOk, Dirs;
      while |cache| >= caps
        invariant CacheOk(cache, nextDir, clock) && Dirs(cache) <= Dirs(old(cache))
        invariant live == old(live) - (Dirs(old(cache)) - Dirs(cache))
        invariant Subcache(cache, old(cache))
        invariant forall j, k :: j in old(cache) && j !in cache && k in cache ==> old(cache)[j].last <= cache[k].last
        invariant old(|cache|) < caps ==> cache == old(cache)
        invariant old(|cache|) >= caps >= 1 ==> |cache| >= caps - 1
        decreases |cache|
      {
        NoEmptyKey(cache, nextDir, clock);
        var oldest := Oldest();
        if oldest == "" {
          return;
        }
        CacheOkRemove(cache, nextDir, clock, oldest);
        live := live - {cache[oldest].dir};
        cache := cache - {oldest};
      }
    }

    // Drops a cached clone.
    method Forget(o: Options)
      requires Valid()
      modifies this`cache, this`live
      ensures Valid() && cache == old(cache) - {Key(o)}
      ensures |cache| == old(|cache|) - if Key(o) in old(cache) then 1 else 0
    {
      hide CacheOk, Dirs, Key, HostOk;
      if Key(o) in cache {
        CacheOkRemove(cache, nextDir, clock, Key(o));
        live := live - {cache[Key(o)].dir};
        cache := cache - {Key(o)};
      }
    }

    // Changes a cached clone in place.
    method Put(o: Options, c: Cloned)
      requires Valid() && Key(o) in cache && c.dir == cache[Key(o)].dir && EntryOk(Key(o), c, nextDir, clock)
      modifies this`cache
      ensures Valid() && cache == old(cache)[Key(o) := c]
    {
      hide CacheOk, Dirs, Key, HostOk, EntryOk;
      CacheOkUpdate(cache, nextDir, clock, Key(o), c);
      cache := cache[Key(o) := c];
    }

    // refresh: fetch, and hard-reset the worktree and the branch onto the remote tip. The
    // files are then the tip's; directories may be left over.
    method Refresh(c: Cloned) returns (r: Result<Cloned>)
      modifies this`faults
      ensures faults >= old(faults)
      ensures r.Ok? ==>
                && c.ref in remote && !git.fails(c.disk, Tip(remote[c.ref]).tree)
                && r.value == Refreshed(git, c, remote[c.ref])
      ensures r.Err? ==>
                || faults > old(faults) || c.ref !in remote
                || (faults == old(faults) && git.fails(c.disk, Tip(remote[c.ref]).tree))
    {
      var fetched := Online();
      if !fetched || c.ref !in remote {
        return Err(Network);
      }
      if git.fails(c.disk, Tip(remote[c.ref]).tree) {
        return Err(ResetFailed);
      }
      r := Ok(Refreshed(git, c, remote[c.ref]));
    }

    // A ready clone: its branch and files are exactly the remote's, whatever the cache held.
    // Without faults its directories and commits are those the cached clone starts with.
    method Clone(o: Options) returns (r: Result<Cloned>)
      requires Valid() && Plain(o)
      modifies this`cache, this`live, this`nextDir, this`clock, this`faults
      ensures Valid() && faults >= old(faults)
      ensures r.Ok? ==>
                && o in remote && Key(o) in cache && cache[Key(o)] == r.value
                && EntryOk(Key(o), r.value, nextDir, clock)
                && r.value.ref == o && r.value.local == remote[o] && r.value.disk.files == Tip(remote[o]).tree
                && Reached(remote[o]) <= r.value.objects
                && (|| (r.value.disk == StartDisk(git, old(cache), o, Tip(remote[o]).tree)
                        && r.value.objects == StartObjects(git, old(cache), o, remote[o]))
                    || (faults > old(faults)
                        && r.value.disk == Fresh(Tip(remote[o]).tree) && r.value.objects == Reached(remote[o])))
      ensures OnlyOldestDropped(old(cache), cache, Key(o), caps)
      ensures r.Ok? ==> r.value.last == clock
      ensures forall k :: k in cache && k != Key(o) ==> k in old(cache) && cache[k] == old(cache)[k]
      ensures r.Err? ==> r.error == Network && (faults > old(faults) || o !in remote) && Key(o) !in cache
    {
      hide CacheOk, Dirs, Key, HostOk, EntryOk, Reached, GitOk;
      if Key(o) in cache {
        EntryLookup(cache, nextDir, clock, o);
        var refreshed := Refresh(cache[Key(o)]);
        if refreshed.Ok? {
          var t := Now();
          EntryLookup(cache, nextDir, clock, o);
          RefreshedIsOk(git, remote, cache[Key(o)], nextDir, clock);
          Put(o, refreshed.value.(last := t));
          return Ok(cache[Key(o)]);
        }
        Forget(o);
      }
      r := CloneAnew(o);
    }

    method CloneAnew(o: Options) returns (r: Result<Cloned>)
      requires Valid() && Plain(o) && Key(o) !in cache
      modifies this`cache, this`live, this`nextDir, this`clock, this`faults
      ensures Valid() && faults >= old(faults)
      ensures r.Ok? ==>
                && o in remote && Key(o) in cache && cache[Key(o)] == r.value
                && EntryOk(Key(o), r.value, nextDir, clock)
                && r.value.ref == o && r.value.local == remote[o] && r.value.disk == Fresh(Tip(remote[o]).tree)
                && r.value.objects == Reached(remote[o])
      ensures r.Ok? && old(|cache|) < caps ==> |cache| == old(|cache|) + 1
      ensures OnlyOldestDropped(old(cache), cache, Key(o), caps)
      ensures r.Ok? ==> r.value.last == clock
      ensures forall k :: k in cache && k != Key(o) ==> k in old(cache) && cache[k] == old(cache)[k]
      ensures r.Err? ==> r.error == Network && (faults > old(faults) || o !in remote) && cache == old(cache)
    {
      hide CacheOk, Dirs, Key, HostOk, EntryOk, Reached, GitOk, Fresh;
      var dir := nextDir;
      NewDirIsUnused(cache, nextDir, clock);
      live, nextDir := live + {dir}, nextDir + 1;
      CacheOkLater(cache, dir, clock, nextDir, clock);
      var cloned := Online();
      if !cloned || o !in remote {
        live := live - {dir};
        return Err(Network);
      }
      var t := Now();
      Evict();
      var c := Cloned(dir, o, remote[o], Fresh(Tip(remote[o]).tree), Reached(remote[o]), t);
      FreshIsOk(remote, c, nextDir, clock);
      CacheOkInsert(cache, nextDir, clock, Key(o), c);
      cache := cache[Key(o) := c];
      r := Ok(c);
    }

    // A force push; a failure may be reported for a push that arrived.
    method ForcePush(o: Options, h: History) returns (ok: bool)
      requires Valid() && HistoryOk(h)
      modifies this`remote, this`faults
      ensures Valid()
      ensures remote == old(remote) || remote == old(remote)[o := h]
      ensures ok ==> remote == old(remote)[o := h]
      ensures faults >= old(faults) && (!ok ==> faults > old(faults))
    {
      hide CacheOk, Dirs, HistoryOk;
      var sent := Online();
      if !sent { return false; }
      remote := remote[o := h];
      ok := Online();
    }

    /******* The operations *******/

    method Status(o: Options) returns (r: Result<StatusInfo>)
      requires Valid() && Plain(o)
      modifies this`cache, this`live, this`nextDir, this`clock, this`faults
      ensures Valid() && faults >= old(faults)
      ensures r.Ok? ==> o in remote && var h := remote[o];
                && (r.value.placeholder <==> Open(h)) && (r.value.staged <==> Open(h) && TipChanges(h))
                && r.value.tip == h && r.value.mergeTip == if Open(h) && |h| > 1 then h[..|h| - 1] else h
      ensures r.Err? ==> r.error == Network && (faults > old(faults) || o !in remote)
    {
      hide CacheOk, Dirs, Key, HostOk, EntryOk, Reached, IsPlaceholder;
      var c := Clone(o);
      if c.Err? { return Err(c.error); }
      var h := c.value.local;
      CanCloseIff(h, "");
      var st := StatusInfo(Placed(h), false, h, h);
      if Placed(h) {
        st := st.(staged := !TipIsEmpty(h));
        if |h| > 1 {
          st := st.(mergeTip := h[..|h| - 1]);
        }
      }
      r := Ok(st);
    }

    // The batch is applied to the worktree a clone starts with. What goes through does what
    // it does on a fresh clone; without faults the outcome is determined.
    method ApplyFiles(o: Options, ops: seq<FileOp>, ignore: Ignore) returns (r: Result<History>)
      requires Valid() && Plain(o)
      modifies this
      ensures Valid() && faults >= old(faults)
      ensures r.Ok? ==>
                && o in old(remote) && CanWrite(old(remote)[o], ops)
                && Effect(Fresh(Tip(old(remote)[o]).tree), ops, Tip(old(remote)[o]).tree, ignore).Applied?
                && r.value == Written(old(remote)[o], ops) && OpensOn(old(remote)[o], ops, r.value)
                && remote == old(remote)[o := r.value]
      ensures remote != old(remote) ==>
                && o in old(remote) && CanWrite(old(remote)[o], ops)
                && remote == old(remote)[o := Written(old(remote)[o], ops)]
      ensures r.Err? && r.error != Network ==> remote == old(remote)
      ensures r.Err? ==>
                match r.error
                case NoOps => ops == []
                case BadOp => o in old(remote) && old(Starts(o, ops, ignore)).Refused?
                case NoChanges => o in old(remote) && Fold(Tip(old(remote)[o]).tree, ops) == Tip(old(remote)[o]).tree
                case Network => faults > old(faults) || o !in old(remote)
                case _ => false
      ensures ops == [] ==> r == Err(NoOps)
      ensures faults == old(faults) && o in old(remote) && ops != [] ==>
                match old(Starts(o, ops, ignore))
                case Refused => r == Err(BadOp)
                case Applied(_) => if CanWrite(old(remote)[o], ops) then r.Ok? else r == Err(NoChanges)
      ensures r.Ok? ==> Key(o) in cache && cache[Key(o)].disk.files == Tip(r.value).tree
      ensures faults == old(faults) && r.Ok? ==>
                && old(Starts(o, ops, ignore)) == Applied(cache[Key(o)].disk)
                && cache[Key(o)].objects == old(StartObjects(git, cache, o, remote[o])) + {r.value} + {old(remote)[o]}
    {
      hide CacheOk, Dirs, Key, HostOk, EntryOk, Reached, Fold, IsPlaceholder, HistoryOk, GitOk, Effect;
      hide Fresh, StartDisk, StartObjects, Accepted, DiskOk, Reworded, TrimSpace, OpensOn, OnlyOldestDropped, HasPrefix;
      if |ops| == 0 { return Err(NoOps); }
      var got := Clone(o);
      if got.Err? { return Err(got.error); }
      var c := got.value;
      var h, tree := c.local, c.disk.files;
      TipIsValid(remote, o);
      StartRefusesMore(git, old(cache), old(nextDir), old(clock), o, tree, ops, ignore);
      EntryDiskIsOk(o, c, nextDir, clock);
      var wt := new Worktree.Reuse(c.disk);
      var applied := ApplyOps(wt, ops, ignore);
      RunFolds(c.disk, ops, tree, ignore);
      assert ops[..|ops|] == ops;
      // Whatever was done stays in the cached worktree until the next refresh.
      c := Kept(o, c, h, Disk(wt.files, wt.dirs));
      if !applied { return Err(BadOp); }
      if wt.files == tree { return Err(NoChanges); }
      var h' := if Placed(h) then Reworded(h, wt.files, PLACEHOLDER) else h + [Commit(wt.files, PLACEHOLDER, [])];
      assert h' == Written(h, ops);
      WrittenOpens(h, ops);
      FilesAreValid(c.disk);
      WrittenIsOk(remote, o, ops);
      var pushed := Publish(o, c, h');
      r := if pushed then Ok(h') else Err(Network);
    }

    // Moves the branch of a clone to a new tip with the tree of its worktree, and pushes it.
    method Publish(o: Options, c: Cloned, h: History) returns (ok: bool)
      requires Valid() && Key(o) in cache && cache[Key(o)] == c && EntryOk(Key(o), c, nextDir, clock) && HistoryOk(h)
      modifies this`cache, this`remote, this`faults
      ensures Valid() && cache == old(cache)[Key(o) := c.(local := h, objects := c.objects + {h})]
      ensures remote == old(remote) || remote == old(remote)[o := h]
      ensures ok ==> remote == old(remote)[o := h]
      ensures faults >= old(faults) && (!ok ==> faults > old(faults))
    {
      hide CacheOk, Dirs, Key, HostOk, GitOk, DiskOk, HistoryOk, EntryOk;
      EntryDiskIsOk(o, c, nextDir, clock);
      var c' := Kept(o, c, h, c.disk);
      ok := ForcePush(o, h);
    }

    // How a batch goes from the worktree the clone starts with.
    function Starts(o: Options, ops: seq<FileOp>, ignore: Ignore): Outcome
      reads this
    {
      if o !in remote then Refused
      else
        var tree := Tip(remote[o]).tree;
        Effect(StartDisk(git, cache, o, tree), ops, tree, ignore)
    }

    // Leaves a worktree and a branch tip in the cached clone.
    method Kept(o: Options, c: Cloned, h: History, disk: Disk) returns (c': Cloned)
      requires Valid() && Key(o) in cache && cache[Key(o)] == c && EntryOk(Key(o), c, nextDir, clock)
      requires HistoryOk(h) && DiskOk(disk)
      modifies this`cache
      ensures Valid() && c' == c.(local := h, disk := disk, objects := c.objects + {h})
      ensures cache == old(cache)[Key(o) := c'] && EntryOk(Key(o), c', nextDir, clock)
    {
      hide CacheOk, Dirs, HostOk, HistoryOk, DiskOk, GitOk;
      c' := c.(local := h, disk := disk, objects := c.objects + {h});
      Put(o, c');
    }

    method Close(o: Options, message: string) returns (r: Result<History>)
      requires Valid() && Plain(o)
      modifies this
      ensures Valid() && faults >= old(faults)
      ensures r.Ok? ==>
                && o in old(remote) && Open(old(remote)[o]) && TipChanges(old(remote)[o]) && !AllSpaces(message)
                && r.value == Closed(old(remote)[o], message) && remote == old(remote)[o := r.value]
                && var n := |r.value| - 1;
                   && n == |old(remote)[o]| - 1 && r.value[..n] == old(remote)[o][..n]
                   && r.value[n].tree == old(remote)[o][n].tree && r.value[n].message == message
      ensures remote != old(remote) ==>
                && o in old(remote) && CanClose(old(remote)[o], message)
                && remote == old(remote)[o := Closed(old(remote)[o], message)]
      ensures r.Err? && r.error != Network ==> remote == old(remote)
      ensures r.Err? ==>
                match r.error
                case NoMessage => AllSpaces(message)
                case NothingStaged => o in old(remote) && !(Open(old(remote)[o]) && TipChanges(old(remote)[o]))
                case Network => faults > old(faults) || o !in old(remote)
                case _ => false
      ensures faults == old(faults) && !AllSpaces(message) && o in old(remote) ==>
                (r.Ok? <==> Open(old(remote)[o]) && TipChanges(old(remote)[o]))
    {
      TrimSpaceIsEmptyIff(message);
      hide CacheOk, Dirs, Key, HostOk, EntryOk, Reached, IsPlaceholder, TrimSpace, HistoryOk, GitOk, DiskOk;
      hide OnlyOldestDropped, AllSpaces, HasPrefix, StartDisk, StartObjects;
      if TrimSpace(message) == "" { return Err(NoMessage); }
      var got := Clone(o);
      if got.Err? { return Err(got.error); }
      var c := got.value;
      var h := c.local;
      CanCloseIff(h, message);
      ClosedRewords(h, message);
      if !Placed(h) { return Err(NothingStaged); }
      if TipIsEmpty(h) { return Err(NothingStaged); }
      TipIsValid(remote, o);
      var h' := Reworded(h, Tip(h).tree, message);
      NextTipIsOk(remote, o, h', Tip(h).tree);
      var pushed := Publish(o, c, h');
      r := if pushed then Ok(h') else Err(Network);
    }

    // Moves the branch to a commit the clone knows, and drops the clone. A commit that the
    // branch reaches is always known; a cached clone may know others as well. The reset of
    // the worktree can fail before anything is pushed.
    method ResetTo(o: Options, sha: History) returns (r: Result<History>)
      requires Valid() && Plain(o)
      modifies this
      ensures Valid() && faults >= old(faults)
      ensures r.Ok? ==> r.value == sha && o in old(remote) && remote == old(remote)[o := sha] && Key(o) !in cache
      ensures r.Ok? && Key(o) !in old(cache) ==> sha in Reached(old(remote)[o])
      ensures remote != old(remote) ==> o in old(remote) && remote == old(remote)[o := sha]
      ensures r.Err? && r.error != Network ==> remote == old(remote)
      ensures r.Err? ==>
                match r.error
                case UnknownCommit => o in old(remote) && sha !in Reached(old(remote)[o])
                case ResetFailed => o in old(remote)
                  && (|| git.fails(old(StartDisk(git, cache, o, Tip(remote[o]).tree)), Tip(sha).tree)
                      || git.fails(Fresh(Tip(old(remote)[o]).tree), Tip(sha).tree))
                case Network => faults > old(faults) || o !in old(remote)
                case _ => false
      ensures faults == old(faults) && o in old(remote) ==>
                (r.Ok? <==>
                   && sha in old(StartObjects(git, cache, o, remote[o]))
                   && !git.fails(old(StartDisk(git, cache, o, Tip(remote[o]).tree)), Tip(sha).tree))
    {
      hide CacheOk, Dirs, Key, HostOk, Reached, HistoryOk, GitOk, StartDisk, StartObjects, EntryOk, Fresh;
      hide OnlyOldestDropped;
      var got := Clone(o);
      if got.Err? { return Err(got.error); }
      var c := got.value;
      StartWithoutCache(git, old(cache), o, remote[o]);
      if sha !in c.objects { return Err(UnknownCommit); }
      var tree := Tip(sha).tree;
      if git.fails(c.disk, tree) { return Err(ResetFailed); }
      EntryDiskIsOk(o, c, nextDir, clock);
      KnownIsOk(c, nextDir, clock, sha);
      ResetIsOk(git, c.disk, tree);
      c := Kept(o, c, sha, Disk(tree, git.leaves(c.disk, tree)));
      var pushed := ForcePush(o, sha);
      if !pushed { return Err(Network); }
      Forget(o);
      r := Ok(sha);
    }

    // Submit: one commit on top of `base`, pushed plainly to another branch. No ref is
    // rewritten: the only one that can move is `newBranch`, and only to a descendant.
    method Submit(url: string, base: string, newBranch: string, message: string, ops: seq<FileOp>, ignore: Ignore)
      returns (r: Result<History>)
      requires Valid()
      modifies this`remote, this`faults
      ensures Valid()
      ensures forall x :: x in old(remote) ==> x in remote && old(remote)[x] in Reached(remote[x])
      ensures var b, n := Options(url, base), Options(url, newBranch);
              && (r.Ok? ==>
                    && b in old(remote) && CanWrite(old(remote)[b], ops)
                    && Effect(Fresh(Tip(old(remote)[b]).tree), ops, Tip(old(remote)[b]).tree, ignore).Applied?
                    && r.value == Submitted(old(remote)[b], ops, message)
                    && Accepts(old(remote), n, r.value) && remote == old(remote)[n := r.value])
              && (remote != old(remote) ==>
                    && b in old(remote) && Accepts(old(remote), n, Submitted(old(remote)[b], ops, message))
                    && remote == old(remote)[n := Submitted(old(remote)[b], ops, message)])
      ensures AllSpaces(newBranch) || AllSpaces(message) || ops == [] ==> r.Err? && r.error != Network
      ensures r.Err? && r.error != Network ==> remote == old(remote)
      ensures r.Err? ==>
                var b, n := Options(url, base), Options(url, newBranch);
                match r.error
                case NoBranch => AllSpaces(newBranch)
                case NoMessage => AllSpaces(message)
                case NoOps => ops == []
                case BadOp => b in old(remote)
                  && Effect(Fresh(Tip(old(remote)[b]).tree), ops, Tip(old(remote)[b]).tree, ignore).Refused?
                case NoChanges => b in old(remote) && Fold(Tip(old(remote)[b]).tree, ops) == Tip(old(remote)[b]).tree
                case Network =>
                  || faults > old(faults) || b !in old(remote)
                  || Refuses(old(remote), b, n, Submitted(old(remote)[b], ops, message))
                case _ => false
      ensures var b, n := Options(url, base), Options(url, newBranch);
              b in old(remote) && Refuses(old(remote), b, n, Submitted(old(remote)[b], ops, message)) ==> r.Err?
    {
      hide CacheOk, Dirs, HostOk, Fold, Accepted, Effect, TrimSpace, HistoryOk, Reached, Refuses, Accepts, GitOk;
      hide AllSpaces;
      AllReachThemselves(remote);
      TrimSpaceIsEmptyIff(newBranch);
      TrimSpaceIsEmptyIff(message);
      if TrimSpace(newBranch) == "" { return Err(NoBranch); }
      if TrimSpace(message) == "" { return Err(NoMessage); }
      if |ops| == 0 { return Err(NoOps); }
      var b, n := Options(url, base), Options(url, newBranch);
      var cloned := Online();
      if !cloned || b !in remote { return Err(Network); }
      var h := remote[b];
      TipIsValid(remote, b);
      var wt := new Worktree(Tip(h).tree);
      var applied := ApplyOps(wt, ops, ignore);
      RunFolds(Fresh(Tip(h).tree), ops, Tip(h).tree, ignore);
      assert ops[..|ops|] == ops;
      if !applied { return Err(BadOp); }
      if wt.files == Tip(h).tree { return Err(NoChanges); }
      var h' := h + [Commit(wt.files, message, [])];
      NextTipIsOk(remote, b, h', wt.files);
      var sent := Online();
      AcceptsUnlessRefused(remote, b, n, Commit(wt.files, message, []));
      if !sent || !Accepts(remote, n, h') { return Err(Network); }
      AcceptedKeepsHistory(remote, n, h');
      HostOkAfter(remote, n, h');
      remote := remote[n := h'];
      var answered := Online();
      r := if answered then Ok(h') else Err(Network);
    }
  }

  /******* What the plain push refuses *******/

  // The new branch exists and is neither reached by the base nor the new commit already.
  predicate Refuses(remote: map<Options, History>, b: Options, n: Options, h: History)
    requires b in remote
  {
    n in remote && remote[n] !in Reached(remote[b]) && remote[n] != h
  }

  // An existing branch is not refused as such: the push of a commit on top of the base
  // still moves it when the base reaches it.
  lemma AcceptsUnlessRefused(remote: map<Options, History>, b: Options, n: Options, c: Commit)
    requires b in remote && c.merged == []
    ensures Accepts(remote, n, remote[b] + [c]) <==> !Refuses(remote, b, n, remote[b] + [c])
  {
    ReachedGrows(remote[b], c);
  }

  lemma AcceptedKeepsHistory(remote: map<Options, History>, n: Options, h: History)
    requires Accepts(remote, n, h)
    ensures forall x :: x in remote ==> remote[x] in Reached(remote[n := h][x])
  {
    AllReachThemselves(remote);
  }

  lemma AllReachThemselves(remote: map<Options, History>)
    ensures forall x :: x in remote ==> remote[x] in Reached(remote[x])
  {
  }

  // The input that shows it: a new branch that stands where the base does.
  lemma PlainPushFastForwards(remote: map<Options, History>, b: Options, n: Options, c: Commit)
    requires b in remote && n in remote && remote[n] == remote[b] && c.merged == []
    ensures Accepts(remote, n, remote[b] + [c]) && remote[n] != remote[b] + [c]
  {
    AcceptsUnlessRefused(remote, b, n, c);
  }

  /******* What a cached clone still knows *******/

  // How many commits a history has, those of merged parents included.
  function Weight(h: seq<Commit>): nat {
    if h == [] then 0 else Weight(h[..|h| - 1]) + 1 + MergedWeight(h[|h| - 1].merged)
  }

  function MergedWeight(ps: seq<Parent>): nat {
    if ps == [] then 0 else Weight(ps[0].history) + MergedWeight(ps[1..])
  }

  lemma {:induction false} ParentWeighsLess(ps: seq<Parent>, j: nat)
    requires j < |ps|
    ensures Weight(ps[j].history) <= MergedWeight(ps)
  {
    if j > 0 { ParentWeighsLess(ps[1..], j - 1); }
  }

  lemma {:induction false} ReachedWeighsLess(h: seq<Commit>, p: History)
    requires p in Reached(h)
    ensures Weight(p) <= Weight(h)
  {
    var n := |h| - 1;
    if p != h {
      if p in Reached(h[..n]) {
        ReachedWeighsLess(h[..n], p);
      } else {
        var j :| 0 <= j < |h[n].merged| && p in Reached(h[n].merged[j].history);
        ReachedWeighsLess(h[n].merged[j].history, p);
        ParentWeighsLess(h[n].merged, j);
      }
    }
  }

  // Amending or rewording a tip drops it from everything the branch reaches.
  lemma RewordingDropsTheTip(h: History, tree: Tree, message: string)
    ensures h in Reached(Reworded(h, tree, message)) <==> Reworded(h, tree, message) == h
  {
    var n, t := |h| - 1, Reworded(h, tree, message);
    assert t[..n] == h[..n] && t[n].merged == h[n].merged;
    if h in Reached(t) && h != t {
      if h in Reached(h[..n]) {
        ReachedWeighsLess(h[..n], h);
      } else {
        var j :| 0 <= j < |h[n].merged| && h in Reached(h[n].merged[j].history);
        ReachedWeighsLess(h[n].merged[j].history, h);
        ParentWeighsLess(h[n].merged, j);
      }
    }
  }

  lemma SecondWriteDropsTheFirst(h: History, first: seq<FileOp>, second: seq<FileOp>)
    requires CanWrite(h, first) && CanWrite(Written(h, first), second)
    ensures Written(h, first) !in Reached(Written(Written(h, first), second))
  {
    hide IsPlaceholder, Fold;
    PlaceholderIsPlaced();
    var h1 := Written(h, first);
    assert Tip(h1).message == PLACEHOLDER;
    RewordingDropsTheTip(h1, Fold(Tip(h1).tree, second), PLACEHOLDER);
    assert Tip(Written(h1, second)).tree != Tip(h1).tree;
  }

  // After a write the next operation starts on the worktree it left.
  lemma StartsWhereTheWriteEnded(git: Git, cache: map<string, Cloned>, nextDir: nat, clock: nat, o: Options, h: History)
    requires GitOk(git) && CacheOk(cache, nextDir, clock)
    requires Key(o) in cache && cache[Key(o)].disk.files == Tip(h).tree
    ensures StartDisk(git, cache, o, Tip(h).tree) == cache[Key(o)].disk
    ensures StartObjects(git, cache, o, h) == cache[Key(o)].objects + Reached(h)
  {
    ResetInPlace(git, cache[Key(o)].disk);
  }

  /******* What a cached clone refuses *******/

  // A batch that a fresh clone accepts is refused through the cache exactly when a leftover
  // directory is in the way of an operation at its turn.
  lemma CacheRefusesIff(git: Git, cache: map<string, Cloned>, nextDir: nat, clock: nat, o: Options, tree: Tree,
                        ops: seq<FileOp>, ignore: Ignore)
    requires GitOk(git) && CacheOk(cache, nextDir, clock) && ValidTree(tree)
    requires Effect(Fresh(tree), ops, tree, ignore).Applied?
    ensures Effect(StartDisk(git, cache, o, tree), ops, tree, ignore).Refused? <==>
            exists i :: ObstructedAt(tree, StartDisk(git, cache, o, tree), ops, ignore, i)
    ensures Key(o) !in cache ==> Effect(StartDisk(git, cache, o, tree), ops, tree, ignore).Applied?
  {
    hide Effect, CacheOk, GitOk, Fresh, ObstructedAt;
    StartIsOk(git, cache, nextDir, clock, o, tree);
    RefusedIffObstructed(tree, StartDisk(git, cache, o, tree), ops, ignore);
  }

  // What the operations do to a branch are the steps of its history, whatever they report.
  lemma EffectsAreSteps(h: History, pending: seq<FileOp>, ops: seq<FileOp>, message: string)
    ensures CanWrite(h, ops) ==>
              Step(Branch(h, pending), Write(ops), Branch(Written(h, ops), if Open(h) then pending + ops else ops))
    ensures CanClose(h, message) && !HasPrefix(message, "ABCP_XXX") ==>
              Step(Branch(h, pending), Staging.Close(message), Branch(Closed(h, message), []))
    ensures Step(Branch(h, pending), Strip, Branch(if Open(h) && |h| > 1 then h[..|h| - 1] else h, []))
    ensures Step(Branch(h, pending), NoEffect, Branch(h, pending))
  {
    hide Fold;
    CanCloseIff(h, message);
  }
}
