/**
 Reading a release written before the split, whose head still carries every revision.
 `Get` migrates it best-effort: bodies first, then the stripped head, then the prune,
 stopping silently at the first failing API call.
 */
module HelmMigration {
  import opened HelmSpec

  function PutAll(bodies: map<int, Revision>, revs: seq<Revision>): map<int, Revision> {
    if revs == [] then bodies
    else PutAll(bodies, revs[..|revs| - 1])[Last(revs).number := Last(revs)]
  }

  ghost predicate IsLegacy(v: View) {
    v.head.Some? && v.head.value.history != []
  }

  // migrateLegacy, stopped anywhere (or not, when `done`).
  ghost predicate Migrates(v: View, v': View, max: int, done: bool)
    requires IsLegacy(v)
  {
    var h := v.head.value;
    || (!done && exists j :: 0 <= j <= |h.history| && v' == v.(bodies := PutAll(v.bodies, h.history[..j])))
    || Pruned(View(Some(Stripped(h)), PutAll(v.bodies, h.history)), v', Numbers(h.history), max, done)
  }

  // What one Get does to the stored state.
  ghost predicate GetEffect(v: View, v': View, max: int, done: bool) {
    if IsLegacy(v) then Migrates(v, v', max, done) else v' == v
  }

  /******* No read loses a revision that the retention bound keeps *******/

  // The numbers of `nums` the retention bound keeps.
  function Retained(nums: seq<int>, max: int): set<int> {
    if max <= 0 then set n | n in nums else Keep(nums, max)
  }

  ghost predicate BodiesFrom(bodies: map<int, Revision>, revs: seq<Revision>) {
    forall n :: n in bodies ==> bodies[n] in revs && bodies[n].number == n
  }

  ghost predicate Stored(v: View, rv: Revision) {
    || (v.head.Some? && rv in v.head.value.history)
    || (rv.number in v.bodies && v.bodies[rv.number] == rv)
  }

  // The states between the legacy head with history `revs` and its migrated form.
  ghost predicate OnTheWay(v: View, revs: seq<Revision>, max: int) {
    && v.head.Some?
    && BodiesFrom(v.bodies, revs)
    && (|| v.head.value.history == revs
        || (v.head.value.history == [] &&
            forall n :: n in Retained(Numbers(revs), max) ==> n in v.bodies))
  }

  lemma BodyIsListed(bodies: map<int, Revision>, revs: seq<Revision>, n: int)
    requires BodiesFrom(bodies, revs)
    ensures n in bodies ==> n in Numbers(revs)
  {
    if n in bodies {
      var j :| 0 <= j < |revs| && revs[j] == bodies[n];
      assert Numbers(revs)[j] == n;
    }
  }

  lemma {:induction false} PutAllHolds(bodies: map<int, Revision>, revs: seq<Revision>, n: int)
    requires Distinct(Numbers(revs))
    ensures n in PutAll(bodies, revs) <==> n in bodies || n in Numbers(revs)
    ensures forall i :: 0 <= i < |revs| && revs[i].number == n ==> PutAll(bodies, revs)[n] == revs[i]
    ensures n !in Numbers(revs) && n in bodies ==> PutAll(bodies, revs)[n] == bodies[n]
  {
    if revs != [] {
      var init := revs[..|revs| - 1];
      assert forall i :: 0 <= i < |init| ==> Numbers(init)[i] == Numbers(revs)[i];
      PutAllHolds(bodies, init, n);
      assert Numbers(revs)[|init|] == Last(revs).number;
      if n in Numbers(revs) {
        var i :| 0 <= i < |revs| && Numbers(revs)[i] == n;
        assert i < |init| ==> Numbers(init)[i] == n;
      }
    }
  }

  lemma PutPrefixStaysFrom(bodies: map<int, Revision>, revs: seq<Revision>, j: nat)
    requires Distinct(Numbers(revs)) && BodiesFrom(bodies, revs) && j <= |revs|
    ensures BodiesFrom(PutAll(bodies, revs[..j]), revs)
  {
    var pre := revs[..j];
    assert forall i :: 0 <= i < |pre| ==> Numbers(pre)[i] == Numbers(revs)[i];
    forall n | n in PutAll(bodies, pre)
      ensures PutAll(bodies, pre)[n] in revs && PutAll(bodies, pre)[n].number == n
    {
      PutAllHolds(bodies, pre, n);
      if n in Numbers(pre) {
        var i :| 0 <= i < |pre| && Numbers(pre)[i] == n;
        assert PutAll(bodies, pre)[n] == revs[i];
      }
    }
  }

  lemma RetainedAreListed(nums: seq<int>, max: int)
    ensures forall n :: n in Retained(nums, max) ==> n in nums
  {
    SortSize(nums);
  }

  lemma GetKeepsOnTheWay(v: View, v': View, revs: seq<Revision>, max: int, done: bool)
    requires Distinct(Numbers(revs)) && OnTheWay(v, revs, max) && GetEffect(v, v', max, done)
    ensures OnTheWay(v', revs, max)
  {
    if IsLegacy(v) {
      if j :| !done && 0 <= j <= |revs| && v' == v.(bodies := PutAll(v.bodies, revs[..j])) {
        PutPrefixStaysFrom(v.bodies, revs, j);
      } else {
        assert revs[..|revs|] == revs;
        PutPrefixStaysFrom(v.bodies, revs, |revs|);
        RetainedAreListed(Numbers(revs), max);
        forall n | n in Retained(Numbers(revs), max) ensures n in v'.bodies {
          PutAllHolds(v.bodies, revs, n);
        }
      }
    }
  }

  // Any run of Gets, each failing at any API call or not at all.
  ghost predicate Gets(vs: seq<View>, dones: seq<bool>, max: int) {
    && |vs| == |dones| + 1
    && forall k :: 0 <= k < |dones| ==> GetEffect(vs[k], vs[k + 1], max, dones[k])
  }

  lemma {:induction false} GetsKeepOnTheWay(vs: seq<View>, dones: seq<bool>, max: int, revs: seq<Revision>, k: nat)
    requires Gets(vs, dones, max) && k < |vs|
    requires Distinct(Numbers(revs)) && OnTheWay(vs[0], revs, max)
    ensures OnTheWay(vs[k], revs, max)
  {
    if k > 0 {
      GetsKeepOnTheWay(vs, dones, max, revs, k - 1);
      GetKeepsOnTheWay(vs[k - 1], vs[k], revs, max, dones[k - 1]);
    }
  }

  // From a legacy head, whatever fails, the newest `max` revisions stay readable.
  lemma ReadsNeverLoseRetainedHistory(vs: seq<View>, dones: seq<bool>, max: int, k: nat, i: nat)
    requires Gets(vs, dones, max) && k < |vs|
    requires IsLegacy(vs[0])
    requires var revs := vs[0].head.value.history;
             Distinct(Numbers(revs)) && BodiesFrom(vs[0].bodies, revs) &&
             i < |revs| && revs[i].number in Retained(Numbers(revs), max)
    ensures Stored(vs[k], vs[0].head.value.history[i])
  {
    var revs := vs[0].head.value.history;
    GetsKeepOnTheWay(vs, dones, max, revs, k);
    var n := revs[i].number;
    if vs[k].head.value.history == [] {
      var j :| 0 <= j < |revs| && revs[j] == vs[k].bodies[n];
      assert Numbers(revs)[j] == Numbers(revs)[i];
    }
  }

  // A Get whose migration completes leaves, and so returns in order, exactly those.
  lemma CompletedMigrationReturnsRetained(v: View, v': View, max: int, h: seq<Revision>)
    requires IsLegacy(v) && Migrates(v, v', max, true) && IsHistory(h, v'.bodies)
    requires Distinct(Numbers(v.head.value.history)) && BodiesFrom(v.bodies, v.head.value.history)
    ensures StrictlyAscending(Numbers(h))
    ensures forall n :: n in Numbers(h) <==> n in Retained(Numbers(v.head.value.history), max)
    ensures forall rv :: rv in h ==> rv in v.head.value.history
  {
    var revs := v.head.value.history;
    assert revs[..|revs|] == revs;
    PutPrefixStaysFrom(v.bodies, revs, |revs|);
    GetKeepsOnTheWay(v, v', revs, max, true);
    forall n ensures n in Numbers(h) <==> n in Retained(Numbers(revs), max) {
      if n in Numbers(h) {
        var i :| 0 <= i < |h| && Numbers(h)[i] == n;
        assert h[i].number in v'.bodies;
        PutAllHolds(v.bodies, revs, n);
        BodyIsListed(v.bodies, revs, n);
      }
    }
  }

  /******* A write over an unfinished migration *******/

  lemma KeepByRank(nums: seq<int>, max: int, n: int)
    requires Distinct(nums) && max > 0
    ensures n in Keep(nums, max) <==> n in nums && |set m | m in nums && m > n| < max
  {
    var s := Sort(nums);
    SortSize(nums);
    SortedStrictly(nums);
    assert (set m | m in nums && m > n) == (set m | m in s && m > n);
    if n in nums {
      var i :| 0 <= i < |s| && s[i] == n;
      RankInStrict(s, i);
      assert n in Keep(nums, max) ==> |s| - max <= i by {
        if n in Keep(nums, max) {
          var k :| 0 <= k < |s| && |s| - max <= k && s[k] == n;
          assert k == i;
        }
      }
    }
  }

  lemma RankInStrict(s: seq<int>, i: nat)
    requires StrictlyAscending(s) && i < |s|
    ensures |set m | m in s && m > s[i]| == |s| - 1 - i
  {
    var larger := s[i + 1..];
    StrictElementsCount(larger);
    forall m ensures m in s && m > s[i] <==> m in larger {
      if m in s && m > s[i] {
        var k :| 0 <= k < |s| && s[k] == m;
        assert larger[k - i - 1] == m;
      }
    }
    assert (set m | m in s && m > s[i]) == (set m | m in larger);
  }

  lemma SortedStrictly(nums: seq<int>)
    requires Distinct(nums)
    ensures StrictlyAscending(Sort(nums))
  {
    var s := Sort(nums);
    SortAscends(nums);
    forall i, j | 0 <= i < j < |s| ensures s[i] < s[j] {
      if s[i] == s[j] {
        Repeats(s, i, j);
        DistinctCounts(nums, s[i]);
      }
    }
  }

  lemma Repeats(s: seq<int>, i: nat, j: nat)
    requires i < j < |s| && s[i] == s[j]
    ensures multiset(s)[s[i]] >= 2
  {
    assert s == s[..i] + [s[i]] + s[i + 1..j] + [s[j]] + s[j + 1..];
  }

  lemma {:induction false} DistinctCounts(nums: seq<int>, n: int)
    requires Distinct(nums)
    ensures multiset(nums)[n] <= 1
  {
    if nums != [] {
      assert nums == [nums[0]] + nums[1..];
      DistinctCounts(nums[1..], n);
    }
  }

  lemma {:induction false} StrictElementsCount(s: seq<int>)
    requires StrictlyAscending(s)
    ensures |set m | m in s| == |s|
  {
    if s != [] {
      StrictElementsCount(s[1..]);
      assert (set m | m in s) == (set m | m in s[1..]) + {s[0]};
    }
  }

  lemma KeepOfFewer(nums: seq<int>, more: seq<int>, max: int, n: int)
    requires Distinct(nums) && Distinct(more) && max > 0
    requires forall m :: m in nums ==> m in more
    requires n in nums && n in Keep(more, max)
    ensures n in Keep(nums, max)
  {
    KeepByRank(nums, max, n);
    KeepByRank(more, max, n);
    SubsetSize(set m | m in nums && m > n, set m | m in more && m > n);
  }

  // The revisions a write should leave: the newest `max` of the legacy ones and its own.
  function Wanted(revs: seq<Revision>, own: int, max: int): set<int> {
    Retained(Numbers(revs) + [own], max)
  }

  // Apply or Rollback after a Get whose migration stopped early: the completed write
  // leaves what it should exactly when every legacy revision among it already has its
  // body stored. The write replaces the head, so nothing can bring the others back.
  lemma WriteAfterStoppedMigration(v: View, v': View, r: Release, max: int, revs: seq<Revision>)
    requires v.head.Some? && v.head.value.history == revs
    requires Distinct(Numbers(revs)) && BodiesFrom(v.bodies, revs)
    requires forall n :: n in Numbers(revs) ==> n <= v.head.value.revision
    requires Prepared(v, r) && Writes(v, v', r, max, true)
    ensures (forall n :: n in Wanted(revs, r.revision, max) ==> n in v'.bodies) <==>
            (forall n :: n in Wanted(revs, r.revision, max) && n != r.revision ==> n in v.bodies)
  {
    var loaded, all := Numbers(r.history), Numbers(revs) + [r.revision];
    RetainedAreListed(all, max);
    LoadedAreListed(v, r, revs);
    if forall n :: n in Wanted(revs, r.revision, max) && n != r.revision ==> n in v.bodies {
      forall n | n in Wanted(revs, r.revision, max) ensures n in v'.bodies {
        if max > 0 { KeepOfFewer(loaded, all, max, n); }
      }
    }
  }

  lemma LoadedAreListed(v: View, r: Release, revs: seq<Revision>)
    requires v.head.Some? && Prepared(v, r)
    requires Distinct(Numbers(revs)) && BodiesFrom(v.bodies, revs)
    requires forall n :: n in Numbers(revs) ==> n <= v.head.value.revision
    ensures Distinct(Numbers(r.history)) && Distinct(Numbers(revs) + [r.revision])
    ensures forall n :: n in Numbers(r.history) <==> n in v.bodies || n == r.revision
    ensures forall n :: n in Numbers(r.history) ==> n in Numbers(revs) + [r.revision]
  {
    var init := r.history[..|r.history| - 1];
    assert Numbers(r.history) == Numbers(init) + [r.revision];
    forall n ensures n in Numbers(init) <==> n in v.bodies {
      if n in Numbers(init) {
        var i :| 0 <= i < |init| && Numbers(init)[i] == n;
        assert init[i].number in v.bodies;
      }
    }
    forall n ensures n in v.bodies ==> n in Numbers(revs) { BodyIsListed(v.bodies, revs, n); }
    assert forall n :: n in Numbers(init) ==> n in Numbers(revs);
    var all := Numbers(revs) + [r.revision];
    forall i, j | 0 <= i < j < |all| ensures all[i] != all[j] {
      assert all[i] in Numbers(revs);
    }
  }

  // The worst case: the migration failed at its first call, and the next write drops the
  // whole legacy history.
  lemma WriteAfterFailedMigrationDropsHistory(v: View, v': View, r: Release, max: int)
    requires IsLegacy(v) && v.bodies == map[]
    requires Prepared(v, r) && Writes(v, v', r, max, true)
    ensures Migrates(v, v, max, false)
    ensures v'.head.value.history == [] && v'.bodies == map[r.revision := Last(r.history)]
  {
    var h := v.head.value.history;
    assert v == v.(bodies := PutAll(v.bodies, h[..0]));
    var init := r.history[..|r.history| - 1];
    HistoryIsUnique(init, [], v.bodies);
    assert Numbers(r.history) == [r.revision];
    if max > 0 {
      KeepHoldsTheNewest(Numbers(r.history), max, r.revision);
    }
  }
}
