/**
 What one release's stored state is, and what the release store promises about it. A
 release's view is its head record and its revision bodies; every API call changes at
 most one of them. The relations `Writes` and `Migrates` describe where a write can stop,
 because the process may die, or an API call may fail, between any two calls.
 */
module HelmSpec {

  datatype Option<+T> = None | Some(value: T)

  datatype Object = Object(apiVersion: string, kind: string, name: string)

  datatype Chart = Chart(ref: string, path: string, version: string, appVersion: string, objects: seq<Object>)

  datatype Revision = Revision(number: int, chart: Chart, values: string, manifest: string, createdAt: int)

  datatype Release = Release(
    name: string, creator: string, session: string, orgNs: string,
    chart: Chart, revision: int, status: string, updatedAt: int, history: seq<Revision>)

  datatype View = View(head: Option<Release>, bodies: map<int, Revision>)

  const EMPTY := View(None, map[])

  /******* Sorting and the retention bound *******/

  function Numbers(revs: seq<Revision>): (nums: seq<int>)
    ensures |nums| == |revs| && forall i :: 0 <= i < |revs| ==> nums[i] == revs[i].number
  {
    seq(|revs|, i requires 0 <= i < |revs| => revs[i].number)
  }

  ghost predicate Ascending(nums: seq<int>) {
    forall i, j :: 0 <= i < j < |nums| ==> nums[i] <= nums[j]
  }

  ghost predicate StrictlyAscending(nums: seq<int>) {
    forall i, j :: 0 <= i < j < |nums| ==> nums[i] < nums[j]
  }

  ghost predicate Distinct(nums: seq<int>) {
    forall i, j :: 0 <= i < j < |nums| ==> nums[i] != nums[j]
  }

  function Insert(n: int, nums: seq<int>): (r: seq<int>)
    ensures multiset(r) == multiset(nums) + multiset{n}
  {
    if nums == [] || n <= nums[0] then [n] + nums
    else assert nums == [nums[0]] + nums[1..]; [nums[0]] + Insert(n, nums[1..])
  }

  // sort.Ints
  function Sort(nums: seq<int>): (r: seq<int>)
    ensures multiset(r) == multiset(nums)
  {
    if nums == [] then []
    else assert nums == [nums[0]] + nums[1..]; Insert(nums[0], Sort(nums[1..]))
  }

  lemma {:induction false} InsertAscends(n: int, nums: seq<int>)
    requires Ascending(nums)
    ensures Ascending(Insert(n, nums))
  {
    if nums != [] && n > nums[0] {
      InsertAscends(n, nums[1..]);
      var rest := Insert(n, nums[1..]);
      forall k | 0 <= k < |rest| ensures nums[0] <= rest[k] {
        assert rest[k] in multiset(rest);
        assert rest[k] == n || rest[k] in nums[1..];
      }
    }
  }

  lemma {:induction false} SortAscends(nums: seq<int>)
    ensures Ascending(Sort(nums))
  {
    if nums != [] {
      SortAscends(nums[1..]);
      InsertAscends(nums[0], Sort(nums[1..]));
    }
  }

  lemma {:induction false} SortKeepsAscending(nums: seq<int>)
    requires Ascending(nums)
    ensures Sort(nums) == nums
  {
    if nums != [] {
      SortKeepsAscending(nums[1..]);
      if |nums| > 1 { assert nums[0] <= nums[1]; }
      assert nums == [nums[0]] + nums[1..];
    }
  }

  lemma SortSize(nums: seq<int>)
    ensures |Sort(nums)| == |nums|
    ensures forall n :: n in Sort(nums) <==> n in nums
  {
    assert |multiset(Sort(nums))| == |multiset(nums)|;
    forall n ensures n in Sort(nums) <==> n in nums {
      assert n in Sort(nums) <==> n in multiset(Sort(nums));
    }
  }

  // The numbers among the last `max` of the sorted list.
  function Keep(nums: seq<int>, max: int): set<int> {
    var s := Sort(nums);
    set i | 0 <= i < |s| && |s| - max <= i :: s[i]
  }

  lemma {:induction false} ElementsCount(s: seq<int>)
    ensures |set n | n in s| <= |s|
  {
    if s != [] {
      ElementsCount(s[1..]);
      assert (set n | n in s) == (set n | n in s[1..]) + {s[0]};
    }
  }

  lemma KeepIsBounded(nums: seq<int>, max: int)
    requires max > 0
    ensures |Keep(nums, max)| <= max
  {
    var s := Sort(nums);
    var last := if |s| <= max then s else s[|s| - max..];
    ElementsCount(last);
    assert Keep(nums, max) == set n | n in last;
  }

  lemma KeepHoldsTheNewest(nums: seq<int>, max: int, top: int)
    requires max > 0 && top in nums && forall n :: n in nums ==> n <= top
    ensures top in Keep(nums, max)
  {
    var s := Sort(nums);
    SortSize(nums);
    SortAscends(nums);
    var i :| 0 <= i < |s| && s[i] == top;
    assert s[|s| - 1] in s && s[|s| - 1] >= top;
  }

  /******* Reading the history *******/

  ghost predicate BodiesOk(bodies: map<int, Revision>) {
    forall n :: n in bodies ==> bodies[n].number == n
  }

  // `h` lists exactly the stored bodies, oldest first.
  ghost predicate IsHistory(h: seq<Revision>, bodies: map<int, Revision>) {
    && StrictlyAscending(Numbers(h))
    && (forall i :: 0 <= i < |h| ==> h[i].number in bodies && bodies[h[i].number] == h[i])
    && (forall n :: n in bodies ==> n in Numbers(h))
  }

  lemma {:induction false} HistoryIsUnique(h: seq<Revision>, k: seq<Revision>, bodies: map<int, Revision>)
    requires IsHistory(h, bodies) && IsHistory(k, bodies)
    ensures h == k
  {
    hide IsHistory;
    SameTop(h, k, bodies);
    if |h| > 0 {
      ShorterHistory(h, bodies);
      ShorterHistory(k, bodies);
      HistoryIsUnique(h[..|h| - 1], k[..|k| - 1], bodies - {h[|h| - 1].number});
      assert h == h[..|h| - 1] + [h[|h| - 1]] && k == k[..|k| - 1] + [k[|k| - 1]];
    }
  }

  lemma SameTop(h: seq<Revision>, k: seq<Revision>, bodies: map<int, Revision>)
    requires IsHistory(h, bodies) && IsHistory(k, bodies)
    ensures |h| == 0 <==> |k| == 0
    ensures |h| > 0 && |k| > 0 ==> h[|h| - 1] == k[|k| - 1]
  {
    if |h| > 0 { TopIsListed(h, k, bodies); }
    if |k| > 0 { TopIsListed(k, h, bodies); }
  }

  lemma TopIsListed(h: seq<Revision>, k: seq<Revision>, bodies: map<int, Revision>)
    requires IsHistory(h, bodies) && IsHistory(k, bodies) && |h| > 0
    ensures |k| > 0 && h[|h| - 1].number <= k[|k| - 1].number
    ensures bodies[h[|h| - 1].number] == h[|h| - 1]
  {
    var top := h[|h| - 1].number;
    assert top in bodies;
    var i :| 0 <= i < |k| && Numbers(k)[i] == top;
    assert i < |k| - 1 ==> Numbers(k)[i] < Numbers(k)[|k| - 1];
  }

  lemma ShorterHistory(h: seq<Revision>, bodies: map<int, Revision>)
    requires IsHistory(h, bodies) && |h| > 0
    ensures IsHistory(h[..|h| - 1], bodies - {h[|h| - 1].number})
    ensures |bodies - {h[|h| - 1].number}| < |bodies|
  {
    var top := h[|h| - 1].number;
    var rest, init := bodies - {top}, h[..|h| - 1];
    assert rest.Keys == bodies.Keys - {top} && top in bodies.Keys;
    forall n | n in rest ensures n in Numbers(init) {
      assert n in Numbers(h);
      var i :| 0 <= i < |h| && Numbers(h)[i] == n;
      assert Numbers(init)[i] == n;
    }
  }

  /******* Where a write can stop *******/

  ghost predicate Submap(a: map<int, Revision>, b: map<int, Revision>) {
    forall n :: n in a ==> n in b && a[n] == b[n]
  }

  // pruneHistory, stopped anywhere (or not, when `done`).
  ghost predicate Pruned(v: View, v': View, nums: seq<int>, max: int, done: bool) {
    && v'.head == v.head
    && Submap(v'.bodies, v.bodies)
    && (max <= 0 ==> v'.bodies == v.bodies)
    && (max > 0 ==> forall n :: n in v.bodies && n in Keep(nums, max) ==> n in v'.bodies)
    && (max > 0 && done ==> v'.bodies.Keys <= Keep(nums, max))
  }

  function Stripped(r: Release): Release {
    r.(history := [])
  }

  function Last(h: seq<Revision>): Revision
    requires |h| > 0
  {
    h[|h| - 1]
  }

  function WithBody(v: View, rv: Revision): View {
    v.(bodies := v.bodies[rv.number := rv])
  }

  // recordRevision: the body, then the head, then the prune.
  ghost predicate Writes(v: View, v': View, r: Release, max: int, done: bool)
    requires |r.history| > 0
  {
    var withBody := WithBody(v, Last(r.history));
    || (!done && v' == v)
    || (!done && v' == withBody)
    || Pruned(withBody.(head := Some(Stripped(r))), v', Numbers(r.history), max, done)
  }

  // The release value Apply and Rollback hand to recordRevision: what Get loaded, with
  // one more revision appended under the next number.
  ghost predicate Prepared(v: View, r: Release) {
    && |r.history| > 0
    && Last(r.history).number == r.revision
    && Last(r.history).chart == r.chart
    && match v.head
       case None => r.revision == 1 && |r.history| == 1
       case Some(h) => r.revision == h.revision + 1 && IsHistory(r.history[..|r.history| - 1], v.bodies)
  }

  /******* Crash tolerance *******/

  // The head never names a missing body, and no body is numbered beyond head + 1.
  ghost predicate Sound(v: View) {
    && BodiesOk(v.bodies)
    && match v.head
       case None => forall n :: n in v.bodies ==> n == 1
       case Some(h) =>
         && h.history == [] && 1 <= h.revision && h.revision in v.bodies
         && forall n :: n in v.bodies ==> 1 <= n <= h.revision + 1
  }

  lemma PreparedNumbersAscend(v: View, r: Release)
    requires Sound(v) && Prepared(v, r)
    ensures Ascending(Numbers(r.history))
    ensures forall n :: n in Numbers(r.history) ==> 1 <= n <= r.revision
    ensures r.revision in Numbers(r.history)
  {
    var nums := Numbers(r.history);
    var init := r.history[..|r.history| - 1];
    forall i | 0 <= i < |init| ensures nums[i] == Numbers(init)[i] && 1 <= nums[i] <= r.revision {
      assert v.head.Some? ==> init[i].number in v.bodies;
    }
    assert nums[|nums| - 1] == r.revision;
  }

  // One write, stopped at any API call, leaves a sound state.
  lemma WriteKeepsSound(v: View, v': View, r: Release, max: int, done: bool)
    requires Sound(v) && Prepared(v, r) && Writes(v, v', r, max, done)
    ensures Sound(v')
  {
    if v' != v && v' != WithBody(v, Last(r.history)) && max > 0 {
      PreparedNumbersAscend(v, r);
      KeepHoldsTheNewest(Numbers(r.history), max, r.revision);
    }
  }

  // A write that completes leaves at most `max` bodies, the newest among them.
  lemma CompletedWriteIsBounded(v: View, v': View, r: Release, max: int)
    requires Sound(v) && Prepared(v, r) && Writes(v, v', r, max, true)
    ensures v'.head == Some(Stripped(r))
    ensures r.revision in v'.bodies && v'.bodies[r.revision] == Last(r.history)
    ensures max > 0 ==> |v'.bodies| <= max
  {
    WriteKeepsSound(v, v', r, max, true);
    if max > 0 {
      KeepIsBounded(Numbers(r.history), max);
      SubsetSize(v'.bodies.Keys, Keep(Numbers(r.history), max));
    }
  }

  lemma {:induction false} SubsetSize<T>(a: set<T>, b: set<T>)
    requires a <= b
    ensures |a| <= |b|
  {
    if a != {} {
      var x :| x in a;
      SubsetSize(a - {x}, b - {x});
    }
  }

  datatype Attempt = Attempt(release: Release, done: bool)

  // Any number of Apply/Rollback attempts, each completing or dying at any API call.
  ghost predicate Attempts(vs: seq<View>, tries: seq<Attempt>, max: int) {
    && |vs| == |tries| + 1 && vs[0] == EMPTY
    && forall k :: 0 <= k < |tries| ==>
         Prepared(vs[k], tries[k].release) && Writes(vs[k], vs[k + 1], tries[k].release, max, tries[k].done)
  }

  lemma {:induction false} EveryRunIsSound(vs: seq<View>, tries: seq<Attempt>, max: int, k: nat)
    requires Attempts(vs, tries, max) && k < |vs|
    ensures Sound(vs[k])
    ensures k > 0 && tries[k - 1].done && max > 0 ==>
              |vs[k].bodies| <= max && tries[k - 1].release.revision in vs[k].bodies
  {
    if k > 0 {
      EveryRunIsSound(vs, tries, max, k - 1);
      WriteKeepsSound(vs[k - 1], vs[k], tries[k - 1].release, max, tries[k - 1].done);
      if tries[k - 1].done {
        CompletedWriteIsBounded(vs[k - 1], vs[k], tries[k - 1].release, max);
      }
    }
  }

  // The history handed to prune carries a number twice exactly when the body the write is
  // about to store exists already.
  lemma DuplicatesIffBodyIsThere(v: View, r: Release)
    requires Sound(v) && Prepared(v, r)
    ensures Distinct(Numbers(r.history)) <==> v.head.None? || r.revision !in v.bodies
  {
    var nums, init := Numbers(r.history), r.history[..|r.history| - 1];
    assert forall i :: 0 <= i < |init| ==> nums[i] == Numbers(init)[i];
    if v.head.Some? {
      if r.revision in v.bodies {
        assert r.revision in Numbers(init);
        var i :| 0 <= i < |init| && Numbers(init)[i] == r.revision;
        assert nums[i] == nums[|init|];
      } else {
        forall i, j | 0 <= i < j < |nums| ensures nums[i] != nums[j] {
          assert init[i].number in v.bodies;
        }
      }
    }
  }

  // A write that dies between body and head puts it there: the next one, which takes the
  // same number, has it twice.
  lemma CrashBetweenBodyAndHeadDuplicatesANumber(v: View, r: Release, r2: Release, max: int)
    requires Sound(v) && v.head.Some? && Prepared(v, r)
    requires Prepared(WithBody(v, Last(r.history)), r2)
    ensures Writes(v, WithBody(v, Last(r.history)), r, max, false)
    ensures !Distinct(Numbers(r2.history)) && r2.revision == r.revision
  {
    var w := WithBody(v, Last(r.history));
    WriteKeepsSound(v, w, r, max, false);
    DuplicatesIffBodyIsThere(w, r2);
  }

  /******* Without faults the store is the newest window of an append-only log *******/

  function WindowStart(log: seq<Revision>, max: int): nat {
    if max <= 0 || |log| <= max then 1 else |log| - max + 1
  }

  ghost predicate IsWindow(bodies: map<int, Revision>, log: seq<Revision>, max: int) {
    && (forall n :: n in bodies <==> WindowStart(log, max) <= n <= |log|)
    && (forall n :: n in bodies ==> bodies[n] == log[n - 1])
  }

  ghost predicate LogOk(log: seq<Revision>) {
    forall i :: 0 <= i < |log| ==> log[i].number == i + 1
  }

  ghost predicate Refines(v: View, log: seq<Revision>, max: int) {
    && LogOk(log)
    && IsWindow(v.bodies, log, max)
    && match v.head
       case None => log == []
       case Some(h) => log != [] && h.history == [] && h.revision == |log| && h.chart == Last(log).chart
  }

  lemma RefinedHistoryNumbers(v: View, h: seq<Revision>, log: seq<Revision>, max: int)
    requires Refines(v, log, max) && IsHistory(h, v.bodies)
    ensures h == log[WindowStart(log, max) - 1..]
  {
    var w := log[WindowStart(log, max) - 1..];
    forall n | n in v.bodies ensures n in Numbers(w) {
      assert Numbers(w)[n - WindowStart(log, max)] == n;
    }
    assert IsHistory(w, v.bodies);
    HistoryIsUnique(h, w, v.bodies);
  }

  lemma KeepOfConsecutive(nums: seq<int>, start: int, max: int, n: int)
    requires max > 0 && forall i :: 0 <= i < |nums| ==> nums[i] == start + i
    ensures n in Keep(nums, max) <==> start <= n < start + |nums| && start + |nums| - max <= n
  {
    SortKeepsAscending(nums);
    if start <= n < start + |nums| {
      assert nums[n - start] == n;
    }
  }

  lemma PreparedExtendsTheWindow(v: View, r: Release, max: int, log: seq<Revision>)
    requires Refines(v, log, max) && Prepared(v, r)
    ensures r.history[..|r.history| - 1] == log[WindowStart(log, max) - 1..]
    ensures r.revision == |log| + 1
  {
    if v.head.Some? {
      RefinedHistoryNumbers(v, r.history[..|r.history| - 1], log, max);
    }
  }

  lemma PreparedHistoryIsConsecutive(v: View, r: Release, max: int, log: seq<Revision>)
    requires Refines(v, log, max) && Prepared(v, r)
    ensures |r.history| == |log| - WindowStart(log, max) + 2
    ensures forall i :: 0 <= i < |r.history| ==> Numbers(r.history)[i] == WindowStart(log, max) + i
  {
    hide IsHistory, IsWindow;
    PreparedExtendsTheWindow(v, r, max, log);
    var start := WindowStart(log, max);
    var init := r.history[..|r.history| - 1];
    forall i | 0 <= i < |r.history| ensures r.history[i].number == start + i {
      if i < |init| { assert r.history[i] == init[i] == log[start - 1 + i]; }
    }
  }

  lemma WriteAppendsToTheLog(v: View, v': View, r: Release, max: int, log: seq<Revision>)
    requires Refines(v, log, max) && Prepared(v, r) && Writes(v, v', r, max, true)
    ensures Refines(v', log + [Last(r.history)], max)
  {
    hide Prepared, Keep, IsHistory;
    PreparedRevision(v, r, max, log);
    var log' := log + [Last(r.history)];
    PreparedHistoryIsConsecutive(v, r, max, log);
    forall n
      ensures n in v'.bodies <==> WindowStart(log', max) <= n <= |log'|
      ensures n in v'.bodies ==> v'.bodies[n] == log'[n - 1]
    {
      if max > 0 { WindowMovesOn(Numbers(r.history), log, log', max, n); }
    }
  }

  lemma PreparedRevision(v: View, r: Release, max: int, log: seq<Revision>)
    requires Refines(v, log, max) && Prepared(v, r)
    ensures |r.history| > 0
    ensures r.revision == |log| + 1 && Last(r.history).number == |log| + 1 && Last(r.history).chart == r.chart
  {
    hide IsHistory, IsWindow;
  }

  lemma WindowMovesOn(nums: seq<int>, log: seq<Revision>, log': seq<Revision>, max: int, n: int)
    requires max > 0 && |log'| == |log| + 1 && |nums| == |log| - WindowStart(log, max) + 2
    requires forall i :: 0 <= i < |nums| ==> nums[i] == WindowStart(log, max) + i
    ensures n in Keep(nums, max) <==> WindowStart(log', max) <= n <= |log'|
  {
    KeepOfConsecutive(nums, WindowStart(log, max), max, n);
  }

  // Only completed writes, from an empty store.
  ghost predicate FaultFree(vs: seq<View>, rs: seq<Release>, max: int) {
    && |vs| == |rs| + 1 && vs[0] == EMPTY
    && forall k :: 0 <= k < |rs| ==> Prepared(vs[k], rs[k]) && Writes(vs[k], vs[k + 1], rs[k], max, true)
  }

  function Recorded(rs: seq<Release>): seq<Revision>
    requires forall r :: r in rs ==> |r.history| > 0
  {
    if rs == [] then [] else Recorded(rs[..|rs| - 1]) + [Last(rs[|rs| - 1].history)]
  }

  // After k completed writes the head is at revision k and the bodies are exactly the
  // newest `max` of the k things written (all of them when `max` is not positive).
  lemma {:induction false} FaultFreeRunRefinesTheLog(vs: seq<View>, rs: seq<Release>, max: int, k: nat)
    requires FaultFree(vs, rs, max) && k <= |rs|
    ensures forall r :: r in rs[..k] ==> |r.history| > 0
    ensures |Recorded(rs[..k])| == k
    ensures Refines(vs[k], Recorded(rs[..k]), max)
  {
    if k > 0 {
      FaultFreeRunRefinesTheLog(vs, rs, max, k - 1);
      assert rs[..k][..k - 1] == rs[..k - 1];
      assert Prepared(vs[k - 1], rs[k - 1]);
      WriteAppendsToTheLog(vs[k - 1], vs[k], rs[k - 1], max, Recorded(rs[..k - 1]));
    }
  }

  // Rollback's search for revision `n` succeeds exactly for the window's numbers, and
  // finds what write n recorded.
  lemma RollbackFindsTheOriginal(v: View, h: seq<Revision>, log: seq<Revision>, max: int, n: int)
    requires Refines(v, log, max) && IsHistory(h, v.bodies)
    ensures n in Numbers(h) <==> WindowStart(log, max) <= n <= |log|
    ensures forall i :: 0 <= i < |h| && h[i].number == n ==> 1 <= n <= |log| && h[i] == log[n - 1]
  {
    RefinedHistoryNumbers(v, h, log, max);
    if WindowStart(log, max) <= n <= |log| {
      assert Numbers(h)[n - WindowStart(log, max)] == n;
    }
  }
}
