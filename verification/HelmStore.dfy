/**
 The ConfigMap-backed release store. Every API call is one step that can fail at any
 time, with or without having taken effect; a method returns at the first failure it does
 not tolerate, so what its contract says of a failed call is what it says of a crash
 between any two API calls.
 */
module HelmStore {
  import opened HelmNames
  import opened HelmSpec
  import opened HelmMigration

  const DEFAULT_HISTORY_MAX := 10

  datatype ConfigMap =
    | Head(release: string, head: Release, revisions: seq<int>)
    | Body(release: string, number: int, body: Revision)

  datatype Reply = Found(cm: ConfigMap) | Absent | Unreachable

  datatype Outcome = Done | Exists | Missing | Failed

  datatype Item = Item(name: string, cm: ConfigMap)

  datatype Error = InvalidName | NotFound | RevisionNotFound | NothingToRecord | BadHead | Api

  datatype Result<+T> = Ok(value: T) | Err(error: Error)

  // Every record sits under the name its labels spell.
  ghost predicate WellNamed(cms: map<string, ConfigMap>) {
    forall name :: name in cms ==>
      match cms[name]
      case Head(r, h, _) => name == CmName(r) && h.name == r
      case Body(r, n, b) => name == RevCmName(r, n) && b.number == n
  }

  ghost predicate BodyOf(cm: ConfigMap, release: string) {
    cm.Body? && cm.release == release
  }

  ghost function ViewOf(cms: map<string, ConfigMap>, release: string): View
    requires WellNamed(cms)
  {
    var slot := CmName(release);
    View(if slot in cms && cms[slot].Head? then Some(cms[slot].head) else None,
         map name | name in cms && BodyOf(cms[name], release) :: cms[name].number := cms[name].body)
  }

  ghost predicate OthersUntouched(cms: map<string, ConfigMap>, cms': map<string, ConfigMap>, release: string) {
    forall name :: !OwnName(name, release) ==>
      && (name in cms <==> name in cms')
      && (name in cms ==> cms'[name] == cms[name])
  }

  lemma HeadNameIsNoBodyName(release: string, n: int)
    ensures CmName(release) != RevCmName(release, n)
  {
    assert |CmName(release)| < |RevCmName(release, n)|;
  }

  lemma BodyLookup(cms: map<string, ConfigMap>, release: string, n: int)
    requires WellNamed(cms)
    ensures var name := RevCmName(release, n);
            n in ViewOf(cms, release).bodies <==> name in cms && BodyOf(cms[name], release)
    ensures var name := RevCmName(release, n);
            n in ViewOf(cms, release).bodies ==> ViewOf(cms, release).bodies[n] == cms[name].body
    ensures n in ViewOf(cms, release).bodies ==> ViewOf(cms, release).bodies[n].number == n
  {
    var name := RevCmName(release, n);
    if name in cms && BodyOf(cms[name], release) {
      RevCmNameInjective(release, cms[name].number, release, n);
    }
  }

  lemma HeadLookup(cms: map<string, ConfigMap>, release: string)
    requires WellNamed(cms)
    ensures var slot := CmName(release);
            ViewOf(cms, release).head == if slot in cms && cms[slot].Head? then Some(cms[slot].head) else None
    ensures var slot := CmName(release);
            slot in cms && cms[slot].Head? ==> cms[slot].release == release && cms[slot].head.name == release
  {
    var slot := CmName(release);
    if slot in cms && cms[slot].Head? {
      assert CmName(cms[slot].release)[|RELEASE_PREFIX|..] == cms[slot].release;
      assert CmName(release)[|RELEASE_PREFIX|..] == release;
    }
  }

  lemma OthersSame(cms: map<string, ConfigMap>, release: string)
    ensures OthersUntouched(cms, cms, release)
  {
  }

  lemma OthersChain(a: map<string, ConfigMap>, b: map<string, ConfigMap>, c: map<string, ConfigMap>, release: string)
    requires OthersUntouched(a, b, release) && OthersUntouched(b, c, release)
    ensures OthersUntouched(a, c, release)
  {
    hide OwnName;
  }

  lemma BodyNameIsFree(cms: map<string, ConfigMap>, release: string, n: int, cm: ConfigMap)
    requires WellNamed(cms)
    ensures OthersUntouched(cms, cms[RevCmName(release, n) := cm], release)
    ensures OthersUntouched(cms, cms - {RevCmName(release, n)}, release)
  {
    hide RevCmName, CmName;
    assert OwnName(RevCmName(release, n), release);
  }

  lemma ViewAfterBody(cms: map<string, ConfigMap>, release: string, rv: Revision)
    requires WellNamed(cms)
    ensures var cms' := cms[RevCmName(release, rv.number) := Body(release, rv.number, rv)];
            && WellNamed(cms')
            && ViewOf(cms', release) == WithBody(ViewOf(cms, release), rv)
            && OthersUntouched(cms, cms', release)
  {
    hide RevCmName, CmName, ViewOf, OthersUntouched;
    var cms' := cms[RevCmName(release, rv.number) := Body(release, rv.number, rv)];
    HeadNameIsNoBodyName(release, rv.number);
    HeadLookup(cms, release);
    HeadLookup(cms', release);
    BodyNameIsFree(cms, release, rv.number, Body(release, rv.number, rv));
    var b, b' := ViewOf(cms, release).bodies, ViewOf(cms', release).bodies;
    forall n
      ensures n in b' <==> n in b || n == rv.number
      ensures n in b' ==> b'[n] == if n == rv.number then rv else b[n]
    {
      BodyLookup(cms, release, n);
      BodyLookup(cms', release, n);
      RevCmNameInjective(release, n, release, rv.number);
    }
    assert b' == b[rv.number := rv];
  }

  lemma ViewAfterHead(cms: map<string, ConfigMap>, r: Release, nums: seq<int>)
    requires WellNamed(cms)
    ensures var cms' := cms[CmName(r.name) := Head(r.name, r, nums)];
            && WellNamed(cms')
            && ViewOf(cms', r.name) == ViewOf(cms, r.name).(head := Some(r))
            && OthersUntouched(cms, cms', r.name)
  {
    hide RevCmName, CmName;
    var cms' := cms[CmName(r.name) := Head(r.name, r, nums)];
    var b, b' := ViewOf(cms, r.name).bodies, ViewOf(cms', r.name).bodies;
    forall n
      ensures n in b' <==> n in b
      ensures n in b' ==> b'[n] == b[n]
    {
      HeadNameIsNoBodyName(r.name, n);
      BodyLookup(cms, r.name, n);
      BodyLookup(cms', r.name, n);
    }
    assert b' == b;
  }

  lemma ViewAfterBodyDelete(cms: map<string, ConfigMap>, release: string, d: int)
    requires WellNamed(cms)
    ensures var cms' := cms - {RevCmName(release, d)};
            && WellNamed(cms')
            && ViewOf(cms', release) == ViewOf(cms, release).(bodies := ViewOf(cms, release).bodies - {d})
            && OthersUntouched(cms, cms', release)
  {
    hide RevCmName, CmName;
    var cms' := cms - {RevCmName(release, d)};
    HeadNameIsNoBodyName(release, d);
    var b, b' := ViewOf(cms, release).bodies, ViewOf(cms', release).bodies;
    forall n
      ensures n in b' <==> n in b && n != d
      ensures n in b' ==> b'[n] == b[n]
    {
      BodyLookup(cms, release, n);
      BodyLookup(cms', release, n);
      RevCmNameInjective(release, n, release, d);
    }
    assert b' == b - {d};
  }

  // A change confined to one release's names is invisible to every release that is not
  // spelled like one of its revisions, or the other way round.
  lemma SeparateReleasesDoNotInterfere(cms: map<string, ConfigMap>, cms': map<string, ConfigMap>, a: string, b: string)
    requires WellNamed(cms) && WellNamed(cms')
    requires OthersUntouched(cms, cms', a) && Separate(a, b)
    ensures ViewOf(cms', b) == ViewOf(cms, b)
  {
    hide RevCmName, CmName;
    forall name | OwnName(name, b) ensures !OwnName(name, a) {
      if OwnName(name, a) { SharedNameMeansLookalike(a, b, name); }
    }
    assert OwnName(CmName(b), b);
    var v, v' := ViewOf(cms, b).bodies, ViewOf(cms', b).bodies;
    forall n
      ensures n in v' <==> n in v
      ensures n in v' ==> v'[n] == v[n]
    {
      assert OwnName(RevCmName(b, n), b);
      BodyLookup(cms, b, n);
      BodyLookup(cms', b, n);
    }
    assert v' == v;
  }

  // The separation is needed: a release that is spelled like a stored revision of
  // another one replaces that revision's body when its own head is written.
  lemma LookalikeOverwritesABody(cms: map<string, ConfigMap>, r: Release, b: string, n: int)
    requires WellNamed(cms) && n in ViewOf(cms, b).bodies
    requires r.name == "rev-" + b + "-v" + Itoa(n)
    ensures var cms' := cms[CmName(r.name) := Head(r.name, r, [])];
            WellNamed(cms') && n !in ViewOf(cms', b).bodies
  {
    ViewAfterHead(cms, r, []);
    HeadNameMeetsRevisionName(r.name, b, n);
    BodyLookup(cms[CmName(r.name) := Head(r.name, r, [])], b, n);
  }

  function InsertByNumber(rv: Revision, revs: seq<Revision>): (r: seq<Revision>)
    ensures multiset(r) == multiset(revs) + multiset{rv}
  {
    if revs == [] || rv.number <= revs[0].number then [rv] + revs
    else assert revs == [revs[0]] + revs[1..]; [revs[0]] + InsertByNumber(rv, revs[1..])
  }

  function SortByNumber(revs: seq<Revision>): (r: seq<Revision>)
    ensures multiset(r) == multiset(revs)
  {
    if revs == [] then []
    else assert revs == [revs[0]] + revs[1..]; InsertByNumber(revs[0], SortByNumber(revs[1..]))
  }

  lemma ConsAscends(rv: Revision, rest: seq<Revision>)
    requires StrictlyAscending(Numbers(rest))
    requires forall k :: 0 <= k < |rest| ==> rv.number < rest[k].number
    ensures StrictlyAscending(Numbers([rv] + rest))
  {
    assert Numbers([rv] + rest) == [rv.number] + Numbers(rest);
  }

  lemma {:induction false} InsertByNumberAscends(rv: Revision, revs: seq<Revision>)
    requires StrictlyAscending(Numbers(revs)) && rv.number !in Numbers(revs)
    ensures StrictlyAscending(Numbers(InsertByNumber(rv, revs)))
  {
    if revs == [] || rv.number <= revs[0].number {
      forall k | 0 <= k < |revs| ensures rv.number < revs[k].number {
        assert Numbers(revs)[0] <= Numbers(revs)[k];
        assert Numbers(revs)[k] in Numbers(revs);
      }
      ConsAscends(rv, revs);
    } else {
      assert Numbers(revs[1..]) == Numbers(revs)[1..];
      InsertByNumberAscends(rv, revs[1..]);
      var rest := InsertByNumber(rv, revs[1..]);
      forall k | 0 <= k < |rest| ensures revs[0].number < rest[k].number {
        assert rest[k] in multiset(rest);
        if rest[k] != rv {
          var j :| 0 <= j < |revs| - 1 && revs[1..][j] == rest[k];
          assert Numbers(revs)[0] < Numbers(revs)[j + 1];
        }
      }
      ConsAscends(revs[0], rest);
    }
  }

  lemma {:induction false} SortByNumberAscends(revs: seq<Revision>)
    requires Distinct(Numbers(revs))
    ensures StrictlyAscending(Numbers(SortByNumber(revs)))
    ensures forall rv :: rv in SortByNumber(revs) <==> rv in revs
  {
    forall rv ensures rv in SortByNumber(revs) <==> rv in revs {
      assert rv in SortByNumber(revs) <==> rv in multiset(SortByNumber(revs));
    }
    if revs != [] {
      assert Numbers(revs[1..]) == Numbers(revs)[1..];
      SortByNumberAscends(revs[1..]);
      var rest := SortByNumber(revs[1..]);
      forall k | 0 <= k < |rest| ensures rest[k].number != revs[0].number {
        assert rest[k] in revs[1..];
      }
      InsertByNumberAscends(revs[0], rest);
    }
  }

  // The answer of a list by label: every matching record once.
  ghost predicate Lists(items: seq<Item>, cms: map<string, ConfigMap>, release: string, bodiesOnly: bool) {
    && (forall i :: 0 <= i < |items| ==>
          && items[i].name in cms && cms[items[i].name] == items[i].cm
          && Matches(items[i].cm, release, bodiesOnly))
    && (forall i, j :: 0 <= i < j < |items| ==> items[i].name != items[j].name)
    && (forall name :: name in cms && Matches(cms[name], release, bodiesOnly) ==> Item(name, cms[name]) in items)
  }

  predicate Matches(cm: ConfigMap, release: string, bodiesOnly: bool) {
    cm.release == release && (bodiesOnly ==> cm.Body?)
  }

  ghost predicate BodiesOf(out: seq<Revision>, items: seq<Item>) {
    && |out| == |items|
    && forall i :: 0 <= i < |out| ==> items[i].cm.Body? && out[i] == items[i].cm.body
  }

  lemma ListedNumbersAreDistinct(cms: map<string, ConfigMap>, release: string, items: seq<Item>, out: seq<Revision>)
    requires WellNamed(cms) && Lists(items, cms, release, true) && BodiesOf(out, items)
    ensures Distinct(Numbers(out))
  {
    hide RevCmName, CmName;
    forall i, j | 0 <= i < j < |out| ensures out[i].number != out[j].number {
      assert items[i].name == RevCmName(release, out[i].number);
      assert items[j].name == RevCmName(release, out[j].number);
    }
  }

  lemma ListedBodies(cms: map<string, ConfigMap>, release: string, items: seq<Item>, out: seq<Revision>)
    requires WellNamed(cms) && Lists(items, cms, release, true) && BodiesOf(out, items)
    ensures IsHistory(SortByNumber(out), ViewOf(cms, release).bodies)
  {
    hide RevCmName, CmName, ViewOf;
    var bodies, h := ViewOf(cms, release).bodies, SortByNumber(out);
    ListedNumbersAreDistinct(cms, release, items, out);
    SortByNumberAscends(out);
    forall k | 0 <= k < |h| ensures h[k].number in bodies && bodies[h[k].number] == h[k] {
      assert h[k] in out;
      var i :| 0 <= i < |out| && out[i] == h[k];
      assert items[i].name == RevCmName(release, h[k].number);
      BodyLookup(cms, release, h[k].number);
    }
    forall n | n in bodies ensures n in Numbers(h) {
      ListedBodyIsInHistory(cms, release, items, out, n);
    }
  }

  lemma ListedBodyIsInHistory(cms: map<string, ConfigMap>, release: string, items: seq<Item>,
                              out: seq<Revision>, n: int)
    requires WellNamed(cms) && Lists(items, cms, release, true) && BodiesOf(out, items)
    requires n in ViewOf(cms, release).bodies && Distinct(Numbers(out))
    ensures n in Numbers(SortByNumber(out))
  {
    hide RevCmName, CmName, ViewOf;
    var h, name := SortByNumber(out), RevCmName(release, n);
    SortByNumberAscends(out);
    BodyLookup(cms, release, n);
    var i :| 0 <= i < |items| && items[i] == Item(name, cms[name]);
    assert out[i] in h;
    var k :| 0 <= k < |h| && h[k] == out[i];
    assert Numbers(h)[k] == n;
  }

  // The release value built from what Get returned extends what Get left behind.
  lemma PreparedAfterGet(v: View, mid: View, max: int, migrated: bool, got: Option<Release>, r: Release)
    requires GetEffect(v, mid, max, migrated)
    requires got.None? ==> v.head.None?
    requires got.Some? ==>
               && v.head.Some? && got.value == v.head.value.(history := got.value.history)
               && IsHistory(got.value.history, mid.bodies)
    requires |r.history| > 0 && Last(r.history).number == r.revision && Last(r.history).chart == r.chart
    requires r.history[..|r.history| - 1] == if got.Some? then got.value.history else []
    requires r.revision == if got.Some? then got.value.revision + 1 else 1
    ensures Prepared(mid, r)
    ensures Sound(v) ==> mid == v
  {
    hide IsHistory, Pruned, PutAll;
    assert forall a, b, nums, done :: Pruned(a, b, nums, max, done) ==> b.head == a.head by {
      PrunedKeepsHead(max);
    }
  }

  lemma PrunedKeepsHead(max: int)
    ensures forall a, b, nums, done :: Pruned(a, b, nums, max, done) ==> b.head == a.head
  {
  }

  lemma OthersDelete(cms: map<string, ConfigMap>, release: string, name: string)
    requires OwnName(name, release)
    ensures OthersUntouched(cms, cms - {name}, release)
  {
    hide OwnName;
  }

  lemma OwnDelete(before: map<string, ConfigMap>, cms: map<string, ConfigMap>, release: string, name: string)
    requires WellNamed(before) && name in before && before[name].release == release
    ensures OthersUntouched(cms, cms - {name}, release)
  {
    hide RevCmName, CmName;
    assert OwnName(name, release);
    OthersDelete(cms, release, name);
  }

  lemma DeletedView(cms: map<string, ConfigMap>, release: string)
    requires WellNamed(cms) && CmName(release) !in cms
    requires forall name :: name in cms ==> cms[name].release != release
    ensures ViewOf(cms, release) == EMPTY
  {
    hide RevCmName, CmName;
  }

  // One delete of the prune loop.
  lemma PruneStep(before: View, cms: map<string, ConfigMap>, release: string, name: string,
                  n: int, nums: seq<int>, max: int)
    requires WellNamed(cms) && max > 0 && name == RevCmName(release, n)
    requires Pruned(before, ViewOf(cms, release), nums, max, false) && n !in Keep(nums, max)
    ensures var cms' := cms - {name};
            && WellNamed(cms') && OthersUntouched(cms, cms', release)
            && Pruned(before, ViewOf(cms', release), nums, max, false)
            && n !in ViewOf(cms', release).bodies
            && ViewOf(cms', release).bodies.Keys <= ViewOf(cms, release).bodies.Keys
  {
    hide RevCmName, CmName, ViewOf, Keep;
    ViewAfterBodyDelete(cms, release, n);
  }

  // Once every listed number outside `keep` is gone, nothing outside it is left.
  lemma PruneIsComplete(before: map<string, ConfigMap>, v: View, release: string, items: seq<Item>,
                        nums: seq<int>, max: int)
    requires WellNamed(before) && Lists(items, before, release, true)
    requires Pruned(ViewOf(before, release), v, nums, max, false)
    requires forall k :: 0 <= k < |items| && items[k].cm.number !in Keep(nums, max) ==> items[k].cm.number !in v.bodies
    ensures Pruned(ViewOf(before, release), v, nums, max, true)
  {
    hide RevCmName, CmName, ViewOf, Keep;
    forall n | n in v.bodies ensures n in Keep(nums, max) {
      BodyLookup(before, release, n);
      var name := RevCmName(release, n);
      var k :| 0 <= k < |items| && items[k] == Item(name, before[name]);
      RevCmNameInjective(release, n, release, items[k].cm.number);
    }
  }

  // The indices below `i` the keep loop has accepted.
  function KeepUpTo(s: seq<int>, max: int, i: nat): set<int>
    requires i <= |s|
  {
    if i == 0 then {}
    else KeepUpTo(s, max, i - 1) + (if i - 1 < |s| - max then {} else {s[i - 1]})
  }

  lemma {:induction false} KeepUpToIsKeep(s: seq<int>, max: int, i: nat)
    requires i <= |s|
    ensures KeepUpTo(s, max, i) == set k | 0 <= k < i && |s| - max <= k :: s[k]
  {
    if i > 0 { KeepUpToIsKeep(s, max, i - 1); }
  }

  lemma StoppedAtOnce(v: View, max: int)
    ensures GetEffect(v, v, max, false)
  {
    if IsLegacy(v) {
      assert v == v.(bodies := PutAll(v.bodies, v.head.value.history[..0]));
    }
  }

  function NewRelease(release: string, creator: string, session: string, orgNs: string, chart: Chart): Release {
    Release(release, creator, session, orgNs, chart, 0, "", 0, [])
  }

  // The head of the next write: the same owner, the next number.
  function Stamped(r: Release, chart: Chart, now: int): Release {
    Stripped(r).(chart := chart, revision := r.revision + 1, status := "deployed", updatedAt := now)
  }

  lemma SoundIsNotMigrated(v: View, v': View, max: int, migrated: bool)
    requires GetEffect(v, v', max, migrated)
    ensures Sound(v) || v.head.None? ==> v' == v
  {
  }

  // The name a head would have is taken by a body of another release.
  predicate HoldsBody(cms: map<string, ConfigMap>, name: string) {
    name in cms && cms[name].Body?
  }

  class Client {
    const historyMax: int
    var cms: map<string, ConfigMap>
    var applied: seq<string>      // the manifests applied to the cluster
    ghost var faults: nat

    // A configured bound of 0 selects the default; a negative one keeps everything.
    constructor (configured: int)
      ensures cms == map[] && historyMax != 0
      ensures historyMax == if configured == 0 then 10 else configured
    {
      historyMax := if configured == 0 then DEFAULT_HISTORY_MAX else configured;
      cms, applied, faults := map[], [], 0;
    }

    ghost predicate Valid()
      reads this`cms
    {
      WellNamed(cms)
    }

    ghost function V(release: string): View
      requires Valid()
      reads this`cms
    {
      ViewOf(cms, release)
    }

    /******* The API server *******/

    // Any call may fail, with or without having taken effect; `faults` counts those that do.
    method Reaches() returns (ok: bool)
      modifies this`faults
      ensures faults == if ok then old(faults) else old(faults) + 1
    {
      ok := *;
      if !ok { faults := faults + 1; }
    }

    method ApiGet(name: string) returns (r: Reply)
      modifies this`faults
      ensures r.Found? ==> name in cms && cms[name] == r.cm
      ensures r.Absent? ==> name !in cms
      ensures faults == if r.Unreachable? then old(faults) + 1 else old(faults)
    {
      var reached := Reaches();
      r := if !reached then Unreachable else if name in cms then Found(cms[name]) else Absent;
    }

    method ApiCreate(name: string, cm: ConfigMap) returns (r: Outcome)
      modifies this`cms, this`faults
      ensures cms == old(cms) || (name !in old(cms) && cms == old(cms)[name := cm])
      ensures r == Done ==> cms == old(cms)[name := cm]
      ensures r == Exists ==> name in old(cms)
      ensures faults >= old(faults)
      ensures faults == old(faults) ==> r == if name in old(cms) then Exists else Done
    {
      var reached := Reaches();
      if !reached { return Failed; }
      if name in cms { return Exists; }
      cms := cms[name := cm];
      reached := Reaches();
      r := if reached then Done else Failed;
    }

    method ApiUpdate(name: string, cm: ConfigMap) returns (r: Outcome)
      modifies this`cms, this`faults
      ensures cms == old(cms) || cms == old(cms)[name := cm]
      ensures r == Done ==> cms == old(cms)[name := cm]
      ensures faults >= old(faults)
      ensures faults == old(faults) ==> r == if name in old(cms) then Done else Missing
    {
      var reached := Reaches();
      if !reached { return Failed; }
      if name !in cms { return Missing; }
      cms := cms[name := cm];
      reached := Reaches();
      r := if reached then Done else Failed;
    }

    method ApiDelete(name: string) returns (r: Outcome)
      modifies this`cms, this`faults
      ensures cms == old(cms) || cms == old(cms) - {name}
      ensures r != Failed ==> cms == old(cms) - {name}
      ensures faults >= old(faults) && (r == Failed ==> faults > old(faults))
    {
      var reached := Reaches();
      if !reached { return Failed; }
      if name !in cms { return Missing; }
      cms := cms - {name};
      reached := Reaches();
      r := if reached then Done else Failed;
    }

    // A list by label; its order is unspecified.
    method ApiList(release: string, bodiesOnly: bool) returns (r: Option<seq<Item>>)
      modifies this`faults
      ensures r.Some? ==> Lists(r.value, cms, release, bodiesOnly)
      ensures faults == if r.None? then old(faults) + 1 else old(faults)
    {
      var reached := Reaches();
      if !reached { return None; }
      var todo := set name | name in cms && Matches(cms[name], release, bodiesOnly);
      var items: seq<Item> := [];
      while todo != {}
        invariant forall i :: 0 <= i < |items| ==>
                    && items[i].name in cms && cms[items[i].name] == items[i].cm
                    && Matches(items[i].cm, release, bodiesOnly) && items[i].name !in todo
        invariant forall i, j :: 0 <= i < j < |items| ==> items[i].name != items[j].name
        invariant forall name :: name in todo ==> name in cms && Matches(cms[name], release, bodiesOnly)
        invariant forall name :: name in cms && Matches(cms[name], release, bodiesOnly) ==>
                    name in todo || Item(name, cms[name]) in items
        decreases todo
      {
        var name :| name in todo;
        items := items + [Item(name, cms[name])];
        todo := todo - {name};
      }
      r := Some(items);
    }

    /******* Reading *******/

    method LoadRevisions(release: string) returns (r: Option<seq<Revision>>)
      requires Valid()
      modifies this`faults
      ensures r.Some? ==> IsHistory(r.value, V(release).bodies)
      ensures faults == if r.None? then old(faults) + 1 else old(faults)
    {
      hide RevCmName, CmName, ViewOf, IsHistory, SortByNumber, WellNamed;
      var list := ApiList(release, true);
      if list.None? { return None; }
      var out: seq<Revision> := [];
      for i := 0 to |list.value|
        invariant |out| == i
        invariant forall k :: 0 <= k < i ==> out[k] == list.value[k].cm.body
      {
        out := out + [list.value[i].cm.body];
      }
      ListedBodies(cms, release, list.value, out);
      r := Some(SortByNumber(out));
    }

    method Get(release: string) returns (res: Result<Option<Release>>, ghost migrated: bool)
      requires Valid()
      modifies this`cms, this`faults
      ensures Valid() && OthersUntouched(old(cms), cms, release)
      ensures GetEffect(old(V(release)), V(release), historyMax, migrated)
      ensures faults >= old(faults)
      ensures faults == old(faults) ==> (IsLegacy(old(V(release))) ==> migrated)
      ensures res.Err? ==>
                || (res.error == Api && faults > old(faults))
                || (res.error == BadHead && HoldsBody(old(cms), CmName(release)))
      ensures res.Ok? && res.value.None? ==> old(V(release)).head.None?
      ensures res.Ok? && res.value.Some? ==>
                var r := res.value.value;
                && old(V(release)).head.Some? && r.name == release
                && r == old(V(release)).head.value.(history := r.history)
                && IsHistory(r.history, V(release).bodies)
    {
      hide RevCmName, CmName, ViewOf;
      migrated := false;
      HeadLookup(cms, release);
      OthersSame(cms, release);
      StoppedAtOnce(V(release), historyMax);
      var head := ApiGet(CmName(release));
      if head.Absent? {
        return Ok(None), migrated;
      }
      if head.Unreachable? {
        return Err(Api), migrated;
      }
      if head.cm.Body? {
        return Err(BadHead), migrated;
      }
      var r := head.cm.head;
      if |r.history| > 0 {
        migrated := MigrateLegacy(r);
      }
      var revs := LoadRevisions(release);
      if revs.None? {
        return Err(Api), migrated;
      }
      res := Ok(Some(r.(history := revs.value)));
    }

    /******* Writing *******/

    method PutRevision(release: string, rv: Revision) returns (ok: bool)
      requires Valid()
      modifies this`cms, this`faults
      ensures faults >= old(faults) && (!ok ==> faults > old(faults))
      ensures Valid() && OthersUntouched(old(cms), cms, release)
      ensures V(release) == old(V(release)) || V(release) == WithBody(old(V(release)), rv)
      ensures ok ==> V(release) == WithBody(old(V(release)), rv)
    {
      hide RevCmName, CmName, ViewOf;
      var name, cm := RevCmName(release, rv.number), Body(release, rv.number, rv);
      ViewAfterBody(cms, release, rv);
      var created := ApiCreate(name, cm);
      if created == Done { return true; }
      if created != Exists { return false; }
      var cur := ApiGet(name);
      if !cur.Found? { return false; }
      ViewAfterBody(cms, release, rv);
      var updated := ApiUpdate(name, cm);
      ok := updated == Done;
    }

    method PutHead(r: Release) returns (ok: bool)
      requires Valid()
      modifies this`cms, this`faults
      ensures faults >= old(faults) && (!ok ==> faults > old(faults))
      ensures Valid() && OthersUntouched(old(cms), cms, r.name)
      ensures V(r.name) == old(V(r.name)) || V(r.name) == old(V(r.name)).(head := Some(Stripped(r)))
      ensures ok ==> V(r.name) == old(V(r.name)).(head := Some(Stripped(r)))
      ensures ok ==> CmName(r.name) in cms && cms[CmName(r.name)] == Head(r.name, Stripped(r), Numbers(r.history))
    {
      hide RevCmName, CmName, ViewOf;
      var nums: seq<int> := [];
      for i := 0 to |r.history|
        invariant nums == Numbers(r.history)[..i]
      {
        nums := nums + [r.history[i].number];
      }
      var name, cm := CmName(r.name), Head(r.name, r.(history := []), nums);
      ViewAfterHead(cms, Stripped(r), nums);
      var created := ApiCreate(name, cm);
      if created == Done { return true; }
      if created != Exists { return false; }
      var cur := ApiGet(name);
      if !cur.Found? { return false; }
      ViewAfterHead(cms, Stripped(r), nums);
      var updated := ApiUpdate(name, cm);
      ok := updated == Done;
    }

    // The keep loop of pruneHistory.
    method KeepSet(r: Release) returns (keep: set<int>)
      requires historyMax > 0
      ensures keep == Keep(Numbers(r.history), historyMax)
    {
      var nums: seq<int> := [];
      for i := 0 to |r.history|
        invariant nums == Numbers(r.history)[..i]
      {
        nums := nums + [r.history[i].number];
      }
      assert nums == Numbers(r.history);
      nums := Sort(nums);
      keep := {};
      for i := 0 to |nums|
        invariant keep == KeepUpTo(nums, historyMax, i)
      {
        if i < |nums| - historyMax { continue; }
        keep := keep + {nums[i]};
      }
      KeepUpToIsKeep(nums, historyMax, |nums|);
    }

    method PruneHistory(r: Release) returns (ok: bool)
      requires Valid()
      modifies this`cms, this`faults
      ensures faults >= old(faults) && (!ok ==> faults > old(faults))
      ensures Valid() && OthersUntouched(old(cms), cms, r.name)
      ensures Pruned(old(V(r.name)), V(r.name), Numbers(r.history), historyMax, ok)
    {
      hide RevCmName, CmName, ViewOf, OthersUntouched, Keep;
      OthersSame(cms, r.name);
      if historyMax <= 0 { return true; }
      var keep := KeepSet(r);
      var list := ApiList(r.name, true);
      if list.None? { return false; }
      var stored := list.value;
      for i := 0 to |stored|
        invariant faults >= old(faults)
        invariant Valid() && OthersUntouched(old(cms), cms, r.name)
        invariant Pruned(old(V(r.name)), V(r.name), Numbers(r.history), historyMax, false)
        invariant forall k :: 0 <= k < i && stored[k].cm.number !in keep ==> stored[k].cm.number !in V(r.name).bodies
      {
        var n := stored[i].cm.number;
        if n in keep { continue; }
        PruneStep(old(V(r.name)), cms, r.name, stored[i].name, n, Numbers(r.history), historyMax);
        ghost var before := cms;
        var deleted := ApiDelete(stored[i].name);
        if cms != before { OthersChain(old(cms), before, cms, r.name); }
        if deleted == Failed { return false; }
      }
      PruneIsComplete(old(cms), V(r.name), r.name, stored, Numbers(r.history), historyMax);
      ok := true;
    }

    method Put(r: Release) returns (ok: bool)
      requires Valid()
      modifies this`cms, this`faults
      ensures faults >= old(faults) && (!ok ==> faults > old(faults))
      ensures Valid() && OthersUntouched(old(cms), cms, r.name)
      ensures || (!ok && V(r.name) == old(V(r.name)))
              || Pruned(old(V(r.name)).(head := Some(Stripped(r))), V(r.name), Numbers(r.history), historyMax, ok)
    {
      hide RevCmName, CmName, ViewOf;
      ok := PutHead(r);
      if ok {
        ok := PruneHistory(r);
      }
    }

    method MigrateLegacy(r: Release) returns (ok: bool)
      requires Valid() && V(r.name).head == Some(r) && r.history != []
      modifies this`cms, this`faults
      ensures faults >= old(faults) && (!ok ==> faults > old(faults))
      ensures Valid() && OthersUntouched(old(cms), cms, r.name)
      ensures Migrates(old(V(r.name)), V(r.name), historyMax, ok)
    {
      hide RevCmName, CmName, ViewOf;
      ghost var before := V(r.name);
      assert before == before.(bodies := PutAll(before.bodies, r.history[..0]));
      for i := 0 to |r.history|
        invariant faults >= old(faults)
        invariant Valid() && OthersUntouched(old(cms), cms, r.name)
        invariant V(r.name) == before.(bodies := PutAll(before.bodies, r.history[..i]))
      {
        assert r.history[..i + 1][..i] == r.history[..i];
        ok := PutRevision(r.name, r.history[i]);
        if !ok { return false; }
      }
      assert r.history[..|r.history|] == r.history;
      ok := Put(r);
    }

    method RecordRevision(r: Release) returns (ok: bool)
      requires Valid()
      modifies this`cms, this`faults
      ensures faults >= old(faults) && (!ok && r.history != [] ==> faults > old(faults))
      ensures Valid() && OthersUntouched(old(cms), cms, r.name)
      ensures r.history == [] ==> !ok && cms == old(cms)
      ensures r.history != [] ==> Writes(old(V(r.name)), V(r.name), r, historyMax, ok)
    {
      hide RevCmName, CmName, ViewOf;
      if |r.history| == 0 { return false; }
      ok := PutRevision(r.name, r.history[|r.history| - 1]);
      if ok {
        ok := Put(r);
      }
    }

    // Applying a manifest touches other objects, and can fail.
    method ApplyManifest(manifest: string) returns (ok: bool)
      modifies this`applied, this`faults
      ensures faults == if ok then old(faults) else old(faults) + 1
      ensures applied == old(applied) + [manifest] || (!ok && applied == old(applied))
    {
      var sent := *;
      ok := Reaches();
      if sent || ok { applied := applied + [manifest]; }
    }

    method Apply(release: string, chart: Chart, values: string, manifest: string,
                 creator: string, session: string, orgNs: string, now: int)
      returns (res: Result<Release>, ghost mid: View, ghost tried: Release)
      requires Valid()
      modifies this
      ensures Valid() && OthersUntouched(old(cms), cms, release) && faults >= old(faults)
      ensures res.Err? ==>
                match res.error
                case InvalidName => !ValidReleaseName(release)
                case BadHead => HoldsBody(old(cms), CmName(release))
                case Api => faults > old(faults)
                case _ => false
      ensures !ValidReleaseName(release) ==> res == Err(InvalidName) && cms == old(cms)
      ensures exists migrated :: GetEffect(old(V(release)), mid, historyMax, migrated)
      ensures res.Ok? ==>
                && tried == res.value && Prepared(mid, tried) && Writes(mid, V(release), tried, historyMax, true)
                && Last(tried.history) == Revision(tried.revision, chart, values, manifest, now)
                && var head := old(V(release)).head;
                   var was := if head.Some? then head.value else NewRelease(release, creator, session, orgNs, chart);
                   Stripped(tried) == Stamped(was, chart, now)
      ensures res.Err? && V(release) != mid ==>
                Prepared(mid, tried) && Writes(mid, V(release), tried, historyMax, false)
      ensures Sound(old(V(release))) ==> Sound(V(release))
      ensures res.Ok? || V(release) != mid ==> applied == old(applied) + [manifest]
      ensures applied == old(applied) || applied == old(applied) + [manifest]
    {
      hide RevCmName, CmName, ViewOf, GetEffect, Writes, Sound, OthersUntouched, WellNamed, IsHistory, IsLegacy;
      hide HoldsBody, ValidReleaseName;
      mid := V(release);
      StoppedAtOnce(mid, historyMax);
      OthersSame(cms, release);
      tried := NewRelease(release, creator, session, orgNs, chart);
      if !ValidReleaseName(release) {
        return Err(InvalidName), mid, tried;
      }
      var applied := ApplyManifest(manifest);
      if !applied {
        return Err(Api), mid, tried;
      }
      var got, migrated := Get(release);
      mid := V(release);
      SoundIsNotMigrated(old(V(release)), mid, historyMax, migrated);
      if got.Err? {
        return Err(got.error), mid, tried;
      }
      var cur := if got.value.Some? then got.value.value else NewRelease(release, creator, session, orgNs, chart);
      cur := cur.(chart := chart, revision := cur.revision + 1, status := "deployed", updatedAt := now);
      cur := cur.(history := cur.history + [Revision(cur.revision, chart, values, manifest, now)]);
      tried := cur;
      assert cur.history[..|cur.history| - 1] == if got.value.Some? then got.value.value.history else [];
      PreparedAfterGet(old(V(release)), mid, historyMax, migrated, got.value, cur);
      ghost var between := cms;
      var recorded := RecordRevision(cur);
      OthersChain(old(cms), between, cms, release);
      if Sound(old(V(release))) { WriteKeepsSound(mid, V(release), cur, historyMax, recorded); }
      res := if recorded then Ok(cur) else Err(Api);
    }

    method Rollback(release: string, revision: int, now: int)
      returns (res: Result<Release>, ghost mid: View, ghost tried: Release)
      requires Valid()
      modifies this
      ensures Valid() && OthersUntouched(old(cms), cms, release) && faults >= old(faults)
      ensures res.Err? ==>
                match res.error
                case BadHead => HoldsBody(old(cms), CmName(release))
                case NotFound => mid.head.None?
                case RevisionNotFound => revision !in mid.bodies
                case Api => faults > old(faults)
                case _ => false
      ensures exists migrated :: GetEffect(old(V(release)), mid, historyMax, migrated)
      ensures res.Ok? ==>
                && tried == res.value && Prepared(mid, tried) && Writes(mid, V(release), tried, historyMax, true)
                && revision in mid.bodies
                && Last(tried.history) == mid.bodies[revision].(number := tried.revision, createdAt := now)
                && old(V(release)).head.Some?
                && Stripped(tried) == Stamped(old(V(release)).head.value, mid.bodies[revision].chart, now)
      ensures res == Err(NotFound) ==> mid.head.None? && V(release) == mid
      ensures res == Err(RevisionNotFound) ==> revision !in mid.bodies && V(release) == mid
      ensures res.Err? && V(release) != mid ==>
                Prepared(mid, tried) && Writes(mid, V(release), tried, historyMax, false)
      ensures Sound(old(V(release))) ==> Sound(V(release))
      ensures res.Ok? || V(release) != mid ==>
                revision in mid.bodies && applied == old(applied) + [mid.bodies[revision].manifest]
    {
      hide RevCmName, CmName, ViewOf, GetEffect, Writes, Sound, OthersUntouched, WellNamed;
      var got, migrated := Get(release);
      mid := V(release);
      SoundIsNotMigrated(old(V(release)), mid, historyMax, migrated);
      tried := Release(release, "", "", "", Chart("", "", "", "", []), 0, "", 0, []);
      if got.Err? {
        return Err(if got.error == BadHead then BadHead else Api), mid, tried;
      }
      if got.value.None? {
        return Err(NotFound), mid, tried;
      }
      var cur := got.value.value;
      var target: Option<Revision> := None;
      for i := 0 to |cur.history|
        invariant target.None? && forall k :: 0 <= k < i ==> cur.history[k].number != revision
      {
        if cur.history[i].number == revision {
          target := Some(cur.history[i]);
          break;
        }
      }
      if target.None? {
        assert revision !in Numbers(cur.history);
        return Err(RevisionNotFound), mid, tried;
      }
      var t := target.value;
      var applied := ApplyManifest(t.manifest);
      if !applied {
        return Err(Api), mid, tried;
      }
      cur := cur.(chart := t.chart, revision := cur.revision + 1, status := "deployed", updatedAt := now);
      cur := cur.(history := cur.history + [Revision(cur.revision, t.chart, t.values, t.manifest, now)]);
      tried := cur;
      assert cur.history[..|cur.history| - 1] == got.value.value.history;
      PreparedAfterGet(old(V(release)), mid, historyMax, migrated, got.value, cur);
      ghost var between := cms;
      var recorded := RecordRevision(cur);
      OthersChain(old(cms), between, cms, release);
      if Sound(old(V(release))) { WriteKeepsSound(mid, V(release), cur, historyMax, recorded); }
      res := if recorded then Ok(cur) else Err(Api);
    }

    method DeleteReleaseState(release: string) returns (ok: bool)
      requires Valid()
      modifies this`cms, this`faults
      ensures faults >= old(faults) && (!ok ==> faults > old(faults))
      ensures Valid() && OthersUntouched(old(cms), cms, release)
      ensures ok ==> V(release) == EMPTY
    {
      hide RevCmName, CmName, ViewOf, OthersUntouched;
      OthersSame(cms, release);
      var list := ApiList(release, false);
      if list.None? { return false; }
      var stored := list.value;
      for i := 0 to |stored|
        invariant faults >= old(faults)
        invariant Valid() && OthersUntouched(old(cms), cms, release)
        invariant forall name :: name in cms ==> name in old(cms) && cms[name] == old(cms)[name]
        invariant forall k :: 0 <= k < i ==> stored[k].name !in cms
      {
        ghost var before := cms;
        OwnDelete(old(cms), before, release, stored[i].name);
        var deleted := ApiDelete(stored[i].name);
        if cms != before { OthersChain(old(cms), before, cms, release); }
        if deleted == Failed { return false; }
      }
      ghost var before := cms;
      assert OwnName(CmName(release), release);
      var deleted := ApiDelete(CmName(release));
      OthersDelete(before, release, CmName(release));
      if cms != before { OthersChain(old(cms), before, cms, release); }
      assert forall name :: name in cms ==> Item(name, old(cms)[name]) !in stored;
      if deleted != Failed { DeletedView(cms, release); }
      ok := deleted != Failed;
    }
  }
}
