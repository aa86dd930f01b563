/**
 Replica counts under pause, resume and scale, and the revision a rollback goes to. A
 pause notes the count in an annotation, as text, for the resume to read back.
 */
module Rollout {
  import opened HelmNames

  datatype Option<+T> = None | Some(value: T)

  const INT32_LIMIT := 0x8000_0000

  datatype Deployment = Deployment(replicas: Option<int>, marker: Option<string>)

  function ParseDigits(s: string): Option<nat> {
    if s == "" then None
    else
      var c := s[|s| - 1];
      if !('0' <= c <= '9') then None
      else
        var d: nat := (c as int) - ('0' as int);
        if |s| == 1 then Some(d)
        else
          match ParseDigits(s[..|s| - 1])
          case None => None
          case Some(n) => Some(10 * n + d)
  }

  // strconv.ParseInt(s, 10, 32)
  function ParseInt32(s: string): Option<int> {
    var neg := s != "" && s[0] == '-';
    var digits := if s != "" && (s[0] == '-' || s[0] == '+') then s[1..] else s;
    match ParseDigits(digits)
    case None => None
    case Some(n) =>
      var v: int := if neg then 0 - (n as int) else n as int;
      if -INT32_LIMIT <= v < INT32_LIMIT then Some(v) else None
  }

  lemma {:induction false} DigitsParse(n: nat)
    ensures ParseDigits(Digits(n)) == Some(n)
  {
    if n >= 10 {
      DigitsParse(n / 10);
      assert Digits(n)[..|Digits(n)| - 1] == Digits(n / 10);
    }
  }

  // Exactly the 32-bit numbers are read, with or without a plus sign.
  lemma ParseInt32Iff(n: int)
    ensures ParseInt32(Itoa(n)) == if -0x8000_0000 <= n <= 0x7fff_ffff then Some(n) else None
    ensures n >= 0 ==> ParseInt32("+" + Itoa(n)) == ParseInt32(Itoa(n))
  {
    hide Digits, ParseDigits;
    var m: nat := if n < 0 then -n else n;
    DigitsParse(m);
    FirstDigit(m);
    assert n < 0 ==> Itoa(n)[1..] == Digits(m);
    assert ("+" + Itoa(n))[1..] == Itoa(n);
  }

  // What a pause remembers of a count.
  function Remembered(replicas: Option<int>): int {
    if replicas.None? || replicas.value < 1 then 1 else replicas.value
  }

  function Paused(d: Deployment): Deployment {
    Deployment(Some(0), if d.marker.None? then Some(Itoa(Remembered(d.replicas))) else d.marker)
  }

  function Restored(marker: Option<string>): int {
    if marker.None? then 1
    else
      match ParseInt32(marker.value)
      case None => 1
      case Some(n) => if n > 0 then n else 1
  }

  function Resumed(d: Deployment): Deployment {
    Deployment(Some(Restored(d.marker)), None)
  }

  function Scaled(d: Deployment, replicas: int): Deployment {
    Deployment(Some(replicas), None)
  }

  class Client {
    var deployments: map<string, Deployment>
    ghost var faults: nat

    constructor (deployments: map<string, Deployment>)
      ensures this.deployments == deployments
    {
      this.deployments := deployments;
      faults := 0;
    }

    // An update that fails, which `faults` counts, may have been carried out.
    method Update(name: string, d: Deployment) returns (ok: bool)
      modifies this
      ensures ok ==> deployments == old(deployments)[name := d]
      ensures !ok ==> deployments == old(deployments) || deployments == old(deployments)[name := d]
      ensures faults == if ok then old(faults) else old(faults) + 1
    {
      var sent := *;
      ok := *;
      if sent || ok { deployments := deployments[name := d]; }
      if !ok { faults := faults + 1; }
    }

    method Pause(name: string) returns (ok: bool)
      modifies this
      ensures !ok ==> faults > old(faults) || name !in old(deployments)
      ensures name !in old(deployments) ==> !ok && deployments == old(deployments)
      ensures ok ==> name in old(deployments) && deployments == old(deployments)[name := Paused(old(deployments)[name])]
      ensures ok ==> deployments[name].replicas == Some(0) && deployments[name].marker.Some?
      ensures deployments != old(deployments) ==>
                name in old(deployments) && deployments == old(deployments)[name := Paused(old(deployments)[name])]
    {
      if name !in deployments { return false; }
      var d := deployments[name];
      if d.marker.None? {
        var prev := 0;
        if d.replicas.Some? {
          prev := d.replicas.value;
        }
        if prev < 1 {
          prev := 1;
        }
        d := d.(marker := Some(Itoa(prev)));
      }
      d := d.(replicas := Some(0));
      ok := Update(name, d);
    }

    method Resume(name: string) returns (ok: bool)
      modifies this
      ensures !ok ==> faults > old(faults) || name !in old(deployments)
      ensures name !in old(deployments) ==> !ok && deployments == old(deployments)
      ensures ok ==>
                name in old(deployments) && deployments == old(deployments)[name := Resumed(old(deployments)[name])]
      ensures ok ==> deployments[name].replicas.Some? && deployments[name].replicas.value >= 1
      ensures ok ==> deployments[name].marker == None
      ensures deployments != old(deployments) ==>
                name in old(deployments) && deployments == old(deployments)[name := Resumed(old(deployments)[name])]
    {
      if name !in deployments { return false; }
      var d := deployments[name];
      var reps := 1;
      if d.marker.Some? && d.marker.value != "" {
        var n := ParseInt32(d.marker.value);
        if n.Some? && n.value > 0 {
          reps := n.value;
        }
      }
      d := Deployment(Some(reps), None);
      ok := Update(name, d);
    }

    method Scale(name: string, replicas: int) returns (ok: bool)
      modifies this
      ensures !ok ==> faults > old(faults) || replicas < 0 || name !in old(deployments)
      ensures replicas < 0 || name !in old(deployments) ==> !ok && deployments == old(deployments)
      ensures ok ==>
                && name in old(deployments)
                && deployments == old(deployments)[name := Scaled(old(deployments)[name], replicas)]
      ensures ok ==> deployments[name] == Deployment(Some(replicas), None)
      ensures deployments != old(deployments) ==>
                && name in old(deployments)
                && deployments == old(deployments)[name := Scaled(old(deployments)[name], replicas)]
    {
      if replicas < 0 { return false; }
      if name !in deployments { return false; }
      ok := Update(name, Deployment(Some(replicas), None));
    }
  }

  function PausedTimes(d: Deployment, k: nat): Deployment {
    if k == 0 then d else Paused(PausedTimes(d, k - 1))
  }

  lemma {:induction false} PausesKeepTheFirstCount(d: Deployment, k: nat)
    requires d.marker.None? && k >= 1
    ensures PausedTimes(d, k) == Paused(d)
  {
    if k > 1 { PausesKeepTheFirstCount(d, k - 1); }
  }

  // However often a running deployment is paused, one resume brings its count back.
  lemma ResumeRestores(d: Deployment, k: nat)
    requires d.marker.None? && k >= 1 && (d.replicas.Some? ==> d.replicas.value < INT32_LIMIT)
    ensures Resumed(PausedTimes(d, k)) == Deployment(Some(Remembered(d.replicas)), None)
  {
    hide Digits, ParseDigits;
    PausesKeepTheFirstCount(d, k);
    DigitsParse(Remembered(d.replicas));
    FirstDigit(Remembered(d.replicas));
  }

  lemma FirstDigit(n: nat)
    ensures Digits(n) != "" && '0' <= Digits(n)[0] <= '9'
  {
  }

  // Pause and resume undo one another exactly on a deployment that runs and is not paused:
  // one scaled to zero comes back with a replica.
  lemma ResumeUndoesPauseIff(d: Deployment)
    requires d.replicas.Some? ==> d.replicas.value < INT32_LIMIT
    ensures Resumed(Paused(d)) == d <==> d.marker.None? && d.replicas.Some? && d.replicas.value >= 1
  {
    hide Digits, ParseDigits;
    if d.marker.None? {
      ResumeRestores(d, 1);
      assert PausedTimes(d, 0) == d && PausedTimes(d, 1) == Paused(d);
    }
  }

  /******* Rollback *******/

  datatype ReplicaSet = ReplicaSet(name: string, revision: int)

  predicate Ascending(revs: seq<ReplicaSet>) {
    forall i, j :: 0 <= i < j < |revs| ==> revs[i].revision <= revs[j].revision
  }

  function Insert(revs: seq<ReplicaSet>, r: ReplicaSet): seq<ReplicaSet> {
    if revs == [] then [r]
    else if revs[|revs| - 1].revision <= r.revision then revs + [r]
    else Insert(revs[..|revs| - 1], r) + [revs[|revs| - 1]]
  }

  lemma {:induction false} InsertAscends(revs: seq<ReplicaSet>, r: ReplicaSet)
    requires Ascending(revs)
    ensures Ascending(Insert(revs, r))
    ensures forall x :: x in Insert(revs, r) <==> x in revs || x == r
  {
    if revs != [] {
      var front, last := revs[..|revs| - 1], revs[|revs| - 1];
      assert revs == front + [last];
      InsertAscends(front, r);
      var more := Insert(front, r);
      forall i | 0 <= i < |more| && r.revision < last.revision ensures more[i].revision <= last.revision {
        assert more[i] in more;
      }
    }
  }

  // sort.Slice by revision
  method Sort(revs: seq<ReplicaSet>) returns (out: seq<ReplicaSet>)
    ensures Ascending(out) && forall x :: x in out <==> x in revs
  {
    out := [];
    for i := 0 to |revs|
      invariant Ascending(out) && forall x :: x in out <==> x in revs[..i]
    {
      InsertAscends(out, revs[i]);
      out := Insert(out, revs[i]);
    }
  }

  lemma LaterOrBelow(revs: seq<ReplicaSet>, i: nat)
    requires Ascending(revs) && i < |revs|
    ensures forall x :: x in revs ==> x in revs[i + 1..] || x.revision <= revs[i].revision
  {
    forall k | 0 <= k < |revs| ensures revs[k] in revs[i + 1..] || revs[k].revision <= revs[i].revision {
      if k > i { assert revs[i + 1..][k - i - 1] == revs[k]; }
    }
  }

  // A revision that can be rolled back to: one with a number, below the current one when
  // just undoing.
  predicate Candidate(r: ReplicaSet, cur: int, revision: int) {
    r.revision != 0 && if revision > 0 then r.revision == revision else r.revision < cur
  }

  // The ReplicaSet a rollback takes its template from: the one asked for, else the newest
  // before the current one.
  method TargetRevision(sets: seq<ReplicaSet>, cur: int, revision: int) returns (target: Option<string>)
    ensures target.None? <==> forall r :: r in sets ==> !Candidate(r, cur, revision)
    ensures target.Some? ==>
              exists r :: r in sets && r.name == target.value && Candidate(r, cur, revision)
                && forall x :: x in sets && Candidate(x, cur, revision) ==> x.revision <= r.revision
  {
    var revs: seq<ReplicaSet> := [];
    for i := 0 to |sets|
      invariant forall x :: x in revs <==> x in sets[..i] && x.revision != 0
    {
      if sets[i].revision != 0 {
        revs := revs + [sets[i]];
      }
    }
    assert sets[..|sets|] == sets;
    revs := Sort(revs);
    if |revs| == 0 {
      return None;
    }
    if revision > 0 {
      for i := 0 to |revs|
        invariant forall r :: r in revs[..i] ==> r.revision != revision
      {
        if revs[i].revision == revision {
          assert revs[i] in revs;
          return Some(revs[i].name);
        }
      }
      return None;
    }
    for i := |revs| downto 0
      invariant forall r :: r in revs[i..] ==> r.revision >= cur
    {
      if revs[i].revision < cur {
        assert revs[i] in revs;
        LaterOrBelow(revs, i);
        return Some(revs[i].name);
      }
    }
    target := None;
  }

  // The input that shows the difference: a service scaled to zero.
  lemma PausedAtZeroResumesAtOne()
    ensures Resumed(Paused(Deployment(Some(0), None))) == Deployment(Some(1), None)
  {
    var d := Deployment(Some(0), None);
    ResumeRestores(d, 1);
    assert PausedTimes(d, 0) == d;
  }
}
