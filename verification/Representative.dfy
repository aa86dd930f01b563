/**
 The sandboxes of a session, its representative first: a running one if there is any,
 else the newest. The rest follow newest first.
 */
module Representative {

  datatype Sandbox = Sandbox(name: string, session: string, phase: string, ready: bool, created: int)

  datatype SandboxRef = SandboxRef(name: string, phase: string, ready: bool)

  predicate Up(sb: Sandbox) {
    sb.phase == "Running" || sb.ready
  }

  // pickRepresentative: whether `sb` replaces `prev`.
  predicate Replaces(prev: Sandbox, sb: Sandbox) {
    if prev.name == "" then true
    else if Up(sb) != Up(prev) then Up(sb)
    else sb.created > prev.created
  }

  predicate Better(a: Sandbox, b: Sandbox) {
    (Up(a) && !Up(b)) || (Up(a) == Up(b) && a.created > b.created)
  }

  predicate NewestFirst(s: seq<Sandbox>) {
    forall i, j :: 0 <= i < j < |s| ==> s[i].created >= s[j].created
  }

  function Mine(sbxs: seq<Sandbox>, session: string): seq<Sandbox> {
    if sbxs == [] then []
    else Mine(sbxs[..|sbxs| - 1], session) + if sbxs[|sbxs| - 1].session == session then [sbxs[|sbxs| - 1]] else []
  }

  lemma {:induction false} MineIsFiltered(sbxs: seq<Sandbox>, session: string)
    ensures forall sb :: multiset(Mine(sbxs, session))[sb] == if sb.session == session then multiset(sbxs)[sb] else 0
  {
    if sbxs != [] {
      MineIsFiltered(sbxs[..|sbxs| - 1], session);
      assert sbxs == sbxs[..|sbxs| - 1] + [sbxs[|sbxs| - 1]];
    }
  }

  // sort.SliceStable, newest first: an equal one goes behind those already there.
  function Insert(s: seq<Sandbox>, sb: Sandbox): seq<Sandbox> {
    if s == [] then [sb]
    else if s[|s| - 1].created >= sb.created then s + [sb]
    else Insert(s[..|s| - 1], sb) + [s[|s| - 1]]
  }

  function Sorted(s: seq<Sandbox>): seq<Sandbox> {
    if s == [] then [] else Insert(Sorted(s[..|s| - 1]), s[|s| - 1])
  }

  lemma {:induction false} InsertConserves(s: seq<Sandbox>, sb: Sandbox)
    ensures multiset(Insert(s, sb)) == multiset(s) + multiset{sb}
  {
    if s != [] {
      assert s == s[..|s| - 1] + [s[|s| - 1]];
      InsertConserves(s[..|s| - 1], sb);
    }
  }

  lemma {:induction false} InsertKeepsOrder(s: seq<Sandbox>, sb: Sandbox)
    requires NewestFirst(s)
    ensures NewestFirst(Insert(s, sb))
    ensures forall x :: x in Insert(s, sb) <==> x in s || x == sb
  {
    if s != [] {
      var front, last := s[..|s| - 1], s[|s| - 1];
      assert s == front + [last];
      InsertKeepsOrder(front, sb);
      var more := Insert(front, sb);
      forall i | 0 <= i < |more| && last.created < sb.created ensures more[i].created >= last.created {
        assert more[i] in more;
      }
    }
  }

  lemma {:induction false} SortedIsNewestFirst(s: seq<Sandbox>)
    ensures NewestFirst(Sorted(s)) && multiset(Sorted(s)) == multiset(s)
  {
    if s != [] {
      var front, last := s[..|s| - 1], s[|s| - 1];
      assert s == front + [last];
      SortedIsNewestFirst(front);
      InsertKeepsOrder(Sorted(front), last);
      InsertConserves(Sorted(front), last);
    }
  }

  predicate Named(s: seq<Sandbox>) {
    forall sb :: sb in s ==> sb.name != ""
  }

  // `sb` is no reason to prefer it: it is not up while the other is not, and not newer
  // while both are up or both are not.
  ghost predicate Yields(sb: Sandbox, rep: Sandbox) {
    var up, repUp := sb.phase == "Running" || sb.ready, rep.phase == "Running" || rep.ready;
    (up ==> repUp) && (up == repUp ==> sb.created <= rep.created)
  }

  lemma YieldsUnlessBetter(sb: Sandbox, rep: Sandbox)
    ensures Yields(sb, rep) <==> !Better(sb, rep)
  {
  }

  // `out` presents the sandboxes `all`: nothing lost, the best first, the rest newest first.
  ghost predicate Presents(out: seq<Sandbox>, all: multiset<Sandbox>) {
    && multiset(out) == all
    && (out != [] ==> (forall sb :: sb in out ==> Yields(sb, out[0])) && NewestFirst(out[1..]))
  }

  function Refs(s: seq<Sandbox>): (out: seq<SandboxRef>)
    ensures |out| == |s|
  {
    if s == [] then []
    else Refs(s[..|s| - 1]) + [SandboxRef(s[|s| - 1].name, s[|s| - 1].phase, s[|s| - 1].ready)]
  }

  lemma {:induction false} RefsNameTheirSandboxes(s: seq<Sandbox>, i: nat)
    requires i < |s|
    ensures Refs(s)[i].name == s[i].name && Refs(s)[i].phase == s[i].phase && Refs(s)[i].ready == s[i].ready
  {
    if i < |s| - 1 { RefsNameTheirSandboxes(s[..|s| - 1], i); }
  }

  // sessionSandboxes
  method SessionSandboxes(sbxs: seq<Sandbox>, session: string) returns (out: seq<SandboxRef>)
    ensures |out| == |Mine(sbxs, session)|
    ensures Named(sbxs) ==> exists ordered :: out == Refs(ordered) && Presents(ordered, multiset(Mine(sbxs, session)))
  {
    hide Replaces, Better, Sorted, Up, NewestFirst, Presents, Named, Unbeaten;
    var mine: seq<Sandbox> := [];
    for i := 0 to |sbxs|
      invariant mine == Mine(sbxs[..i], session)
    {
      assert sbxs[..i + 1][..i] == sbxs[..i];
      if sbxs[i].session == session {
        mine := mine + [sbxs[i]];
      }
    }
    assert sbxs[..|sbxs|] == sbxs;
    if |mine| == 0 {
      NothingPresented();
      return [];
    }
    SortedIsNewestFirst(mine);
    SameMembers(mine, Sorted(mine));
    mine := Sorted(mine);
    var rep := 0;
    BetterIsAnOrder([], mine[0], mine[0]);
    assert mine[..1] == [mine[0]];
    for i := 1 to |mine|
      invariant 0 <= rep < i
      invariant Named(mine) ==> Unbeaten(mine[..i], mine[rep])
    {
      assert mine[..i + 1] == mine[..i] + [mine[i]];
      BetterIsAnOrder(mine[..i], mine[rep], mine[i]);
      MemberIsNamed(mine, rep);
      if Replaces(mine[rep], mine[i]) {
        rep := i;
      }
    }
    assert mine[..|mine|] == mine;
    var front := [mine[rep]] + mine[..rep] + mine[rep + 1..];
    FrontIsPresented(mine, rep, front);
    MineIsNamed(sbxs, session, mine);
    out := ToRefs(front);
    assert Named(sbxs) ==> Presents(front, multiset(mine));
  }

  method ToRefs(s: seq<Sandbox>) returns (out: seq<SandboxRef>)
    ensures out == Refs(s)
  {
    out := [];
    for i := 0 to |s|
      invariant out == Refs(s[..i])
    {
      assert s[..i + 1][..i] == s[..i];
      out := out + [SandboxRef(s[i].name, s[i].phase, s[i].ready)];
    }
    assert s[..|s|] == s;
  }

  lemma NothingPresented()
    ensures Presents([], multiset([])) && Refs([]) == []
  {
  }

  lemma MineIsNamed(sbxs: seq<Sandbox>, session: string, mine: seq<Sandbox>)
    requires multiset(mine) == multiset(Mine(sbxs, session))
    ensures Named(sbxs) ==> Named(mine)
  {
    MineIsFiltered(sbxs, session);
    forall sb | sb in mine && Named(sbxs) ensures sb.name != "" {
      assert sb in multiset(mine);
      assert sb in multiset(sbxs);
    }
  }

  predicate Unbeaten(s: seq<Sandbox>, rep: Sandbox) {
    forall sb :: sb in s ==> !Better(sb, rep)
  }

  lemma MemberIsNamed(s: seq<Sandbox>, i: nat)
    requires i < |s|
    ensures Named(s) ==> s[i].name != ""
  {
  }

  lemma BetterIsAnOrder(seen: seq<Sandbox>, rep: Sandbox, next: Sandbox)
    ensures Unbeaten([next], next)
    ensures rep.name != "" ==> (Replaces(rep, next) <==> Better(next, rep))
    ensures rep.name == "" ==> Replaces(rep, next)
    ensures Unbeaten(seen, rep) ==> Unbeaten(seen + [next], if Better(next, rep) then next else rep)
  {
  }

  lemma FrontIsPresented(mine: seq<Sandbox>, rep: nat, front: seq<Sandbox>)
    requires rep < |mine| && NewestFirst(mine)
    requires front == [mine[rep]] + mine[..rep] + mine[rep + 1..]
    ensures Unbeaten(mine, mine[rep]) ==> Presents(front, multiset(mine))
  {
    hide Better, Yields;
    forall sb ensures Yields(sb, mine[rep]) <==> !Better(sb, mine[rep]) { YieldsUnlessBetter(sb, mine[rep]); }
    assert Unbeaten(mine, mine[rep]) ==> forall sb :: sb in mine ==> !Better(sb, mine[rep]);
    MovedToFront(mine, rep);
    assert front[1..] == mine[..rep] + mine[rep + 1..];
    SameMembers(front, mine);
  }

  lemma MovedToFront(s: seq<Sandbox>, k: nat)
    requires k < |s|
    ensures multiset([s[k]] + s[..k] + s[k + 1..]) == multiset(s)
  {
    assert s == s[..k] + [s[k]] + s[k + 1..];
  }

  /******* The list order does not matter *******/

  ghost predicate DistinctTimes(all: multiset<Sandbox>) {
    && (forall sb :: sb in all ==> all[sb] == 1)
    && (forall a, b :: a in all && b in all && a.created == b.created ==> a == b)
  }

  lemma {:induction false} NewestFirstIsUnique(a: seq<Sandbox>, b: seq<Sandbox>)
    requires NewestFirst(a) && NewestFirst(b) && multiset(a) == multiset(b)
    requires forall x, y :: x in a && y in a && x.created == y.created ==> x == y
    ensures a == b
  {
    hide NewestFirst;
    SameMembers(a, b);
    if a != [] {
      NewestLeads(a);
      NewestLeads(b);
      assert a[0] in b && b[0] in a;
      SameTails(a, b);
      NewestFirstIsUnique(a[1..], b[1..]);
      assert a == [a[0]] + a[1..] && b == [b[0]] + b[1..];
    }
  }

  lemma NewestLeads(a: seq<Sandbox>)
    requires NewestFirst(a) && a != []
    ensures NewestFirst(a[1..]) && forall x :: x in a ==> x.created <= a[0].created
  {
  }

  lemma SameMembers(a: seq<Sandbox>, b: seq<Sandbox>)
    requires multiset(a) == multiset(b)
    ensures |a| == |b| && forall x :: x in a <==> x in b
  {
    assert |a| == |multiset(a)| && |b| == |multiset(b)|;
    forall x ensures x in a <==> x in b {
      assert x in a <==> x in multiset(a);
      assert x in b <==> x in multiset(b);
    }
  }

  lemma SameTails(a: seq<Sandbox>, b: seq<Sandbox>)
    requires multiset(a) == multiset(b) && a != [] && b != [] && a[0] == b[0]
    ensures multiset(a[1..]) == multiset(b[1..]) && forall x :: x in a[1..] ==> x in a
  {
    assert a == [a[0]] + a[1..] && b == [b[0]] + b[1..];
    assert multiset(a[1..]) == multiset(a) - multiset{a[0]};
    assert multiset(b[1..]) == multiset(b) - multiset{b[0]};
  }

  // Sandboxes created at different times are presented in one way only, so in whatever
  // order the cluster lists them, the representative and the rest come out the same.
  lemma PresentationIsUnique(a: seq<Sandbox>, b: seq<Sandbox>, all: multiset<Sandbox>)
    requires DistinctTimes(all) && Presents(a, all) && Presents(b, all)
    ensures a == b
  {
    hide NewestFirst;
    SameMembers(a, b);
    if a != [] {
      assert a[0] in b && b[0] in a;
      assert a[0] in all && b[0] in all;
      SameTails(a, b);
      forall x | x in a[1..] ensures x in all { assert x in multiset(a); }
      NewestFirstIsUnique(a[1..], b[1..]);
      assert a == [a[0]] + a[1..] && b == [b[0]] + b[1..];
    }
  }
}
