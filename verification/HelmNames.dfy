/**
 ConfigMap names of the Helm release store. A release has one head record and one body
 per revision; both kinds of name live in the same namespace, so what separates two
 releases is that the names are different strings.
 */
module HelmNames {

  const RELEASE_PREFIX := "helm-release-"
  const REVISION_PREFIX := "helm-release-rev-"
  const MAX_RELEASE_NAME := 53

  function Digit(d: nat): (c: char)
    requires d < 10
    ensures '0' <= c <= '9' && (c as int) - ('0' as int) == d
  {
    ('0' as int + d) as char
  }

  function Digits(n: nat): (s: string)
    ensures |s| >= 1 && forall i :: 0 <= i < |s| ==> '0' <= s[i] <= '9'
  {
    if n < 10 then [Digit(n)] else Digits(n / 10) + [Digit(n % 10)]
  }

  // strconv.Itoa
  function Itoa(n: int): (s: string)
    ensures |s| >= 1 && 'v' !in s
  {
    if n < 0 then "-" + Digits(-n) else Digits(n)
  }

  function CmName(release: string): string {
    RELEASE_PREFIX + release
  }

  function RevCmName(release: string, revision: int): string {
    REVISION_PREFIX + release + "-v" + Itoa(revision)
  }

  predicate ValidReleaseName(s: string) {
    && s != "" && |s| <= MAX_RELEASE_NAME
    && (forall i :: 0 <= i < |s| ==> 'a' <= s[i] <= 'z' || '0' <= s[i] <= '9' || s[i] == '-')
    && s[0] != '-' && s[|s| - 1] != '-'
  }

  // The accepted names, by character codes: up to 53 lower-case letters, digits and dashes,
  // no dash at an end.
  lemma ValidReleaseNameIff(s: string)
    ensures ValidReleaseName(s) <==>
            && 1 <= |s| <= 53
            && (forall c :: c in s ==> 97 <= c as int <= 122 || 48 <= c as int <= 57 || c as int == 45)
            && s[0] as int != 45 && s[|s| - 1] as int != 45
  {
    if ValidReleaseName(s) {
      forall c | c in s ensures 97 <= c as int <= 122 || 48 <= c as int <= 57 || c as int == 45 {
        var i :| 0 <= i < |s| && s[i] == c;
      }
    }
    forall i | 0 <= i < |s| ensures s[i] in s {}
  }

  lemma NamesAre(release: string, revision: int)
    ensures CmName(release) == "helm-release-" + release
    ensures RevCmName(release, revision) == "helm-release-rev-" + release + "-v" + Itoa(revision)
  {
  }

  // The one way two releases share a name: `a` is spelled like a revision of `b`.
  ghost predicate LooksLikeRevisionOf(a: string, b: string) {
    exists n: int :: a == "rev-" + b + "-v" + Itoa(n)
  }

  ghost predicate Separate(a: string, b: string) {
    a != b && !LooksLikeRevisionOf(a, b) && !LooksLikeRevisionOf(b, a)
  }

  ghost predicate OwnName(name: string, release: string) {
    name == CmName(release) || exists n: int :: name == RevCmName(release, n)
  }

  lemma {:induction false} DigitsInjective(m: nat, n: nat)
    ensures Digits(m) == Digits(n) <==> m == n
  {
    var a, b := Digits(m), Digits(n);
    if m >= 10 && n >= 10 {
      assert a[..|a| - 1] == Digits(m / 10) && b[..|b| - 1] == Digits(n / 10);
      assert a[|a| - 1] == Digit(m % 10) && b[|b| - 1] == Digit(n % 10);
      DigitsInjective(m / 10, n / 10);
    }
  }

  lemma ItoaInjective(m: int, n: int)
    ensures Itoa(m) == Itoa(n) <==> m == n
  {
    hide Digits, Digit;
    if m < 0 && n < 0 {
      assert Itoa(m)[1..] == Digits(-m) && Itoa(n)[1..] == Digits(-n);
      DigitsInjective(-m, -n);
    } else if m >= 0 && n >= 0 {
      DigitsInjective(m, n);
    } else {
      assert (Itoa(m)[0] == '-') != (Itoa(n)[0] == '-');
    }
  }

  lemma LongerReleaseHasOtherNames(r1: string, n1: int, r2: string, n2: int)
    requires |r1| < |r2|
    ensures RevCmName(r1, n1) != RevCmName(r2, n2)
  {
    var s1, s2 := RevCmName(r1, n1), RevCmName(r2, n2);
    var v := |REVISION_PREFIX| + |r2| + 1;
    if |s1| == |s2| {
      assert s2[v] == 'v';
      assert s1[v] == Itoa(n1)[|r2| - |r1| - 1];
    }
  }

  lemma ConcatParts(a: string, b: string, c: string, d: string)
    ensures (a + b + c + d)[|a|..|a| + |b|] == b
    ensures (a + b + c + d)[|a| + |b| + |c|..] == d
  {
  }

  // The revision number is the part after the last 'v', so nothing is ambiguous.
  lemma RevCmNameInjective(r1: string, n1: int, r2: string, n2: int)
    ensures RevCmName(r1, n1) == RevCmName(r2, n2) <==> r1 == r2 && n1 == n2
  {
    if |r1| < |r2| {
      LongerReleaseHasOtherNames(r1, n1, r2, n2);
    } else if |r2| < |r1| {
      LongerReleaseHasOtherNames(r2, n2, r1, n1);
    } else {
      ConcatParts(REVISION_PREFIX, r1, "-v", Itoa(n1));
      ConcatParts(REVISION_PREFIX, r2, "-v", Itoa(n2));
      ItoaInjective(n1, n2);
    }
  }

  lemma Regroup(a: string, b: string, c: string, d: string, e: string)
    ensures (a + b) + c + d + e == a + (b + c + d + e)
  {
  }

  lemma SamePrefix(pre: string, a: string, b: string)
    ensures pre + a == pre + b <==> a == b
  {
    assert (pre + a)[|pre|..] == a && (pre + b)[|pre|..] == b;
  }

  lemma HeadNameMeetsRevisionName(a: string, b: string, n: int)
    ensures CmName(a) == RevCmName(b, n) <==> a == "rev-" + b + "-v" + Itoa(n)
  {
    hide Itoa;
    var tail := "rev-" + b + "-v" + Itoa(n);
    assert REVISION_PREFIX == RELEASE_PREFIX + "rev-";
    Regroup(RELEASE_PREFIX, "rev-", b, "-v", Itoa(n));
    SamePrefix(RELEASE_PREFIX, a, tail);
  }

  lemma SharedNameMeansLookalike(a: string, b: string, name: string)
    requires OwnName(name, a) && OwnName(name, b)
    ensures !Separate(a, b)
  {
    if name == CmName(a) && name == CmName(b) {
      assert CmName(a)[|RELEASE_PREFIX|..] == a && CmName(b)[|RELEASE_PREFIX|..] == b;
    } else if name == CmName(a) {
      var n :| name == RevCmName(b, n);
      HeadNameMeetsRevisionName(a, b, n);
    } else if name == CmName(b) {
      var n :| name == RevCmName(a, n);
      HeadNameMeetsRevisionName(b, a, n);
    } else {
      var m :| name == RevCmName(a, m);
      var n :| name == RevCmName(b, n);
      RevCmNameInjective(a, m, b, n);
    }
  }

  // Releases share a ConfigMap name exactly when one is spelled like a revision of the other.
  lemma NamesAreSharedOnlyByLookalikes(a: string, b: string)
    requires a != b
    ensures (exists name :: OwnName(name, a) && OwnName(name, b)) <==> !Separate(a, b)
  {
    if name :| OwnName(name, a) && OwnName(name, b) {
      SharedNameMeansLookalike(a, b, name);
    }
    if LooksLikeRevisionOf(a, b) {
      var n: int :| a == "rev-" + b + "-v" + Itoa(n);
      HeadNameMeetsRevisionName(a, b, n);
      assert OwnName(CmName(a), a) && OwnName(CmName(a), b);
    }
    if LooksLikeRevisionOf(b, a) {
      var n: int :| b == "rev-" + a + "-v" + Itoa(n);
      HeadNameMeetsRevisionName(b, a, n);
      assert OwnName(CmName(b), b) && OwnName(CmName(b), a);
    }
  }

  // The name check does not rule the clash out: both names below are accepted.
  lemma ValidNamesCanClash()
    ensures ValidReleaseName("web") && ValidReleaseName("rev-web-v1")
    ensures CmName("rev-web-v1") == RevCmName("web", 1)
  {
    assert Itoa(1) == "1";
    HeadNameMeetsRevisionName("rev-web-v1", "web", 1);
  }
}
