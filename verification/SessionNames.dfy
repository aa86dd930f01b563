/**
 Session names. A branch session is named `org:repo:branch`; printing and parsing such
 names are inverse to one another on legal components.
 */
module SessionNames {
  import opened Text

  datatype Option<+T> = None | Some(value: T)

  datatype Target = Target(org: string, repo: string, branch: string)

  const MAX_COMPONENT := 128

  predicate Alnum(c: char) {
    'A' <= c <= 'Z' || 'a' <= c <= 'z' || '0' <= c <= '9'
  }

  predicate ComponentChar(c: char) {
    Alnum(c) || c == '.' || c == '_' || c == '/' || c == '-'
  }

  predicate ValidComponent(s: string) {
    && 1 <= |s| <= MAX_COMPONENT
    && Alnum(s[0])
    && (forall c :: c in s ==> ComponentChar(c))
    && !Contains(s, ":") && !Contains(s, "..")
    && !HasPrefix(s, "/") && !HasSuffix(s, "/") && !Contains(s, "//")
    && !HasSuffix(s, ".") && !HasSuffix(s, ".lock")
  }

  // The accepted names, position by position.
  lemma ValidComponentIff(s: string)
    ensures ValidComponent(s) <==>
            && 1 <= |s| <= 128
            && ('A' <= s[0] <= 'Z' || 'a' <= s[0] <= 'z' || '0' <= s[0] <= '9')
            && (forall i :: 0 <= i < |s| ==>
                  'A' <= s[i] <= 'Z' || 'a' <= s[i] <= 'z' || '0' <= s[i] <= '9' || s[i] in {'.', '_', '/', '-'})
            && (forall i :: 0 <= i < |s| - 1 ==> s[i] == s[i + 1] ==> s[i] != '.' && s[i] != '/')
            && s[|s| - 1] != '/' && s[|s| - 1] != '.' && !(|s| >= 5 && s[|s| - 5..] == ".lock")
  {
    PairIsContained(s, '.');
    PairIsContained(s, '/');
    assert Contains(s, "..") == Contains(s, ['.', '.']) && Contains(s, "//") == Contains(s, ['/', '/']);
    CharIsContained(s, ':');
    assert Contains(s, ":") == Contains(s, [':']);
    if s != "" {
      assert s[..1] == [s[0]] && s[|s| - 1..] == [s[|s| - 1]];
      assert HasPrefix(s, "/") <==> s[0] == '/';
      assert HasSuffix(s, "/") <==> s[|s| - 1] == '/';
      assert HasSuffix(s, ".") <==> s[|s| - 1] == '.';
    }
    assert (forall c :: c in s ==> ComponentChar(c)) <==> forall i :: 0 <= i < |s| ==> ComponentChar(s[i]);
  }

  lemma CharIsContained(s: string, c: char)
    ensures Contains(s, [c]) <==> c in s
  {
    if k: nat :| k <= |s| && ContainsAt(s, [c], k) { assert s[k..k + 1][0] == s[k]; }
    if c in s {
      var i :| 0 <= i < |s| && s[i] == c;
      assert s[i..i + 1] == [c];
      assert ContainsAt(s, [c], i);
    }
  }

  lemma PairIsContained(s: string, c: char)
    ensures Contains(s, [c, c]) <==> exists i :: 0 <= i < |s| - 1 && s[i] == s[i + 1] == c
  {
    if k: nat :| k <= |s| && ContainsAt(s, [c, c], k) {
      assert s[k..k + 2][0] == s[k] && s[k..k + 2][1] == s[k + 1];
    }
    if i :| 0 <= i < |s| - 1 && s[i] == s[i + 1] == c {
      assert s[i..i + 2] == [c, c];
      assert ContainsAt(s, [c, c], i);
    }
  }

  // strings.Split(s, ":")
  function Fields(s: string): (parts: seq<string>)
    ensures |parts| >= 1
  {
    if s == "" then [""]
    else
      var rest := Fields(s[1..]);
      if s[0] == ':' then [""] + rest else [[s[0]] + rest[0]] + rest[1..]
  }

  function ParseSession(name: string): Option<Target> {
    var parts := Fields(name);
    if |parts| != 3 then None
    else if exists p :: p in parts && !ValidComponent(p) then None
    else Some(Target(parts[0], parts[1], parts[2]))
  }

  function SessionName(org: string, repo: string, branch: string): string {
    org + ":" + repo + ":" + branch
  }

  function Name(t: Target): string {
    SessionName(t.org, t.repo, t.branch)
  }

  predicate ValidTarget(t: Target) {
    ValidComponent(t.org) && ValidComponent(t.repo) && ValidComponent(t.branch)
  }

  lemma {:induction false} FieldsOfOne(a: string)
    requires ':' !in a
    ensures Fields(a) == [a]
  {
    if a != "" {
      FieldsOfOne(a[1..]);
      assert a == [a[0]] + a[1..];
    }
  }

  lemma {:induction false} FieldsOfMore(a: string, t: string)
    requires ':' !in a
    ensures Fields(a + ":" + t) == [a] + Fields(t)
  {
    var s := a + ":" + t;
    if a == "" {
      assert s[1..] == t;
    } else {
      FieldsOfMore(a[1..], t);
      assert s[1..] == a[1..] + ":" + t && s[0] == a[0];
      assert a == [a[0]] + a[1..];
    }
  }

  function WithColons(parts: seq<string>): string {
    if parts == [] then "" else if |parts| == 1 then parts[0] else parts[0] + ":" + WithColons(parts[1..])
  }

  lemma {:induction false} FieldsAreLossless(s: string)
    ensures WithColons(Fields(s)) == s
  {
    if s != "" {
      FieldsAreLossless(s[1..]);
      var rest := Fields(s[1..]);
      if s[0] == ':' {
        assert Fields(s)[1..] == rest;
      } else {
        assert Fields(s)[1..] == rest[1..];
      }
    }
  }

  lemma ComponentsHaveNoColon(s: string)
    requires ValidComponent(s)
    ensures ':' !in s
  {
    assert ':' in s ==> ComponentChar(':');
  }

  // Printing and parsing are inverse: a name parses as a target exactly when the target's
  // components are legal and it prints as that name.
  lemma ParseInvertsName(name: string, t: Target)
    ensures ParseSession(name) == Some(t) <==> ValidTarget(t) && name == Name(t)
  {
    hide ValidComponent;
    FieldsAreLossless(name);
    var parts := Fields(name);
    if |parts| == 3 {
      assert WithColons(parts) == parts[0] + ":" + (parts[1] + ":" + parts[2]) by {
        assert parts[1..] == [parts[1], parts[2]] && parts[1..][1..] == [parts[2]];
        assert WithColons(parts[1..][1..]) == parts[2];
      }
      assert name == SessionName(parts[0], parts[1], parts[2]);
    }
    if ValidTarget(t) && name == Name(t) {
      ComponentsHaveNoColon(t.org);
      ComponentsHaveNoColon(t.repo);
      ComponentsHaveNoColon(t.branch);
      assert name == t.org + ":" + (t.repo + ":" + t.branch);
      FieldsOfMore(t.org, t.repo + ":" + t.branch);
      FieldsOfMore(t.repo, t.branch);
      FieldsOfOne(t.branch);
    }
  }

  // Whatever the branches are, in legally named repositories two sessions with one name
  // are the same.
  lemma NamesSeparateTargets(a: Target, b: Target)
    requires ValidComponent(a.org) && ValidComponent(a.repo) && ValidComponent(b.org) && ValidComponent(b.repo)
    ensures Name(a) == Name(b) <==> a == b
  {
    hide ValidComponent, Fields;
    assert Name(a) == a.org + ":" + (a.repo + ":" + a.branch);
    assert Name(b) == b.org + ":" + (b.repo + ":" + b.branch);
    if Name(a) == Name(b) {
      ComponentsHaveNoColon(a.org);
      ComponentsHaveNoColon(a.repo);
      ComponentsHaveNoColon(b.org);
      ComponentsHaveNoColon(b.repo);
      SameFirst(a.org, a.repo + ":" + a.branch, b.org, b.repo + ":" + b.branch);
      SameFirst(a.repo, a.branch, b.repo, b.branch);
    }
  }

  lemma SameFirst(a: string, s: string, b: string, t: string)
    requires ':' !in a && ':' !in b
    ensures a + ":" + s == b + ":" + t ==> a == b && s == t
  {
    FieldsOfMore(a, s);
    FieldsOfMore(b, t);
    if a + ":" + s == b + ":" + t {
      assert [a] + Fields(s) == [b] + Fields(t);
      assert a == ([a] + Fields(s))[0] && b == ([b] + Fields(t))[0];
      assert s == (a + ":" + s)[|a| + 1..] && t == (b + ":" + t)[|b| + 1..];
    }
  }
}
