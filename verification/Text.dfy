/**
 Substring search and line splitting. A Go string or byte slice is a `string` here, one
 character per byte.
 */
module Text {

  predicate ContainsAt(s: string, pat: string, k: nat) {
    k + |pat| <= |s| && s[k..k + |pat|] == pat
  }

  // strings.Contains / bytes.Contains
  predicate Contains(s: string, pat: string) {
    exists k: nat | k <= |s| :: ContainsAt(s, pat, k)
  }

  predicate HasPrefix(s: string, pre: string) {
    |pre| <= |s| && s[..|pre|] == pre
  }

  predicate HasSuffix(s: string, suf: string) {
    |suf| <= |s| && s[|s| - |suf|..] == suf
  }

  // strings.TrimPrefix
  function TrimPrefix(s: string, pre: string): string {
    if HasPrefix(s, pre) then s[|pre|..] else s
  }

  function Join(parts: seq<string>): string {
    if parts == [] then "" else parts[0] + Join(parts[1..])
  }

  lemma {:induction false} JoinAppends(a: seq<string>, b: seq<string>)
    ensures Join(a + b) == Join(a) + Join(b)
  {
    if a == [] {
      assert a + b == b;
    } else {
      assert (a + b)[1..] == a[1..] + b;
      JoinAppends(a[1..], b);
    }
  }

  lemma ContainsInConcat(a: string, b: string, c: string, pat: string)
    ensures Contains(b, pat) ==> Contains(a + b + c, pat)
  {
    if Contains(b, pat) {
      var k: nat :| k <= |b| && ContainsAt(b, pat, k);
      assert (a + b + c)[|a| + k..|a| + k + |pat|] == b[k..k + |pat|];
      assert ContainsAt(a + b + c, pat, |a| + k);
    }
  }

  /******* Lines *******/

  // strings.SplitAfter(s, "\n"), where `i` bytes of the current line have been scanned.
  function SplitAfter(s: string, i: nat): (lines: seq<string>)
    requires i <= |s| && '\n' !in s[..i]
    decreases |s| - i
  {
    if i == |s| then [s]
    else if s[i] == '\n' then [s[..i + 1]] + SplitAfter(s[i + 1..], 0)
    else SplitAfter(s, i + 1)
  }

  function SplitLines(s: string): seq<string> {
    if s == "" then [] else SplitAfter(s, 0)
  }

  predicate Terminated(line: string) {
    line != "" && line[|line| - 1] == '\n'
  }

  // Every line but the last ends its line; the last does not.
  ghost predicate LinesOk(lines: seq<string>) {
    && (forall i :: 0 <= i < |lines| - 1 ==> Terminated(lines[i]))
    && (lines != [] ==> !Terminated(lines[|lines| - 1]))
  }

  lemma {:induction false} SplitAfterIsLossless(s: string, i: nat)
    requires i <= |s| && '\n' !in s[..i]
    ensures Join(SplitAfter(s, i)) == s
    ensures SplitAfter(s, i) != [] && LinesOk(SplitAfter(s, i))
    decreases |s| - i
  {
    if i == |s| {
      assert Join([s]) == s + Join([]);
      assert s != "" ==> s[|s| - 1] in s[..i];
    } else if s[i] == '\n' {
      var rest := SplitAfter(s[i + 1..], 0);
      SplitAfterIsLossless(s[i + 1..], 0);
      assert ([s[..i + 1]] + rest)[1..] == rest;
      assert s == s[..i + 1] + s[i + 1..];
    } else {
      SplitAfterIsLossless(s, i + 1);
    }
  }

  lemma SplitLinesIsLossless(s: string)
    ensures Join(SplitLines(s)) == s
    ensures LinesOk(SplitLines(s))
  {
    if s != "" { SplitAfterIsLossless(s, 0); }
  }

  lemma {:induction false} PartIsContained(parts: seq<string>, i: nat, pat: string)
    requires i < |parts| && Contains(parts[i], pat)
    ensures Contains(Join(parts), pat)
  {
    var before, after := parts[..i], parts[i + 1..];
    assert parts == before + ([parts[i]] + after);
    JoinAppends(before, [parts[i]] + after);
    assert ([parts[i]] + after)[1..] == after;
    assert Join(parts) == Join(before) + parts[i] + Join(after);
    ContainsInConcat(Join(before), parts[i], Join(after), pat);
  }

  lemma StraddlingFails(line: string, rest: string, pat: string, k: nat)
    requires Terminated(line) && '\n' !in pat && k < |line| < k + |pat|
    ensures !ContainsAt(line + rest, pat, k)
  {
    if k + |pat| <= |line + rest| {
      assert (line + rest)[k..k + |pat|][|line| - 1 - k] == '\n';
    }
  }

  // A pattern without a newline cannot straddle a line end.
  lemma NoPatternAcrossLineEnd(line: string, rest: string, pat: string)
    requires Terminated(line) && '\n' !in pat
    ensures Contains(line + rest, pat) ==> Contains(line, pat) || Contains(rest, pat)
  {
    if Contains(line + rest, pat) {
      var k: nat :| k <= |line + rest| && ContainsAt(line + rest, pat, k);
      if k + |pat| <= |line| {
        assert line[k..k + |pat|] == pat;
        assert ContainsAt(line, pat, k);
      } else if k >= |line| {
        assert rest[k - |line|..k - |line| + |pat|] == pat;
        assert ContainsAt(rest, pat, k - |line|);
      } else {
        StraddlingFails(line, rest, pat, k);
      }
    }
  }

  lemma {:induction false} CleanLinesJoinClean(lines: seq<string>, pat: string)
    requires pat != "" && '\n' !in pat
    requires forall i :: 0 <= i < |lines| - 1 ==> Terminated(lines[i])
    requires forall i :: 0 <= i < |lines| ==> !Contains(lines[i], pat)
    ensures !Contains(Join(lines), pat)
  {
    if |lines| == 1 {
      assert Join(lines) == lines[0] + Join(lines[1..]);
      assert Join(lines) == lines[0];
    } else if |lines| > 1 {
      CleanLinesJoinClean(lines[1..], pat);
      NoPatternAcrossLineEnd(lines[0], Join(lines[1..]), pat);
    }
  }
}
