/**
 The staging history of a branch session. Only the branch's HEAD is ever rewritten: a
 write opens or amends a placeholder commit, a commit rewords it. A branch tip is the
 sequence of commits along first parents.
 */
module Staging {
  import opened Text
  import opened WorktreeFs

  const PLACEHOLDER_PREFIX := "ABCP_XXX"
  const PLACEHOLDER := PLACEHOLDER_PREFIX + " (workspace staging — amend before opening a change request)"

  // `merged` holds a merge commit's further parents, each with its history.
  datatype Commit = Commit(tree: Tree, message: string, merged: seq<Parent>)

  datatype Parent = Parent(history: seq<Commit>)

  // The commits from the root to the tip; a branch has at least one.
  type History = h: seq<Commit> | h != [] witness [Commit(map[], "", [])]

  datatype FileOp = FileOp(path: string, op: string, content: string)

  predicate IsPlaceholder(message: string) {
    HasPrefix(message, PLACEHOLDER_PREFIX)
  }

  predicate IsSpace(c: char) {
    c == ' ' || '\t' <= c <= '\r'
  }

  // strings.TrimSpace
  function TrimSpace(s: string): (r: string)
    ensures |r| <= |s|
  {
    if s == "" then s
    else if IsSpace(s[0]) then TrimSpace(s[1..])
    else if IsSpace(s[|s| - 1]) then TrimSpace(s[..|s| - 1])
    else s
  }

  // The spaces of ASCII.
  ghost predicate AllSpaces(s: string) {
    forall c :: c in s ==> c in {' ', '\t', '\n', '\r', '\U{000B}', '\U{000C}'}
  }

  lemma AllSpacesIff(s: string)
    ensures AllSpaces(s) <==> forall c :: c in s ==> IsSpace(c)
  {
    forall c ensures IsSpace(c) <==> c in {' ', '\t', '\n', '\r', '\U{000B}', '\U{000C}'} {
      assert c as int in {9, 10, 11, 12, 13, 32} <==> IsSpace(c);
    }
  }

  // What is left is the text without the spaces around it.
  lemma {:induction false} TrimSpaceTrims(s: string) returns (before: string, after: string)
    ensures s == before + TrimSpace(s) + after
    ensures (forall c :: c in before ==> IsSpace(c)) && (forall c :: c in after ==> IsSpace(c))
    ensures var t := TrimSpace(s); t != "" ==> !IsSpace(t[0]) && !IsSpace(t[|t| - 1])
  {
    hide IsSpace;
    before, after := "", "";
    if s == "" {
    } else if IsSpace(s[0]) {
      before, after := TrimSpaceTrims(s[1..]);
      assert s == [s[0]] + s[1..];
      assert [s[0]] + (before + TrimSpace(s[1..]) + after) == ([s[0]] + before) + TrimSpace(s[1..]) + after;
      before := [s[0]] + before;
    } else if IsSpace(s[|s| - 1]) {
      var front, last := s[..|s| - 1], s[|s| - 1];
      before, after := TrimSpaceTrims(front);
      assert s == front + [last];
      assert (before + TrimSpace(front) + after) + [last] == before + TrimSpace(front) + (after + [last]);
      after := after + [last];
    }
  }

  lemma TrimSpaceIsEmptyIff(s: string)
    ensures TrimSpace(s) == "" <==> AllSpaces(s)
  {
    hide IsSpace, AllSpaces, TrimSpace;
    AllSpacesIff(s);
    var before, after := TrimSpaceTrims(s);
    var t := TrimSpace(s);
    if t == "" {
      assert s == before + after;
    } else {
      assert s[|before|] == t[0];
    }
  }

  function Tip(h: History): Commit {
    h[|h| - 1]
  }

  function OpPath(op: FileOp): string {
    TrimSpace(op.path)
  }

  predicate LegalPath(p: string) {
    p != "" && !Contains(p, "..") && !HasPrefix(p, "/")
  }

  // What one file operation does to the tree when it succeeds.
  function OpEffect(t: Tree, op: FileOp): Tree {
    if op.op == "delete" then t - {OpPath(op)} else t[OpPath(op) := op.content]
  }

  function Fold(t: Tree, ops: seq<FileOp>): Tree {
    if ops == [] then t else OpEffect(Fold(t, ops[..|ops| - 1]), ops[|ops| - 1])
  }

  lemma {:induction false} FoldAppends(t: Tree, a: seq<FileOp>, b: seq<FileOp>)
    ensures Fold(t, a + b) == Fold(Fold(t, a), b)
  {
    if b == [] {
      assert a + b == a;
    } else {
      assert (a + b)[..|a + b| - 1] == a + b[..|b| - 1];
      FoldAppends(t, a, b[..|b| - 1]);
    }
  }

  /******* The three operations on a branch *******/

  predicate Placed(h: History) {
    IsPlaceholder(Tip(h).message)
  }

  // commitIsEmpty: the tip changes nothing.
  predicate TipIsEmpty(h: History) {
    if |h| == 1 then Tip(h).tree == map[] else Tip(h).tree == h[|h| - 2].tree
  }

  function Reworded(h: History, tree: Tree, message: string): History {
    h[..|h| - 1] + [Commit(tree, message, Tip(h).merged)]
  }

  // ApplyFiles with a batch that applies: amend the placeholder, or open one.
  predicate CanWrite(h: History, ops: seq<FileOp>) {
    ops != [] && Fold(Tip(h).tree, ops) != Tip(h).tree
  }

  function Written(h: History, ops: seq<FileOp>): History {
    var tree := Fold(Tip(h).tree, ops);
    if Placed(h) then Reworded(h, tree, PLACEHOLDER) else h + [Commit(tree, PLACEHOLDER, [])]
  }

  // Commit: reword the placeholder to the message.
  predicate CanClose(h: History, message: string) {
    TrimSpace(message) != "" && Placed(h) && !TipIsEmpty(h)
  }

  function Closed(h: History, message: string): History {
    Reworded(h, Tip(h).tree, message)
  }

  // Status.MergeTip: what a change request should merge.
  function MergeTip(h: History): History {
    if Placed(h) && |h| > 1 then h[..|h| - 1] else h
  }

  // The staging area is open: the tip is a placeholder, by its message.
  ghost predicate Open(h: History) {
    HasPrefix(h[|h| - 1].message, "ABCP_XXX")
  }

  // The tip's tree differs from its parent's, or, at a root, from the empty one.
  ghost predicate TipChanges(h: History) {
    h[|h| - 1].tree != if |h| > 1 then h[|h| - 2].tree else map[]
  }

  lemma CanCloseIff(h: History, message: string)
    ensures CanClose(h, message) <==> !AllSpaces(message) && Open(h) && TipChanges(h)
    ensures Placed(h) <==> Open(h)
    ensures TipIsEmpty(h) <==> !TipChanges(h)
    ensures MergeTip(h) == if Open(h) && |h| > 1 then h[..|h| - 1] else h
  {
    TrimSpaceIsEmptyIff(message);
  }

  // What a write leaves: the branch, without its placeholder if it had one, and a placeholder
  // with the new tree on top.
  ghost predicate OpensOn(h: History, ops: seq<FileOp>, t: History) {
    && t[..|t| - 1] == (if Open(h) then h[..|h| - 1] else h)
    && t[|t| - 1].tree == Fold(h[|h| - 1].tree, ops) && Open(t)
    && t[|t| - 1].message == "ABCP_XXX" + " (workspace staging — amend before opening a change request)"
  }

  lemma PlaceholderText()
    ensures PLACEHOLDER == "ABCP_XXX" + " (workspace staging — amend before opening a change request)"
    ensures HasPrefix(PLACEHOLDER, "ABCP_XXX")
  {
    assert PLACEHOLDER[..8] == "ABCP_XXX";
  }

  lemma WrittenOpens(h: History, ops: seq<FileOp>)
    ensures OpensOn(h, ops, Written(h, ops))
  {
    hide Fold, HasPrefix;
    PlaceholderText();
    assert Placed(h) <==> Open(h);
  }

  // A branch that was settled before a write can be closed after it.
  lemma WriteCanBeClosed(h: History, ops: seq<FileOp>, message: string)
    requires !Open(h) && CanWrite(h, ops) && !AllSpaces(message)
    ensures CanClose(Written(h, ops), message)
  {
    hide Fold;
    WrittenOpens(h, ops);
    CanCloseIff(Written(h, ops), message);
  }

  // What a commit leaves: the same tree and parents under the new message.
  lemma ClosedRewords(h: History, message: string)
    ensures var n := |h| - 1; Closed(h, message) == h[..n] + [Commit(h[n].tree, message, h[n].merged)]
  {
  }

  lemma PlaceholderIsPlaced()
    ensures IsPlaceholder(PLACEHOLDER)
  {
    assert PLACEHOLDER[..|PLACEHOLDER_PREFIX|] == PLACEHOLDER_PREFIX;
  }

  /******* Runs *******/

  datatype Event =
    | Write(ops: seq<FileOp>)
    | Close(message: string)
    | Strip                    // ResetTo(MergeTip), before a merge
    | NoEffect                 // a refused operation, or one whose push did not arrive

  // `pending` collects the batches written since the placeholder was opened.
  datatype Branch = Branch(h: History, pending: seq<FileOp>)

  ghost predicate Step(s: Branch, e: Event, t: Branch) {
    match e
    case Write(ops) =>
      CanWrite(s.h, ops) && t == Branch(Written(s.h, ops), if Placed(s.h) then s.pending + ops else ops)
    case Close(message) =>
      CanClose(s.h, message) && !IsPlaceholder(message) && t == Branch(Closed(s.h, message), [])
    case Strip => t == Branch(MergeTip(s.h), [])
    case NoEffect => t == s
  }

  ghost predicate Run(b: seq<Branch>, es: seq<Event>) {
    |b| == |es| + 1 && forall k :: 0 <= k < |es| ==> Step(b[k], es[k], b[k + 1])
  }

  ghost predicate NoPlaceholders(h: seq<Commit>) {
    forall i :: 0 <= i < |h| ==> !IsPlaceholder(h[i].message)
  }

  // The commits that are closed for good.
  function Settled(h: History): seq<Commit> {
    if Placed(h) then h[..|h| - 1] else h
  }

  // At most one placeholder, at HEAD, on top of a settled history that extends `start`
  // by commits that each change something; an open one holds exactly the pending batches.
  ghost predicate Tidy(s: Branch, start: History) {
    && NoPlaceholders(Settled(s.h))
    && start <= Settled(s.h)
    && (forall i :: |start| <= i < |Settled(s.h)| ==> Settled(s.h)[i].tree != Settled(s.h)[i - 1].tree)
    && (Placed(s.h) ==> Tip(s.h).tree == Fold(s.h[|s.h| - 2].tree, s.pending) && Tip(s.h).merged == [])
  }

  lemma WriteStaysTidy(s: Branch, ops: seq<FileOp>, t: Branch, start: History)
    requires Tidy(s, start) && Step(s, Write(ops), t)
    ensures Tidy(t, start) && Settled(t.h) == Settled(s.h)
  {
    hide IsPlaceholder, Fold;
    PlaceholderIsPlaced();
    assert Settled(t.h) == Settled(s.h);
    if Placed(s.h) {
      FoldAppends(s.h[|s.h| - 2].tree, s.pending, ops);
    }
  }

  lemma CloseStaysTidy(s: Branch, message: string, t: Branch, start: History)
    requires Tidy(s, start) && Step(s, Close(message), t)
    ensures Tidy(t, start)
    ensures Settled(t.h) == Settled(s.h) + [Commit(Fold(Settled(s.h)[|Settled(s.h)| - 1].tree, s.pending), message, [])]
  {
    hide IsPlaceholder, Fold;
    assert Settled(t.h) == t.h;
  }

  lemma StripStaysTidy(s: Branch, t: Branch, start: History)
    requires Tidy(s, start) && Step(s, Strip, t)
    ensures Tidy(t, start) && t.h == Settled(s.h)
  {
    hide IsPlaceholder, Fold;
    var n := |s.h|;
    if Placed(s.h) {
      assert |Settled(s.h)| >= 1;
      assert t.h == Settled(s.h);
      assert !IsPlaceholder(Settled(s.h)[n - 2].message);
    }
  }

  lemma {:induction false} RunsStayTidy(b: seq<Branch>, es: seq<Event>, start: History, k: nat)
    requires Run(b, es) && k < |b|
    requires NoPlaceholders(start) && b[0] == Branch(start, [])
    ensures Tidy(b[k], start)
    decreases k
  {
    if k > 0 {
      RunsStayTidy(b, es, start, k - 1);
      match es[k - 1]
      case Write(ops) => WriteStaysTidy(b[k - 1], ops, b[k], start);
      case Close(message) => CloseStaysTidy(b[k - 1], message, b[k], start);
      case Strip => StripStaysTidy(b[k - 1], b[k], start);
      case NoEffect =>
    }
  }

  // No operation ever rewrites a settled commit.
  lemma {:induction false} SettledOnlyGrows(b: seq<Branch>, es: seq<Event>, start: History, i: nat, k: nat)
    requires Run(b, es) && i <= k < |b|
    requires NoPlaceholders(start) && b[0] == Branch(start, [])
    ensures Settled(b[i].h) <= Settled(b[k].h)
    decreases k
  {
    if i < k {
      SettledOnlyGrows(b, es, start, i, k - 1);
      RunsStayTidy(b, es, start, k - 1);
      match es[k - 1]
      case Write(ops) => WriteStaysTidy(b[k - 1], ops, b[k], start);
      case Close(message) => CloseStaysTidy(b[k - 1], message, b[k], start);
      case Strip =>
        StripStaysTidy(b[k - 1], b[k], start);
        RunsStayTidy(b, es, start, k);
        assert Settled(b[k].h) == Settled(b[k - 1].h) by { SettledOfSettled(b[k - 1], start); }
      case NoEffect =>
    }
  }

  lemma SettledOfSettled(s: Branch, start: History)
    requires Tidy(s, start)
    ensures Settled(s.h) != [] && Settled(Settled(s.h)) == Settled(s.h)
  {
    var settled := Settled(s.h);
    assert !IsPlaceholder(settled[|settled| - 1].message);
  }

  // A commit settles exactly when its message is not itself spelled like a placeholder;
  // with such a message the branch stays open and the next write amends the "commit".
  lemma CloseSettlesUnlessMessageIsPlaceholder(h: History, message: string)
    requires CanClose(h, message)
    ensures !Placed(Closed(h, message)) <==> !IsPlaceholder(message)
    ensures IsPlaceholder(message) ==>
              forall ops :: Written(Closed(h, message), ops) == Written(h, ops)
  {
    forall ops | IsPlaceholder(message) ensures Written(Closed(h, message), ops) == Written(h, ops) {
      assert Closed(h, message)[..|h| - 1] == h[..|h| - 1];
    }
  }

  // The input that shows it: a message that begins like the placeholder.
  lemma PlaceholderMessageDoesNotClose()
    ensures var h := [Commit(map[], "init", []), Commit(map["f" := "x"], PLACEHOLDER, [])];
            CanClose(h, PLACEHOLDER_PREFIX) && Placed(Closed(h, PLACEHOLDER_PREFIX))
  {
    PlaceholderIsPlaced();
    assert IsPlaceholder(PLACEHOLDER_PREFIX);
    assert TrimSpace(PLACEHOLDER_PREFIX) == PLACEHOLDER_PREFIX;
    assert "f" in map["f" := "x"];
  }
}
