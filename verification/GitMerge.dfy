/**
 The path-level conflict policy and the marker format of a branch sync. The gates that
 refuse an unresolved branch look only for the sentinel, so what matters is that a
 conflict always carries it and a clean merge never does.
 */
module GitMerge {
  import opened Text
  import opened Diff3

  const SENTINEL := "ABCP-CONFLICT"
  const OURS_OPEN := "<<<<<<< " + SENTINEL + " (ours)"
  const BASE_OPEN := "||||||| " + SENTINEL + " (base)"
  const SPLIT_LINE := "======="
  const THEIRS_OPEN := ">>>>>>> " + SENTINEL + " (theirs)"
  const DELETED_SIDE := SENTINEL + " (deleted)"
  const SNIFF := 8000

  /******* Markers *******/

  predicate HasMarkers(b: string) {
    Contains(b, SENTINEL)
  }

  function Section(s: string): string {
    if s == "" then DELETED_SIDE + "\n"
    else if HasSuffix(s, "\n") then s
    else s + "\n"
  }

  function Line(s: string): string {
    s + "\n"
  }

  function Block(ours: string, base: string, theirs: string): string {
    Line(OURS_OPEN) + Section(ours) + Line(BASE_OPEN) + Section(base)
    + Line(SPLIT_LINE) + Section(theirs) + Line(THEIRS_OPEN)
  }

  function DeletedConflict(ours: string, base: string, theirs: string, oursDeleted: bool): string {
    if oursDeleted then Block("", base, theirs) else Block(ours, base, "")
  }

  class Builder {
    var text: string

    constructor ()
      ensures text == ""
    {
      text := "";
    }

    method Write(s: string)
      modifies this
      ensures text == old(text) + s
    {
      text := text + s;
    }
  }

  method WriteLine(sb: Builder, s: string)
    modifies sb
    ensures sb.text == old(sb.text) + Line(s)
  {
    sb.Write(s);
    sb.Write("\n");
  }

  method WriteSection(sb: Builder, s: string)
    modifies sb
    ensures sb.text == old(sb.text) + Section(s)
  {
    if s == "" {
      sb.Write(DELETED_SIDE);
      sb.Write("\n");
      return;
    }
    sb.Write(s);
    if !HasSuffix(s, "\n") {
      sb.Write("\n");
    }
  }

  method ConflictBlock(ours: string, base: string, theirs: string) returns (r: string)
    ensures r == Block(ours, base, theirs)
    ensures Laid(r, ours, base, theirs)
  {
    hide Line, Section, Laid;
    var sb := new Builder();
    WriteLine(sb, OURS_OPEN);
    WriteSection(sb, ours);
    WriteLine(sb, BASE_OPEN);
    WriteSection(sb, base);
    WriteLine(sb, SPLIT_LINE);
    WriteSection(sb, theirs);
    WriteLine(sb, THEIRS_OPEN);
    r := sb.text;
    BlockIsLaid(ours, base, theirs);
  }

  // A block as a reader sees it: ours, then the base, then theirs, each whole under its
  // marker line, with its line end; a side that has nothing says that it was deleted.
  ghost predicate Laid(block: string, ours: string, base: string, theirs: string) {
    exists a, o, b ::
      && Shown(a, ours) && Shown(o, base) && Shown(b, theirs)
      && block == ("<<<<<<< ABCP-CONFLICT (ours)\n" + a) + ("||||||| ABCP-CONFLICT (base)\n" + o)
                    + ("=======\n" + b) + ">>>>>>> ABCP-CONFLICT (theirs)\n"
  }

  ghost predicate Shown(text: string, content: string) {
    if content == "" then text == "ABCP-CONFLICT (deleted)\n"
    else text == if content[|content| - 1] == '\n' then content else content + "\n"
  }

  lemma SectionIsShown(s: string)
    ensures Shown(Section(s), s)
  {
    if s != "" { assert s[|s| - 1..] == [s[|s| - 1]]; }
  }

  lemma BlockIsLaid(ours: string, base: string, theirs: string)
    ensures Laid(Block(ours, base, theirs), ours, base, theirs)
  {
    hide Section, Shown;
    SectionIsShown(ours);
    SectionIsShown(base);
    SectionIsShown(theirs);
    var a, o, b := Section(ours), Section(base), Section(theirs);
    MarkerLines();
    var x1, x2, x3, x4 := Line(OURS_OPEN), Line(BASE_OPEN), Line(SPLIT_LINE), Line(THEIRS_OPEN);
    assert Block(ours, base, theirs) == x1 + a + x2 + o + x3 + b + x4;
    Regroup(x1, a, x2, o, x3, b, x4);
  }

  lemma Regroup(x1: string, a: string, x2: string, o: string, x3: string, b: string, x4: string)
    ensures x1 + a + x2 + o + x3 + b + x4 == (x1 + a) + (x2 + o) + (x3 + b) + x4
  {
  }

  lemma MarkerLines()
    ensures Line(OURS_OPEN) == "<<<<<<< ABCP-CONFLICT (ours)\n" && Line(BASE_OPEN) == "||||||| ABCP-CONFLICT (base)\n"
    ensures Line(SPLIT_LINE) == "=======\n" && Line(THEIRS_OPEN) == ">>>>>>> ABCP-CONFLICT (theirs)\n"
  {
    OursAndBaseLines();
    SplitAndTheirsLines();
  }

  lemma OursAndBaseLines()
    ensures Line(OURS_OPEN) == "<<<<<<< ABCP-CONFLICT (ours)\n" && Line(BASE_OPEN) == "||||||| ABCP-CONFLICT (base)\n"
  {
  }

  lemma SplitAndTheirsLines()
    ensures Line(SPLIT_LINE) == "=======\n" && Line(THEIRS_OPEN) == ">>>>>>> ABCP-CONFLICT (theirs)\n"
  {
  }

  /******* The text merge *******/

  // A line differ: for a base and a side, the hunks by which the side departs from it.
  type Differ = (seq<string>, seq<string>) -> seq<Hunk>

  ghost predicate ValidDiff(diff: Differ) {
    forall o, s :: Aligned(diff(o, s), o, s)
  }

  function Pieces(base: string, ours: string, theirs: string, diff: Differ): seq<Piece>
    requires ValidDiff(diff)
  {
    var o, a, b := SplitLines(base), SplitLines(ours), SplitLines(theirs);
    Diff3Merge(diff(o, a), diff(o, b), a, o, b)
  }

  // The regions of a merge, with what each input has there.
  function Regions(base: string, ours: string, theirs: string, diff: Differ): seq<Chunk>
    requires ValidDiff(diff)
  {
    var o, a, b := SplitLines(base), SplitLines(ours), SplitLines(theirs);
    Chunks(diff(o, a), diff(o, b), a, o, b)
  }

  function RenderPiece(p: Piece): string {
    match p
    case Merged(lines) => Join(lines)
    case Conflict(a, o, b) => Block(Join(a), Join(o), Join(b))
  }

  function Render(ps: seq<Piece>): string {
    if ps == [] then "" else Render(ps[..|ps| - 1]) + RenderPiece(ps[|ps| - 1])
  }

  method TextMerge(base: string, ours: string, theirs: string, diff: Differ)
    returns (text: string, conflicted: bool)
    requires ValidDiff(diff)
    ensures text == Render(Pieces(base, ours, theirs, diff))
    ensures conflicted <==> !AllMerged(Pieces(base, ours, theirs, diff))
    ensures conflicted <==> exists c :: c in Regions(base, ours, theirs, diff) && c.kind == Both && c.a != c.b
  {
    hide Pieces, Regions, Block, Laid;
    PiecesConflictIff(base, ours, theirs, diff);
    var res := Pieces(base, ours, theirs, diff);
    var sb := new Builder();
    conflicted := false;
    for i := 0 to |res|
      invariant sb.text == Render(res[..i])
      invariant conflicted <==> !AllMerged(res[..i])
    {
      assert res[..i + 1][..i] == res[..i];
      assert res[..i + 1] == res[..i] + [res[i]];
      var item := res[i];
      if item.Merged? {
        sb.Write(Join(item.lines));
        continue;
      }
      conflicted := true;
      assert item in res[..i + 1];
      var block := ConflictBlock(Join(item.a), Join(item.o), Join(item.b));
      sb.Write(block);
    }
    assert res[..|res|] == res;
    text := sb.text;
  }

  // A text conflicts exactly in a region that both sides changed, and differently.
  lemma PiecesConflictIff(base: string, ours: string, theirs: string, diff: Differ)
    requires ValidDiff(diff)
    ensures !AllMerged(Pieces(base, ours, theirs, diff)) <==>
            exists c :: c in Regions(base, ours, theirs, diff) && c.kind == Both && c.a != c.b
  {
    var o, a, b := SplitLines(base), SplitLines(ours), SplitLines(theirs);
    MergeDecidesEveryRegion(diff(o, a), diff(o, b), a, o, b);
  }

  // A merge in which one side has no hunk against the base gives the other side's text.
  lemma OneSidedMergeIsThatSide(base: string, ours: string, theirs: string, diff: Differ)
    requires ValidDiff(diff)
    ensures diff(SplitLines(base), SplitLines(theirs)) == [] ==>
              AllMerged(Pieces(base, ours, theirs, diff)) && Render(Pieces(base, ours, theirs, diff)) == ours
    ensures diff(SplitLines(base), SplitLines(ours)) == [] ==>
              AllMerged(Pieces(base, ours, theirs, diff)) && Render(Pieces(base, ours, theirs, diff)) == theirs
  {
    var o, a, b := SplitLines(base), SplitLines(ours), SplitLines(theirs);
    SplitLinesIsLossless(ours);
    SplitLinesIsLossless(theirs);
    if diff(o, b) == [] {
      UntouchedTheirsYieldsOurs(diff(o, a), a, o, b);
      CleanRenderJoinsTheLines(Pieces(base, ours, theirs, diff));
    }
    if diff(o, a) == [] {
      UntouchedOursYieldsTheirs(diff(o, b), a, o, b);
      CleanRenderJoinsTheLines(Pieces(base, ours, theirs, diff));
    }
  }

  /******* The path policy *******/

  // A path in one tree; `isDir` marks a directory or submodule, which has no data.
  datatype PathContent = PathContent(present: bool, data: string, isDir: bool)

  datatype MergeResult = MergeResult(content: string, conflict: bool, omit: bool)

  predicate IsBinary(b: string) {
    '\0' in if |b| > SNIFF then b[..SNIFF] else b
  }

  lemma IsBinaryIff(b: string)
    ensures IsBinary(b) <==> exists i :: 0 <= i < |b| && i < 8000 && b[i] == '\0'
  {
    var head := if |b| > SNIFF then b[..SNIFF] else b;
    if i :| 0 <= i < |b| && i < 8000 && b[i] == '\0' { assert head[i] == '\0'; }
    if '\0' in head { var i :| 0 <= i < |head| && head[i] == '\0'; assert b[i] == '\0'; }
  }

  predicate SameState(a: PathContent, b: PathContent) {
    if a.present != b.present then false
    else if !a.present then true
    else a.data == b.data
  }

  function Single(s: PathContent): MergeResult {
    if !s.present then MergeResult("", false, true) else MergeResult(s.data, false, false)
  }

  function ResolvePath(base: PathContent, ours: PathContent, theirs: PathContent, diff: Differ): MergeResult
    requires ValidDiff(diff)
  {
    if SameState(base, ours) then Single(theirs)
    else if SameState(base, theirs) then Single(ours)
    else if !ours.present && !theirs.present then MergeResult("", false, true)
    else if !ours.present || !theirs.present then
      var oursDeleted := !ours.present;
      var survivor := if oursDeleted then theirs.data else ours.data;
      if IsBinary(survivor) || IsBinary(base.data) then MergeResult(survivor, false, false)
      else MergeResult(DeletedConflict(ours.data, base.data, theirs.data, oursDeleted), true, false)
    else if IsBinary(base.data) || IsBinary(ours.data) || IsBinary(theirs.data) then
      MergeResult(theirs.data, false, false)
    else
      var ps := Pieces(base.data, ours.data, theirs.data, diff);
      MergeResult(Render(ps), !AllMerged(ps), false)
  }

  // What readPath returns: no data unless the path is a file.
  predicate WasRead(c: PathContent) {
    !c.present ==> c.data == ""
  }

  /******* A conflict is always marked *******/

  lemma BlockIsMarked(ours: string, base: string, theirs: string)
    ensures HasMarkers(Block(ours, base, theirs))
  {
    hide Section;
    OpeningIsMarked();
    var rest := Section(ours) + Line(BASE_OPEN) + Section(base)
                + Line(SPLIT_LINE) + Section(theirs) + Line(THEIRS_OPEN);
    assert Block(ours, base, theirs) == "" + Line(OURS_OPEN) + rest by { hide Line; }
    ContainsInConcat("", Line(OURS_OPEN), rest, SENTINEL);
  }

  lemma OpeningIsMarked()
    ensures HasMarkers(Line(OURS_OPEN))
  {
    assert ContainsAt(Line(OURS_OPEN), SENTINEL, 8);
  }

  lemma {:induction false} ConflictRendersMarked(ps: seq<Piece>)
    requires !AllMerged(ps)
    ensures HasMarkers(Render(ps))
  {
    hide HasMarkers, RenderPiece;
    var init, last := ps[..|ps| - 1], ps[|ps| - 1];
    assert ps == init + [last];
    if last.Merged? {
      ConflictRendersMarked(init);
      MarkedPartIsMarked("", Render(init), RenderPiece(last));
      assert "" + Render(init) + RenderPiece(last) == Render(ps);
    } else {
      ConflictPieceIsMarked(last);
      MarkedPartIsMarked(Render(init), RenderPiece(last), "");
      assert Render(init) + RenderPiece(last) + "" == Render(ps);
    }
  }

  lemma ConflictPieceIsMarked(p: Piece)
    requires p.Conflict?
    ensures HasMarkers(RenderPiece(p))
  {
    hide HasMarkers, Block;
    BlockIsMarked(Join(p.a), Join(p.o), Join(p.b));
  }

  lemma MarkedPartIsMarked(a: string, b: string, c: string)
    requires HasMarkers(b)
    ensures HasMarkers(a + b + c)
  {
    ContainsInConcat(a, b, c, SENTINEL);
  }

  lemma ConflictIsMarked(base: PathContent, ours: PathContent, theirs: PathContent, diff: Differ)
    requires ValidDiff(diff)
    ensures var r := ResolvePath(base, ours, theirs, diff);
            r.conflict ==> !r.omit && HasMarkers(r.content)
  {
    hide HasMarkers, Block, Render, Pieces, IsBinary, AllMerged;
    var r := ResolvePath(base, ours, theirs, diff);
    if r.conflict {
      if ours.present && theirs.present {
        ConflictRendersMarked(Pieces(base.data, ours.data, theirs.data, diff));
      } else if !ours.present {
        BlockIsMarked("", base.data, theirs.data);
      } else {
        BlockIsMarked(ours.data, base.data, "");
      }
    }
  }

  /******* A clean merge never is *******/

  lemma {:induction false} CleanRenderJoinsTheLines(ps: seq<Piece>)
    requires AllMerged(ps)
    ensures Render(ps) == Join(MergedLines(ps))
  {
    if ps != [] {
      var init, last := ps[..|ps| - 1], ps[|ps| - 1];
      assert ps == init + [last];
      CleanRenderJoinsTheLines(init);
      MergedLinesAppend(init, [last]);
      assert MergedLines([last]) == last.lines + MergedLines([]);
      assert MergedLines([last]) == last.lines;
      JoinAppends(MergedLines(init), last.lines);
    }
  }

  lemma {:induction false} MergedLinesAppend(a: seq<Piece>, b: seq<Piece>)
    ensures MergedLines(a + b) == MergedLines(a) + MergedLines(b)
  {
    if a == [] {
      assert a + b == b;
    } else {
      assert (a + b)[1..] == a[1..] + b;
      MergedLinesAppend(a[1..], b);
    }
  }

  lemma LinesOfCleanTextAreClean(s: string)
    requires !HasMarkers(s)
    ensures forall line :: line in SplitLines(s) ==> !HasMarkers(line)
  {
    SplitLinesIsLossless(s);
    forall line | line in SplitLines(s) ensures !HasMarkers(line) {
      var i :| 0 <= i < |SplitLines(s)| && SplitLines(s)[i] == line;
      if Contains(SplitLines(s)[i], SENTINEL) { PartIsContained(SplitLines(s), i, SENTINEL); }
    }
  }

  lemma CleanTextMergeIsMarkerFree(base: string, ours: string, theirs: string, diff: Differ)
    requires ValidDiff(diff)
    requires !HasMarkers(base) && !HasMarkers(ours) && !HasMarkers(theirs)
    requires AllMerged(Pieces(base, ours, theirs, diff))
    ensures !HasMarkers(Render(Pieces(base, ours, theirs, diff)))
  {
    var o, a, b := SplitLines(base), SplitLines(ours), SplitLines(theirs);
    var ha, hb := diff(o, a), diff(o, b);
    var cs := Chunks(ha, hb, a, o, b);
    SplitLinesIsLossless(base);
    SplitLinesIsLossless(ours);
    SplitLinesIsLossless(theirs);
    LinesOfCleanTextAreClean(base);
    LinesOfCleanTextAreClean(ours);
    LinesOfCleanTextAreClean(theirs);
    ChunksPartition(ha, hb, a, o, b);
    OnlyTheLastLineIsOpen(cs, o, a, b);
    MergedLinesComeFromInputs(cs, o, a, b);
    var lines := MergedLines(ResolveAll(cs));
    forall i | 0 <= i < |lines| ensures !Contains(lines[i], SENTINEL) {
      assert lines[i] in lines;
    }
    CleanLinesJoinClean(lines, SENTINEL);
    CleanRenderJoinsTheLines(ResolveAll(cs));
  }

  // The gate predicate is exact: for inputs without the sentinel, the result carries it
  // if and only if the policy reported a conflict.
  lemma MarkersMeanConflict(base: PathContent, ours: PathContent, theirs: PathContent, diff: Differ)
    requires ValidDiff(diff)
    requires WasRead(base) && WasRead(ours) && WasRead(theirs)
    requires !HasMarkers(base.data) && !HasMarkers(ours.data) && !HasMarkers(theirs.data)
    ensures var r := ResolvePath(base, ours, theirs, diff); r.conflict <==> HasMarkers(r.content)
  {
    var r := ResolvePath(base, ours, theirs, diff);
    ConflictIsMarked(base, ours, theirs, diff);
    NoMarkersInEmpty();
    if !r.conflict {
      if !SameState(base, ours) && !SameState(base, theirs) && ours.present && theirs.present
         && !IsBinary(base.data) && !IsBinary(ours.data) && !IsBinary(theirs.data) {
        CleanTextMergeIsMarkerFree(base.data, ours.data, theirs.data, diff);
      }
    }
  }

  lemma NoMarkersInEmpty()
    ensures !HasMarkers("")
  {
  }
}
