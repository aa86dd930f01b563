/**
 Repository archives. The host wraps an archive in one top-level directory; unpacking
 removes it, and must neither lose nor confuse entries. An archive is its sequence of
 entries, cut short when `truncated`.
 */
module Archive {
  import opened Text

  datatype Kind = Meta | File | Dir | Link

  datatype Entry = Entry(name: string, kind: Kind, link: string, data: string)

  datatype Tarball = Tarball(entries: seq<Entry>, truncated: bool)

  datatype Result<+T> = Ok(value: T) | Err

  const DEFAULT_MAX_BYTES := 0x2000_0000

  predicate Real(e: Entry) {
    e.kind != Meta
  }

  // strings.Trim(s, "/")
  function TrimSlashes(s: string): string {
    if s == "" then s
    else if s[0] == '/' then TrimSlashes(s[1..])
    else if s[|s| - 1] == '/' then TrimSlashes(s[..|s| - 1])
    else s
  }

  // The part before the first slash.
  function Segment(s: string): string {
    if s == "" || s[0] == '/' then "" else [s[0]] + Segment(s[1..])
  }

  function First(name: string): string {
    Segment(TrimSlashes(name))
  }

  // `top` wraps the archive: something is nested, and every entry's first segment is `top`.
  ghost predicate Wraps(entries: seq<Entry>, top: string) {
    && top != ""
    && (exists e :: e in entries && Real(e) && '/' in e.name)
    && (exists e :: e in entries && Real(e) && First(e.name) == top)
    && (forall e :: e in entries && Real(e) ==> First(e.name) == "" || First(e.name) == top)
  }

  method ArchiveTop(t: Tarball) returns (r: Result<string>)
    ensures r.Err? <==> t.truncated
    ensures r.Ok? && r.value != "" ==> Wraps(t.entries, r.value)
    ensures r.Ok? && r.value == "" ==> forall top :: !Wraps(t.entries, top)
  {
    hide First;
    var seg, nested, uniform := "", false, true;
    for i := 0 to |t.entries|
      invariant nested <==> exists e :: e in t.entries[..i] && Real(e) && '/' in e.name
      invariant seg != "" ==> exists e :: e in t.entries[..i] && Real(e) && First(e.name) == seg
      invariant seg == "" ==> forall e :: e in t.entries[..i] && Real(e) ==> First(e.name) == ""
      invariant uniform <==> forall e :: e in t.entries[..i] && Real(e) ==> First(e.name) == "" || First(e.name) == seg
    {
      var e := t.entries[i];
      assert t.entries[..i + 1] == t.entries[..i] + [e];
      if Real(e) {
        if '/' in e.name {
          nested := true;
        }
        var first := First(e.name);
        if first != "" {
          if seg == "" {
            seg := first;
          } else if first != seg {
            uniform := false;
          }
        }
      }
    }
    assert t.entries[..|t.entries|] == t.entries;
    if t.truncated {
      return Err;
    }
    if nested && uniform && seg != "" {
      return Ok(seg);
    }
    r := Ok("");
  }

  lemma WrapperIsUnique(entries: seq<Entry>, s: string, t: string)
    requires Wraps(entries, s) && Wraps(entries, t)
    ensures s == t
  {
    hide First;
  }

  /******* StripTop *******/

  function StripName(name: string, top: string): string {
    TrimPrefix(TrimPrefix(TrimPrefix(name, "/"), top), "/")
  }

  function StripLink(link: string, top: string): string {
    TrimPrefix(TrimPrefix(link, top), "/")
  }

  // What becomes of one entry: kept under its relative name, or dropped.
  function StripEntry(e: Entry, top: string): seq<Entry> {
    var rel := StripName(e.name, top);
    if !Real(e) || rel == "" then [] else [e.(name := rel, link := StripLink(e.link, top))]
  }

  function Stripped(entries: seq<Entry>, top: string): seq<Entry> {
    if entries == [] then []
    else Stripped(entries[..|entries| - 1], top) + StripEntry(entries[|entries| - 1], top)
  }

  method StripTop(t: Tarball) returns (r: Result<seq<Entry>>)
    ensures r.Err? <==> t.truncated
    ensures r.Ok? ==> forall top :: Wraps(t.entries, top) ==> r.value == Stripped(t.entries, top)
    ensures r.Ok? && (forall top :: !Wraps(t.entries, top)) ==> r.value == t.entries
  {
    hide Wraps, TrimPrefix;
    var found := ArchiveTop(t);
    if found.Err? {
      return Err;
    }
    var top := found.value;
    if top == "" {
      return Ok(t.entries);
    }
    var out: seq<Entry> := [];
    for i := 0 to |t.entries|
      invariant out == Stripped(t.entries[..i], top)
    {
      assert t.entries[..i + 1][..i] == t.entries[..i];
      var e := t.entries[i];
      if Real(e) {
        var name := TrimPrefix(e.name, "/");
        var rel := TrimPrefix(TrimPrefix(name, top), "/");
        if rel != "" {
          out := out + [e.(name := rel, link := TrimPrefix(TrimPrefix(e.link, top), "/"))];
        }
      }
    }
    assert t.entries[..|t.entries|] == t.entries;
    forall other | Wraps(t.entries, other) ensures other == top {
      WrapperIsUnique(t.entries, other, top);
    }
    r := Ok(out);
  }

  /******* What stripping conserves *******/

  predicate Rooted(name: string) {
    name != "" && name[0] == '/'
  }

  predicate Relative(entries: seq<Entry>) {
    forall e :: e in entries && Real(e) ==> !Rooted(e.name)
  }

  // The wrapper itself, under its spellings.
  predicate IsWrapper(name: string, top: string) {
    name == "" || name == top || name == top + "/"
  }

  function Kept(entries: seq<Entry>, top: string): seq<Entry> {
    if entries == [] then []
    else
      var e := entries[|entries| - 1];
      Kept(entries[..|entries| - 1], top) + if Real(e) && !IsWrapper(e.name, top) then [e] else []
  }

  lemma {:induction false} TrimLeavesSlashes(s: string)
    requires !Rooted(s)
    ensures HasPrefix(s, TrimSlashes(s))
    ensures |TrimSlashes(s)| < |s| ==> s[|TrimSlashes(s)|] == '/'
  {
    if s != "" && s[|s| - 1] == '/' {
      TrimLeavesSlashes(s[..|s| - 1]);
    }
  }

  lemma {:induction false} SegmentEnds(s: string)
    ensures HasPrefix(s, Segment(s)) && '/' !in Segment(s)
    ensures |Segment(s)| < |s| ==> s[|Segment(s)|] == '/'
  {
    if s != "" && s[0] != '/' {
      SegmentEnds(s[1..]);
    }
  }

  lemma {:induction false} OnlySlashesTrimToNothing(s: string)
    ensures !Rooted(s) && First(s) == "" ==> s == ""
    ensures '/' !in First(s)
  {
    SegmentEnds(TrimSlashes(s));
    if !Rooted(s) { TrimLeavesSlashes(s); }
    TrimmedIsNotRooted(s);
  }

  lemma {:induction false} TrimmedIsNotRooted(s: string)
    ensures !Rooted(TrimSlashes(s))
  {
    if s != "" && s[0] == '/' {
      TrimmedIsNotRooted(s[1..]);
    } else if s != "" && s[|s| - 1] == '/' {
      TrimmedIsNotRooted(s[..|s| - 1]);
    }
  }

  // A relative name is its first segment, or continues it after a slash.
  lemma NameSplits(name: string)
    requires !Rooted(name) && name != ""
    ensures var top := First(name); top != "" && HasPrefix(name, top) && (name == top || HasPrefix(name, top + "/"))
  {
    var s := TrimSlashes(name);
    TrimLeavesSlashes(name);
    SegmentEnds(s);
    OnlySlashesTrimToNothing(name);
    var top := First(name);
    assert name[..|top|] == s[..|top|] == top;
    if name != top {
      assert name[|top|] == '/';
      assert name[..|top| + 1] == top + "/";
    }
  }

  // In a relative archive an entry is dropped exactly when it is the wrapper, and is
  // otherwise renamed by taking `top/` away.
  lemma EntryIsRenamed(name: string, top: string)
    requires !Rooted(name) && top != "" && (First(name) == "" || First(name) == top)
    ensures StripName(name, top) == "" <==> IsWrapper(name, top)
    ensures !IsWrapper(name, top) ==> name == top + "/" + StripName(name, top)
  {
    hide First;
    OnlySlashesTrimToNothing(name);
    if name != "" {
      NameSplits(name);
      if name != top {
        assert name == top + name[|top|..] && name[|top|..] == "/" + name[|top| + 1..];
        assert StripName(name, top) == name[|top| + 1..];
      }
    }
  }

  ghost predicate Renamed(before: seq<Entry>, after: seq<Entry>, top: string) {
    |before| == |after| && forall i :: 0 <= i < |after| ==>
      && before[i].name == top + "/" + after[i].name
      && after[i].kind == before[i].kind && after[i].data == before[i].data
  }

  ghost predicate AllUnder(entries: seq<Entry>, top: string) {
    && top != ""
    && forall e :: e in entries && Real(e) ==>
         !Rooted(e.name) && (First(e.name) == "" || First(e.name) == top)
  }

  // Every entry but the wrapper survives, in order, under its name without `top/`.
  lemma {:induction false} StrippedRenames(entries: seq<Entry>, top: string)
    requires AllUnder(entries, top)
    ensures Renamed(Kept(entries, top), Stripped(entries, top), top)
  {
    hide StripName, IsWrapper, StripLink, First;
    if entries != [] {
      var e := entries[|entries| - 1];
      assert forall x :: x in entries[..|entries| - 1] ==> x in entries;
      StrippedRenames(entries[..|entries| - 1], top);
      if Real(e) { EntryIsRenamed(e.name, top); }
    }
  }

  predicate Distinct(entries: seq<Entry>) {
    forall i, j :: 0 <= i < j < |entries| ==> entries[i].name != entries[j].name
  }

  function Files(entries: seq<Entry>): seq<Entry> {
    if entries == [] then []
    else Files(entries[..|entries| - 1]) + if entries[|entries| - 1].kind == File then [entries[|entries| - 1]] else []
  }

  // Files have proper names, and none is also a directory on another entry's path.
  ghost predicate PrefixFree(entries: seq<Entry>) {
    forall d :: d in entries && d.kind == File ==>
      && d.name != "" && d.name[|d.name| - 1] != '/'
      && forall e :: e in entries && Real(e) ==> !HasPrefix(e.name, d.name + "/")
  }

  lemma NoFileIsTheWrapper(entries: seq<Entry>, top: string, d: Entry)
    requires Wraps(entries, top) && Relative(entries) && PrefixFree(entries)
    requires d in entries && d.kind == File
    ensures !IsWrapper(d.name, top)
  {
    hide First;
    var e :| e in entries && Real(e) && '/' in e.name;
    NameSplits(e.name);
    OnlySlashesTrimToNothing(e.name);
    assert First(e.name) == top;
    assert HasPrefix(e.name, top + "/");
    assert (top + "/")[|top + "/"| - 1] == '/';
  }

  lemma {:induction false} FilesAreKept(entries: seq<Entry>, top: string)
    requires forall d :: d in entries && d.kind == File ==> !IsWrapper(d.name, top)
    ensures Files(Kept(entries, top)) == Files(entries)
  {
    hide IsWrapper;
    if entries != [] {
      var n := |entries|;
      assert forall x :: x in entries[..n - 1] ==> x in entries;
      FilesAreKept(entries[..n - 1], top);
      var e := entries[n - 1];
      assert entries[..n - 1] + [e] == entries;
      FilesOfConcat(entries[..n - 1], [e]);
      FilesOfConcat(Kept(entries[..n - 1], top), if Real(e) && !IsWrapper(e.name, top) then [e] else []);
    }
  }

  lemma {:induction false} FilesOfConcat(a: seq<Entry>, b: seq<Entry>)
    ensures Files(a + b) == Files(a) + Files(b)
  {
    if b == [] {
      assert a + b == a;
    } else {
      assert (a + b)[..|a + b| - 1] == a + b[..|b| - 1];
      FilesOfConcat(a, b[..|b| - 1]);
    }
  }

  lemma {:induction false} FilesAreRenamed(before: seq<Entry>, after: seq<Entry>, top: string)
    requires Renamed(before, after, top)
    ensures Renamed(Files(before), Files(after), top)
  {
    if before != [] {
      FilesAreRenamed(before[..|before| - 1], after[..|after| - 1], top);
    }
  }

  lemma {:induction false} KeptStaysDistinct(entries: seq<Entry>, top: string)
    requires Distinct(entries)
    ensures Distinct(Kept(entries, top))
    ensures forall e :: e in Kept(entries, top) ==> e in entries
  {
    hide IsWrapper;
    if entries != [] {
      var front, e := entries[..|entries| - 1], entries[|entries| - 1];
      KeptStaysDistinct(front, top);
      forall x | x in Kept(front, top) ensures x.name != e.name {
        var i :| 0 <= i < |front| && front[i] == x;
        assert entries[i] == x;
      }
    }
  }

  // A wrapped archive without leading slashes loses no file, keeps the files' order and
  // content, and distinct entries stay distinct.
  lemma StripConservesTheTree(entries: seq<Entry>, top: string)
    requires Wraps(entries, top) && Relative(entries)
    ensures Renamed(Kept(entries, top), Stripped(entries, top), top)
    ensures PrefixFree(entries) ==> Renamed(Files(entries), Files(Stripped(entries, top)), top)
    ensures Distinct(entries) ==> Distinct(Stripped(entries, top))
  {
    hide First, Stripped, IsWrapper;
    StrippedRenames(entries, top);
    if PrefixFree(entries) {
      forall d | d in entries && d.kind == File ensures !IsWrapper(d.name, top) {
        NoFileIsTheWrapper(entries, top, d);
      }
      FilesAreKept(entries, top);
      FilesAreRenamed(Kept(entries, top), Stripped(entries, top), top);
    }
    if Distinct(entries) {
      KeptStaysDistinct(entries, top);
    }
  }

  // A target inside the archive is rewritten like the names.
  lemma LinkFollowsItsTarget(top: string, rel: string)
    ensures StripLink(top + "/" + rel, top) == rel
  {
    assert top + "/" + rel == top + ("/" + rel);
    assert (top + ("/" + rel))[|top|..] == "/" + rel;
  }

  // A link survives as it is exactly when its target starts with neither the wrapper's
  // name nor a slash; others are rewritten, also those that merely begin alike.
  lemma LinkIsKeptIff(link: string, top: string)
    requires top != ""
    ensures StripLink(link, top) == link <==> !HasPrefix(link, top) && !HasPrefix(link, "/")
  {
  }

  /******* Extract *******/

  datatype Unpacked = Directory(rel: string) | Content(rel: string, data: string)

  function ExtractName(name: string, top: string): string {
    TrimPrefix(if top != "" then TrimPrefix(name, top) else name, "/")
  }

  function Unpack(e: Entry, rel: string, inside: string -> bool): seq<Unpacked> {
    if !Real(e) || rel == "" || !inside(rel) then []
    else match e.kind
      case Dir => [Directory(rel)]
      case File => [Content(rel, e.data)]
      case _ => []
  }

  function Extracted(entries: seq<Entry>, top: string, inside: string -> bool): seq<Unpacked> {
    if entries == [] then []
    else
      var e := entries[|entries| - 1];
      Extracted(entries[..|entries| - 1], top, inside) + Unpack(e, ExtractName(e.name, top), inside)
  }

  function Size(out: seq<Unpacked>): nat {
    if out == [] then 0
    else Size(out[..|out| - 1]) + match out[|out| - 1] case Directory(_) => 0 case Content(_, data) => |data|
  }

  lemma {:induction false} SizeGrows(out: seq<Unpacked>, more: seq<Unpacked>)
    ensures Size(out) <= Size(out + more)
  {
    if more == [] {
      assert out + more == out;
    } else {
      assert (out + more)[..|out + more| - 1] == out + more[..|more| - 1];
      SizeGrows(out, more[..|more| - 1]);
    }
  }

  lemma {:induction false} ExtractedGrows(entries: seq<Entry>, k: nat, top: string, inside: string -> bool)
    requires k <= |entries|
    ensures Extracted(entries[..k], top, inside) <= Extracted(entries, top, inside)
    ensures Size(Extracted(entries[..k], top, inside)) <= Size(Extracted(entries, top, inside))
  {
    hide Unpack;
    if k == |entries| {
      assert entries[..k] == entries;
    } else {
      ExtractedGrows(entries[..|entries| - 1], k, top, inside);
      assert entries[..|entries| - 1][..k] == entries[..k];
      var front := Extracted(entries[..|entries| - 1], top, inside);
      SizeGrows(front, Extracted(entries, top, inside)[|front|..]);
      assert front + Extracted(entries, top, inside)[|front|..] == Extracted(entries, top, inside);
    }
  }

  // The wrapper an archive is unpacked without, "" when it has none.
  ghost predicate TopOf(entries: seq<Entry>, top: string) {
    Wraps(entries, top) || (top == "" && forall other :: !Wraps(entries, other))
  }

  // `inside` stands for the check that a path stays in the target directory.
  method Extract(t: Tarball, maxBytes0: int, inside: string -> bool) returns (r: Result<seq<Unpacked>>)
    ensures forall top :: TopOf(t.entries, top) ==>
              var max := if maxBytes0 <= 0 then 512 * 1024 * 1024 else maxBytes0;
              var all := Extracted(t.entries, top, inside);
              && (r.Ok? <==> !t.truncated && Size(all) <= max)
              && (r.Ok? ==> r.value == all)
  {
    hide Wraps, ExtractName, TopOf, Unpack, Extracted, Size;
    var maxBytes := maxBytes0;
    if maxBytes <= 0 {
      maxBytes := DEFAULT_MAX_BYTES;
    }
    var found := ArchiveTop(t);
    if found.Err? {
      return Err;
    }
    var top := found.value;
    OneTop(t.entries, top);
    var out: seq<Unpacked> := [];
    var total := 0;
    NothingExtracted(top, inside);
    for i := 0 to |t.entries|
      invariant out == Extracted(t.entries[..i], top, inside)
      invariant total == Size(out) <= maxBytes
    {
      var e := t.entries[i];
      var rel := ExtractName(e.name, top);
      ExtractedUnfolds(t.entries, i, top, inside);
      UnpackCases(e, rel, inside, out);
      if Real(e) && rel != "" && inside(rel) {
        if e.kind == Dir {
          out := out + [Directory(rel)];
        } else if e.kind == File {
          total := total + |e.data|;
          if total > maxBytes {
            ExtractedGrows(t.entries, i + 1, top, inside);
            return Err;
          }
          out := out + [Content(rel, e.data)];
        }
      }
    }
    assert t.entries[..|t.entries|] == t.entries;
    r := Ok(out);
  }

  lemma NothingExtracted(top: string, inside: string -> bool)
    ensures Extracted([], top, inside) == [] && Size([]) == 0
  {
  }

  lemma ExtractedUnfolds(entries: seq<Entry>, i: nat, top: string, inside: string -> bool)
    requires i < |entries|
    ensures Extracted(entries[..i + 1], top, inside)
         == Extracted(entries[..i], top, inside) + Unpack(entries[i], ExtractName(entries[i].name, top), inside)
  {
    assert entries[..i + 1][..i] == entries[..i];
  }

  lemma UnpackCases(e: Entry, rel: string, inside: string -> bool, out: seq<Unpacked>)
    ensures !Real(e) || rel == "" || !inside(rel) || e.kind == Link ==> out + Unpack(e, rel, inside) == out
    ensures Real(e) && rel != "" && inside(rel) && e.kind == Dir ==>
              Unpack(e, rel, inside) == [Directory(rel)] && Size(out + Unpack(e, rel, inside)) == Size(out)
    ensures Real(e) && rel != "" && inside(rel) && e.kind == File ==>
              && Unpack(e, rel, inside) == [Content(rel, e.data)]
              && Size(out + Unpack(e, rel, inside)) == Size(out) + |e.data|
  {
  }

  lemma OneTop(entries: seq<Entry>, top: string)
    requires if top != "" then Wraps(entries, top) else forall other :: !Wraps(entries, other)
    ensures TopOf(entries, top) && forall other :: TopOf(entries, other) ==> other == top
  {
    hide Wraps;
    forall other | Wraps(entries, other) ensures other == top {
      WrapperIsUnique(entries, other, top);
    }
  }

  // Unpacking and stripping agree on an entry's relative name exactly when the name has no
  // leading slash, or one before something that is not the wrapper.
  lemma NamesAgreeIff(name: string, top: string)
    requires top != "" && !Rooted(top)
    ensures ExtractName(name, top) == StripName(name, top) <==>
            !Rooted(name) || (!HasPrefix(name[1..], top) && !Rooted(name[1..]))
  {
    if Rooted(name) {
      assert name == "/" + name[1..];
      assert TrimPrefix(name, "/") == name[1..];
      assert TrimPrefix(name, top) == name;
    } else {
      assert TrimPrefix(name, "/") == name;
    }
  }

  // What Extract writes for a stripped archive, taken as it is.
  lemma {:induction false} ExtractMatchesStripTop(entries: seq<Entry>, top: string, inside: string -> bool)
    requires top != "" && !Rooted(top) && Relative(entries)
    ensures forall e :: e in Stripped(entries, top) ==> Real(e)
    ensures Extracted(entries, top, inside) == PlainExtract(Stripped(entries, top), inside)
  {
    hide ExtractName, StripName, Unpack, StripEntry, PlainExtract;
    if entries != [] {
      var front, e := entries[..|entries| - 1], entries[|entries| - 1];
      assert forall x :: x in front ==> x in entries;
      ExtractMatchesStripTop(front, top, inside);
      NamesAgreeIff(e.name, top);
      MetaIsSkipped(e, top, inside);
      PlainExtractAppends(Stripped(front, top), e, top, inside);
    } else {
      PlainExtractOfNothing(inside);
    }
  }

  lemma PlainExtractOfNothing(inside: string -> bool)
    ensures PlainExtract([], inside) == []
  {
  }

  lemma MetaIsSkipped(e: Entry, top: string, inside: string -> bool)
    ensures forall x :: x in StripEntry(e, top) ==> Real(x)
    ensures !Real(e) ==> Unpack(e, ExtractName(e.name, top), inside) == Unpack(e, StripName(e.name, top), inside)
  {
    hide ExtractName, StripName;
  }

  lemma PlainExtractAppends(s: seq<Entry>, e: Entry, top: string, inside: string -> bool)
    ensures PlainExtract(s + StripEntry(e, top), inside)
         == PlainExtract(s, inside) + Unpack(e, StripName(e.name, top), inside)
  {
    hide StripName, StripLink;
    var rel := StripName(e.name, top);
    if !Real(e) || rel == "" {
      assert s + StripEntry(e, top) == s;
    } else {
      assert (s + StripEntry(e, top))[..|s|] == s;
    }
  }

  function PlainExtract(entries: seq<Entry>, inside: string -> bool): seq<Unpacked> {
    if entries == [] then []
    else
      var e := entries[|entries| - 1];
      PlainExtract(entries[..|entries| - 1], inside) + Unpack(e, e.name, inside)
  }

  // Inputs that show both: a link into a directory that begins like the wrapper, and a name
  // with a leading slash.
  lemma LookalikesAreRewritten()
    ensures StripLink("repo-old/x", "repo") == "-old/x"
    ensures StripName("/repo/a", "repo") == "a" && ExtractName("/repo/a", "repo") == "repo/a"
  {
    hide TrimPrefix;
    Trims("repo-old/x", "repo", "-old/x");
    Keeps("-old/x", "/");
    Trims("/repo/a", "/", "repo/a");
    Trims("repo/a", "repo", "/a");
    Trims("/a", "/", "a");
    Keeps("/repo/a", "repo");
  }

  lemma Trims(s: string, pre: string, rest: string)
    requires s == pre + rest
    ensures TrimPrefix(s, pre) == rest
  {
  }

  lemma Keeps(s: string, pre: string)
    requires s != "" && pre != "" && s[0] != pre[0]
    ensures TrimPrefix(s, pre) == s
  {
  }
}
