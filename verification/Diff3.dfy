/**
 Three-way line merging in the manner of diff3, for any pair of valid line alignments
 of the base to the two sides. Hunks of either side that touch are folded into one
 region, so a non-empty stable stretch separates changed regions; a region only one side
 changed takes that side, and one both changed is a conflict unless they agree.
 */
module Diff3 {
  import opened Text

  // Base lines [lo, hi) correspond to side lines [slo, shi); outside hunks both agree.
  datatype Hunk = Hunk(lo: nat, hi: nat, slo: nat, shi: nat)

  ghost predicate AlignedFrom(h: seq<Hunk>, o: seq<string>, s: seq<string>, i: nat, j: nat) {
    && i <= |o| && j <= |s|
    && if h == [] then o[i..] == s[j..]
       else
         && i <= h[0].lo <= h[0].hi <= |o| && j <= h[0].slo <= h[0].shi <= |s|
         && o[i..h[0].lo] == s[j..h[0].slo]
         && (|h| > 1 ==> h[0].hi < h[1].lo)
         && AlignedFrom(h[1..], o, s, h[0].hi, h[0].shi)
  }

  ghost predicate Aligned(h: seq<Hunk>, o: seq<string>, s: seq<string>) {
    AlignedFrom(h, o, s, 0, 0)
  }

  datatype Kind = Same | OnlyOurs | OnlyTheirs | Both

  // A region of the merge with what each of the three inputs has there.
  datatype Chunk = Chunk(kind: Kind, o: seq<string>, a: seq<string>, b: seq<string>)

  /******* The merge *******/

  // How far the region grows while a hunk of either side starts within or at its end.
  function RegionEnd(ha: seq<Hunk>, hb: seq<Hunk>, hi: nat): (r: nat)
    ensures hi <= r
    decreases |ha| + |hb|
  {
    if ha != [] && ha[0].lo <= hi then RegionEnd(ha[1..], hb, Max(hi, ha[0].hi))
    else if hb != [] && hb[0].lo <= hi then RegionEnd(ha, hb[1..], Max(hi, hb[0].hi))
    else hi
  }

  function Max(x: nat, y: nat): nat {
    if x < y then y else x
  }

  // The hunks beyond a region that ends at `hi`.
  function Beyond(h: seq<Hunk>, hi: nat): (r: seq<Hunk>)
    ensures |r| <= |h|
  {
    if h != [] && h[0].lo <= hi then Beyond(h[1..], hi) else h
  }

  // The side position matching base position `hi`, walking from base `i`, side `j`.
  function Walk(h: seq<Hunk>, i: nat, j: nat, hi: nat): int {
    if h != [] && h[0].lo <= hi then Walk(h[1..], h[0].hi, h[0].shi, hi)
    else j + (hi - i)
  }

  function RegionKind(ha: seq<Hunk>, hb: seq<Hunk>, hi: nat): Kind {
    if Beyond(hb, hi) == hb then OnlyOurs
    else if Beyond(ha, hi) == ha then OnlyTheirs
    else Both
  }

  function FirstLo(ha: seq<Hunk>, hb: seq<Hunk>): nat
    requires ha != [] || hb != []
  {
    if ha == [] then hb[0].lo
    else if hb == [] then ha[0].lo
    else if ha[0].lo <= hb[0].lo then ha[0].lo else hb[0].lo
  }

  function StableChunk(lines: seq<string>): seq<Chunk> {
    if lines == [] then [] else [Chunk(Same, lines, lines, lines)]
  }

  function MergeFrom(ha: seq<Hunk>, hb: seq<Hunk>, o: seq<string>, a: seq<string>, b: seq<string>,
                     i: nat, j: nat, k: nat): seq<Chunk>
    requires AlignedFrom(ha, o, a, i, j) && AlignedFrom(hb, o, b, i, k)
    decreases |ha| + |hb|
  {
    if ha == [] && hb == [] then StableChunk(o[i..])
    else
      var lo := FirstLo(ha, hb);
      var hi := RegionEnd(ha, hb, lo);
      RegionIsWellPlaced(ha, hb, o, a, b, i, j, k);
      var j', k' := Walk(ha, i, j, hi), Walk(hb, i, k, hi);
      StableChunk(o[i..lo])
      + [Chunk(RegionKind(ha, hb, hi), o[lo..hi], a[j + (lo - i)..j'], b[k + (lo - i)..k'])]
      + MergeFrom(Beyond(ha, hi), Beyond(hb, hi), o, a, b, hi, j', k')
  }

  /******* The region computation is well placed *******/

  // Every hunk that starts at or before `hi` also ends there.
  ghost predicate Closed(h: seq<Hunk>, hi: nat) {
    forall n :: 0 <= n < |h| && h[n].lo <= hi ==> h[n].hi <= hi
  }

  lemma {:induction false} LaterHunksLieBeyond(h: seq<Hunk>, o: seq<string>, s: seq<string>, i: nat, j: nat)
    requires AlignedFrom(h, o, s, i, j)
    ensures forall n :: 0 <= n < |h| ==> i <= h[n].lo <= h[n].hi <= |o|
    ensures forall n :: 0 < n < |h| ==> h[0].hi < h[n].lo
  {
    if h != [] {
      LaterHunksLieBeyond(h[1..], o, s, h[0].hi, h[0].shi);
      forall n | 0 < n < |h| ensures h[0].hi < h[n].lo && h[n].lo <= h[n].hi <= |o| {
        assert h[n] == h[1..][n - 1];
        if n > 1 { assert h[1..][0].hi < h[1..][n - 1].lo; }
      }
    }
  }

  lemma {:induction false} RegionEndCloses(ha: seq<Hunk>, hb: seq<Hunk>, o: seq<string>, a: seq<string>, b: seq<string>,
                                           i: nat, j: nat, ib: nat, k: nat, hi: nat)
    requires AlignedFrom(ha, o, a, i, j) && AlignedFrom(hb, o, b, ib, k) && hi <= |o|
    ensures RegionEnd(ha, hb, hi) <= |o|
    ensures Closed(ha, RegionEnd(ha, hb, hi)) && Closed(hb, RegionEnd(ha, hb, hi))
    decreases |ha| + |hb|
  {
    LaterHunksLieBeyond(ha, o, a, i, j);
    LaterHunksLieBeyond(hb, o, b, ib, k);
    var end := RegionEnd(ha, hb, hi);
    if ha != [] && ha[0].lo <= hi {
      RegionEndCloses(ha[1..], hb, o, a, b, ha[0].hi, ha[0].shi, ib, k, Max(hi, ha[0].hi));
      forall n | 0 <= n < |ha| && ha[n].lo <= end ensures ha[n].hi <= end {
        if n > 0 { assert ha[n] == ha[1..][n - 1]; }
      }
    } else if hb != [] && hb[0].lo <= hi {
      RegionEndCloses(ha, hb[1..], o, a, b, i, j, hb[0].hi, hb[0].shi, Max(hi, hb[0].hi));
      forall n | 0 <= n < |hb| && hb[n].lo <= end ensures hb[n].hi <= end {
        if n > 0 { assert hb[n] == hb[1..][n - 1]; }
      }
    }
  }

  predicate Covers(h: seq<Hunk>, x: nat) {
    exists n :: 0 <= n < |h| && h[n].lo <= x < h[n].hi
  }

  // A region is no longer than touching hunks make it: it ends at the first base position
  // from its start that no hunk reaches across.
  lemma {:induction false} RegionEndIsLeast(ha: seq<Hunk>, hb: seq<Hunk>, hi: nat, x: nat)
    requires hi <= x < RegionEnd(ha, hb, hi)
    ensures Covers(ha, x) || Covers(hb, x)
    decreases |ha| + |hb|
  {
    if ha != [] && ha[0].lo <= hi {
      if x >= ha[0].hi {
        RegionEndIsLeast(ha[1..], hb, Max(hi, ha[0].hi), x);
        if n :| 0 <= n < |ha[1..]| && ha[1..][n].lo <= x < ha[1..][n].hi { assert ha[n + 1].lo <= x < ha[n + 1].hi; }
      }
    } else if hb != [] && hb[0].lo <= hi {
      if x >= hb[0].hi {
        RegionEndIsLeast(ha, hb[1..], Max(hi, hb[0].hi), x);
        if n :| 0 <= n < |hb[1..]| && hb[1..][n].lo <= x < hb[1..][n].hi { assert hb[n + 1].lo <= x < hb[n + 1].hi; }
      }
    }
  }

  predicate Enters(h: seq<Hunk>, hi: nat) {
    exists n :: 0 <= n < |h| && h[n].lo <= hi
  }

  lemma {:induction false} BeyondIsShorterIff(h: seq<Hunk>, o: seq<string>, s: seq<string>, i: nat, j: nat, hi: nat)
    requires AlignedFrom(h, o, s, i, j)
    ensures Beyond(h, hi) == h <==> !Enters(h, hi)
  {
    LaterHunksLieBeyond(h, o, s, i, j);
    if h != [] && h[0].lo <= hi {
      assert |Beyond(h, hi)| <= |h[1..]|;
      assert Enters(h, hi);
    }
  }

  // A region counts for a side exactly when a hunk of that side lies in it.
  lemma RegionKindIff(ha: seq<Hunk>, hb: seq<Hunk>, o: seq<string>, a: seq<string>, b: seq<string>,
                      i: nat, j: nat, k: nat)
    requires AlignedFrom(ha, o, a, i, j) && AlignedFrom(hb, o, b, i, k) && (ha != [] || hb != [])
    ensures var hi := RegionEnd(ha, hb, FirstLo(ha, hb));
            && (RegionKind(ha, hb, hi) == OnlyOurs <==> Enters(ha, hi) && !Enters(hb, hi))
            && (RegionKind(ha, hb, hi) == OnlyTheirs <==> !Enters(ha, hi) && Enters(hb, hi))
            && (RegionKind(ha, hb, hi) == Both <==> Enters(ha, hi) && Enters(hb, hi))
  {
    var hi := RegionEnd(ha, hb, FirstLo(ha, hb));
    BeyondIsShorterIff(ha, o, a, i, j, hi);
    BeyondIsShorterIff(hb, o, b, i, k, hi);
    if ha != [] && FirstLo(ha, hb) == ha[0].lo {
      assert Enters(ha, hi);
    } else {
      assert Enters(hb, hi);
    }
  }

  // From base `i` to `hi`, the side runs from `j` to the walked position and is aligned
  // again there; if no hunk was passed, the stretches are equal.
  lemma {:induction false} WalkKeepsAlignment(h: seq<Hunk>, o: seq<string>, s: seq<string>, i: nat, j: nat, hi: nat)
    requires AlignedFrom(h, o, s, i, j) && i <= hi <= |o| && Closed(h, hi)
    ensures j <= Walk(h, i, j, hi) <= |s|
    ensures AlignedFrom(Beyond(h, hi), o, s, hi, Walk(h, i, j, hi))
    ensures Beyond(h, hi) != [] ==> hi < Beyond(h, hi)[0].lo
    ensures Beyond(h, hi) == h ==> o[i..hi] == s[j..Walk(h, i, j, hi)]
  {
    if h != [] && h[0].lo <= hi {
      assert h[0].hi <= hi;
      assert Closed(h[1..], hi) by {
        forall n | 0 <= n < |h[1..]| && h[1..][n].lo <= hi ensures h[1..][n].hi <= hi { assert h[1..][n] == h[n + 1]; }
      }
      WalkKeepsAlignment(h[1..], o, s, h[0].hi, h[0].shi, hi);
      assert |Beyond(h, hi)| < |h|;
    } else {
      EqualStretchSplits(h, o, s, i, j, hi);
    }
  }

  // Inside a stretch before the first hunk, base and side advance together.
  lemma EqualStretchSplits(h: seq<Hunk>, o: seq<string>, s: seq<string>, i: nat, j: nat, hi: nat)
    requires AlignedFrom(h, o, s, i, j) && i <= hi <= |o|
    requires h != [] ==> hi <= h[0].lo
    ensures j + (hi - i) <= |s|
    ensures o[i..hi] == s[j..j + (hi - i)]
    ensures AlignedFrom(h, o, s, hi, j + (hi - i))
  {
    var n, end, send := hi - i, if h == [] then |o| else h[0].lo, if h == [] then |s| else h[0].slo;
    assert o[i..end] == s[j..send];
    assert |o[i..end]| == |s[j..send]|;
    SliceSplits(o, i, hi, end);
    SliceSplits(s, j, j + n, send);
  }

  lemma SliceSplits(s: seq<string>, i: nat, mid: nat, end: nat)
    requires i <= mid <= end <= |s|
    ensures s[i..end][..mid - i] == s[i..mid] && s[i..end][mid - i..] == s[mid..end]
  {
  }

  lemma RegionIsWellPlaced(ha: seq<Hunk>, hb: seq<Hunk>, o: seq<string>, a: seq<string>, b: seq<string>,
                           i: nat, j: nat, k: nat)
    requires AlignedFrom(ha, o, a, i, j) && AlignedFrom(hb, o, b, i, k) && (ha != [] || hb != [])
    ensures var lo := FirstLo(ha, hb); var hi := RegionEnd(ha, hb, lo);
            var j', k' := Walk(ha, i, j, hi), Walk(hb, i, k, hi);
            && i <= lo <= hi <= |o|
            && j + (lo - i) <= j' <= |a| && k + (lo - i) <= k' <= |b|
            && o[i..lo] == a[j..j + (lo - i)] && o[i..lo] == b[k..k + (lo - i)]
            && AlignedFrom(Beyond(ha, hi), o, a, hi, j') && AlignedFrom(Beyond(hb, hi), o, b, hi, k')
            && (Beyond(ha, hi) != [] ==> hi < Beyond(ha, hi)[0].lo)
            && (Beyond(hb, hi) != [] ==> hi < Beyond(hb, hi)[0].lo)
            && |Beyond(ha, hi)| + |Beyond(hb, hi)| < |ha| + |hb|
            && (Beyond(ha, hi) == ha ==> o[lo..hi] == a[j + (lo - i)..j'])
            && (Beyond(hb, hi) == hb ==> o[lo..hi] == b[k + (lo - i)..k'])
  {
    hide AlignedFrom, Walk, Beyond;
    var lo := FirstLo(ha, hb);
    var hi := RegionEnd(ha, hb, lo);
    LaterHunksLieBeyond(ha, o, a, i, j);
    LaterHunksLieBeyond(hb, o, b, i, k);
    RegionEndCloses(ha, hb, o, a, b, i, j, i, k, lo);
    SideIsWellPlaced(ha, o, a, i, j, lo, hi);
    SideIsWellPlaced(hb, o, b, i, k, lo, hi);
  }

  lemma SideIsWellPlaced(h: seq<Hunk>, o: seq<string>, s: seq<string>, i: nat, j: nat, lo: nat, hi: nat)
    requires AlignedFrom(h, o, s, i, j) && i <= lo <= hi <= |o| && Closed(h, hi)
    requires h != [] ==> lo <= h[0].lo
    ensures var j' := Walk(h, i, j, hi);
            && j + (lo - i) <= j' <= |s|
            && o[i..lo] == s[j..j + (lo - i)]
            && AlignedFrom(Beyond(h, hi), o, s, hi, j')
            && (Beyond(h, hi) != [] ==> hi < Beyond(h, hi)[0].lo)
            && (Beyond(h, hi) == h ==> o[lo..hi] == s[j + (lo - i)..j'])
    ensures h != [] && h[0].lo <= hi ==> |Beyond(h, hi)| < |h|
  {
    EqualStretchSplits(h, o, s, i, j, lo);
    WalkFromLater(h, i, j, lo, hi);
    WalkKeepsAlignment(h, o, s, lo, j + (lo - i), hi);
  }

  lemma WalkFromLater(h: seq<Hunk>, i: nat, j: nat, lo: nat, hi: nat)
    requires i <= lo <= hi
    ensures Walk(h, i, j, hi) == Walk(h, lo, j + (lo - i), hi)
  {
  }

  /******* What the chunks say *******/

  function Ours(cs: seq<Chunk>): seq<string> {
    if cs == [] then [] else cs[0].a + Ours(cs[1..])
  }

  function Theirs(cs: seq<Chunk>): seq<string> {
    if cs == [] then [] else cs[0].b + Theirs(cs[1..])
  }

  function Base(cs: seq<Chunk>): seq<string> {
    if cs == [] then [] else cs[0].o + Base(cs[1..])
  }

  ghost predicate ChunkOk(c: Chunk) {
    match c.kind
    case Same => c.o == c.a == c.b && c.o != []
    case OnlyOurs => c.o == c.b
    case OnlyTheirs => c.o == c.a
    case Both => true
  }

  // The chunks split all three inputs, in order and without loss; a changed chunk is
  // followed by a stable one.
  ghost predicate Partition(cs: seq<Chunk>, o: seq<string>, a: seq<string>, b: seq<string>) {
    if cs == [] then o == [] && a == [] && b == []
    else
      var c := cs[0];
      && ChunkOk(c)
      && (c.kind != Same && |cs| > 1 ==> cs[1].kind == Same)
      && c.o <= o && c.a <= a && c.b <= b
      && Partition(cs[1..], o[|c.o|..], a[|c.a|..], b[|c.b|..])
  }

  lemma {:induction false} PartitionReassembles(cs: seq<Chunk>, o: seq<string>, a: seq<string>, b: seq<string>)
    requires Partition(cs, o, a, b)
    ensures Base(cs) == o && Ours(cs) == a && Theirs(cs) == b
  {
    if cs != [] {
      var c := cs[0];
      PartitionReassembles(cs[1..], o[|c.o|..], a[|c.a|..], b[|c.b|..]);
      assert o == c.o + o[|c.o|..];
      assert a == c.a + a[|c.a|..];
      assert b == c.b + b[|c.b|..];
    }
  }

  lemma {:induction false} MergeFromPartitions(ha: seq<Hunk>, hb: seq<Hunk>, o: seq<string>,
                                               a: seq<string>, b: seq<string>, i: nat, j: nat, k: nat)
    requires AlignedFrom(ha, o, a, i, j) && AlignedFrom(hb, o, b, i, k)
    ensures Partition(MergeFrom(ha, hb, o, a, b, i, j, k), o[i..], a[j..], b[k..])
    decreases |ha| + |hb|
  {
    hide AlignedFrom, Beyond, Walk, RegionEnd, RegionKind, FirstLo, Partition, ChunkOk, StableChunk;
    if ha == [] && hb == [] {
      AlignedTails(ha, o, a, i, j);
      AlignedTails(hb, o, b, i, k);
      StablePartitions(o[i..], [], o[i..], a[j..], b[k..]);
      assert StableChunk(o[i..]) + [] == StableChunk(o[i..]);
    } else {
      var lo := FirstLo(ha, hb);
      var hi := RegionEnd(ha, hb, lo);
      RegionIsWellPlaced(ha, hb, o, a, b, i, j, k);
      var jl, kl := j + (lo - i), k + (lo - i);
      var j', k' := Walk(ha, i, j, hi), Walk(hb, i, k, hi);
      var rest := MergeFrom(Beyond(ha, hi), Beyond(hb, hi), o, a, b, hi, j', k');
      var c := Chunk(RegionKind(ha, hb, hi), o[lo..hi], a[jl..j'], b[kl..k']);
      MergeFromPartitions(Beyond(ha, hi), Beyond(hb, hi), o, a, b, hi, j', k');
      RestStartsStable(rest, Beyond(ha, hi), Beyond(hb, hi), o, a, b, hi, j', k');
      RegionChunkOk(ha, hb, o, a, b, i, j, k);
      RegionPartitions(c, rest, o, a, b, i, j, k, lo, jl, kl, hi, j', k');
    }
  }

  // A stable stretch up to a region, the region, and a partition of what follows.
  lemma RegionPartitions(c: Chunk, rest: seq<Chunk>, o: seq<string>, a: seq<string>, b: seq<string>,
                         i: nat, j: nat, k: nat, lo: nat, jl: nat, kl: nat, hi: nat, j': nat, k': nat)
    requires i <= lo <= hi <= |o| && j <= jl <= j' <= |a| && k <= kl <= k' <= |b|
    requires o[i..lo] == a[j..jl] && o[i..lo] == b[k..kl]
    requires c.o == o[lo..hi] && c.a == a[jl..j'] && c.b == b[kl..k'] && ChunkOk(c) && c.kind != Same
    requires Partition(rest, o[hi..], a[j'..], b[k'..]) && (rest != [] ==> rest[0].kind == Same)
    ensures Partition(StableChunk(o[i..lo]) + [c] + rest, o[i..], a[j..], b[k..])
  {
    hide Partition, ChunkOk, StableChunk;
    SuffixSplits(o, lo, hi);
    SuffixSplits(a, jl, j');
    SuffixSplits(b, kl, k');
    PartitionCons(c, rest, o[lo..], a[jl..], b[kl..]);
    SuffixSplits(o, i, lo);
    SuffixSplits(a, j, jl);
    SuffixSplits(b, k, kl);
    StablePartitions(o[i..lo], [c] + rest, o[i..], a[j..], b[k..]);
    assert StableChunk(o[i..lo]) + [c] + rest == StableChunk(o[i..lo]) + ([c] + rest);
  }

  lemma AlignedTails(h: seq<Hunk>, o: seq<string>, s: seq<string>, i: nat, j: nat)
    requires AlignedFrom(h, o, s, i, j)
    ensures i <= |o| && j <= |s| && (h == [] ==> o[i..] == s[j..] && Partition([], [], [], []))
  {
  }

  lemma RegionChunkOk(ha: seq<Hunk>, hb: seq<Hunk>, o: seq<string>, a: seq<string>, b: seq<string>,
                      i: nat, j: nat, k: nat)
    requires AlignedFrom(ha, o, a, i, j) && AlignedFrom(hb, o, b, i, k) && (ha != [] || hb != [])
    ensures var lo := FirstLo(ha, hb); var hi := RegionEnd(ha, hb, lo);
            var j', k' := Walk(ha, i, j, hi), Walk(hb, i, k, hi);
            && i <= lo <= hi <= |o| && j + (lo - i) <= j' <= |a| && k + (lo - i) <= k' <= |b|
            && var c := Chunk(RegionKind(ha, hb, hi), o[lo..hi], a[j + (lo - i)..j'], b[k + (lo - i)..k']);
               ChunkOk(c) && c.kind != Same
  {
    hide AlignedFrom, Beyond, Walk, RegionEnd, FirstLo;
    RegionIsWellPlaced(ha, hb, o, a, b, i, j, k);
  }

  lemma SuffixSplits(s: seq<string>, i: nat, j: nat)
    requires i <= j <= |s|
    ensures s[i..j] <= s[i..] && s[i..][|s[i..j]|..] == s[j..]
  {
  }

  lemma StablePartitions(lines: seq<string>, rest: seq<Chunk>, o: seq<string>, a: seq<string>, b: seq<string>)
    requires lines <= o && lines <= a && lines <= b
    requires Partition(rest, o[|lines|..], a[|lines|..], b[|lines|..])
    ensures Partition(StableChunk(lines) + rest, o, a, b)
  {
    if lines == [] {
      assert StableChunk(lines) + rest == rest;
    } else {
      PartitionCons(Chunk(Same, lines, lines, lines), rest, o, a, b);
    }
  }

  lemma RestStartsStable(rest: seq<Chunk>, ha: seq<Hunk>, hb: seq<Hunk>,
                         o: seq<string>, a: seq<string>, b: seq<string>, i: nat, j: nat, k: nat)
    requires AlignedFrom(ha, o, a, i, j) && AlignedFrom(hb, o, b, i, k)
    requires rest == MergeFrom(ha, hb, o, a, b, i, j, k)
    requires (ha != [] ==> i < ha[0].lo) && (hb != [] ==> i < hb[0].lo)
    ensures rest != [] ==> rest[0].kind == Same
  {
    if ha != [] || hb != [] {
      RegionIsWellPlaced(ha, hb, o, a, b, i, j, k);
      assert o[i..FirstLo(ha, hb)] != [];
    }
  }

  lemma PartitionCons(c: Chunk, rest: seq<Chunk>, o: seq<string>, a: seq<string>, b: seq<string>)
    requires ChunkOk(c) && (c.kind != Same && rest != [] ==> rest[0].kind == Same)
    requires c.o <= o && c.a <= a && c.b <= b
    requires Partition(rest, o[|c.o|..], a[|c.a|..], b[|c.b|..])
    ensures Partition([c] + rest, o, a, b)
  {
    assert ([c] + rest)[1..] == rest;
  }

  /******* Resolving the chunks *******/

  datatype Piece = Merged(lines: seq<string>) | Conflict(a: seq<string>, o: seq<string>, b: seq<string>)

  // With false conflicts excluded: a region both sides changed alike needs no decision.
  function Resolve(c: Chunk): Piece {
    match c.kind
    case Same => Merged(c.o)
    case OnlyOurs => Merged(c.a)
    case OnlyTheirs => Merged(c.b)
    case Both => if c.a == c.b then Merged(c.a) else Conflict(c.a, c.o, c.b)
  }

  function ResolveAll(cs: seq<Chunk>): seq<Piece> {
    if cs == [] then [] else [Resolve(cs[0])] + ResolveAll(cs[1..])
  }

  function Chunks(ha: seq<Hunk>, hb: seq<Hunk>, a: seq<string>, o: seq<string>, b: seq<string>): seq<Chunk>
    requires Aligned(ha, o, a) && Aligned(hb, o, b)
  {
    MergeFrom(ha, hb, o, a, b, 0, 0, 0)
  }

  function Diff3Merge(ha: seq<Hunk>, hb: seq<Hunk>, a: seq<string>, o: seq<string>, b: seq<string>): seq<Piece>
    requires Aligned(ha, o, a) && Aligned(hb, o, b)
  {
    ResolveAll(Chunks(ha, hb, a, o, b))
  }

  lemma ChunksPartition(ha: seq<Hunk>, hb: seq<Hunk>, a: seq<string>, o: seq<string>, b: seq<string>)
    requires Aligned(ha, o, a) && Aligned(hb, o, b)
    ensures Partition(Chunks(ha, hb, a, o, b), o, a, b)
  {
    MergeFromPartitions(ha, hb, o, a, b, 0, 0, 0);
    assert o[0..] == o && a[0..] == a && b[0..] == b;
  }

  // Nothing is lost, duplicated or reordered: the regions concatenate to each input.
  lemma ChunksReassembleInputs(ha: seq<Hunk>, hb: seq<Hunk>, a: seq<string>, o: seq<string>, b: seq<string>)
    requires Aligned(ha, o, a) && Aligned(hb, o, b)
    ensures Base(Chunks(ha, hb, a, o, b)) == o
    ensures Ours(Chunks(ha, hb, a, o, b)) == a
    ensures Theirs(Chunks(ha, hb, a, o, b)) == b
  {
    ChunksPartition(ha, hb, a, o, b);
    PartitionReassembles(Chunks(ha, hb, a, o, b), o, a, b);
  }

  predicate AllMerged(ps: seq<Piece>) {
    forall p :: p in ps ==> p.Merged?
  }

  // The lines of the merged pieces, in order.
  function MergedLines(ps: seq<Piece>): seq<string> {
    if ps == [] then [] else (if ps[0].Merged? then ps[0].lines else []) + MergedLines(ps[1..])
  }

  // One piece per region: a conflict, with what each input has there, exactly where both
  // sides changed it and differently; else the lines of the side that changed it.
  ghost predicate Decides(p: Piece, c: Chunk) {
    && (p.Merged? <==> (c.kind == Both ==> c.a == c.b))
    && (p.Conflict? ==> p.a == c.a && p.o == c.o && p.b == c.b)
    && (p.Merged? && c.kind == OnlyOurs ==> p.lines == c.a)
    && (p.Merged? && c.kind == OnlyTheirs ==> p.lines == c.b)
    && (p.Merged? && c.kind == Both ==> p.lines == c.a == c.b)
    && (p.Merged? && c.kind == Same ==> p.lines == c.o == c.a == c.b)
  }

  lemma {:induction false} ResolveAllDecides(cs: seq<Chunk>)
    requires forall c :: c in cs ==> ChunkOk(c)
    ensures |ResolveAll(cs)| == |cs|
    ensures forall n :: 0 <= n < |cs| ==> Decides(ResolveAll(cs)[n], cs[n])
  {
    if cs != [] {
      assert forall c :: c in cs[1..] ==> c in cs;
      assert cs[0] in cs;
      ResolveAllDecides(cs[1..]);
      forall n | 0 < n < |cs| ensures Decides(ResolveAll(cs)[n], cs[n]) {
        assert ResolveAll(cs)[n] == ResolveAll(cs[1..])[n - 1];
        assert cs[n] == cs[1..][n - 1];
      }
    }
  }

  // The merge is clean exactly when the sides agree wherever both changed, and every region
  // is decided as it should be.
  lemma MergeDecidesEveryRegion(ha: seq<Hunk>, hb: seq<Hunk>, a: seq<string>, o: seq<string>, b: seq<string>)
    requires Aligned(ha, o, a) && Aligned(hb, o, b)
    ensures var ps, cs := Diff3Merge(ha, hb, a, o, b), Chunks(ha, hb, a, o, b);
            && |ps| == |cs| && (forall n :: 0 <= n < |cs| ==> Decides(ps[n], cs[n]))
            && (AllMerged(ps) <==> forall c :: c in cs && c.kind == Both ==> c.a == c.b)
  {
    var ps, cs := Diff3Merge(ha, hb, a, o, b), Chunks(ha, hb, a, o, b);
    ChunksPartition(ha, hb, a, o, b);
    PartitionChunksOk(cs, o, a, b);
    ResolveAllDecides(cs);
    forall n | 0 <= n < |cs| ensures ps[n] in ps && cs[n] in cs {}
    if forall c :: c in cs && c.kind == Both ==> c.a == c.b {
      forall p | p in ps ensures p.Merged? {
        var n :| 0 <= n < |ps| && ps[n] == p;
        assert cs[n] in cs;
      }
    }
    if AllMerged(ps) {
      forall c | c in cs && c.kind == Both ensures c.a == c.b {
        var n :| 0 <= n < |cs| && cs[n] == c;
        assert ps[n] in ps;
      }
    }
  }

  lemma {:induction false} AgreeingChunksMergeClean(cs: seq<Chunk>)
    requires forall c :: c in cs ==> ChunkOk(c) && (c.kind == OnlyTheirs || c.kind == Both ==> c.a == c.b)
    ensures AllMerged(ResolveAll(cs)) && MergedLines(ResolveAll(cs)) == Ours(cs)
  {
    if cs != [] {
      assert forall c :: c in cs[1..] ==> c in cs;
      AgreeingChunksMergeClean(cs[1..]);
      assert cs[0] in cs;
    }
  }

  lemma {:induction false} AgreeingTheirsMergeClean(cs: seq<Chunk>)
    requires forall c :: c in cs ==> ChunkOk(c) && (c.kind == OnlyOurs || c.kind == Both ==> c.a == c.b)
    ensures AllMerged(ResolveAll(cs)) && MergedLines(ResolveAll(cs)) == Theirs(cs)
  {
    if cs != [] {
      assert forall c :: c in cs[1..] ==> c in cs;
      AgreeingTheirsMergeClean(cs[1..]);
      assert cs[0] in cs;
    }
  }

  lemma {:induction false} UntouchedTheirsChunks(ha: seq<Hunk>, o: seq<string>, a: seq<string>, b: seq<string>,
                                                 i: nat, j: nat, k: nat)
    requires AlignedFrom(ha, o, a, i, j) && AlignedFrom([], o, b, i, k)
    ensures forall c :: c in MergeFrom(ha, [], o, a, b, i, j, k) ==> c.kind == Same || c.kind == OnlyOurs
    decreases |ha|
  {
    if ha != [] {
      var hi := RegionEnd(ha, [], FirstLo(ha, []));
      RegionIsWellPlaced(ha, [], o, a, b, i, j, k);
      UntouchedTheirsChunks(Beyond(ha, hi), o, a, b, hi, Walk(ha, i, j, hi), Walk([], i, k, hi));
    }
  }

  lemma {:induction false} PartitionChunksOk(cs: seq<Chunk>, o: seq<string>, a: seq<string>, b: seq<string>)
    requires Partition(cs, o, a, b)
    ensures forall c :: c in cs ==> ChunkOk(c)
  {
    if cs != [] {
      PartitionChunksOk(cs[1..], o[|cs[0].o|..], a[|cs[0].a|..], b[|cs[0].b|..]);
    }
  }

  // If theirs has no hunk, the merge is ours, without a conflict.
  lemma UntouchedTheirsYieldsOurs(ha: seq<Hunk>, a: seq<string>, o: seq<string>, b: seq<string>)
    requires Aligned(ha, o, a) && Aligned([], o, b)
    ensures AllMerged(Diff3Merge(ha, [], a, o, b)) && MergedLines(Diff3Merge(ha, [], a, o, b)) == a
  {
    var cs := Chunks(ha, [], a, o, b);
    ChunksPartition(ha, [], a, o, b);
    PartitionChunksOk(cs, o, a, b);
    PartitionReassembles(cs, o, a, b);
    UntouchedTheirsChunks(ha, o, a, b, 0, 0, 0);
    AgreeingChunksMergeClean(cs);
  }

  lemma {:induction false} UntouchedOursChunks(hb: seq<Hunk>, o: seq<string>, a: seq<string>, b: seq<string>,
                                               i: nat, j: nat, k: nat)
    requires AlignedFrom([], o, a, i, j) && AlignedFrom(hb, o, b, i, k)
    ensures forall c :: c in MergeFrom([], hb, o, a, b, i, j, k) ==> c.kind == Same || c.kind == OnlyTheirs
    decreases |hb|
  {
    if hb != [] {
      var hi := RegionEnd([], hb, FirstLo([], hb));
      RegionIsWellPlaced([], hb, o, a, b, i, j, k);
      UntouchedOursChunks(Beyond(hb, hi), o, a, b, hi, Walk([], i, j, hi), Walk(hb, i, k, hi));
    }
  }

  // And if ours has none, it is theirs.
  lemma UntouchedOursYieldsTheirs(hb: seq<Hunk>, a: seq<string>, o: seq<string>, b: seq<string>)
    requires Aligned([], o, a) && Aligned(hb, o, b)
    ensures AllMerged(Diff3Merge([], hb, a, o, b)) && MergedLines(Diff3Merge([], hb, a, o, b)) == b
  {
    var cs := Chunks([], hb, a, o, b);
    ChunksPartition([], hb, a, o, b);
    PartitionChunksOk(cs, o, a, b);
    PartitionReassembles(cs, o, a, b);
    UntouchedOursChunks(hb, o, a, b, 0, 0, 0);
    AgreeingTheirsMergeClean(cs);
  }

  /******* Where a line without its newline can end up *******/

  ghost predicate AllTerminated(lines: seq<string>) {
    forall i :: 0 <= i < |lines| ==> Terminated(lines[i])
  }

  lemma PrefixEndsItsLines(x: seq<string>, s: seq<string>)
    requires x <= s && LinesOk(s)
    ensures LinesOk(s[|x|..])
    ensures InnerTerminated(x)
    ensures AllTerminated(x) || (x != [] && x == s && !Terminated(x[|x| - 1]))
  {
    if |x| < |s| {
      assert forall i :: 0 <= i < |x| ==> x[i] == s[i];
    }
  }

  lemma {:induction false} NothingLeftMergesToNothing(cs: seq<Chunk>)
    requires Partition(cs, [], [], [])
    ensures MergedLines(ResolveAll(cs)) == []
  {
    if cs != [] {
      NothingLeftMergesToNothing(cs[1..]);
    }
  }

  // In a conflict-free merge only the very last line may lack its newline: once a side's
  // unterminated last line has been taken, nothing can follow it.
  lemma {:induction false} OnlyTheLastLineIsOpen(cs: seq<Chunk>, o: seq<string>, a: seq<string>, b: seq<string>)
    requires Partition(cs, o, a, b) && LinesOk(o) && LinesOk(a) && LinesOk(b)
    requires AllMerged(ResolveAll(cs))
    ensures InnerTerminated(MergedLines(ResolveAll(cs)))
  {
    if cs != [] {
      var c := cs[0];
      PrefixEndsItsLines(c.o, o);
      PrefixEndsItsLines(c.a, a);
      PrefixEndsItsLines(c.b, b);
      assert Resolve(c) in ResolveAll(cs);
      assert AllMerged(ResolveAll(cs[1..])) by {
        assert ResolveAll(cs)[1..] == ResolveAll(cs[1..]);
        assert forall p :: p in ResolveAll(cs)[1..] ==> p in ResolveAll(cs);
      }
      var x, rest := Resolve(c).lines, MergedLines(ResolveAll(cs[1..]));
      assert MergedLines(ResolveAll(cs)) == x + rest;
      OnlyTheLastLineIsOpen(cs[1..], o[|c.o|..], a[|c.a|..], b[|c.b|..]);
      if AllTerminated(x) {
        TerminatedThenInner(x, rest);
      } else {
        OpenLineEndsTheMerge(cs, o, a, b);
        assert x + rest == x;
      }
    }
  }

  ghost predicate InnerTerminated(lines: seq<string>) {
    forall i :: 0 <= i < |lines| - 1 ==> Terminated(lines[i])
  }

  lemma TerminatedThenInner(x: seq<string>, rest: seq<string>)
    requires AllTerminated(x) && InnerTerminated(rest)
    ensures InnerTerminated(x + rest)
  {
    forall i | 0 <= i < |x + rest| - 1 ensures Terminated((x + rest)[i]) {
      assert (x + rest)[i] == if i < |x| then x[i] else rest[i - |x|];
    }
  }

  lemma OpenLineEndsTheMerge(cs: seq<Chunk>, o: seq<string>, a: seq<string>, b: seq<string>)
    requires Partition(cs, o, a, b) && LinesOk(o) && LinesOk(a) && LinesOk(b)
    requires cs != [] && Resolve(cs[0]).Merged? && !AllTerminated(Resolve(cs[0]).lines)
    ensures MergedLines(ResolveAll(cs[1..])) == []
  {
    var c := cs[0];
    PrefixEndsItsLines(c.o, o);
    PrefixEndsItsLines(c.a, a);
    PrefixEndsItsLines(c.b, b);
    if c.kind == Same {
      NothingLeftMergesToNothing(cs[1..]);
    } else {
      assert c.o == o || c.a == a || c.b == b;
      assert |cs| == 1;
    }
  }

  lemma {:induction false} MergedLinesComeFromInputs(cs: seq<Chunk>, o: seq<string>, a: seq<string>, b: seq<string>)
    requires Partition(cs, o, a, b)
    ensures forall line :: line in MergedLines(ResolveAll(cs)) ==> line in o || line in a || line in b
  {
    if cs != [] {
      var c := cs[0];
      MergedLinesComeFromInputs(cs[1..], o[|c.o|..], a[|c.a|..], b[|c.b|..]);
    }
  }
}
