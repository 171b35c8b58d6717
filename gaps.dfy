/**
 * `FindWidestGapMidAngle`: where `GameManager` places a new orb.  Every arc,
 * widened by 5 degrees on each side, becomes a blocked interval of the circle
 * (split in two when it crosses angle 0); the intervals are sorted by their
 * start and merged, and the orb goes to the middle of the widest free gap.
 * Only three kinds of gap are scored: the one before the first block (when the
 * first block does not start at 0), the ones between neighbouring blocks, and
 * the one after the last block up to 2π.  The gaps at the two ends are never
 * joined across angle 0, and on a tie the first gap wins.  A midpoint closer to
 * the player than the minimum separation is replaced by the point opposite the
 * player.
 */
module Gaps {
  import opened Mathf
  import opened Angles
  import opened Arcs

  /** A blocked interval [from, to] of the circle. */
  datatype Block = Block(from: real, to: real)

  /** A free gap: its length and its midpoint. */
  datatype Gap = Gap(size: real, mid: real)

  /** The widening applied on each side of an arc. */
  const InflateRad: real := Deg2Rad * 5.0

  ghost predicate InCircle(b: Block)
  {
    0.0 <= b.from <= b.to <= TwoPi
  }

  ghost predicate AllInCircle(s: seq<Block>)
  {
    forall i :: 0 <= i < |s| ==> InCircle(s[i])
  }

  /** Ordered by start, as `List.Sort` with the comparator on `from` leaves them. */
  ghost predicate SortedByFrom(s: seq<Block>)
  {
    forall i, j :: 0 <= i < j < |s| ==> s[i].from <= s[j].from
  }

  /** Each block ends strictly before the next one starts. */
  ghost predicate Separated(s: seq<Block>)
  {
    forall k :: 0 <= k < |s| - 1 ==> s[k].to < s[k + 1].from
  }

  /** Some block of `s` contains `b`. */
  ghost predicate Covered(b: Block, s: seq<Block>)
  {
    exists k :: 0 <= k < |s| && s[k].from <= b.from && b.to <= s[k].to
  }

  /**
   * The blocks of one arc: the widened arc with both ends wrapped into
   * [0, 2π), or, when it crosses 0, the two pieces [0, to] and [from, 2π].
   */
  function ArcBlocks(a: ArcState): (r: seq<Block>)
    ensures 1 <= |r| <= 2 && AllInCircle(r)
  {
    var from := a.centerAngleRad - a.halfWidthRad - InflateRad;
    var to := a.centerAngleRad + a.halfWidthRad + InflateRad;
    var n := NormalizeInterval(from, to);
    if !n.2 then [Block(n.0, n.1)]
    else [Block(0.0, n.1), Block(n.0, TwoPi)]
  }

  /** The blocks of all arcs, in arc order. */
  function Blocks(arcs: seq<ArcState>): seq<Block>
  {
    if arcs == [] then [] else Blocks(arcs[..|arcs| - 1]) + ArcBlocks(arcs[|arcs| - 1])
  }

  /** Every block lies inside [0, 2π], and there is a block exactly when there is an arc. */
  lemma {:induction false} BlocksInCircle(arcs: seq<ArcState>)
    ensures AllInCircle(Blocks(arcs))
    ensures |Blocks(arcs)| >= |arcs|
    ensures |Blocks(arcs)| == 0 <==> arcs == []
    decreases |arcs|
  {
    if arcs != [] {
      BlocksInCircle(arcs[..|arcs| - 1]);
      var p := Blocks(arcs[..|arcs| - 1]);
      var q := ArcBlocks(arcs[|arcs| - 1]);
      forall i | 0 <= i < |p + q|
        ensures InCircle((p + q)[i])
      {
        if i < |p| { assert (p + q)[i] == p[i]; } else { assert (p + q)[i] == q[i - |p|]; }
      }
    }
  }

  /** The loop that collects the blocks of every arc. */
  method CollectBlocks(arcs: seq<ArcState>) returns (blocks: seq<Block>)
    ensures blocks == Blocks(arcs)
  {
    blocks := [];
    var i := 0;
    while i < |arcs|
      invariant 0 <= i <= |arcs|
      invariant blocks == Blocks(arcs[..i])
    {
      assert arcs[..i + 1][..i] == arcs[..i];
      blocks := blocks + ArcBlocks(arcs[i]);
      i := i + 1;
    }
    assert arcs[..|arcs|] == arcs;
  }

  /** `b` put in front of the first block of a sorted list that does not start before it. */
  function Insert(b: Block, s: seq<Block>): seq<Block>
  {
    if s == [] then [b]
    else if b.from <= s[0].from then [b] + s
    else [s[0]] + Insert(b, s[1..])
  }

  /** Insertion adds exactly the one block. */
  lemma {:induction false} InsertPermutes(b: Block, s: seq<Block>)
    ensures multiset(Insert(b, s)) == multiset(s) + multiset{b}
    ensures |Insert(b, s)| == |s| + 1
    decreases |s|
  {
    if s != [] && b.from > s[0].from {
      InsertPermutes(b, s[1..]);
      assert s == [s[0]] + s[1..];
    }
  }

  /** Insertion into a sorted list keeps it sorted; the new head is `b` or the old head. */
  lemma {:induction false} InsertSorted(b: Block, s: seq<Block>)
    requires SortedByFrom(s)
    ensures SortedByFrom(Insert(b, s))
    ensures Insert(b, s)[0] == b || Insert(b, s)[0] == s[0]
    decreases |s|
  {
    if s != [] && b.from > s[0].from {
      InsertSorted(b, s[1..]);
      var t := Insert(b, s[1..]);
      assert t[0].from >= s[0].from by {
        if |s| > 1 { assert s[1..][0] == s[1]; }
      }
      var r := [s[0]] + t;
      forall i, j | 0 <= i < j < |r|
        ensures r[i].from <= r[j].from
      {
        if i == 0 {
          assert r[j] == t[j - 1];
          assert t[0].from <= t[j - 1].from;
        } else {
          assert r[i] == t[i - 1] && r[j] == t[j - 1];
        }
      }
    }
  }

  /** The model of `List.Sort` on the blocks: insertion sort by start. */
  function SortByFrom(s: seq<Block>): seq<Block>
  {
    if s == [] then [] else Insert(s[0], SortByFrom(s[1..]))
  }

  /** The sort returns a sorted permutation of its input. */
  lemma {:induction false} SortByFromCorrect(s: seq<Block>)
    ensures SortedByFrom(SortByFrom(s))
    ensures multiset(SortByFrom(s)) == multiset(s)
    ensures |SortByFrom(s)| == |s|
  {
    if s != [] {
      SortByFromCorrect(s[1..]);
      InsertSorted(s[0], SortByFrom(s[1..]));
      InsertPermutes(s[0], SortByFrom(s[1..]));
      assert s == [s[0]] + s[1..];
    }
  }

  /** A permutation keeps every block inside the circle. */
  lemma PermutationInCircle(s: seq<Block>, r: seq<Block>)
    requires multiset(r) == multiset(s) && AllInCircle(s)
    ensures AllInCircle(r)
  {
    forall i | 0 <= i < |r|
      ensures InCircle(r[i])
    {
      assert r[i] in multiset(s);
      var j :| 0 <= j < |s| && s[j] == r[i];
    }
  }

  /**
   * The merge loop on a sorted list: `cur` is the block being grown; the next
   * block is absorbed when it starts no later than `cur` ends, and otherwise
   * `cur` is closed and the next block becomes the new `cur`.
   */
  function MergeFrom(cur: Block, rest: seq<Block>): seq<Block>
    decreases |rest|
  {
    if rest == [] then [cur]
    else if rest[0].from <= cur.to then MergeFrom(Block(cur.from, Max(cur.to, rest[0].to)), rest[1..])
    else [cur] + MergeFrom(rest[0], rest[1..])
  }

  /** The merge emits at least one block, and the first one starts where `cur` starts. */
  lemma {:induction false} MergeFromNonEmpty(cur: Block, rest: seq<Block>)
    ensures |MergeFrom(cur, rest)| >= 1 && MergeFrom(cur, rest)[0].from == cur.from
    decreases |rest|
  {
    if rest != [] {
      if rest[0].from <= cur.to {
        MergeFromNonEmpty(Block(cur.from, Max(cur.to, rest[0].to)), rest[1..]);
      }
    }
  }

  /** The merged list of a non-empty sorted list. */
  function MergeAll(s: seq<Block>): (r: seq<Block>)
    requires |s| >= 1
    ensures |r| >= 1 && r[0].from == s[0].from
  {
    MergeFromNonEmpty(s[0], s[1..]);
    MergeFrom(s[0], s[1..])
  }

  /**
   * Merging sorted blocks in the circle gives blocks in the circle, in order
   * and pairwise apart, the first of which starts where `cur` starts.
   */
  lemma {:induction false} MergeFromShape(cur: Block, rest: seq<Block>)
    requires InCircle(cur) && AllInCircle(rest) && SortedByFrom(rest)
    requires forall i :: 0 <= i < |rest| ==> cur.from <= rest[i].from
    ensures |MergeFrom(cur, rest)| >= 1 && MergeFrom(cur, rest)[0].from == cur.from
    ensures AllInCircle(MergeFrom(cur, rest)) && Separated(MergeFrom(cur, rest))
    decreases |rest|
  {
    if rest == [] {
      assert MergeFrom(cur, rest)[0] == cur;
    } else {
      assert forall i :: 0 <= i < |rest[1..]| ==> rest[1..][i] == rest[i + 1];
      if rest[0].from <= cur.to {
        MergeFromShape(Block(cur.from, Max(cur.to, rest[0].to)), rest[1..]);
      } else {
        MergeFromShape(rest[0], rest[1..]);
        var t := MergeFrom(rest[0], rest[1..]);
        var r := [cur] + t;
        assert r[0] == cur;
        forall k | 0 <= k < |r| - 1
          ensures r[k].to < r[k + 1].from
        {
          if k > 0 { assert r[k] == t[k - 1] && r[k + 1] == t[k]; }
        }
        forall k | 0 <= k < |r|
          ensures InCircle(r[k])
        {
          if k > 0 { assert r[k] == t[k - 1]; }
        }
      }
    }
  }

  /** Between them the merged blocks contain `cur` and every block of `rest`. */
  lemma {:induction false} MergeFromCovers(cur: Block, rest: seq<Block>)
    requires SortedByFrom(rest)
    requires forall i :: 0 <= i < |rest| ==> cur.from <= rest[i].from
    ensures Covered(cur, MergeFrom(cur, rest))
    ensures forall j :: 0 <= j < |rest| ==> Covered(rest[j], MergeFrom(cur, rest))
    decreases |rest|
  {
    var r := MergeFrom(cur, rest);
    if rest == [] {
      assert r[0] == cur;
    } else if rest[0].from <= cur.to {
      var grown := Block(cur.from, Max(cur.to, rest[0].to));
      assert forall i :: 0 <= i < |rest[1..]| ==> rest[1..][i] == rest[i + 1];
      MergeFromCovers(grown, rest[1..]);
      var k0 :| 0 <= k0 < |r| && r[k0].from <= grown.from && grown.to <= r[k0].to;
      assert r[k0].from <= cur.from && cur.to <= r[k0].to;
      forall j | 0 <= j < |rest|
        ensures Covered(rest[j], r)
      {
        if j == 0 {
          assert r[k0].from <= rest[0].from && rest[0].to <= r[k0].to;
        } else {
          assert rest[j] == rest[1..][j - 1];
        }
      }
    } else {
      MergeFromCovers(rest[0], rest[1..]);
      var t := MergeFrom(rest[0], rest[1..]);
      assert r == [cur] + t && r[0] == cur;
      forall j | 0 <= j < |rest|
        ensures Covered(rest[j], r)
      {
        var c := rest[j];
        assert Covered(c, t) by {
          if j > 0 { assert c == rest[1..][j - 1]; }
        }
        var k :| 0 <= k < |t| && t[k].from <= c.from && c.to <= t[k].to;
        assert r[k + 1] == t[k];
      }
    }
  }

  /** Point `x` lies in some block of `s`. */
  ghost predicate InSome(x: real, s: seq<Block>)
  {
    exists k :: 0 <= k < |s| && s[k].from <= x <= s[k].to
  }

  /** Every point of `b` lies in some block of `s`. */
  ghost predicate Within(b: Block, s: seq<Block>)
  {
    forall x :: b.from <= x <= b.to ==> InSome(x, s)
  }

  /**
   * The converse of `MergeFromCovers`: when every point of `cur` and every
   * block of `rest` already lie in the blocks of `src`, so does every point
   * of every merged block.  Merging blocks nothing new.
   */
  lemma {:induction false} MergeFromWithin(cur: Block, rest: seq<Block>, src: seq<Block>)
    requires Within(cur, src)
    requires forall j :: 0 <= j < |rest| ==> rest[j] in src
    ensures forall k :: 0 <= k < |MergeFrom(cur, rest)| ==> Within(MergeFrom(cur, rest)[k], src)
    decreases |rest|
  {
    var r := MergeFrom(cur, rest);
    if rest == [] {
      assert r == [cur];
    } else {
      var b := rest[0];
      assert b in src;
      var i :| 0 <= i < |src| && src[i] == b;
      assert forall j :: 0 <= j < |rest[1..]| ==> rest[1..][j] == rest[j + 1];
      if b.from <= cur.to {
        var grown := Block(cur.from, Max(cur.to, b.to));
        forall x | grown.from <= x <= grown.to
          ensures InSome(x, src)
        {
          if x > cur.to {
            assert src[i].from <= x <= src[i].to;
          }
        }
        MergeFromWithin(grown, rest[1..], src);
      } else {
        forall x | b.from <= x <= b.to
          ensures InSome(x, src)
        {
          assert src[i].from <= x <= src[i].to;
        }
        MergeFromWithin(b, rest[1..], src);
        var t := MergeFrom(b, rest[1..]);
        assert r == [cur] + t;
        forall k | 0 <= k < |r|
          ensures Within(r[k], src)
        {
          if k > 0 { assert r[k] == t[k - 1]; }
        }
      }
    }
  }

  /**
   * Merging a sorted list keeps exactly the points it blocks: a point lies in
   * some merged block if and only if it lies in some input block.
   */
  lemma MergeAllSameUnion(s: seq<Block>, x: real)
    requires |s| >= 1 && SortedByFrom(s)
    ensures InSome(x, MergeAll(s)) <==> InSome(x, s)
  {
    var m := MergeAll(s);
    var rest := s[1..];
    assert forall j :: 0 <= j < |rest| ==> rest[j] == s[j + 1];
    forall x' | s[0].from <= x' <= s[0].to
      ensures InSome(x', s)
    {
      assert s[0].from <= x' <= s[0].to;
    }
    forall j | 0 <= j < |rest|
      ensures rest[j] in s
    {
      assert rest[j] == s[j + 1];
    }
    MergeFromWithin(s[0], rest, s);
    MergeFromCovers(s[0], rest);
    if InSome(x, m) {
      var k :| 0 <= k < |m| && m[k].from <= x <= m[k].to;
      assert Within(m[k], s);
    }
    if InSome(x, s) {
      var j :| 0 <= j < |s| && s[j].from <= x <= s[j].to;
      assert Covered(s[j], m) by {
        if j > 0 { assert s[j] == rest[j - 1]; }
      }
      var k :| 0 <= k < |m| && m[k].from <= s[j].from && s[j].to <= m[k].to;
      assert m[k].from <= x <= m[k].to;
    }
  }

  /** The merge loop of `FindWidestGapMidAngle`. */
  method MergeBlocks(sorted: seq<Block>) returns (merged: seq<Block>)
    requires |sorted| >= 1
    ensures merged == MergeAll(sorted)
  {
    merged := [];
    var cur := sorted[0];
    var i := 1;
    while i < |sorted|
      invariant 1 <= i <= |sorted|
      invariant merged + MergeFrom(cur, sorted[i..]) == MergeFrom(sorted[0], sorted[1..])
    {
      var b := sorted[i];
      assert sorted[i..][1..] == sorted[i + 1..];
      if b.from <= cur.to {
        cur := Block(cur.from, Max(cur.to, b.to));
      } else {
        assert merged + MergeFrom(cur, sorted[i..]) == (merged + [cur]) + MergeFrom(b, sorted[i + 1..]);
        merged := merged + [cur];
        cur := b;
      }
      i := i + 1;
    }
    merged := merged + [cur];
  }

  /** The gap before the first block, scored only when that block does not start at 0. */
  function LeadingGaps(m: seq<Block>): seq<Gap>
    requires |m| >= 1
  {
    if m[0].from > 0.0 then [Gap(m[0].from - 0.0, (m[0].from - 0.0) * 0.5)] else []
  }

  /** The gap between block `i` and block `i + 1`. */
  function InnerGap(m: seq<Block>, i: int): Gap
    requires 0 <= i < |m| - 1
  {
    var gap := m[i + 1].from - m[i].to;
    Gap(gap, m[i].to + gap * 0.5)
  }

  /** The gap from the end of the last block to 2π. */
  function TrailingGap(m: seq<Block>): Gap
    requires |m| >= 1
  {
    var lastGap := TwoPi - m[|m| - 1].to;
    Gap(lastGap, m[|m| - 1].to + lastGap * 0.5)
  }

  /** Every gap that is scored, in the order in which it is scored. */
  function Gaps(m: seq<Block>): (g: seq<Gap>)
    requires |m| >= 1
    ensures |g| == |LeadingGaps(m)| + |m|
  {
    LeadingGaps(m) + seq(|m| - 1, i requires 0 <= i < |m| - 1 => InnerGap(m, i)) + [TrailingGap(m)]
  }

  /** Which gap sits at position `j` of the scored list. */
  lemma GapAt(m: seq<Block>, j: int)
    requires |m| >= 1 && 0 <= j < |Gaps(m)|
    ensures j < |LeadingGaps(m)| ==> Gaps(m)[j] == LeadingGaps(m)[j]
    ensures |LeadingGaps(m)| <= j < |Gaps(m)| - 1 ==> Gaps(m)[j] == InnerGap(m, j - |LeadingGaps(m)|)
    ensures j == |Gaps(m)| - 1 ==> Gaps(m)[j] == TrailingGap(m)
  {
  }

  /** Gap `k` is the widest one, and every gap before it is strictly narrower. */
  ghost predicate IsFirstWidest(g: seq<Gap>, k: int)
  {
    && 0 <= k < |g|
    && (forall j :: 0 <= j < |g| ==> g[j].size <= g[k].size)
    && (forall j :: 0 <= j < k ==> g[j].size < g[k].size)
  }

  /** There is only one first widest gap. */
  lemma FirstWidestUnique(g: seq<Gap>, k1: int, k2: int)
    requires IsFirstWidest(g, k1) && IsFirstWidest(g, k2)
    ensures k1 == k2
  {
    assert g[k1].size <= g[k2].size;
    assert g[k2].size <= g[k1].size;
  }

  /** Every non-empty list of gaps has a first widest gap. */
  lemma {:induction false} FirstWidestExists(g: seq<Gap>)
    requires |g| >= 1
    ensures exists k :: IsFirstWidest(g, k)
    decreases |g|
  {
    if |g| == 1 {
      assert IsFirstWidest(g, 0);
    } else {
      var p := g[..|g| - 1];
      FirstWidestExists(p);
      var k :| IsFirstWidest(p, k);
      assert forall j :: 0 <= j < |p| ==> p[j] == g[j];
      if g[|g| - 1].size > g[k].size {
        assert IsFirstWidest(g, |g| - 1);
      } else {
        assert IsFirstWidest(g, k);
      }
    }
  }

  /** For separated blocks in the circle every scored gap has a length of at least 0. */
  lemma GapsNotNegative(m: seq<Block>)
    requires |m| >= 1 && AllInCircle(m) && Separated(m)
    ensures forall j :: 0 <= j < |Gaps(m)| ==> Gaps(m)[j].size >= 0.0
  {
    var g := Gaps(m);
    var lead := LeadingGaps(m);
    forall j | 0 <= j < |g|
      ensures g[j].size >= 0.0
    {
      GapAt(m, j);
      if j == |g| - 1 {
        assert InCircle(m[|m| - 1]);
      }
    }
  }

  /**
   * The gap scan: start from a best length of -1, look at the gap before the
   * first block, then the inner gaps, then the trailing gap, and move to a gap
   * only when it is strictly longer than the best so far.
   */
  method WidestGap(m: seq<Block>) returns (maxGap: real, bestMid: real)
    requires |m| >= 1 && m[|m| - 1].to <= TwoPi
    ensures exists k :: IsFirstWidest(Gaps(m), k) && Gaps(m)[k] == Gap(maxGap, bestMid)
  {
    ghost var g := Gaps(m);
    ghost var lead := LeadingGaps(m);
    maxGap := -1.0;
    bestMid := 0.0;
    ghost var best := -1;
    if m[0].from > 0.0 {
      var gap := m[0].from - 0.0;
      var mid := gap * 0.5;
      GapAt(m, 0);
      if gap > maxGap {
        maxGap := gap;
        bestMid := mid;
        best := 0;
      }
    }
    var i := 0;
    while i < |m| - 1
      invariant 0 <= i <= |m| - 1
      invariant -1 <= best < |lead| + i
      invariant best == -1 ==> maxGap == -1.0
      invariant best >= 0 ==> g[best] == Gap(maxGap, bestMid)
      invariant forall j :: 0 <= j < |lead| + i ==> g[j].size <= maxGap
      invariant forall j :: 0 <= j < best ==> g[j].size < maxGap
    {
      var gap := m[i + 1].from - m[i].to;
      GapAt(m, |lead| + i);
      if gap > maxGap {
        maxGap := gap;
        bestMid := m[i].to + gap * 0.5;
        best := |lead| + i;
      }
      i := i + 1;
    }
    var lastGap := TwoPi - m[|m| - 1].to;
    GapAt(m, |g| - 1);
    if lastGap > maxGap {
      maxGap := lastGap;
      bestMid := m[|m| - 1].to + lastGap * 0.5;
      best := |g| - 1;
    }
    assert IsFirstWidest(g, best);
  }

  /** The scored gaps of a non-empty list of arcs, after sorting and merging. */
  function ArcGaps(arcs: seq<ArcState>): seq<Gap>
    requires arcs != []
  {
    SortedBlocksNonEmpty(arcs);
    Gaps(MergeAll(SortByFrom(Blocks(arcs))))
  }

  lemma SortedBlocksNonEmpty(arcs: seq<ArcState>)
    requires arcs != []
    ensures |SortByFrom(Blocks(arcs))| >= 1
    ensures |MergeAll(SortByFrom(Blocks(arcs)))| >= 1
  {
    BlocksInCircle(arcs);
    SortByFromCorrect(Blocks(arcs));
    var s := SortByFrom(Blocks(arcs));
    MergeFromNonEmpty(s[0], s[1..]);
  }

  /** The merged blocks of a non-empty list of arcs lie in the circle, in order and apart. */
  lemma MergedInCircle(arcs: seq<ArcState>)
    requires arcs != []
    ensures |SortByFrom(Blocks(arcs))| >= 1 && |MergeAll(SortByFrom(Blocks(arcs)))| >= 1
    ensures AllInCircle(MergeAll(SortByFrom(Blocks(arcs))))
    ensures Separated(MergeAll(SortByFrom(Blocks(arcs))))
  {
    var blocks := Blocks(arcs);
    BlocksInCircle(arcs);
    var sorted := SortByFrom(blocks);
    SortByFromCorrect(blocks);
    PermutationInCircle(blocks, sorted);
    forall i | 0 <= i < |sorted[1..]|
      ensures sorted[0].from <= sorted[1..][i].from
    {
      assert sorted[1..][i] == sorted[i + 1];
    }
    MergeFromShape(sorted[0], sorted[1..]);
  }

  /**
   * The angle `FindWidestGapMidAngle` answers, as a function: the point
   * opposite the player with no arcs, and otherwise the midpoint of the first
   * widest scored gap, or again the point opposite the player when that
   * midpoint is closer to the player than `minSepRad`.
   */
  ghost function WidestGapTarget(arcs: seq<ArcState>, playerAngleRad: real, minSepRad: real): (angle: real)
    ensures 0.0 <= angle < TwoPi
  {
    if arcs == [] then WrapRad(playerAngleRad + Pi)
    else
      SortedBlocksNonEmpty(arcs);
      var g := ArcGaps(arcs);
      FirstWidestExists(g);
      var k :| IsFirstWidest(g, k);
      if Abs(DeltaAngleRad(g[k].mid, playerAngleRad)) < minSepRad then WrapRad(playerAngleRad + Pi)
      else WrapRad(g[k].mid)
  }

  /** `WidestGapTarget` through any first widest gap, which is the only one. */
  lemma WidestGapTargetAt(arcs: seq<ArcState>, playerAngleRad: real, minSepRad: real, k: int)
    requires arcs != [] && IsFirstWidest(ArcGaps(arcs), k)
    ensures WidestGapTarget(arcs, playerAngleRad, minSepRad) ==
              (if Abs(DeltaAngleRad(ArcGaps(arcs)[k].mid, playerAngleRad)) < minSepRad
               then WrapRad(playerAngleRad + Pi) else WrapRad(ArcGaps(arcs)[k].mid))
  {
    var g := ArcGaps(arcs);
    forall k1, k2 | IsFirstWidest(g, k1) && IsFirstWidest(g, k2)
      ensures k1 == k2
    {
      FirstWidestUnique(g, k1, k2);
    }
  }

  /**
   * `FindWidestGapMidAngle`: with no arcs, the point opposite the player;
   * otherwise the midpoint of the first widest scored gap, unless that is
   * closer to the player than `minSepRad`, in which case again the point
   * opposite the player.  The answer is wrapped into [0, 2π).
   */
  method FindWidestGapMidAngle(arcs: seq<ArcState>, playerAngleRad: real, minSepRad: real) returns (angle: real)
    ensures 0.0 <= angle < TwoPi
    ensures arcs == [] ==> angle == WrapRad(playerAngleRad + Pi)
    ensures arcs != [] ==>
              exists k :: IsFirstWidest(ArcGaps(arcs), k) &&
                angle == (if Abs(DeltaAngleRad(ArcGaps(arcs)[k].mid, playerAngleRad)) < minSepRad
                          then WrapRad(playerAngleRad + Pi)
                          else WrapRad(ArcGaps(arcs)[k].mid))
    ensures angle == WidestGapTarget(arcs, playerAngleRad, minSepRad)
  {
    var blocks := CollectBlocks(arcs);
    if |blocks| == 0 {
      BlocksInCircle(arcs);
      return WrapRad(playerAngleRad + Pi);
    }
    var sorted := SortByFrom(blocks);
    var merged := MergeBlocks(sorted);
    MergedInCircle(arcs);
    var maxGap, bestMid := WidestGap(merged);
    ghost var g := ArcGaps(arcs);
    assert g == Gaps(merged);
    ghost var k :| IsFirstWidest(g, k) && g[k] == Gap(maxGap, bestMid);
    var sep := Abs(DeltaAngleRad(bestMid, playerAngleRad));
    if sep < minSepRad {
      bestMid := WrapRad(playerAngleRad + Pi);
      WrapRadIdempotent(playerAngleRad + Pi);
    }
    angle := WrapRad(bestMid);
    assert angle == (if Abs(DeltaAngleRad(g[k].mid, playerAngleRad)) < minSepRad
                     then WrapRad(playerAngleRad + Pi) else WrapRad(g[k].mid));
    WidestGapTargetAt(arcs, playerAngleRad, minSepRad, k);
  }
}
