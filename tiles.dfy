/** One line of the tile-merge puzzle: `slide` in mana-merge, which
    compacts the non-zero tiles toward the start of the line, merges equal
    neighbours in one left-to-right pass (each tile at most once), and pads
    the line back to the board width with zeros. */
module Tiles {

  /** `gridSize`: the board is GridSize by GridSize, and a slid line is
      padded back to this length. */
  const GridSize: nat := 4

  function Sum(s: seq<int>): int {
    if s == [] then 0 else s[0] + Sum(s[1..])
  }

  lemma {:induction false} SumAppend(a: seq<int>, b: seq<int>)
    ensures Sum(a + b) == Sum(a) + Sum(b)
  {
    if a == [] {
      assert a + b == b;
    } else {
      assert (a + b)[1..] == a[1..] + b;
      SumAppend(a[1..], b);
    }
  }


  /** The line written back to front (`Array.prototype.reverse`). */
  function Reverse(s: seq<int>): (r: seq<int>)
    ensures |r| == |s|
    ensures forall k :: 0 <= k < |s| ==> r[k] == s[|s| - 1 - k]
  {
    if s == [] then [] else Reverse(s[1..]) + [s[0]]
  }

  lemma ReverseReverse(s: seq<int>)
    ensures Reverse(Reverse(s)) == s
  {
  }

  lemma {:induction false} SumReverse(s: seq<int>)
    ensures Sum(Reverse(s)) == Sum(s)
  {
    if s != [] {
      SumReverse(s[1..]);
      SumAppend(Reverse(s[1..]), [s[0]]);
    }
  }

  // ---------------------------------------------------------------------
  // Compaction: `row.filter(val => val)`

  /** The non-zero tiles of a line, in their order. */
  function NonZero(s: seq<int>): (r: seq<int>)
    ensures |r| <= |s|
    ensures forall k :: 0 <= k < |r| ==> r[k] != 0
  {
    if s == [] then [] else (if s[0] != 0 then [s[0]] else []) + NonZero(s[1..])
  }

  lemma {:induction false} NonZeroAppend(a: seq<int>, b: seq<int>)
    ensures NonZero(a + b) == NonZero(a) + NonZero(b)
  {
    if a == [] {
      assert a + b == b;
    } else {
      assert (a + b)[1..] == a[1..] + b;
      NonZeroAppend(a[1..], b);
    }
  }

  /** Dropping the empty cells does not change the line's total. */
  lemma {:induction false} NonZeroSum(s: seq<int>)
    ensures Sum(NonZero(s)) == Sum(s)
  {
    if s != [] {
      NonZeroSum(s[1..]);
      SumAppend(if s[0] != 0 then [s[0]] else [], NonZero(s[1..]));
    }
  }

  /** Compaction removes something exactly when the line has an empty
      cell: it keeps every tile of a line without zeros and shortens any
      line that has one. */
  lemma {:induction false} NonZeroShortens(s: seq<int>)
    ensures (forall k :: 0 <= k < |s| ==> s[k] != 0) ==> NonZero(s) == s
    ensures (exists k :: 0 <= k < |s| && s[k] == 0) ==> |NonZero(s)| < |s|
  {
    if s != [] {
      NonZeroShortens(s[1..]);
      if s[0] != 0 {
        forall k | 0 <= k < |s[1..]| && s[1..][k] == 0
          ensures exists k' :: 0 <= k' < |s| && s[k'] == 0
        {
          assert s[k + 1] == 0;
        }
      }
    }
  }

  // ---------------------------------------------------------------------
  // Merging: the loop `if (arr[i] === arr[i+1]) { arr[i] *= 2; ... }`

  /** The merge pass on a compacted line, as a reference definition: the
      first two tiles combine when they are equal and the scan resumes
      after both of them; otherwise the first tile passes through. */
  function Merge(c: seq<int>): (r: seq<int>)
    ensures |r| <= |c|
    decreases |c|
  {
    if |c| < 2 then c
    else if c[0] == c[1] then [2 * c[0]] + Merge(c[2..])
    else [c[0]] + Merge(c[1..])
  }

  /** The score a merge pass earns: the value of every tile it creates. */
  function MergeGain(c: seq<int>): int
    decreases |c|
  {
    if |c| < 2 then 0
    else if c[0] == c[1] then 2 * c[0] + MergeGain(c[2..])
    else MergeGain(c[1..])
  }

  /** Merging non-zero tiles leaves no empty cell. */
  lemma {:induction false} MergeNonZero(c: seq<int>)
    requires forall k :: 0 <= k < |c| ==> c[k] != 0
    ensures forall k :: 0 <= k < |Merge(c)| ==> Merge(c)[k] != 0
    decreases |c|
  {
    if |c| >= 2 {
      if c[0] == c[1] { MergeNonZero(c[2..]); } else { MergeNonZero(c[1..]); }
    }
  }

  /** Merging conserves the line's total: two equal tiles v, v become 2v. */
  lemma {:induction false} MergeSum(c: seq<int>)
    ensures Sum(Merge(c)) == Sum(c)
    decreases |c|
  {
    if |c| >= 2 {
      if c[0] == c[1] {
        MergeSum(c[2..]);
        SumAppend([2 * c[0]], Merge(c[2..]));
        assert c == [c[0], c[1]] + c[2..];
        SumAppend([c[0], c[1]], c[2..]);
      } else {
        MergeSum(c[1..]);
        SumAppend([c[0]], Merge(c[1..]));
      }
    }
  }

  /** A merge pass that keeps the number of tiles merged nothing: the line
      comes out as it went in, and it earns nothing. */
  lemma {:induction false} MergeKeepsLength(c: seq<int>)
    requires |Merge(c)| == |c|
    ensures Merge(c) == c && MergeGain(c) == 0
    decreases |c|
  {
    if |c| >= 2 {
      if c[0] == c[1] {
        assert false;
      } else {
        MergeKeepsLength(c[1..]);
      }
    }
  }

  /** Every tile a pass produces is a tile of the input or twice one of
      them.  (That alone does not rule out a doubled tile merging again;
      MergePairing below does.) */
  lemma {:induction false} MergeOnce(c: seq<int>)
    ensures forall t :: t in Merge(c) ==> t in c || (t % 2 == 0 && t / 2 in c)
    decreases |c|
  {
    if |c| >= 2 {
      if c[0] == c[1] {
        MergeOnce(c[2..]);
        forall t | t in Merge(c) ensures t in c || (t % 2 == 0 && t / 2 in c) {
          if t in Merge(c[2..]) {
            assert forall u :: u in c[2..] ==> u in c;
          } else {
            assert t == 2 * c[0];
          }
        }
      } else {
        MergeOnce(c[1..]);
        assert forall u :: u in c[1..] ==> u in c;
      }
    }
  }

  /** q with d added to every entry. */
  function Shift(q: seq<int>, d: int): (r: seq<int>)
    ensures |r| == |q| && forall k :: 0 <= k < |q| ==> r[k] == q[k] + d
  {
    seq(|q|, k requires 0 <= k < |q| => q[k] + d)
  }

  /** Where each tile of a merge pass comes from: output tile k is made
      of the input cells from p[k] up to, but not including, p[k + 1]. */
  function MergeCuts(c: seq<int>): seq<int>
    decreases |c|
  {
    if |c| == 0 then [0]
    else if |c| == 1 then [0, 1]
    else if c[0] == c[1] then [0] + Shift(MergeCuts(c[2..]), 2)
    else [0] + Shift(MergeCuts(c[1..]), 1)
  }

  /** The cells c[a..b] form one piece of a merge pass that yields tile t:
      one cell passed through (not followed by an equal cell, since the
      scan merges the leftmost pair first), or two equal cells merged into
      their double. */
  predicate Piece(c: seq<int>, t: int, a: int, b: int) {
    && 0 <= a < b <= |c|
    && ((b == a + 1 && t == c[a] && (b == |c| || c[a] != c[b]))
        || (b == a + 2 && c[a] == c[a + 1] && t == 2 * c[a]))
  }

  /** p cuts c into consecutive pieces covering all of it, piece k
      yielding tile k of m. */
  predicate Cuts(c: seq<int>, m: seq<int>, p: seq<int>) {
    && |p| == |m| + 1 && p[0] == 0 && p[|m|] == |c|
    && forall k :: 0 <= k < |m| ==> Piece(c, m[k], p[k], p[k + 1])
  }

  /** A piece of c[n..] is a piece of c, n cells further on. */
  lemma PieceShift(c: seq<int>, n: nat, t: int, a: int, b: int)
    requires n <= |c| && Piece(c[n..], t, a, b)
    ensures Piece(c, t, a + n, b + n)
  {
    assert c[n..][a] == c[a + n];
    if b < |c| - n {
      assert c[n..][b] == c[b + n];
    }
    if b == a + 2 {
      assert c[n..][a + 1] == c[a + 1 + n];
    }
  }

  /** A first piece followed by a cut of the rest is a cut of the whole. */
  lemma CutsCons(c: seq<int>, n: nat, x: int, md: seq<int>, q: seq<int>)
    requires n <= |c| && Piece(c, x, 0, n) && Cuts(c[n..], md, q)
    ensures Cuts(c, [x] + md, [0] + Shift(q, n))
  {
    var m := [x] + md;
    var p := [0] + Shift(q, n);
    forall k | 0 <= k < |m|
      ensures Piece(c, m[k], p[k], p[k + 1])
    {
      if k > 0 {
        PieceShift(c, n, md[k - 1], q[k - 1], q[k]);
      }
    }
  }

  /** No tile takes part in two merges: the pass splits the line into
      consecutive pieces of one or two cells, a two-cell piece is an equal
      pair merged into one tile, and every other cell passes through.  So
      [2, 2, 4] gives [4, 4], never [8]. */
  lemma {:induction false} MergePairing(c: seq<int>)
    ensures Cuts(c, Merge(c), MergeCuts(c))
    decreases |c|
  {
    if |c| >= 2 {
      if c[0] == c[1] {
        MergePairing(c[2..]);
        CutsCons(c, 2, 2 * c[0], Merge(c[2..]), MergeCuts(c[2..]));
      } else {
        MergePairing(c[1..]);
        CutsCons(c, 1, c[0], Merge(c[1..]), MergeCuts(c[1..]));
      }
    }
  }

  /** n copies of v. */
  function Copies(n: nat, v: int): (r: seq<int>)
    ensures |r| == n && forall k :: 0 <= k < n ==> r[k] == v
  {
    if n == 0 then [] else [v] + Copies(n - 1, v)
  }

  /** A run of equal tiles merges pairwise from the start: n copies of v
      give n / 2 tiles of value 2v, then v once more when n is odd.  So four
      2s give two 4s, not one 8. */
  lemma {:induction false} MergePairs(k: nat, b: nat, v: int)
    requires b <= 1
    ensures Merge(Copies(2 * k + b, v)) == Copies(k, 2 * v) + Copies(b, v)
    ensures MergeGain(Copies(2 * k + b, v)) == k * (2 * v)
  {
    if k > 0 {
      var c := Copies(2 * k + b, v);
      MergePairs(k - 1, b, v);
      assert c[2..] == Copies(2 * (k - 1) + b, v);
      assert k * (2 * v) == (k - 1) * (2 * v) + 2 * v;
    }
  }

  lemma MergeRun(n: nat, v: int)
    ensures Merge(Copies(n, v)) == Copies(n / 2, 2 * v) + Copies(n % 2, v)
    ensures MergeGain(Copies(n, v)) == (n / 2) * (2 * v)
  {
    assert n == 2 * (n / 2) + n % 2;
    MergePairs(n / 2, n % 2, v);
  }

  lemma {:induction false} MergeGainNonNegative(c: seq<int>)
    requires forall k :: 0 <= k < |c| ==> c[k] >= 0
    ensures MergeGain(c) >= 0
    decreases |c|
  {
    if |c| >= 2 {
      if c[0] == c[1] { MergeGainNonNegative(c[2..]); } else { MergeGainNonNegative(c[1..]); }
    }
  }

  /** With positive tiles, a pass earns nothing exactly when no two
      neighbours are equal, and then it changes nothing. */
  lemma {:induction false} MergeGainZero(c: seq<int>)
    requires forall k :: 0 <= k < |c| ==> c[k] > 0
    ensures MergeGain(c) == 0 <==> forall k :: 0 <= k < |c| - 1 ==> c[k] != c[k + 1]
    ensures (forall k :: 0 <= k < |c| - 1 ==> c[k] != c[k + 1]) ==> Merge(c) == c
    decreases |c|
  {
    if |c| >= 2 {
      if c[0] == c[1] {
        MergeGainNonNegative(c[2..]);
      } else {
        MergeGainZero(c[1..]);
        assert forall k :: 1 <= k < |c| - 1 ==> (c[k] != c[k + 1] <==> c[1..][k - 1] != c[1..][k]);
      }
    }
  }

  // ---------------------------------------------------------------------
  // The whole slide: compact, merge, compact, pad

  /** k empty cells. */
  function Zeros(k: nat): (r: seq<int>)
    ensures |r| == k && forall j :: 0 <= j < k ==> r[j] == 0
  {
    if k == 0 then [] else Zeros(k - 1) + [0]
  }

  /** `while (arr.length < gridSize) arr.push(0)`. */
  function Pad(s: seq<int>, n: nat): (r: seq<int>)
    ensures |r| == (if |s| < n then n else |s|)
  {
    if |s| < n then s + Zeros(n - |s|) else s
  }

  /** Padding keeps the line as its prefix and adds only empty cells, so a
      line already n long or longer is left alone. */
  lemma PadSpec(s: seq<int>, n: nat)
    ensures Pad(s, n)[..|s|] == s
    ensures forall k :: |s| <= k < |Pad(s, n)| ==> Pad(s, n)[k] == 0
    ensures n <= |s| ==> Pad(s, n) == s
  {
  }

  /** What `slide(row)` returns. */
  function Slid(row: seq<int>): seq<int> {
    Pad(Merge(NonZero(row)), GridSize)
  }

  /** What `slide(row)` adds to `score`. */
  function SlideGain(row: seq<int>): int {
    MergeGain(NonZero(row))
  }

  /** The shape of a slid line: the merged tiles first, all of them
      non-zero and in order, then only zeros, and exactly GridSize cells
      when the input had at most that many. */
  lemma SlideShape(row: seq<int>)
    ensures var m := Merge(NonZero(row));
      && |Slid(row)| >= GridSize
      && (|row| <= GridSize ==> |Slid(row)| == GridSize)
      && Slid(row)[..|m|] == m
      && (forall k :: 0 <= k < |m| ==> Slid(row)[k] != 0)
      && (forall k :: |m| <= k < |Slid(row)| ==> Slid(row)[k] == 0)
      && NonZero(Slid(row)) == m
  {
    var c := NonZero(row);
    var m := Merge(c);
    MergeNonZero(c);
    var zeros := Zeros(if |m| < GridSize then GridSize - |m| else 0);
    assert Slid(row) == m + zeros;
    NonZeroAppend(m, zeros);
    NonZeroShortens(m);
    NonZeroOfZeros(|zeros|);
  }

  lemma {:induction false} NonZeroOfZeros(n: nat)
    ensures NonZero(Zeros(n)) == []
  {
    if n > 0 {
      NonZeroOfZeros(n - 1);
      NonZeroAppend(Zeros(n - 1), [0]);
    }
  }

  lemma {:induction false} SumZeros(n: nat)
    ensures Sum(Zeros(n)) == 0
  {
    if n > 0 {
      SumZeros(n - 1);
      SumAppend(Zeros(n - 1), [0]);
    }
  }

  /** Sliding conserves the line's total. */
  lemma SlideSum(row: seq<int>)
    ensures Sum(Slid(row)) == Sum(row)
  {
    var m := Merge(NonZero(row));
    NonZeroSum(row);
    MergeSum(NonZero(row));
    if |m| < GridSize {
      SumAppend(m, Zeros(GridSize - |m|));
      SumZeros(GridSize - |m|);
    }
  }

  /** A full-width line that sliding changes ends up with an empty cell:
      either two tiles merged or a tile moved into a gap. */
  lemma SlideLeavesRoom(row: seq<int>)
    requires |row| == GridSize && Slid(row) != row
    ensures exists k :: 0 <= k < GridSize && Slid(row)[k] == 0
  {
    var c := NonZero(row);
    var m := Merge(c);
    SlideShape(row);
    if |m| >= GridSize {
      assert |c| == GridSize;
      NonZeroShortens(row);
      assert c == row;
      MergeKeepsLength(c);
      assert false;
    }
    assert Slid(row)[GridSize - 1] == 0;
  }

  /** `[2,2,4,0]` slides to `[4,4,0,0]` and earns 4. */
  lemma SlideExampleMergeFirstPair()
    ensures Slid([2, 2, 4, 0]) == [4, 4, 0, 0] && SlideGain([2, 2, 4, 0]) == 4
  {
    var row := [2, 2, 4, 0];
    assert NonZero([0]) == [];
    assert NonZero([4, 0]) == [4] + NonZero([0]);
    assert NonZero([2, 4, 0]) == [2] + NonZero([4, 0]);
    assert NonZero(row) == [2] + NonZero([2, 4, 0]);
    var c := [2, 2, 4];
    assert c[2..] == [4];
    assert Merge(c) == [4] + Merge([4]);
    assert MergeGain(c) == 4 + MergeGain([4]);
    assert Zeros(2) == [0, 0];
  }

  /** `[2,0,2,2]` slides to `[4,2,0,0]` and earns 4: the scan has used the
      middle 2 by the time it reaches the last one. */
  lemma SlideExampleGapThenPair()
    ensures Slid([2, 0, 2, 2]) == [4, 2, 0, 0] && SlideGain([2, 0, 2, 2]) == 4
  {
    var row := [2, 0, 2, 2];
    assert NonZero([2]) == [2] + NonZero([]);
    assert NonZero([2, 2]) == [2] + NonZero([2]);
    assert NonZero([0, 2, 2]) == NonZero([2, 2]);
    assert NonZero(row) == [2] + NonZero([0, 2, 2]);
    var c := [2, 2, 2];
    assert c[2..] == [2];
    assert Merge(c) == [4] + Merge([2]);
    assert MergeGain(c) == 4 + MergeGain([2]);
    assert Zeros(2) == [0, 0];
  }

  /** Four equal tiles give two doubled tiles, not one quadrupled tile. */
  lemma SlideExampleFourEqual()
    ensures Slid([2, 2, 2, 2]) == [4, 4, 0, 0] && SlideGain([2, 2, 2, 2]) == 8
  {
    var row := [2, 2, 2, 2];
    assert row == Copies(4, 2);
    NonZeroShortens(row);
    MergeRun(4, 2);
    assert Copies(2, 4) == [4, 4];
    assert Copies(0, 2) == [];
    assert Merge(row) == [4, 4];
    assert Zeros(2) == [0, 0];
  }

  // ---------------------------------------------------------------------
  // Tile values: 0 or a power of two of at least 2

  predicate IsPow2(v: int)
    decreases if v > 0 then v else 0
  {
    v == 1 || (v > 1 && v % 2 == 0 && IsPow2(v / 2))
  }

  /** An empty cell, or a tile whose value is a power of two of at least 2. */
  predicate IsTile(v: int) {
    v == 0 || (v >= 2 && IsPow2(v))
  }

  predicate AllTiles(s: seq<int>) {
    forall k :: 0 <= k < |s| ==> IsTile(s[k])
  }

  lemma DoubleTile(v: int)
    requires v >= 2 && IsPow2(v)
    ensures IsTile(2 * v)
  {
    assert (2 * v) / 2 == v;
  }

  lemma {:induction false} NonZeroTiles(s: seq<int>)
    requires AllTiles(s)
    ensures AllTiles(NonZero(s))
  {
    if s != [] {
      NonZeroTiles(s[1..]);
    }
  }

  lemma {:induction false} MergeTiles(c: seq<int>)
    requires AllTiles(c)
    ensures AllTiles(Merge(c))
    decreases |c|
  {
    if |c| >= 2 {
      if c[0] == c[1] {
        MergeTiles(c[2..]);
        if c[0] != 0 { DoubleTile(c[0]); }
      } else {
        MergeTiles(c[1..]);
      }
    }
  }

  /** New tiles are only ever doubled equal tiles, so sliding keeps every
      cell empty or a power of two of at least 2, and earns a
      non-negative score. */
  lemma SlideKeepsTiles(row: seq<int>)
    requires AllTiles(row)
    ensures AllTiles(Slid(row))
    ensures SlideGain(row) >= 0
  {
    NonZeroTiles(row);
    MergeTiles(NonZero(row));
    MergeGainNonNegative(NonZero(row));
  }

  // ---------------------------------------------------------------------
  // Sliding toward the end of the line: reverse, slide, reverse

  /** A line slid toward its last cell (`slide(row.reverse()).reverse()`). */
  function SlidBack(line: seq<int>): seq<int> {
    Reverse(Slid(Reverse(line)))
  }

  /** The score a slide toward the last cell earns. */
  function SlideBackGain(line: seq<int>): int {
    SlideGain(Reverse(line))
  }

  /** Sliding toward the end is the mirror image of sliding toward the
      start: it conserves the total, keeps the tiles, keeps a full-width
      line full-width, and leaves an empty cell whenever it changes a
      full-width line. */
  lemma SlideBackProperties(line: seq<int>)
    ensures Sum(SlidBack(line)) == Sum(line)
    ensures |line| <= GridSize ==> |SlidBack(line)| == GridSize
    ensures AllTiles(line) ==> AllTiles(SlidBack(line)) && SlideBackGain(line) >= 0
    ensures |line| == GridSize && SlidBack(line) != line ==>
      exists k :: 0 <= k < GridSize && SlidBack(line)[k] == 0
  {
    var rev := Reverse(line);
    SumReverse(line);
    SlideSum(rev);
    SumReverse(Slid(rev));
    SlideShape(rev);
    if AllTiles(line) {
      SlideKeepsTiles(rev);
    }
    if |line| == GridSize && SlidBack(line) != line {
      ReverseReverse(line);
      assert Slid(rev) != rev;
      SlideLeavesRoom(rev);
      var k :| 0 <= k < GridSize && Slid(rev)[k] == 0;
      assert SlidBack(line)[GridSize - 1 - k] == 0;
    }
  }

  // ---------------------------------------------------------------------
  // The implementation

  lemma AppendAssoc(a: seq<int>, b: seq<int>, d: seq<int>)
    ensures (a + b) + d == a + (b + d)
  {
  }

  /** The merge pass at position i, seen from the array: `before` is what
      precedes position i, already merged, and `x` is what the pass leaves
      at position i. */
  ghost predicate MergedUpTo(before: seq<int>, c: seq<int>, rest: seq<int>, gained: int) {
    NonZero(before) + Merge(rest) == Merge(c) && gained + MergeGain(rest) == MergeGain(c)
  }

  /** Two equal tiles at positions i and i + 1 merge into position i. */
  lemma MergeStepPair(before: seq<int>, c: seq<int>, i: nat, gained: int)
    requires i + 1 < |c| && c[i] == c[i + 1] && c[i] != 0
    requires MergedUpTo(before, c, c[i..], gained)
    ensures MergedUpTo(before + [2 * c[i]], c, c[i + 2..], gained + 2 * c[i])
  {
    assert c[i..][2..] == c[i + 2..];
    NonZeroAppend(before, [2 * c[i]]);
    AppendAssoc(NonZero(before), [2 * c[i]], Merge(c[i + 2..]));
  }

  /** A tile unequal to its right neighbour stays where it is. */
  lemma MergeStepSingle(before: seq<int>, c: seq<int>, i: nat, gained: int)
    requires i + 1 < |c| && c[i] != c[i + 1] && c[i] != 0
    requires MergedUpTo(before, c, c[i..], gained)
    ensures MergedUpTo(before + [c[i]], c, c[i + 1..], gained)
  {
    assert c[i..][1..] == c[i + 1..];
    NonZeroAppend(before, [c[i]]);
    AppendAssoc(NonZero(before), [c[i]], Merge(c[i + 1..]));
  }

  /** The slot zeroed by the previous merge contributes nothing. */
  lemma MergeStepGap(before: seq<int>, c: seq<int>, rest: seq<int>, gained: int)
    requires MergedUpTo(before, c, rest, gained)
    ensures MergedUpTo(before + [0], c, rest, gained)
  {
    NonZeroAppend(before, [0]);
  }

  /** The last position: a lone tile or a zeroed slot ends the pass. */
  lemma MergeStepLast(before: seq<int>, c: seq<int>, rest: seq<int>, x: int, gained: int)
    requires MergedUpTo(before, c, rest, gained)
    requires (x == 0 && rest == []) || (x != 0 && rest == [x])
    ensures NonZero(before + [x]) == Merge(c) && gained == MergeGain(c)
  {
    NonZeroAppend(before, [x]);
  }

  /** What the merge pass still has to read: from position i on, or from
      i + 1 on once position i held the second tile of a merged pair. */
  function Rest(c: seq<int>, i: nat, consumed: bool): seq<int>
    requires i < |c| || (i == 0 && !consumed)
  {
    if consumed then c[i + 1..] else c[i..]
  }

  /** The state of the merge pass over the compacted line `c` before the
      comparison at position i: the array `a` agrees with `c` past i, holds
      0 at i if that tile was consumed and `c[i]` otherwise, and what lies
      before i together with the merge of the rest is the merge of `c`. */
  ghost predicate PassInv(a: seq<int>, c: seq<int>, i: nat, consumed: bool, gained: int) {
    && |a| == |c|
    && (forall k :: 0 <= k < |c| ==> c[k] != 0)
    && (if |c| == 0 then i == 0 && !consumed else i < |c|)
    && (|c| > 0 ==> a[i + 1..] == c[i + 1..] && a[i] == (if consumed then 0 else c[i]))
    && MergedUpTo(a[..i], c, Rest(c, i, consumed), gained)
  }

  /** The pair at i merges: position i doubles, position i + 1 is zeroed. */
  lemma PassPair(a: seq<int>, c: seq<int>, i: nat, consumed: bool, gained: int)
    requires PassInv(a, c, i, consumed, gained) && i + 1 < |a| && a[i] == a[i + 1]
    ensures PassInv(a[i := 2 * a[i]][i + 1 := 0], c, i + 1, true, gained + 2 * a[i])
  {
    assert !consumed;
    MergeStepPair(a[..i], c, i, gained);
    var a' := a[i := 2 * a[i]][i + 1 := 0];
    assert a'[..i + 1] == a[..i] + [2 * c[i]];
    assert a'[i + 2..] == c[i + 2..];
  }

  /** No merge at i: the position keeps what it holds. */
  lemma PassKeep(a: seq<int>, c: seq<int>, i: nat, consumed: bool, gained: int)
    requires PassInv(a, c, i, consumed, gained) && i + 1 < |a| && a[i] != a[i + 1]
    ensures PassInv(a, c, i + 1, false, gained)
  {
    if consumed {
      MergeStepGap(a[..i], c, Rest(c, i, consumed), gained);
    } else {
      MergeStepSingle(a[..i], c, i, gained);
    }
    assert a[..i + 1] == a[..i] + [a[i]];
    assert a[i + 2..] == a[i + 1..][1..];
  }

  /** The pass ends at the last position. */
  lemma PassEnd(a: seq<int>, c: seq<int>, i: nat, consumed: bool, gained: int)
    requires PassInv(a, c, i, consumed, gained) && i + 1 >= |a|
    ensures NonZero(a) == Merge(c) && gained == MergeGain(c)
  {
    if |c| > 0 {
      MergeStepLast(a[..i], c, Rest(c, i, consumed), a[i], gained);
      assert a == a[..i] + [a[i]];
    }
  }

  /** The merge loop of `slide` on the compacted array `arr`: each tile
      equal to its right neighbour doubles, adds its new value to the score
      and zeroes the neighbour, before the next comparison. */
  method MergePass(arr: array<int>) returns (gained: int)
    requires forall k :: 0 <= k < arr.Length ==> arr[k] != 0
    modifies arr
    ensures NonZero(arr[..]) == Merge(old(arr[..])) && gained == MergeGain(old(arr[..]))
  {
    ghost var c := arr[..];
    gained := 0;
    var i := 0;
    // consumed: arr[i] is the zeroed second half of the pair merged last
    ghost var consumed := false;
    assert arr[..0] == [];
    while i < arr.Length - 1
      invariant arr.Length == |c|
      invariant PassInv(arr[..], c, i, consumed, gained)
    {
      ghost var a := arr[..];
      if arr[i] == arr[i + 1] {
        PassPair(a, c, i, consumed, gained);
        arr[i] := arr[i] * 2;
        gained := gained + arr[i];
        arr[i + 1] := 0;
        assert arr[..] == a[i := 2 * a[i]][i + 1 := 0];
        consumed := true;
      } else {
        PassKeep(a, c, i, consumed, gained);
        consumed := false;
      }
      i := i + 1;
    }
    PassEnd(arr[..], c, i, consumed, gained);
  }

  /** `while (arr.length < gridSize) arr.push(0)`. */
  method PadLine(m: seq<int>) returns (r: seq<int>)
    ensures r == Pad(m, GridSize)
  {
    r := m;
    ghost var padding: nat := 0;
    while |r| < GridSize
      invariant r == m + Zeros(padding)
      invariant |m| < GridSize ==> |r| <= GridSize
      invariant |m| >= GridSize ==> padding == 0
      decreases GridSize - |r|
    {
      AppendAssoc(m, Zeros(padding), [0]);
      r := r + [0];
      padding := padding + 1;
    }
  }

  /** `slide(row)`: compact, merge in place, compact again, pad with empty
      cells.  What the source adds to the global `score` is returned as
      `gained`; the board adds it. */
  method Slide(row: seq<int>) returns (r: seq<int>, gained: int)
    ensures r == Slid(row) && gained == SlideGain(row)
  {
    var c := NonZero(row);
    var arr := new int[|c|](k requires 0 <= k < |c| => c[k]);
    assert arr[..] == c;
    gained := MergePass(arr);
    r := PadLine(NonZero(arr[..]));
  }
}
