/**
 The 4 x 4 board, the row-major scan that the reveal operation performs, and
 the row-major list of pair-ids.

 The board is held as its row-major list of sixteen tiles: the tile in row r,
 column c sits at index 4 r + c, and `Rows` gives back the list of four rows
 that the source keeps.
 */
module Board {
  import opened Tiles

  /** Number of rows, and of tiles per row. Index arithmetic below writes the
      literal 4 instead: a product of two variables is nonlinear arithmetic,
      which the solver handles poorly. */
  const Size: int := 4

  /** Number of tiles on a board. */
  const TileCount: int := 16

  /** The tiles of a board in row-major order. */
  type Cells = seq<Tile>

  predicate WellFormed(b: Cells) {
    |b| == TileCount
  }

  /** A (row, col) coordinate. */
  datatype Pos = Pos(row: int, col: int)

  predicate Valid(p: Pos) {
    0 <= p.row < Size && 0 <= p.col < Size
  }

  /** Where the tile at `p` sits in the row-major list. */
  function Index(p: Pos): (k: int)
    requires Valid(p)
    ensures 0 <= k < TileCount
  {
    4 * p.row + p.col
  }

  /** The board as the source holds it: four rows of four tiles, row r being
      the tiles at indices 4 r .. 4 r + 3. */
  function Rows(b: Cells): (g: seq<seq<Tile>>)
    requires WellFormed(b)
    ensures |g| == Size
    ensures forall r :: 0 <= r < Size ==> |g[r]| == Size
    ensures forall p :: Valid(p) ==> g[p.row][p.col] == b[Index(p)]
  {
    seq(Size, r requires 0 <= r < Size => b[4 * r .. 4 * r + 4])
  }

  /** The rows of a board laid end to end: the inverse of `Rows`. */
  function Flatten(g: seq<seq<Tile>>): Cells {
    if |g| == 0 then [] else g[0] + Flatten(g[1..])
  }

  /** Laying the four rows of a board end to end gives the board back. */
  lemma FlattenRows(b: Cells)
    requires WellFormed(b)
    ensures Flatten(Rows(b)) == b
  {
    var g := Rows(b);
    assert g[3..][1..] == [];
    assert g[2..][1..] == g[3..];
    assert g[1..][1..] == g[2..];
    assert Flatten(g[3..]) == b[12..16];
    assert Flatten(g[2..]) == b[8..16];
    assert Flatten(g[1..]) == b[4..16];
  }

  /** The board with every Closing tile turned Closed and every other tile
      kept: no tile is left Closing and every pair-id stays where it was. */
  function Sweep(b: Cells): (r: Cells)
    ensures |r| == |b|
    ensures forall k :: 0 <= k < |b| ==> r[k] == Settle(b[k])
    ensures forall k :: 0 <= k < |r| ==> r[k].status != Closing
    ensures Ids(r) == Ids(b)
  {
    var r := seq(|b|, k requires 0 <= k < |b| => Settle(b[k]));
    assert forall k :: 0 <= k < |b| ==> Ids(r)[k] == Ids(b)[k];
    r
  }

  /** Two boards whose tiles agree on having status `s` below `n` give the
      same partial scan for `s`. */
  lemma {:induction false} WhereUpToAgree(b: Cells, c: Cells, s: Status, n: int)
    requires 0 <= n <= |b| && n <= |c|
    requires forall k :: 0 <= k < n ==> (b[k].status == s <==> c[k].status == s)
    ensures WhereUpTo(b, s, n) == WhereUpTo(c, s, n)
  {
    if n > 0 {
      WhereUpToAgree(b, c, s, n - 1);
    }
  }

  /** Sweeping does not change which tiles are TempOpen, so collecting the
      TempOpen tiles and sweeping can share one pass: the selection made on
      the swept board is the selection made on the board before it. */
  lemma SweepKeepsSelection(b: Cells)
    ensures Where(Sweep(b), TempOpen) == Where(b, TempOpen)
  {
    WhereUpToAgree(Sweep(b), b, TempOpen, |b|);
  }

  /** The board with the status of tile `k` replaced by `s`. */
  function SetStatus(b: Cells, k: int, s: Status): Cells
    requires 0 <= k < |b|
  {
    b[k := b[k].(status := s)]
  }

  /** Every tile of the board has status `s`. */
  ghost predicate All(b: Cells, s: Status) {
    forall k :: 0 <= k < |b| ==> b[k].status == s
  }

  /** A list of indices in strictly increasing order (so without repetitions). */
  ghost predicate Increasing(w: seq<int>) {
    forall i, j :: 0 <= i < j < |w| ==> w[i] < w[j]
  }

  /** Indices below `n` whose tile has status `s`, in increasing order: the
      first `n` steps of a row-major scan. */
  function WhereUpTo(b: Cells, s: Status, n: int): seq<int>
    requires 0 <= n <= |b|
  {
    if n == 0 then [] else WhereUpTo(b, s, n - 1) + (if b[n - 1].status == s then [n - 1] else [])
  }

  /** The tiles of status `s`, in the order a row-major scan meets them:
      exactly the tiles of that status, each once, in increasing order. */
  function Where(b: Cells, s: Status): (w: seq<int>)
    ensures forall k :: k in w <==> 0 <= k < |b| && b[k].status == s
    ensures Increasing(w)
  {
    WhereUpToMembers(b, s, |b|);
    WhereUpToIncreasing(b, s, |b|);
    WhereUpTo(b, s, |b|)
  }

  /** The partial scan lists exactly the `s` tiles below `n`. */
  lemma {:induction false} WhereUpToMembers(b: Cells, s: Status, n: int)
    requires 0 <= n <= |b|
    ensures forall k :: k in WhereUpTo(b, s, n) <==> 0 <= k < n && b[k].status == s
  {
    if n > 0 {
      WhereUpToMembers(b, s, n - 1);
    }
  }

  /** The partial scan meets tiles in increasing order. */
  lemma {:induction false} WhereUpToIncreasing(b: Cells, s: Status, n: int)
    requires 0 <= n <= |b|
    ensures Increasing(WhereUpTo(b, s, n))
  {
    if n > 0 {
      WhereUpToIncreasing(b, s, n - 1);
      WhereUpToMembers(b, s, n - 1);
      var w0 := WhereUpTo(b, s, n - 1);
      if b[n - 1].status == s {
        var w := w0 + [n - 1];
        forall i, j | 0 <= i < j < |w|
          ensures w[i] < w[j]
        {
          assert w[i] == w0[i] && w0[i] in w0;
        }
      }
    }
  }

  /** The partial scan has at most `n` entries, and exactly `n` when every
      tile below `n` has status `s`. */
  lemma {:induction false} WhereUpToCount(b: Cells, s: Status, n: int)
    requires 0 <= n <= |b|
    ensures |WhereUpTo(b, s, n)| <= n
    ensures |WhereUpTo(b, s, n)| == n <==> forall k :: 0 <= k < n ==> b[k].status == s
  {
    if n > 0 {
      WhereUpToCount(b, s, n - 1);
    }
  }

  /** A scan for status `s` lists exactly the tiles of status `s`, each once,
      in row-major order; it lists every tile exactly when all tiles are `s`. */
  lemma WhereSpec(b: Cells, s: Status)
    ensures forall k :: k in Where(b, s) <==> 0 <= k < |b| && b[k].status == s
    ensures Increasing(Where(b, s))
    ensures |Where(b, s)| <= |b|
    ensures |Where(b, s)| == |b| <==> All(b, s)
  {
    WhereUpToCount(b, s, |b|);
  }

  /** Every entry of a list is one of its members. */
  lemma Member(w: seq<int>, i: int)
    requires 0 <= i < |w|
    ensures w[i] in w
  {
  }

  /** An increasing list whose members all equal `x` has at most one entry. */
  lemma SingleValue(w: seq<int>, x: int)
    requires Increasing(w)
    requires forall q :: q in w ==> q == x
    ensures |w| <= 1
  {
    if |w| >= 2 {
      Member(w, 0);
      Member(w, 1);
      assert false;
    }
  }

  /** A list holding two different values has at least two entries. */
  lemma DistinctMembers(w: seq<int>, x: int, y: int)
    requires x in w && y in w && x != y
    ensures |w| >= 2
  {
  }

  /** The pair-ids of the board, in row-major order. */
  function Ids(b: Cells): seq<int> {
    seq(|b|, k requires 0 <= k < |b| => b[k].photoId)
  }
}
