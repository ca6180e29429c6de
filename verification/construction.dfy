/**
 Building a fresh board: the pair-ids 0 .. 7 are listed twice, shuffled, and
 laid out row-major into four rows of four tiles in the default state.

 The shuffle is the Fisher-Yates procedure of Python's `random.shuffle`; the
 random numbers it draws are a parameter. Every permutation arises from some
 choice of draws (a standard fact about the procedure, not proved here), so the
 facts proved below hold for whatever shuffle the random source produces.
 */
module Construction {
  import opened Tiles
  import opened Board

  /** Number of distinct pictures; each appears on exactly two tiles. */
  const PairCount: int := 8

  /** Each of 0 .. PairCount - 1 occurs exactly twice, and nothing else occurs. */
  ghost predicate PairsIntact(ids: seq<int>) {
    forall v :: multiset(ids)[v] == (if 0 <= v < PairCount then 2 else 0)
  }

  /** The list 0, 1, .., n - 1. */
  function Range(n: nat): seq<int> {
    seq(n, i requires 0 <= i < n => i)
  }

  /** Every value of 0 .. n - 1 occurs once in `Range(n)`, and no other value occurs. */
  lemma {:induction false} RangeCounts(n: nat)
    ensures forall v :: multiset(Range(n))[v] == (if 0 <= v < n then 1 else 0)
  {
    if n > 0 {
      RangeCounts(n - 1);
      assert Range(n) == Range(n - 1) + [n - 1];
    }
  }

  /** The unshuffled pictures: 0 .. 7 followed by 0 .. 7. */
  function Photos(): (ps: seq<int>)
    ensures |ps| == TileCount
    ensures PairsIntact(ps)
  {
    RangeCounts(PairCount);
    Range(PairCount) + Range(PairCount)
  }

  /** Exchange the elements at `i` and `j`, as `x[i], x[j] = x[j], x[i]` does. */
  function Swap(xs: seq<int>, i: int, j: int): seq<int>
    requires 0 <= i < |xs| && 0 <= j < |xs|
  {
    xs[i := xs[j]][j := xs[i]]
  }

  /** The random numbers a Fisher-Yates shuffle of `n` elements draws: for
      i = n - 1 down to 1 (draw number k = n - 1 - i), one value in 0 .. i. */
  predicate ValidDraws(draws: seq<int>, n: nat) {
    && |draws| == (if n == 0 then 0 else n - 1)
    && forall k :: 0 <= k < |draws| ==> 0 <= draws[k] <= n - 1 - k
  }

  /** The shuffle from draw number `k` on. */
  function ShuffleFrom(xs: seq<int>, draws: seq<int>, k: int): (r: seq<int>)
    requires ValidDraws(draws, |xs|) && 0 <= k <= |draws|
    ensures |r| == |xs|
    ensures multiset(r) == multiset(xs)
    decreases |draws| - k
  {
    if k == |draws| then xs
    else
      var i := |xs| - 1 - k;
      var ys := Swap(xs, i, draws[k]);
      assert multiset(ys) == multiset(xs) by {
        assert ys == xs[i := xs[draws[k]]][draws[k] := xs[i]];
      }
      ShuffleFrom(ys, draws, k + 1)
  }

  /** The list rearranged as `random.shuffle` does with the given random draws. */
  function Shuffle(xs: seq<int>, draws: seq<int>): (r: seq<int>)
    requires ValidDraws(draws, |xs|)
    ensures |r| == |xs|
    ensures multiset(r) == multiset(xs)
  {
    ShuffleFrom(xs, draws, 0)
  }

  /** One row of fresh tiles showing the given pictures. */
  function RowOf(ps: seq<int>): seq<Tile> {
    seq(|ps|, j requires 0 <= j < |ps| => Tile(ps[j], DefaultStatus))
  }

  /** Sixteen pictures laid out row-major into fresh tiles: row i shows
      ps[4 i .. 4 i + 4], left to right. */
  function Layout(ps: seq<int>): (b: Cells)
    requires |ps| == TileCount
    ensures WellFormed(b)
    ensures forall i :: 0 <= i < Size ==> Rows(b)[i] == RowOf(ps[i * 4 .. (i + 1) * 4])
    ensures Ids(b) == ps
    ensures All(b, DefaultStatus)
  {
    var b := RowOf(ps);
    forall i | 0 <= i < Size
      ensures Rows(b)[i] == RowOf(ps[i * 4 .. (i + 1) * 4])
    {
      assert forall j :: 0 <= j < Size ==> Rows(b)[i][j] == b[Index(Pos(i, j))];
    }
    b
  }

  /** A fresh board: 4 x 4 tiles in the default state, whose pair-ids are
      0 .. 7 twice each, whatever the random draws were. */
  function Build(draws: seq<int>): (b: Cells)
    requires ValidDraws(draws, TileCount)
    ensures WellFormed(b)
    ensures All(b, DefaultStatus)
    ensures PairsIntact(Ids(b))
  {
    var ps := Shuffle(Photos(), draws);
    assert forall v :: multiset(ps)[v] == multiset(Photos())[v];
    Layout(ps)
  }

  /** The validator of the item list, a list of rows: a non-empty list given
      by the caller is kept as it is, an empty one is replaced by the four rows
      of a fresh board. */
  function CreateItems(v: seq<seq<Tile>>, draws: seq<int>): (g: seq<seq<Tile>>)
    requires ValidDraws(draws, TileCount)
    ensures |v| != 0 ==> g == v
    ensures |v| == 0 ==> |g| == Size && forall r :: 0 <= r < Size ==> |g[r]| == Size
    ensures |v| == 0 ==>
              var b := Flatten(g);
              WellFormed(b) && All(b, DefaultStatus) && PairsIntact(Ids(b))
  {
    if |v| != 0 then v
    else
      var b := Build(draws);
      FlattenRows(b);
      Rows(b)
  }
}
