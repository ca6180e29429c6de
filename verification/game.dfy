/**
 One game session and its single board-changing operation: revealing the tile
 at (row, col). A reveal refuses a tile that is already face up, marks the
 chosen tile TEMP_OPEN, scans the board once in row-major order (collecting
 the TEMP_OPEN tiles and hiding the CLOSING ones), and resolves the first two
 collected tiles as a match (+30, both OPEN) or a mismatch (-10, both CLOSING).
 Ending the session on a win belongs to the session store (module Sessions).
 */
module Game {
  import opened Tiles
  import opened Board
  import opened Construction

  /** Score gained by a matching pair. */
  const MatchReward: int := 30

  /** Score lost by a mismatching pair. */
  const MismatchPenalty: int := 10

  /** A game: its opaque token, board, completion flag and score. The start
      time and the expiry timer are not modelled. */
  datatype Session = Session(token: string, board: Cells, ended: bool, score: int)

  /** The failures a caller can observe. */
  datatype Error =
    | NotFound      // no stored session under the token
    | Conflict      // the tile is already OPEN or TEMP_OPEN
    | RangeError    // the coordinates are off the board
    | MissingToken  // ending a session whose token is not in the store

  datatype Result<T> = Ok(value: T) | Err(error: Error)

  /** What holds of the board of every live session between two reveals:
      sixteen tiles, pair-ids 0 .. 7 twice each, at most one TEMP_OPEN tile. */
  ghost predicate GoodBoard(b: Cells) {
    WellFormed(b) && PairsIntact(Ids(b)) && |Where(b, TempOpen)| <= 1
  }

  /** A new session: the constructor defaults, with the item list left empty
      so that the validator builds a fresh board (held here row-major). */
  function NewSession(token: string, draws: seq<int>): (g: Session)
    requires ValidDraws(draws, TileCount)
    ensures g.token == token && !g.ended && g.score == 0
    ensures GoodBoard(g.board)
    ensures All(g.board, DefaultStatus)
  {
    var b := Flatten(CreateItems([], draws));
    WhereSpec(b, TempOpen);
    SingleValue(Where(b, TempOpen), 0);
    Session(token, b, false, 0)
  }

  /** The turn's selection: the indices of the TEMP_OPEN tiles, in scan
      order, once the target `k` has been marked TEMP_OPEN. */
  function Pending(b: Cells, k: int): (w: seq<int>)
    requires 0 <= k < |b|
    ensures forall q :: q in w <==> 0 <= q < |b| && (q == k || b[q].status == TempOpen)
    ensures forall i :: 0 <= i < |w| ==> 0 <= w[i] < |b|
    ensures Increasing(w)
    ensures k in w
  {
    var m := SetStatus(b, k, TempOpen);
    WhereSpec(m, TempOpen);
    var w := Where(m, TempOpen);
    assert forall i :: 0 <= i < |w| ==> w[i] in w;
    w
  }

  /** The board after the mark-and-scan steps of a reveal, before resolution. */
  function Scanned(b: Cells, k: int): (r: Cells)
    requires 0 <= k < |b|
    ensures |r| == |b| && Ids(r) == Ids(b)
    ensures r[k].status == TempOpen
    ensures forall q :: 0 <= q < |b| && q != k ==> r[q] == Settle(b[q])
  {
    Sweep(SetStatus(b, k, TempOpen))
  }

  /** Reveal the tile at `p`. */
  function Turn(g: Session, p: Pos): (r: Result<Session>)
    requires WellFormed(g.board)
    ensures r.Err? <==> !Valid(p) || Visible(g.board[Index(p)].status)
    ensures r.Err? ==> r.error == (if Valid(p) then Conflict else RangeError)
    ensures r.Ok? ==>
              && r.value.token == g.token
              && r.value.ended == g.ended
              && WellFormed(r.value.board)
              && r.value.score - g.score in {0, MatchReward, -MismatchPenalty}
  {
    if !Valid(p) then Err(RangeError)
    else
      var k := Index(p);
      if Visible(g.board[k].status) then Err(Conflict)
      else
        var swept := Scanned(g.board, k);
        var selected := Pending(g.board, k);
        if |selected| < 2 then Ok(g.(board := swept))
        else
          var a, c := selected[0], selected[1];
          if swept[a].photoId == swept[c].photoId then
            Ok(g.(board := SetStatus(SetStatus(swept, a, Open), c, Open), score := g.score + MatchReward))
          else
            Ok(g.(board := SetStatus(SetStatus(swept, a, Closing), c, Closing), score := g.score - MismatchPenalty))
  }

  /** The tile a reveal of tile `k` leaves at index `q`, one index at a time:
      the target is marked, every other tile is settled, and the first two
      selected tiles (if there are two) are resolved together. */
  ghost function Expected(b: Cells, k: int, q: int): Tile
    requires 0 <= k < |b| && 0 <= q < |b|
  {
    var sel := Pending(b, k);
    var t := if q == k then b[k].(status := TempOpen) else Settle(b[q]);
    if |sel| >= 2 && (q == sel[0] || q == sel[1]) then
      t.(status := if b[sel[0]].photoId == b[sel[1]].photoId then Open else Closing)
    else t
  }

  /** A reveal of a tile that is not face up succeeds and changes the board
      exactly as `Expected` describes, tile by tile. */
  lemma TurnPointwise(g: Session, p: Pos)
    requires WellFormed(g.board) && Valid(p) && !Visible(g.board[Index(p)].status)
    ensures Turn(g, p).Ok?
    ensures forall q :: 0 <= q < TileCount ==> Turn(g, p).value.board[q] == Expected(g.board, Index(p), q)
  {
    var b, k := g.board, Index(p);
    var sel := Pending(b, k);
    var r := Turn(g, p).value.board;
    if |sel| >= 2 {
      assert sel[0] < sel[1];
    }
  }

  /** A reveal never changes a pair-id, so the row-major list of pair-ids is
      kept, and an OPEN tile stays OPEN. */
  lemma TurnChangesOnlyStatuses(g: Session, p: Pos)
    requires WellFormed(g.board) && Turn(g, p).Ok?
    ensures Ids(Turn(g, p).value.board) == Ids(g.board)
    ensures forall q :: 0 <= q < TileCount && g.board[q].status == Open ==> Turn(g, p).value.board[q].status == Open
  {
    TurnPointwise(g, p);
    var b, k := g.board, Index(p);
    var r := Turn(g, p).value.board;
    forall q | 0 <= q < TileCount
      ensures r[q].photoId == b[q].photoId
      ensures b[q].status == Open ==> r[q].status == Open
    {
      assert r[q] == Expected(b, k, q);
      if b[q].status == Open {
        assert q !in Pending(b, k);
      }
    }
  }

  /** The delayed close: every CLOSING tile other than the target is CLOSED
      after the reveal, and the target itself is never hidden by the sweep. */
  lemma TurnSweepsClosing(g: Session, p: Pos)
    requires WellFormed(g.board) && Turn(g, p).Ok?
    ensures Valid(p)
    ensures forall q :: 0 <= q < TileCount && q != Index(p) && g.board[q].status == Closing ==>
                          Turn(g, p).value.board[q].status == Closed
    ensures Turn(g, p).value.board[Index(p)].status in {TempOpen, Open, Closing}
  {
    TurnPointwise(g, p);
    var b, k := g.board, Index(p);
    var r := Turn(g, p).value.board;
    forall q | 0 <= q < TileCount && q != k && b[q].status == Closing
      ensures r[q].status == Closed
    {
      assert r[q] == Expected(b, k, q);
      assert q !in Pending(b, k);
    }
    assert r[k] == Expected(b, k, k);
  }

  /** The first pick of a turn: with fewer than two tiles selected the score
      is kept, the target is TEMP_OPEN, every other tile is only settled, no
      tile becomes OPEN and none is left CLOSING. */
  lemma TurnSinglePick(g: Session, p: Pos)
    requires WellFormed(g.board) && Valid(p) && !Visible(g.board[Index(p)].status)
    requires |Pending(g.board, Index(p))| < 2
    ensures Turn(g, p).Ok?
    ensures Turn(g, p).value.score == g.score
    ensures Turn(g, p).value.board[Index(p)].status == TempOpen
    ensures forall q :: 0 <= q < TileCount && q != Index(p) ==> Turn(g, p).value.board[q] == Settle(g.board[q])
    ensures forall q :: 0 <= q < TileCount ==>
                          (Turn(g, p).value.board[q].status == Open <==> g.board[q].status == Open)
    ensures forall q :: 0 <= q < TileCount ==> Turn(g, p).value.board[q].status != Closing
  {
    TurnPointwise(g, p);
    var b, k := g.board, Index(p);
    var r := Turn(g, p).value.board;
    forall q | 0 <= q < TileCount
      ensures r[q] == (if q == k then b[k].(status := TempOpen) else Settle(b[q]))
    {
      assert r[q] == Expected(b, k, q);
    }
  }

  /** A matching pair: when the first two selected tiles share a pair-id both
      become OPEN, the score rises by 30, and every other tile is only settled
      (or, for the target, marked). */
  lemma TurnMatch(g: Session, p: Pos)
    requires WellFormed(g.board) && Valid(p) && !Visible(g.board[Index(p)].status)
    requires |Pending(g.board, Index(p))| >= 2
    requires g.board[Pending(g.board, Index(p))[0]].photoId == g.board[Pending(g.board, Index(p))[1]].photoId
    ensures Turn(g, p).Ok?
    ensures Turn(g, p).value.score == g.score + MatchReward
    ensures Turn(g, p).value.board[Pending(g.board, Index(p))[0]].status == Open
    ensures Turn(g, p).value.board[Pending(g.board, Index(p))[1]].status == Open
    ensures forall q :: 0 <= q < TileCount && q != Pending(g.board, Index(p))[0] && q != Pending(g.board, Index(p))[1] ==>
                          Turn(g, p).value.board[q] ==
                            (if q == Index(p) then g.board[q].(status := TempOpen) else Settle(g.board[q]))
  {
    TurnPointwise(g, p);
    var b, k := g.board, Index(p);
    var sel := Pending(b, k);
    var r := Turn(g, p).value.board;
    assert r[sel[0]] == Expected(b, k, sel[0]);
    assert r[sel[1]] == Expected(b, k, sel[1]);
    forall q | 0 <= q < TileCount && q != sel[0] && q != sel[1]
      ensures r[q] == (if q == k then b[q].(status := TempOpen) else Settle(b[q]))
    {
      assert r[q] == Expected(b, k, q);
    }
  }

  /** A mismatching pair: when the first two selected tiles differ both
      become CLOSING, the score falls by 10, and every other tile is only
      settled (or, for the target, marked). */
  lemma TurnMismatch(g: Session, p: Pos)
    requires WellFormed(g.board) && Valid(p) && !Visible(g.board[Index(p)].status)
    requires |Pending(g.board, Index(p))| >= 2
    requires g.board[Pending(g.board, Index(p))[0]].photoId != g.board[Pending(g.board, Index(p))[1]].photoId
    ensures Turn(g, p).Ok?
    ensures Turn(g, p).value.score == g.score - MismatchPenalty
    ensures Turn(g, p).value.board[Pending(g.board, Index(p))[0]].status == Closing
    ensures Turn(g, p).value.board[Pending(g.board, Index(p))[1]].status == Closing
    ensures forall q :: 0 <= q < TileCount && q != Pending(g.board, Index(p))[0] && q != Pending(g.board, Index(p))[1] ==>
                          Turn(g, p).value.board[q] ==
                            (if q == Index(p) then g.board[q].(status := TempOpen) else Settle(g.board[q]))
  {
    TurnPointwise(g, p);
    var b, k := g.board, Index(p);
    var sel := Pending(b, k);
    var r := Turn(g, p).value.board;
    assert r[sel[0]] == Expected(b, k, sel[0]);
    assert r[sel[1]] == Expected(b, k, sel[1]);
    forall q | 0 <= q < TileCount && q != sel[0] && q != sel[1]
      ensures r[q] == (if q == k then b[q].(status := TempOpen) else Settle(b[q]))
    {
      assert r[q] == Expected(b, k, q);
    }
  }

  /** A tile becomes OPEN only by being selected: it was OPEN already, or
      TEMP_OPEN, or it is the tile being revealed. */
  lemma TurnOpensOnlySelected(g: Session, p: Pos)
    requires WellFormed(g.board) && Turn(g, p).Ok?
    ensures forall q :: 0 <= q < TileCount && Turn(g, p).value.board[q].status == Open ==>
                          q == Index(p) || g.board[q].status in {Open, TempOpen}
  {
    TurnPointwise(g, p);
    var b, k := g.board, Index(p);
    var r := Turn(g, p).value.board;
    forall q | 0 <= q < TileCount && r[q].status == Open
      ensures q == k || b[q].status in {Open, TempOpen}
    {
      assert r[q] == Expected(b, k, q);
    }
  }

  /** With at most one TEMP_OPEN tile before the call, a reveal selects at
      most two tiles, so nothing beyond the first two is ever left over. */
  lemma PendingAtMostTwo(b: Cells, k: int)
    requires 0 <= k < |b| && |Where(b, TempOpen)| <= 1
    ensures |Pending(b, k)| <= 2
  {
    var sel := Pending(b, k);
    WhereSpec(b, TempOpen);
    if |sel| > 2 {
      var y := if sel[0] == k then sel[1] else sel[0];
      var z := if sel[0] == k || sel[1] == k then sel[2] else sel[1];
      DistinctMembers(Where(b, TempOpen), y, z);
      assert false;
    }
  }

  /** Between calls a board holds at most one TEMP_OPEN tile and its pair-ids
      are 0 .. 7 twice each: a reveal keeps both. */
  lemma TurnKeepsGoodBoard(g: Session, p: Pos)
    requires GoodBoard(g.board) && Turn(g, p).Ok?
    ensures GoodBoard(Turn(g, p).value.board)
  {
    TurnChangesOnlyStatuses(g, p);
    TurnPointwise(g, p);
    var b, k := g.board, Index(p);
    var r := Turn(g, p).value.board;
    var sel := Pending(b, k);
    PendingAtMostTwo(b, k);
    WhereSpec(r, TempOpen);
    var w := Where(r, TempOpen);
    forall q | q in w
      ensures q == sel[0] && |sel| < 2
    {
      assert r[q] == Expected(b, k, q);
    }
    SingleValue(w, sel[0]);
  }

  /** The first pick of a turn, stated on the input: with no TEMP_OPEN tile on
      the board, revealing a hidden tile keeps the score and leaves it TEMP_OPEN. */
  lemma TurnFirstPick(g: Session, p: Pos)
    requires WellFormed(g.board) && Valid(p) && !Visible(g.board[Index(p)].status)
    requires Where(g.board, TempOpen) == []
    ensures Turn(g, p).Ok?
    ensures Turn(g, p).value.score == g.score
    ensures Turn(g, p).value.board[Index(p)].status == TempOpen
  {
    var sel := Pending(g.board, Index(p));
    WhereSpec(g.board, TempOpen);
    SingleValue(sel, Index(p));
    TurnSinglePick(g, p);
  }

  /** The second pick of a turn, stated on the input: with exactly one
      TEMP_OPEN tile `o` on the board, revealing a hidden tile resolves the
      pair (o, target): both OPEN and +30 when their pair-ids agree, otherwise
      both CLOSING and -10. */
  lemma TurnSecondPick(g: Session, p: Pos, o: int)
    requires WellFormed(g.board) && Valid(p) && !Visible(g.board[Index(p)].status)
    requires Where(g.board, TempOpen) == [o]
    ensures 0 <= o < TileCount
    ensures Turn(g, p).Ok?
    ensures g.board[o].photoId == g.board[Index(p)].photoId ==>
              && Turn(g, p).value.score == g.score + MatchReward
              && Turn(g, p).value.board[o].status == Open
              && Turn(g, p).value.board[Index(p)].status == Open
    ensures g.board[o].photoId != g.board[Index(p)].photoId ==>
              && Turn(g, p).value.score == g.score - MismatchPenalty
              && Turn(g, p).value.board[o].status == Closing
              && Turn(g, p).value.board[Index(p)].status == Closing
  {
    var k := Index(p);
    var sel := Pending(g.board, k);
    WhereSpec(g.board, TempOpen);
    assert o in Where(g.board, TempOpen);
    assert o != k && o in sel && k in sel;
    PendingAtMostTwo(g.board, k);
    assert (sel[0] == o && sel[1] == k) || (sel[0] == k && sel[1] == o);
    if g.board[sel[0]].photoId == g.board[sel[1]].photoId {
      TurnMatch(g, p);
    } else {
      TurnMismatch(g, p);
    }
  }

  /** The scan of a reveal as the nested loop it is: one row-major pass that
      collects the TEMP_OPEN tiles and turns every CLOSING tile CLOSED. It
      yields the sweep of the board and the row-major selection. */
  method Scan(b: Cells) returns (swept: Cells, selected: seq<int>)
    requires WellFormed(b)
    ensures swept == Sweep(b)
    ensures selected == Where(b, TempOpen)
  {
    swept := b;
    selected := [];
    var r := 0;
    while r < Size
      invariant 0 <= r <= Size
      invariant |swept| == |b|
      invariant forall q :: 0 <= q < |b| ==> swept[q] == (if q < 4 * r then Settle(b[q]) else b[q])
      invariant selected == WhereUpTo(b, TempOpen, 4 * r)
    {
      var c := 0;
      while c < Size
        invariant 0 <= c <= Size
        invariant |swept| == |b|
        invariant forall q :: 0 <= q < |b| ==> swept[q] == (if q < 4 * r + c then Settle(b[q]) else b[q])
        invariant selected == WhereUpTo(b, TempOpen, 4 * r + c)
      {
        var k := 4 * r + c;
        var t := swept[k];
        if t.status == TempOpen {
          selected := selected + [k];
        }
        if t.status == Closing {
          swept := SetStatus(swept, k, Closed);
        }
        c := c + 1;
      }
      r := r + 1;
    }
  }
}
