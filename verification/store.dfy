/**
 The registry of live games, keyed by token, and the three operations that
 use it: creating a game, looking one up, and revealing a tile of a stored
 game (which ends the game once every tile is OPEN).

 The registry is a map from token to session. A game object in the source is
 shared between the registry and its caller, so an in-place change of the
 game is a change of its registry entry; here the changed session is written
 back explicitly. The expiry timer of a game is a call of `End` on its
 session, which may come at any moment between two operations.
 */
module Sessions {
  import opened Tiles
  import opened Board
  import opened Construction
  import opened Game

  /** Live games by token. */
  type Store = map<string, Session>

  /** What holds of the registry between two operations: each entry sits
      under its own token, is not ended, and has a good board. */
  ghost predicate Invariant(st: Store) {
    forall t :: t in st ==> st[t].token == t && !st[t].ended && GoodBoard(st[t].board)
  }

  /** Register `g` under its token, replacing any entry already there. */
  function Put(st: Store, g: Session): (st': Store)
    ensures g.token in st' && st'[g.token] == g
    ensures forall t :: t != g.token ==> (t in st' <==> t in st)
    ensures forall t :: t != g.token && t in st ==> st'[t] == st[t]
  {
    st[g.token := g]
  }

  /** Find the game of a token; an unknown token is NotFound. */
  function Lookup(st: Store, token: string): (r: Result<Session>)
    ensures r.Err? <==> token !in st
    ensures r.Err? ==> r.error == NotFound
    ensures r.Ok? ==> r.value == st[token]
  {
    if token in st then Ok(st[token]) else Err(NotFound)
  }

  /** End a game: a game already ended is left alone; otherwise it is marked
      ended and removed from the registry, which fails when its token is not
      registered. */
  function End(st: Store, g: Session): (r: Result<(Store, Session)>)
    ensures g.ended ==> r == Ok((st, g))
    ensures !g.ended ==> (r.Err? <==> g.token !in st)
    ensures r.Err? ==> r.error == MissingToken
    ensures r.Ok? ==> r.value.1.ended && r.value.1 == g.(ended := true)
    ensures r.Ok? && !g.ended ==> g.token !in r.value.0 && r.value.0 == st - {g.token}
  {
    if g.ended then Ok((st, g))
    else if g.token !in st then Err(MissingToken)
    else Ok((st - {g.token}, g.(ended := true)))
  }

  /** Create a game under `token` (a fresh random string in the source) with
      the board the random draws give, and register it. */
  function Create(st: Store, token: string, draws: seq<int>): (r: (Store, Session))
    requires ValidDraws(draws, TileCount)
    ensures r.1.token == token && !r.1.ended && r.1.score == 0
    ensures GoodBoard(r.1.board) && All(r.1.board, DefaultStatus)
    ensures Lookup(r.0, token) == Ok(r.1)
    ensures forall t :: t != token ==> Lookup(r.0, t) == Lookup(st, t)
  {
    var g := NewSession(token, draws);
    (Put(st, g), g)
  }

  /** The reveal request: find the game, reveal the tile at `p`, write the
      changed game back, and end the game when all sixteen tiles are OPEN. */
  function OpenPic(st: Store, token: string, p: Pos): (r: Result<(Store, Session)>)
    requires token in st ==> WellFormed(st[token].board)
    ensures token !in st ==> r == Err(NotFound)
    ensures token in st ==>
              (r.Err? && r.error != MissingToken <==> !Valid(p) || Visible(st[token].board[Index(p)].status))
    ensures token in st && r.Err? && r.error != MissingToken ==>
              r.error == (if Valid(p) then Conflict else RangeError)
    ensures token in st && st[token].token == token ==> !(r.Err? && r.error == MissingToken)
  {
    match Lookup(st, token)
    case Err(e) => Err(e)
    case Ok(g) =>
      match Turn(g, p)
      case Err(e) => Err(e)
      case Ok(g') =>
        var st' := st[token := g'];
        if |Where(g'.board, Open)| == TileCount then End(st', g')
        else Ok((st', g'))
  }

  /** A second `End` of the same game does nothing: the expiry timer firing
      after a win, or twice, is harmless. */
  lemma EndIdempotent(st: Store, g: Session)
    requires End(st, g).Ok?
    ensures End(End(st, g).value.0, End(st, g).value.1) == End(st, g)
  {
  }

  /** After a game ends it can no longer be found, and every other game is
      found exactly as before. */
  lemma EndEvicts(st: Store, g: Session)
    requires !g.ended && g.token in st
    ensures End(st, g).Ok?
    ensures Lookup(End(st, g).value.0, g.token) == Err(NotFound)
    ensures forall t :: t != g.token ==> Lookup(End(st, g).value.0, t) == Lookup(st, t)
  {
  }

  /** The expiry of any registered game, at any moment between operations,
      succeeds, removes exactly that game and keeps the invariant. */
  lemma ExpiryAnyTime(st: Store, token: string)
    requires Invariant(st) && token in st
    ensures End(st, st[token]).Ok?
    ensures End(st, st[token]).value.0 == st - {token}
    ensures Invariant(End(st, st[token]).value.0)
  {
  }

  /** Creating a game keeps the invariant. */
  lemma CreatePreserves(st: Store, token: string, draws: seq<int>)
    requires Invariant(st) && ValidDraws(draws, TileCount)
    ensures Invariant(Create(st, token, draws).0)
  {
  }

  /** A successful reveal on a registered game: the game it returns is the
      one-turn successor of the stored game, ended exactly when all sixteen
      tiles are OPEN; an ended game is gone from the registry, a live one is
      stored in place of the old one, and every other game is untouched. */
  lemma OpenPicEndsExactlyOnWin(st: Store, token: string, p: Pos)
    requires Invariant(st) && OpenPic(st, token, p).Ok?
    ensures token in st && Turn(st[token], p).Ok?
    ensures OpenPic(st, token, p).value.1 ==
              Turn(st[token], p).value.(ended := All(Turn(st[token], p).value.board, Open))
    ensures OpenPic(st, token, p).value.1.ended ==> OpenPic(st, token, p).value.0 == st - {token}
    ensures !OpenPic(st, token, p).value.1.ended ==>
              OpenPic(st, token, p).value.0 == st[token := OpenPic(st, token, p).value.1]
  {
    var g := st[token];
    var g' := Turn(g, p).value;
    WhereSpec(g'.board, Open);
    TurnSweepsClosing(g, p);
  }

  /** A reveal keeps the invariant of the registry. */
  lemma OpenPicPreservesInvariant(st: Store, token: string, p: Pos)
    requires Invariant(st) && OpenPic(st, token, p).Ok?
    ensures Invariant(OpenPic(st, token, p).value.0)
  {
    OpenPicEndsExactlyOnWin(st, token, p);
    TurnKeepsGoodBoard(st[token], p);
  }

  /** A game is won only by a matching pair: the reveal that ends it raises
      the score by 30. */
  lemma WinIsMatch(st: Store, token: string, p: Pos)
    requires Invariant(st) && OpenPic(st, token, p).Ok? && OpenPic(st, token, p).value.1.ended
    ensures token in st
    ensures OpenPic(st, token, p).value.1.score == st[token].score + MatchReward
  {
    OpenPicEndsExactlyOnWin(st, token, p);
    var g := st[token];
    var b, k := g.board, Index(p);
    var sel := Pending(b, k);
    if |sel| < 2 {
      TurnSinglePick(g, p);
    } else if b[sel[0]].photoId != b[sel[1]].photoId {
      TurnMismatch(g, p);
    } else {
      TurnMatch(g, p);
    }
  }
}
