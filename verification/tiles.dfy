/**
 A tile of the memory board: the picture it carries (its pair-id) and its
 visibility state.
 */
module Tiles {

  /** The four visibility states of a tile.
      - Closed:   face down.
      - TempOpen: picked during the current turn, not yet resolved.
      - Open:     matched, stays face up for the rest of the game.
      - Closing:  shown after a mismatch; hidden again by the next reveal. */
  datatype Status = Closed | TempOpen | Open | Closing

  /** A freshly created tile is in this state (the field default of an item). */
  const DefaultStatus: Status := Closing

  /** One cell of the board. Two tiles of a board share each `photoId`. */
  datatype Tile = Tile(photoId: int, status: Status)

  /** A reveal aimed at a tile in one of these states is refused. */
  predicate Visible(s: Status) {
    s == Open || s == TempOpen
  }

  /** The delayed close: the scan of every reveal hides a Closing tile and
      leaves every other tile as it is; the picture never changes. */
  function Settle(t: Tile): (r: Tile)
    ensures r.photoId == t.photoId
    ensures t.status == Closing ==> r.status == Closed
    ensures t.status != Closing ==> r == t
  {
    if t.status == Closing then t.(status := Closed) else t
  }
}
