# Memory game engine — a Dafny model

This project models the game engine of the "memory" tile-matching game served by
`__main__.py`. It has three parts:

- **Board construction.** The validator `createItems` lists the pictures 0 .. 7
  twice, shuffles them with `random.shuffle` and lays them out row-major into four
  rows of four `Item`s. Each item starts in the field-default state.
- **The reveal state machine.** This is the body of `open_game_pic`:
  - refuse a tile that is OPEN or TEMP_OPEN (Conflict);
  - mark the target TEMP_OPEN;
  - run one row-major scan that collects the TEMP_OPEN tiles and turns every
    CLOSING tile CLOSED (the delayed close);
  - resolve the first two collected tiles as a match (both OPEN, +30) or a
    mismatch (both CLOSING, −10);
  - end the game once all sixteen tiles are OPEN.
- **The game registry.** This is the token → game map with `store`, the
  idempotent `end`, `get_game_by_token` (NotFound) and `create_game`.

Modules, one per file:

| file | module | what it holds |
|---|---|---|
| `tiles.dfy` | `Tiles` | `Status` (the `ImgStatus` enum), `Tile` (an `Item`), the default state, the sweep of one tile |
| `board.dfy` | `Board` | the 4 x 4 board, positions, the four-row view `Rows` and its inverse `Flatten`, the sweep, the row-major scan `Where` and its specification |
| `construction.dfy` | `Construction` | `Photos`, the Fisher-Yates `Shuffle`, `Layout`, `Build`, `CreateItems` |
| `game.dfy` | `Game` | the session record, errors, `Turn` (one reveal), the loop form `Scan`, and the lemmas about a turn |
| `store.dfy` | `Sessions` | the registry as `map<string, Session>`, `Put`, `Lookup`, `End`, `Create`, `OpenPic` and the lemmas about them |

Modelling choices:

- **Board layout.** The board is held as its row-major list of sixteen tiles. The
  tile at row r, column c is at index 4r + c. `Board.Rows` gives back the source's
  list of four rows, and `Construction.Layout` proves that row i shows
  `photos[4i .. 4i + 4]`.
- **The shuffle.** It is Python's Fisher-Yates procedure. The random numbers it
  draws are a parameter, so every fact about a fresh board holds whatever those
  numbers are.
- **Errors and sharing.** Errors are a `Result` value. A failed call returns no new
  state, so the caller keeps the board, score and registry it had. An in-place
  change of a shared game object becomes an explicit write-back into the map.
- **The expiry timer.** It is a call of `End` on a registered session at any moment
  between two operations (`Sessions.ExpiryAnyTime`).

Two behaviours of `__main__.py` worth noting:

- **Initial state.** A fresh item's default status is CLOSING (`__main__.py:36-37`).
  The first reveal's sweep turns these tiles CLOSED. CLOSING and CLOSED tiles
  behave the same when targeted, so nothing else depends on it.
- **Extra selected tiles.** The code resolves the first two TEMP_OPEN tiles the scan
  meets and ignores any others (`__main__.py:148-149`). The model does the same.
  It proves that, starting from at most one TEMP_OPEN tile, at most two are ever
  selected (`Game.PendingAtMostTwo`) and at most one is left afterwards
  (`Game.TurnKeepsGoodBoard`), so no tile is ever ignored.

## Model

| member | source | states |
|---|---|---|
| Tiles.Settle | __main__.py:142-143 | a CLOSING tile becomes CLOSED, any other tile is kept, and the picture never changes |
| Board.Index | __main__.py:126-130 | a valid (row, col) in 0 .. 3 addresses one of the sixteen tiles |
| Board.FlattenRows | __main__.py:44 | laying the four rows of a board end to end gives the board back, so the flat board and the source's list of rows hold the same tiles in the same order |
| Board.Rows | __main__.py:44 | the flat board seen as four rows of four, with `items[row][col]` the tile at index 4 row + col |
| Board.Where | __main__.py:138-141 | the scan for a status lists exactly the tiles of that status, in increasing row-major order, as `temp_opened` and `opened` collect them |
| Board.Sweep | __main__.py:142-143 | after the sweep no tile is CLOSING, each tile is its settled self, and the row-major pair-ids are unchanged |
| Board.SweepKeepsSelection | __main__.py:138-143 | turning CLOSING tiles CLOSED never changes which tiles are TEMP_OPEN, so collecting and sweeping in one pass selects what a scan of the unswept board selects |
| Board.WhereSpec | __main__.py:138-141 | the row-major scan for a status lists exactly the tiles of that status, each once, in increasing order; it lists all sixteen exactly when every tile has that status |
| Board.WhereUpToMembers | __main__.py:138-141 | after n steps the scan has collected exactly the matching tiles among the first n |
| Board.WhereUpToIncreasing | __main__.py:138-141 | the scan collects tiles in increasing row-major order |
| Board.WhereUpToCount | __main__.py:164-169 | the scan collects at most n tiles in n steps, and exactly n when every tile met matched (the test `len(opened) == 16`) |
| Construction.RangeCounts | __main__.py:53 | `range(n)` holds each of 0 .. n-1 once and nothing else |
| Construction.Photos | __main__.py:53 | `list(range(8)) * 2` has sixteen entries, each of 0 .. 7 exactly twice |
| Construction.ShuffleFrom | __main__.py:54 | the shuffle keeps the length and is a permutation (same multiset) |
| Construction.Shuffle | __main__.py:54 | `random.shuffle(photos)` keeps the length and the multiset of the photos, whatever the draws |
| Construction.Layout | __main__.py:56-58 | row i of the laid-out board is fresh items showing `photos[4i .. 4i+4]`; the row-major pair-ids are the photos; every item has the default status |
| Construction.Build | __main__.py:53-58 | a fresh board has sixteen tiles in the default state whose pair-ids are 0 .. 7 twice each, for any shuffle |
| Construction.CreateItems | __main__.py:49-58 | a list of rows with at least one row (even an empty row) is kept as given; an empty list becomes four rows of four fresh items whose pair-ids are 0 .. 7 twice each |
| Game.NewSession | __main__.py:42-58 | a new game has score 0, is not ended, and has the validator's fresh board: default states, pair-ids 0 .. 7 twice each, no TEMP_OPEN tile |
| Game.Pending | __main__.py:135-141 | the turn's selection is exactly the target plus the tiles already TEMP_OPEN, in increasing row-major order |
| Game.Scanned | __main__.py:135-143 | after marking and sweeping, the target is TEMP_OPEN, every other tile is settled, and no pair-id moves |
| Game.Turn | __main__.py:130-160 | a reveal fails exactly when the position is off the board (RangeError) or the tile is OPEN or TEMP_OPEN (Conflict); on success it keeps token and ended flag and changes the score by 0, +30 or −10 |
| Game.TurnPointwise | __main__.py:130-160 | tile by tile, the board after a reveal is the target marked, all others settled, and the first two selected tiles resolved together |
| Game.TurnChangesOnlyStatuses | __main__.py:130-160 | a reveal never changes a pair-id, and an OPEN tile stays OPEN |
| Game.TurnSweepsClosing | __main__.py:135-143 | every CLOSING tile other than the target is CLOSED after the reveal; the target is never hidden by the sweep |
| Game.TurnSinglePick | __main__.py:145-146 | with fewer than two selected: score kept, target TEMP_OPEN, all other tiles only settled, no tile newly OPEN and none left CLOSING |
| Game.TurnMatch | __main__.py:148-155 | when the first two selected share a pair-id: both OPEN, score +30, every other tile only settled or marked |
| Game.TurnMismatch | __main__.py:156-160 | when the first two selected differ: both CLOSING, score −10, every other tile only settled or marked |
| Game.TurnOpensOnlySelected | __main__.py:148-153 | a tile is OPEN after a reveal only if it was OPEN or TEMP_OPEN before, or is the target |
| Game.PendingAtMostTwo | __main__.py:145-149 | with at most one TEMP_OPEN tile before the call, at most two tiles are selected, so none is ignored |
| Game.TurnKeepsGoodBoard | __main__.py:130-160 | a reveal keeps sixteen tiles, keeps pair-ids 0 .. 7 twice each, and leaves at most one TEMP_OPEN tile |
| Game.TurnFirstPick | __main__.py:135-146 | with no TEMP_OPEN tile on the board, a reveal keeps the score and leaves the target TEMP_OPEN |
| Game.TurnSecondPick | __main__.py:135-160 | with exactly one TEMP_OPEN tile o, a reveal pairs o with the target: both OPEN and +30 on equal pair-ids, both CLOSING and −10 otherwise |
| Game.Scan | __main__.py:138-143 | the nested row/column loop yields the swept board and the row-major list of TEMP_OPEN tiles |
| Sessions.Put | __main__.py:66-67 | storing registers the game under its token and leaves every other entry as it was |
| Sessions.Lookup | __main__.py:107-113 | a lookup is NotFound exactly when the token is not registered, and otherwise yields the registered game |
| Sessions.End | __main__.py:69-73 | ending an ended game does nothing; ending a live one marks it ended and removes exactly its token, failing only if that token is not registered |
| Sessions.Create | __main__.py:92-96 | a created game is fresh, is found under its token, and no other token's lookup changes |
| Sessions.OpenPic | __main__.py:125-172 | an unknown token is NotFound; for a registered game the request fails with RangeError or Conflict exactly as the reveal does |
| Sessions.EndIdempotent | __main__.py:69-73 | a second end of the same game changes neither the registry nor the game |
| Sessions.EndEvicts | __main__.py:69-73 | after a live game ends its token is NotFound and every other lookup is unchanged |
| Sessions.ExpiryAnyTime | __main__.py:75-77 | the expiry of any registered game at any moment succeeds, removes exactly that game and keeps the registry invariant |
| Sessions.CreatePreserves | __main__.py:92-96 | creating a game keeps the registry invariant |
| Sessions.OpenPicEndsExactlyOnWin | __main__.py:162-172 | after a successful reveal the game is ended exactly when all sixteen tiles are OPEN; an ended game is removed, a live one replaces its old entry |
| Sessions.OpenPicPreservesInvariant | __main__.py:125-172 | a reveal keeps every registered game under its own token, live, with a good board |
| Sessions.WinIsMatch | __main__.py:148-170 | the reveal that ends a game is a match and raises the score by exactly 30 |

## Left out

- HTTP routing, the mapping of errors to status codes 404/409/422, CORS, the static
  file mount and the server start are transport code. The `Query` range check on
  row and col is modelled as the RangeError result of `Game.Turn`, checked after the
  token lookup as the dependency runs first.
- `threading.Timer`, `threading.Event` and the 65-second delay are not modelled. The
  timer's effect is a call of `End` at an arbitrary moment. The time itself
  (`started_at`, `time.time`) is left out.
- Concurrency is left out, as is any per-session locking. The source has no
  locking, and the model is sequential: a timer firing in the middle of a reveal is
  not modelled.
- `secrets.token_urlsafe` is not modelled. The token is an input of `Create`. A
  token that is already registered is overwritten, as the dictionary assignment
  does.
- `random.shuffle`'s random source is a parameter (the draws). Every permutation
  arises from some draws, but this is not proved.
- Pydantic validation and JSON serialisation are left out. Responses carry every
  tile's `photoId`, face-down or not; the model keeps every pair-id on the board.
- Sessions.End: when a live game's token is not registered, the source sets `ended`
  and fires the event before the dictionary `pop` raises KeyError. The model
  returns MissingToken and keeps the game unchanged. Under the registry invariant
  this case never occurs (`Sessions.ExpiryAnyTime`).
- Sessions.OpenPic: its failure cases are stated without the registry invariant.
  MissingToken can arise only when a stored game sits under a key other than its
  own token, and the contract excludes it exactly when the keys agree.
