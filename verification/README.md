# A verified model of the 5x5 capture game's rule engine

This project models the rule engine of a two-player game on a 5x5 grid, as
implemented by the `Character`, `Board` and `Game` classes of `game.py`.
Each side starts with five pieces: three pawns and two heroes.
A Pawn steps one square orthogonally.
Hero1 (`H1`) jumps two squares orthogonally.
Hero2 (`H2`) jumps two squares diagonally.
A side wins when the other side has no registered piece left.

The model is functional.
A `Board` is a 5x5 grid of name strings, with `""` meaning empty, plus a registry from names to pieces.
A `Game` is a board, the side to move and a game-over flag.
Every source method that mutates its object becomes a function that returns the new value.

- `wrappers.dfy`: the `Option` type.
- `pieces.dfy` (`Pieces`): coordinates, pieces and the three direction tables.
- `boards.dfy` (`Boards`): the grid and registry, with placement, lookup and removal.
  It also defines the invariants the board is measured against.
  `GridSound` means every occupied cell names a registered piece standing on that cell.
  `RegistryComplete` means every registered piece's cell shows its name.
- `movement.dfy` (`Movement`): the per-kind moves, the shared `update_position`, `Board.move_character`, `Board.is_valid_move` and `get_possible_moves`.
- `games.dfy` (`Games`): `Game.__init__`, `make_move`, `switch_turn`, `check_game_over` and `get_status`.
- `setup.dfy` (`Setup`): `place_initial_characters`, including the `split('-')` that derives each piece's type.
- `runs.dfy` (`Runs`): sequences of moves from the initial position, and concrete scenarios.

The model follows the code, not an idealised rule set:

- Friendliness compares the first character of the occupant's name with the mover's player.
  Names are therefore carried as strings.
- Pawn and Hero1 refuse a destination held by their own side.
  Hero2 has no occupancy check and lands on any in-bounds square.
- Hero1 and Hero2 remove the enemy they land on.
  A Pawn does not, so the enemy stays registered with a position the grid no longer shows.
- `get_possible_moves` really moves the piece for every direction it tries.
  It is modelled as a fold (`Movement.TryDirections`) that threads the board and the piece through the direction list.
  `Movement.LegalDirections` is a side-effect-free reference filter written for comparison.
  It is not a function of the source, and `Runs.LoneHero1ScanExample` shows a board where the two differ.
- `make_move` does not check whose turn it is and does not refuse moves once the game is over.
  After a successful move it flips the turn even when that move ended the game.
- Setup derives types by splitting names at `'-'`.
  Pawns therefore get types `P1`, `P2` and `P3`, which the movement dispatch does not recognise, so they never move.

The code has no pawn capture, no refusal of moves after game over, no switch for Hero2's friendly overwrite and no kill history; neither does the model.

About the board invariants:

- `GridSound` holds after every move of every kind (`Movement.MovePreservesSoundness`).
- `RegistryComplete` is what breaks, in exactly two ways (`Movement.MoveKeepsConsistentIff`):
  - a Pawn landing on an enemy;
  - a Hero2 landing on a friend.
- From the initial setup no pawn can move, so only the Hero2 break is reachable.
  `Runs.PlayableBreaksOnlyByHero2` proves this, and `Runs.Hero2CorruptsInitialBoard` shows a concrete two-move sequence.

## Model

| member | source | states |
|---|---|---|
| Pieces.Displacement | game.py:29-66 | a direction gives a displacement only for a recognised kind and a symbol that kind lists; a Pawn step is one orthogonal square, a Hero1 step two orthogonal squares, a Hero2 step two diagonal squares |
| Pieces.Directions | game.py:10-15 | a recognised kind lists four distinct direction symbols and an unrecognised kind lists none |
| Pieces.DisplacementDefinedIffListed | game.py:10-15 | the symbols the possible-moves scan tries for a kind are exactly the ones that kind's movement table accepts |
| Pieces.DisplacementNonZero | game.py:29-66 | no table entry leaves a piece where it was |
| Pieces.TablesCoverAllSteps | game.py:29-66 | every one-square orthogonal step is some Pawn symbol, every two-square orthogonal jump some Hero1 symbol, every two-square diagonal jump some Hero2 symbol |
| Boards.EmptyBoard | game.py:86-88 | a new board is 5x5, every cell empty, and no piece is registered |
| Boards.PlaceCharacter | game.py:90-93 | placing writes the name at the piece's position and registers the piece under its name; every other cell and registry entry is unchanged |
| Boards.GetCharacterByName | game.py:95-96 | the lookup succeeds exactly for registered names and then returns the registered piece |
| Boards.RemoveCharacter | game.py:111-115 | removing a registered name unregisters it and clears the cell its entry records, touching nothing else; an unknown name changes nothing |
| Boards.ConsistentOnePiecePerSquare | game.py:86-93 | on a consistent board two registered pieces never share a square |
| Boards.PlacePreservesConsistent | game.py:90-93 | placing a new, well-named piece on an empty square keeps the grid and registry consistent |
| Boards.GetAfterPlace | game.py:90-96 | after placing a piece, looking up its name returns it and every other lookup is as before |
| Boards.RemoveUndoesPlace | game.py:111-115 | removing a piece just placed on an empty square restores the board exactly |
| Boards.RemovePreservesConsistent | game.py:111-115 | removing any name keeps a consistent board consistent |
| Movement.CellSide | game.py:39 | on a well-named board the first letter of an occupied cell says whose piece it is: the cell is friendly (the own-side test of the Pawn and Hero1 moves) exactly when the piece is the mover's side's, hostile (the capture test of `update_position`, game.py:76) exactly when it is not, never both |
| Movement.UpdatePosition | game.py:75-82 | the destination holds the mover's name and its old cell is empty; a hostile occupant is unregistered exactly when capture is on; the mover's registry entry follows it to the destination |
| Movement.MovePawn | game.py:28-42 | a Pawn move succeeds exactly when the symbol is in the table, the target is on the board and not held by the own side; it never unregisters anything |
| Movement.MoveHero1 | game.py:44-58 | a Hero1 move succeeds under the same three conditions; it unregisters the occupant of the target, if any |
| Movement.MoveHero2 | game.py:60-73 | a Hero2 move succeeds exactly when the symbol is in the table and the target is on the board, whoever holds it; it unregisters a hostile occupant only |
| Movement.Move | game.py:18-26 | dispatch on the kind: an unknown kind, an unlisted symbol or an off-board target gives None; a success lands on the table's target inside the board, writes the mover there and clears its old cell |
| Movement.MoveFrame | game.py:79-80 | on a grid-sound board with the mover registered, a successful move changes no grid cell other than the mover's old cell and its target |
| Movement.MoveRegistryShape | game.py:75-82 | after a move the registry is the old one with the victim removed when the move kills, and the mover's entry at the target |
| Movement.VictimIsAnother | game.py:76-78 | on a grid-sound board the occupant of the target is another registered piece, recorded at the target |
| Movement.MovePreservesSoundness | game.py:75-82 | every successful move keeps the grid sound and the names well formed, and leaves the mover registered |
| Movement.CaptureRemovesExactlyOne | game.py:76-78 | a killing move unregisters exactly the enemy on the target, so the enemy roster shrinks by one and the mover's roster keeps its size |
| Movement.PawnLeavesVictimStale | game.py:39-41 | a Pawn landing on an enemy leaves the enemy registered, unchanged, at a square now showing the Pawn |
| Movement.Hero2OverwritesFriend | game.py:67-72 | a Hero2 landing on a friend leaves the friend registered at a square now showing the Hero2 |
| Movement.MoveKeepsConsistentIff | game.py:75-82 | a move keeps a consistent board consistent exactly when it is neither a Pawn landing on an enemy nor a Hero2 landing on a friend |
| Movement.TryDirections | game.py:16 | the scan keeps only directions it tried, in order; when no direction succeeds, board and piece are untouched |
| Movement.ScanReplays | game.py:16 | the directions a scan lists, applied one after another each from where the previous left the piece, all succeed and give exactly the scan's final board and piece |
| Movement.ScanAppend | game.py:16 | scanning two lists one after the other, the second from where the first left the piece, is scanning their concatenation |
| Movement.ScanListsExactlySuccesses | game.py:16 | over distinct directions, a direction is listed exactly when its move succeeds from the board and piece the scan of the earlier directions left |
| Movement.ScanTravel | game.py:16 | after the scan the piece stands at its start plus the sum of the displacements of the directions that succeeded |
| Movement.GetPossibleMoves | game.py:8-16 | the result lists, in table order, some of the kind's symbols; it is empty exactly when no symbol is legal from the start, and its first entry is the first symbol legal from the start; an unknown kind gets none; replaying the listed symbols as successive moves from the start succeeds and ends on exactly the board and piece the scan leaves, with the piece where the listed moves took it; a sound board stays sound with the piece registered; a symbol of the table is listed exactly when its move succeeds from the board and piece left by scanning the symbols before it |
| Movement.ScanFirstIsFirstLegal | game.py:16 | the first direction a scan lists is the first direction the reference filter finds legal from the start |
| Movement.ScanFirstDirection | game.py:16 | a first direction legal from the start is listed first; an illegal one leaves the scan equal to the scan of the rest |
| Movement.LegalDirections | game.py:16 | the side-effect-free reference filter keeps exactly the legal directions, in order |
| Movement.ScanEmptyIffNoneLegal | game.py:8-16 | the scan lists nothing exactly when no direction is legal from the start |
| Movement.ScanPreservesSoundness | game.py:8-16 | the scan's moves keep the grid sound and the mover registered |
| Movement.MoveCharacter | game.py:98-103 | the move succeeds exactly for a registered name whose move is legal, and then the board is the one that piece's move produces, showing that name on the target; a failure leaves the board as it was |
| Movement.MoveCharacterKeepsSoundness | game.py:98-103 | moving by name keeps a sound board sound; on success the piece is registered at the target, its old square is empty, and the registry loses at most the captured name |
| Movement.IsValidMove | game.py:105-109 | `is_valid_move` performs the same move as `move_character`, and returns the target on board exactly when the move succeeded |
| Games.NewGame | game.py:119-122 | a new match has an empty consistent board, side A to move and is not over |
| Games.SwitchTurn | game.py:138-139 | the turn becomes A or B and differs from a turn that was A or B; board and flag are unchanged |
| Games.SwitchTurnTwice | game.py:138-139 | switching twice restores a match whose turn is A or B |
| Games.RosterEmptyIffDead | game.py:142-143 | a side is alive exactly when its roster is non-empty |
| Games.CheckGameOver | game.py:141-150 | it reports B exactly when A's roster is empty, A exactly when only B's is empty, nothing when both are non-empty, and raises the flag exactly when it reports |
| Games.CheckGameOverIdempotent | game.py:141-150 | checking again changes neither the match nor the verdict |
| Games.MakeMove | game.py:128-136 | a move succeeds exactly for a registered name with a legal move; a failure changes nothing; a success returns the target, applies the board move, flips the turn and raises the flag exactly when a roster is empty |
| Games.MakeMoveIgnoresGameOver | game.py:128-136 | the game-over flag has no effect on whether or how a move is made |
| Games.GameOverIsSticky | game.py:141-150 | once raised, the game-over flag stays raised |
| Games.MakeMovePreservesSoundness | game.py:128-136 | every move attempt keeps the grid sound and the names well formed |
| Games.GetStatus | game.py:152-166 | side A's list holds the names of A's pieces, side B's the names of every other piece; kill lists are empty and the turn is echoed |
| Games.StatusPartitionsRegistry | game.py:156-160 | when keys are names, the two lists are disjoint and together list every registered name |
| Games.StatusListsAreRosters | game.py:156-160 | when every piece is A's or B's, the two lists are exactly the two rosters |
| Setup.Split | game.py:175 | splitting gives at least one part, no part contains the separator, and there are two or more parts exactly when the separator occurs |
| Setup.JoinSplit | game.py:175 | joining the parts of a split with the separator gives back the string |
| Setup.SplitJoin | game.py:175 | splitting the join of separator-free parts gives back the parts |
| Setup.TypeTagField | game.py:175 | the type read off a name is the whole dash-free field between its first dash and the next dash or the end |
| Setup.TagOfName | game.py:175 | the type of a name "side-tag" is the tag |
| Setup.InitialNamesHaveDash | game.py:123-126 | every name to place contains a dash |
| Setup.InitialPositions | game.py:169-172 | side A's five squares are row 0, side B's row 4, columns 0 to 4 in order |
| Setup.PiecesOf | game.py:173-177 | the i-th built piece has the i-th name and the side, stands on row 0 for side A and row 4 otherwise at column i, and for a name s-t with dash-free s and t has type t |
| Setup.SidePieces | game.py:173-177 | a side's five built pieces carry its names, its player and its squares in order |
| Setup.InitialPieces | game.py:173-177 | the ten built pieces are side A's five followed by side B's five, all on the board |
| Setup.PlaceAll | game.py:173-178 | placing a list keeps every old name and registers exactly the old names plus the list's names |
| Setup.PlaceAllConsistent | game.py:173-178 | placing well-named pieces on distinct empty squares keeps the board consistent and registers each piece as built |
| Setup.PlaceInitialCharacters | game.py:168-178 | initial placement keeps the board valid and leaves the turn and the flag alone |
| Setup.SideTagAt | game.py:175 | the j-th name of either side has type P1, P2, P3, H1, H2 in that order |
| Setup.SideValue | game.py:168-177 | side A's built pieces are A-P1, A-P2, A-P3 (types P1 to P3), A-H1 (H1) and A-H2 (H2) on row 0; side B's are the B-named pieces of the same types on row 4 |
| Setup.InitialPiecesValue | game.py:168-177 | the full list of ten built pieces, literally |
| Setup.NewGameIsFresh | game.py:119-122 | a new match is fresh: empty grid, empty registry, A to move, not over |
| Setup.SideNameAt | game.py:123-126 | the j-th name to place for either side is that side, a dash and the j-th setup type, so it starts with its side |
| Setup.SetupTagsDistinct | game.py:123-126 | the five setup types are dash-free and pairwise distinct |
| Setup.SideKindAt | game.py:175 | the j-th piece of either side gets the j-th setup type |
| Setup.InitialPieceAt | game.py:168-177 | the i-th built piece's name is its side, a dash and its type; its type, square and side are the setup's, and its name starts with its side |
| Setup.InitialPiecesPlaceable | game.py:168-178 | the built pieces can be placed on an empty board without clashing in name or square |
| Setup.PlacementGivesInitialBoard | game.py:168-178 | placement on a fresh match gives a consistent board registering exactly the ten built pieces, with A to move |
| Setup.PlacementConsistent | game.py:168-178 | placement on a fresh match gives a consistent board |
| Setup.PlacementRegisters | game.py:168-178 | placement on a fresh match registers every built piece as built |
| Setup.BothSidesAlive | game.py:142-143 | a board holding the built pieces has both sides alive |
| Setup.InitialRegistry | game.py:168-178 | on the initial board every piece has a setup type, side A stands on row 0 and every other piece is B's on row 4 |
| Setup.InitialHomeRows | game.py:169-178 | on the initial board rows 0 and 4 show the built names in order |
| Setup.InitialMiddleRowsEmpty | game.py:168-178 | on the initial board rows 1 to 3 are empty |
| Setup.InitialNamesLiteral | game.py:123-126 | the built names are A-P1 to A-H2 followed by B-P1 to B-H2 |
| Setup.InitialRosterA | game.py:124 | side A's initial roster is its five names |
| Setup.InitialRosterB | game.py:125 | side B's initial roster is its five names |
| Setup.InitialStatus | game.py:152-166 | the status of the initial board lists A's five names and B's five names, empty kill lists and the turn |
| Setup.InitialGameState | game.py:168-178 | a fresh match after placement is on the initial board, A to move, not over, and not decided |
| Runs.Run | game.py:128-136 | a sequence of move requests keeps the board valid, never lowers the game-over flag, and the empty sequence changes nothing |
| Runs.RunAppend | game.py:128-136 | running two sequences one after the other is running their concatenation |
| Runs.InitialIsPlayable | game.py:168-178 | the initial board is playable: valid, well named, grid-sound, with only setup types |
| Runs.MakeMoveKeepsPlayable | game.py:128-136 | any move attempt keeps a playable board playable |
| Runs.RunKeepsPlayable | game.py:128-136 | any sequence of move attempts keeps a playable board playable |
| Runs.OnlyHeroesMove | game.py:18-26 | on a playable board no piece has the Pawn type, only heroes can move, and a P1/P2/P3 piece's move changes nothing |
| Runs.PlayableBreaksOnlyByHero2 | game.py:60-73 | on a playable consistent board a move breaks consistency exactly when a Hero2 lands on a friend |
| Runs.RunFromSetupIsPlayable | game.py:168-178 | every board reached from the initial one by move requests is playable |
| Runs.LastCaptureEndsGame | game.py:128-150 | capturing the last piece of a side succeeds, ends the game and still flips the turn |
| Runs.Hero2CorruptsInitialBoard | game.py:60-73 | from the initial board, A-H2 moving BL then FL lands on A-P1's square, leaving A-P1 registered there and the board inconsistent |
| Runs.QuietMove | game.py:79-80 | a move onto an empty square changes no other cell than the old and the new |
| Runs.ScanMovesBetweenAttempts | game.py:8-16 | a Hero1 at (0,4) with (0,2) and (2,4) free lists L, R and B, since R is tried from (0,2) after L |
| Runs.LegalFromCorner | game.py:44-58 | from (0,4) only L and B are legal for that Hero1 |
| Runs.LoneHero1ScanExample | game.py:8-16 | for a lone Hero1 at (0,4) the scan lists L, R and B while the reference filter lists only L and B |

## Left out

- `main.py` is not part of this model. It is the web transport: serving pages, the websocket loop, JSON messages and printing. It also does its own placement, deriving types as the name's third character, and passes the direction as a tuple.
- The order of names in the status lists follows Python's dict insertion order. The lists are modelled as sets.
- Object identity: the source's registry and the moving piece are the same object. The model writes the moved piece back into the registry when its name is still registered, which gives the same observable result.
- Mutation: every mutating method returns the new board or match. The caller is expected to keep the returned value.
- Setup.TypeTag: requires a `'-'` in the name. The source's `split('-')[1]` raises an error otherwise, and every name it is given contains one.
- Movement.IsValidMove: returns None where the source returns `False` for an unknown name. Both are falsy, and the model does not distinguish them.
- Negative indices: Python would wrap a negative grid index. The model's `Valid` keeps every registered piece on the board, and moves are bounds-checked before indexing, so no negative index arises.
- Setup.PlaceInitialCharacters: states its full result (`Setup.PlacementGivesInitialBoard`) only for a fresh match. On a board that already holds pieces it only promises validity, because the source then overwrites without checks.
- Games.SwitchTurn: for a turn other than A or B it only promises a turn of A or B, where the source gives A. No match ever holds such a turn.
