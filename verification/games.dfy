/**
 * Games: the source's `Game` class. A match is a board, the side to move
 * and a sticky game-over flag; every operation returns the new match.
 */
module Games {
  import opened Wrappers
  import opened Pieces
  import opened Boards
  import opened Movement

  datatype Game = Game(board: Board, turn: string, gameOver: bool)

  /** `Game.__init__`: an empty board, side A to move, not over. */
  function NewGame(): (g: Game)
    ensures Valid(g.board) && Consistent(g.board)
    ensures g.board.characters == map[]
    ensures g.turn == "A" && !g.gameOver
  {
    Game(EmptyBoard(), "A", false)
  }

  /** Hands the turn over: "A" becomes "B", anything else becomes "A". */
  function SwitchTurn(g: Game): (g': Game)
    ensures g'.board == g.board && g'.gameOver == g.gameOver
    ensures g'.turn == "A" || g'.turn == "B"
    ensures g'.turn != g.turn <== (g.turn == "A" || g.turn == "B")
  {
    g.(turn := if g.turn == "A" then "B" else "A")
  }

  /** Switching twice gives the turn back, for either of the two sides. */
  lemma SwitchTurnTwice(g: Game)
    requires g.turn == "A" || g.turn == "B"
    ensures SwitchTurn(SwitchTurn(g)) == g
  {
  }

  /** Whether some registered piece belongs to `side`. */
  predicate Alive(b: Board, side: string) {
    exists k :: k in b.characters && b.characters[k].player == side
  }

  /**
   * Reports "B" when side A has no registered piece, otherwise "A" when
   * side B has none, otherwise None; it only ever raises the flag.
   */
  function CheckGameOver(g: Game): (r: (Game, Option<string>))
    ensures r.0.board == g.board && r.0.turn == g.turn
    ensures r.1 == Some("B") <==> Roster(g.board, "A") == {}
    ensures r.1 == Some("A") <==> Roster(g.board, "A") != {} && Roster(g.board, "B") == {}
    ensures r.1.None? <==> Roster(g.board, "A") != {} && Roster(g.board, "B") != {}
    ensures r.0.gameOver <==> g.gameOver || r.1.Some?
  {
    RosterEmptyIffDead(g.board, "A");
    RosterEmptyIffDead(g.board, "B");
    if !Alive(g.board, "A") then (g.(gameOver := true), Some("B"))
    else if !Alive(g.board, "B") then (g.(gameOver := true), Some("A"))
    else (g, None)
  }

  lemma RosterEmptyIffDead(b: Board, side: string)
    ensures Roster(b, side) == {} <==> !Alive(b, side)
  {
    if Alive(b, side) {
      var k :| k in b.characters && b.characters[k].player == side;
      assert k in Roster(b, side);
    }
  }

  /** Re-checking is idempotent: the winner and the flag do not change. */
  lemma CheckGameOverIdempotent(g: Game)
    ensures CheckGameOver(CheckGameOver(g).0) == CheckGameOver(g)
  {
  }

  /**
   * `Game.make_move`: an unknown name or a refused move gives None and the
   * unchanged match; a success re-checks the end of the game and then hands
   * the turn over, even when the game has just ended. A finished game is not
   * refused.
   */
  function MakeMove(g: Game, name: string, dir: string): (r: (Game, Option<Coord>))
    requires Valid(g.board)
    ensures Valid(r.0.board)
    ensures r.1.Some? <==> name in g.board.characters && LegalMove(g.board, g.board.characters[name], dir)
    ensures r.1.None? ==> r.0 == g
    ensures r.1.Some? ==>
      && r.1.value == Target(g.board.characters[name], dir)
      && InBounds(r.1.value)
      && r.0.board == MoveCharacter(g.board, name, dir).0
      && r.0.turn == (if g.turn == "A" then "B" else "A")
      && (r.0.gameOver <==> g.gameOver || Roster(r.0.board, "A") == {} || Roster(r.0.board, "B") == {})
  {
    if name in g.board.characters then
      var character := g.board.characters[name];
      match Move(g.board, character, dir)
      case Some(m) =>
        var checked := CheckGameOver(g.(board := m.board)).0;
        (SwitchTurn(checked), Some(m.dest))
      case None => (g, None)
    else (g, None)
  }

  /** The game-over flag plays no part in whether or how a move is made. */
  lemma MakeMoveIgnoresGameOver(g: Game, name: string, dir: string, flag: bool)
    requires Valid(g.board)
    ensures MakeMove(g.(gameOver := flag), name, dir).1 == MakeMove(g, name, dir).1
    ensures MakeMove(g.(gameOver := flag), name, dir).0.board == MakeMove(g, name, dir).0.board
    ensures MakeMove(g.(gameOver := flag), name, dir).0.turn == MakeMove(g, name, dir).0.turn
  {
  }

  /** Once set, the flag stays set across any move attempt. */
  lemma GameOverIsSticky(g: Game, name: string, dir: string)
    requires Valid(g.board) && g.gameOver
    ensures MakeMove(g, name, dir).0.gameOver
  {
  }

  /** A successful move by a registered piece on a sound board keeps the board sound. */
  lemma MakeMovePreservesSoundness(g: Game, name: string, dir: string)
    requires Valid(g.board) && WellNamed(g.board) && GridSound(g.board)
    ensures var g' := MakeMove(g, name, dir).0;
      Valid(g'.board) && WellNamed(g'.board) && GridSound(g'.board)
  {
    if name in g.board.characters {
      var p := g.board.characters[name];
      if Move(g.board, p, dir).Some? {
        MovePreservesSoundness(g.board, p, dir);
      }
    }
  }

  /**
   * The status snapshot: registered names split by player (any player
   * other than "A" is listed under B), kill lists that are always empty,
   * and the side to move.
   */
  datatype Status = Status(availableA: set<string>, availableB: set<string>,
                           killedA: seq<string>, killedB: seq<string>, turn: string)

  function GetStatus(g: Game): (s: Status)
    ensures s.killedA == [] && s.killedB == [] && s.turn == g.turn
    ensures forall n :: n in s.availableA <==>
      exists k :: k in g.board.characters && g.board.characters[k].name == n && g.board.characters[k].player == "A"
    ensures forall n :: n in s.availableB <==>
      exists k :: k in g.board.characters && g.board.characters[k].name == n && g.board.characters[k].player != "A"
  {
    var chars := g.board.characters;
    Status(set k | k in chars && chars[k].player == "A" :: chars[k].name,
           set k | k in chars && chars[k].player != "A" :: chars[k].name,
           [], [], g.turn)
  }

  /**
   * When registry keys are piece names, the two lists partition the
   * registered names, and side A's list is its roster.
   */
  lemma StatusPartitionsRegistry(g: Game)
    requires WellNamed(g.board)
    ensures GetStatus(g).availableA + GetStatus(g).availableB == g.board.characters.Keys
    ensures GetStatus(g).availableA !! GetStatus(g).availableB
    ensures GetStatus(g).availableA == Roster(g.board, "A")
  {
    var s := GetStatus(g);
    var chars := g.board.characters;
    forall n | n in chars.Keys
      ensures n in s.availableA + s.availableB
    {
      assert chars[n].name == n;
    }
  }

  /**
   * When keys are names and every piece belongs to side A or side B, the
   * two lists are exactly the two rosters.
   */
  lemma StatusListsAreRosters(g: Game)
    requires WellNamed(g.board)
    requires forall k :: k in g.board.characters ==> g.board.characters[k].player in {"A", "B"}
    ensures GetStatus(g).availableA == Roster(g.board, "A")
    ensures GetStatus(g).availableB == Roster(g.board, "B")
  {
    StatusPartitionsRegistry(g);
    var chars := g.board.characters;
    forall n | n in Roster(g.board, "B")
      ensures n in GetStatus(g).availableB
    {
      assert chars[n].name == n;
    }
  }
}
