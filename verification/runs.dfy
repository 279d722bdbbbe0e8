/**
 * Runs: sequences of `make_move` requests played from the initial board.
 * The game never checks whose turn it is, never refuses a finished game,
 * and builds only pieces of types P1, P2, P3, H1 and H2; these lemmas draw
 * the consequences.
 */
module Runs {
  import opened Wrappers
  import opened Pieces
  import opened Boards
  import opened Movement
  import opened Games
  import opened Setup

  /** One request: the piece's name and a direction. */
  datatype Request = Request(name: string, dir: string)

  /** Plays the requests in order through `MakeMove`; a refused request changes nothing. */
  function Run(g: Game, rs: seq<Request>): (r: Game)
    requires Valid(g.board)
    ensures Valid(r.board)
    ensures g.gameOver ==> r.gameOver
    ensures rs == [] ==> r == g
    decreases |rs|
  {
    if rs == [] then g
    else Run(MakeMove(g, rs[0].name, rs[0].dir).0, rs[1..])
  }

  /** Playing two request lists one after the other is playing their concatenation. */
  lemma {:induction false} RunAppend(g: Game, rs: seq<Request>, ts: seq<Request>)
    requires Valid(g.board)
    ensures Run(g, rs + ts) == Run(Run(g, rs), ts)
    decreases |rs|
  {
    if rs == [] {
      assert rs + ts == ts;
    } else {
      assert (rs + ts)[0] == rs[0] && (rs + ts)[1..] == rs[1..] + ts;
      RunAppend(MakeMove(g, rs[0].name, rs[0].dir).0, rs[1..], ts);
    }
  }

  /** Every registered piece carries one of the five types setup builds. */
  predicate SetupKinds(b: Board) {
    forall k :: k in b.characters ==> b.characters[k].kind in SetupTags
  }

  /** What every board reachable from setup satisfies. */
  predicate Playable(b: Board) {
    Valid(b) && WellNamed(b) && GridSound(b) && SetupKinds(b)
  }

  /** The initial board is playable. */
  lemma InitialIsPlayable(b: Board)
    requires InitialBoard(b)
    ensures Playable(b)
  {
    InitialRegistry(b);
  }

  /** A move request, accepted or not, keeps the board playable. */
  lemma MakeMoveKeepsPlayable(g: Game, name: string, dir: string)
    requires Playable(g.board)
    ensures Playable(MakeMove(g, name, dir).0.board)
  {
    MakeMovePreservesSoundness(g, name, dir);
    if name in g.board.characters {
      var p := g.board.characters[name];
      if Move(g.board, p, dir).Some? {
        MoveKeepsKinds(g.board, p, dir);
      }
    }
  }

  /** A successful move registers no piece with a type that was not there before. */
  lemma MoveKeepsKinds(b: Board, p: Piece, dir: string)
    requires Valid(b) && GridSound(b) && Registered(b, p) && SetupKinds(b)
    requires Move(b, p, dir).Some?
    ensures SetupKinds(Move(b, p, dir).value.board)
  {
    var m := Move(b, p, dir).value;
    MoveRegistryShape(b, p, dir);
    var gone := if Kills(b, p, dir) then {Victim(b, p, dir)} else {};
    assert m.board.characters == (b.characters - gone)[p.name := m.mover];
    KindsKept(b.characters, m.board.characters, gone, p.name, m.mover);
  }

  /** Dropping some entries and updating one with an equal type keeps every type. */
  lemma KindsKept(before: map<string, Piece>, after: map<string, Piece>, gone: set<string>, name: string, q: Piece)
    requires name in before && q.kind == before[name].kind
    requires after == (before - gone)[name := q]
    ensures forall k :: k in after ==> k in before && after[k].kind == before[k].kind
  {
  }

  /** A whole run keeps the board playable. */
  lemma {:induction false} RunKeepsPlayable(g: Game, rs: seq<Request>)
    requires Playable(g.board)
    ensures Playable(Run(g, rs).board)
    decreases |rs|
  {
    if rs != [] {
      MakeMoveKeepsPlayable(g, rs[0].name, rs[0].dir);
      RunKeepsPlayable(MakeMove(g, rs[0].name, rs[0].dir).0, rs[1..]);
    }
  }

  /**
   * On a playable board no piece has the Pawn tag, so the pawns built at
   * setup (types P1, P2, P3) never move: only H1 and H2 requests succeed.
   */
  lemma OnlyHeroesMove(g: Game, name: string, dir: string)
    requires Playable(g.board)
    ensures forall k :: k in g.board.characters ==> g.board.characters[k].kind != Pawn
    ensures MakeMove(g, name, dir).1.Some? ==>
      name in g.board.characters && Captures(g.board.characters[name].kind)
    ensures name in g.board.characters && g.board.characters[name].kind in ["P1", "P2", "P3"] ==>
      MakeMove(g, name, dir) == (g, None)
  {
    NoPawnTag(g.board);
    if name in g.board.characters {
      var p := g.board.characters[name];
      MovableKind(g.board, p, dir);
    }
  }

  /** No setup type is the Pawn tag. */
  lemma NoPawnTag(b: Board)
    requires SetupKinds(b)
    ensures forall k :: k in b.characters ==> b.characters[k].kind != Pawn
  {
    forall k | k in b.characters
      ensures b.characters[k].kind != Pawn
    {
      assert b.characters[k].kind in SetupTags;
    }
  }

  /** A piece of a setup type is legal to move only when it is a hero. */
  lemma MovableKind(b: Board, p: Piece, dir: string)
    requires Valid(b) && p.kind in SetupTags
    ensures LegalMove(b, p, dir) ==> Captures(p.kind)
    ensures p.kind in ["P1", "P2", "P3"] ==> !LegalMove(b, p, dir)
  {
    assert Displacement(p.kind, dir).Some? ==> KnownKind(p.kind);
  }

  /**
   * On a consistent playable board, the one move that breaks consistency
   * is a Hero2 landing on a friendly piece; the Pawn case cannot arise.
   */
  lemma PlayableBreaksOnlyByHero2(b: Board, p: Piece, dir: string)
    requires Playable(b) && Consistent(b) && Registered(b, p)
    requires Move(b, p, dir).Some?
    ensures Consistent(Move(b, p, dir).value.board) <==>
      !(p.kind == Hero2 && Friendly(Victim(b, p, dir), p.player))
  {
    MoveKeepsConsistentIff(b, p, dir);
  }

  /** Any run from the initial board keeps it playable. */
  lemma RunFromSetupIsPlayable(g: Game, rs: seq<Request>)
    requires InitialBoard(g.board)
    ensures Playable(Run(g, rs).board)
  {
    InitialIsPlayable(g.board);
    RunKeepsPlayable(g, rs);
  }

  /**
   * A capture of the last piece of a side ends the game, and the turn is
   * still handed over.
   */
  lemma LastCaptureEndsGame(g: Game, name: string, dir: string)
    requires Valid(g.board) && WellNamed(g.board) && GridSound(g.board)
    requires forall k :: k in g.board.characters ==> g.board.characters[k].player in {"A", "B"}
    requires name in g.board.characters
    requires Move(g.board, g.board.characters[name], dir).Some?
    requires Kills(g.board, g.board.characters[name], dir)
    requires |Roster(g.board, g.board.characters[Victim(g.board, g.board.characters[name], dir)].player)| == 1
    ensures MakeMove(g, name, dir).1.Some?
    ensures MakeMove(g, name, dir).0.gameOver
    ensures MakeMove(g, name, dir).0.turn == (if g.turn == "A" then "B" else "A")
  {
    var b := g.board;
    var p := b.characters[name];
    var v := Victim(b, p, dir);
    CaptureRemovesExactlyOne(b, p, dir);
    var side := b.characters[v].player;
    var b' := Move(b, p, dir).value.board;
    assert Roster(b', side) == {};
    assert MakeMove(g, name, dir).0.board == b';
  }

  /** A board on which A-H2 stands at (0,4), A-P1 at (0,0), and (2,2) is free. */
  predicate Hero2Opening(b: Board) {
    && Consistent(b)
    && "A-H2" in b.characters && b.characters["A-H2"] == Piece("A-H2", Hero2, (0, 4), "A")
    && "A-P1" in b.characters && b.characters["A-P1"].position == (0, 0)
    && Cell(b, (2, 2)) == Empty
  }

  /** The initial board is such a board. */
  lemma InitialHero2Opening(b: Board)
    requires InitialBoard(b)
    ensures Hero2Opening(b)
  {
    var ps := InitialPieces();
    InitialNamesLiteral();
    InitialPieceAt(0);
    InitialPieceAt(4);
    assert ps[0].name in b.characters && b.characters[ps[0].name] == ps[0];
    assert ps[4].name in b.characters && b.characters[ps[4].name] == ps[4];
    InitialMiddleRowsEmpty(b);
  }

  /** The first request: A-H2 "BL" lands on the free (2,2) and keeps the board consistent. */
  lemma Hero2FirstStep(b: Board)
    requires Hero2Opening(b)
    ensures var p := b.characters["A-H2"];
      && Move(b, p, "BL").Some?
      && var m := Move(b, p, "BL").value;
      && m.dest == (2, 2)
      && Consistent(m.board) && Registered(m.board, m.mover)
      && m.mover == Piece("A-H2", Hero2, (2, 2), "A")
      && "A-P1" in m.board.characters && m.board.characters["A-P1"].position == (0, 0)
  {
    var p := b.characters["A-H2"];
    assert LegalMove(b, p, "BL");
    MovePreservesSoundness(b, p, "BL");
    MoveKeepsConsistentIff(b, p, "BL");
    MoveRegistryShape(b, p, "BL");
  }

  /** The second request: A-H2 "FL" from (2,2) lands on A-P1 and breaks consistency. */
  lemma Hero2SecondStep(b: Board, p: Piece)
    requires Consistent(b) && Registered(b, p) && p == Piece("A-H2", Hero2, (2, 2), "A")
    requires "A-P1" in b.characters && b.characters["A-P1"].position == (0, 0)
    ensures && Move(b, p, "FL").Some?
      && var b' := Move(b, p, "FL").value.board;
      && Move(b, p, "FL").value.dest == (0, 0)
      && "A-P1" in b'.characters && b'.characters["A-P1"].position == (0, 0)
      && Cell(b', (0, 0)) == "A-H2"
      && !Consistent(b')
  {
    assert Cell(b, (0, 0)) == "A-P1";
    assert LegalMove(b, p, "FL");
    Hero2OverwritesFriend(b, p, "FL");
    MoveKeepsConsistentIff(b, p, "FL");
  }

  /**
   * From the initial board, two requests for A-H2 ("BL" to (2,2), then
   * "FL" back to (0,0)) both succeed, although the first hands the turn
   * over; the second lands on A-P1, which stays registered at (0,0) while
   * the cell shows A-H2, so the board is no longer consistent.
   */
  lemma Hero2CorruptsInitialBoard(g: Game)
    requires InitialBoard(g.board)
    ensures var r1 := MakeMove(g, "A-H2", "BL");
      var r2 := MakeMove(r1.0, "A-H2", "FL");
      && r1.1 == Some((2, 2)) && r2.1 == Some((0, 0))
      && r1.0.turn != g.turn
      && "A-P1" in r2.0.board.characters && r2.0.board.characters["A-P1"].position == (0, 0)
      && Cell(r2.0.board, (0, 0)) == "A-H2"
      && !Consistent(r2.0.board)
  {
    InitialHero2Opening(g.board);
    Hero2TwoMoves(g);
  }

  /** The two requests above, on any board with the opening's layout. */
  lemma Hero2TwoMoves(g: Game)
    requires Hero2Opening(g.board)
    ensures var r1 := MakeMove(g, "A-H2", "BL");
      var r2 := MakeMove(r1.0, "A-H2", "FL");
      && r1.1 == Some((2, 2)) && r2.1 == Some((0, 0))
      && r1.0.turn != g.turn
      && "A-P1" in r2.0.board.characters && r2.0.board.characters["A-P1"].position == (0, 0)
      && Cell(r2.0.board, (0, 0)) == "A-H2"
      && !Consistent(r2.0.board)
  {
    Hero2FirstStep(g.board);
    var p := g.board.characters["A-H2"];
    var m := Move(g.board, p, "BL").value;
    Hero2SecondStep(m.board, m.mover);
  }

  /** A legal move onto an empty cell changes the grid only at the origin and the destination. */
  lemma QuietMove(b: Board, p: Piece, dir: string)
    requires Valid(b) && InBounds(p.position) && LegalMove(b, p, dir)
    requires Victim(b, p, dir) == Empty
    ensures var m := Move(b, p, dir).value;
      forall r, c :: 0 <= r < Size && 0 <= c < Size && (r, c) != p.position && (r, c) != Target(p, dir) ==>
        m.board.grid[r][c] == b.grid[r][c]
  {
  }

  /** One step of a scan: a success is reported and the rest is scanned from the moved state. */
  lemma ScanStep(b: Board, p: Piece, dirs: seq<string>)
    requires Valid(b) && InBounds(p.position) && dirs != []
    ensures Move(b, p, dirs[0]).Some? ==>
      var m := Move(b, p, dirs[0]).value;
      TryDirections(b, p, dirs).moves == [dirs[0]] + TryDirections(m.board, m.mover, dirs[1..]).moves
    ensures Move(b, p, dirs[0]).None? ==>
      TryDirections(b, p, dirs) == TryDirections(b, p, dirs[1..])
  {
  }

  /** From (0,4) an H1 with (2,4) free can go B, and only B of the last two directions. */
  lemma ScanTail(b: Board, p: Piece, dirs: seq<string>)
    requires Valid(b) && p.kind == Hero1 && p.position == (0, 4)
    requires Cell(b, (2, 4)) == Empty && dirs == ["F", "B"]
    ensures TryDirections(b, p, dirs).moves == ["B"]
  {
    assert !LegalMove(b, p, dirs[0]);
    ScanStep(b, p, dirs);
    var rest := dirs[1..];
    assert rest == ["B"] && rest[1..] == [];
    assert LegalMove(b, p, rest[0]);
    ScanStep(b, p, rest);
    var m := Move(b, p, rest[0]).value;
    assert TryDirections(m.board, m.mover, rest[1..]).moves == [];
    assert TryDirections(b, p, rest).moves == ["B"] + [];
  }

  /** From (0,2) on a board with (0,4) and (2,4) free, the scan of R, F, B reports R and B. */
  lemma ScanMiddle(b: Board, p: Piece, dirs: seq<string>)
    requires Valid(b) && p.kind == Hero1 && p.position == (0, 2)
    requires Cell(b, (0, 4)) == Empty && Cell(b, (2, 4)) == Empty && dirs == ["R", "F", "B"]
    ensures TryDirections(b, p, dirs).moves == ["R", "B"]
  {
    assert LegalMove(b, p, dirs[0]);
    var m := Move(b, p, dirs[0]).value;
    QuietMove(b, p, dirs[0]);
    assert Cell(m.board, (2, 4)) == Empty;
    ScanStep(b, p, dirs);
    ScanTail(m.board, m.mover, dirs[1..]);
    var rest := TryDirections(m.board, m.mover, dirs[1..]);
    assert TryDirections(b, p, dirs).moves == ["R"] + rest.moves;
    assert ["R"] + ["B"] == ["R", "B"];
  }

  /**
   * `get_possible_moves` moves the piece while it scans: an H1 at (0,4)
   * with (0,2) and (2,4) free reports L, R and B (R is tried from (0,2),
   * where L left it).
   */
  lemma ScanMovesBetweenAttempts(b: Board, p: Piece)
    requires Valid(b) && p.kind == Hero1 && p.position == (0, 4)
    requires Cell(b, (0, 2)) == Empty && Cell(b, (2, 4)) == Empty
    ensures GetPossibleMoves(b, p).moves == ["L", "R", "B"]
  {
    ScanFromCorner(b, p, Directions(p.kind));
  }

  /** The scan behind the lemma above, over the H1 table passed as `dirs`. */
  lemma ScanFromCorner(b: Board, p: Piece, dirs: seq<string>)
    requires Valid(b) && p.kind == Hero1 && p.position == (0, 4)
    requires Cell(b, (0, 2)) == Empty && Cell(b, (2, 4)) == Empty && dirs == ["L", "R", "F", "B"]
    ensures TryDirections(b, p, dirs).moves == ["L", "R", "B"]
  {
    assert dirs[0] == "L" && dirs[1..] == ["R", "F", "B"];
    assert LegalMove(b, p, "L");
    var m := Move(b, p, "L").value;
    assert m.mover.kind == Hero1 && m.mover.position == (0, 2);
    assert Cell(m.board, (0, 4)) == Empty;
    QuietMove(b, p, "L");
    assert Cell(m.board, (2, 4)) == Empty;
    ScanMiddle(m.board, m.mover, dirs[1..]);
    ScanStep(b, p, dirs);
    var rest := TryDirections(m.board, m.mover, dirs[1..]);
    assert TryDirections(b, p, dirs).moves == ["L"] + rest.moves;
    assert ["L"] + ["R", "B"] == ["L", "R", "B"];
  }

  /** The directions legal from (0,4) itself, for the same H1, are only L and B. */
  lemma LegalFromCorner(b: Board, p: Piece)
    requires Valid(b) && p.kind == Hero1 && p.position == (0, 4)
    requires Cell(b, (0, 2)) == Empty && Cell(b, (2, 4)) == Empty
    ensures LegalDirections(b, p, Directions(p.kind)) == ["L", "B"]
  {
    var ds := Directions(Hero1);
    assert ds == ["L", "R", "F", "B"];
    assert ds[1..] == ["R", "F", "B"];
    assert LegalMove(b, p, ds[0]);
    LegalStep(b, p, ds);
    LegalAfterL(b, p, ds[1..]);
    assert ["L"] + ["B"] == ["L", "B"];
  }

  /** One step of the reference filter. */
  lemma LegalStep(b: Board, p: Piece, dirs: seq<string>)
    requires Valid(b) && dirs != []
    ensures LegalDirections(b, p, dirs) ==
      if LegalMove(b, p, dirs[0]) then [dirs[0]] + LegalDirections(b, p, dirs[1..])
      else LegalDirections(b, p, dirs[1..])
  {
  }

  /** Of R, F and B, only B is legal from (0,4) with (2,4) free. */
  lemma LegalAfterL(b: Board, p: Piece, dirs: seq<string>)
    requires Valid(b) && p.kind == Hero1 && p.position == (0, 4)
    requires Cell(b, (2, 4)) == Empty && dirs == ["R", "F", "B"]
    ensures LegalDirections(b, p, dirs) == ["B"]
  {
    assert !LegalMove(b, p, dirs[0]);
    LegalStep(b, p, dirs);
    assert dirs[1..] == ["F", "B"];
    LegalLastTwo(b, p, dirs[1..]);
  }

  /** Of F and B, only B is legal from (0,4) with (2,4) free. */
  lemma LegalLastTwo(b: Board, p: Piece, dirs: seq<string>)
    requires Valid(b) && p.kind == Hero1 && p.position == (0, 4)
    requires Cell(b, (2, 4)) == Empty && dirs == ["F", "B"]
    ensures LegalDirections(b, p, dirs) == ["B"]
  {
    assert !LegalMove(b, p, dirs[0]);
    LegalStep(b, p, dirs);
    var rest := dirs[1..];
    assert rest == ["B"] && rest[1..] == [];
    assert LegalMove(b, p, rest[0]);
    LegalStep(b, p, rest);
    assert LegalDirections(b, p, rest) == ["B"] + [];
  }

  /** The situation above arises for a lone H1 placed at (0,4) on an empty board. */
  lemma LoneHero1ScanExample()
    ensures var p := Piece("A-H1", Hero1, (0, 4), "A");
      var b := PlaceCharacter(EmptyBoard(), p);
      && GetPossibleMoves(b, p).moves == ["L", "R", "B"]
      && LegalDirections(b, p, Directions(p.kind)) == ["L", "B"]
  {
    var p := Piece("A-H1", Hero1, (0, 4), "A");
    var b := PlaceCharacter(EmptyBoard(), p);
    ScanMovesBetweenAttempts(b, p);
    LegalFromCorner(b, p);
  }
}
