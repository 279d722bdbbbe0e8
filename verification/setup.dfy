/**
 * Setup: the deterministic initial placement of `Game`, including the
 * `str.split` the source uses to read a piece's type tag off its name.
 */
module Setup {
  import opened Wrappers
  import opened Pieces
  import opened Boards
  import opened Movement
  import opened Games

  /* ---------------------------------------------------------------- */
  /* Splitting a name on a separator character                         */
  /* ---------------------------------------------------------------- */

  function FirstIndex(s: string, c: char): (i: nat)
    requires c in s
    ensures i < |s| && s[i] == c && c !in s[..i]
  {
    if s[0] == c then 0
    else
      assert s == [s[0]] + s[1..];
      1 + FirstIndex(s[1..], c)
  }

  /** Python's `s.split(sep)` for a one-character separator: the maximal separator-free pieces, in order. */
  function Split(s: string, sep: char): (parts: seq<string>)
    ensures |parts| >= 1
    ensures forall i :: 0 <= i < |parts| ==> sep !in parts[i]
    ensures sep in s <==> |parts| >= 2
    ensures |parts[0]| <= |s| && s[..|parts[0]|] == parts[0]
    ensures |parts[0]| == |s| || s[|parts[0]|] == sep
    decreases |s|
  {
    if sep !in s then [s]
    else
      var i := FirstIndex(s, sep);
      [s[..i]] + Split(s[i + 1..], sep)
  }

  /** Python's `sep.join(parts)`. */
  function Join(parts: seq<string>, sep: char): string
    requires |parts| >= 1
    decreases |parts|
  {
    if |parts| == 1 then parts[0] else parts[0] + [sep] + Join(parts[1..], sep)
  }

  /** Joining the pieces of a split gives the string back. */
  lemma {:induction false} JoinSplit(s: string, sep: char)
    ensures Join(Split(s, sep), sep) == s
    decreases |s|
  {
    if sep in s {
      var i := FirstIndex(s, sep);
      JoinSplit(s[i + 1..], sep);
      assert s == s[..i] + [sep] + s[i + 1..];
    }
  }

  /** The first separator of `a + [sep] + t`, for a separator-free `a`, is the one after `a`. */
  lemma FirstIndexAfterPrefix(a: string, sep: char, t: string)
    requires sep !in a
    ensures sep in a + [sep] + t
    ensures FirstIndex(a + [sep] + t, sep) == |a|
  {
    var s := a + [sep] + t;
    assert s[|a|] == sep;
    var i := FirstIndex(s, sep);
    assert s[..|a|] == a;
  }

  /** Splitting `a + [sep] + t`, for a separator-free `a`, peels off `a`. */
  lemma SplitAfterPrefix(a: string, sep: char, t: string)
    requires sep !in a
    ensures Split(a + [sep] + t, sep) == [a] + Split(t, sep)
  {
    var s := a + [sep] + t;
    FirstIndexAfterPrefix(a, sep, t);
    assert s[..|a|] == a;
    assert s[|a| + 1..] == t;
  }

  /** Splitting a join of separator-free pieces gives the pieces back. */
  lemma {:induction false} SplitJoin(parts: seq<string>, sep: char)
    requires |parts| >= 1
    requires forall i :: 0 <= i < |parts| ==> sep !in parts[i]
    ensures Split(Join(parts, sep), sep) == parts
    decreases |parts|
  {
    if |parts| > 1 {
      var rest := Join(parts[1..], sep);
      assert Join(parts, sep) == parts[0] + [sep] + rest;
      SplitAfterPrefix(parts[0], sep, rest);
      SplitJoin(parts[1..], sep);
      assert parts == [parts[0]] + parts[1..];
    }
  }

  /** The type tag of a piece name: the field after the first '-'. */
  function TypeTag(name: string): string
    requires '-' in name
  {
    Split(name, '-')[1]
  }

  /**
   * The type tag is the whole field between the first '-' and the next
   * '-' (or the end of the name), and holds no '-' itself.
   */
  lemma TypeTagField(name: string)
    requires '-' in name
    ensures var t, i := TypeTag(name), FirstIndex(name, '-') + 1;
      && '-' !in t
      && i + |t| <= |name| && name[i..i + |t|] == t
      && (i + |t| == |name| || name[i + |t|] == '-')
  {
    var i := FirstIndex(name, '-');
    var rest := name[i + 1..];
    var t := Split(rest, '-')[0];
    assert Split(name, '-')[1] == t;
    assert rest[..|t|] == name[i + 1..i + 1 + |t|];
  }

  /* ---------------------------------------------------------------- */
  /* Initial placement                                                 */
  /* ---------------------------------------------------------------- */

  /** The names each side places, in placement order (side A first). */
  const CharactersToPlace: seq<(string, seq<string>)> := [
    ("A", ["A-P1", "A-P2", "A-P3", "A-H1", "A-H2"]),
    ("B", ["B-P1", "B-P2", "B-P3", "B-H1", "B-H2"])
  ]

  /** Side A starts on row 0, side B on row 4, in columns 0 to 4. */
  function InitialPositions(player: string): (cs: seq<Coord>)
    ensures |cs| == 5 && forall i :: 0 <= i < 5 ==> InBounds(cs[i])
    ensures forall i :: 0 <= i < 5 ==> cs[i] == (if player == "A" then 0 else 4, i)
  {
    if player == "A" then [(0, 0), (0, 1), (0, 2), (0, 3), (0, 4)]
    else [(4, 0), (4, 1), (4, 2), (4, 3), (4, 4)]
  }

  /**
   * The pieces of one side, type tags read off the names, positions taken
   * by index: a name "<s>-<t>" with dash-free parts gets type <t>.
   */
  function PiecesOf(player: string, names: seq<string>): (ps: seq<Piece>)
    requires |names| <= |InitialPositions(player)|
    requires forall i :: 0 <= i < |names| ==> '-' in names[i]
    ensures |ps| == |names|
    ensures forall i :: 0 <= i < |ps| ==>
      && ps[i].name == names[i] && ps[i].player == player
      && ps[i].position == (if player == "A" then 0 else 4, i)
    ensures forall i, s, t :: 0 <= i < |ps| && names[i] == s + "-" + t && '-' !in s && '-' !in t ==>
      ps[i].kind == t
  {
    var ps := seq(|names|, i requires 0 <= i < |names| => Piece(names[i], TypeTag(names[i]), InitialPositions(player)[i], player));
    forall i, s, t | 0 <= i < |ps| && names[i] == s + "-" + t && '-' !in s && '-' !in t
      ensures ps[i].kind == t
    {
      TagOfName(s, t);
    }
    ps
  }

  /** A name "<side>-<tag>" has type tag <tag>. */
  lemma TagOfName(side: string, tag: string)
    requires '-' !in side && '-' !in tag
    ensures '-' in side + "-" + tag
    ensures TypeTag(side + "-" + tag) == tag
  {
    assert side + "-" + tag == Join([side, tag], '-');
    SplitJoin([side, tag], '-');
  }

  /** Every setup name carries a '-', so its type tag exists. */
  lemma InitialNamesHaveDash()
    ensures forall k, i :: 0 <= k < |CharactersToPlace| && 0 <= i < |CharactersToPlace[k].1| ==>
      '-' in CharactersToPlace[k].1[i]
  {
  }

  /** The pieces the loop builds for one side of CharactersToPlace. */
  function SidePieces(k: nat): (ps: seq<Piece>)
    requires k < |CharactersToPlace|
    ensures |ps| == 5
    ensures forall i :: 0 <= i < 5 ==>
      && ps[i].name == CharactersToPlace[k].1[i]
      && ps[i].player == CharactersToPlace[k].0
      && ps[i].position == InitialPositions(CharactersToPlace[k].0)[i]
  {
    InitialNamesHaveDash();
    PiecesOf(CharactersToPlace[k].0, CharactersToPlace[k].1)
  }

  /** The ten pieces the placement loop builds, side A first. */
  function InitialPieces(): (ps: seq<Piece>)
    ensures |ps| == 10
    ensures ps[..5] == SidePieces(0) && ps[5..] == SidePieces(1)
    ensures forall i :: 0 <= i < |ps| ==> InBounds(ps[i].position)
  {
    SidePieces(0) + SidePieces(1)
  }

  function PlaceAll(b: Board, ps: seq<Piece>): (b': Board)
    requires Valid(b)
    requires forall i :: 0 <= i < |ps| ==> InBounds(ps[i].position)
    ensures Valid(b')
    ensures forall k :: k in b.characters ==> k in b'.characters
    ensures forall i :: 0 <= i < |ps| ==> ps[i].name in b'.characters
    ensures forall k :: k in b'.characters ==> k in b.characters || exists i :: 0 <= i < |ps| && ps[i].name == k
    decreases |ps|
  {
    if ps == [] then b
    else
      var b' := PlaceAll(PlaceCharacter(b, ps[0]), ps[1..]);
      assert forall i :: 1 <= i < |ps| ==> ps[i] == ps[1..][i - 1];
      b'
  }

  /** `Game.place_initial_characters`: places the ten built pieces on the match's board, in order. */
  function PlaceInitialCharacters(g: Game): (g': Game)
    requires Valid(g.board)
    ensures Valid(g'.board) && g'.turn == g.turn && g'.gameOver == g.gameOver
  {
    g.(board := PlaceAll(g.board, InitialPieces()))
  }

  /* ---------------------------------------------------------------- */
  /* Properties of the initial placement                               */
  /* ---------------------------------------------------------------- */

  /** The tag read off the j-th name of either side is the j-th setup tag. */
  lemma SideTagAt(k: int, j: int)
    requires 0 <= k < 2 && 0 <= j < 5
    ensures '-' in CharactersToPlace[k].1[j]
    ensures TypeTag(CharactersToPlace[k].1[j]) == SetupTags[j]
  {
    var n := CharactersToPlace[k].1[j];
    var side := if k == 0 then "A" else "B";
    assert n == side + "-" + SetupTags[j] by {
      assert CharactersToPlace[0].1 == ["A-P1", "A-P2", "A-P3", "A-H1", "A-H2"];
      assert CharactersToPlace[1].1 == ["B-P1", "B-P2", "B-P3", "B-H1", "B-H2"];
    }
    TagOfName(side, SetupTags[j]);
  }

  /**
   * Side k as built: side A's pieces A-P1 to A-H2 across row 0 and side
   * B's pieces B-P1 to B-H2 across row 4, tagged P1, P2, P3, H1, H2.
   */
  lemma SideValue(k: nat)
    requires k < |CharactersToPlace|
    ensures SidePieces(k) == if k == 0 then [
        Piece("A-P1", "P1", (0, 0), "A"), Piece("A-P2", "P2", (0, 1), "A"), Piece("A-P3", "P3", (0, 2), "A"),
        Piece("A-H1", "H1", (0, 3), "A"), Piece("A-H2", "H2", (0, 4), "A")]
      else [
        Piece("B-P1", "P1", (4, 0), "B"), Piece("B-P2", "P2", (4, 1), "B"), Piece("B-P3", "P3", (4, 2), "B"),
        Piece("B-H1", "H1", (4, 3), "B"), Piece("B-H2", "H2", (4, 4), "B")]
  {
    var ps := SidePieces(k);
    assert CharactersToPlace[0] == ("A", ["A-P1", "A-P2", "A-P3", "A-H1", "A-H2"]);
    assert CharactersToPlace[1] == ("B", ["B-P1", "B-P2", "B-P3", "B-H1", "B-H2"]);
    var want := if k == 0 then [
        Piece("A-P1", "P1", (0, 0), "A"), Piece("A-P2", "P2", (0, 1), "A"), Piece("A-P3", "P3", (0, 2), "A"),
        Piece("A-H1", "H1", (0, 3), "A"), Piece("A-H2", "H2", (0, 4), "A")]
      else [
        Piece("B-P1", "P1", (4, 0), "B"), Piece("B-P2", "P2", (4, 1), "B"), Piece("B-P3", "P3", (4, 2), "B"),
        Piece("B-H1", "H1", (4, 3), "B"), Piece("B-H2", "H2", (4, 4), "B")];
    forall j | 0 <= j < 5
      ensures ps[j] == want[j]
    {
      SideKindAt(k, j);
    }
  }

  /**
   * The ten pieces of the setup: side A on row 0 and side B on row 4, in
   * columns 0 to 4, with type tags read off the names, so the pawns carry
   * the tags "P1", "P2" and "P3".
   */
  lemma InitialPiecesValue()
    ensures InitialPieces() == [
      Piece("A-P1", "P1", (0, 0), "A"), Piece("A-P2", "P2", (0, 1), "A"), Piece("A-P3", "P3", (0, 2), "A"),
      Piece("A-H1", "H1", (0, 3), "A"), Piece("A-H2", "H2", (0, 4), "A"),
      Piece("B-P1", "P1", (4, 0), "B"), Piece("B-P2", "P2", (4, 1), "B"), Piece("B-P3", "P3", (4, 2), "B"),
      Piece("B-H1", "H1", (4, 3), "B"), Piece("B-H2", "H2", (4, 4), "B")]
  {
    SideValue(0);
    SideValue(1);
  }

  /** Pieces that can be placed one after another without disturbing each other or the board. */
  predicate Placeable(b: Board, ps: seq<Piece>)
    requires Valid(b)
  {
    && (forall i :: 0 <= i < |ps| ==>
          && InBounds(ps[i].position) && Cell(b, ps[i].position) == Empty
          && ps[i].name !in b.characters
          && ps[i].name != Empty && [ps[i].name[0]] == ps[i].player)
    && (forall i, j :: 0 <= i < j < |ps| ==> ps[i].name != ps[j].name && ps[i].position != ps[j].position)
  }

  /**
   * Placing fresh, well-named pieces on distinct empty cells of a
   * consistent board gives a consistent board that registers each of them
   * and keeps every earlier entry.
   */
  lemma {:induction false} PlaceAllConsistent(b: Board, ps: seq<Piece>)
    requires Consistent(b) && Placeable(b, ps)
    ensures var b' := PlaceAll(b, ps);
      && Consistent(b')
      && Holds(b', ps)
      && (forall k :: k in b.characters ==> b'.characters[k] == b.characters[k])
    decreases |ps|
  {
    if ps != [] {
      var p := ps[0];
      var rest := ps[1..];
      var b1 := PlaceCharacter(b, p);
      PlacePreservesConsistent(b, p);
      assert Placeable(b1, rest) by {
        forall i | 0 <= i < |rest|
          ensures Cell(b1, rest[i].position) == Empty && rest[i].name !in b1.characters
        {
          assert rest[i] == ps[i + 1];
          assert ps[0].position != ps[i + 1].position && ps[0].name != ps[i + 1].name;
        }
        forall i, j | 0 <= i < j < |rest|
          ensures rest[i].name != rest[j].name && rest[i].position != rest[j].position
        {
          assert rest[i] == ps[i + 1] && rest[j] == ps[j + 1];
        }
      }
      PlaceAllConsistent(b1, rest);
      var b' := PlaceAll(b1, rest);
      assert b' == PlaceAll(b, ps);
      forall i | 0 <= i < |ps|
        ensures ps[i].name in b'.characters && b'.characters[ps[i].name] == ps[i]
      {
        if i > 0 {
          assert rest[i - 1] == ps[i];
        } else {
          assert p.name in b1.characters && b1.characters[p.name] == p;
        }
      }
    }
  }

  /** Every piece of `ps` is registered, as it is, under its name. */
  predicate Holds(b: Board, ps: seq<Piece>) {
    forall i :: 0 <= i < |ps| ==> ps[i].name in b.characters && b.characters[ps[i].name] == ps[i]
  }

  /** A match as `Game.__init__` leaves it: empty 5x5 board, nothing registered, A to move, not over. */
  predicate Fresh(g: Game) {
    && Shaped(g.board.grid)
    && (forall r, c :: 0 <= r < Size && 0 <= c < Size ==> g.board.grid[r][c] == Empty)
    && g.board.characters == map[]
    && g.turn == "A" && !g.gameOver
  }

  lemma NewGameIsFresh()
    ensures Fresh(NewGame())
  {
  }

  /** The j-th name of either side is "<side>-<j-th setup tag>". */
  lemma SideNameAt(k: int, j: int)
    requires 0 <= k < 2 && 0 <= j < 5
    ensures var n := CharactersToPlace[k].1[j];
      && CharactersToPlace[k].0 == (if k == 0 then "A" else "B")
      && n == CharactersToPlace[k].0 + "-" + SetupTags[j]
      && [n[0]] == CharactersToPlace[k].0
  {
    assert CharactersToPlace[0] == ("A", ["A-P1", "A-P2", "A-P3", "A-H1", "A-H2"]);
    assert CharactersToPlace[1] == ("B", ["B-P1", "B-P2", "B-P3", "B-H1", "B-H2"]);
  }

  /** The type tags of one side's pieces, in placement order. */
  const SetupTags: seq<string> := ["P1", "P2", "P3", "H1", "H2"]

  /** The j-th piece of either side gets the j-th setup tag. */
  lemma SideKindAt(k: int, j: int)
    requires 0 <= k < 2 && 0 <= j < 5
    ensures SidePieces(k)[j].kind == SetupTags[j]
  {
    SideNameAt(k, j);
    SetupTagsDistinct();
    InitialNamesHaveDash();
    PieceKindOf(CharactersToPlace[k].0, CharactersToPlace[k].1, j, SetupTags[j]);
  }

  /** The piece built from a name "<player>-<t>" has type <t>. */
  lemma PieceKindOf(player: string, names: seq<string>, j: int, t: string)
    requires |names| <= 5 && (forall i :: 0 <= i < |names| ==> '-' in names[i])
    requires 0 <= j < |names| && names[j] == player + "-" + t
    requires '-' !in player && '-' !in t
    ensures PiecesOf(player, names)[j].kind == t
  {
  }

  /** The i-th built piece: name "<side>-<tag>", its tag, its square and its side. */
  lemma InitialPieceAt(i: int)
    requires 0 <= i < 10
    ensures var p := InitialPieces()[i];
      && p.name == p.player + "-" + p.kind
      && p.kind == SetupTags[if i < 5 then i else i - 5]
      && p.position == (if i < 5 then (0, i) else (4, i - 5))
      && p.player == (if i < 5 then "A" else "B")
      && [p.name[0]] == p.player
  {
    var ps := InitialPieces();
    var k := if i < 5 then 0 else 1;
    var j := if i < 5 then i else i - 5;
    assert ps[i] == SidePieces(k)[j] by {
      if k == 0 {
        assert ps[..5][j] == ps[i];
      } else {
        assert ps[5..][j] == ps[i];
      }
    }
    SideNameAt(k, j);
    SideKindAt(k, j);
  }

  /** The five setup tags are distinct and free of dashes. */
  lemma SetupTagsDistinct()
    ensures forall i :: 0 <= i < 5 ==> '-' !in SetupTags[i]
    ensures forall i, j :: 0 <= i < j < 5 ==> SetupTags[i] != SetupTags[j]
  {
  }

  lemma InitialPiecesPlaceable(b: Board)
    requires Valid(b) && b.characters == map[]
    requires forall r, c :: 0 <= r < Size && 0 <= c < Size ==> b.grid[r][c] == Empty
    ensures Placeable(b, InitialPieces())
  {
    var ps := InitialPieces();
    forall i | 0 <= i < |ps|
      ensures InBounds(ps[i].position) && ps[i].name != Empty && [ps[i].name[0]] == ps[i].player
    {
      InitialPieceAt(i);
    }
    SetupTagsDistinct();
    forall i, j | 0 <= i < j < |ps|
      ensures ps[i].name != ps[j].name && ps[i].position != ps[j].position
    {
      InitialPieceAt(i);
      InitialPieceAt(j);
      TagOfName(ps[i].player, ps[i].kind);
      TagOfName(ps[j].player, ps[j].kind);
      assert ps[i].player != ps[j].player || ps[i].kind != ps[j].kind;
    }
  }

  /** The built pieces are registered as built on `b`. */
  predicate HoldsInitialPieces(b: Board) {
    Holds(b, InitialPieces())
  }

  /** Every registered name is the name of a built piece. */
  predicate OnlyInitialPieces(b: Board) {
    forall k :: k in b.characters ==> exists i :: 0 <= i < |InitialPieces()| && InitialPieces()[i].name == k
  }

  /** What initial placement produces: a consistent board registering exactly the ten built pieces. */
  predicate InitialBoard(b: Board) {
    Consistent(b) && HoldsInitialPieces(b) && OnlyInitialPieces(b)
  }

  /** Initial placement on a fresh match yields the initial board, and leaves turn and flag alone. */
  lemma PlacementGivesInitialBoard(g: Game)
    requires Fresh(g)
    ensures InitialBoard(PlaceInitialCharacters(g).board)
    ensures PlaceInitialCharacters(g).turn == "A" && !PlaceInitialCharacters(g).gameOver
  {
    PlacementConsistent(g);
    PlacementRegisters(g);
  }

  lemma PlacementConsistent(g: Game)
    requires Fresh(g)
    ensures Consistent(PlaceInitialCharacters(g).board)
  {
    InitialPiecesPlaceable(g.board);
    PlaceAllConsistent(g.board, InitialPieces());
  }

  lemma PlacementRegisters(g: Game)
    requires Fresh(g)
    ensures HoldsInitialPieces(PlaceInitialCharacters(g).board)
  {
    InitialPiecesPlaceable(g.board);
    PlaceAllConsistent(g.board, InitialPieces());
  }

  lemma BothSidesAlive(b: Board)
    requires HoldsInitialPieces(b)
    ensures Roster(b, "A") != {} && Roster(b, "B") != {}
  {
    var ps := InitialPieces();
    InitialPieceAt(0);
    InitialPieceAt(5);
    assert ps[0].name in Roster(b, "A");
    assert ps[5].name in Roster(b, "B");
  }

  /**
   * Every piece on the initial board is one of the ten built pieces: it
   * stands on row 0 (side A) or row 4 (side B) and its type tag is one of
   * "P1", "P2", "P3", "H1", "H2".
   */
  lemma InitialRegistry(b: Board)
    requires InitialBoard(b)
    ensures forall k :: k in b.characters ==>
      && b.characters[k].kind in SetupTags
      && (b.characters[k].player == "A" ==> b.characters[k].position.0 == 0)
      && (b.characters[k].player != "A" ==> b.characters[k].player == "B" && b.characters[k].position.0 == 4)
  {
    var ps := InitialPieces();
    forall k | k in b.characters
      ensures b.characters[k].kind in SetupTags
      ensures b.characters[k].player == "A" ==> b.characters[k].position.0 == 0
      ensures b.characters[k].player != "A" ==> b.characters[k].player == "B" && b.characters[k].position.0 == 4
    {
      var i :| 0 <= i < |ps| && ps[i].name == k;
      InitialPieceAt(i);
    }
  }

  /** The initial grid shows each built piece at its starting cell: side A across row 0, side B across row 4. */
  lemma InitialHomeRows(b: Board)
    requires InitialBoard(b)
    ensures var ps := InitialPieces();
      forall c :: 0 <= c < Size ==> b.grid[0][c] == ps[c].name && b.grid[4][c] == ps[c + 5].name
  {
    var ps := InitialPieces();
    forall c | 0 <= c < Size
      ensures b.grid[0][c] == ps[c].name && b.grid[4][c] == ps[c + 5].name
    {
      InitialPieceAt(c);
      InitialPieceAt(c + 5);
      assert b.characters[ps[c].name] == ps[c];
      assert b.characters[ps[c + 5].name] == ps[c + 5];
    }
  }

  /** Rows 1 to 3 of the initial board are empty. */
  lemma InitialMiddleRowsEmpty(b: Board)
    requires InitialBoard(b)
    ensures forall r, c :: 1 <= r <= 3 && 0 <= c < Size ==> b.grid[r][c] == Empty
  {
    InitialRegistry(b);
  }

  lemma InitialNamesLiteral()
    ensures var ps := InitialPieces();
      && ps[0].name == "A-P1" && ps[1].name == "A-P2" && ps[2].name == "A-P3"
      && ps[3].name == "A-H1" && ps[4].name == "A-H2"
      && ps[5].name == "B-P1" && ps[6].name == "B-P2" && ps[7].name == "B-P3"
      && ps[8].name == "B-H1" && ps[9].name == "B-H2"
  {
    var a := ["A-P1", "A-P2", "A-P3", "A-H1", "A-H2"];
    var b := ["B-P1", "B-P2", "B-P3", "B-H1", "B-H2"];
    SideNamesLiteral(0, a);
    SideNamesLiteral(1, b);
    NamesOfHalves(InitialPieces(), SidePieces(0), SidePieces(1), a, b);
  }

  /** Names of a ten-piece list read off its two halves. */
  lemma NamesOfHalves(ps: seq<Piece>, left: seq<Piece>, right: seq<Piece>, a: seq<string>, b: seq<string>)
    requires |ps| == 10 && ps[..5] == left && ps[5..] == right && |a| == 5 && |b| == 5
    requires forall i :: 0 <= i < 5 ==> left[i].name == a[i] && right[i].name == b[i]
    ensures forall i :: 0 <= i < 5 ==> ps[i].name == a[i] && ps[i + 5].name == b[i]
  {
    forall i | 0 <= i < 5
      ensures ps[i].name == a[i] && ps[i + 5].name == b[i]
    {
      assert ps[..5][i] == ps[i] && ps[5..][i] == ps[i + 5];
    }
  }

  /** The pieces of one side carry its listed names, in order. */
  lemma SideNamesLiteral(k: nat, names: seq<string>)
    requires k < |CharactersToPlace| && names == CharactersToPlace[k].1
    ensures var ps := SidePieces(k);
      && ps[0].name == names[0] && ps[1].name == names[1] && ps[2].name == names[2]
      && ps[3].name == names[3] && ps[4].name == names[4]
  {
  }

  /** A set whose members are exactly the five listed names is the set of those names. */
  lemma SetOfFive(x: set<string>, n: seq<string>)
    requires |n| == 5
    requires forall i :: 0 <= i < 5 ==> n[i] in x
    requires forall k :: k in x ==> exists i :: 0 <= i < 5 && n[i] == k
    ensures x == {n[0], n[1], n[2], n[3], n[4]}
  {
  }

  /** The side of the k-th group of five built pieces. */
  function SideOf(k: nat): string {
    if k == 0 then "A" else "B"
  }

  /** Every piece of side k built at setup is on that side's roster of the initial board. */
  lemma RosterHasBuilt(b: Board, k: nat)
    requires k < 2 && HoldsInitialPieces(b) && OnlyInitialPieces(b)
    ensures var ps := InitialPieces();
      forall i :: 5 * k <= i < 5 * k + 5 ==> ps[i].name in Roster(b, SideOf(k))
  {
    var ps := InitialPieces();
    forall i | 5 * k <= i < 5 * k + 5
      ensures ps[i].name in Roster(b, SideOf(k))
    {
      InitialPieceAt(i);
    }
  }

  /** Side k's roster of the initial board holds nothing but the pieces of side k built at setup. */
  lemma RosterOnlyBuilt(b: Board, k: nat)
    requires k < 2 && HoldsInitialPieces(b) && OnlyInitialPieces(b)
    ensures var ps := InitialPieces();
      forall key :: key in Roster(b, SideOf(k)) ==> exists i :: 5 * k <= i < 5 * k + 5 && ps[i].name == key
  {
    var ps := InitialPieces();
    forall key | key in Roster(b, SideOf(k))
      ensures exists i :: 5 * k <= i < 5 * k + 5 && ps[i].name == key
    {
      var i :| 0 <= i < |ps| && ps[i].name == key;
      InitialPieceAt(i);
    }
  }

  /** Side k's roster of the initial board is the set of the names of its five built pieces. */
  lemma RosterIsBuilt(b: Board, k: nat)
    requires k < 2 && HoldsInitialPieces(b) && OnlyInitialPieces(b)
    ensures var ps, o := InitialPieces(), 5 * k;
      Roster(b, SideOf(k)) == {ps[o].name, ps[o + 1].name, ps[o + 2].name, ps[o + 3].name, ps[o + 4].name}
  {
    RosterHasBuilt(b, k);
    RosterOnlyBuilt(b, k);
    SetOfFiveFrom(Roster(b, SideOf(k)), InitialPieces(), 5 * k);
  }

  /** A set whose members are exactly the names of the five pieces from offset `o` on is the set of those names. */
  lemma SetOfFiveFrom(x: set<string>, ps: seq<Piece>, o: nat)
    requires o + 5 <= |ps|
    requires forall i :: o <= i < o + 5 ==> ps[i].name in x
    requires forall k :: k in x ==> exists i :: o <= i < o + 5 && ps[i].name == k
    ensures x == {ps[o].name, ps[o + 1].name, ps[o + 2].name, ps[o + 3].name, ps[o + 4].name}
  {
    var n := [ps[o].name, ps[o + 1].name, ps[o + 2].name, ps[o + 3].name, ps[o + 4].name];
    forall k | k in x
      ensures exists j :: 0 <= j < 5 && n[j] == k
    {
      var i :| o <= i < o + 5 && ps[i].name == k;
      assert n[i - o] == k;
    }
    SetOfFive(x, n);
  }

  /** The side-A roster of the initial board: A-P1, A-P2, A-P3, A-H1, A-H2. */
  lemma InitialRosterA(b: Board)
    requires HoldsInitialPieces(b) && OnlyInitialPieces(b)
    ensures Roster(b, "A") == {"A-P1", "A-P2", "A-P3", "A-H1", "A-H2"}
  {
    RosterIsBuilt(b, 0);
    InitialNamesLiteral();
  }

  /** The side-B roster of the initial board: B-P1, B-P2, B-P3, B-H1, B-H2. */
  lemma InitialRosterB(b: Board)
    requires HoldsInitialPieces(b) && OnlyInitialPieces(b)
    ensures Roster(b, "B") == {"B-P1", "B-P2", "B-P3", "B-H1", "B-H2"}
  {
    RosterIsBuilt(b, 1);
    InitialNamesLiteral();
  }

  /** The status of a match on the initial board lists side A's five names and side B's five names. */
  lemma InitialStatus(g: Game)
    requires InitialBoard(g.board)
    ensures var s := GetStatus(g);
      && s.availableA == {"A-P1", "A-P2", "A-P3", "A-H1", "A-H2"}
      && s.availableB == {"B-P1", "B-P2", "B-P3", "B-H1", "B-H2"}
      && s.killedA == [] && s.killedB == []
      && s.turn == g.turn
  {
    InitialRegistry(g.board);
    StatusListsAreRosters(g);
    InitialRosterA(g.board);
    InitialRosterB(g.board);
  }

  /**
   * Construction followed by initial placement: the initial board, A to
   * move, not over, and neither side has lost.
   */
  lemma InitialGameState(g: Game)
    requires Fresh(g)
    ensures var g' := PlaceInitialCharacters(g);
      && InitialBoard(g'.board)
      && g'.turn == "A" && !g'.gameOver
      && CheckGameOver(g').1 == None
  {
    PlacementGivesInitialBoard(g);
    BothSidesAlive(PlaceInitialCharacters(g).board);
  }
}
