/**
 * Boards: the 5x5 grid of occupant names ("" is an empty cell) together
 * with the name -> piece registry, and the placement, lookup and removal
 * operations of the source's `Board` class.
 */
module Boards {
  import opened Wrappers
  import opened Pieces

  const Empty: string := ""

  type Grid = seq<seq<string>>

  datatype Board = Board(grid: Grid, characters: map<string, Piece>)

  predicate Shaped(g: Grid) {
    |g| == Size && forall r :: 0 <= r < |g| ==> |g[r]| == Size
  }

  /**
   * The representation invariant every reachable board keeps: the grid is
   * 5x5 and every registered piece stands inside it.
   */
  predicate Valid(b: Board) {
    && Shaped(b.grid)
    && forall k :: k in b.characters ==> InBounds(b.characters[k].position)
  }

  function Cell(b: Board, c: Coord): string
    requires Shaped(b.grid) && InBounds(c)
  {
    b.grid[c.0][c.1]
  }

  /** The grid with cell `c` overwritten by `v`; every other cell is kept. */
  function SetCell(g: Grid, c: Coord, v: string): (g': Grid)
    requires Shaped(g) && InBounds(c)
    ensures Shaped(g')
    ensures g'[c.0][c.1] == v
    ensures forall r, col :: 0 <= r < Size && 0 <= col < Size && (r, col) != c ==> g'[r][col] == g[r][col]
  {
    g[c.0 := g[c.0][c.1 := v]]
  }

  /** Overwriting a cell with the value it already holds changes nothing. */
  lemma SetCellSame(g: Grid, c: Coord)
    requires Shaped(g) && InBounds(c)
    ensures SetCell(g, c, g[c.0][c.1]) == g
  {
    assert g[c.0][c.1 := g[c.0][c.1]] == g[c.0];
  }

  /** The second write to the same cell wins. */
  lemma SetCellTwice(g: Grid, c: Coord, v: string, w: string)
    requires Shaped(g) && InBounds(c)
    ensures SetCell(SetCell(g, c, v), c, w) == SetCell(g, c, w)
  {
    assert g[c.0][c.1 := v][c.1 := w] == g[c.0][c.1 := w];
  }

  /** A freshly constructed board: every cell empty, nothing registered. */
  function EmptyBoard(): (b: Board)
    ensures Valid(b)
    ensures forall r, c :: 0 <= r < Size && 0 <= c < Size ==> b.grid[r][c] == Empty
    ensures b.characters == map[]
  {
    Board(seq(Size, _ => seq(Size, _ => Empty)), map[])
  }

  /* ---------------------------------------------------------------- */
  /* Registry / grid consistency                                       */
  /* ---------------------------------------------------------------- */

  /**
   * Every registry key is the name of the piece stored under it, names
   * are non-empty, and the first character of a name spells its player.
   */
  predicate WellNamed(b: Board) {
    forall k :: k in b.characters ==>
      && b.characters[k].name == k
      && k != Empty
      && [k[0]] == b.characters[k].player
  }

  /** Every occupied cell names a registered piece whose position is that cell. */
  predicate GridSound(b: Board)
    requires Shaped(b.grid)
  {
    forall r, c :: 0 <= r < Size && 0 <= c < Size && b.grid[r][c] != Empty ==>
      b.grid[r][c] in b.characters && b.characters[b.grid[r][c]].position == (r, c)
  }

  /** Every registered piece is shown on the grid at its position. */
  predicate RegistryComplete(b: Board)
    requires Valid(b)
  {
    forall k :: k in b.characters ==> Cell(b, b.characters[k].position) == k
  }

  /** The full grid/registry invariant: both directions of the correspondence. */
  predicate Consistent(b: Board) {
    Valid(b) && WellNamed(b) && GridSound(b) && RegistryComplete(b)
  }

  /** The names of the registered pieces whose player is `side`. */
  function Roster(b: Board, side: string): set<string> {
    set k | k in b.characters && b.characters[k].player == side
  }

  /** The mover `p` is the registry entry under its own name. */
  predicate Registered(b: Board, p: Piece) {
    p.name in b.characters && b.characters[p.name] == p
  }

  /** On a consistent board no two registered pieces share a square. */
  lemma ConsistentOnePiecePerSquare(b: Board, k1: string, k2: string)
    requires Consistent(b)
    requires k1 in b.characters && k2 in b.characters
    requires b.characters[k1].position == b.characters[k2].position
    ensures k1 == k2
  {
    assert Cell(b, b.characters[k1].position) == k1;
  }

  /* ---------------------------------------------------------------- */
  /* Board operations                                                  */
  /* ---------------------------------------------------------------- */

  /**
   * Writes the piece's name into its cell and registers it under its name.
   * Neither an occupied cell nor an existing name is refused.
   */
  function PlaceCharacter(b: Board, p: Piece): (b': Board)
    requires Valid(b) && InBounds(p.position)
    ensures Valid(b')
    ensures Cell(b', p.position) == p.name
    ensures forall r, c :: 0 <= r < Size && 0 <= c < Size && (r, c) != p.position ==> b'.grid[r][c] == b.grid[r][c]
    ensures b'.characters.Keys == b.characters.Keys + {p.name}
    ensures b'.characters[p.name] == p
    ensures forall k :: k in b.characters && k != p.name ==> b'.characters[k] == b.characters[k]
  {
    Board(SetCell(b.grid, p.position, p.name), b.characters[p.name := p])
  }

  /** The registered piece of that name, if any. */
  function GetCharacterByName(b: Board, name: string): (r: Option<Piece>)
    ensures r.Some? <==> name in b.characters
    ensures r.Some? ==> r.value == b.characters[name]
  {
    if name in b.characters then Some(b.characters[name]) else None
  }

  /**
   * Unregisters the named piece and clears the cell at its RECORDED
   * position; an unknown name leaves the board as it is.
   */
  function RemoveCharacter(b: Board, name: string): (b': Board)
    requires Valid(b)
    ensures Valid(b')
    ensures name !in b'.characters
    ensures b'.characters.Keys == b.characters.Keys - {name}
    ensures forall k :: k in b'.characters ==> b'.characters[k] == b.characters[k]
    ensures name !in b.characters ==> b' == b
    ensures name in b.characters ==> Cell(b', b.characters[name].position) == Empty
    ensures name in b.characters ==> forall r, c :: 0 <= r < Size && 0 <= c < Size && (r, c) != b.characters[name].position ==>
      b'.grid[r][c] == b.grid[r][c]
  {
    if name in b.characters then
      Board(SetCell(b.grid, b.characters[name].position, Empty), b.characters - {name})
    else
      b
  }

  /** Placement keeps the board consistent when the caller places a fresh name on an empty cell; the source checks neither. */
  lemma PlacePreservesConsistent(b: Board, p: Piece)
    requires Consistent(b) && InBounds(p.position)
    requires Cell(b, p.position) == Empty && p.name !in b.characters
    requires p.name != Empty && [p.name[0]] == p.player
    ensures Consistent(PlaceCharacter(b, p))
  {
    var b' := PlaceCharacter(b, p);
    forall k | k in b'.characters
      ensures Cell(b', b'.characters[k].position) == k
    {
      if k != p.name {
        assert Cell(b, b.characters[k].position) == k;
        assert b.characters[k].position != p.position;
      }
    }
  }

  /** A lookup right after placing finds the placed piece; other names are unaffected. */
  lemma GetAfterPlace(b: Board, p: Piece, name: string)
    requires Valid(b) && InBounds(p.position)
    ensures GetCharacterByName(PlaceCharacter(b, p), name) ==
      (if name == p.name then Some(p) else GetCharacterByName(b, name))
  {
  }

  /** Removing a piece just placed on an empty cell under a fresh name restores the board. */
  lemma RemoveUndoesPlace(b: Board, p: Piece)
    requires Valid(b) && InBounds(p.position)
    requires Cell(b, p.position) == Empty && p.name !in b.characters
    ensures RemoveCharacter(PlaceCharacter(b, p), p.name) == b
  {
    SetCellTwice(b.grid, p.position, p.name, Empty);
    SetCellSame(b.grid, p.position);
    assert b.characters[p.name := p] - {p.name} == b.characters;
  }

  /** Removal of a registered piece from a consistent board keeps it consistent. */
  lemma RemovePreservesConsistent(b: Board, name: string)
    requires Consistent(b)
    ensures Consistent(RemoveCharacter(b, name))
  {
    if name in b.characters {
      var b' := RemoveCharacter(b, name);
      forall k | k in b'.characters
        ensures Cell(b', b'.characters[k].position) == k
      {
        assert Cell(b, b.characters[k].position) == k;
      }
    }
  }
}
