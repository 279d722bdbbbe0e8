/**
 * Movement: the source's `Character.move` family and the two `Board`
 * methods that call it. A move is a pure function from a board and the
 * moving piece to an optional outcome; None means the source returned
 * None and mutated nothing.
 */
module Movement {
  import opened Wrappers
  import opened Pieces
  import opened Boards

  /** A successful move: the updated board, the moved piece and its destination. */
  datatype Moved = Moved(board: Board, mover: Piece, dest: Coord)

  /** An occupant counts as friendly when its name starts with the mover's player. */
  predicate Friendly(cell: string, player: string) {
    cell != Empty && [cell[0]] == player
  }

  predicate Hostile(cell: string, player: string) {
    cell != Empty && [cell[0]] != player
  }

  /**
   * On a well-named board the first letter of an occupied cell tells its
   * owner: a cell is friendly exactly when its piece belongs to `player`,
   * hostile exactly when it does not, and never both.
   */
  lemma CellSide(b: Board, cell: string, player: string)
    requires WellNamed(b) && cell in b.characters
    ensures Friendly(cell, player) <==> b.characters[cell].player == player
    ensures Hostile(cell, player) <==> b.characters[cell].player != player
    ensures Friendly(cell, player) != Hostile(cell, player)
  {
  }

  /** Hero1 and Hero2 remove the enemy they land on; a Pawn does not. */
  predicate Captures(kind: string) {
    kind == Hero1 || kind == Hero2
  }

  /**
   * The capture and grid/position update shared by all kinds. A hostile
   * occupant of `dest` is removed only when `killOpponent` is set; then the
   * mover's old cell is cleared, its name written at `dest`, and its
   * registry entry (when its name is still registered) moved along.
   */
  function UpdatePosition(b: Board, p: Piece, dest: Coord, killOpponent: bool): (m: Moved)
    requires Valid(b) && InBounds(p.position) && InBounds(dest)
    ensures Valid(m.board)
    ensures m.dest == dest && m.mover == p.(position := dest)
    ensures Cell(m.board, dest) == p.name
    ensures p.position != dest ==> Cell(m.board, p.position) == Empty
    ensures m.board.characters.Keys ==
      if killOpponent && Hostile(Cell(b, dest), p.player) then b.characters.Keys - {Cell(b, dest)}
      else b.characters.Keys
    ensures p.name in m.board.characters ==> m.board.characters[p.name] == m.mover
  {
    var target := Cell(b, dest);
    var b1 := if killOpponent && Hostile(target, p.player) then RemoveCharacter(b, target) else b;
    var grid := SetCell(SetCell(b1.grid, p.position, Empty), dest, p.name);
    var p' := p.(position := dest);
    var chars := if p.name in b1.characters then b1.characters[p.name := p'] else b1.characters;
    Moved(Board(grid, chars), p', dest)
  }

  /** One orthogonal step; refused off the board or onto a friendly occupant; never captures. */
  function MovePawn(b: Board, p: Piece, dir: string): (m: Option<Moved>)
    requires Valid(b) && InBounds(p.position)
    ensures m.Some? <==>
      && Displacement(Pawn, dir).Some?
      && InBounds(Add(p.position, Displacement(Pawn, dir).value))
      && !Friendly(Cell(b, Add(p.position, Displacement(Pawn, dir).value)), p.player)
    ensures m.Some? ==> m.value.board.characters.Keys == b.characters.Keys
  {
    match Displacement(Pawn, dir)
    case None => None
    case Some(d) =>
      var q := Add(p.position, d);
      if InBounds(q) && !Friendly(Cell(b, q), p.player) then Some(UpdatePosition(b, p, q, false))
      else None
  }

  /** Two orthogonal squares; refused off the board or onto a friendly occupant; captures. */
  function MoveHero1(b: Board, p: Piece, dir: string): (m: Option<Moved>)
    requires Valid(b) && InBounds(p.position)
    ensures m.Some? <==>
      && Displacement(Hero1, dir).Some?
      && InBounds(Add(p.position, Displacement(Hero1, dir).value))
      && !Friendly(Cell(b, Add(p.position, Displacement(Hero1, dir).value)), p.player)
    ensures m.Some? ==>
      var v := Cell(b, Add(p.position, Displacement(Hero1, dir).value));
      m.value.board.characters.Keys == if v == Empty then b.characters.Keys else b.characters.Keys - {v}
  {
    match Displacement(Hero1, dir)
    case None => None
    case Some(d) =>
      var q := Add(p.position, d);
      if InBounds(q) && !Friendly(Cell(b, q), p.player) then Some(UpdatePosition(b, p, q, true))
      else None
  }

  /** Two diagonal squares; refused only off the board (no occupancy check); captures. */
  function MoveHero2(b: Board, p: Piece, dir: string): (m: Option<Moved>)
    requires Valid(b) && InBounds(p.position)
    ensures m.Some? <==>
      Displacement(Hero2, dir).Some? && InBounds(Add(p.position, Displacement(Hero2, dir).value))
    ensures m.Some? ==>
      var v := Cell(b, Add(p.position, Displacement(Hero2, dir).value));
      m.value.board.characters.Keys == if Hostile(v, p.player) then b.characters.Keys - {v} else b.characters.Keys
  {
    match Displacement(Hero2, dir)
    case None => None
    case Some(d) =>
      var q := Add(p.position, d);
      if InBounds(q) then Some(UpdatePosition(b, p, q, true)) else None
  }

  /**
   * Reference legality rule, stated once for all kinds: the direction is
   * in the kind's table, the destination is on the board, and (except for
   * Hero2) it is not friendly-occupied. This predicate is not a function
   * of the source; it is what `Move` is proved against.
   */
  predicate LegalMove(b: Board, p: Piece, dir: string)
    requires Valid(b)
  {
    && Displacement(p.kind, dir).Some?
    && var q := Add(p.position, Displacement(p.kind, dir).value);
    && InBounds(q)
    && (p.kind == Hero2 || !Friendly(Cell(b, q), p.player))
  }

  /** The destination a direction would reach, when the kind knows the direction. */
  function Target(p: Piece, dir: string): Coord
    requires Displacement(p.kind, dir).Some?
  {
    Add(p.position, Displacement(p.kind, dir).value)
  }

  /** `Character.move`: dispatch on the exact kind tag; any other tag gives None. */
  function Move(b: Board, p: Piece, dir: string): (m: Option<Moved>)
    requires Valid(b) && InBounds(p.position)
    ensures m.Some? <==> LegalMove(b, p, dir)
    ensures !KnownKind(p.kind) ==> m.None?
    ensures dir !in Directions(p.kind) ==> m.None?
    ensures Displacement(p.kind, dir).Some? && !InBounds(Target(p, dir)) ==> m.None?
    ensures m.Some? ==>
      && m.value.dest == Target(p, dir)
      && InBounds(m.value.dest)
      && m.value.mover == p.(position := m.value.dest)
      && Valid(m.value.board)
      && Cell(m.value.board, m.value.dest) == p.name
      && Cell(m.value.board, p.position) == Empty
  {
    DisplacementDefinedIffListed(p.kind, dir);
    DisplacementNonZero(p.kind, dir);
    if p.kind == Pawn then MovePawn(b, p, dir)
    else if p.kind == Hero1 then MoveHero1(b, p, dir)
    else if p.kind == Hero2 then MoveHero2(b, p, dir)
    else None
  }

  /** The pieces a successful move changes the grid for are at most the mover's origin and destination. */
  lemma MoveFrame(b: Board, p: Piece, dir: string)
    requires Valid(b) && GridSound(b) && Registered(b, p)
    requires Move(b, p, dir).Some?
    ensures var b' := Move(b, p, dir).value.board;
      forall r, c :: 0 <= r < Size && 0 <= c < Size && (r, c) != p.position && (r, c) != Target(p, dir) ==>
        b'.grid[r][c] == b.grid[r][c]
  {
    var q := Target(p, dir);
    var target := Cell(b, q);
    if target != Empty && target in b.characters {
      assert b.characters[target].position == q;
    }
  }

  /** The occupant of the destination before the move. */
  function Victim(b: Board, p: Piece, dir: string): string
    requires Valid(b) && Displacement(p.kind, dir).Some? && InBounds(Target(p, dir))
  {
    Cell(b, Target(p, dir))
  }

  /** Whether a successful move removes the destination's occupant from the registry. */
  predicate Kills(b: Board, p: Piece, dir: string)
    requires Valid(b) && Displacement(p.kind, dir).Some? && InBounds(Target(p, dir))
  {
    Captures(p.kind) && Hostile(Victim(b, p, dir), p.player)
  }

  /** The registry after a move of a registered piece on a sound board (helper for the lemmas below). */
  lemma MoveRegistryShape(b: Board, p: Piece, dir: string)
    requires Valid(b) && GridSound(b) && Registered(b, p)
    requires Move(b, p, dir).Some?
    ensures var m := Move(b, p, dir).value;
      && m.board.characters ==
           (if Kills(b, p, dir) then (b.characters - {Victim(b, p, dir)})[p.name := m.mover]
            else b.characters[p.name := m.mover])
      && (Victim(b, p, dir) != Empty ==>
            Victim(b, p, dir) in b.characters && Victim(b, p, dir) != p.name
            && b.characters[Victim(b, p, dir)].position == Target(p, dir))
  {
    VictimIsAnother(b, p, dir);
  }

  /** On a sound board the occupant of a move's destination is another registered piece, recorded there. */
  lemma VictimIsAnother(b: Board, p: Piece, dir: string)
    requires Valid(b) && GridSound(b) && Registered(b, p)
    requires Displacement(p.kind, dir).Some? && InBounds(Target(p, dir))
    ensures Victim(b, p, dir) != Empty ==>
      && Victim(b, p, dir) in b.characters && Victim(b, p, dir) != p.name
      && b.characters[Victim(b, p, dir)].position == Target(p, dir)
  {
    DisplacementNonZero(p.kind, dir);
  }

  /**
   * Every move of a registered piece on a sound board keeps the board
   * sound: occupied cells still name pieces registered there, names still
   * match registry keys and players, and the mover stays registered.
   */
  lemma MovePreservesSoundness(b: Board, p: Piece, dir: string)
    requires Valid(b) && WellNamed(b) && GridSound(b) && Registered(b, p)
    requires Move(b, p, dir).Some?
    ensures var m := Move(b, p, dir).value;
      WellNamed(m.board) && GridSound(m.board) && Registered(m.board, m.mover)
  {
    var m := Move(b, p, dir).value;
    var b' := m.board;
    var q := Target(p, dir);
    MoveRegistryShape(b, p, dir);
    MoveFrame(b, p, dir);
    forall r, c | 0 <= r < Size && 0 <= c < Size && b'.grid[r][c] != Empty
      ensures b'.grid[r][c] in b'.characters && b'.characters[b'.grid[r][c]].position == (r, c)
    {
      if (r, c) != q && (r, c) != p.position {
        var n := b.grid[r][c];
        assert n in b.characters && b.characters[n].position == (r, c);
      }
    }
  }

  /**
   * Capture by Hero1 or Hero2: the enemy on the destination, and nothing
   * else, leaves the registry; the enemy side loses exactly one piece and
   * the mover's side keeps its count.
   */
  lemma CaptureRemovesExactlyOne(b: Board, p: Piece, dir: string)
    requires Valid(b) && WellNamed(b) && GridSound(b) && Registered(b, p)
    requires Move(b, p, dir).Some? && Kills(b, p, dir)
    ensures var b' := Move(b, p, dir).value.board; var v := Victim(b, p, dir);
      && v in b.characters && v !in b'.characters
      && b'.characters.Keys == b.characters.Keys - {v}
      && b.characters[v].player != p.player
      && |Roster(b', b.characters[v].player)| == |Roster(b, b.characters[v].player)| - 1
      && |Roster(b', p.player)| == |Roster(b, p.player)|
  {
    var m := Move(b, p, dir).value;
    var b' := m.board;
    var v := Victim(b, p, dir);
    MoveRegistryShape(b, p, dir);
    RosterAfterCapture(b, b', v, p.name, m.mover);
    var vs := b.characters[v].player;
    assert v in Roster(b, vs);
    assert v !in Roster(b, p.player);
  }

  /** Removing `v` and re-registering `name` on the same side shrinks every roster by exactly `v`. */
  lemma RosterAfterCapture(b: Board, b': Board, v: string, name: string, q: Piece)
    requires name in b.characters && name != v && q.player == b.characters[name].player
    requires b'.characters == (b.characters - {v})[name := q]
    ensures forall side :: Roster(b', side) == Roster(b, side) - {v}
  {
  }

  /**
   * A Pawn landing on an enemy overwrites the cell but removes nothing:
   * the enemy stays registered, still recorded at the destination, which
   * now shows the Pawn.
   */
  lemma PawnLeavesVictimStale(b: Board, p: Piece, dir: string)
    requires Valid(b) && GridSound(b) && Registered(b, p)
    requires p.kind == Pawn && Move(b, p, dir).Some? && Hostile(Victim(b, p, dir), p.player)
    ensures var b' := Move(b, p, dir).value.board; var v := Victim(b, p, dir);
      && b'.characters.Keys == b.characters.Keys
      && v in b'.characters && b'.characters[v] == b.characters[v]
      && b'.characters[v].position == Target(p, dir)
      && Cell(b', Target(p, dir)) == p.name != v
  {
    MoveRegistryShape(b, p, dir);
  }

  /** A Hero2 landing on a friendly piece overwrites it; that piece stays registered at the destination. */
  lemma Hero2OverwritesFriend(b: Board, p: Piece, dir: string)
    requires Valid(b) && GridSound(b) && Registered(b, p)
    requires p.kind == Hero2 && Move(b, p, dir).Some? && Friendly(Victim(b, p, dir), p.player)
    ensures var b' := Move(b, p, dir).value.board; var v := Victim(b, p, dir);
      && b'.characters.Keys == b.characters.Keys
      && v in b'.characters && b'.characters[v].position == Target(p, dir)
      && Cell(b', Target(p, dir)) == p.name != v
  {
    MoveRegistryShape(b, p, dir);
  }

  /** The two moves the full invariant does not survive: Pawn onto an enemy, Hero2 onto a friend. */
  predicate BreaksInvariant(b: Board, p: Piece, dir: string)
    requires Valid(b) && Displacement(p.kind, dir).Some? && InBounds(Target(p, dir))
  {
    || (p.kind == Pawn && Hostile(Victim(b, p, dir), p.player))
    || (p.kind == Hero2 && Friendly(Victim(b, p, dir), p.player))
  }

  /**
   * From a consistent board, a successful move of a registered piece
   * leaves the board consistent exactly when it is not one of the two
   * invariant-breaking moves.
   */
  lemma MoveKeepsConsistentIff(b: Board, p: Piece, dir: string)
    requires Consistent(b) && Registered(b, p)
    requires Move(b, p, dir).Some?
    ensures Consistent(Move(b, p, dir).value.board) <==> !BreaksInvariant(b, p, dir)
  {
    var m := Move(b, p, dir).value;
    var b' := m.board;
    var q := Target(p, dir);
    var v := Victim(b, p, dir);
    MovePreservesSoundness(b, p, dir);
    MoveRegistryShape(b, p, dir);
    MoveFrame(b, p, dir);
    if BreaksInvariant(b, p, dir) {
      assert v in b'.characters && b'.characters[v].position == q;
      assert Cell(b', q) != v;
    } else {
      forall k | k in b'.characters
        ensures Cell(b', b'.characters[k].position) == k
      {
        if k != p.name {
          var c := b.characters[k].position;
          assert Cell(b, c) == k;
          assert Cell(b, p.position) == p.name;
          assert c != q;
        }
      }
    }
  }

  /* ---------------------------------------------------------------- */
  /* get_possible_moves: a fold that really performs each move         */
  /* ---------------------------------------------------------------- */

  /** The state a possible-moves scan leaves behind, with the directions that succeeded. */
  datatype Scan = Scan(board: Board, mover: Piece, moves: seq<string>)

  /** `xs` is obtained from `ys` by deleting elements. */
  predicate IsSubsequence(xs: seq<string>, ys: seq<string>)
    decreases |ys|
  {
    if xs == [] then true
    else if ys == [] then false
    else if xs[0] == ys[0] then IsSubsequence(xs[1..], ys[1..])
    else IsSubsequence(xs, ys[1..])
  }

  lemma {:induction false} SubsequenceSkip(xs: seq<string>, y: string, ys: seq<string>)
    requires IsSubsequence(xs, ys)
    ensures IsSubsequence(xs, [y] + ys)
    decreases |ys|, 1
  {
    assert ([y] + ys)[1..] == ys;
    if xs != [] && xs[0] == y {
      SubsequenceDropFirst(xs, ys);
    }
  }

  lemma {:induction false} SubsequenceDropFirst(xs: seq<string>, ys: seq<string>)
    requires xs != [] && IsSubsequence(xs, ys)
    ensures IsSubsequence(xs[1..], ys)
    decreases |ys|, 0
  {
    assert ys != [];
    assert [ys[0]] + ys[1..] == ys;
    if xs[0] == ys[0] {
      SubsequenceSkip(xs[1..], ys[0], ys[1..]);
    } else {
      SubsequenceDropFirst(xs, ys[1..]);
      SubsequenceSkip(xs[1..], ys[0], ys[1..]);
    }
  }

  /** The sum of the displacements of `ds` (directions outside the table contribute nothing). */
  function Travel(kind: string, ds: seq<string>): Coord
    decreases |ds|
  {
    if ds == [] then (0, 0)
    else
      var d := match Displacement(kind, ds[0]) case Some(v) => v case None => (0, 0);
      Add(d, Travel(kind, ds[1..]))
  }

  /**
   * Tries each direction in order, threading the board and the moved piece
   * through every successful attempt, and collects the directions that
   * succeeded: the source's list comprehension over `move`.
   */
  function TryDirections(b: Board, p: Piece, dirs: seq<string>): (s: Scan)
    requires Valid(b) && InBounds(p.position)
    ensures Valid(s.board) && InBounds(s.mover.position)
    ensures s.mover == p.(position := s.mover.position)
    ensures IsSubsequence(s.moves, dirs)
    ensures s.moves == [] ==> s.board == b && s.mover == p
    decreases |dirs|
  {
    if dirs == [] then Scan(b, p, [])
    else
      var step := Move(b, p, dirs[0]);
      if step.None? then
        var rest := TryDirections(b, p, dirs[1..]);
        SubsequenceSkip(rest.moves, dirs[0], dirs[1..]);
        assert [dirs[0]] + dirs[1..] == dirs;
        rest
      else
        var rest := TryDirections(step.value.board, step.value.mover, dirs[1..]);
        Scan(rest.board, rest.mover, [dirs[0]] + rest.moves)
  }

  /**
   * Replays a list of directions as successive moves, each from the board
   * and piece the previous one left; None as soon as one is refused.
   */
  function Replay(b: Board, p: Piece, ds: seq<string>): (r: Option<(Board, Piece)>)
    requires Valid(b) && InBounds(p.position)
    ensures ds == [] ==> r == Some((b, p))
    ensures r.Some? ==> Valid(r.value.0) && InBounds(r.value.1.position)
    decreases |ds|
  {
    if ds == [] then Some((b, p))
    else
      match Move(b, p, ds[0])
      case None => None
      case Some(m) => Replay(m.board, m.mover, ds[1..])
  }

  /**
   * The directions a scan reports, replayed one after another from the
   * starting board, all succeed and end on exactly the board and piece the
   * scan leaves: each reported direction was tried from where the earlier
   * ones had moved the piece.
   */
  lemma {:induction false} ScanReplays(b: Board, p: Piece, dirs: seq<string>)
    requires Valid(b) && InBounds(p.position)
    ensures var s := TryDirections(b, p, dirs);
      Replay(b, p, s.moves) == Some((s.board, s.mover))
    decreases |dirs|
  {
    if dirs != [] {
      match Move(b, p, dirs[0])
      case None =>
        ScanReplays(b, p, dirs[1..]);
      case Some(m) =>
        ScanReplays(m.board, m.mover, dirs[1..]);
        var rest := TryDirections(m.board, m.mover, dirs[1..]);
        var moves := [dirs[0]] + rest.moves;
        assert moves[0] == dirs[0] && moves[1..] == rest.moves;
    }
  }

  /**
   * Scanning `xs + ys` is scanning `xs` and then scanning `ys` from the
   * board and piece the first part left, the reports concatenated.
   */
  lemma {:induction false} ScanAppend(b: Board, p: Piece, xs: seq<string>, ys: seq<string>)
    requires Valid(b) && InBounds(p.position)
    ensures var s1 := TryDirections(b, p, xs);
      var s2 := TryDirections(s1.board, s1.mover, ys);
      TryDirections(b, p, xs + ys) == Scan(s2.board, s2.mover, s1.moves + s2.moves)
    decreases |xs|
  {
    if xs == [] {
      assert xs + ys == ys;
    } else {
      assert (xs + ys)[0] == xs[0] && (xs + ys)[1..] == xs[1..] + ys;
      match Move(b, p, xs[0])
      case None =>
        ScanAppend(b, p, xs[1..], ys);
      case Some(m) =>
        ScanAppend(m.board, m.mover, xs[1..], ys);
        var r := TryDirections(m.board, m.mover, xs[1..]);
        var s2 := TryDirections(r.board, r.mover, ys);
        assert [xs[0]] + (r.moves + s2.moves) == ([xs[0]] + r.moves) + s2.moves;
    }
  }

  lemma {:induction false} SubsequenceIn(xs: seq<string>, ys: seq<string>)
    requires IsSubsequence(xs, ys)
    ensures forall k :: 0 <= k < |xs| ==> xs[k] in ys
    decreases |ys|
  {
    if xs != [] {
      if xs[0] == ys[0] {
        SubsequenceIn(xs[1..], ys[1..]);
        forall k | 1 <= k < |xs|
          ensures xs[k] in ys
        {
          assert xs[k] == xs[1..][k - 1];
        }
      } else {
        SubsequenceIn(xs, ys[1..]);
      }
    }
  }

  /**
   * Over distinct directions, a scan lists a direction exactly when the
   * move in that direction succeeds from the board and piece the scan of
   * the earlier directions left: nothing tried successfully is left out,
   * and nothing refused is listed.
   */
  lemma ScanListsExactlySuccesses(b: Board, p: Piece, ds: seq<string>)
    requires Valid(b) && InBounds(p.position)
    requires forall j, k :: 0 <= j < k < |ds| ==> ds[j] != ds[k]
    ensures forall i :: 0 <= i < |ds| ==>
      (ds[i] in TryDirections(b, p, ds).moves <==>
        var pre := TryDirections(b, p, ds[..i]);
        LegalMove(pre.board, pre.mover, ds[i]))
  {
    forall i | 0 <= i < |ds| {
      ScanListsAt(b, p, ds, i);
    }
  }

  /** The case of one index of the lemma above. */
  lemma ScanListsAt(b: Board, p: Piece, ds: seq<string>, i: int)
    requires Valid(b) && InBounds(p.position)
    requires forall j, k :: 0 <= j < k < |ds| ==> ds[j] != ds[k]
    requires 0 <= i < |ds|
    ensures ds[i] in TryDirections(b, p, ds).moves <==>
      var pre := TryDirections(b, p, ds[..i]);
      LegalMove(pre.board, pre.mover, ds[i])
  {
    SplitAt(ds, i);
    ScanListsBetween(b, p, ds[..i], ds[i], ds[i + 1..]);
  }

  /** A sequence is its prefix, the element at the split point and the suffix. */
  lemma SplitAt(ds: seq<string>, i: int)
    requires 0 <= i < |ds|
    requires forall j, k :: 0 <= j < k < |ds| ==> ds[j] != ds[k]
    ensures ds == ds[..i] + ([ds[i]] + ds[i + 1..])
    ensures ds[i] !in ds[..i] && ds[i] !in ds[i + 1..]
  {
    assert ds == ds[..i] + ([ds[i]] + ds[i + 1..]);
  }

  /** A direction `d` absent from `xs` and `ys` is listed exactly when it succeeds after scanning `xs`. */
  lemma ScanListsBetween(b: Board, p: Piece, xs: seq<string>, d: string, ys: seq<string>)
    requires Valid(b) && InBounds(p.position)
    requires d !in xs && d !in ys
    ensures d in TryDirections(b, p, xs + ([d] + ys)).moves <==>
      var pre := TryDirections(b, p, xs);
      LegalMove(pre.board, pre.mover, d)
  {
    var pre := TryDirections(b, p, xs);
    var post := TryDirections(pre.board, pre.mover, [d] + ys);
    ScanAppend(b, p, xs, [d] + ys);
    assert TryDirections(b, p, xs + ([d] + ys)).moves == pre.moves + post.moves;
    SubsequenceIn(pre.moves, xs);
    assert d !in pre.moves;
    ScanFirstDirection(pre.board, pre.mover, d, ys);
    if !LegalMove(pre.board, pre.mover, d) {
      var rest := TryDirections(pre.board, pre.mover, ys);
      SubsequenceIn(rest.moves, ys);
      assert d !in rest.moves;
    }
  }

  /** A scan leaves the piece displaced by the sum of the steps it reports. */
  lemma {:induction false} ScanTravel(b: Board, p: Piece, dirs: seq<string>)
    requires Valid(b) && InBounds(p.position)
    ensures var s := TryDirections(b, p, dirs);
      s.mover.position == Add(p.position, Travel(p.kind, s.moves))
    decreases |dirs|
  {
    if dirs != [] {
      var step := Move(b, p, dirs[0]);
      if step.None? {
        ScanTravel(b, p, dirs[1..]);
      } else {
        var m := step.value;
        var rest := TryDirections(m.board, m.mover, dirs[1..]);
        assert TryDirections(b, p, dirs) == Scan(rest.board, rest.mover, [dirs[0]] + rest.moves);
        ScanTravel(m.board, m.mover, dirs[1..]);
        TravelStep(p, m.mover, dirs[0], rest);
      }
    }
  }

  /** One reported step followed by the rest of a scan adds up to the whole scan's travel. */
  lemma TravelStep(p: Piece, q: Piece, d: string, rest: Scan)
    requires Displacement(p.kind, d).Some?
    requires q == p.(position := Add(p.position, Displacement(p.kind, d).value))
    requires rest.mover.position == Add(q.position, Travel(q.kind, rest.moves))
    ensures rest.mover.position == Add(p.position, Travel(p.kind, [d] + rest.moves))
  {
    TravelCons(p.kind, d, rest.moves);
  }

  lemma TravelCons(kind: string, d: string, ds: seq<string>)
    requires Displacement(kind, d).Some?
    ensures Travel(kind, [d] + ds) == Add(Displacement(kind, d).value, Travel(kind, ds))
  {
    assert ([d] + ds)[1..] == ds;
  }

  /**
   * `Character.get_possible_moves`: the scan over the kind's own table.
   * It returns the directions AND the board it has mutated along the way.
   */
  function GetPossibleMoves(b: Board, p: Piece): (s: Scan)
    requires Valid(b) && InBounds(p.position)
    ensures IsSubsequence(s.moves, Directions(p.kind))
    ensures !KnownKind(p.kind) ==> s == Scan(b, p, [])
    ensures s.moves == [] <==> LegalDirections(b, p, Directions(p.kind)) == []
    ensures s.moves != [] ==> s.moves[0] == LegalDirections(b, p, Directions(p.kind))[0]
    ensures s.mover.position == Add(p.position, Travel(p.kind, s.moves))
    ensures Replay(b, p, s.moves) == Some((s.board, s.mover))
    ensures WellNamed(b) && GridSound(b) && Registered(b, p) ==>
      WellNamed(s.board) && GridSound(s.board) && Registered(s.board, s.mover)
    ensures var ds := Directions(p.kind);
      forall i :: 0 <= i < |ds| ==>
        (ds[i] in s.moves <==>
          var pre := TryDirections(b, p, ds[..i]);
          LegalMove(pre.board, pre.mover, ds[i]))
  {
    var s := TryDirections(b, p, Directions(p.kind));
    ScanListsExactlySuccesses(b, p, Directions(p.kind));
    ScanEmptyIffNoneLegal(b, p, Directions(p.kind));
    ScanFirstIsFirstLegal(b, p, Directions(p.kind));
    ScanTravel(b, p, Directions(p.kind));
    ScanReplays(b, p, Directions(p.kind));
    if WellNamed(b) && GridSound(b) && Registered(b, p) then
      ScanPreservesSoundness(b, p, Directions(p.kind));
      s
    else s
  }

  /**
   * The first direction a scan reports is the first direction legal on
   * the unmodified board: until then the scan has not moved anything.
   */
  lemma {:induction false} ScanFirstIsFirstLegal(b: Board, p: Piece, dirs: seq<string>)
    requires Valid(b) && InBounds(p.position)
    ensures var s := TryDirections(b, p, dirs);
      s.moves != [] ==> LegalDirections(b, p, dirs) != [] && s.moves[0] == LegalDirections(b, p, dirs)[0]
    decreases |dirs|
  {
    if dirs != [] {
      assert dirs == [dirs[0]] + dirs[1..];
      ScanFirstDirection(b, p, dirs[0], dirs[1..]);
      if !LegalMove(b, p, dirs[0]) {
        ScanFirstIsFirstLegal(b, p, dirs[1..]);
      }
    }
  }

  /** The first direction of a scan is reported exactly when it is legal on the unmodified board. */
  lemma ScanFirstDirection(b: Board, p: Piece, d: string, ds: seq<string>)
    requires Valid(b) && InBounds(p.position)
    ensures var s := TryDirections(b, p, [d] + ds);
      (s.moves != [] && s.moves[0] == d) <== LegalMove(b, p, d)
    ensures !LegalMove(b, p, d) ==>
      TryDirections(b, p, [d] + ds) == TryDirections(b, p, ds)
  {
    assert ([d] + ds)[0] == d && ([d] + ds)[1..] == ds;
  }

  /**
   * The pure per-direction legality filter: which of the kind's
   * directions are legal from the unmodified board. Not a source
   * function; it differs from `GetPossibleMoves`, which moves the piece
   * between attempts.
   */
  function LegalDirections(b: Board, p: Piece, dirs: seq<string>): (ds: seq<string>)
    requires Valid(b)
    ensures IsSubsequence(ds, dirs)
    ensures forall i :: 0 <= i < |ds| ==> LegalMove(b, p, ds[i])
    ensures forall i :: 0 <= i < |dirs| && LegalMove(b, p, dirs[i]) ==> dirs[i] in ds
    decreases |dirs|
  {
    if dirs == [] then []
    else if LegalMove(b, p, dirs[0]) then
      var rest := LegalDirections(b, p, dirs[1..]);
      assert ([dirs[0]] + rest)[1..] == rest;
      [dirs[0]] + rest
    else
      var rest := LegalDirections(b, p, dirs[1..]);
      SubsequenceSkip(rest, dirs[0], dirs[1..]);
      assert [dirs[0]] + dirs[1..] == dirs;
      rest
  }

  /**
   * A scan reports nothing exactly when no direction is legal from the
   * unmodified board: until the first success the scan sees the board
   * as given.
   */
  lemma {:induction false} ScanEmptyIffNoneLegal(b: Board, p: Piece, dirs: seq<string>)
    requires Valid(b) && InBounds(p.position)
    ensures TryDirections(b, p, dirs).moves == [] <==> LegalDirections(b, p, dirs) == []
    decreases |dirs|
  {
    if dirs != [] && !LegalMove(b, p, dirs[0]) {
      ScanEmptyIffNoneLegal(b, p, dirs[1..]);
    }
  }

  /**
   * Every successful step of a scan by a registered piece on a sound board
   * keeps the board sound, so a scan leaves a sound board with the mover
   * still registered.
   */
  lemma {:induction false} ScanPreservesSoundness(b: Board, p: Piece, dirs: seq<string>)
    requires Valid(b) && WellNamed(b) && GridSound(b) && Registered(b, p) && InBounds(p.position)
    ensures var s := TryDirections(b, p, dirs);
      WellNamed(s.board) && GridSound(s.board) && Registered(s.board, s.mover)
    decreases |dirs|
  {
    if dirs != [] {
      match Move(b, p, dirs[0])
      case None =>
        ScanPreservesSoundness(b, p, dirs[1..]);
      case Some(m) =>
        MovePreservesSoundness(b, p, dirs[0]);
        ScanPreservesSoundness(m.board, m.mover, dirs[1..]);
    }
  }

  /* ---------------------------------------------------------------- */
  /* Board.move_character and Board.is_valid_move                      */
  /* ---------------------------------------------------------------- */

  /** Moves the named piece; false (board unchanged) for an unknown name or a refused move. */
  function MoveCharacter(b: Board, name: string, dir: string): (r: (Board, bool))
    requires Valid(b)
    ensures Valid(r.0)
    ensures r.1 <==> name in b.characters && LegalMove(b, b.characters[name], dir)
    ensures !r.1 ==> r.0 == b
    ensures r.1 ==> Cell(r.0, Target(b.characters[name], dir)) == b.characters[name].name
    ensures r.1 ==> r.0 == Move(b, b.characters[name], dir).value.board
  {
    if name in b.characters then
      match Move(b, b.characters[name], dir)
      case Some(m) => (m.board, true)
      case None => (b, false)
    else (b, false)
  }

  /**
   * Moving a registered piece by name keeps a sound board sound; on
   * success the piece is registered at the target and its old square is
   * empty, and the registry loses at most the captured name.
   */
  lemma MoveCharacterKeepsSoundness(b: Board, name: string, dir: string)
    requires Valid(b) && WellNamed(b) && GridSound(b)
    ensures var r := MoveCharacter(b, name, dir);
      && WellNamed(r.0) && GridSound(r.0)
      && (r.1 ==>
            var p := b.characters[name];
            && Registered(r.0, p.(position := Target(p, dir)))
            && Cell(r.0, p.position) == Empty
            && b.characters.Keys - {Victim(b, p, dir)} <= r.0.characters.Keys <= b.characters.Keys)
  {
    if name in b.characters {
      var p := b.characters[name];
      if Move(b, p, dir).Some? {
        MovePreservesSoundness(b, p, dir);
        MoveRegistryShape(b, p, dir);
      }
    }
  }

  /**
   * Despite its name, performs the move exactly like `MoveCharacter`,
   * returning the destination instead of a flag.
   */
  function IsValidMove(b: Board, name: string, dir: string): (r: (Board, Option<Coord>))
    requires Valid(b)
    ensures r.0 == MoveCharacter(b, name, dir).0
    ensures r.1.Some? <==> MoveCharacter(b, name, dir).1
    ensures r.1.Some? ==> r.1.value == Target(b.characters[name], dir) && InBounds(r.1.value)
  {
    if name in b.characters then
      match Move(b, b.characters[name], dir)
      case Some(m) => (m.board, Some(m.dest))
      case None => (b, None)
    else (b, None)
  }
}
