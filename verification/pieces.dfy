/**
 * Pieces: the data of one game piece (the source's `Character`) and the
 * per-kind direction tables that its movement methods consult.
 */
module Pieces {
  import opened Wrappers

  /** The board is `Size` by `Size`. */
  const Size: int := 5

  /** A (row, column) pair; rows grow towards side B. */
  type Coord = (int, int)

  predicate InBounds(c: Coord) {
    0 <= c.0 < Size && 0 <= c.1 < Size
  }

  function Add(c: Coord, d: Coord): Coord {
    (c.0 + d.0, c.1 + d.1)
  }

  /**
   * A piece. `kind` is the type tag the movement dispatch compares
   * against, `player` the owning side; both are plain strings, as in the
   * source, so a tag such as "P1" is representable (and immobile).
   */
  datatype Piece = Piece(name: string, kind: string, position: Coord, player: string)

  /** The three kind tags the movement dispatch recognises. */
  const Pawn: string := "P"
  const Hero1: string := "H1"
  const Hero2: string := "H2"

  predicate KnownKind(kind: string) {
    kind == Pawn || kind == Hero1 || kind == Hero2
  }

  /** The direction vocabulary of a kind, in the order the possible-moves scan tries it. */
  function Directions(kind: string): (ds: seq<string>)
    ensures ds != [] <==> KnownKind(kind)
    ensures ds != [] ==> |ds| == 4
    ensures forall i, j :: 0 <= i < j < |ds| ==> ds[i] != ds[j]
  {
    if kind == Pawn || kind == Hero1 then ["L", "R", "F", "B"]
    else if kind == Hero2 then ["FL", "FR", "BL", "BR"]
    else []
  }

  /** An orthogonal step of length `n` for the left/right/forward/back symbols. */
  function Orthogonal(dir: string, n: int): Option<Coord> {
    if dir == "L" then Some((0, -n))
    else if dir == "R" then Some((0, n))
    else if dir == "F" then Some((-n, 0))
    else if dir == "B" then Some((n, 0))
    else None
  }

  /** A diagonal jump of two squares for the four corner symbols. */
  function Diagonal(dir: string): Option<Coord> {
    if dir == "FL" then Some((-2, -2))
    else if dir == "FR" then Some((-2, 2))
    else if dir == "BL" then Some((2, -2))
    else if dir == "BR" then Some((2, 2))
    else None
  }

  function Abs(x: int): nat {
    if x < 0 then -x else x
  }

  /**
   * The displacement a direction symbol produces for a kind, or None when
   * the symbol is not in that kind's table or the kind is not recognised.
   * Pawns step one square orthogonally, Hero1 two squares orthogonally and
   * Hero2 two squares diagonally.
   */
  function Displacement(kind: string, dir: string): (d: Option<Coord>)
    ensures d.Some? ==> KnownKind(kind) && dir in Directions(kind)
    ensures d.Some? && kind == Pawn ==> Abs(d.value.0) + Abs(d.value.1) == 1
    ensures d.Some? && kind == Hero1 ==>
      (d.value.0 == 0 && Abs(d.value.1) == 2) || (d.value.1 == 0 && Abs(d.value.0) == 2)
    ensures d.Some? && kind == Hero2 ==> Abs(d.value.0) == 2 && Abs(d.value.1) == 2
  {
    if kind == Pawn then Orthogonal(dir, 1)
    else if kind == Hero1 then Orthogonal(dir, 2)
    else if kind == Hero2 then Diagonal(dir)
    else None
  }

  /** A displacement exists exactly for the symbols the kind lists. */
  lemma DisplacementDefinedIffListed(kind: string, dir: string)
    ensures Displacement(kind, dir).Some? <==> dir in Directions(kind)
  {
  }

  /** Every listed direction of a kind moves the piece (the displacement is never zero). */
  lemma DisplacementNonZero(kind: string, dir: string)
    ensures Displacement(kind, dir).Some? ==> Displacement(kind, dir).value != (0, 0)
  {
  }

  /**
   * The tables are complete: every one-square orthogonal step is a Pawn
   * direction, every two-square orthogonal step a Hero1 direction and
   * every two-square diagonal jump a Hero2 direction.
   */
  lemma TablesCoverAllSteps(d: Coord)
    ensures Abs(d.0) + Abs(d.1) == 1 ==>
      exists dir :: dir in Directions(Pawn) && Displacement(Pawn, dir) == Some(d)
    ensures (d.0 == 0 && Abs(d.1) == 2) || (d.1 == 0 && Abs(d.0) == 2) ==>
      exists dir :: dir in Directions(Hero1) && Displacement(Hero1, dir) == Some(d)
    ensures Abs(d.0) == 2 && Abs(d.1) == 2 ==>
      exists dir :: dir in Directions(Hero2) && Displacement(Hero2, dir) == Some(d)
  {
    if Abs(d.0) + Abs(d.1) == 1 {
      var dir := if d == (0, -1) then "L" else if d == (0, 1) then "R" else if d == (-1, 0) then "F" else "B";
      assert Displacement(Pawn, dir) == Some(d);
    }
    if (d.0 == 0 && Abs(d.1) == 2) || (d.1 == 0 && Abs(d.0) == 2) {
      var dir := if d == (0, -2) then "L" else if d == (0, 2) then "R" else if d == (-2, 0) then "F" else "B";
      assert Displacement(Hero1, dir) == Some(d);
    }
    if Abs(d.0) == 2 && Abs(d.1) == 2 {
      var dir := if d == (-2, -2) then "FL" else if d == (-2, 2) then "FR" else if d == (2, -2) then "BL" else "BR";
      assert Displacement(Hero2, dir) == Some(d);
    }
  }
}
