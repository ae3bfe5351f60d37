// Directions, grid coordinates and 4-bit direction masks, shared by the maze
// generator and the movement engine.
module Compass {
  /** A coordinate (x, y), as glam's IVec2; arrays are indexed [y, x]. */
  type Pos = (int, int)

  /** A direction index: 0 = Right, 1 = Down, 2 = Left, 3 = Up. */
  type DirIdx = d: int | 0 <= d < 4

  const RIGHT: DirIdx := 0
  const DOWN: DirIdx := 1
  const LEFT: DirIdx := 2
  const UP: DirIdx := 3

  /** Unit offset of a direction (the COMPASS table). */
  function Offset(d: DirIdx): Pos
  {
    match d
    case 0 => (1, 0)
    case 1 => (0, 1)
    case 2 => (-1, 0)
    case 3 => (0, -1)
  }

  /** The direction pointing back: (d + 2) % 4. */
  function Opposite(d: DirIdx): (o: DirIdx)
    ensures Offset(o) == (-Offset(d).0, -Offset(d).1)
    ensures o != d && (o + 2) % 4 == d
  {
    (d + 2) % 4
  }

  /** The neighbour of `p` in direction `d`. */
  function Neighbour(p: Pos, d: DirIdx): (n: Pos)
    ensures n != p
    ensures (n.0 - Offset(d).0, n.1 - Offset(d).1) == p
  {
    (p.0 + Offset(d).0, p.1 + Offset(d).1)
  }

  /** The mask bit of a direction, 1 << d: the DirMask values 1, 2, 4, 8. */
  function Bit(d: DirIdx): bv8
  {
    match d
    case 0 => 1
    case 1 => 2
    case 2 => 4
    case 3 => 8
  }

  /** True when mask `m` is open toward direction `d`. */
  predicate Has(m: bv8, d: DirIdx)
  {
    m & Bit(d) != 0
  }

  /** True when `m` holds only the four direction bits. */
  predicate IsMask(m: bv8)
  {
    m & 0xF0 == 0
  }

  /** The `within` helper: 0 <= at < size in both coordinates. */
  predicate Within(at: Pos, size: Pos)
  {
    0 <= at.0 < size.0 && 0 <= at.1 < size.1
  }

  /** Stepping in a direction and then in its opposite returns to the start. */
  lemma StepBack(p: Pos, d: DirIdx)
    ensures Opposite(Opposite(d)) == d
    ensures Neighbour(Neighbour(p, d), Opposite(d)) == p
  {
  }

  /** The table agrees with the shift `1 << d` the carving loop uses. */
  lemma BitIsShift(d: DirIdx)
    ensures Bit(d) == (1 as bv8) << d
  {
    match d { case 0 => case 1 => case 2 => case 3 => }
  }

  /** Or-ing in a direction bit sets exactly that bit and keeps the others. */
  lemma SetBit(m: bv8, d: DirIdx)
    ensures forall e: DirIdx :: Has(m | Bit(d), e) <==> (Has(m, e) || e == d)
    ensures IsMask(m) ==> IsMask(m | Bit(d))
    ensures m | Bit(d) != 0
    ensures m & (m | Bit(d)) == m
  {
    forall e: DirIdx ensures Has(m | Bit(d), e) <==> (Has(m, e) || e == d) {
      SetBitAt(m, d, e);
    }
    BitIsMask(d);
  }

  lemma SetBitAt(m: bv8, d: DirIdx, e: DirIdx)
    ensures Has(m | Bit(d), e) <==> (Has(m, e) || e == d)
  {
    match d
    case 0 => match e { case 0 => case 1 => case 2 => case 3 => }
    case 1 => match e { case 0 => case 1 => case 2 => case 3 => }
    case 2 => match e { case 0 => case 1 => case 2 => case 3 => }
    case 3 => match e { case 0 => case 1 => case 2 => case 3 => }
  }

  lemma BitIsMask(d: DirIdx)
    ensures IsMask(Bit(d)) && Bit(d) != 0
  {
    match d { case 0 => case 1 => case 2 => case 3 => }
  }

  /** A mask is zero exactly when no direction bit is set. */
  lemma ZeroMask(m: bv8)
    requires IsMask(m)
    ensures m == 0 <==> forall e: DirIdx :: !Has(m, e)
  {
    if m != 0 {
      assert Has(m, 0) || Has(m, 1) || Has(m, 2) || Has(m, 3);
    }
  }
}
