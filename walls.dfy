// Wall derivation (src/room.rs, room_push_fill_random, lines 80-107).
//
// The walls grid has one entry per intersection of the lines separating the routes
// cells, (TILES + 1) x (TILES + 1) of them. Intersection (x, y) is the corner shared by
// cells (x - 1, y - 1), (x, y - 1), (x - 1, y) and (x, y), and its mask says which of the
// four wall segments leaving it are drawn: an arm is drawn unless the two cells on either
// side of it are joined by a passage.
module Walls {
  import opened Constants
  import opened Compass
  import opened Carving

  /** Intersections per side, walls_bound = routes_bound + 1. */
  const CROSSINGS: nat := TILES + 1

  /** Cell `c` has no passage toward `d`: it is off the map, or its bit for `d` is clear. */
  ghost predicate Lacks(g: Grid, c: Pos, d: DirIdx)
    requires IsGrid(g)
  {
    !InGrid(c) || !Has(g[c], d)
  }

  /** The mask with the named directions set. */
  function Mask(up: bool, down: bool, left: bool, right: bool): bv8
  {
    (if up then Bit(UP) else 0) | (if down then Bit(DOWN) else 0) |
    (if left then Bit(LEFT) else 0) | (if right then Bit(RIGHT) else 0)
  }

  /** The arms the first pass sets at (x, y): Up unless the cell up-left of it opens Right,
      Down unless the cell down-left of it opens Right (room.rs, lines 84-95). */
  ghost function UpDownArms(g: Grid, x: int, y: int): bv8
    requires IsGrid(g)
  {
    Mask(Lacks(g, (x - 1, y - 1), RIGHT), Lacks(g, (x - 1, y), RIGHT), false, false)
  }

  /** The arms the second pass sets at (x, y): Left unless the cell up-left of it opens
      Down, Right unless the cell up-right of it opens Down (room.rs, lines 96-107). */
  ghost function LeftRightArms(g: Grid, x: int, y: int): bv8
    requires IsGrid(g)
  {
    Mask(false, false, Lacks(g, (x - 1, y - 1), DOWN), Lacks(g, (x, y - 1), DOWN))
  }

  /** The mask both passes leave at intersection (x, y). */
  ghost function WallMask(g: Grid, x: int, y: int): bv8
    requires IsGrid(g)
  {
    UpDownArms(g, x, y) | LeftRightArms(g, x, y)
  }

  /** Cell `c` and its neighbour toward `d` are both on the map and open toward each other. */
  ghost predicate Joined(g: Grid, c: Pos, d: DirIdx)
  {
    c in g && Neighbour(c, d) in g && Has(g[c], d) && Has(g[Neighbour(c, d)], Opposite(d))
  }

  /** The passages of a cell read back from the arms at three of its corners: the one to
      its right on its upper edge, the one below it on its left edge, and the one diagonally
      below-right of it. */
  function Passages(upperRight: bv8, lowerLeft: bv8, lowerRight: bv8): bv8
  {
    Mask(!Has(upperRight, LEFT), !Has(lowerRight, LEFT), !Has(lowerLeft, UP), !Has(lowerRight, UP))
  }

  // ---------------------------------------------------------------------------
  // What the wall mask means

  /** Each arm is set exactly when the cell the source consults is off the map or lacks
      the named bit; no other bit is set. */
  lemma ArmsAre(g: Grid, x: int, y: int)
    requires IsGrid(g)
    ensures IsMask(WallMask(g, x, y))
    ensures Has(WallMask(g, x, y), UP) <==> Lacks(g, (x - 1, y - 1), RIGHT)
    ensures Has(WallMask(g, x, y), DOWN) <==> Lacks(g, (x - 1, y), RIGHT)
    ensures Has(WallMask(g, x, y), LEFT) <==> Lacks(g, (x - 1, y - 1), DOWN)
    ensures Has(WallMask(g, x, y), RIGHT) <==> Lacks(g, (x, y - 1), DOWN)
  {
    var up, down := Lacks(g, (x - 1, y - 1), RIGHT), Lacks(g, (x - 1, y), RIGHT);
    var left, right := Lacks(g, (x - 1, y - 1), DOWN), Lacks(g, (x, y - 1), DOWN);
    ArmsJoin(up, down, left, right);
    ArmsHas(up, down, left, right);
  }

  /** The two passes' contributions add up to the mask with all four arms. */
  lemma ArmsJoin(up: bool, down: bool, left: bool, right: bool)
    ensures Mask(up, down, false, false) | Mask(false, false, left, right) == Mask(up, down, left, right)
  {
  }

  /** The mask `Arms` builds holds exactly the arms asked for. */
  lemma ArmsHas(up: bool, down: bool, left: bool, right: bool)
    ensures IsMask(Mask(up, down, left, right))
    ensures Has(Mask(up, down, left, right), UP) <==> up
    ensures Has(Mask(up, down, left, right), DOWN) <==> down
    ensures Has(Mask(up, down, left, right), LEFT) <==> left
    ensures Has(Mask(up, down, left, right), RIGHT) <==> right
  {
  }

  /** On a carved grid an arm is drawn exactly when the two cells on either side of it are
      not joined by a passage, whichever of the two cells is asked. */
  lemma ArmsSeparate(g: Grid, x: int, y: int)
    requires Carved(g)
    ensures Has(WallMask(g, x, y), UP) <==> !Joined(g, (x - 1, y - 1), RIGHT)
    ensures Has(WallMask(g, x, y), DOWN) <==> !Joined(g, (x - 1, y), RIGHT)
    ensures Has(WallMask(g, x, y), LEFT) <==> !Joined(g, (x - 1, y - 1), DOWN)
    ensures Has(WallMask(g, x, y), RIGHT) <==> !Joined(g, (x, y - 1), DOWN)
  {
    ArmsAre(g, x, y);
    NotJoined(g, (x - 1, y - 1), RIGHT);
    NotJoined(g, (x - 1, y), RIGHT);
    NotJoined(g, (x - 1, y - 1), DOWN);
    NotJoined(g, (x, y - 1), DOWN);
  }

  /** On a carved grid a cell and its neighbour are joined exactly when the cell opens
      toward the neighbour. */
  lemma NotJoined(g: Grid, c: Pos, d: DirIdx)
    requires Carved(g)
    ensures Lacks(g, c, d) <==> !Joined(g, c, d)
  {
    if InGrid(c) && Has(g[c], d) {
      assert Neighbour(c, d) in g;
    }
  }

  /** Along the border of the map every arm that runs along the border is drawn, and each
      of the four corners is walled on all sides. The top row and the left column need
      nothing of the grid; the bottom row and the right column need that no passage leads
      off the map. */
  lemma Border(g: Grid, x: int, y: int)
    requires IsGrid(g) && StaysOnMap(g) && 0 <= x < CROSSINGS && 0 <= y < CROSSINGS
    ensures y == 0 ==> Has(WallMask(g, x, y), LEFT) && Has(WallMask(g, x, y), RIGHT)
    ensures y == TILES ==> Has(WallMask(g, x, y), LEFT) && Has(WallMask(g, x, y), RIGHT)
    ensures x == 0 ==> Has(WallMask(g, x, y), UP) && Has(WallMask(g, x, y), DOWN)
    ensures x == TILES ==> Has(WallMask(g, x, y), UP) && Has(WallMask(g, x, y), DOWN)
    ensures (x == 0 || x == TILES) && (y == 0 || y == TILES) ==> WallMask(g, x, y) == 15
  {
    ArmsAre(g, x, y);
    OffMap(g, (x - 1, y - 1));
    OffMap(g, (x - 1, y));
    OffMap(g, (x, y - 1));
    if (x == 0 || x == TILES) && (y == 0 || y == TILES) {
      FullMask(WallMask(g, x, y));
    }
  }

  /** A cell on the last row lacks Down, one in the last column lacks Right. */
  lemma OffMap(g: Grid, c: Pos)
    requires IsGrid(g) && StaysOnMap(g)
    ensures c.0 == TILES - 1 ==> Lacks(g, c, RIGHT)
    ensures c.1 == TILES - 1 ==> Lacks(g, c, DOWN)
  {
    if InGrid(c) && Has(g[c], RIGHT) {
      assert Neighbour(c, RIGHT) in g;
    }
    if InGrid(c) && Has(g[c], DOWN) {
      assert Neighbour(c, DOWN) in g;
    }
  }

  lemma FullMask(m: bv8)
    requires IsMask(m) && Has(m, UP) && Has(m, DOWN) && Has(m, LEFT) && Has(m, RIGHT)
    ensures m == 15
  {
  }

  /** Two masks with the same direction bits are equal. */
  lemma SameBits(m: bv8, n: bv8)
    requires IsMask(m) && IsMask(n)
    requires forall e: DirIdx :: Has(m, e) <==> Has(n, e)
    ensures m == n
  {
    assert Has(m, 0) == Has(n, 0) && Has(m, 1) == Has(n, 1);
    assert Has(m, 2) == Has(n, 2) && Has(m, 3) == Has(n, 3);
  }

  /** The walls lose nothing: on a carved grid the passages of every cell can be read back
      from the arms at its corners. */
  lemma RoundTrip(g: Grid, x: int, y: int)
    requires Carved(g) && (x, y) in g
    ensures Passages(WallMask(g, x + 1, y), WallMask(g, x, y + 1), WallMask(g, x + 1, y + 1)) == g[(x, y)]
  {
    CornerArms(g, x, y);
    CellBits(g, x, y);
    MaskOf(g[(x, y)]);
  }

  /** The arms at three corners of cell (x, y), as the cells they consult. */
  lemma CornerArms(g: Grid, x: int, y: int)
    requires IsGrid(g)
    ensures !Has(WallMask(g, x + 1, y), LEFT) <==> !Lacks(g, (x, y - 1), DOWN)
    ensures !Has(WallMask(g, x + 1, y + 1), LEFT) <==> !Lacks(g, (x, y), DOWN)
    ensures !Has(WallMask(g, x, y + 1), UP) <==> !Lacks(g, (x - 1, y), RIGHT)
    ensures !Has(WallMask(g, x + 1, y + 1), UP) <==> !Lacks(g, (x, y), RIGHT)
  {
    ArmsAre(g, x + 1, y);
    ArmsAre(g, x, y + 1);
    ArmsAre(g, x + 1, y + 1);
  }

  /** The bits of cell (x, y) of a carved grid, as the cells the wall passes consult. */
  lemma CellBits(g: Grid, x: int, y: int)
    requires Carved(g) && (x, y) in g
    ensures Has(g[(x, y)], UP) <==> !Lacks(g, (x, y - 1), DOWN)
    ensures Has(g[(x, y)], DOWN) <==> !Lacks(g, (x, y), DOWN)
    ensures Has(g[(x, y)], LEFT) <==> !Lacks(g, (x - 1, y), RIGHT)
    ensures Has(g[(x, y)], RIGHT) <==> !Lacks(g, (x, y), RIGHT)
  {
    assert Neighbour((x, y), LEFT) == (x - 1, y) && Opposite(LEFT) == RIGHT;
    assert Neighbour((x, y), UP) == (x, y - 1) && Opposite(UP) == DOWN;
    Reverse(g, (x, y), LEFT);
    Reverse(g, (x, y), UP);
  }

  /** On a carved grid a cell opens toward `d` exactly when its neighbour there opens back. */
  lemma Reverse(g: Grid, c: Pos, d: DirIdx)
    requires Carved(g) && c in g
    ensures Has(g[c], d) <==> !Lacks(g, Neighbour(c, d), Opposite(d))
  {
    if Neighbour(c, d) in g {
      assert Has(g[c], d) <==> Has(g[Neighbour(c, d)], Opposite(d));
    } else {
      assert !Has(g[c], d);
    }
  }

  /** A mask is the mask of its own direction bits. */
  lemma MaskOf(m: bv8)
    requires IsMask(m)
    ensures m == Mask(Has(m, UP), Has(m, DOWN), Has(m, LEFT), Has(m, RIGHT))
  {
    ArmsHas(Has(m, UP), Has(m, DOWN), Has(m, LEFT), Has(m, RIGHT));
    SameBits(m, Mask(Has(m, UP), Has(m, DOWN), Has(m, LEFT), Has(m, RIGHT)));
  }

  // ---------------------------------------------------------------------------
  // The two passes over the walls array

  /** What the source reads for cell `c` is what the grid view of the array says. */
  lemma LacksIs(routes: array2<bv8>, c: Pos, d: DirIdx)
    requires routes.Length0 == TILES && routes.Length1 == TILES
    ensures Lacks(Snapshot(routes), c, d) <==> !Within(c, BOUND) || routes[c.1, c.0] & Bit(d) == 0
  {
    if InGrid(c) {
      assert c in AllCells;
    }
  }

  /** The body of the first pass at one intersection (room.rs, lines 86-93). */
  method SetUpDown(routes: array2<bv8>, walls: array2<bv8>, x: nat, y: nat, ghost g: Grid)
    requires routes.Length0 == TILES && routes.Length1 == TILES && g == Snapshot(routes)
    requires walls.Length0 == CROSSINGS && walls.Length1 == CROSSINGS && routes != walls
    requires x < CROSSINGS && y < CROSSINGS && walls[y, x] == 0
    modifies walls
    ensures walls[y, x] == UpDownArms(g, x, y)
    ensures forall j, i :: 0 <= j < CROSSINGS && 0 <= i < CROSSINGS && (j != y || i != x) ==>
      walls[j, i] == old(walls[j, i])
  {
    var upLeft := (x - 1, y - 1);
    var downLeft := (x - 1, y);
    LacksIs(routes, upLeft, RIGHT);
    LacksIs(routes, downLeft, RIGHT);
    if !Within(upLeft, BOUND) || routes[upLeft.1, upLeft.0] & Bit(RIGHT) == 0 {
      walls[y, x] := walls[y, x] | Bit(UP);
    }
    if !Within(downLeft, BOUND) || routes[downLeft.1, downLeft.0] & Bit(RIGHT) == 0 {
      walls[y, x] := walls[y, x] | Bit(DOWN);
    }
  }

  /** The body of the second pass at one intersection (room.rs, lines 98-105). */
  method SetLeftRight(routes: array2<bv8>, walls: array2<bv8>, x: nat, y: nat, ghost g: Grid)
    requires routes.Length0 == TILES && routes.Length1 == TILES && g == Snapshot(routes)
    requires walls.Length0 == CROSSINGS && walls.Length1 == CROSSINGS && routes != walls
    requires x < CROSSINGS && y < CROSSINGS && walls[y, x] == UpDownArms(g, x, y)
    modifies walls
    ensures walls[y, x] == WallMask(g, x, y)
    ensures forall j, i :: 0 <= j < CROSSINGS && 0 <= i < CROSSINGS && (j != y || i != x) ==>
      walls[j, i] == old(walls[j, i])
  {
    var upLeft := (x - 1, y - 1);
    var upRight := (x, y - 1);
    LacksIs(routes, upLeft, DOWN);
    LacksIs(routes, upRight, DOWN);
    if !Within(upLeft, BOUND) || routes[upLeft.1, upLeft.0] & Bit(DOWN) == 0 {
      walls[y, x] := walls[y, x] | Bit(LEFT);
    }
    if !Within(upRight, BOUND) || routes[upRight.1, upRight.0] & Bit(DOWN) == 0 {
      walls[y, x] := walls[y, x] | Bit(RIGHT);
    }
  }

  /** The first pass over one row of intersections. */
  method UpDownRow(routes: array2<bv8>, walls: array2<bv8>, y: nat, ghost g: Grid)
    requires routes.Length0 == TILES && routes.Length1 == TILES && g == Snapshot(routes)
    requires walls.Length0 == CROSSINGS && walls.Length1 == CROSSINGS && routes != walls
    requires y < CROSSINGS && forall i :: 0 <= i < CROSSINGS ==> walls[y, i] == 0
    modifies walls
    ensures forall i :: 0 <= i < CROSSINGS ==> walls[y, i] == UpDownArms(g, i, y)
    ensures forall j, i :: 0 <= j < CROSSINGS && 0 <= i < CROSSINGS && j != y ==> walls[j, i] == old(walls[j, i])
  {
    var x := 0;
    while x < CROSSINGS
      invariant 0 <= x <= CROSSINGS && g == Snapshot(routes)
      invariant forall i :: 0 <= i < CROSSINGS ==> walls[y, i] == if i < x then UpDownArms(g, i, y) else 0
      invariant forall j, i :: 0 <= j < CROSSINGS && 0 <= i < CROSSINGS && j != y ==> walls[j, i] == old(walls[j, i])
    {
      SetUpDown(routes, walls, x, y, g);
      x := x + 1;
    }
  }

  /** The first pass: every intersection, row by row, gets its Up and Down arms
      (room.rs, lines 84-95). */
  method UpDownPass(routes: array2<bv8>, walls: array2<bv8>, ghost g: Grid)
    requires routes.Length0 == TILES && routes.Length1 == TILES && g == Snapshot(routes)
    requires walls.Length0 == CROSSINGS && walls.Length1 == CROSSINGS && routes != walls
    requires forall j, i :: 0 <= j < CROSSINGS && 0 <= i < CROSSINGS ==> walls[j, i] == 0
    modifies walls
    ensures forall j, i :: 0 <= j < CROSSINGS && 0 <= i < CROSSINGS ==> walls[j, i] == UpDownArms(g, i, j)
  {
    var y := 0;
    while y < CROSSINGS
      invariant 0 <= y <= CROSSINGS && g == Snapshot(routes)
      invariant forall j, i :: 0 <= j < CROSSINGS && 0 <= i < CROSSINGS ==>
        walls[j, i] == if j < y then UpDownArms(g, i, j) else 0
    {
      UpDownRow(routes, walls, y, g);
      y := y + 1;
    }
  }

  /** The second pass over one row of intersections. */
  method LeftRightRow(routes: array2<bv8>, walls: array2<bv8>, y: nat, ghost g: Grid)
    requires routes.Length0 == TILES && routes.Length1 == TILES && g == Snapshot(routes)
    requires walls.Length0 == CROSSINGS && walls.Length1 == CROSSINGS && routes != walls
    requires y < CROSSINGS && forall i :: 0 <= i < CROSSINGS ==> walls[y, i] == UpDownArms(g, i, y)
    modifies walls
    ensures forall i :: 0 <= i < CROSSINGS ==> walls[y, i] == WallMask(g, i, y)
    ensures forall j, i :: 0 <= j < CROSSINGS && 0 <= i < CROSSINGS && j != y ==> walls[j, i] == old(walls[j, i])
  {
    var x := 0;
    while x < CROSSINGS
      invariant 0 <= x <= CROSSINGS && g == Snapshot(routes)
      invariant forall i :: 0 <= i < CROSSINGS ==> walls[y, i] == if i < x then WallMask(g, i, y) else UpDownArms(g, i, y)
      invariant forall j, i :: 0 <= j < CROSSINGS && 0 <= i < CROSSINGS && j != y ==> walls[j, i] == old(walls[j, i])
    {
      SetLeftRight(routes, walls, x, y, g);
      x := x + 1;
    }
  }

  /** The second pass: every intersection, row by row, gets its Left and Right arms
      (room.rs, lines 96-107). */
  method LeftRightPass(routes: array2<bv8>, walls: array2<bv8>, ghost g: Grid)
    requires routes.Length0 == TILES && routes.Length1 == TILES && g == Snapshot(routes)
    requires walls.Length0 == CROSSINGS && walls.Length1 == CROSSINGS && routes != walls
    requires forall j, i :: 0 <= j < CROSSINGS && 0 <= i < CROSSINGS ==> walls[j, i] == UpDownArms(g, i, j)
    modifies walls
    ensures forall j, i :: 0 <= j < CROSSINGS && 0 <= i < CROSSINGS ==> walls[j, i] == WallMask(g, i, j)
  {
    var y := 0;
    while y < CROSSINGS
      invariant 0 <= y <= CROSSINGS && g == Snapshot(routes)
      invariant forall j, i :: 0 <= j < CROSSINGS && 0 <= i < CROSSINGS ==>
        walls[j, i] == if j < y then WallMask(g, i, j) else UpDownArms(g, i, j)
    {
      LeftRightRow(routes, walls, y, g);
      y := y + 1;
    }
  }

  /** Builds the walls grid from the routes grid: a zeroed (TILES + 1) x (TILES + 1) array,
      then the two passes. */
  method DeriveWalls(routes: array2<bv8>) returns (walls: array2<bv8>)
    requires routes.Length0 == TILES && routes.Length1 == TILES
    ensures fresh(walls) && walls.Length0 == CROSSINGS && walls.Length1 == CROSSINGS
    ensures forall y, x :: 0 <= y < CROSSINGS && 0 <= x < CROSSINGS ==>
      walls[y, x] == WallMask(Snapshot(routes), x, y)
  {
    ghost var g := Snapshot(routes);
    walls := new bv8[CROSSINGS, CROSSINGS]((y, x) => 0);
    UpDownPass(routes, walls, g);
    LeftRightPass(routes, walls, g);
  }
}
