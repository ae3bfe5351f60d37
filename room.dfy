// The whole of room_push_fill_random (src/room.rs, lines 33-146) as far as it is integer
// logic: carve the routes grid, derive the walls grid from it, and count how many wall
// sprites fit in the sprite buffer. The returned count is the function's u64 result.
module RoomFill {
  import opened Constants
  import opened Compass
  import opened Carving
  import opened Walls

  function Min(a: nat, b: nat): nat
  {
    if a <= b then a else b
  }

  /** The number of sprites written: the loop over the walls grid appends one sprite
      record of SPRITE_SIZE bytes per intersection, in row-major order, and stops as soon
      as the next record would overflow a buffer of `bufferSize` bytes
      (room.rs, lines 121-146). */
  method SpriteCount(bufferSize: nat) returns (count: nat)
    ensures count == Min(CROSSINGS * CROSSINGS, bufferSize / SPRITE_SIZE)
    ensures count * SPRITE_SIZE <= bufferSize
    ensures bufferSize >= SPRITES_MAX * SPRITE_SIZE ==> count == CROSSINGS * CROSSINGS
  {
    assert CROSSINGS == 12 && SPRITE_SIZE == 32;
    var len: nat := 0;
    ghost var sprites: nat := 0;
    label grid: {
      var y := 0;
      while y < CROSSINGS
        invariant 0 <= y <= CROSSINGS && sprites == 12 * y
        invariant len == 32 * sprites && len <= bufferSize
      {
        var x := 0;
        while x < CROSSINGS
          invariant 0 <= x <= CROSSINGS && sprites == 12 * y + x
          invariant len == 32 * sprites && len <= bufferSize
        {
          if len + SPRITE_SIZE > bufferSize {
            Filled(sprites, bufferSize);
            break grid;
          }
          len := len + SPRITE_SIZE;
          sprites := sprites + 1;
          x := x + 1;
        }
        y := y + 1;
      }
      Filled(sprites, bufferSize);
    }
    count := len / SPRITE_SIZE;
  }

  /** A buffer that holds `k` records but not `k + 1` holds exactly bufferSize / SPRITE_SIZE. */
  lemma Filled(k: nat, bufferSize: nat)
    ensures 32 * k <= bufferSize < 32 * k + 32 ==> bufferSize / SPRITE_SIZE == k
    ensures (32 * k) / SPRITE_SIZE == k
  {
  }

  /** Walls derived from carved routes give every routes mask back. */
  lemma WallsGiveRoutes(routes: array2<bv8>, walls: array2<bv8>)
    requires routes.Length0 == TILES && routes.Length1 == TILES && Carved(Snapshot(routes))
    requires walls.Length0 == CROSSINGS && walls.Length1 == CROSSINGS
    requires forall y, x :: 0 <= y < CROSSINGS && 0 <= x < CROSSINGS ==>
      walls[y, x] == WallMask(Snapshot(routes), x, y)
    ensures forall y, x :: 0 <= y < TILES && 0 <= x < TILES ==>
      Passages(walls[y, x + 1], walls[y + 1, x], walls[y + 1, x + 1]) == routes[y, x]
  {
    forall y, x | 0 <= y < TILES && 0 <= x < TILES
      ensures Passages(walls[y, x + 1], walls[y + 1, x], walls[y + 1, x + 1]) == routes[y, x]
    {
      var g := Snapshot(routes);
      assert (x, y) in AllCells && g[(x, y)] == routes[y, x];
      assert walls[y, x + 1] == WallMask(g, x + 1, y);
      assert walls[y + 1, x] == WallMask(g, x, y + 1);
      assert walls[y + 1, x + 1] == WallMask(g, x + 1, y + 1);
      RoundTrip(g, x, y);
    }
  }

  /** Builds a room: carves the routes grid with the fresh frames taking the orders
      `shuffles(0)`, `shuffles(1)`, ..., derives its walls, and returns both grids with the
      number of wall sprites that fit in a buffer of `bufferSize` bytes. */
  method RoomPushFillRandom(shuffles: nat -> Order, bufferSize: nat)
      returns (routes: array2<bv8>, walls: array2<bv8>, count: nat)
    ensures fresh(routes) && routes.Length0 == TILES && routes.Length1 == TILES
    ensures fresh(walls) && walls.Length0 == CROSSINGS && walls.Length1 == CROSSINGS
    ensures Carved(Snapshot(routes)) && Connected(Snapshot(routes))
    ensures forall y, x :: 0 <= y < CROSSINGS && 0 <= x < CROSSINGS ==>
      walls[y, x] == WallMask(Snapshot(routes), x, y)
    ensures forall y, x :: 0 <= y < TILES && 0 <= x < TILES ==>
      Passages(walls[y, x + 1], walls[y + 1, x], walls[y + 1, x + 1]) == routes[y, x]
    ensures count == Min(CROSSINGS * CROSSINGS, bufferSize / SPRITE_SIZE)
  {
    ghost var visits;
    routes, visits := CarveRoutes(shuffles);
    walls := DeriveWalls(routes);
    WallsGiveRoutes(routes, walls);
    count := SpriteCount(bufferSize);
  }
}
