# zap: room generation and player movement, modelled in Dafny

zap is a small maze game. Every room is a square grid of `TILES` x `TILES` cells
(`TILES = CANVAS_SIDE / TILE_SIDE - 1 = 11`). Each cell holds a 4-bit *routes* mask, one
bit per direction (Right = 1, Down = 2, Left = 4, Up = 8), telling which neighbours it has
a passage to. This project models two parts of the game.

* **Room generation** (`room_push_fill_random`, src/room.rs).
  * A randomised depth-first search carves the routes grid. It keeps an explicit stack of
    (cell, direction order, cursor) frames, starts from the centre cell with the fixed order
    [Left, Down, Right, Up], and gives every newly pushed cell a shuffled order.
  * Two passes over the 12 x 12 grid of line intersections derive the *walls* grid from
    the routes. An intersection carries a wall arm unless the cells on either side of the
    arm are joined.
  * A final loop writes one sprite per intersection until the sprite buffer is full and
    returns the number written.
* **Movement** (`game_move`, `game_collide`, src/game.rs).
  * A move in a direction other than the player's facing only turns the player.
  * A move along the facing is blocked when the player's routes cell is
    closed that way.
  * Otherwise the player collides, in list order, with every actor standing on the wanted
    cell. A key is picked up and deleted. A door is deleted when a key is spent, and halts
    the move when no key is held.
  * The deleted actors are then removed from the end of the list backwards. The player's
    index moves down past each removed actor below it.

What is proved:

* **Carving.** `Carving.Step` is the carving loop body written as a function. It keeps an
  invariant, `Carving.Inv`, and each step strictly decreases a lexicographic measure (the
  loop terminates). When the stack empties the grid is `Carving.Carved`:
  * every cell had a frame pushed and has at least one passage;
  * every cell is reachable from the centre cell through open passages (`Carving.Connected`);
  * every passage is open from both ends;
  * no passage leads off the map.

  The array loop `Carving.CarveRoutes` is proved to follow `Step` exactly.
* **Walls.** `Walls.DeriveWalls` fills every intersection with `Walls.WallMask`. Three
  facts are proved about that mask:
  * an arm is drawn exactly when the two cells it separates are not joined;
  * the border's arms are always drawn;
  * the three intersections around a cell give back that cell's routes mask
    (`Walls.RoundTrip`).
* **Sprite count.** The returned count is min(144, bufferSize / 32).
* **Movement.** `Game.GameMove` changes the `GameState` and `Room` exactly as the value
  function `Game.Move` describes. The lemmas about `Move` then cover:
  * turns and blocked moves;
  * the player is never deleted;
  * the list shrinks by one per deletion;
  * the key balance;
  * the new player index is the old one less the deletions below it;
  * every survivor keeps its relative order.

The random number generator is an input: `shuffles: nat -> Order` gives the direction
order of the i-th freshly pushed frame.

## Model

| member | source | states |
|---|---|---|
| Compass.Offset | src/room.rs:48 | the COMPASS table: the unit step (1, 0), (0, 1), (-1, 0), (0, -1) of Right, Down, Left, Up |
| Compass.Bit | src/room.rs:74 | the DirMask bit of each direction: 1, 2, 4, 8 |
| Compass.Opposite | src/room.rs:73 | (d + 2) % 4 is the direction whose offset is the negation of d's, and differs from d |
| Compass.Neighbour | src/room.rs:62 | the candidate cell at + COMPASS[d] differs from at, and subtracting the offset gives at back |
| Compass.StepBack | src/room.rs:73 | stepping in d and then in Opposite(d) returns to the start cell |
| Compass.BitIsShift | src/room.rs:74 | the DirMask bit of a direction is 1 << d, the shift the carving loop or-s in |
| Compass.SetBit | src/room.rs:74 | or-ing a direction bit into a mask sets exactly that bit, keeps the others and leaves a non-zero 4-bit mask |
| Compass.ZeroMask | src/room.rs:66 | a 4-bit mask is 0 (the cell is free) exactly when no direction bit is set |
| Carving.OrderCovers | src/room.rs:47-49 | every direction occurs at some position of a frame's order (the orders are permutations of COMPASS_IDX) |
| Carving.StepGridHas | src/room.rs:73-75 | a step sets at most the tried direction's bit in the top cell, and sets it exactly when the candidate is in bounds and free or already open back |
| Carving.StepGridGrows | src/room.rs:74 | a step never clears a bit and changes no cell but the top frame's |
| Carving.StepGridZero | src/room.rs:66-75 | a cell is zero after a step only if it was zero before and was not the cell just linked |
| Carving.PushIsNew | src/room.rs:64-71 | a pushed candidate lies within routes_bound and has never had a frame before |
| Carving.TriesSurvive | src/room.rs:53-61 | a direction still pending for a cell on the stack stays pending after a step unless that step is the one trying it |
| Carving.StepShaped | src/room.rs:52-77 | a step keeps the stack's frames on visited cells with cursors below 4, and the visits distinct and within the grid |
| Carving.StepStaysOnMap | src/room.rs:64-75 | a step never opens a direction that leads off the map |
| Carving.StepAnswered | src/room.rs:73-75 | after a step, every passage open from one end only still has a frame that will try the opposite direction from the other end |
| Carving.StepExplored | src/room.rs:57-71 | after a step, each neighbour of a visited cell is visited or still to be tried from it |
| Carving.StepMarkedVisited | src/room.rs:67-75 | after a step, only cells that had a frame pushed are non-zero |
| Carving.StepOnlyTopFree | src/room.rs:64-75 | after a step, a visited cell is still zero only while its frame is on top and some remaining direction will link it |
| Carving.StepProgress | src/room.rs:52-77 | each iteration strictly decreases (unvisited cells, pops still to come) lexicographically, so the loop ends |
| Carving.StepKeepsInv | src/room.rs:52-77 | one iteration of the loop preserves the whole carving invariant |
| Carving.Resumed | src/room.rs:53-59 | the stack after popping the top frame and re-pushing it with the next cursor while its cursor is below 3 |
| Carving.Step | src/room.rs:52-77 | one loop iteration on the abstract state: the top cell is opened toward the candidate when the candidate is free or open back, and a fresh frame with the next shuffled order is pushed when it is free |
| Carving.ParentSurvives | src/room.rs:74 | masks only grow, so the passage from a cell's parent to it stays open after a step |
| Carving.PushHasParent | src/room.rs:67-75 | the cell a step pushes has the top frame's cell as parent: the same step opens that cell toward it |
| Carving.StepLinked | src/room.rs:52-77 | after a step, every visited cell but the root still has an earlier visited cell open toward it |
| Carving.WalkTo | src/room.rs:51-75 | following parent links back gives a walk through open passages from the root to every visited cell |
| Carving.Spans | src/room.rs:52-77 | once every cell has been visited, every cell is reachable from the root through open passages |
| Carving.StartInv | src/room.rs:43-51 | the all-zero grid with the single root frame (routes_bound / 2, COMPASS_IDX, 0) satisfies the invariant |
| Carving.StartShaped | src/room.rs:43-51 | the initial state has the all-zero grid over every cell |
| Carving.Finished | src/room.rs:53-54 | when the stack is empty every cell has been visited, and the grid is reciprocal, non-zero everywhere, 4-bit and stays on the map |
| Carving.StepIsAdvanced | src/room.rs:53-75 | the abstract step agrees with the array-level loop body on the grid, the stack and whether a frame was pushed |
| Carving.Advanced | src/room.rs:53-75 | one loop iteration on the grid and stack values: the new grid, the new stack, and whether a fresh frame was pushed |
| Carving.Advance | src/room.rs:53-75 | one loop iteration on the routes array and the stack: the array afterwards mirrors the stepped grid, and the stack and push count are the stepped ones |
| Carving.Round | src/room.rs:52-77 | one iteration keeps the array mirroring the abstract state, advances that state by Step and decreases the termination measure |
| Carving.Exit | src/room.rs:53-54 | on loop exit the routes array is Carved and Connected, and every cell was visited exactly once, starting from the root |
| Carving.CarveRoutes | src/room.rs:42-78 | the carving loop returns a fresh TILES x TILES routes array that is Carved and in which every cell is reachable from the centre through open passages, visiting every cell once, the root first |
| Walls.UpDownArms | src/room.rs:87-93 | the first pass's arms at an intersection: Up when the up-left cell lacks a Right passage or is off the map, Down likewise for the down-left cell |
| Walls.LeftRightArms | src/room.rs:99-105 | the second pass's arms: Left when the up-left cell lacks a Down passage or is off the map, Right likewise for the up-right cell |
| Walls.WallMask | src/room.rs:84-107 | an intersection's full mask, the arms of both passes or-ed together |
| Walls.ArmsAre | src/room.rs:84-107 | an intersection's mask holds only the four arms; Up/Down are set exactly when the cell up-left/down-left lacks a Right passage (or is off the map), Left/Right exactly when the cell up-left/up-right lacks a Down passage |
| Walls.ArmsSeparate | src/room.rs:84-107 | on a carved grid each arm is drawn exactly when the two cells it separates are not joined |
| Walls.Border | src/room.rs:87-105 | on a grid that keeps to the map, the top and bottom rows carry Left and Right arms, the outer columns carry Up and Down arms, and the four corners are 15 |
| Walls.RoundTrip | src/room.rs:80-107 | for a carved grid the walls at the cell's upper-right, lower-left and lower-right intersections give back the cell's routes mask |
| Walls.LacksIs | src/room.rs:38-40 | the wall passes' test (cell off the map, or its bit clear in the routes array) is Lacks on the routes grid |
| Walls.SetUpDown | src/room.rs:86-93 | the first pass at one intersection sets the Up and Down arms it prescribes and nothing else |
| Walls.SetLeftRight | src/room.rs:98-105 | the second pass at one intersection adds the Left and Right arms, completing WallMask, and nothing else |
| Walls.UpDownRow | src/room.rs:85-94 | the first pass over one row sets that row's Up/Down arms and leaves the other rows alone |
| Walls.UpDownPass | src/room.rs:84-95 | after the first pass every intersection holds exactly its Up/Down arms |
| Walls.LeftRightRow | src/room.rs:97-106 | the second pass over one row completes that row's masks and leaves the other rows alone |
| Walls.LeftRightPass | src/room.rs:96-107 | after the second pass every intersection holds its full WallMask |
| Walls.DeriveWalls | src/room.rs:80-107 | a fresh (TILES+1) x (TILES+1) walls array with WallMask of the routes at every intersection |
| RoomFill.SpriteCount | src/room.rs:121-146 | the loop stops before the first sprite that would overflow the buffer: the count is min(144, bufferSize / SPRITE_SIZE), those sprites fit, and a buffer of SPRITES_MAX sprites holds all 144 |
| RoomFill.WallsGiveRoutes | src/room.rs:80-107 | walls derived from carved routes give back every cell's routes mask from the three intersections around it |
| RoomFill.RoomPushFillRandom | src/room.rs:33-146 | carved routes in which every cell is reachable from the centre, walls that are WallMask of them, every routes mask recoverable from the walls around it, and the sprite count |
| Game.GameState.constructor | src/game.rs:11-13 | a new game state has player index 0 and no keys |
| Game.Resolve | src/game.rs:15-31 | a player halts exactly at a door with no keys, deletes exactly a key or a door it can open, never both, gains a key at a key and spends one at an opened door; anything else is a no-op |
| Game.Collide | src/game.rs:15-31 | game_collide updates the key counter and returns halt/delete as Resolve prescribes |
| Game.Scan | src/game.rs:41-48 | the scan stops at a halting actor or at the end; its deletions are increasing, lie before the stop and all stand on the wanted cell; a halt is a door met by the player with no keys |
| Game.ScanComplete | src/game.rs:42-47 | every key and every door on the wanted cell before the stop is deleted, so the scan stops at the first door it cannot open |
| Game.ScanStopsAtHalt | src/game.rs:46 | nothing after the halting actor is looked at: lists that agree up to it scan alike |
| Game.ScanConsumes | src/game.rs:17-27 | the player's scan deletes only keys and doors |
| Game.ScanKeys | src/game.rs:18-23 | keys after the scan plus doors opened equals keys before plus keys picked up |
| Game.RemoveAll | src/game.rs:53-54 | the actor list after removing the collected indices, the last one first |
| Game.Rebase | src/game.rs:55 | the player index after the removal loop: one less for each removed index below it, taken last first |
| Game.RemoveAt | src/game.rs:54 | Vec::remove shortens the list by one and shifts the later elements down |
| Game.RemoveAllLength | src/game.rs:53-54 | removing the collected indices last first shortens the list by exactly their number |
| Game.RemoveStep | src/game.rs:53-54 | removing the last index first leaves indices that are still valid and increasing for the shorter list |
| Game.RemoveAllKeeps | src/game.rs:53-55 | an element whose index is not removed survives at its rebased index |
| Game.RebaseOrder | src/game.rs:53-55 | survivors keep their relative order |
| Game.RebaseCounts | src/game.rs:55 | a surviving index moves down by exactly the number of removed indices below it |
| Game.Move | src/game.rs:33-62 | after any move, the actor at the player index is the player, facing the direction moved in |
| Game.Stepped | src/game.rs:38-61 | after a step the actor at the new player index is the player, facing the step direction |
| Game.MoveTurns | src/game.rs:58-61 | turning changes only the player's facing: same index, keys, length, position and other actors |
| Game.MoveBlocked | src/game.rs:37-61 | a step the routes cell does not open leaves the world unchanged |
| Game.StepParts | src/game.rs:38-61 | the player is never among the deletions, and a step is the removal of the scan's deletions followed by putting the player at its rebased index |
| Game.MoveSteps | src/game.rs:37-61 | a step never deletes the player, shrinks the list by the deletions, sets the scan's keys, moves the player index down by the deletions below it, and leaves the player on the wanted cell unless halted |
| Game.MoveKeepsOthers | src/game.rs:53-56 | every actor a step does not delete survives, at its rebased index |
| Game.CollideAll | src/game.rs:41-51 | the 'collide block returns Scan's deletions, leaves Scan's key count, and moves the player to the wanted cell unless halted |
| Game.RemoveDeleted | src/game.rs:53-56 | the reverse removal loop leaves RemoveAll of the actors and Rebase of the player index |
| Game.StepPlayer | src/game.rs:38-61 | the step branch changes the game and room as Stepped prescribes |
| Game.GameMove | src/game.rs:33-62 | game_move leaves the routes alone and changes the actors, player index and keys exactly as Move prescribes for the player's routes cell |

## Left out

- Carving.CarveRoutes: proves that every cell is reachable from the centre, but not that the passages form a tree. That would mean no cycles, or exactly TILES * TILES - 1 open edges. Each opened edge either reaches a free cell or answers an edge already open from the other end, but no lemma counts the edges.
- The random number generator: every shuffled order is taken from the `shuffles` input, and nothing is claimed about the distribution of mazes.
- Carving.Order: an order is four distinct directions. That is the same as a permutation of COMPASS_IDX, but it is not stated as a multiset.
- The sprite records themselves are not modelled. Their float coordinates, the WALL_ROT_MASK tile lookup, bytemuck and `queue.write_buffer` are GPU-side output; only the number of sprites written is modelled. RoomFill.RoomPushFillRandom returns the routes and walls grids, which the original drops at the end of the function, so that their properties can be stated.
- The wgpu queue and buffer parameters are reduced to the buffer's size in bytes. `pos_scale` and `tex_scale` only feed the float records and are not modelled.
- GameState.keys is an unbounded natural. The original's u32 counter would overflow after 2^32 keys; that overflow is not modelled.
- Room and Actor come from a module that is not part of this model. They are declared with only what movement uses: a routes array, the actor list, and the Player facing, Door and Key (with its facing flag) cases. Every other actor kind is `Other`.
- `ivec_to_index` is not part of this model. It is taken to index [y, x], as `to_index` does in room.rs.
- GameMove's preconditions stand in for the original's panics: the player must be at playerIdx, and on a step the player's cell must be inside the routes array.
- The `at` argument of game_collide is unused in the original and is unused in Game.Collide.
- main.rs, texture.rs, quad.rs, the float helper `make_float` and the debugging printer `_debug_room` are outside this model (window, GPU and I/O code).
