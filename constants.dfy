// Shared constants of the game (src/constants.rs).
module Constants {
  /** Side of the square canvas, in pixels. */
  const CANVAS_SIDE: nat := 128
  /** Side of one wall tile, in pixels. */
  const TILE_SIDE: nat := 10
  /** Bytes in one sprite record: eight 32-bit floats. */
  const SPRITE_SIZE: nat := 8 * 4
  /** Capacity, in sprites, reserved for the sprite buffer. */
  const SPRITES_MAX: nat := 512

  /** Cells per side of the connectivity grid: CANVAS_SIDE/TILE_SIDE - 1 (room.rs, line 34). */
  const TILES: nat := CANVAS_SIDE / TILE_SIDE - 1
}
