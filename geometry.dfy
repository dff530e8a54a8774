/** Tile and chunk coordinates of the infinite world.
    A world position is measured in pixels; a grid cell is TILE_SIZE pixels
    square; a chunk is CHUNK_SIZE cells square. Positions are whole numbers in
    this model (the source keeps them as floating-point numbers). */
module Geometry {

  const TILE_SIZE: int := 50
  const CHUNK_SIZE: int := 20
  /** Width of a chunk in pixels. */
  const CHUNK_PIXELS: int := CHUNK_SIZE * TILE_SIZE

  /** A grid cell (gx, gy), or a chunk coordinate (cx, cy). */
  type Cell = (int, int)

  /** `worldToGrid`: the cell that contains a world position (floor division). */
  function WorldToGrid(x: int, y: int): (g: Cell)
    ensures g.0 * TILE_SIZE <= x < g.0 * TILE_SIZE + TILE_SIZE
    ensures g.1 * TILE_SIZE <= y < g.1 * TILE_SIZE + TILE_SIZE
  {
    (x / TILE_SIZE, y / TILE_SIZE)
  }

  /** `gridToWorld`: the world position of the centre of a cell. */
  function GridToWorld(g: Cell): (p: (int, int))
    ensures p.0 - TILE_SIZE / 2 == g.0 * TILE_SIZE && p.1 - TILE_SIZE / 2 == g.1 * TILE_SIZE
  {
    (g.0 * TILE_SIZE + TILE_SIZE / 2, g.1 * TILE_SIZE + TILE_SIZE / 2)
  }

  /** The world position at which spawnEntity places an entity whose
      `size` x `size` footprint has its top-left cell at `g`: the centre of the
      footprint. For size 2 the source calls gridToWorld(gx + 0.5, gy + 0.5),
      which is gx * 50 + 50, a whole number. */
  function FootprintCentre(g: Cell, size: nat): (p: (int, int))
    requires size == 1 || size == 2
    ensures size == 1 ==> p == GridToWorld(g)
    ensures size == 2 ==> p == (g.0 * TILE_SIZE + TILE_SIZE, g.1 * TILE_SIZE + TILE_SIZE)
  {
    if size == 1 then GridToWorld(g) else (g.0 * TILE_SIZE + TILE_SIZE, g.1 * TILE_SIZE + TILE_SIZE)
  }

  /** `worldToChunk`: the chunk that contains a world position. */
  function WorldToChunk(x: int, y: int): (c: Cell)
    ensures c.0 * CHUNK_PIXELS <= x < c.0 * CHUNK_PIXELS + CHUNK_PIXELS
    ensures c.1 * CHUNK_PIXELS <= y < c.1 * CHUNK_PIXELS + CHUNK_PIXELS
  {
    (x / CHUNK_PIXELS, y / CHUNK_PIXELS)
  }

  /** The centre of a cell lies in that cell: worldToGrid(gridToWorld(g)) == g. */
  lemma GridRoundTrip(g: Cell)
    ensures WorldToGrid(GridToWorld(g).0, GridToWorld(g).1) == g
  {
  }

  /** The cell that holds the centre of a footprint is its bottom-right cell:
      the top-left cell for a 1x1 footprint, (gx + 1, gy + 1) for a 2x2 one. */
  lemma CentreCell(g: Cell, size: nat)
    requires size == 1 || size == 2
    ensures WorldToGrid(FootprintCentre(g, size).0, FootprintCentre(g, size).1)
         == (g.0 + size - 1, g.1 + size - 1)
  {
    if size == 1 {
      GridRoundTrip(g);
    }
  }

  /** Chunks are made of whole cells: the chunk of a position is the chunk of
      its cell, i.e. floor(floor(x / 50) / 20) == floor(x / 1000). */
  lemma ChunkOfCell(x: int, y: int)
    ensures WorldToChunk(x, y) == (WorldToGrid(x, y).0 / CHUNK_SIZE, WorldToGrid(x, y).1 / CHUNK_SIZE)
  {
  }
}
