/** Block, chunk and in-chunk coordinates (cuberef_core/src/coordinates.rs). */
module Coordinates {
  import opened Wrappers

  /** A position along one axis of a chunk; chunks are 16 blocks wide. */
  type nibble = x: int | 0 <= x < 16

  datatype BlockCoordinate = BlockCoordinate(x: i32, y: i32, z: i32)

  datatype ChunkCoordinate = ChunkCoordinate(x: i32, y: i32, z: i32)

  datatype ChunkOffset = ChunkOffset(x: nibble, y: nibble, z: nibble)

  /** Blocks in a chunk. */
  const CHUNK_VOLUME: nat := 4096

  type BlockIndex = i: nat | i < CHUNK_VOLUME

  // Dafny's division by a positive number is Euclidean, as `div_euclid` and `rem_euclid` are.

  function ChunkOf(b: BlockCoordinate): ChunkCoordinate { ChunkCoordinate(b.x / 16, b.y / 16, b.z / 16) }

  function OffsetOf(b: BlockCoordinate): ChunkOffset { ChunkOffset(b.x % 16, b.y % 16, b.z % 16) }

  function AsIndex(o: ChunkOffset): BlockIndex { 256 * o.z + 16 * o.y + o.x }

  function FromIndex(i: BlockIndex): ChunkOffset { ChunkOffset(i % 16, (i / 16) % 16, (i / 256) % 16) }

  function CheckedI32(x: int): Option<i32> { if I32_MIN <= x <= I32_MAX then Some(x) else None }

  /** `a * 16 + o` in 32-bit arithmetic; None when the product or the sum overflows. */
  function CheckedMulAdd(a: i32, o: nibble): Option<i32> {
    var product := CheckedI32(a * 16);
    if product.None? then None else CheckedI32(product.value + o)
  }

  /** The block at an offset in a chunk; None when the arithmetic overflows. */
  function WithOffset(c: ChunkCoordinate, o: ChunkOffset): Option<BlockCoordinate> {
    var x, y, z := CheckedMulAdd(c.x, o.x), CheckedMulAdd(c.y, o.y), CheckedMulAdd(c.z, o.z);
    if x.Some? && y.Some? && z.Some? then Some(BlockCoordinate(x.value, y.value, z.value)) else None
  }

  predicate AxisInBounds(x: i32) { -0x800_0000 <= x <= 0x7FF_FFFF }

  predicate InBounds(c: ChunkCoordinate) { AxisInBounds(c.x) && AxisInBounds(c.y) && AxisInBounds(c.z) }

  function BlockTryDelta(b: BlockCoordinate, dx: i32, dy: i32, dz: i32): Option<BlockCoordinate> {
    var x, y, z := CheckedI32(b.x + dx), CheckedI32(b.y + dy), CheckedI32(b.z + dz);
    if x.Some? && y.Some? && z.Some? then Some(BlockCoordinate(x.value, y.value, z.value)) else None
  }

  function ChunkTryDelta(c: ChunkCoordinate, dx: i32, dy: i32, dz: i32): Option<ChunkCoordinate> {
    var x, y, z := CheckedI32(c.x + dx), CheckedI32(c.y + dy), CheckedI32(c.z + dz);
    if x.Some? && y.Some? && z.Some? then
      var candidate := ChunkCoordinate(x.value, y.value, z.value);
      if InBounds(candidate) then Some(candidate) else None
    else None
  }

  /** `u32::saturating_add`. */
  function SaturatingAddU32(a: u32, b: u32): u32 { Min(a + b, U32_MAX) }

  function ManhattanDistance(a: ChunkCoordinate, b: ChunkCoordinate): u32 {
    SaturatingAddU32(SaturatingAddU32(Abs(a.x - b.x), Abs(a.y - b.y)), Abs(a.z - b.z))
  }

  /** Joining a chunk with an offset overflows exactly outside the bounds check, whatever the offset. */
  lemma WithOffsetDefined(c: ChunkCoordinate, o: ChunkOffset)
    ensures WithOffset(c, o).Some? <==> InBounds(c)
  {
  }

  /** Every block lies in exactly one chunk, at exactly one offset, and the two name it. */
  lemma SplitJoin(b: BlockCoordinate)
    ensures InBounds(ChunkOf(b)) && WithOffset(ChunkOf(b), OffsetOf(b)) == Some(b)
  {
  }

  lemma JoinSplit(c: ChunkCoordinate, o: ChunkOffset)
    requires InBounds(c)
    ensures WithOffset(c, o).Some?
    ensures var b := WithOffset(c, o).value; ChunkOf(b) == c && OffsetOf(b) == o
  {
  }

  /** Offsets and indices into the block array are in bijection. */
  lemma IndexBijection(o: ChunkOffset, i: BlockIndex)
    ensures FromIndex(AsIndex(o)) == o
    ensures AsIndex(FromIndex(i)) == i
  {
    assert AsIndex(o) / 16 == 16 * o.z + o.y;
    assert AsIndex(o) / 256 == o.z;
    assert i / 256 == (i / 16) / 16;
  }

  /** Where a block is stored: in its chunk's array, at its offset's index. */
  function IndexOf(b: BlockCoordinate): BlockIndex { AsIndex(OffsetOf(b)) }

  /** Two blocks share a storage cell only if they are the same block. */
  lemma StorageInjective(a: BlockCoordinate, b: BlockCoordinate)
    requires ChunkOf(a) == ChunkOf(b) && IndexOf(a) == IndexOf(b)
    ensures a == b
  {
    IndexBijection(OffsetOf(a), 0);
    IndexBijection(OffsetOf(b), 0);
    SplitJoin(a);
    SplitJoin(b);
  }
}
