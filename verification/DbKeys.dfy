/** Database keys of chunks (cuberef_server/src/game_state/game_map.rs and database_engine.rs). */
module DbKeys {
  import opened Wrappers
  import opened Coordinates

  type byte = x: int | 0 <= x < 256

  /** Signed integers are interleaved by sign before encoding: 0, -1, 1, -2, 2, ... */
  function ZigZagEncode(n: i32): u32 { if n >= 0 then 2 * n else -2 * n - 1 }

  function ZigZagDecode(u: u32): i32 { if u % 2 == 0 then u / 2 else -(u / 2) - 1 }

  /** Seven bits a byte, least significant first; the high bit says that more bytes follow. */
  function EncodeVarint(n: nat): (bytes: seq<byte>)
    ensures bytes != []
  {
    if n < 128 then [n] else [128 + n % 128] + EncodeVarint(n / 128)
  }

  /** Reads one varint of at most `maxSize` bytes; None when it is cut short or too long. */
  function DecodeVarint(bytes: seq<byte>, maxSize: nat): (r: Option<(nat, seq<byte>)>)
    ensures r.Some? ==> |r.value.1| < |bytes|
  {
    if maxSize == 0 || bytes == [] then None
    else if bytes[0] < 128 then Some((bytes[0], bytes[1..]))
    else
      var rest := DecodeVarint(bytes[1..], maxSize - 1);
      if rest.None? then None else Some((bytes[0] - 128 + 128 * rest.value.0, rest.value.1))
  }

  function Pow128(k: nat): nat { if k == 0 then 1 else 128 * Pow128(k - 1) }

  /** A varint is read back whatever follows it, given room for the bytes it takes. */
  lemma {:induction false} VarintRoundTrip(n: nat, rest: seq<byte>, maxSize: nat)
    requires maxSize > 0 && n < Pow128(maxSize)
    ensures DecodeVarint(EncodeVarint(n) + rest, maxSize) == Some((n, rest))
  {
    var bytes := EncodeVarint(n) + rest;
    if n < 128 {
      assert bytes[1..] == rest;
    } else {
      assert maxSize > 1 by { assert Pow128(1) == 128 * Pow128(0); }
      VarintRoundTrip(n / 128, rest, maxSize - 1);
      assert bytes[1..] == EncodeVarint(n / 128) + rest;
    }
  }

  /** The longest encoding of a 32-bit integer. */
  const I32_VARINT_SIZE: nat := 5

  function DecodeI32(bytes: seq<byte>): (r: Option<(i32, seq<byte>)>)
  {
    var raw := DecodeVarint(bytes, I32_VARINT_SIZE);
    if raw.None? || raw.value.0 > U32_MAX then None else Some((ZigZagDecode(raw.value.0), raw.value.1))
  }

  lemma I32RoundTrip(n: i32, rest: seq<byte>)
    ensures DecodeI32(EncodeVarint(ZigZagEncode(n)) + rest) == Some((n, rest))
  {
    assert Pow128(5) == 128 * (128 * (128 * (128 * 128)));
    VarintRoundTrip(ZigZagEncode(n), rest, I32_VARINT_SIZE);
  }

  function AsBytes(c: ChunkCoordinate): seq<byte> {
    EncodeVarint(ZigZagEncode(c.x)) + EncodeVarint(ZigZagEncode(c.y)) + EncodeVarint(ZigZagEncode(c.z))
  }

  /** Three varints, and an error on trailing bytes. */
  function FromBytes(bytes: seq<byte>): Option<ChunkCoordinate> {
    var x := DecodeI32(bytes);
    if x.None? then None else
      var y := DecodeI32(x.value.1);
      if y.None? then None else
        var z := DecodeI32(y.value.1);
        if z.None? || z.value.1 != [] then None
        else Some(ChunkCoordinate(x.value.0, y.value.0, z.value.0))
  }

  /** Decoding the bytes of a coordinate gives the coordinate, over all 32-bit coordinates. */
  lemma BytesRoundTrip(c: ChunkCoordinate)
    ensures FromBytes(AsBytes(c)) == Some(c)
  {
    var x, y, z := EncodeVarint(ZigZagEncode(c.x)), EncodeVarint(ZigZagEncode(c.y)), EncodeVarint(ZigZagEncode(c.z));
    assert AsBytes(c) == x + (y + z);
    I32RoundTrip(c.x, y + z);
    I32RoundTrip(c.y, z);
    assert z == z + [];
    I32RoundTrip(c.z, []);
  }

  datatype KeySpace = Metadata | MapchunkData | Plugin | Inventory | Player | UserMeta
  {
    function Identifier(): byte {
      match this
      case Metadata => '0' as int
      case MapchunkData => 'm' as int
      case Plugin => 'p' as int
      case Inventory => 'i' as int
      case UserMeta => 'u' as int
      case Player => 'P' as int
    }
  }

  function MakeKey(space: KeySpace, key: seq<byte>): seq<byte> { [space.Identifier()] + key }

  function ChunkKey(c: ChunkCoordinate): seq<byte> { MakeKey(MapchunkData, AsBytes(c)) }

  /** Distinct chunks never share a database key, and no chunk's key falls into another key space. */
  lemma ChunkKeysDistinct(a: ChunkCoordinate, b: ChunkCoordinate, space: KeySpace, key: seq<byte>)
    ensures ChunkKey(a) == ChunkKey(b) ==> a == b
    ensures ChunkKey(a) == MakeKey(space, key) ==> space == MapchunkData
  {
    assert ChunkKey(a)[1..] == AsBytes(a) && ChunkKey(b)[1..] == AsBytes(b);
    BytesRoundTrip(a);
    BytesRoundTrip(b);
  }
}
