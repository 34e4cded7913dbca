/** The `TimestampedPacket` byte codec: the capture time since the epoch in
    whole milliseconds as 16 little-endian bytes (a u128), the data length as
    4 little-endian bytes (a u32), then the data. */
module TimestampedPacket {
  import opened Common

  const U64_LIMIT: nat := 0x1_0000_0000_0000_0000
  const NANOS_PER_SEC: nat := 1_000_000_000
  const NANOS_PER_MILLI: nat := 1_000_000
  /** Bytes before the data: 16 for the time and 4 for the length. */
  const HEADER_LEN: nat := 20

  /** Rust's `Duration`: whole seconds (a u64) and the nanoseconds below one
      second. */
  datatype Duration = Duration(secs: nat, nanos: nat)

  predicate ValidDuration(d: Duration) {
    d.secs < U64_LIMIT && d.nanos < NANOS_PER_SEC
  }

  /** `Duration::as_millis`: the whole milliseconds, rounded down. */
  function Millis(d: Duration): nat {
    d.secs * 1000 + d.nanos / NANOS_PER_MILLI
  }

  /** `Duration::from_millis`. */
  function FromMillis(ms: nat): (d: Duration)
    requires ms < U64_LIMIT
    ensures ValidDuration(d) && Millis(d) == ms
  {
    Duration(ms / 1000, (ms % 1000) * NANOS_PER_MILLI)
  }

  datatype Packet = Packet(duration: Duration, data: seq<byte>)

  // ---------------------------------------------------------------------------
  // Little-endian integers

  function Pow256(k: nat): (r: nat)
    ensures r >= 1
  {
    if k == 0 then 1 else 256 * Pow256(k - 1)
  }

  /** `to_le_bytes` of an unsigned integer of `k` bytes. */
  function LittleEndian(n: nat, k: nat): (r: seq<byte>)
    ensures |r| == k
  {
    if k == 0 then [] else [n % 256] + LittleEndian(n / 256, k - 1)
  }

  /** `from_le_bytes`. */
  function FromLittleEndian(bs: seq<byte>): (n: nat)
    ensures n < Pow256(|bs|)
  {
    if bs == [] then 0 else bs[0] + 256 * FromLittleEndian(bs[1..])
  }

  lemma {:induction false} LittleEndianRoundTrip(n: nat, k: nat)
    requires n < Pow256(k)
    ensures FromLittleEndian(LittleEndian(n, k)) == n
  {
    if k > 0 {
      var bs := LittleEndian(n, k);
      assert bs[1..] == LittleEndian(n / 256, k - 1);
      assert n / 256 < Pow256(k - 1);
      LittleEndianRoundTrip(n / 256, k - 1);
    }
  }

  lemma Pow256Limits()
    ensures Pow256(4) == U32_LIMIT
    ensures Pow256(8) == U64_LIMIT
    ensures Pow256(16) == U64_LIMIT * U64_LIMIT
  {
    assert Pow256(4) == 256 * Pow256(3) == 256 * 256 * Pow256(2) == 256 * 256 * 256 * Pow256(1);
    assert Pow256(8) == Pow256(4) * Pow256(4) by {
      assert Pow256(8) == 256 * 256 * 256 * 256 * Pow256(4);
    }
    assert Pow256(16) == Pow256(8) * Pow256(8) by {
      assert Pow256(16) == 256 * 256 * 256 * 256 * Pow256(12);
      assert Pow256(12) == 256 * 256 * 256 * 256 * Pow256(8);
    }
  }

  // ---------------------------------------------------------------------------
  // The codec

  /** `to_bytes`: the time in milliseconds, the length cut to 32 bits (`as
      u32`), and the data. */
  function ToBytes(p: Packet): (r: seq<byte>)
    ensures |r| == HEADER_LEN + |p.data|
    ensures r[HEADER_LEN..] == p.data
  {
    LittleEndian(Millis(p.duration), 16) + LittleEndian(|p.data| % U32_LIMIT, 4) + p.data
  }

  /** `from_bytes`: fewer than 20 bytes, or fewer than the declared length
      behind them, is an error; bytes past the data are ignored, and the time
      is cut to 64 bits (`as u64`). */
  function FromBytes(bytes: seq<byte>): (r: Result<Packet>)
    ensures r.Ok? ==> |bytes| >= HEADER_LEN + |r.value.data| && r.value.data == bytes[HEADER_LEN..HEADER_LEN + |r.value.data|]
    ensures r.Ok? ==> ValidDuration(r.value.duration)
    ensures |bytes| < HEADER_LEN ==> r.Err?
  {
    if |bytes| < HEADER_LEN then Err("Not enough bytes")
    else
      var millis := FromLittleEndian(bytes[..16]);
      var len := FromLittleEndian(bytes[16..HEADER_LEN]);
      if |bytes| < HEADER_LEN + len then Err("Incomplete data")
      else Ok(Packet(FromMillis(millis % U64_LIMIT), bytes[HEADER_LEN..HEADER_LEN + len]))
  }

  /** A packet the codec can carry: a valid duration of whole milliseconds that
      fit in 64 bits, and fewer than 2^32 data bytes. */
  predicate Encodable(p: Packet) {
    ValidDuration(p.duration) && p.duration.nanos % NANOS_PER_MILLI == 0 &&
    Millis(p.duration) < U64_LIMIT && |p.data| < U32_LIMIT
  }

  lemma WholeMillis(d: Duration)
    requires ValidDuration(d) && d.nanos % NANOS_PER_MILLI == 0 && Millis(d) < U64_LIMIT
    ensures FromMillis(Millis(d)) == d
  {
    var ms := Millis(d);
    var q := d.nanos / NANOS_PER_MILLI;
    assert q < 1000;
    assert ms / 1000 == d.secs && ms % 1000 == q;
    assert q * NANOS_PER_MILLI == d.nanos;
  }

  /** Decoding an encoded packet, with anything behind it, gives it back. */
  lemma RoundTrip(p: Packet, extra: seq<byte>)
    requires Encodable(p)
    ensures FromBytes(ToBytes(p) + extra) == Ok(p)
  {
    EncodedLayout(p, extra);
    EncodedFields(p);
    WholeMillis(p.duration);
  }

  /** Where the three parts sit in an encoded packet. */
  lemma EncodedLayout(p: Packet, extra: seq<byte>)
    ensures var bytes := ToBytes(p) + extra;
      |bytes| >= HEADER_LEN + |p.data| &&
      bytes[..16] == LittleEndian(Millis(p.duration), 16) &&
      bytes[16..HEADER_LEN] == LittleEndian(|p.data| % U32_LIMIT, 4) &&
      bytes[HEADER_LEN..HEADER_LEN + |p.data|] == p.data
  {
    var bytes := ToBytes(p) + extra;
    var t := LittleEndian(Millis(p.duration), 16);
    var l := LittleEndian(|p.data| % U32_LIMIT, 4);
    assert bytes == t + l + p.data + extra;
    assert bytes[..16] == t;
    assert bytes[16..HEADER_LEN] == l;
    assert bytes[HEADER_LEN..HEADER_LEN + |p.data|] == p.data;
  }

  /** The two header fields of an encodable packet read back unchanged. */
  lemma EncodedFields(p: Packet)
    requires Encodable(p)
    ensures FromLittleEndian(LittleEndian(Millis(p.duration), 16)) % U64_LIMIT == Millis(p.duration)
    ensures FromLittleEndian(LittleEndian(|p.data| % U32_LIMIT, 4)) == |p.data|
  {
    MillisField(Millis(p.duration));
    LengthField(|p.data|);
  }

  lemma MillisField(m: nat)
    requires m < U64_LIMIT
    ensures FromLittleEndian(LittleEndian(m, 16)) % U64_LIMIT == m
  {
    Pow256Limits();
    LittleEndianRoundTrip(m, 16);
  }

  lemma LengthField(n: nat)
    requires n < U32_LIMIT
    ensures FromLittleEndian(LittleEndian(n % U32_LIMIT, 4)) == n
  {
    assert n % U32_LIMIT == n;
    assert n < Pow256(4) by {
      Pow256Limits();
    }
    LittleEndianRoundTrip(n, 4);
  }

  /** A declared length beyond the input is an error. */
  lemma IncompleteRejected(bytes: seq<byte>)
    requires |bytes| >= HEADER_LEN
    requires |bytes| < HEADER_LEN + FromLittleEndian(bytes[16..HEADER_LEN])
    ensures FromBytes(bytes) == Err("Incomplete data")
  {
  }
}
