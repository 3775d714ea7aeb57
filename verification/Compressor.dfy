/** Packet compression (`compressor.rs`): a tail byte, a header flag and a growing output buffer. */
module Compressor {
  import opened Prelude

  type Bytes = seq<bv8>

  const TAIL_SIZE: nat := 1
  const ZSTD_TAIL: bv8 := 1
  const MIN_LAST_BUFFER: nat := 64 * 1024

  datatype Algo = NoCompression | ZstdDefault

  /** The compression library: encoding may fail; decoding is the meaning of a byte string, if it has one. */
  datatype Codec = Codec(encode: Bytes -> Option<Bytes>, decode: Bytes -> Option<Bytes>)

  /** What was encoded decodes to itself. */
  ghost predicate Lawful(c: Codec) {
    forall x :: c.encode(x).Some? ==> c.decode(c.encode(x).value) == Some(x)
  }

  datatype Error =
    | EncodeFailed | PacketTooShort | UnknownAlgo | Corrupt | BufferTooSmall | AttemptsExhausted | LengthMismatch

  /** One library call with an output buffer of `capacity` bytes. */
  function DecodeInto(c: Codec, data: Bytes, capacity: nat): (r: Result<Bytes, Error>) {
    match c.decode(data)
    case None => Err(Corrupt)
    case Some(x) => if |x| <= capacity then Ok(x) else Err(BufferTooSmall)
  }

  /** The largest output the five attempts can hold. */
  function Limit(n: nat): nat {
    if 32 * n < MIN_LAST_BUFFER then MIN_LAST_BUFFER else 32 * n
  }

  function RawDecompress(c: Codec, data: Bytes): (r: Result<Bytes, Error>) {
    match c.decode(data)
    case None => Err(Corrupt)
    case Some(x) => if |x| <= Limit(|data|) then Ok(x) else Err(AttemptsExhausted)
  }

  lemma Pow2Values()
    ensures Pow2(1) == 2 && Pow2(2) == 4 && Pow2(3) == 8 && Pow2(4) == 16 && Pow2(5) == 32
  {
    assert Pow2(2) == 4;
    assert Pow2(3) == 8;
    assert Pow2(4) == 16;
  }

  /** `decompress_raw`: up to five attempts, the buffer doubling each time. */
  method DecompressRaw(c: Codec, data: Bytes, algo: Algo) returns (r: Result<Bytes, Error>)
    ensures algo == ZstdDefault ==> r == RawDecompress(c, data)
    ensures algo == NoCompression ==> r == Ok(data)
  {
    if algo == NoCompression {
      return Ok(data);
    }
    Pow2Values();
    for i := 1 to 6
      invariant i > 1 ==> c.decode(data).Some?
      invariant 1 < i <= 5 ==> |c.decode(data).value| > |data| * Pow2(i - 1)
      invariant i == 6 ==> |c.decode(data).value| > Limit(|data|)
    {
      var len := |data| * Pow2(i);
      if i == 5 && len < MIN_LAST_BUFFER {
        len := MIN_LAST_BUFFER;
      }
      assert len <= Limit(|data|);
      var attempt := DecodeInto(c, data, len);
      if attempt.Ok? || attempt.error != BufferTooSmall {
        return attempt;
      }
    }
    return Err(AttemptsExhausted);
  }

  /** What the two operations see of a packet. `len` is the header's length field. */
  datatype Packet = Packet(len: nat, compressed: bool, payload: Bytes)

  function Compress(c: Codec, p: Packet, algo: Algo): (r: (Packet, Result<(), Error>)) {
    if algo == NoCompression || p.compressed then (p, Ok(()))
    else
      match c.encode(p.payload)
      case None => (p, Err(EncodeFailed))
      case Some(buf) =>
        if |buf| + TAIL_SIZE > p.len then (p, Ok(()))
        else (p.(compressed := true, payload := buf + [ZSTD_TAIL]), Ok(()))
  }

  function Decompress(c: Codec, p: Packet): (r: (Packet, Result<(), Error>)) {
    if !p.compressed then (p, Ok(()))
    else if |p.payload| < TAIL_SIZE then (p, Err(PacketTooShort))
    else
      var text := |p.payload| - TAIL_SIZE;
      if p.payload[text] != ZSTD_TAIL then (p, Err(UnknownAlgo))
      else
        match RawDecompress(c, p.payload[..text])
        case Err(e) => (p, Err(e))
        case Ok(buf) =>
          if |buf| != p.len then (p, Err(LengthMismatch))
          else (p.(compressed := false, payload := buf), Ok(()))
  }

  /** A packet buffer: headers up to `payloadOffset`, payload behind. */
  class ZCPacket {
    var len: nat
    var compressed: bool
    var inner: Bytes
    const payloadOffset: nat

    constructor (len: nat, compressed: bool, headers: Bytes, payload: Bytes)
      ensures Valid() && View() == Packet(len, compressed, payload) && Headers() == headers
    {
      this.len, this.compressed, this.inner, this.payloadOffset := len, compressed, headers + payload, |headers|;
    }

    ghost predicate Valid()
      reads this
    {
      payloadOffset <= |inner|
    }

    ghost function View(): Packet
      requires Valid()
      reads this
    {
      Packet(len, compressed, inner[payloadOffset..])
    }

    ghost function Headers(): Bytes
      requires Valid()
      reads this
    {
      inner[..payloadOffset]
    }

    method ReplacePayload(buf: Bytes)
      requires Valid()
      modifies this`inner
      ensures Valid() && inner[payloadOffset..] == buf && Headers() == old(Headers())
    {
      inner := inner[..payloadOffset];
      inner := inner + buf;
    }

    /** `DefaultCompressor::compress`. */
    method CompressInPlace(c: Codec, algo: Algo) returns (r: Result<(), Error>)
      requires Valid()
      modifies this`compressed, this`inner
      ensures Valid() && (View(), r) == Compress(c, old(View()), algo) && Headers() == old(Headers())
    {
      if algo == NoCompression {
        return Ok(());
      }
      if compressed {
        return Ok(());
      }
      var buf := c.encode(inner[payloadOffset..]);
      if buf.None? {
        return Err(EncodeFailed);
      }
      if |buf.value| + TAIL_SIZE > len {
        return Ok(());
      }
      compressed := true;
      ReplacePayload(buf.value + [ZSTD_TAIL]);
      return Ok(());
    }

    /** `DefaultCompressor::decompress`. */
    method DecompressInPlace(c: Codec) returns (r: Result<(), Error>)
      requires Valid()
      modifies this`compressed, this`inner
      ensures Valid() && (View(), r) == Decompress(c, old(View())) && Headers() == old(Headers())
    {
      if !compressed {
        return Ok(());
      }
      var payload := inner[payloadOffset..];
      if |payload| < TAIL_SIZE {
        return Err(PacketTooShort);
      }
      var text := |payload| - TAIL_SIZE;
      if payload[text] != ZSTD_TAIL {
        return Err(UnknownAlgo);
      }
      var buf := DecompressRaw(c, payload[..text], ZstdDefault);
      if buf.Err? {
        return Err(buf.error);
      }
      if |buf.value| != len {
        return Err(LengthMismatch);
      }
      compressed := false;
      ReplacePayload(buf.value);
      return Ok(());
    }
  }

  // --- Properties ---

  /**
   * A packet is compressed exactly if compression is on, it is not compressed yet, encoding succeeds
   * and the result with its tail is no longer than the header says. Then the payload is the tail
   * byte behind bytes that decode to the original. Otherwise the packet stays as it was, and the
   * call fails exactly if encoding did.
   */
  lemma CompressExactly(c: Codec, p: Packet, algo: Algo)
    requires Lawful(c)
    ensures var (q, r) := Compress(c, p, algo);
            var tried := algo == ZstdDefault && !p.compressed;
            var buf := c.encode(p.payload);
            && (q != p <==> tried && buf.Some? && |buf.value| + 1 <= p.len)
            && (q != p ==>
                  && q.compressed && q.len == p.len && |q.payload| == |buf.value| + 1
                  && q.payload[|q.payload| - 1] == 1
                  && c.decode(q.payload[..|q.payload| - 1]) == Some(p.payload))
            && (r.Err? <==> tried && buf.None?)
            && (r.Err? ==> r.error == EncodeFailed)
  {
    var q := Compress(c, p, algo).0;
    if q != p {
      assert q.payload[..|q.payload| - 1] == c.encode(p.payload).value;
    }
  }

  /** What the bytes before the tail decode to. */
  function Decoded(c: Codec, p: Packet): Option<Bytes>
    requires p.payload != []
  {
    c.decode(p.payload[..|p.payload| - 1])
  }

  /**
   * A compressed packet is restored exactly if its last byte is the tail and the bytes before it decode to
   * as many bytes as the header says, at most 64 KiB or 32 times their number; it is then
   * those bytes. Any other compressed packet is refused, for the first reason that applies.
   */
  lemma DecompressExactly(c: Codec, p: Packet)
    requires p.compressed
    ensures var (q, r) := Decompress(c, p);
            if p.payload == [] then r == Err(PacketTooShort)
            else if p.payload[|p.payload| - 1] != 1 then r == Err(UnknownAlgo)
            else if Decoded(c, p).None? then r == Err(Corrupt)
            else
              var x := Decoded(c, p).value;
              if |x| > 65536 && |x| > 32 * (|p.payload| - 1) then r == Err(AttemptsExhausted)
              else if |x| != p.len then r == Err(LengthMismatch)
              else r == Ok(()) && q == Packet(p.len, false, x)
  {
  }

  /** Decompressing what `compress` left gives the packet back. */
  predicate RoundTrips(c: Codec, p: Packet, algo: Algo) {
    Decompress(c, Compress(c, p, algo).0) == (p, Ok(()))
  }

  /**
   * The round trip succeeds exactly when the packet was not already marked compressed and either
   * was left alone, or its header length is right and its payload fits the last buffer: at most
   * 32 times the compressed size, or 64 KiB.
   */
  lemma RoundTripExactly(c: Codec, p: Packet, algo: Algo)
    requires Lawful(c)
    ensures RoundTrips(c, p, algo) <==>
              && !p.compressed
              && (|| algo == NoCompression
                  || c.encode(p.payload).None?
                  || |c.encode(p.payload).value| + TAIL_SIZE > p.len
                  || (p.len == |p.payload| && |p.payload| <= Limit(|c.encode(p.payload).value|)))
  {
    var q := Compress(c, p, algo).0;
    if !p.compressed && q.compressed {
      var buf := c.encode(p.payload).value;
      assert q.payload[..|q.payload| - TAIL_SIZE] == buf;
      assert c.decode(buf) == Some(p.payload);
    }
  }

  /** Compression never lengthens a payload whose header length is right, and repeating it changes nothing. */
  lemma CompressShrinks(c: Codec, p: Packet, algo: Algo)
    requires p.len == |p.payload|
    ensures |Compress(c, p, algo).0.payload| <= |p.payload|
    ensures Compress(c, p, algo).1.Ok? && Compress(c, p, algo).0 != p ==>
              Compress(c, Compress(c, p, algo).0, algo) == Compress(c, p, algo)
  {
  }

  /** A failed decompression leaves the packet as it was; a successful one restores the header's length. */
  lemma DecompressAllOrNothing(c: Codec, p: Packet)
    ensures Decompress(c, p).1.Err? ==> Decompress(c, p).0 == p
    ensures Decompress(c, p).1.Ok? && p.compressed ==>
              !Decompress(c, p).0.compressed && |Decompress(c, p).0.payload| == p.len && Decompress(c, p).0.len == p.len
  {
  }

  function Zeros(n: nat): (z: Bytes)
    ensures |z| == n
  {
    seq(n, _ => 0)
  }

  /** A codec that encodes one long payload very well. */
  function SparseCodec(big: Bytes): Codec {
    Codec(x => if x == big then Some([]) else None, y => if y == [] then Some(big) else None)
  }

  /** The limit is real: some lawful codec compresses a payload that `decompress` then refuses. */
  lemma OversizePacketIsRefused(n: nat)
    requires n > MIN_LAST_BUFFER
    ensures exists c: Codec, p: Packet ::
              && Lawful(c) && p.len == |p.payload| == n && !p.compressed
              && Compress(c, p, ZstdDefault).1 == Ok(())
              && Decompress(c, Compress(c, p, ZstdDefault).0).1 == Err(AttemptsExhausted)
  {
    var c, p := SparseCodec(Zeros(n)), Packet(n, false, Zeros(n));
    var q := Compress(c, p, ZstdDefault).0;
    assert q.payload == [ZSTD_TAIL];
    assert q.payload[..0] == [];
    assert Lawful(c);
  }
}
