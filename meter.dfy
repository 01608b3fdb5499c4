/**
 * The meter telemetry frame decoded by `XAir.start.receive` (pyxair/client.py:96-101):
 * a little-endian int32 sample count `N`, then exactly `N` little-endian int16 samples,
 * decoded with `struct.unpack("<i", data[0:4])` and `struct.unpack(f"<{N}h", data[4:])`.
 * The encoder is the device's side of the format; it is here as the decoder's inverse.
 */
module Meter {
  import opened Wrappers
  import opened Osc

  const MeterPrefix: string := "/meters/"

  /** True of the addresses on which meter blobs arrive. */
  predicate IsMeterAddress(address: string) {
    StartsWith(address, MeterPrefix)
  }

  predicate IsInt16(v: int) {
    -0x8000 <= v < 0x8000
  }

  predicate AllInt16(s: seq<int>) {
    forall i :: 0 <= i < |s| ==> IsInt16(s[i])
  }

  /** `struct.unpack("<h", [lo, hi])`: two's complement of `lo + 256 * hi`. */
  function Int16LE(lo: byte, hi: byte): (v: int)
    ensures IsInt16(v)
  {
    var u := lo as int + 0x100 * (hi as int);
    if u < 0x8000 then u else u - 0x1_0000
  }

  /** `struct.unpack("<i", b)` for a 4-byte buffer. */
  function Int32LE(b: seq<byte>): (v: int)
    requires |b| == 4
    ensures -0x8000_0000 <= v < 0x8000_0000
  {
    var u := b[0] as int + 0x100 * (b[1] as int) + 0x1_0000 * (b[2] as int) + 0x100_0000 * (b[3] as int);
    if u < 0x8000_0000 then u else u - 0x1_0000_0000
  }

  /** The int16 samples of an even-length buffer, pair by pair. */
  function Samples(b: seq<byte>): (s: seq<int>)
    requires |b| % 2 == 0
    ensures |s| == |b| / 2
    ensures forall i :: 0 <= i < |s| ==> s[i] == Int16LE(b[2 * i], b[2 * i + 1])
    decreases |b|
  {
    if b == [] then [] else [Int16LE(b[0], b[1])] + Samples(b[2..])
  }

  /**
   * The count-prefixed frame. `struct.error` when fewer than 4 bytes precede the count,
   * when the count is negative (the format string `"<-1h"` is malformed), or when the
   * remaining bytes are not exactly two per sample.
   */
  function DecodeMeterBlob(data: seq<byte>): (r: Result<seq<int>, Exception>)
    ensures r.Success? <==> |data| >= 4 && |data| == 4 + 2 * Int32LE(data[..4])
    ensures r.Failure? ==> r.error == StructError
    ensures r.Success? ==> |r.value| == Int32LE(data[..4]) && AllInt16(r.value)
  {
    if |data| < 4 then Failure(StructError)
    else
      var n := Int32LE(data[..4]);
      if n < 0 || |data| - 4 != 2 * n then Failure(StructError)
      else Success(Samples(data[4..]))
  }

  /**
   * The whole rewrite of an inbound meter message: its first argument must be a blob
   * (`IndexError` for no arguments, `TypeError` for a non-bytes argument), and the decoded
   * samples replace the arguments as ints.
   */
  function DecodeMeterMessage(m: OscMessage): (r: Result<OscMessage, Exception>)
    ensures r.Success? <==> |m.arguments| > 0 && m.arguments[0].Blob? && DecodeMeterBlob(m.arguments[0].data).Success?
    ensures r.Success? ==> var s := DecodeMeterBlob(m.arguments[0].data).value;
      r.value.address == m.address && |r.value.arguments| == |s|
      && forall i :: 0 <= i < |s| ==> r.value.arguments[i] == Int(s[i])
  {
    if |m.arguments| == 0 then Failure(IndexError)
    else match m.arguments[0]
      case Blob(data) =>
        (match DecodeMeterBlob(data)
         case Success(s) => Success(OscMessage(m.address, seq(|s|, i requires 0 <= i < |s| => Int(s[i]))))
         case Failure(e) => Failure(e))
      case _ => Failure(TypeError)
  }

  // ---- the encoder, the decoder's inverse ----

  function Int16Bytes(v: int): (b: seq<byte>)
    requires IsInt16(v)
    ensures |b| == 2
  {
    var u := if v < 0 then v + 0x1_0000 else v;
    [(u % 0x100) as byte, (u / 0x100) as byte]
  }

  function Int32Bytes(v: int): (b: seq<byte>)
    requires -0x8000_0000 <= v < 0x8000_0000
    ensures |b| == 4
  {
    var u := if v < 0 then v + 0x1_0000_0000 else v;
    var u1 := u / 0x100;
    var u2 := u1 / 0x100;
    [(u % 0x100) as byte, (u1 % 0x100) as byte, (u2 % 0x100) as byte, (u2 / 0x100) as byte]
  }

  function SampleBytes(s: seq<int>): (b: seq<byte>)
    requires AllInt16(s)
    ensures |b| == 2 * |s|
  {
    if s == [] then [] else Int16Bytes(s[0]) + SampleBytes(s[1..])
  }

  function EncodeMeterBlob(s: seq<int>): (b: seq<byte>)
    requires AllInt16(s) && |s| < 0x8000_0000
    ensures |b| == 4 + 2 * |s|
  {
    Int32Bytes(|s|) + SampleBytes(s)
  }

  lemma Int16RoundTrip(v: int)
    requires IsInt16(v)
    ensures Int16LE(Int16Bytes(v)[0], Int16Bytes(v)[1]) == v
  {
  }

  lemma Int16Canonical(lo: byte, hi: byte)
    ensures Int16Bytes(Int16LE(lo, hi)) == [lo, hi]
  {
  }

  lemma Int32RoundTrip(v: int)
    requires -0x8000_0000 <= v < 0x8000_0000
    ensures Int32LE(Int32Bytes(v)) == v
  {
  }

  lemma DivMod256(lo: int, rest: int)
    requires 0 <= lo < 0x100
    ensures (lo + 0x100 * rest) % 0x100 == lo && (lo + 0x100 * rest) / 0x100 == rest
  {
  }

  lemma Int32Canonical(b: seq<byte>)
    requires |b| == 4
    ensures Int32Bytes(Int32LE(b)) == b
  {
    var r2 := b[2] as int + 0x100 * (b[3] as int);
    var r1 := b[1] as int + 0x100 * r2;
    var u := b[0] as int + 0x100 * r1;
    assert u == b[0] as int + 0x100 * (b[1] as int) + 0x1_0000 * (b[2] as int) + 0x100_0000 * (b[3] as int);
    DivMod256(b[0] as int, r1);
    DivMod256(b[1] as int, r2);
    DivMod256(b[2] as int, b[3] as int);
  }

  lemma {:induction false} SamplesOfSampleBytes(s: seq<int>)
    requires AllInt16(s)
    ensures Samples(SampleBytes(s)) == s
  {
    if s != [] {
      var b := SampleBytes(s);
      assert b == Int16Bytes(s[0]) + SampleBytes(s[1..]);
      assert b[2..] == SampleBytes(s[1..]);
      SamplesOfSampleBytes(s[1..]);
      Int16RoundTrip(s[0]);
    }
  }

  lemma {:induction false} SampleBytesOfSamples(b: seq<byte>)
    requires |b| % 2 == 0
    ensures SampleBytes(Samples(b)) == b
    decreases |b|
  {
    if b != [] {
      var s := Samples(b);
      assert s[1..] == Samples(b[2..]);
      SampleBytesOfSamples(b[2..]);
      Int16Canonical(b[0], b[1]);
      assert b == [b[0], b[1]] + b[2..];
    }
  }

  /** Every frame of samples the device can send decodes to exactly those samples. */
  lemma MeterBlobRoundTrip(s: seq<int>)
    requires AllInt16(s) && |s| < 0x8000_0000
    ensures DecodeMeterBlob(EncodeMeterBlob(s)) == Success(s)
  {
    var b := EncodeMeterBlob(s);
    assert b[..4] == Int32Bytes(|s|);
    Int32RoundTrip(|s|);
    assert b[4..] == SampleBytes(s);
    SamplesOfSampleBytes(s);
  }

  /** A frame is accepted only if it is the encoding of what it decodes to. */
  lemma MeterBlobCanonical(data: seq<byte>)
    requires DecodeMeterBlob(data).Success?
    ensures var s := DecodeMeterBlob(data).value; |s| < 0x8000_0000 && EncodeMeterBlob(s) == data
  {
    var s := DecodeMeterBlob(data).value;
    Int32Canonical(data[..4]);
    SampleBytesOfSamples(data[4..]);
    assert data == data[..4] + data[4..];
  }

  /** A frame with `N = 2` and samples `1000, -1000`. */
  lemma MeterBlobExample()
    ensures DecodeMeterBlob([2, 0, 0, 0, 0xE8, 0x03, 0x18, 0xFC]) == Success([1000, -1000])
  {
    var data: seq<byte> := [2, 0, 0, 0, 0xE8, 0x03, 0x18, 0xFC];
    assert data[..4] == [2, 0, 0, 0];
    var tail := data[4..];
    assert tail == [0xE8, 0x03, 0x18, 0xFC];
    assert Samples(tail) == [Int16LE(0xE8, 0x03)] + Samples(tail[2..]);
    assert tail[2..] == [0x18, 0xFC];
    assert Samples(tail[2..]) == [Int16LE(0x18, 0xFC)] + Samples([]);
    assert Int16LE(0xE8, 0x03) == 1000 && Int16LE(0x18, 0xFC) == -1000;
    assert Int32LE(data[..4]) == 2;
    assert Samples(tail) == [1000, -1000];
    assert DecodeMeterBlob(data) == Success(Samples(tail));
  }
}
