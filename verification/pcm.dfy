/**
 * The two quality converters of the listening test, as pure functions over
 * raw interleaved PCM bytes.
 *
 * - Decimation keeps every `step`-th frame of 24-bit packed audio and drops
 *   the others, with no anti-aliasing filter (`SongSession::convertSamplingrate`).
 * - Requantization keeps the most significant byte of every 24-bit
 *   little-endian sample and re-biases it to unsigned 8-bit PCM
 *   (`SongSession::convertBitdepth`).
 */
module Pcm {
  import opened Common

  /** Bytes in one packed 24-bit sample. */
  const SAMPLE_BYTES_24: nat := 3

  /** Frame `i` of a buffer made of `size`-byte frames. */
  function Frame(s: seq<Byte>, i: nat, size: nat): seq<Byte>
    requires i * size + size <= |s|
  {
    s[i * size .. i * size + size]
  }

  /** `n` zero bytes: what `std::string::resize` appends. */
  function Zeros(n: nat): (z: seq<Byte>)
    ensures |z| == n
    ensures forall j :: 0 <= j < n ==> z[j] == 0
  {
    seq(n, _ => 0)
  }

  /**
   * Number of whole frames the decimation loop copies: the destination is
   * resized to `n / step` bytes and the loop runs over its whole frames.
   */
  function KeptFrames(n: nat, step: nat, size: nat): nat
    requires step >= 1 && size >= 1
  {
    (n / step) / size
  }

  /** Every frame the decimation loop reads or writes lies inside its buffer. */
  lemma KeptFrameInBounds(n: nat, step: nat, size: nat, i: nat)
    requires step >= 1 && size >= 1
    requires i < KeptFrames(n, step, size)
    ensures (i * step) * size + size <= n
    ensures i * size + size <= n / step
  {
    var q := n / step;
    var c := q / size;
    assert c * size <= q;
    MulMonotone(i + 1, c, size);
    assert (i + 1) * size <= q;
    MulMonotone((i + 1) * size, q, step);
    assert q * step <= n;
    assert (i + 1) * size * step == (i * step) * size + size * step;
    MulMonotone(1, step, size);
  }

  /** In a buffer of whole frames, appending more bytes keeps the earlier frames. */
  lemma FramesOfAppend(a: seq<Byte>, b: seq<Byte>, size: nat, i: nat)
    requires i * size + size <= |a|
    ensures Frame(a + b, i, size) == Frame(a, i, size)
  {
  }

  /** The frame right after a whole-frame prefix is the appended block. */
  lemma LastFrameOfAppend(a: seq<Byte>, b: seq<Byte>, size: nat, count: nat)
    requires |a| == count * size && |b| == size
    ensures Frame(a + b, count, size) == b
  {
    assert (a + b)[count * size .. count * size + size] == b;
  }

  /** The first `count` kept frames: source frames `0, step, 2*step, …`, back to back. */
  function KeptPrefix(src: seq<Byte>, step: nat, size: nat, count: nat): (r: seq<Byte>)
    requires step >= 1 && size >= 1
    requires count <= KeptFrames(|src|, step, size)
    ensures |r| == count * size
  {
    if count == 0 then []
    else
      KeptFrameInBounds(|src|, step, size, count - 1);
      var prev := KeptPrefix(src, step, size, count - 1);
      assert |prev| + size == count * size;
      prev + Frame(src, (count - 1) * step, size)
  }

  /** Frame `i` of the kept prefix is source frame `i * step`. */
  lemma {:induction false} KeptPrefixFrame(src: seq<Byte>, step: nat, size: nat, count: nat, i: nat)
    requires step >= 1 && size >= 1
    requires count <= KeptFrames(|src|, step, size)
    requires i < count
    ensures (i * step) * size + size <= |src|
    ensures i * size + size <= count * size
    ensures Frame(KeptPrefix(src, step, size, count), i, size) == Frame(src, i * step, size)
    decreases count
  {
    KeptFrameInBounds(|src|, step, size, i);
    MulMonotone(i + 1, count, size);
    var prev := KeptPrefix(src, step, size, count - 1);
    KeptFrameInBounds(|src|, step, size, count - 1);
    var block := Frame(src, (count - 1) * step, size);
    assert KeptPrefix(src, step, size, count) == prev + block;
    if i == count - 1 {
      LastFrameOfAppend(prev, block, size, count - 1);
    } else {
      KeptPrefixFrame(src, step, size, count - 1, i);
      FramesOfAppend(prev, block, size, i);
    }
  }

  /**
   * Decimation by `step` of a buffer of `size`-byte frames, as
   * `convertSamplingrate` computes it: a zero-filled buffer of `|src| / step`
   * bytes whose whole frames are overwritten with source frames
   * `0, step, 2*step, …`.
   */
  function Decimate(src: seq<Byte>, step: nat, size: nat): (dst: seq<Byte>)
    requires step >= 1 && size >= 1
    ensures |dst| == |src| / step
  {
    var c := KeptFrames(|src|, step, size);
    assert c * size <= |src| / step;
    KeptPrefix(src, step, size, c) + Zeros(|src| / step - c * size)
  }

  /**
   * Decimation keeps exactly the frames `0, step, 2*step, …` of the source,
   * reading only inside it, and leaves the bytes after the last whole kept
   * frame zero.
   */
  lemma DecimateFrames(src: seq<Byte>, step: nat, size: nat)
    requires step >= 1 && size >= 1
    ensures forall i :: 0 <= i < KeptFrames(|src|, step, size) ==>
              && (i * step) * size + size <= |src|
              && i * size + size <= |Decimate(src, step, size)|
              && Frame(Decimate(src, step, size), i, size) == Frame(src, i * step, size)
    ensures forall j :: KeptFrames(|src|, step, size) * size <= j < |Decimate(src, step, size)| ==>
              Decimate(src, step, size)[j] == 0
  {
    var c := KeptFrames(|src|, step, size);
    assert c * size <= |src| / step;
    var kept := KeptPrefix(src, step, size, c);
    var dst := Decimate(src, step, size);
    assert dst == kept + Zeros(|src| / step - c * size);
    forall i | 0 <= i < c
      ensures (i * step) * size + size <= |src|
      ensures i * size + size <= |dst|
      ensures Frame(dst, i, size) == Frame(src, i * step, size)
    {
      KeptPrefixFrame(src, step, size, c, i);
      FramesOfAppend(kept, Zeros(|src| / step - c * size), size, i);
    }
  }

  /**
   * The copy loop of `convertSamplingrate`: resize the destination to
   * `|src| / step` zero bytes, then `memcpy` kept frame `i` from source frame
   * `i * step` for every whole destination frame.
   */
  method DecimateInPlace(src: seq<Byte>, step: nat, size: nat) returns (dst: seq<Byte>)
    requires step >= 1 && size >= 1
    ensures dst == Decimate(src, step, size)
  {
    dst := Zeros(|src| / step);
    var count := |dst| / size;
    assert count == KeptFrames(|src|, step, size);
    assert count * size <= |dst|;
    var off := 0;
    for i := 0 to count
      invariant off == i * size
      invariant |dst| == |src| / step
      invariant off <= |dst|
      invariant dst[..off] == KeptPrefix(src, step, size, i)
      invariant forall j :: off <= j < |dst| ==> dst[j] == 0
    {
      KeptFrameInBounds(|src|, step, size, i);
      var block := Frame(src, i * step, size);
      var before := dst[..off];
      var after := dst[off + size ..];
      dst := before + block + after;
      assert dst[..off + size] == before + block;
      assert KeptPrefix(src, step, size, i + 1) == KeptPrefix(src, step, size, i) + block;
      off := off + size;
    }
    assert dst[off ..] == Zeros(|src| / step - count * size);
    assert dst == KeptPrefix(src, step, size, count) + Zeros(|src| / step - count * size) by {
      assert dst == dst[..off] + dst[off ..];
    }
  }

  /** The signed value of 24-bit little-endian two's-complement sample `i`. */
  function Sample24(src: seq<Byte>, i: nat): (v: int)
    requires 3 * i + 3 <= |src|
    ensures -0x80_0000 <= v < 0x80_0000
  {
    var u := src[3 * i] as int + 0x100 * src[3 * i + 1] as int + 0x1_0000 * src[3 * i + 2] as int;
    if u >= 0x80_0000 then u - 0x100_0000 else u
  }

  /** The signed value an unsigned (offset-binary) 8-bit PCM byte stands for. */
  function Signed8(b: Byte): int
  {
    b as int - 0x80
  }

  lemma TopByteOfSample(src: seq<Byte>, i: nat)
    requires 3 * i + 3 <= |src|
    ensures Signed8((src[3 * i + 2] as int + 0x80) % 0x100) == Sample24(src, i) / 0x1_0000
  {
    var low := src[3 * i] as int + 0x100 * src[3 * i + 1] as int;
    assert 0 <= low < 0x1_0000;
    var hi := src[3 * i + 2] as int;
    if hi < 0x80 {
      assert Sample24(src, i) == low + 0x1_0000 * hi;
    } else {
      assert Sample24(src, i) == low + 0x1_0000 * (hi - 0x100);
    }
  }

  /**
   * Requantization of 24-bit packed samples to unsigned 8-bit PCM, as
   * `convertBitdepth` computes it: byte `3i+2` of every sample plus `0x80`,
   * wrapping modulo 256.
   */
  function Requantize(src: seq<Byte>): (dst: seq<Byte>)
    ensures |dst| == |src| / SAMPLE_BYTES_24
    ensures forall i :: 0 <= i < |dst| ==>
              3 * i + 3 <= |src| && Signed8(dst[i]) == Sample24(src, i) / 0x1_0000
  {
    var dst := seq(|src| / 3, i requires 0 <= i < |src| / 3 => (src[3 * i + 2] as int + 0x80) % 0x100);
    assert forall i :: 0 <= i < |dst| ==> Signed8(dst[i]) == Sample24(src, i) / 0x1_0000 by {
      forall i | 0 <= i < |dst|
        ensures Signed8(dst[i]) == Sample24(src, i) / 0x1_0000
      {
        TopByteOfSample(src, i);
      }
    }
    dst
  }

  /**
   * Requantization truncates (it does not round): every 24-bit sample lies in
   * the 2^16-wide interval that starts at its 8-bit value scaled back up.
   */
  lemma RequantizeTruncates(src: seq<Byte>, i: nat)
    requires i < |src| / SAMPLE_BYTES_24
    ensures 0 <= Sample24(src, i) - 0x1_0000 * Signed8(Requantize(src)[i]) < 0x1_0000
  {
  }

  /** Requantization preserves the order of sample values. */
  lemma RequantizeMonotone(src: seq<Byte>, i: nat, j: nat)
    requires i < |src| / SAMPLE_BYTES_24 && j < |src| / SAMPLE_BYTES_24
    requires Sample24(src, i) <= Sample24(src, j)
    ensures Requantize(src)[i] <= Requantize(src)[j]
  {
    var a := Sample24(src, i);
    var b := Sample24(src, j);
    assert a / 0x1_0000 <= b / 0x1_0000;
  }

  /**
   * The number of whole frames kept by decimation is the number of whole
   * source frames divided by the step, rounded down.
   */
  lemma {:induction false} KeptFramesIsFramesOverStep(n: nat, step: nat, size: nat)
    requires step >= 1 && size >= 1
    ensures KeptFrames(n, step, size) == (n / size) / step
  {
    DivDiv(n, step, size);
    DivDiv(n, size, step);
    assert step * size == size * step;
  }
}
