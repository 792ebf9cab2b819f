/**
 * The PCM framer `pcm2wav` (piper_tts.py:222-243): it prepends a 44-byte
 * RIFF/WAVE header to raw 16-bit mono samples, or passes through a buffer
 * that already starts with "RIFF". The header is built from `struct.pack`
 * fields with native (little-endian) byte order: 'i' is a signed 32-bit
 * integer, 'h' a signed 16-bit one.
 */
module Wav {

  /** One octet of a Python `bytes` value. */
  newtype byte = b: int | 0 <= b < 256

  /** ASCII "RIFF", "WAVEfmt " and "data". */
  const RiffTag: seq<byte> := [0x52, 0x49, 0x46, 0x46]
  const WaveFmtTag: seq<byte> := [0x57, 0x41, 0x56, 0x45, 0x66, 0x6D, 0x74, 0x20]
  const DataTag: seq<byte> := [0x64, 0x61, 0x74, 0x61]

  /** pcm2wav overrides whatever its callers pass: mono, 16 bits per sample. */
  const Channels := 1
  const BitsPerSample := 16
  /** `int(bits_per_sample * channels / 8)`, bytes per sample frame. */
  const BlockAlign := BitsPerSample * Channels / 8
  const HeaderSize := 44

  function Pow256(w: nat): (p: nat)
    ensures p > 0
  {
    if w == 0 then 1 else 256 * Pow256(w - 1)
  }

  /** The low `w` bytes of `n`, least significant first. */
  function LeBytes(n: nat, w: nat): (r: seq<byte>)
    ensures |r| == w
  {
    if w == 0 then [] else [(n % 256) as byte] + LeBytes(n / 256, w - 1)
  }

  /** The unsigned value of little-endian bytes. */
  function LeValue(s: seq<byte>): nat {
    if s == [] then 0 else s[0] as nat + 256 * LeValue(s[1..])
  }

  lemma {:induction false} LeValueBound(s: seq<byte>)
    ensures LeValue(s) < Pow256(|s|)
  {
    if s != [] {
      LeValueBound(s[1..]);
    }
  }

  /** Reading back `w` encoded bytes gives the number that was written. */
  lemma {:induction false} LeRoundTrip(n: nat, w: nat)
    requires n < Pow256(w)
    ensures LeValue(LeBytes(n, w)) == n
  {
    if w > 0 {
      var p, q := Pow256(w - 1), n / 256;
      assert 256 * q <= n < 256 * p;
      LeRoundTrip(q, w - 1);
      assert LeBytes(n, w)[1..] == LeBytes(n / 256, w - 1);
    }
  }

  predicate IsInt32(v: int) { -0x8000_0000 <= v < 0x8000_0000 }
  predicate IsInt16(v: int) { -0x8000 <= v < 0x8000 }

  /** The signed value of four little-endian bytes, as `struct.unpack('i', s)`. */
  function UnpackInt32(s: seq<byte>): (v: int)
    requires |s| == 4
    ensures IsInt32(v)
  {
    LeValueBound(s);
    var u := LeValue(s);
    if u >= 0x8000_0000 then u - 0x1_0000_0000 else u
  }

  /** The signed value of two little-endian bytes, as `struct.unpack('h', s)`. */
  function UnpackInt16(s: seq<byte>): (v: int)
    requires |s| == 2
    ensures IsInt16(v)
  {
    LeValueBound(s);
    var u := LeValue(s);
    if u >= 0x8000 then u - 0x1_0000 else u
  }

  /** `struct.pack('i', v)`: two's complement, little-endian, four bytes. */
  function PackInt32(v: int): (r: seq<byte>)
    requires IsInt32(v)
    ensures |r| == 4
    ensures UnpackInt32(r) == v
  {
    var u := if v < 0 then v + 0x1_0000_0000 else v;
    LeRoundTrip(u, 4);
    LeBytes(u, 4)
  }

  /** `struct.pack('h', v)`: two's complement, little-endian, two bytes. */
  function PackInt16(v: int): (r: seq<byte>)
    requires IsInt16(v)
    ensures |r| == 2
    ensures UnpackInt16(r) == v
  {
    var u := if v < 0 then v + 0x1_0000 else v;
    LeRoundTrip(u, 2);
    LeBytes(u, 2)
  }

  /** `audio.startswith(b"RIFF")` */
  predicate StartsWithRiff(audio: seq<byte>) {
    |audio| >= 4 && audio[..4] == RiffTag
  }

  /** Every value the header packs fits its `struct` field (else `struct.error`). */
  predicate HeaderFits(dataLen: nat, sampleRate: int) {
    IsInt32(dataLen + HeaderSize) && IsInt32(sampleRate) && IsInt32(sampleRate * BlockAlign)
  }

  /** What pcm2wav needs of its arguments: nothing when it passes the buffer through. */
  predicate CanFrame(audio: seq<byte>, sampleRate: int) {
    StartsWithRiff(audio) || HeaderFits(|audio|, sampleRate)
  }

  /**
   * The 44 header bytes, field by field in the order the source appends them.
   * The size at offset 4 is the data length plus 44 (the whole file), and
   * offset 16 holds bits_per_sample.
   */
  function Header(dataLen: nat, sampleRate: int): (h: seq<byte>)
    requires HeaderFits(dataLen, sampleRate)
    ensures |h| == HeaderSize
  {
    RiffTag
    + PackInt32(dataLen + HeaderSize)
    + WaveFmtTag
    + PackInt32(BitsPerSample)
    + PackInt16(1)
    + PackInt16(Channels)
    + PackInt32(sampleRate)
    + PackInt32(sampleRate * BlockAlign)
    + PackInt16(BlockAlign)
    + PackInt16(BitsPerSample)
    + DataTag
    + PackInt32(dataLen)
  }

  /**
   * pcm2wav(audio, sample_rate, bits_per_sample, channels). The last two
   * arguments are accepted and ignored, as in the source.
   */
  function PcmToWav(audio: seq<byte>, sampleRate: int, bitsPerSample: int, channels: int): (wav: seq<byte>)
    requires CanFrame(audio, sampleRate)
    ensures StartsWithRiff(wav)
    ensures StartsWithRiff(audio) ==> wav == audio
    ensures !StartsWithRiff(audio) ==> |wav| == |audio| + HeaderSize && wav[HeaderSize..] == audio
  {
    if StartsWithRiff(audio) then audio
    else
      var h := Header(|audio|, sampleRate);
      assert (h + audio)[..4] == RiffTag;
      h + audio
  }

  /**
   * A reader's view of a canonical 44-byte PCM header followed by `dataLen`
   * bytes of samples: every field decoded from its offset.
   */
  ghost predicate DescribesPcm(wav: seq<byte>, dataLen: nat, sampleRate: int) {
    && |wav| == HeaderSize + dataLen
    && wav[0..4] == RiffTag
    && UnpackInt32(wav[4..8]) == dataLen + HeaderSize
    && wav[8..16] == WaveFmtTag
    && UnpackInt32(wav[16..20]) == 16
    && UnpackInt16(wav[20..22]) == 1
    && UnpackInt16(wav[22..24]) == 1
    && UnpackInt32(wav[24..28]) == sampleRate
    && UnpackInt32(wav[28..32]) == sampleRate * 2
    && UnpackInt16(wav[32..34]) == 2
    && UnpackInt16(wav[34..36]) == 16
    && wav[36..40] == DataTag
    && UnpackInt32(wav[40..44]) == dataLen
  }

  /**
   * When `pre + field` is a prefix of `wav`, the bytes of `wav` after `pre`
   * are `field`, and `pre` is a prefix of `wav` too.
   */
  lemma FieldAfter(wav: seq<byte>, pre: seq<byte>, field: seq<byte>)
    requires |pre| + |field| <= |wav|
    requires wav[..|pre| + |field|] == pre + field
    ensures wav[|pre|..|pre| + |field|] == field
    ensures wav[..|pre|] == pre
  {
  }

  /** Where each packed field of the header sits. */
  lemma HeaderFields(n: nat, sampleRate: int)
    requires HeaderFits(n, sampleRate)
    ensures var h := Header(n, sampleRate);
      && h[0..4] == RiffTag
      && h[4..8] == PackInt32(n + HeaderSize)
      && h[8..16] == WaveFmtTag
      && h[16..20] == PackInt32(BitsPerSample)
      && h[20..22] == PackInt16(1)
      && h[22..24] == PackInt16(Channels)
      && h[24..28] == PackInt32(sampleRate)
      && h[28..32] == PackInt32(sampleRate * BlockAlign)
      && h[32..34] == PackInt16(BlockAlign)
      && h[34..36] == PackInt16(BitsPerSample)
      && h[36..40] == DataTag
      && h[40..44] == PackInt32(n)
  {
    var h := Header(n, sampleRate);
    var h8 := RiffTag + PackInt32(n + HeaderSize);
    var h16 := h8 + WaveFmtTag;
    var h20 := h16 + PackInt32(BitsPerSample);
    var h22 := h20 + PackInt16(1);
    var h24 := h22 + PackInt16(Channels);
    var h28 := h24 + PackInt32(sampleRate);
    var h32 := h28 + PackInt32(sampleRate * BlockAlign);
    var h34 := h32 + PackInt16(BlockAlign);
    var h36 := h34 + PackInt16(BitsPerSample);
    var h40 := h36 + DataTag;
    assert h == h40 + PackInt32(n);
    FieldAfter(h, h40, PackInt32(n));
    FieldAfter(h, h36, DataTag);
    FieldAfter(h, h34, PackInt16(BitsPerSample));
    FieldAfter(h, h32, PackInt16(BlockAlign));
    FieldAfter(h, h28, PackInt32(sampleRate * BlockAlign));
    FieldAfter(h, h24, PackInt32(sampleRate));
    FieldAfter(h, h22, PackInt16(Channels));
    FieldAfter(h, h20, PackInt16(1));
    FieldAfter(h, h16, PackInt32(BitsPerSample));
    FieldAfter(h, h8, WaveFmtTag);
    FieldAfter(h, RiffTag, PackInt32(n + HeaderSize));
    FieldAfter(h, [], RiffTag);
  }

  /** A slice inside a prefix `h` of `wav` is the same slice of `h`. */
  lemma SliceOfPrefix(wav: seq<byte>, h: seq<byte>, i: nat, j: nat)
    requires |h| <= |wav| && wav[..|h|] == h
    requires i <= j <= |h|
    ensures wav[i..j] == h[i..j]
  {
    forall k | 0 <= k < j - i
      ensures wav[i..j][k] == h[i..j][k]
    {
      assert wav[i + k] == wav[..|h|][i + k];
    }
  }

  /** Every header field of a framed buffer decodes to the value the format prescribes. */
  lemma HeaderLayout(audio: seq<byte>, sampleRate: int, bitsPerSample: int, channels: int)
    requires !StartsWithRiff(audio)
    requires HeaderFits(|audio|, sampleRate)
    ensures DescribesPcm(PcmToWav(audio, sampleRate, bitsPerSample, channels), |audio|, sampleRate)
  {
    var wav := PcmToWav(audio, sampleRate, bitsPerSample, channels);
    var h := Header(|audio|, sampleRate);
    assert wav == h + audio;
    assert wav[..HeaderSize] == h;
    HeaderFields(|audio|, sampleRate);
    SliceOfPrefix(wav, h, 0, 4);
    SliceOfPrefix(wav, h, 4, 8);
    SliceOfPrefix(wav, h, 8, 16);
    SliceOfPrefix(wav, h, 16, 20);
    SliceOfPrefix(wav, h, 20, 22);
    SliceOfPrefix(wav, h, 22, 24);
    SliceOfPrefix(wav, h, 24, 28);
    SliceOfPrefix(wav, h, 28, 32);
    SliceOfPrefix(wav, h, 32, 34);
    SliceOfPrefix(wav, h, 34, 36);
    SliceOfPrefix(wav, h, 36, 40);
    SliceOfPrefix(wav, h, 40, 44);
  }

  /** Framing an already framed buffer changes nothing. */
  lemma PcmToWavIdempotent(audio: seq<byte>, rate1: int, bits1: int, ch1: int, rate2: int, bits2: int, ch2: int)
    requires CanFrame(audio, rate1)
    ensures PcmToWav(PcmToWav(audio, rate1, bits1, ch1), rate2, bits2, ch2) == PcmToWav(audio, rate1, bits1, ch1)
  {
  }

  /**
   * The RIFF chunk size written at offset 4 equals the length of the whole
   * file, eight more than the number of bytes that follow the size field.
   */
  lemma RiffSizeIsFileLength(audio: seq<byte>, sampleRate: int)
    requires !StartsWithRiff(audio)
    requires HeaderFits(|audio|, sampleRate)
    ensures var wav := PcmToWav(audio, sampleRate, BitsPerSample, Channels);
            UnpackInt32(wav[4..8]) == |wav| == |wav[8..]| + 8
  {
    HeaderLayout(audio, sampleRate, BitsPerSample, Channels);
  }

  /** Four bytes of samples at 22050 Hz give a 48-byte file. */
  lemma FourByteExample(audio: seq<byte>)
    requires audio == [1, 2, 3, 4]
    ensures var wav := PcmToWav(audio, 22050, 16, 1);
            |wav| == 48 && DescribesPcm(wav, 4, 22050) && wav[44..] == audio
  {
    assert audio[..4][0] != RiffTag[0];
    HeaderLayout(audio, 22050, 16, 1);
  }
}
