/** The WAV encoder (wav.ts, lines 1-44), against a reader of the RIFF/WAVE layout:
    section "Waveform Audio File Format (WAVE)" of Multimedia Programming Interface and
    Data Specifications 1.0. */
module Wav {
  import opened Common
  import opened Samples

  type Byte = b: int | 0 <= b < 256

  const RIFF: seq<Byte> := [82, 73, 70, 70]
  const WAVE: seq<Byte> := [87, 65, 86, 69]
  const FMT: seq<Byte> := [102, 109, 116, 32]
  const DATA: seq<Byte> := [100, 97, 116, 97]
  const TWO32 := 0x1_0000_0000

  /** The two low bytes of `v`, low byte first; two's complement for negative `v`. */
  function Bytes16(v: int): (b: seq<Byte>)
    ensures |b| == 2
  {
    [v % 256, v / 256 % 256]
  }

  function Bytes32(v: int): (b: seq<Byte>)
    ensures |b| == 4
  {
    Bytes16(v) + Bytes16(v / 0x1_0000)
  }

  function SampleBytes(ps: seq<int>): (b: seq<Byte>)
    ensures |b| == 2 * |ps|
  {
    if ps == [] then [] else SampleBytes(ps[..|ps| - 1]) + Bytes16(ps[|ps| - 1])
  }

  function Chunk(id: seq<Byte>, body: seq<Byte>): seq<Byte> {
    id + Bytes32(|body|) + body
  }

  /** The fmt chunk: PCM, one channel, 16 bits. */
  function FmtBody(sampleRate: nat): (b: seq<Byte>)
    ensures |b| == 16
  {
    Bytes16(1) + Bytes16(1) + Bytes32(sampleRate) + Bytes32(sampleRate * 2) + Bytes16(2) + Bytes16(16)
  }

  function Encode(sampleRate: nat, ps: seq<int>): (b: seq<Byte>)
    ensures |b| == 44 + 2 * |ps|
  {
    RIFF + Bytes32(36 + 2 * |ps|) + WAVE + Chunk(FMT, FmtBody(sampleRate)) + Chunk(DATA, SampleBytes(ps))
  }

  /** A DataView over a new zeroed buffer, written at a moving offset. */
  class Writer {
    const view: array<Byte>
    var offset: nat

    ghost predicate Valid()
      reads this
    {
      offset <= view.Length
    }

    ghost function Written(): seq<Byte>
      requires Valid()
      reads this, view
    {
      view[..offset]
    }

    constructor (totalSize: nat)
      ensures Valid() && fresh(view) && view.Length == totalSize && Written() == []
    {
      view := new Byte[totalSize](_ => 0);
      offset := 0;
    }

    method SetUint8(v: int)
      requires Valid() && offset < view.Length
      modifies this, view
      ensures Valid() && offset == old(offset) + 1 && Written() == old(Written()) + [v % 256]
    {
      view[offset] := v % 256;
      offset := offset + 1;
      assert view[..offset] == old(view[..offset]) + [v % 256];
    }

    method SetBytes(bytes: seq<Byte>)
      requires Valid() && offset + |bytes| <= view.Length
      modifies this, view
      ensures Valid() && offset == old(offset) + |bytes| && Written() == old(Written()) + bytes
    {
      for i := 0 to |bytes|
        invariant Valid() && offset == old(offset) + i && Written() == old(Written()) + bytes[..i]
      {
        SetUint8(bytes[i]);
      }
    }
  }

  /** The first 44 bytes (lines 22-34). */
  function Header(sampleRate: nat, dataSize: nat): (b: seq<Byte>)
    ensures |b| == 44
  {
    RIFF + Bytes32(36 + dataSize) + WAVE + Chunk(FMT, FmtBody(sampleRate)) + (DATA + Bytes32(dataSize))
  }

  method WriteHeader(w: Writer, sampleRate: nat, dataSize: nat)
    requires w.Valid() && w.offset == 0 && w.view.Length >= 44
    modifies w, w.view
    ensures w.Valid() && w.offset == 44 && w.Written() == Header(sampleRate, dataSize)
  {
    hide Bytes16, Bytes32, FmtBody, Writer.Written;
    WrittenNothing(w);
    w.SetBytes(RIFF);
    w.SetBytes(Bytes32(44 + dataSize - 8));
    w.SetBytes(WAVE);
    WriteFmtChunk(w, sampleRate);
    WriteDataHead(w, dataSize);
  }

  method WriteFmtChunk(w: Writer, sampleRate: nat)
    requires w.Valid() && w.offset + 24 <= w.view.Length
    modifies w, w.view
    ensures w.Valid() && w.offset == old(w.offset) + 24
    ensures w.Written() == old(w.Written()) + Chunk(FMT, FmtBody(sampleRate))
  {
    hide Bytes16, Bytes32, Writer.Written;
    ghost var before := w.Written();
    var numChannels, bytesPerSample := 1, 2;
    var blockAlign := numChannels * bytesPerSample;
    var byteRate := sampleRate * blockAlign;
    w.SetBytes(FMT);
    w.SetBytes(Bytes32(16));
    ghost var head := w.Written();
    w.SetBytes(Bytes16(1));
    w.SetBytes(Bytes16(numChannels));
    w.SetBytes(Bytes32(sampleRate));
    w.SetBytes(Bytes32(byteRate));
    w.SetBytes(Bytes16(blockAlign));
    w.SetBytes(Bytes16(16));
    FmtGroups(before, head, sampleRate);
  }

  lemma FmtGroups(before: seq<Byte>, head: seq<Byte>, rate: nat)
    requires head == before + FMT + Bytes32(16)
    ensures head + Bytes16(1) + Bytes16(1) + Bytes32(rate) + Bytes32(rate * 2) + Bytes16(2) + Bytes16(16)
         == before + Chunk(FMT, FmtBody(rate))
  {
    hide Bytes16, Bytes32;
    assert head + Bytes16(1) + Bytes16(1) + Bytes32(rate) + Bytes32(rate * 2) + Bytes16(2) + Bytes16(16)
        == head + FmtBody(rate);
  }

  method WriteDataHead(w: Writer, dataSize: nat)
    requires w.Valid() && w.offset + 8 <= w.view.Length
    modifies w, w.view
    ensures w.Valid() && w.offset == old(w.offset) + 8
    ensures w.Written() == old(w.Written()) + (DATA + Bytes32(dataSize))
  {
    hide Bytes32, Writer.Written;
    ghost var before := w.Written();
    w.SetBytes(DATA);
    w.SetBytes(Bytes32(dataSize));
    assert before + DATA + Bytes32(dataSize) == before + (DATA + Bytes32(dataSize));
  }

  lemma WrittenNothing(w: Writer)
    requires w.Valid() && w.offset == 0
    ensures w.Written() + RIFF == RIFF
  {
  }

  /** Lines 36-41. */
  method WriteSamples(w: Writer, channelData: seq<real>)
    requires w.Valid() && w.offset + 2 * |channelData| <= w.view.Length
    modifies w, w.view
    ensures w.Valid() && w.offset == old(w.offset) + 2 * |channelData|
    ensures w.Written() == old(w.Written()) + SampleBytes(QuantiseAll(channelData))
  {
    hide Bytes16, SampleBytes, Quantise, Writer.Written;
    ghost var ps := QuantiseAll(channelData);
    ghost var header := w.Written();
    NoSamples(header, ps);
    for i := 0 to |channelData|
      invariant w.Valid() && w.offset == old(w.offset) + 2 * i
      invariant w.Written() == header + SampleBytes(ps[..i])
    {
      w.SetBytes(Bytes16(Quantise(channelData[i])));
      OneSample(header, ps, i);
    }
    assert ps[..|channelData|] == ps;
  }

  lemma NoSamples(header: seq<Byte>, ps: seq<int>)
    ensures header + SampleBytes(ps[..0]) == header
  {
  }

  lemma OneSample(header: seq<Byte>, ps: seq<int>, i: nat)
    requires i < |ps|
    ensures header + SampleBytes(ps[..i]) + Bytes16(ps[i]) == header + SampleBytes(ps[..i + 1])
  {
    assert ps[..i + 1][..i] == ps[..i];
  }

  /** encodeWavFromAudioBuffer. */
  method EncodeWav(sampleRate: nat, channelData: seq<real>) returns (bytes: seq<Byte>, offset: nat)
    ensures bytes == Encode(sampleRate, QuantiseAll(channelData))
    ensures offset == 44 + 2 * |channelData| == |bytes|
  {
    hide Header, Encode;
    var dataSize := |channelData| * 2;
    var w := new Writer(44 + dataSize);
    WriteHeader(w, sampleRate, dataSize);
    WriteSamples(w, channelData);
    EncodeIsHeaderFirst(sampleRate, QuantiseAll(channelData));
    offset := w.offset;
    bytes := w.view[..];
    assert bytes == w.Written();
  }

  lemma EncodeIsHeaderFirst(sampleRate: nat, ps: seq<int>)
    ensures Encode(sampleRate, ps) == Header(sampleRate, 2 * |ps|) + SampleBytes(ps)
  {
    hide Bytes32, Chunk, FmtBody, SampleBytes;
    var size := Bytes32(2 * |ps|);
    ChunkHead(DATA, SampleBytes(ps));
    Associate(RIFF + Bytes32(36 + 2 * |ps|) + WAVE + Chunk(FMT, FmtBody(sampleRate)), DATA + size, SampleBytes(ps));
  }

  lemma ChunkHead(id: seq<Byte>, body: seq<Byte>)
    ensures Chunk(id, body) == id + Bytes32(|body|) + body
  {
  }

  lemma Associate(a: seq<Byte>, b: seq<Byte>, c: seq<Byte>)
    ensures a + (b + c) == a + b + c
  {
  }

  function Read16(b: seq<Byte>): int
    requires |b| == 2
  {
    b[0] as int + 256 * (b[1] as int)
  }

  function Read32(b: seq<Byte>): int
    requires |b| == 4
  {
    Read16(b[..2]) + 0x1_0000 * Read16(b[2..])
  }

  function ReadSamples(b: seq<Byte>): (ps: seq<int>)
    requires |b| % 2 == 0
  {
    if b == [] then []
    else
      var u := Read16(b[|b| - 2..]);
      ReadSamples(b[..|b| - 2]) + [if u < 0x8000 then u else u - 0x1_0000]
  }

  datatype Wave = Wave(sampleRate: int, channels: int, bits: int, samples: seq<int>)

  /** Walks the chunks (padded to even length) to the first one named `id`. */
  function FindChunk(b: seq<Byte>, id: seq<Byte>): Option<seq<Byte>> {
    if |b| < 8 then None
    else
      var size := Read32(b[4..8]);
      if |b| < 8 + size then None
      else if b[..4] == id then Some(b[8..8 + size])
      else FindChunk(b[Min(|b|, 8 + size + size % 2)..], id)
  }

  /** A reader of 16-bit PCM files that trusts nothing: the sizes and rates must agree. */
  function Decode(b: seq<Byte>): Option<Wave> {
    if |b| < 12 || b[..4] != RIFF || Read32(b[4..8]) != |b| - 8 || b[8..12] != WAVE then None
    else
      var fmt, data := FindChunk(b[12..], FMT), FindChunk(b[12..], DATA);
      if fmt.None? || data.None? || |fmt.value| < 16 then None
      else
        var f := fmt.value;
        var channels, rate, byteRate := Read16(f[2..4]), Read32(f[4..8]), Read32(f[8..12]);
        var blockAlign, bits := Read16(f[12..14]), Read16(f[14..16]);
        if Read16(f[..2]) != 1 || bits != 16 || blockAlign != channels * 2 || byteRate != rate * blockAlign ||
           |data.value| % 2 != 0
        then None
        else Some(Wave(rate, channels, bits, ReadSamples(data.value)))
  }

  lemma Read16Bytes16(v: int)
    ensures Read16(Bytes16(v)) == v % 0x1_0000
  {
  }

  lemma Read32Bytes32(v: int)
    ensures Read32(Bytes32(v)) == v % TWO32
  {
    hide Read16, Bytes16;
    var b := Bytes32(v);
    assert b[..2] == Bytes16(v) && b[2..] == Bytes16(v / 0x1_0000);
    Read16Bytes16(v);
    Read16Bytes16(v / 0x1_0000);
  }

  lemma {:induction false} ReadSampleBytes(ps: seq<int>)
    requires forall p :: p in ps ==> IsInt16(p)
    ensures ReadSamples(SampleBytes(ps)) == ps
  {
    hide ReadSamples, SampleBytes, Bytes16, IsInt16;
    if ps == [] {
      SampleBytesSteps(ps);
    } else {
      var p, front := ps[|ps| - 1], ps[..|ps| - 1];
      assert p in ps && forall q :: q in front ==> q in ps;
      ReadSampleBytes(front);
      SampleBytesSteps(ps);
      ReadSamplesSnoc(SampleBytes(front), p);
      assert front + [p] == ps;
    }
  }

  lemma SampleBytesSteps(ps: seq<int>)
    ensures ps == [] ==> ReadSamples(SampleBytes(ps)) == []
    ensures ps != [] ==> SampleBytes(ps) == SampleBytes(ps[..|ps| - 1]) + Bytes16(ps[|ps| - 1])
  {
    hide Bytes16, Read16;
  }

  lemma ReadSamplesSnoc(b: seq<Byte>, p: int)
    requires |b| % 2 == 0 && IsInt16(p)
    ensures ReadSamples(b + Bytes16(p)) == ReadSamples(b) + [p]
  {
    ReadSigned(p);
    hide Read16, Bytes16, IsInt16;
    var c := b + Bytes16(p);
    assert c[..|c| - 2] == b && c[|c| - 2..] == Bytes16(p);
  }

  lemma ReadSigned(p: int)
    requires IsInt16(p)
    ensures
      var u := Read16(Bytes16(p));
      p == if u < 0x8000 then u else u - 0x1_0000
  {
    Read16Bytes16(p);
  }

  lemma FindFirst(id: seq<Byte>, body: seq<Byte>, rest: seq<Byte>)
    requires |id| == 4 && |body| < TWO32
    ensures FindChunk(Chunk(id, body) + rest, id) == Some(body)
  {
    hide Bytes32, Read32;
    var b := Chunk(id, body) + rest;
    assert b[..4] == id && b[4..8] == Bytes32(|body|) && b[8..8 + |body|] == body;
    Read32Bytes32(|body|);
  }

  lemma FindNext(other: seq<Byte>, body: seq<Byte>, rest: seq<Byte>, id: seq<Byte>)
    requires |other| == 4 && other != id && |body| < TWO32 && |body| % 2 == 0
    ensures FindChunk(Chunk(other, body) + rest, id) == FindChunk(rest, id)
  {
    hide Bytes32, Read32;
    var b := Chunk(other, body) + rest;
    assert b[..4] == other && b[4..8] == Bytes32(|body|) && b[8 + |body|..] == rest;
    Read32Bytes32(|body|);
  }

  /** The sizes that the 32-bit header fields can hold. */
  predicate Fits(sampleRate: nat, length: nat) {
    36 + 2 * length < TWO32 && 2 * sampleRate < TWO32
  }

  /** Encode, then decode: rate, one channel, 16 bits and exactly the samples come back if
      and only if the header fields do not overflow. */
  lemma DecodeEncodeIff(sampleRate: nat, ps: seq<int>)
    requires forall p :: p in ps ==> IsInt16(p)
    ensures Decode(Encode(sampleRate, ps)) == Some(Wave(sampleRate, 1, 16, ps)) <==> Fits(sampleRate, |ps|)
  {
    hide FindChunk, Chunk, Read16, Read32, Bytes16, Bytes32, FmtBody, SampleBytes, ReadSamples, Encode;
    var b := Encode(sampleRate, ps);
    EncodeLayout(sampleRate, ps);
    Read32Bytes32(36 + 2 * |ps|);
    if 36 + 2 * |ps| < TWO32 {
      ChunksFound(sampleRate, ps);
      ReadFmtBody(sampleRate);
      ReadSampleBytes(ps);
    }
  }

  function Chunks(sampleRate: nat, ps: seq<int>): seq<Byte> {
    Chunk(FMT, FmtBody(sampleRate)) + Chunk(DATA, SampleBytes(ps))
  }

  lemma EncodeLayout(sampleRate: nat, ps: seq<int>)
    ensures
      var b := Encode(sampleRate, ps);
      b[..4] == RIFF && b[4..8] == Bytes32(36 + 2 * |ps|) && b[8..12] == WAVE && b[12..] == Chunks(sampleRate, ps)
  {
    hide Bytes32, Chunk, FmtBody, SampleBytes;
  }

  lemma ChunksFound(sampleRate: nat, ps: seq<int>)
    requires 2 * |ps| < TWO32
    ensures FindChunk(Chunks(sampleRate, ps), FMT) == Some(FmtBody(sampleRate))
    ensures FindChunk(Chunks(sampleRate, ps), DATA) == Some(SampleBytes(ps))
  {
    hide FindChunk, Chunk, FmtBody, SampleBytes;
    FindFirst(FMT, FmtBody(sampleRate), Chunk(DATA, SampleBytes(ps)));
    FindNext(FMT, FmtBody(sampleRate), Chunk(DATA, SampleBytes(ps)), DATA);
    FindFirst(DATA, SampleBytes(ps), []);
    assert Chunk(DATA, SampleBytes(ps)) + [] == Chunk(DATA, SampleBytes(ps));
  }

  lemma ReadFmtBody(rate: nat)
    ensures
      var f := FmtBody(rate);
      Read16(f[..2]) == 1 && Read16(f[2..4]) == 1 && Read32(f[4..8]) == rate % TWO32 &&
      Read32(f[8..12]) == rate * 2 % TWO32 && Read16(f[12..14]) == 2 && Read16(f[14..16]) == 16
  {
    hide Bytes16, Bytes32, Read16, Read32;
    var f := FmtBody(rate);
    Read16Bytes16(1);
    Read16Bytes16(2);
    Read16Bytes16(16);
    assert f[..2] == Bytes16(1) && f[2..4] == Bytes16(1) && f[4..8] == Bytes32(rate);
    assert f[8..12] == Bytes32(rate * 2) && f[12..14] == Bytes16(2) && f[14..16] == Bytes16(16);
    Read32Bytes32(rate);
    Read32Bytes32(rate * 2);
  }

  /** The file made of any audio reads back as its quantised samples, when it fits. */
  lemma WavRoundTripIff(sampleRate: nat, channelData: seq<real>)
    ensures
      var ps := QuantiseAll(channelData);
      Decode(Encode(sampleRate, ps)) == Some(Wave(sampleRate, 1, 16, ps)) <==> Fits(sampleRate, |channelData|)
  {
    hide Decode, Encode, Quantise;
    forall i | 0 <= i < |channelData| ensures IsInt16(QuantiseAll(channelData)[i]) {
      QuantiseInRange(channelData[i]);
    }
    DecodeEncodeIff(sampleRate, QuantiseAll(channelData));
  }
}
