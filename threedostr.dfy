/** The 3DO STR demuxer. The input is a run of chunks, each an 8-byte header
    (a four-character tag and a big-endian 32-bit size that counts the header
    itself) followed by its payload. The header walk looks for the first
    `SNDS` chunk carrying an `SHDR` sub-header, which describes the single
    audio stream; `CTRL` and `SHDR` chunks seen before it choose how the
    stream duration is computed. The packet walk returns the payload of each
    `SNDS` chunk carrying an `SSMP` sub-header. */
module ThreeDoStr {
  import opened Bytes
  import opened AvIo

  const CTRL: seq<byte> := [0x43, 0x54, 0x52, 0x4C]  // "CTRL"
  const SHDR: seq<byte> := [0x53, 0x48, 0x44, 0x52]  // "SHDR"
  const SNDS: seq<byte> := [0x53, 0x4E, 0x44, 0x53]  // "SNDS"
  const SSMP: seq<byte> := [0x53, 0x53, 0x4D, 0x50]  // "SSMP"
  const SDX2: seq<byte> := [0x53, 0x44, 0x58, 0x32]  // "SDX2"

  /** AVPROBE_SCORE_MAX / 3 * 2 */
  const PROBE_SCORE: nat := 66
  /** The bytes of an SNDS chunk's payload that its SHDR sub-header takes. */
  const SNDS_HEADER: nat := 56
  /** The bytes of an SNDS chunk's payload before the sample data. */
  const SSMP_HEADER: nat := 16
  /** ctrl_size before any CTRL value is seen: -1 in an unsigned variable. */
  const CTRL_UNSET: nat := 0xFFFF_FFFF

  /** threedostr_probe: the first four bytes (zero-padded, as probe buffers
      are) name one of the three chunks a stream starts with. */
  function Probe(buf: seq<byte>): (score: nat)
    ensures score == PROBE_SCORE <==> Window(buf, 0, 4) in {CTRL, SHDR, SNDS}
    ensures score != PROBE_SCORE ==> score == 0
  {
    var magic := Window(buf, 0, 4);
    if magic != CTRL && magic != SHDR && magic != SNDS then 0 else PROBE_SCORE
  }

  /** The tag of the chunk at offset c. */
  function ChunkTag(data: seq<byte>, c: nat): seq<byte>
  {
    Window(data, c, 4)
  }

  /** The declared size of the chunk at offset c, header included. */
  function ChunkSize(data: seq<byte>, c: nat): (size: nat)
    ensures size < 0x1_0000_0000
  {
    BeWord(data, c + 4)
  }

  /** The big-endian 32-bit word at offset p. */
  function BeWord(data: seq<byte>, p: nat): (w: nat)
    ensures w < 0x1_0000_0000
  {
    var w := Window(data, p, 4);
    assert Pow256(4) == 0x1_0000_0000;
    Be(w)
  }

  /** The stream the header describes. */
  datatype AudioStream = AudioStream(
    sampleRate: int32, channels: int32, codecId: CodecId, blockAlign: int, duration: nat)

  /** What the SHDR sub-header of an SNDS chunk holds. */
  datatype SoundHeader = SoundHeader(sampleRate: int32, channels: int32, codec: seq<byte>, duration: nat)

  /** One pass of the header loop on the chunk at c: an error, the next chunk
      offset with the (possibly updated) ctrl_size, or the sound header that
      ends the loop. */
  datatype HeaderStep =
    | HeaderFail(error: AvError)
    | HeaderNext(next: nat, ctrlSize: nat)
    | HeaderFound(next: nat, shdr: SoundHeader)

  /** The stream duration: the SHDR frame count less one when ctrl_size is 20,
      3 or unset, sixteen times the count otherwise, divided by the channel
      count, in unsigned 32-bit arithmetic. */
  function StrDuration(ctrlSize: nat, count: nat, channels: int): (d: nat)
    requires channels > 0
    ensures d < 0x1_0000_0000
  {
    assert Pow256(4) == 0x1_0000_0000;
    if ctrlSize == 20 || ctrlSize == 3 || ctrlSize == CTRL_UNSET then Wrap(count - 1, 4) / channels
    else Wrap(count * 16, 4) / channels
  }

  /** The duration formulas while the count fits, and the wrap-around at the
      edges: a zero count with ctrl_size unset wraps to 0xFFFFFFFF, and a
      count of 2^28 or more wraps when multiplied by sixteen. */
  lemma DurationFormula(ctrlSize: nat, count: nat, channels: int)
    requires channels > 0 && count < 0x1_0000_0000
    ensures var d := StrDuration(ctrlSize, count, channels);
      && (ctrlSize in {20, 3, CTRL_UNSET} ==>
            d == (if count == 0 then 0xFFFF_FFFF else count - 1) / channels)
      && (ctrlSize !in {20, 3, CTRL_UNSET} && count < 0x1000_0000 ==> d == count * 16 / channels)
      && (ctrlSize !in {20, 3, CTRL_UNSET} && count == 0x1000_0000 ==> d == 0)
  {
    assert Pow256(4) == 0x1_0000_0000;
    if count == 0 {
      DivModUnique(-1, 0x1_0000_0000, -1, 0xFFFF_FFFF);
    }
    if count == 0x1000_0000 {
      DivModUnique(count * 16, 0x1_0000_0000, 1, 0);
    }
  }

  /** The SHDR sub-header of an SNDS chunk at c whose payload has room for it:
      the sub-tag at payload offset 8, then after 24 skipped bytes the sample
      rate, channels and codec, then after 4 skipped bytes the frame count. */
  function SndsHeader(data: seq<byte>, c: nat, ctrlSize: nat): (r: Result<SoundHeader>)
    ensures r.Err? <==> Window(data, c + 16, 4) != SHDR || Int32(BeWord(data, c + 48)) <= 0
    ensures r.Err? ==> r.error == InvalidData
    ensures r.Ok? ==> r.value.channels > 0 && |r.value.codec| == 4
    ensures r.Ok? ==>
      var channels := Int32(BeWord(data, c + 48));
      && r.value.sampleRate == Int32(BeWord(data, c + 44))
      && r.value.channels == channels
      && r.value.codec == Window(data, c + 52, 4)
      && r.value.duration == StrDuration(ctrlSize, BeWord(data, c + 60), channels)
  {
    if Window(data, c + 16, 4) != SHDR then Err(InvalidData)
    else
      var rate, channels := BeWord(data, c + 44), BeWord(data, c + 48);
      if Int32(channels) <= 0 then Err(InvalidData)
      else
        var count := BeWord(data, c + 60);
        Ok(SoundHeader(Int32(rate), Int32(channels), Window(data, c + 52, 4),
                       StrDuration(ctrlSize, count, Int32(channels))))
  }

  /** One pass of the header loop on the chunk at c. Every chunk that does not
      fail ends at its declared size: the next chunk is at c + size, or at the
      end of the input. */
  function HeaderChunk(data: seq<byte>, c: nat, ctrlSize: nat): (r: HeaderStep)
    ensures r.HeaderFail? <==>
      || ChunkSize(data, c) < 8
      || (ChunkTag(data, c) == SNDS && (ChunkSize(data, c) - 8 < SNDS_HEADER || SndsHeader(data, c, ctrlSize).Err?))
    ensures r.HeaderFail? ==> r.error == InvalidData
    ensures !r.HeaderFail? ==> r.next == Clamp(|data|, c + ChunkSize(data, c))
    ensures r.HeaderFound? <==> !r.HeaderFail? && ChunkTag(data, c) == SNDS
    ensures r.HeaderFound? ==> SndsHeader(data, c, ctrlSize) == Ok(r.shdr)
    ensures r.HeaderNext? ==>
      r.ctrlSize == (if ChunkTag(data, c) == CTRL then ChunkSize(data, c) - 8
                     else if ChunkTag(data, c) == SHDR && ChunkSize(data, c) - 8 > 0x78
                             && Window(data, c + 8 + 0x74, 4) == CTRL && ChunkSize(data, c) - 8 - 0x78 > 4
                     then BeWord(data, c + 8 + 0x78)
                     else ctrlSize)
  {
    var tag, size := ChunkTag(data, c), ChunkSize(data, c);
    if size < 8 then HeaderFail(InvalidData)
    else
      var payload := size - 8;
      var next := Clamp(|data|, c + size);
      if tag == CTRL then HeaderNext(next, payload)
      else if tag == SNDS then
        if payload < SNDS_HEADER then HeaderFail(InvalidData)
        else match SndsHeader(data, c, ctrlSize)
          case Err(e) => HeaderFail(e)
          case Ok(shdr) => HeaderFound(next, shdr)
      else if tag == SHDR && payload > 0x78 then
        if Window(data, c + 8 + 0x74, 4) == CTRL && payload - 0x78 > 4 then
          HeaderNext(next, BeWord(data, c + 8 + 0x78))
        else HeaderNext(next, ctrlSize)
      else HeaderNext(next, ctrlSize)
  }

  /** threedostr_read_header from the chunk at c: the stream of the first SNDS
      chunk and the offset after it, or the first error. Without an SNDS chunk
      no codec is known, which is refused as an unsupported codec. */
  function HeaderWalk(data: seq<byte>, c: nat, ctrlSize: nat): (r: Result<(AudioStream, nat)>)
    ensures r.Ok? ==> var (st, next) := r.value;
      && st.codecId == Sdx2Dpcm && st.channels > 0 && st.blockAlign == st.channels
      && c < next <= |data|
    ensures r.Err? ==> r.error in {InvalidData, PatchWelcome}
    ensures c >= |data| ==> r == Err(PatchWelcome)
    ensures c < |data| && HeaderChunk(data, c, ctrlSize).HeaderFail? ==> r == Err(InvalidData)
    ensures c < |data| && HeaderChunk(data, c, ctrlSize).HeaderFound? ==>
      var step := HeaderChunk(data, c, ctrlSize);
      && (r.Ok? <==> step.shdr.codec == SDX2)
      && (r.Err? ==> r.error == PatchWelcome)
      && (r.Ok? ==> r.value == (AudioStream(step.shdr.sampleRate, step.shdr.channels, Sdx2Dpcm,
                                            step.shdr.channels, step.shdr.duration), step.next))
    decreases |data| - c
  {
    if c >= |data| then Err(PatchWelcome)
    else match HeaderChunk(data, c, ctrlSize)
      case HeaderFail(e) => Err(e)
      case HeaderNext(next, ctrl) => HeaderWalk(data, next, ctrl)
      case HeaderFound(next, shdr) =>
        if shdr.codec != SDX2 then Err(PatchWelcome)
        else Ok((AudioStream(shdr.sampleRate, shdr.channels, Sdx2Dpcm, shdr.channels, shdr.duration), next))
  }

  /** A run of chunks the header walk passes over: each lies in the input
      and is a step to the next one, which it hands its ctrl_size. */
  ghost predicate HeaderRun(data: seq<byte>, run: seq<(nat, nat)>)
  {
    forall i :: 0 <= i < |run| - 1 ==>
      run[i].0 < |data| && HeaderChunk(data, run[i].0, run[i].1) == HeaderNext(run[i + 1].0, run[i + 1].1)
  }

  /** The chunks of a run decide nothing: the walk from the first gives
      what the walk from the last gives. */
  lemma {:induction false} HeaderWalkRun(data: seq<byte>, run: seq<(nat, nat)>)
    requires |run| > 0 && HeaderRun(data, run)
    ensures HeaderWalk(data, run[0].0, run[0].1) == HeaderWalk(data, run[|run| - 1].0, run[|run| - 1].1)
    decreases |run|
  {
    if |run| > 1 {
      var rest := run[1..];
      assert HeaderRun(data, rest) by {
        forall i | 0 <= i < |rest| - 1
          ensures rest[i].0 < |data| && HeaderChunk(data, rest[i].0, rest[i].1) == HeaderNext(rest[i + 1].0, rest[i + 1].1)
        {
          assert rest[i] == run[i + 1] && rest[i + 1] == run[i + 2];
        }
      }
      HeaderWalkRun(data, rest);
      assert rest[0] == run[1] && rest[|rest| - 1] == run[|run| - 1];
    }
  }

  /** Every header walk passes over a run of chunks and stops at the end of
      the input or at the first chunk that fails or is SNDS, and its result
      is decided there: PATCHWELCOME at the end of the input or for a codec
      other than SDX2, INVALIDDATA for a bad chunk, and otherwise the stream
      of that SNDS chunk. */
  lemma {:induction false} HeaderWalkStops(data: seq<byte>, c: nat, ctrlSize: nat) returns (run: seq<(nat, nat)>)
    ensures |run| > 0 && run[0] == (c, ctrlSize) && HeaderRun(data, run)
    ensures var (e, k) := run[|run| - 1];
      && (e >= |data| || !HeaderChunk(data, e, k).HeaderNext?)
      && HeaderWalk(data, c, ctrlSize) == HeaderWalk(data, e, k)
    decreases |data| - c
  {
    if c >= |data| || !HeaderChunk(data, c, ctrlSize).HeaderNext? {
      run := [(c, ctrlSize)];
    } else {
      var step := HeaderChunk(data, c, ctrlSize);
      var rest := HeaderWalkStops(data, step.next, step.ctrlSize);
      run := [(c, ctrlSize)] + rest;
      forall i | 0 <= i < |run| - 1
        ensures run[i].0 < |data| && HeaderChunk(data, run[i].0, run[i].1) == HeaderNext(run[i + 1].0, run[i + 1].1)
      {
        if i > 0 {
          assert run[i] == rest[i - 1] && run[i + 1] == rest[i];
        }
      }
      assert run[|run| - 1] == rest[|rest| - 1];
    }
  }

  /** A chunk the header walk does not know is skipped whole, and so is a
      CTRL chunk apart from the ctrl_size it sets: its payload size. */
  lemma HeaderSkipsChunk(data: seq<byte>, c: nat, ctrlSize: nat)
    requires c < |data| && ChunkSize(data, c) >= 8
    requires ChunkTag(data, c) !in {SNDS, SHDR}
    ensures HeaderWalk(data, c, ctrlSize) ==
      HeaderWalk(data, Clamp(|data|, c + ChunkSize(data, c)),
                 if ChunkTag(data, c) == CTRL then ChunkSize(data, c) - 8 else ctrlSize)
  {
  }

  /** The header walk stops at the first SNDS chunk: an SNDS chunk with a
      well-formed SDX2 sub-header decides the stream whatever follows it. */
  lemma HeaderStopsAtSnds(data: seq<byte>, more: seq<byte>, c: nat, ctrlSize: nat)
    requires c < |data| && c + ChunkSize(data, c) <= |data|
    requires HeaderChunk(data, c, ctrlSize).HeaderFound?
    ensures HeaderWalk(data + more, c, ctrlSize) == HeaderWalk(data, c, ctrlSize)
  {
    var d := data + more;
    assert Window(d, c, 4) == Window(data, c, 4);
    assert Window(d, c + 4, 4) == Window(data, c + 4, 4);
    var size := ChunkSize(data, c);
    assert c + 64 <= |data|;
    WindowPrefix(data, more, c + 16, 4);
    WindowPrefix(data, more, c + 44, 4);
    WindowPrefix(data, more, c + 48, 4);
    WindowPrefix(data, more, c + 52, 4);
    WindowPrefix(data, more, c + 60, 4);
    assert SndsHeader(d, c, ctrlSize) == SndsHeader(data, c, ctrlSize);
  }

  /** Bytes inside data read the same once more bytes follow. */
  lemma WindowPrefix(data: seq<byte>, more: seq<byte>, p: nat, n: nat)
    requires p + n <= |data|
    ensures Window(data + more, p, n) == Window(data, p, n)
  {
    assert (data + more)[p..p + n] == data[p..p + n];
  }

  /** One pass of the packet loop on the chunk at c: skip to the next chunk,
      fail, or return a packet and the offset after it. */
  datatype PacketStep =
    | PacketSkip(next: nat)
    | PacketFail(error: AvError)
    | PacketFound(next: nat, pkt: Packet)

  /** One pass of the packet loop on the chunk at c. A zero size skips only the
      8-byte header; any other chunk that does not fail ends at its declared
      size. An SNDS chunk yields its sample data: the bytes after the 16-byte
      SSMP sub-header up to the end of the chunk, with the chunk's offset,
      stream 0 and one tick per sample frame. */
  function PacketChunk(data: seq<byte>, c: nat, channels: int): (r: PacketStep)
    requires channels > 0
    ensures ChunkSize(data, c) == 0 ==> r == PacketSkip(Clamp(|data|, c + 8))
    ensures r.PacketFail? <==>
      || 0 < ChunkSize(data, c) < 8
      || (ChunkSize(data, c) >= 8 && ChunkTag(data, c) == SNDS
          && (ChunkSize(data, c) - 8 <= SSMP_HEADER || Window(data, c + 16, 4) != SSMP))
    ensures r.PacketFail? ==> r.error == InvalidData
    ensures ChunkSize(data, c) >= 8 && !r.PacketFail? ==> r.next == Clamp(|data|, c + ChunkSize(data, c))
    ensures r.PacketFound? <==> ChunkSize(data, c) >= 8 && ChunkTag(data, c) == SNDS && !r.PacketFail?
    ensures r.PacketFound? ==>
      && r.pkt.pos == c && r.pkt.streamIndex == 0 && r.pkt.pts == NoPts
      && ChunkSize(data, c) > 24 && Clamp(|data|, c + 24) <= r.next
      && r.pkt.data == data[Clamp(|data|, c + 24)..r.next]
      && r.pkt.duration == (ChunkSize(data, c) - 24) / channels
  {
    var tag, size := ChunkTag(data, c), ChunkSize(data, c);
    if size == 0 then PacketSkip(Clamp(|data|, c + 8))
    else if size < 8 then PacketFail(InvalidData)
    else
      var payload := size - 8;
      var next := Clamp(|data|, c + size);
      if tag == SNDS then
        if payload <= SSMP_HEADER || Window(data, c + 16, 4) != SSMP then PacketFail(InvalidData)
        else
          var n := payload - SSMP_HEADER;
          var start := Clamp(|data|, c + 24);
          PacketFound(next, Packet(data[start..next], c, 0, NoPts, n / channels))
      else PacketSkip(next)
  }

  /** threedostr_read_packet from the chunk at c: the first SNDS packet and the
      offset after it, or the end of input, or the first error. */
  function PacketWalk(data: seq<byte>, c: nat, channels: int): (r: Result<(Packet, nat)>)
    requires channels > 0
    ensures r.Ok? ==> var (pkt, next) := r.value;
      && c <= pkt.pos < next <= |data| && pkt.streamIndex == 0
      && Clamp(|data|, pkt.pos + 24) <= next
      && pkt.data == data[Clamp(|data|, pkt.pos + 24)..next]
    ensures r.Err? ==> r.error in {Eof, InvalidData}
    ensures c >= |data| ==> r == Err(Eof)
    ensures c < |data| && PacketChunk(data, c, channels).PacketFail? ==>
      r == Err(PacketChunk(data, c, channels).error)
    ensures c < |data| && PacketChunk(data, c, channels).PacketFound? ==>
      r == Ok((PacketChunk(data, c, channels).pkt, PacketChunk(data, c, channels).next))
    decreases |data| - c
  {
    if c >= |data| then Err(Eof)
    else match PacketChunk(data, c, channels)
      case PacketSkip(next) => PacketWalk(data, next, channels)
      case PacketFail(e) => Err(e)
      case PacketFound(next, pkt) => Ok((pkt, next))
  }

  /** A run of chunks the packet walk skips: each lies in the input and
      steps to the next one without a packet. */
  ghost predicate PacketRun(data: seq<byte>, channels: int, run: seq<nat>)
    requires channels > 0
  {
    forall i :: 0 <= i < |run| - 1 ==>
      run[i] < |data| && PacketChunk(data, run[i], channels) == PacketSkip(run[i + 1])
  }

  /** The packet walk returns what the first chunk after a run of skipped
      chunks gives: the first SNDS packet, or the first error, or the end
      of input. */
  lemma {:induction false} PacketWalkRun(data: seq<byte>, channels: int, run: seq<nat>)
    requires channels > 0 && |run| > 0 && PacketRun(data, channels, run)
    ensures PacketWalk(data, run[0], channels) == PacketWalk(data, run[|run| - 1], channels)
    decreases |run|
  {
    if |run| > 1 {
      var rest := run[1..];
      assert PacketRun(data, channels, rest) by {
        forall i | 0 <= i < |rest| - 1
          ensures rest[i] < |data| && PacketChunk(data, rest[i], channels) == PacketSkip(rest[i + 1])
        {
          assert rest[i] == run[i + 1] && rest[i + 1] == run[i + 2];
        }
      }
      PacketWalkRun(data, channels, rest);
      assert rest[0] == run[1] && rest[|rest| - 1] == run[|run| - 1];
    }
  }

  /** A packet that lies wholly inside the input carries exactly its chunk's
      size less the 24 header bytes, and its duration is that length in
      sample frames. */
  lemma PacketLength(data: seq<byte>, c: nat, channels: int)
    requires channels > 0 && PacketWalk(data, c, channels).Ok?
    ensures var (pkt, next) := PacketWalk(data, c, channels).value;
      pkt.pos + ChunkSize(data, pkt.pos) <= |data| ==>
        |pkt.data| == ChunkSize(data, pkt.pos) - 24 && pkt.duration == |pkt.data| / channels
    decreases |data| - c
  {
    var r := PacketChunk(data, c, channels);
    if r.PacketSkip? {
      assert PacketWalk(data, c, channels) == PacketWalk(data, r.next, channels);
      PacketLength(data, r.next, channels);
    } else {
      assert r.PacketFound? && PacketWalk(data, c, channels).value == (r.pkt, r.next);
      ChunkPacketLength(data, c, channels);
    }
  }

  /** The length and duration of the packet read from one SNDS chunk that
      lies wholly inside the input. */
  lemma ChunkPacketLength(data: seq<byte>, c: nat, channels: int)
    requires channels > 0 && PacketChunk(data, c, channels).PacketFound?
    ensures var r := PacketChunk(data, c, channels);
      c + ChunkSize(data, c) <= |data| ==>
        |r.pkt.data| == ChunkSize(data, c) - 24 && r.pkt.duration == |r.pkt.data| / channels
  {
  }

  /** Chunks of size zero and chunks other than SNDS produce no packet: the
      walk goes on at the following chunk. */
  lemma PacketSkipsChunk(data: seq<byte>, c: nat, channels: int)
    requires channels > 0 && c < |data|
    requires ChunkSize(data, c) == 0 || (ChunkSize(data, c) >= 8 && ChunkTag(data, c) != SNDS)
    ensures PacketWalk(data, c, channels) ==
      PacketWalk(data, Clamp(|data|, c + if ChunkSize(data, c) == 0 then 8 else ChunkSize(data, c)), channels)
  {
    var r := PacketChunk(data, c, channels);
    assert r.PacketSkip?;
    assert r.next == Clamp(|data|, c + if ChunkSize(data, c) == 0 then 8 else ChunkSize(data, c));
    assert PacketWalk(data, c, channels) == PacketWalk(data, r.next, channels);
  }

  /** The demuxer: the input and, once the header is read, the stream. */
  class Demuxer {
    const rd: Reader
    var stream: Option<AudioStream>

    ghost predicate Valid()
      reads this, rd
    {
      rd.Valid() && (stream.Some? ==> stream.value.channels > 0)
    }

    constructor (rd: Reader)
      requires rd.Valid()
      ensures Valid() && this.rd == rd && stream == None
    {
      this.rd := rd;
      stream := None;
    }

    /** threedostr_read_header: walks chunks until the first SNDS chunk and
        keeps the stream it describes. */
    method ReadHeader() returns (st: Status)
      requires Valid()
      modifies this, rd
      ensures Valid()
      ensures var r := HeaderWalk(rd.data, old(rd.pos), CTRL_UNSET);
        match r
        case Ok((s, next)) => st == Success && stream == Some(s) && rd.pos == next
        case Err(e) => st == Failure(e) && stream == old(stream)
    {
      ghost var p0 := rd.pos;
      var ctrlSize := CTRL_UNSET;
      var shdr: Option<SoundHeader> := None;
      ghost var fc: nat, fk: nat := 0, 0;
      while !rd.AtEof() && shdr.None?
        invariant Valid() && stream == old(stream)
        invariant shdr.None? ==> HeaderWalk(rd.data, rd.pos, ctrlSize) == HeaderWalk(rd.data, p0, CTRL_UNSET)
        invariant shdr.Some? ==>
          && fc < |rd.data|
          && HeaderChunk(rd.data, fc, fk) == HeaderFound(rd.pos, shdr.value)
          && HeaderWalk(rd.data, fc, fk) == HeaderWalk(rd.data, p0, CTRL_UNSET)
        decreases |rd.data| - rd.pos
      {
        ghost var c := rd.pos;
        var step := ReadHeaderChunk(ctrlSize);
        match step {
          case HeaderFail(e) =>
            return Failure(e);
          case HeaderNext(_, k) =>
            ctrlSize := k;
          case HeaderFound(_, h) =>
            fc, fk := c, ctrlSize;
            shdr := Some(h);
        }
      }
      if shdr.None? {
        assert HeaderWalk(rd.data, rd.pos, ctrlSize) == Err(PatchWelcome);
        return Failure(PatchWelcome);
      }
      var h := shdr.value;
      assert HeaderWalk(rd.data, p0, CTRL_UNSET) ==
        if h.codec != SDX2 then Err(PatchWelcome)
        else Ok((AudioStream(h.sampleRate, h.channels, Sdx2Dpcm, h.channels, h.duration), rd.pos));
      if h.codec != SDX2 {
        return Failure(PatchWelcome);
      }
      stream := Some(AudioStream(h.sampleRate, h.channels, Sdx2Dpcm, h.channels, h.duration));
      st := Success;
    }

    /** One pass of the header loop: reads the chunk at the cursor and leaves
        the cursor at the next chunk. */
    method ReadHeaderChunk(ctrlSize: nat) returns (step: HeaderStep)
      requires Valid() && rd.pos < |rd.data|
      modifies rd
      ensures Valid()
      ensures step == HeaderChunk(rd.data, old(rd.pos), ctrlSize)
      ensures !step.HeaderFail? ==> rd.pos == step.next
    {
      var c := rd.pos;
      var tag := rd.ReadTag(c);
      var size := ReadWord(c + 4);
      assert tag == ChunkTag(rd.data, c) && size == ChunkSize(rd.data, c);
      if size < 8 {
        return HeaderFail(InvalidData);
      }
      var payload := size - 8;
      var next := Clamp(|rd.data|, c + size);
      if tag == CTRL {
        rd.Skip(payload, c + 8);
        return HeaderNext(next, payload);
      } else if tag == SNDS {
        if payload < SNDS_HEADER {
          return HeaderFail(InvalidData);
        }
        var h := ReadSoundHeader(c, ctrlSize);
        if h.Err? {
          return HeaderFail(h.error);
        }
        rd.Skip(payload - SNDS_HEADER, c + 8 + SNDS_HEADER);
        return HeaderFound(next, h.value);
      } else if tag == SHDR && payload > 0x78 {
        var k := ReadShdrChunk(c, payload, ctrlSize);
        return HeaderNext(next, k);
      } else {
        rd.Skip(payload, c + 8);
        return HeaderNext(next, ctrlSize);
      }
    }

    /** The payload of a stand-alone SHDR chunk at c that is longer than
        0x78 bytes: a CTRL tag at payload offset 0x74 followed by at least
        five more bytes gives a new ctrl_size. Leaves the cursor at the next
        chunk. */
    method ReadShdrChunk(ghost c: nat, payload: nat, ctrlSize: nat) returns (k: nat)
      requires Valid() && rd.pos == Clamp(|rd.data|, c + 8) && payload > 0x78
      modifies rd
      ensures Valid()
      ensures k == if Window(rd.data, c + 8 + 0x74, 4) == CTRL && payload - 0x78 > 4
                   then Be(Window(rd.data, c + 8 + 0x78, 4)) else ctrlSize
      ensures rd.pos == Clamp(|rd.data|, c + 8 + payload)
    {
      rd.Skip(0x74, c + 8);
      var sub := rd.ReadTag(c + 8 + 0x74);
      var rest := payload - 0x78;
      k := ctrlSize;
      if sub == CTRL && rest > 4 {
        k := ReadWord(c + 8 + 0x78);
        rest := rest - 4;
      }
      rd.Skip(rest, c + 8 + payload - rest);
    }

    /** The SHDR sub-header of an SNDS chunk at c: reads the 56 bytes after
        the chunk header, or stops at the first inconsistency. */
    method ReadSoundHeader(ghost c: nat, ctrlSize: nat) returns (h: Result<SoundHeader>)
      requires Valid() && rd.pos == Clamp(|rd.data|, c + 8)
      modifies rd
      ensures Valid()
      ensures h == SndsHeader(rd.data, c, ctrlSize)
      ensures h.Ok? ==> rd.pos == Clamp(|rd.data|, c + 8 + SNDS_HEADER)
    {
      ghost var expected := SndsHeader(rd.data, c, ctrlSize);
      rd.Skip(8, c + 8);
      var sub := rd.ReadTag(c + 16);
      if sub != SHDR {
        assert expected == Err(InvalidData);
        return Err(InvalidData);
      }
      rd.Skip(24, c + 20);
      var rate := ReadWord(c + 44);
      var channels := ReadWord(c + 48);
      if Int32(channels) <= 0 {
        assert expected == Err(InvalidData);
        return Err(InvalidData);
      }
      var codec, duration := ReadSoundTail(c, ctrlSize, Int32(channels));
      h := Ok(SoundHeader(Int32(rate), Int32(channels), codec, duration));
    }

    /** The end of the SHDR fields: the codec tag, a skipped word and the
        sample-frame count, turned into the stream duration. */
    method ReadSoundTail(ghost c: nat, ctrlSize: nat, channels: int) returns (codec: seq<byte>, duration: nat)
      requires Valid() && rd.pos == Clamp(|rd.data|, c + 52) && channels > 0
      modifies rd
      ensures Valid()
      ensures codec == Window(rd.data, c + 52, 4)
      ensures duration == StrDuration(ctrlSize, BeWord(rd.data, c + 60), channels)
      ensures rd.pos == Clamp(|rd.data|, c + 64)
    {
      codec := rd.ReadTag(c + 52);
      rd.Skip(4, c + 56);
      var count := ReadWord(c + 60);
      duration := StrDuration(ctrlSize, count, channels);
    }

    /** avio_rb32: the big-endian word at the cursor. */
    method ReadWord(ghost at: nat) returns (w: nat)
      requires Valid() && rd.pos == Clamp(|rd.data|, at)
      modifies rd
      ensures Valid()
      ensures w == BeWord(rd.data, at)
      ensures rd.pos == Clamp(|rd.data|, at + 4)
    {
      w := rd.ReadBe(4, at);
    }

    /** threedostr_read_packet: walks chunks until an SNDS chunk and returns
        its sample data. */
    method ReadPacket() returns (r: Result<Packet>)
      requires Valid() && stream.Some?
      modifies rd
      ensures Valid()
      ensures var w := PacketWalk(rd.data, old(rd.pos), stream.value.channels);
        match w
        case Ok((pkt, next)) => r == Ok(pkt) && rd.pos == next
        case Err(e) => r == Err(e)
    {
      ghost var p0 := rd.pos;
      var channels := stream.value.channels;
      while true
        invariant rd.Valid()
        invariant PacketWalk(rd.data, rd.pos, channels) == PacketWalk(rd.data, p0, channels)
        decreases |rd.data| - rd.pos
      {
        if rd.AtEof() {
          return Err(Eof);
        }
        var step := ReadPacketChunk(channels);
        match step {
          case PacketFail(e) =>
            return Err(e);
          case PacketFound(_, pkt) =>
            return Ok(pkt);
          case PacketSkip(_) =>
        }
      }
    }

    /** The payload of an SNDS chunk at c: the SSMP sub-tag at payload offset
        8, then after 4 skipped bytes the n bytes of sample data. */
    method ReadSamples(c: nat, n: nat, channels: int) returns (r: Result<Packet>)
      requires Valid() && rd.pos == Clamp(|rd.data|, c + 8) && channels > 0 && n > 0
      modifies rd
      ensures Valid()
      ensures r.Err? <==> Window(rd.data, c + 16, 4) != SSMP
      ensures r.Err? ==> r.error == InvalidData
      ensures r.Ok? ==>
        && rd.pos == Clamp(|rd.data|, c + 24 + n)
        && r.value == Packet(rd.data[Clamp(|rd.data|, c + 24)..rd.pos], c, 0, NoPts, n / channels)
    {
      rd.Skip(8, c + 8);
      var sub := rd.ReadTag(c + 16);
      if sub != SSMP {
        return Err(InvalidData);
      }
      rd.Skip(4, c + 20);
      var bytes := rd.ReadBytes(n, c + 24);
      return Ok(Packet(bytes, c, 0, NoPts, n / channels));
    }

    /** One pass of the packet loop: reads the chunk at the cursor and leaves
        the cursor at the next chunk. */
    method ReadPacketChunk(channels: int) returns (step: PacketStep)
      requires Valid() && rd.pos < |rd.data| && channels > 0
      modifies rd
      ensures Valid()
      ensures step == PacketChunk(rd.data, old(rd.pos), channels)
      ensures !step.PacketFail? ==> rd.pos == step.next
    {
      var c := rd.pos;
      var tag := rd.ReadTag(c);
      var size := ReadWord(c + 4);
      assert tag == ChunkTag(rd.data, c) && size == ChunkSize(rd.data, c);
      if size == 0 {
        return PacketSkip(Clamp(|rd.data|, c + 8));
      }
      if size < 8 {
        return PacketFail(InvalidData);
      }
      var payload := size - 8;
      if tag == SNDS {
        if payload <= SSMP_HEADER {
          return PacketFail(InvalidData);
        }
        var r := ReadSamples(c, payload - SSMP_HEADER, channels);
        if r.Err? {
          return PacketFail(r.error);
        }
        return PacketFound(rd.pos, r.value);
      }
      rd.Skip(payload, c + 8);
      return PacketSkip(Clamp(|rd.data|, c + size));
    }
  }
}
