/** Packet reading for the Creative Voice (VOC) format. The data is a run of
    blocks, each a type byte and a 24-bit little-endian length followed by
    the block body. Voice-data blocks begin with a short header (sample rate
    and codec) before their samples; an extended block announces the rate
    and channel count for the voice-data block that follows; a terminator
    block ends the data. A packet is cut from the samples left in the
    current block, starting a new block whenever the current one is used up. */
module Voc {
  import opened Bytes
  import opened AvIo

  /* Block types of the VOC format. */
  const VOC_TYPE_EOF: byte := 0x00
  const VOC_TYPE_VOICE_DATA: byte := 0x01
  const VOC_TYPE_VOICE_DATA_CONT: byte := 0x02
  const VOC_TYPE_EXTENDED: byte := 0x08
  const VOC_TYPE_NEW_VOICE_DATA: byte := 0x09

  /** The packet size used when the caller's limit is used up. */
  const DEFAULT_PACKET_SIZE: int := 2048

  /** The codec parameters of the audio stream. */
  datatype Params = Params(
    sampleRate: int, channels: int, bitsPerCodedSample: int, codecId: CodecId, bitRate: int)

  /** What the packet reader takes from outside: the VOC codec-tag table,
      the bits per sample of a codec, the duration of a packet of a given
      size, and the codec the user forced (CodecNone when none). */
  datatype Env = Env(
    codecOfTag: int -> CodecId,
    bitsPerSample: CodecId -> int,
    frameDuration: (Params, int) -> int,
    audioCodecId: CodecId)

  /** The reader's state between calls: the bytes left in the current block,
      the timestamp of the next packet, and the stream parameters. */
  datatype DemuxState = DemuxState(remainingSize: int, pts: Pts, par: Params)

  /** The state of the block loop within one call: besides the bytes left
      and the stream parameters, the caller's packet limit less the header
      bytes seen, the rate and channel count an extended block announced
      (0 and 1 when none did) and the codec tag of the last voice-data
      header (-1 when none was seen). */
  datatype Scan = Scan(
    remainingSize: int, maxSize: int, par: Params, sampleRate: int, channels: int, tmpCodec: int)

  lemma MulMono(a: int, b: int, d: int)
    requires 0 <= a <= b && d >= 0
    ensures a * d <= b * d
  {
  }

  lemma DivAtLeast(n: int, d: int, k: int)
    requires d > 0 && k >= 0 && k * d <= n
    ensures n / d >= k
  {
    var q := n / d;
    if q < k {
      MulMono(q + 1, k, d);
    }
  }

  lemma DivAtMost(n: int, d: int)
    requires d >= 1 && n >= 0
    ensures n / d <= n
  {
    var q := n / d;
    MulMono(1, d, q);
  }

  /** The rate of a voice-data block from its time-constant byte; the divisor
      256 - b is at least 1 for every byte. */
  function VoiceDataRate(b: byte): (rate: int)
    ensures 3906 <= rate <= 1000000
  {
    DivAtLeast(1000000, 256 - b, 3906);
    DivAtMost(1000000, 256 - b);
    1000000 / (256 - b)
  }

  /** The rate an extended block announces from its 16-bit time constant and
      channel count; the divisor is at least 1 for every value of both. */
  function ExtendedRate(timeConstant: nat, channels: int): (rate: int)
    requires timeConstant < 0x1_0000 && 1 <= channels <= 256
    ensures 15 <= rate <= 256000000
  {
    var d := channels * (0x1_0000 - timeConstant);
    MulMono(1, channels, 0x1_0000 - timeConstant);
    MulMono(channels, 256, 0x1_0000 - timeConstant);
    MulMono(15, 256 * (0x1_0000 - timeConstant), 1);
    DivAtLeast(256000000, d, 15);
    DivAtMost(256000000, d);
    256000000 / d
  }

  /** The type byte of the block at c (0, the terminator, past the end). */
  function BlockType(data: seq<byte>, c: nat): byte
  {
    ByteAt(data, c)
  }

  /** The size of the block at c: its 24-bit length, or when that is zero on
      seekable input, every byte after the block header. */
  function BlockSize(data: seq<byte>, c: nat): (size: nat)
  {
    var len := Le(Window(data, c + 1, 3));
    if len != 0 then len else |data| - Clamp(|data|, c + 4)
  }

  /* The block kinds, each on the loop state as the block header leaves
     it: the bytes left set to the block size and 4 header bytes taken
     from the packet limit. */

  /** A voice-data block: its 2-byte header gives the rate (used only while
      the stream has none, and overridden by an extended block's rate) and
      the codec tag; the channel override goes back to 1. */
  function VoiceData(data: seq<byte>, c: nat, s: Scan, env: Env): (r: (Scan, nat))
  {
    var par := s.par;
    var par' :=
      if par.sampleRate != 0 then par
      else par.(sampleRate := if s.sampleRate != 0 then s.sampleRate else VoiceDataRate(ByteAt(data, c + 4)),
                channels := s.channels,
                bitsPerCodedSample := env.bitsPerSample(par.codecId));
    (Scan(s.remainingSize - 2, s.maxSize - 2, par', s.sampleRate, 1, ByteAt(data, c + 5)), Clamp(|data|, c + 6))
  }

  /** An extended block: its 4 bytes announce the rate and channel count of
      the voice data that follows; nothing of the block is left. */
  function Extended(data: seq<byte>, c: nat, s: Scan): (r: (Scan, nat))
  {
    var channels := ByteAt(data, c + 7) as int + 1;
    var rate := ExtendedRate(Le(Window(data, c + 4, 2)), channels);
    (s.(remainingSize := 0, maxSize := s.maxSize - 4, sampleRate := rate, channels := channels), Clamp(|data|, c + 8))
  }

  /** A new-voice-data block: its 12-byte header gives the rate, bits per
      sample and channel count (used only while the stream has no rate) and
      the codec tag. */
  function NewVoiceData(data: seq<byte>, c: nat, s: Scan): (r: (Scan, nat))
  {
    var par := s.par;
    var par' :=
      if par.sampleRate != 0 then par
      else par.(sampleRate := Int32(Le(Window(data, c + 4, 4))),
                bitsPerCodedSample := ByteAt(data, c + 8),
                channels := ByteAt(data, c + 9));
    (s.(remainingSize := s.remainingSize - 12, maxSize := s.maxSize - 12, par := par',
        tmpCodec := Le(Window(data, c + 10, 2))),
     Clamp(|data|, c + 16))
  }

  /** The body of a block of type t whose header ends at c + 4; a block of a
      kind the reader does not use is skipped whole. */
  function BlockBody(data: seq<byte>, c: nat, t: byte, s: Scan, env: Env): (r: (Scan, nat))
  {
    if t == VOC_TYPE_VOICE_DATA then VoiceData(data, c, s, env)
    else if t == VOC_TYPE_VOICE_DATA_CONT then (s, Clamp(|data|, c + 4))
    else if t == VOC_TYPE_EXTENDED then Extended(data, c, s)
    else if t == VOC_TYPE_NEW_VOICE_DATA then NewVoiceData(data, c, s)
    else (s.(remainingSize := 0, maxSize := s.maxSize - s.remainingSize), Clamp(|data|, c + 4 + s.remainingSize))
  }

  /** One pass of the block loop on the block at c, entered with no bytes
      left: the new loop state, the offset after what was read, and whether
      the loop stopped at the terminator or at a zero length it cannot
      resolve. */
  function Block(data: seq<byte>, seekable: bool, c: nat, s: Scan, env: Env): (r: (Scan, nat, Status))
    requires s.remainingSize == 0
    ensures r.2 == Failure(Eof) <==> BlockType(data, c) == VOC_TYPE_EOF
    ensures r.2 == Failure(Io) <==>
      BlockType(data, c) != VOC_TYPE_EOF && Le(Window(data, c + 1, 3)) == 0 && !seekable
    ensures r.2.Failure? ==> r.0 == s && r.2.error in {Eof, Io}
    ensures r.2.Success? ==> c < r.1 <= |data|
    ensures c <= |data| ==> r.1 <= |data|
  {
    var t := BlockType(data, c);
    if t == VOC_TYPE_EOF then (s, Clamp(|data|, c + 1), Failure(Eof))
    else if Le(Window(data, c + 1, 3)) == 0 && !seekable then (s, Clamp(|data|, c + 4), Failure(Io))
    else
      var (s', next) := BlockBody(data, c, t, s.(remainingSize := BlockSize(data, c), maxSize := s.maxSize - 4), env);
      (s', next, Success)
  }

  /** The block loop: blocks are read until one leaves bytes to return, or
      the terminator or an unresolvable zero length stops it. */
  function ScanBlocks(data: seq<byte>, seekable: bool, c: nat, s: Scan, env: Env): (r: (Scan, nat, Status))
    requires s.remainingSize == 0
    ensures r.2.Success? ==> r.0.remainingSize != 0 && c < r.1
    ensures r.2.Failure? ==> r.0.remainingSize == 0 && r.2.error in {Eof, Io}
    ensures c <= |data| ==> r.1 <= |data|
    decreases |data| - c
  {
    var (s', next, st) := Block(data, seekable, c, s, env);
    if st.Failure? then (s', next, st)
    else if s'.remainingSize == 0 then ScanBlocks(data, seekable, next, s', env)
    else (s', next, st)
  }

  /** The codec once a voice-data header named a codec tag: the tag's codec
      is adopted only while none is set, and a codec already set is never
      replaced; a codec that stays unknown is refused unless the user forced
      one. Without a voice-data header the codec is left alone. */
  function ResolveCodec(current: CodecId, tmpCodec: int, env: Env): (r: Result<CodecId>)
    ensures tmpCodec < 0 ==> r == Ok(current)
    ensures current != CodecNone ==> r == Ok(current)
    ensures tmpCodec >= 0 && current == CodecNone ==>
      && (r.Err? <==> env.codecOfTag(tmpCodec) == CodecNone && env.audioCodecId == CodecNone)
      && (r.Err? ==> r.error == Inval)
      && (r.Ok? ==> r.value == env.codecOfTag(tmpCodec))
  {
    if tmpCodec < 0 then Ok(current)
    else
      var id := if current == CodecNone then env.codecOfTag(tmpCodec) else current;
      if id == CodecNone && env.audioCodecId == CodecNone then Err(Inval) else Ok(id)
  }

  /** The packet size: the bytes left in the block, at most the caller's
      limit less the header bytes seen in this call, or 2048 once that limit
      is used up. */
  function PacketSize(remainingSize: int, maxSize: int): (size: int)
    ensures var limit := if maxSize <= 0 then DEFAULT_PACKET_SIZE else maxSize;
      && size <= remainingSize && size <= limit && (size == remainingSize || size == limit)
  {
    var limit := if maxSize <= 0 then DEFAULT_PACKET_SIZE else maxSize;
    if remainingSize < limit then remainingSize else limit
  }

  /** The timestamp after a packet: it moves on by the packet's duration, and
      becomes unknown when the duration is not positive or it was unknown. */
  function NextPts(pts: Pts, duration: int): (next: Pts)
    ensures next.At? <==> pts.At? && duration > 0
    ensures next.At? ==> next.t > pts.t
  {
    if duration > 0 && pts.At? then At(pts.t + duration) else NoPts
  }

  /** The block loop as one call runs it: skipped when bytes of the current
      block are left, with the per-call overrides starting at rate 0 and one
      channel and no codec tag seen. */
  function Scanned(data: seq<byte>, seekable: bool, c: nat, st: DemuxState, maxSize: int, env: Env)
    : (r: (Scan, nat, Status))
    requires c <= |data|
    ensures r.1 <= |data|
    ensures r.2.Success? ==> r.0.remainingSize != 0
  {
    var s0 := Scan(st.remainingSize, maxSize, st.par, 0, 1, -1);
    if st.remainingSize == 0 then ScanBlocks(data, seekable, c, s0, env) else (s0, c, Success)
  }

  /** The packet cut at p from a block whose parameters are settled: its
      size, the bytes left afterwards and the timestamp moved on. */
  function Cut(data: seq<byte>, p: nat, remainingSize: int, maxSize: int, par: Params, pts: Pts, env: Env)
    : (r: (DemuxState, nat, Result<Packet>))
    requires p <= |data|
    ensures r.1 <= |data|
  {
    var size := PacketSize(remainingSize, maxSize);
    var q := if size > 0 then Clamp(|data|, p + size) else p;
    (DemuxState(remainingSize - size, NextPts(pts, env.frameDuration(par, size)), par), q,
     Ok(Packet(data[p..q], p, 0, pts, 0)))
  }

  /** What follows the block loop once it leaves bytes to return at p: the
      sample rate check, the codec, the bit rate, and the packet. */
  function Finish(data: seq<byte>, p: nat, s: Scan, pts: Pts, env: Env): (r: (DemuxState, nat, Result<Packet>))
    requires p <= |data|
    ensures r.1 <= |data|
  {
    if s.par.sampleRate <= 0 then (DemuxState(s.remainingSize, pts, s.par), p, Err(InvalidData))
    else match ResolveCodec(s.par.codecId, s.tmpCodec, env)
      case Err(e) => (DemuxState(s.remainingSize, pts, s.par), p, Err(e))
      case Ok(id) =>
        var par := s.par.(codecId := id);
        var par' := par.(bitRate := par.sampleRate * par.channels * par.bitsPerCodedSample);
        Cut(data, p, s.remainingSize, s.maxSize, par', pts, env)
  }

  /** ff_voc_get_packet on input data with the cursor at c: the new state,
      the new cursor and the packet or error. */
  function Demux(data: seq<byte>, seekable: bool, c: nat, st: DemuxState, maxSize: int, env: Env)
    : (r: (DemuxState, nat, Result<Packet>))
    requires c <= |data|
    ensures r.1 <= |data|
  {
    var (s, p, status) := Scanned(data, seekable, c, st, maxSize, env);
    if status.Failure? then (DemuxState(s.remainingSize, st.pts, s.par), p, Err(status.error))
    else Finish(data, p, s, st.pts, env)
  }

  /** A terminator block at a block boundary ends the stream: one byte is
      read, no packet is returned and the state is unchanged. */
  lemma EofBlock(data: seq<byte>, seekable: bool, c: nat, st: DemuxState, maxSize: int, env: Env)
    requires c <= |data| && st.remainingSize == 0 && BlockType(data, c) == VOC_TYPE_EOF
    ensures Demux(data, seekable, c, st, maxSize, env) == (st, Clamp(|data|, c + 1), Err(Eof))
  {
  }

  /** A block whose 24-bit length is zero is an I/O error on input that
      cannot seek; on seekable input it runs to the end of the input. */
  lemma ZeroLengthBlock(data: seq<byte>, seekable: bool, c: nat, s: Scan, env: Env)
    requires s.remainingSize == 0 && BlockType(data, c) != VOC_TYPE_EOF && Le(Window(data, c + 1, 3)) == 0
    ensures !seekable ==> Block(data, seekable, c, s, env) == (s, Clamp(|data|, c + 4), Failure(Io))
    ensures seekable ==>
      && BlockSize(data, c) == |data| - Clamp(|data|, c + 4)
      && Block(data, seekable, c, s, env).2 == Success
  {
  }

  /** The byte accounting of each block kind: how far the cursor moves, what
      is left of the block afterwards and what the packet limit loses. A
      voice-data header takes 2 bytes and a new-voice-data header 12,
      whether or not the stream parameters are read from them; an extended
      block takes its 4 bytes whatever its length and leaves nothing; a block
      of any other kind is skipped whole. */
  lemma BlockAccounting(data: seq<byte>, seekable: bool, c: nat, s: Scan, env: Env)
    requires s.remainingSize == 0 && Block(data, seekable, c, s, env).2.Success?
    ensures var (s', next, _) := Block(data, seekable, c, s, env);
      var t, size := BlockType(data, c), BlockSize(data, c);
      && (t == VOC_TYPE_VOICE_DATA ==>
            next == Clamp(|data|, c + 6) && s'.remainingSize == size - 2 && s'.maxSize == s.maxSize - 6)
      && (t == VOC_TYPE_VOICE_DATA_CONT ==>
            next == Clamp(|data|, c + 4) && s'.remainingSize == size && s'.maxSize == s.maxSize - 4)
      && (t == VOC_TYPE_EXTENDED ==>
            next == Clamp(|data|, c + 8) && s'.remainingSize == 0 && s'.maxSize == s.maxSize - 8)
      && (t == VOC_TYPE_NEW_VOICE_DATA ==>
            next == Clamp(|data|, c + 16) && s'.remainingSize == size - 12 && s'.maxSize == s.maxSize - 16)
      && (t !in {VOC_TYPE_VOICE_DATA, VOC_TYPE_VOICE_DATA_CONT, VOC_TYPE_EXTENDED, VOC_TYPE_NEW_VOICE_DATA} ==>
            next == Clamp(|data|, c + 4 + size) && s'.remainingSize == 0 && s'.maxSize == s.maxSize - 4 - size)
  {
  }

  /** The stream parameters are written once: a block leaves them alone once
      the sample rate is set. */
  lemma BlockKeepsParams(data: seq<byte>, seekable: bool, c: nat, s: Scan, env: Env)
    requires s.remainingSize == 0 && s.par.sampleRate != 0
    ensures Block(data, seekable, c, s, env).0.par == s.par
  {
  }

  /** ... and so does the whole block loop. */
  lemma {:induction false} ScanKeepsParams(data: seq<byte>, seekable: bool, c: nat, s: Scan, env: Env)
    requires s.remainingSize == 0 && s.par.sampleRate != 0
    ensures ScanBlocks(data, seekable, c, s, env).0.par == s.par
    decreases |data| - c
  {
    var (s', next, st) := Block(data, seekable, c, s, env);
    BlockKeepsParams(data, seekable, c, s, env);
    if st.Success? && s'.remainingSize == 0 {
      ScanKeepsParams(data, seekable, next, s', env);
    }
  }

  /** Once the sample rate is set, a call changes neither it nor the channel
      count nor the bits per sample; only the codec (when none was set) and
      the bit rate can change. */
  lemma ParamsWrittenOnce(data: seq<byte>, seekable: bool, c: nat, st: DemuxState, maxSize: int, env: Env)
    requires c <= |data| && st.par.sampleRate != 0
    ensures var par := Demux(data, seekable, c, st, maxSize, env).0.par;
      && par.sampleRate == st.par.sampleRate && par.channels == st.par.channels
      && par.bitsPerCodedSample == st.par.bitsPerCodedSample
      && (st.par.codecId != CodecNone ==> par.codecId == st.par.codecId)
  {
    if st.remainingSize == 0 {
      ScanKeepsParams(data, seekable, c, Scan(st.remainingSize, maxSize, st.par, 0, 1, -1), env);
    }
  }

  /** The first voice-data block sets a positive sample rate: the rate an
      extended block just before it announced, or the rate of its own
      time-constant byte; and the channel count the extended block
      announced, or 1. */
  lemma VoiceDataSetsRate(data: seq<byte>, seekable: bool, c: nat, s: Scan, env: Env)
    requires s.remainingSize == 0 && s.par.sampleRate == 0
    requires BlockType(data, c) == VOC_TYPE_VOICE_DATA && Block(data, seekable, c, s, env).2.Success?
    requires s.sampleRate >= 0
    ensures var par := Block(data, seekable, c, s, env).0.par;
      && par.sampleRate > 0
      && par.sampleRate == (if s.sampleRate != 0 then s.sampleRate else VoiceDataRate(ByteAt(data, c + 4)))
      && par.channels == s.channels
  {
  }

  /** An extended block followed by a voice-data block: the voice data takes
      the extended block's rate and channel count, and the override is
      then reset to one channel. */
  lemma ExtendedThenVoice(data: seq<byte>, seekable: bool, c: nat, s: Scan, env: Env)
    requires s.remainingSize == 0 && s.par.sampleRate == 0
    requires BlockType(data, c) == VOC_TYPE_EXTENDED && Block(data, seekable, c, s, env).2.Success?
    requires var (s', next, _) := Block(data, seekable, c, s, env);
      BlockType(data, next) == VOC_TYPE_VOICE_DATA && Block(data, seekable, next, s', env).2.Success?
    ensures var (s', next, _) := Block(data, seekable, c, s, env);
      var s'' := Block(data, seekable, next, s', env).0;
      var channels := ByteAt(data, c + 7) as int + 1;
      && s''.par.sampleRate == ExtendedRate(Le(Window(data, c + 4, 2)), channels)
      && s''.par.channels == channels
      && s''.channels == 1
  {
    var (s', next, _) := Block(data, seekable, c, s, env);
    assert s'.sampleRate >= 15 && s'.par == s.par;
  }

  /** The outcome of a call: the terminator and an unresolvable zero length
      end it at the block loop, a sample rate that is not positive is
      invalid data, an unknown codec is refused, and none of these reads
      packet bytes or moves the timestamp. Otherwise the bit rate is the
      product of rate, channels and bits; the packet takes its size out of
      the block, so the bytes left never go negative; it is cut at the
      cursor and carries the old timestamp, which moves on by the packet's
      duration or becomes unknown. */
  lemma GetPacketOutcome(data: seq<byte>, seekable: bool, c: nat, st: DemuxState, maxSize: int, env: Env)
    requires c <= |data|
    ensures var (s, p, status) := Scanned(data, seekable, c, st, maxSize, env);
      var (st', q, r) := Demux(data, seekable, c, st, maxSize, env);
      && (r.Err? ==> q == p && st'.pts == st.pts && st'.remainingSize == s.remainingSize)
      && (r.Err? && r.error in {Eof, Io} <==> status.Failure?)
      && (r == Err(InvalidData) <==> status.Success? && s.par.sampleRate <= 0)
      && (r == Err(Inval) <==> status.Success? && s.par.sampleRate > 0
                               && ResolveCodec(s.par.codecId, s.tmpCodec, env).Err?)
      && (r.Ok? ==>
            var size := PacketSize(s.remainingSize, s.maxSize);
            && st'.par.sampleRate > 0
            && st'.par.bitRate == st'.par.sampleRate * st'.par.channels * st'.par.bitsPerCodedSample
            && st'.remainingSize == s.remainingSize - size >= 0
            && r.value.pos == p && r.value.data == data[p..q]
            && (size > 0 ==> q == Clamp(|data|, p + size)) && (size <= 0 ==> q == p)
            && r.value.pts == st.pts
            && st'.pts == NextPts(st.pts, env.frameDuration(st'.par, size)))
  {
  }

  /** A lost timestamp stays lost: whatever durations later packets have. */
  function PtsAfter(pts: Pts, durations: seq<int>): (r: Pts)
    decreases |durations|
  {
    if durations == [] then pts else PtsAfter(NextPts(pts, durations[0]), durations[1..])
  }

  lemma {:induction false} PtsStaysLost(durations: seq<int>)
    ensures PtsAfter(NoPts, durations) == NoPts
  {
    if durations != [] {
      PtsStaysLost(durations[1..]);
    }
  }

  /** A known timestamp stays known exactly while every duration is
      positive. */
  lemma {:induction false} PtsKnown(pts: Pts, durations: seq<int>)
    requires pts.At?
    ensures PtsAfter(pts, durations).At? <==> forall i :: 0 <= i < |durations| ==> durations[i] > 0
    decreases |durations|
  {
    if durations != [] {
      var next := NextPts(pts, durations[0]);
      if next.At? {
        PtsKnown(next, durations[1..]);
        assert forall i :: 1 <= i < |durations| ==> durations[i] == durations[1..][i - 1];
      } else {
        PtsStaysLost(durations[1..]);
      }
    }
  }

  /** The demuxer's state: the input, the bytes left in the current block,
      the timestamp of the next packet and the parameters of its one audio
      stream, all updated in place by each call. */
  class Demuxer {
    const rd: Reader
    var remainingSize: int
    var pts: Pts
    var par: Params

    ghost predicate Valid()
      reads this, rd
    {
      rd.Valid()
    }

    function State(): DemuxState
      reads this
    {
      DemuxState(remainingSize, pts, par)
    }

    /** A demuxer at a block boundary, with the parameters and timestamp the
        file header left. */
    constructor (rd: Reader, par: Params, pts: Pts)
      requires rd.Valid()
      ensures Valid() && this.rd == rd && State() == DemuxState(0, pts, par)
    {
      this.rd := rd;
      remainingSize := 0;
      this.pts := pts;
      this.par := par;
    }

    /** ff_voc_get_packet: reads blocks until one has bytes to return, checks
        the stream parameters and cuts a packet of at most maxSize bytes. */
    method GetPacket(maxSize: int, env: Env) returns (r: Result<Packet>)
      requires Valid()
      modifies this, rd
      ensures Valid()
      ensures (State(), rd.pos, r) == Demux(rd.data, rd.seekable, old(rd.pos), old(State()), maxSize, env)
    {
      var max, rate, channels, tmpCodec, status := ReadBlocks(maxSize, env);
      if status.Failure? {
        return Err(status.error);
      }
      r := Emit(max, tmpCodec, rate, channels, env);
    }

    /** The block loop of ff_voc_get_packet, run only when nothing is left of
        the current block. */
    method ReadBlocks(maxSize: int, env: Env) returns (max: int, rate: int, channels: int, tmpCodec: int, status: Status)
      requires Valid()
      modifies this, rd
      ensures Valid() && pts == old(pts)
      ensures (Scan(remainingSize, max, par, rate, channels, tmpCodec), rd.pos, status)
        == Scanned(rd.data, rd.seekable, old(rd.pos), old(State()), maxSize, env)
    {
      ghost var target := Scanned(rd.data, rd.seekable, rd.pos, State(), maxSize, env);
      max, rate, channels, tmpCodec, status := maxSize, 0, 1, -1, Success;
      while remainingSize == 0
        invariant Valid() && pts == old(pts) && status == Success
        invariant remainingSize == 0 ==>
          ScanBlocks(rd.data, rd.seekable, rd.pos, Scan(0, max, par, rate, channels, tmpCodec), env) == target
        invariant remainingSize != 0 ==>
          target == (Scan(remainingSize, max, par, rate, channels, tmpCodec), rd.pos, Success)
        decreases |rd.data| - rd.pos
      {
        var st;
        max, rate, channels, tmpCodec, st := ReadBlock(max, rate, channels, tmpCodec, env);
        if st.Failure? {
          return max, rate, channels, tmpCodec, st;
        }
      }
    }

    /** The part of ff_voc_get_packet after the block loop: the sample rate
        check, the codec, the bit rate and the packet. */
    method Emit(max: int, tmpCodec: int, ghost rate: int, ghost channels: int, env: Env) returns (r: Result<Packet>)
      requires Valid()
      modifies this, rd
      ensures Valid()
      ensures (State(), rd.pos, r)
        == Finish(rd.data, old(rd.pos), Scan(old(remainingSize), max, old(par), rate, channels, tmpCodec), old(pts), env)
    {
      if par.sampleRate <= 0 {
        return Err(InvalidData);
      }

      if tmpCodec >= 0 {
        var id := env.codecOfTag(tmpCodec);
        if par.codecId == CodecNone {
          par := par.(codecId := id);
        }
        if par.codecId == CodecNone && env.audioCodecId == CodecNone {
          return Err(Inval);
        }
      }

      par := par.(bitRate := par.sampleRate * par.channels * par.bitsPerCodedSample);
      r := CutPacket(max, env);
    }

    /** The packet: at most max bytes (2048 once max is used up) of what is
        left of the block, stamped with the timestamp, which then moves on. */
    method CutPacket(max: int, env: Env) returns (r: Result<Packet>)
      requires Valid()
      modifies this, rd
      ensures Valid()
      ensures (State(), rd.pos, r) == Cut(rd.data, old(rd.pos), old(remainingSize), max, old(par), old(pts), env)
    {
      var limit := if max <= 0 then DEFAULT_PACKET_SIZE else max;
      var size := if remainingSize < limit then remainingSize else limit;
      remainingSize := remainingSize - size;

      var p := rd.pos;
      var bytes := rd.ReadBytes(size, p);
      r := Ok(Packet(bytes, p, 0, pts, 0));

      var duration := env.frameDuration(par, size);
      if duration > 0 && pts.At? {
        pts := At(pts.t + duration);
      } else {
        pts := NoPts;
      }
    }

    /** One pass of the block loop: reads the block header at the cursor and
        what the block kind needs of its body. */
    method ReadBlock(max: int, rate: int, channels: int, tmpCodec: int, env: Env)
      returns (max': int, rate': int, channels': int, tmpCodec': int, status: Status)
      requires Valid() && remainingSize == 0
      modifies this, rd
      ensures Valid() && pts == old(pts)
      ensures (Scan(remainingSize, max', par, rate', channels', tmpCodec'), rd.pos, status)
        == Block(rd.data, rd.seekable, old(rd.pos), Scan(0, max, old(par), rate, channels, tmpCodec), env)
    {
      var c := rd.pos;
      max', rate', channels', tmpCodec', status := max, rate, channels, tmpCodec, Success;
      var t := rd.R8(c);
      if t == VOC_TYPE_EOF {
        return max', rate', channels', tmpCodec', Failure(Eof);
      }
      var size: nat := rd.ReadLe(3, c + 1);
      if size == 0 {
        if !rd.seekable {
          return max', rate', channels', tmpCodec', Failure(Io);
        }
        size := |rd.data| - rd.pos;
      }
      assert size == BlockSize(rd.data, c);
      remainingSize := size;
      max' := max' - 4;

      if t == VOC_TYPE_VOICE_DATA {
        max', channels', tmpCodec' := ReadVoiceData(c, max', rate', channels', tmpCodec', env);
      } else if t == VOC_TYPE_VOICE_DATA_CONT {
      } else if t == VOC_TYPE_EXTENDED {
        max', rate', channels' := ReadExtended(c, max', rate', channels', tmpCodec');
      } else if t == VOC_TYPE_NEW_VOICE_DATA {
        max', tmpCodec' := ReadNewVoiceData(c, max', rate', channels', tmpCodec');
      } else {
        rd.Skip(size, c + 4);
        max' := max' - size;
        remainingSize := 0;
      }
    }

    /** The voice-data header: rate byte (read only while the stream has no
        rate) and codec tag. */
    method ReadVoiceData(c: nat, max: int, rate: int, channels: int, tmpCodec: int, env: Env)
      returns (max': int, channels': int, tmpCodec': int)
      requires Valid() && rd.pos == Clamp(|rd.data|, c + 4)
      modifies this, rd
      ensures Valid() && pts == old(pts)
      ensures (Scan(remainingSize, max', par, rate, channels', tmpCodec'), rd.pos)
        == VoiceData(rd.data, c, Scan(old(remainingSize), max, old(par), rate, channels, tmpCodec), env)
    {
      if par.sampleRate == 0 {
        var b := rd.R8(c + 4);
        par := par.(sampleRate := VoiceDataRate(b));
        if rate != 0 {
          par := par.(sampleRate := rate);
        }
        par := par.(channels := channels, bitsPerCodedSample := env.bitsPerSample(par.codecId));
      } else {
        rd.Skip(1, c + 4);
      }
      tmpCodec' := rd.R8(c + 5);
      remainingSize := remainingSize - 2;
      max' := max - 2;
      channels' := 1;
    }

    /** The extended block: time constant, packing byte and channel count. */
    method ReadExtended(c: nat, max: int, ghost rate: int, ghost channels: int, ghost tmpCodec: int)
      returns (max': int, rate': int, channels': int)
      requires Valid() && rd.pos == Clamp(|rd.data|, c + 4)
      modifies this, rd
      ensures Valid() && pts == old(pts) && par == old(par)
      ensures (Scan(remainingSize, max', par, rate', channels', tmpCodec), rd.pos)
        == Extended(rd.data, c, Scan(old(remainingSize), max, par, rate, channels, tmpCodec))
    {
      var timeConstant := rd.ReadLe(2, c + 4);
      var pack := rd.R8(c + 6);
      var b := rd.R8(c + 7);
      channels' := b as int + 1;
      rate' := ExtendedRate(timeConstant, channels');
      remainingSize := 0;
      max' := max - 4;
    }

    /** The new-voice-data header: rate, bits and channels (read only while
        the stream has no rate), codec tag and 4 reserved bytes. */
    method ReadNewVoiceData(c: nat, max: int, ghost rate: int, ghost channels: int, ghost tmpCodec: int)
      returns (max': int, tmpCodec': int)
      requires Valid() && rd.pos == Clamp(|rd.data|, c + 4)
      modifies this, rd
      ensures Valid() && pts == old(pts)
      ensures (Scan(remainingSize, max', par, rate, channels, tmpCodec'), rd.pos)
        == NewVoiceData(rd.data, c, Scan(old(remainingSize), max, old(par), rate, channels, tmpCodec))
    {
      if par.sampleRate == 0 {
        var v := rd.ReadLe(4, c + 4);
        par := par.(sampleRate := Int32(v));
        var bits := rd.R8(c + 8);
        par := par.(bitsPerCodedSample := bits);
        var ch := rd.R8(c + 9);
        par := par.(channels := ch);
      } else {
        rd.Skip(6, c + 4);
      }
      tmpCodec' := rd.ReadLe(2, c + 10);
      rd.Skip(4, c + 12);
      remainingSize := remainingSize - 12;
      max' := max - 12;
    }
  }
}
