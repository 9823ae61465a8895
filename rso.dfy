/** The Lego Mindstorms RSO muxer: an 8-byte big-endian header (codec tag, data
    size, sample rate, play mode), the raw packet bytes, and a trailer that goes
    back and fills in the data size, saturated at 0xffff. */
module Rso {
  import opened Bytes
  import opened AvIo

  /** The bytes the header writes before the data size is known. */
  const HEADER_BYTES: nat := 8

  /** The codec parameters of the one stream the header describes. */
  datatype StreamParams = StreamParams(codecTag: nat, channels: int32, sampleRate: int32, codecId: CodecId)

  /** The header checks, in order. The sample-rate test compares the signed
      rate with the unsigned bound 1u<<16, so a negative rate fails it too. */
  function HeaderCheck(par: StreamParams, seekable: bool): (st: Status)
    ensures st == Failure(InvalidData) <==>
      par.codecTag == 0 || par.channels != 1 || !seekable || !(0 <= par.sampleRate < 0x1_0000)
    ensures st == Failure(PatchWelcome) <==>
      par.codecTag != 0 && par.channels == 1 && seekable && 0 <= par.sampleRate < 0x1_0000
      && par.codecId == AdpcmImaWav
    ensures st.Success? || st == Failure(InvalidData) || st == Failure(PatchWelcome)
  {
    if par.codecTag == 0 then Failure(InvalidData)
    else if par.channels != 1 then Failure(InvalidData)
    else if !seekable then Failure(InvalidData)
    else if Wrap(par.sampleRate, 4) >= 0x1_0000 then Failure(InvalidData)
    else if par.codecId == AdpcmImaWav then Failure(PatchWelcome)
    else Success
  }

  /** Codec tag, a zero data size to be patched, sample rate, play mode 0. */
  function HeaderBytes(par: StreamParams): (h: seq<byte>)
    ensures |h| == HEADER_BYTES
  {
    BeBytes(par.codecTag, 2) + BeBytes(0, 2) + BeBytes(par.sampleRate, 2) + BeBytes(0, 2)
  }

  /** Read back as four big-endian 16-bit fields, the header holds the codec
      tag, zero, the sample rate and zero. */
  lemma HeaderFields(par: StreamParams)
    requires HeaderCheck(par, true).Success?
    ensures var h := HeaderBytes(par);
      Be(h[0..2]) == Wrap(par.codecTag, 2) && Be(h[2..4]) == 0
      && Be(h[4..6]) == par.sampleRate && Be(h[6..8]) == 0
  {
    var h := HeaderBytes(par);
    var a, z, r := BeBytes(par.codecTag, 2), BeBytes(0, 2), BeBytes(par.sampleRate, 2);
    assert h == a + z + r + z;
    assert h[0..2] == a && h[2..4] == z && h[4..6] == r && h[6..8] == z;
    BeRoundTrip(par.codecTag, 2);
    BeRoundTrip(0, 2);
    BeRoundTrip(par.sampleRate, 2);
  }

  /** rso_write_header: nothing is written unless every check passes. */
  method WriteHeader(out: Writer, par: StreamParams) returns (st: Status)
    requires out.Valid()
    modifies out
    ensures out.Valid()
    ensures st == HeaderCheck(par, out.seekable)
    ensures st.Failure? ==> out.buf == old(out.buf) && out.pos == old(out.pos)
    ensures st.Success? ==>
      out.buf == Overwrite(old(out.buf), old(out.pos), HeaderBytes(par))
      && out.pos == old(out.pos) + HEADER_BYTES
  {
    if par.codecTag == 0 {
      return Failure(InvalidData);
    }
    if par.channels != 1 {
      return Failure(InvalidData);
    }
    if !out.seekable {
      return Failure(InvalidData);
    }
    if Wrap(par.sampleRate, 4) >= 0x1_0000 {
      return Failure(InvalidData);
    }
    if par.codecId == AdpcmImaWav {
      return Failure(PatchWelcome);
    }
    ghost var s0, p0 := out.buf, out.pos;
    out.Write(BeBytes(par.codecTag, 2));
    out.Write(BeBytes(0, 2));
    OverwriteConcat(s0, p0, BeBytes(par.codecTag, 2), BeBytes(0, 2));
    out.Write(BeBytes(par.sampleRate, 2));
    OverwriteConcat(s0, p0, BeBytes(par.codecTag, 2) + BeBytes(0, 2), BeBytes(par.sampleRate, 2));
    out.Write(BeBytes(0, 2));
    OverwriteConcat(s0, p0, BeBytes(par.codecTag, 2) + BeBytes(0, 2) + BeBytes(par.sampleRate, 2), BeBytes(0, 2));
    st := Success;
  }

  /** rso_write_packet: the packet's bytes and nothing else. */
  method WritePacket(out: Writer, data: seq<byte>) returns (st: Status)
    requires out.Valid()
    modifies out
    ensures out.Valid() && st == Success
    ensures out.buf == Overwrite(old(out.buf), old(out.pos), data)
    ensures out.pos == old(out.pos) + |data|
  {
    out.Write(data);
    st := Success;
  }

  /** The data size the trailer stores: the bytes after the header when they
      fit in 16 bits, 0xffff when there are more; a file shorter than the header
      gives the 16-bit wrap of a negative count (the uint16_t store). */
  function CodedSize(fileSize: int, headerSize: int): (c: nat)
    ensures c < 0x1_0000
    ensures headerSize <= fileSize <= 0xffff + headerSize ==> c == fileSize - headerSize
    ensures fileSize > 0xffff + headerSize ==> c == 0xffff
    ensures fileSize < headerSize ==> c == Wrap(fileSize - headerSize, 2)
  {
    if fileSize > 0xffff + headerSize then 0xffff else Wrap(fileSize - headerSize, 2)
  }

  /** What rso_write_trailer returns for a given avio_tell result: a failed
      tell (negative) is passed back unchanged, otherwise 0. */
  function TrailerReturn(fileSize: int): (ret: int)
    ensures ret < 0 <==> fileSize < 0
    ensures fileSize < 0 ==> ret == fileSize
    ensures fileSize >= 0 ==> ret == 0
  {
    if fileSize < 0 then fileSize else 0
  }

  /** rso_write_trailer: patch bytes 2..3 with the coded size and return to
      where writing stopped. */
  method WriteTrailer(out: Writer, headerSize: int) returns (ret: int)
    requires out.Valid() && 2 <= |out.buf|
    modifies out
    ensures out.Valid() && ret == TrailerReturn(old(out.pos)) && ret == 0
    ensures out.buf == Overwrite(old(out.buf), 2, BeBytes(CodedSize(old(out.pos), headerSize), 2))
    ensures out.pos == old(out.pos)
    ensures |old(out.buf)| >= 4 ==>
      && |out.buf| == |old(out.buf)|
      && (forall i :: 0 <= i < |out.buf| && i != 2 && i != 3 ==> out.buf[i] == old(out.buf)[i])
      && Be(out.buf[2..4]) == CodedSize(old(out.pos), headerSize)
  {
    var fileSize := out.Tell();
    var coded := CodedSize(fileSize, headerSize);
    out.Seek(2);
    out.Write(BeBytes(coded, 2));
    out.Seek(fileSize);
    ret := 0;
    BeRoundTrip(coded, 2);
    assert |old(out.buf)| >= 4 ==> out.buf[2..4] == BeBytes(coded, 2);
  }

  /** A whole RSO file: header, payload, trailer patch. The data-size field
      reads back as the payload length saturated at 0xffff, and every other
      byte is what the header and the packets wrote. */
  lemma {:induction false} FileSizeField(par: StreamParams, payload: seq<byte>)
    requires HeaderCheck(par, true).Success?
    ensures var h := HeaderBytes(par);
      var f := Overwrite(h + payload, 2, BeBytes(CodedSize(|h + payload|, HEADER_BYTES), 2));
      && |f| == HEADER_BYTES + |payload|
      && f[..2] == h[..2] && f[4..HEADER_BYTES] == h[4..]
      && f[HEADER_BYTES..] == payload
      && Be(f[2..4]) == if |payload| <= 0xffff then |payload| else 0xffff
  {
    var h := HeaderBytes(par);
    var c := CodedSize(|h + payload|, HEADER_BYTES);
    var f := Overwrite(h + payload, 2, BeBytes(c, 2));
    OverwriteAt(h + payload, 2, BeBytes(c, 2));
    assert f[2..4] == BeBytes(c, 2);
    assert f[4..] == (h + payload)[4..];
    BeRoundTrip(c, 2);
    assert f[..2] == h[..2];
    assert |h| == HEADER_BYTES;
    assert f[4..HEADER_BYTES] == (h + payload)[4..HEADER_BYTES] by {
      forall i | 4 <= i < HEADER_BYTES
        ensures f[i] == (h + payload)[i]
      {
        assert f[4..][i - 4] == (h + payload)[4..][i - 4];
      }
    }
    assert (h + payload)[4..HEADER_BYTES] == h[4..];
    assert f[HEADER_BYTES..] == payload;
  }
}
