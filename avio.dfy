/** The byte-stream side of the container framework as the four formats use it:
    an input stream with a cursor (fixed-width little/big-endian reads, skips,
    tell, size, end-of-stream test) and an output stream with a write position
    that can be moved back to patch bytes already written. Also the error codes
    and the codec identifiers the formats name. */
module AvIo {
  import opened Bytes

  /** The error codes the formats return (negative AVERROR values in C). */
  datatype AvError = Eof | InvalidData | Io | Inval | PatchWelcome

  datatype Result<T> = Ok(value: T) | Err(error: AvError)

  datatype Option<T> = None | Some(value: T)

  /** The outcome of a call that returns 0 or an error code. */
  datatype Status = Success | Failure(error: AvError)

  /** The codec identifiers the formats name; every other identifier is Other. */
  datatype CodecId = CodecNone | AdpcmImaWav | Sdx2Dpcm | Other(n: nat)

  datatype MediaType = Audio | Video | OtherMedia

  /** A presentation timestamp that may be unknown (AV_NOPTS_VALUE). */
  datatype Pts = NoPts | At(t: int)

  /** A packet a demuxer returns: its bytes, the input offset it was read
      from, its stream, its timestamp (pts and dts alike) and its duration. */
  datatype Packet = Packet(data: seq<byte>, pos: nat, streamIndex: nat, pts: Pts, duration: int)

  /** An input stream: the whole byte content, whether it supports random
      access, and a cursor that never moves past the end. */
  class Reader {
    const data: seq<byte>
    const seekable: bool
    var pos: nat

    ghost predicate Valid()
      reads this
    {
      pos <= |data|
    }

    constructor (data: seq<byte>, seekable: bool)
      ensures Valid() && this.data == data && this.seekable == seekable && pos == 0
    {
      this.data := data;
      this.seekable := seekable;
      pos := 0;
    }

    /** True once the cursor stands at the end of the input. */
    predicate AtEof()
      reads this
    {
      pos >= |data|
    }

    /* Every read takes the ghost offset `at` the cursor stands for: the
       cursor is at `at` held inside the input, and a read of n bytes reads
       the zero-padded window at `at` and leaves the cursor at `at + n` held
       inside the input. Pass the cursor itself when it has not stopped at
       the end. */

    /** avio_r8: one byte, 0 at end of input. */
    method R8(ghost at: nat) returns (b: byte)
      requires Valid() && pos == Clamp(|data|, at)
      modifies this
      ensures Valid()
      ensures b == ByteAt(data, at)
      ensures pos == Clamp(|data|, at + 1)
    {
      b := ByteAt(data, pos);
      ClampAdd(|data|, at, 1);
      pos := Clamp(|data|, pos + 1);
    }

    /** avio_rl16 / avio_rl24 / avio_rl32: an n-byte little-endian field. */
    method ReadLe(n: nat, ghost at: nat) returns (v: nat)
      requires Valid() && pos == Clamp(|data|, at)
      modifies this
      ensures Valid()
      ensures v == Le(Window(data, at, n))
      ensures pos == Clamp(|data|, at + n)
    {
      WindowClamp(data, at, n);
      v := Le(Window(data, pos, n));
      ClampAdd(|data|, at, n);
      pos := Clamp(|data|, pos + n);
    }

    /** avio_rb16 / avio_rb32: an n-byte big-endian field. */
    method ReadBe(n: nat, ghost at: nat) returns (v: nat)
      requires Valid() && pos == Clamp(|data|, at)
      modifies this
      ensures Valid()
      ensures v == Be(Window(data, at, n))
      ensures pos == Clamp(|data|, at + n)
    {
      WindowClamp(data, at, n);
      v := Be(Window(data, pos, n));
      ClampAdd(|data|, at, n);
      pos := Clamp(|data|, pos + n);
    }

    /** A little-endian 32-bit read compared against MKTAG: the four raw bytes. */
    method ReadTag(ghost at: nat) returns (t: seq<byte>)
      requires Valid() && pos == Clamp(|data|, at)
      modifies this
      ensures Valid()
      ensures t == Window(data, at, 4)
      ensures pos == Clamp(|data|, at + 4)
    {
      WindowClamp(data, at, 4);
      t := Window(data, pos, 4);
      ClampAdd(|data|, at, 4);
      pos := Clamp(|data|, pos + 4);
    }

    /** avio_skip forward by n bytes. */
    method Skip(n: nat, ghost at: nat)
      requires Valid() && pos == Clamp(|data|, at)
      modifies this
      ensures Valid()
      ensures pos == Clamp(|data|, at + n)
    {
      ClampAdd(|data|, at, n);
      pos := Clamp(|data|, pos + n);
    }

    /** av_get_packet: up to n bytes into a new packet; a read that reaches the
        end of input is short, and a size of zero or less reads nothing. */
    method ReadBytes(n: int, ghost at: nat) returns (bs: seq<byte>)
      requires Valid() && pos == Clamp(|data|, at)
      modifies this
      ensures Valid()
      ensures pos == if n > 0 then Clamp(|data|, at + n) else old(pos)
      ensures bs == data[old(pos)..pos]
    {
      if n > 0 {
        ClampAdd(|data|, at, n);
        var q := Clamp(|data|, pos + n);
        bs := data[pos..q];
        pos := q;
      } else {
        bs := [];
      }
    }
  }

  /** An output stream: the bytes written so far and the write position. */
  class Writer {
    var buf: seq<byte>
    var pos: nat
    const seekable: bool

    ghost predicate Valid()
      reads this
    {
      pos <= |buf|
    }

    constructor (seekable: bool)
      ensures Valid() && buf == [] && pos == 0 && this.seekable == seekable
    {
      buf := [];
      pos := 0;
      this.seekable := seekable;
    }

    /** avio_write and the fixed-width avio_w* writers. */
    method Write(b: seq<byte>)
      requires Valid()
      modifies this
      ensures Valid()
      ensures buf == Overwrite(old(buf), old(pos), b)
      ensures pos == old(pos) + |b|
    {
      buf := Overwrite(buf, pos, b);
      pos := pos + |b|;
    }

    /** avio_seek with SEEK_SET to a position already written. */
    method Seek(p: nat)
      requires Valid() && p <= |buf|
      modifies this
      ensures Valid() && buf == old(buf) && pos == p
    {
      pos := p;
    }

    /** avio_tell. */
    function Tell(): nat
      reads this
    {
      pos
    }
  }
}
