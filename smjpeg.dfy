/** The Loki SDL Motion JPEG (SMJPEG) muxer. The header is the magic, two
    big-endian words of which the second (offset 12) is the duration slot, one
    `_TXT` record per metadata entry, one `_SND`/`_VID` record per audio/video
    stream and `HEND`; each packet is a `sndD`/`vidD` record; the trailer patches
    the duration slot when the output is seekable and writes `DONE`. */
module Smjpeg {
  import opened Bytes
  import opened AvIo

  /** "\x00\x0aSMJPEG" */
  const MAGIC: seq<byte> := [0x00, 0x0A, 0x53, 0x4D, 0x4A, 0x50, 0x45, 0x47]
  const TXT: seq<byte> := [0x5F, 0x54, 0x58, 0x54]  // "_TXT"
  const SND: seq<byte> := [0x5F, 0x53, 0x4E, 0x44]  // "_SND"
  const VID: seq<byte> := [0x5F, 0x56, 0x49, 0x44]  // "_VID"
  const HEND: seq<byte> := [0x48, 0x45, 0x4E, 0x44]  // "HEND"
  const SNDD: seq<byte> := [0x73, 0x6E, 0x64, 0x44]  // "sndD"
  const VIDD: seq<byte> := [0x76, 0x69, 0x64, 0x44]  // "vidD"
  const DONE: seq<byte> := [0x44, 0x4F, 0x4E, 0x45]  // "DONE"
  /** " = " between a metadata key and its value. */
  const SEPARATOR: seq<byte> := [0x20, 0x3D, 0x20]
  /** Where the header leaves the 32-bit duration that the trailer fills in. */
  const DURATION_OFFSET: nat := 12
  /** The bytes after the length field of an audio and of a video record. */
  const SND_BODY: nat := 8
  const VID_BODY: nat := 12
  /** The word a video record leaves zero before the frame size. */
  const VID_RESERVED: nat := 0
  /** Streams the format can carry. */
  const MAX_STREAMS: nat := 2

  /** The codec parameters of one stream that the header records. */
  datatype StreamParams = StreamParams(
    codecType: MediaType, codecId: CodecId,
    sampleRate: int32, bitsPerCodedSample: int32, channels: int32,
    width: int32, height: int32)

  /** The SMJPEG audio and video codec-tag tables: the tag of a codec, 0 when
      the table has none. */
  datatype TagTables = TagTables(audio: CodecId -> nat, video: CodecId -> nat)

  /** A packet handed to the muxer (pts and duration in milliseconds). */
  datatype MuxPacket = MuxPacket(streamIndex: nat, pts: int, duration: int, data: seq<byte>)

  /** A metadata entry: key and value as C strings (without the terminator). */
  type Entry = (seq<byte>, seq<byte>)

  /** The magic and two zero words; the second word is the duration slot. */
  function Preamble(): (p: seq<byte>)
    ensures |p| == DURATION_OFFSET + 4
  {
    MAGIC + BeBytes(0, 4) + BeBytes(0, 4)
  }

  /** One metadata entry: `_TXT`, the length of what follows, `key = value`. */
  function TxtRecord(e: Entry): (rec: seq<byte>)
    ensures |rec| == 8 + |e.0| + |e.1| + 3
  {
    TXT + BeBytes(|e.0| + |e.1| + 3, 4) + EntryText(e)
  }

  /** The text a TXT record carries. */
  function EntryText(e: Entry): seq<byte>
  {
    e.0 + SEPARATOR + e.1
  }

  function TxtRecords(md: seq<Entry>): seq<byte>
  {
    if md == [] then [] else TxtRecords(md[..|md| - 1]) + TxtRecord(md[|md| - 1])
  }

  /** A reader for a run of TXT records: the text of each, or None when the
      bytes are not a whole number of well-framed records. */
  function ParseTxt(bs: seq<byte>): (r: Option<seq<seq<byte>>>)
    decreases |bs|
  {
    if bs == [] then Some([])
    else if |bs| < 8 || bs[..4] != TXT then None
    else
      var len := Be(bs[4..8]);
      if |bs| < 8 + len then None
      else match ParseTxt(bs[8 + len..])
        case None => None
        case Some(rest) => Some([bs[8..8 + len]] + rest)
  }

  /** One step of the reader on a well-framed first record. */
  lemma {:induction false} ParseTxtFirst(bs: seq<byte>, len: nat)
    requires 8 <= |bs| && bs[..4] == TXT && Be(bs[4..8]) == len && 8 + len <= |bs|
    ensures ParseTxt(bs) == match ParseTxt(bs[8 + len..])
                            case None => None
                            case Some(rest) => Some([bs[8..8 + len]] + rest)
  {
  }

  /** What a successful parse of a non-empty run says about its first record. */
  lemma {:induction false} ParseTxtHead(bs: seq<byte>)
    requires bs != [] && ParseTxt(bs).Some?
    ensures 8 <= |bs| && bs[..4] == TXT && 8 + Be(bs[4..8]) <= |bs|
    ensures var len := Be(bs[4..8]);
      ParseTxt(bs[8 + len..]).Some? && ParseTxt(bs).value == [bs[8..8 + len]] + ParseTxt(bs[8 + len..]).value
  {
  }

  /** A first record that is whole in a stays the first record of a + b. */
  lemma {:induction false} ParseTxtPrefix(a: seq<byte>, b: seq<byte>, len: nat)
    requires 8 <= |a| && a[..4] == TXT && Be(a[4..8]) == len && 8 + len <= |a|
    ensures ParseTxt(a + b) == match ParseTxt(a[8 + len..] + b)
                               case None => None
                               case Some(rest) => Some([a[8..8 + len]] + rest)
  {
    var ab := a + b;
    assert ab[..4] == a[..4] && ab[4..8] == a[4..8];
    assert ab[8..8 + len] == a[8..8 + len];
    assert ab[8 + len..] == a[8 + len..] + b;
    ParseTxtFirst(ab, len);
  }

  /** Parsing is compositional: two runs of records parse as the two lists. */
  lemma {:induction false} ParseTxtAppend(a: seq<byte>, b: seq<byte>, x: seq<seq<byte>>, y: seq<seq<byte>>)
    requires ParseTxt(a) == Some(x) && ParseTxt(b) == Some(y)
    ensures ParseTxt(a + b) == Some(x + y)
    decreases |a|
  {
    if a == [] {
      assert x == [] && a + b == b && x + y == y;
    } else {
      ParseTxtHead(a);
      var len := Be(a[4..8]);
      var tail := a[8 + len..];
      var rest := ParseTxt(tail).value;
      assert ParseTxt(tail + b) == Some(rest + y) by {
        ParseTxtAppend(tail, b, rest, y);
      }
      assert ParseTxt(a + b) == Some([a[8..8 + len]] + (rest + y)) by {
        ParseTxtPrefix(a, b, len);
      }
      assert x + y == [a[8..8 + len]] + (rest + y) by {
        assert x == [a[8..8 + len]] + rest;
      }
    }
  }

  /** A single TXT record reads back as its entry's text. */
  lemma TxtRecordParses(e: Entry)
    requires |e.0| + |e.1| + 3 < 0x1_0000_0000
    ensures ParseTxt(TxtRecord(e)) == Some([EntryText(e)])
  {
    var len := |e.0| + |e.1| + 3;
    var a, t := BeBytes(len, 4), EntryText(e);
    var rec := TXT + a + t;
    assert TxtRecord(e) == rec;
    assert rec[..4] == TXT && rec[4..8] == a && rec[8..] == t;
    assert Be(a) == len by {
      assert Pow256(4) == 0x1_0000_0000;
      BeRoundTrip(len, 4);
    }
    ParseOneRecord(rec);
  }

  /** A run holding exactly one well-framed record parses as its text. */
  lemma ParseOneRecord(rec: seq<byte>)
    requires 8 <= |rec| && rec[..4] == TXT && Be(rec[4..8]) == |rec| - 8
    ensures ParseTxt(rec) == Some([rec[8..]])
  {
    var len := |rec| - 8;
    var tail := rec[8 + len..];
    assert tail == [];
    assert ParseTxt(tail) == Some([]);
    ParseTxtFirst(rec, len);
    assert rec[8..8 + len] == rec[8..];
    assert [rec[8..]] + [] == [rec[8..]];
  }

  /** The length field of a TXT record counts exactly the bytes after it:
      reading the records back gives every entry's text, in order (as long as
      each length fits the 32-bit field). */
  lemma {:induction false} TxtRoundTrip(md: seq<Entry>)
    requires forall i :: 0 <= i < |md| ==> |md[i].0| + |md[i].1| + 3 < 0x1_0000_0000
    ensures ParseTxt(TxtRecords(md)) == Some(seq(|md|, i requires 0 <= i < |md| => EntryText(md[i])))
  {
    if md != [] {
      var init, e := md[..|md| - 1], md[|md| - 1];
      var texts := seq(|init|, i requires 0 <= i < |init| => EntryText(init[i]));
      assert ParseTxt(TxtRecords(init)) == Some(texts) by {
        TxtRoundTrip(init);
      }
      assert ParseTxt(TxtRecord(e)) == Some([EntryText(e)]) by {
        TxtRecordParses(e);
      }
      assert ParseTxt(TxtRecords(md)) == Some(texts + [EntryText(e)]) by {
        ParseTxtAppend(TxtRecords(init), TxtRecord(e), texts, [EntryText(e)]);
      }
      TextsSnoc(md);
    } else {
      assert seq(|md|, i requires 0 <= i < |md| => EntryText(md[i])) == [];
    }
  }

  lemma TextsSnoc(md: seq<Entry>)
    requires md != []
    ensures var init := md[..|md| - 1];
      seq(|init|, i requires 0 <= i < |init| => EntryText(init[i])) + [EntryText(md[|md| - 1])]
      == seq(|md|, i requires 0 <= i < |md| => EntryText(md[i]))
  {
  }

  /** An `_SND` record: an 8-byte body of rate, bits, channels and the
      codec tag. */
  function AudioRecord(rate: int, bits: int, channels: int, tag: nat): (rec: seq<byte>)
    ensures |rec| == 16 && rec[..4] == SND
  {
    var body := BeBytes(SND_BODY, 4) + (BeBytes(rate, 2) + ([Wrap(bits, 1), Wrap(channels, 1)] + LeBytes(tag, 4)));
    SliceLeft(SND, body, 0, 4);
    SND + body
  }

  /** A `_VID` record: a 12-byte body of 4 reserved bytes, width, height and
      the codec tag. */
  function VideoRecord(width: int, height: int, tag: nat): (rec: seq<byte>)
    ensures |rec| == 20 && rec[..4] == VID
  {
    var body := BeBytes(VID_BODY, 4) + (BeBytes(VID_RESERVED, 4) + (BeBytes(width, 2) + (BeBytes(height, 2) + LeBytes(tag, 4))));
    SliceLeft(VID, body, 0, 4);
    VID + body
  }

  /** The record the header writes for one stream: `_SND` for audio, `_VID`
      for video, nothing for other streams; an audio or video codec without
      a tag is refused. */
  function StreamRecord(st: StreamParams, tags: TagTables): (r: Result<seq<byte>>)
    ensures r.Err? <==>
      (st.codecType == Audio && tags.audio(st.codecId) == 0)
      || (st.codecType == Video && tags.video(st.codecId) == 0)
    ensures r.Err? ==> r.error == Inval
    ensures st.codecType == OtherMedia ==> r == Ok([])
    ensures r.Ok? && st.codecType == Audio ==> |r.value| == 16 && r.value[..4] == SND
    ensures r.Ok? && st.codecType == Video ==> |r.value| == 20 && r.value[..4] == VID
  {
    match st.codecType
    case Audio =>
      var tag := tags.audio(st.codecId);
      if tag == 0 then Err(Inval) else Ok(AudioRecord(st.sampleRate, st.bitsPerCodedSample, st.channels, tag))
    case Video =>
      var tag := tags.video(st.codecId);
      if tag == 0 then Err(Inval) else Ok(VideoRecord(st.width, st.height, tag))
    case OtherMedia => Ok([])
  }

  /** Where each field of an audio record sits. */
  lemma AudioRecordLayout(rate: int, bits: int, channels: int, tag: nat)
    ensures var rec := AudioRecord(rate, bits, channels, tag);
      && rec[4..8] == BeBytes(SND_BODY, 4) && rec[8..10] == BeBytes(rate, 2)
      && rec[10] == Wrap(bits, 1) && rec[11] == Wrap(channels, 1)
      && rec[12..16] == LeBytes(tag, 4)
  {
    var c := LeBytes(tag, 4);
    var r3 := [Wrap(bits, 1), Wrap(channels, 1)] + c;
    var r2 := BeBytes(rate, 2) + r3;
    var r1 := BeBytes(SND_BODY, 4) + r2;
    var rec := SND + r1;
    SliceRight(SND, r1, 4, 8);
    SliceLeft(BeBytes(SND_BODY, 4), r2, 0, 4);
    SliceRight(SND, r1, 8, 10);
    SliceRight(BeBytes(SND_BODY, 4), r2, 4, 6);
    SliceLeft(BeBytes(rate, 2), r3, 0, 2);
    SliceRight(SND, r1, 10, 12);
    SliceRight(BeBytes(SND_BODY, 4), r2, 6, 8);
    SliceRight(BeBytes(rate, 2), r3, 2, 4);
    SliceLeft([Wrap(bits, 1), Wrap(channels, 1)], c, 0, 2);
    assert rec[10] == rec[10..12][0] && rec[11] == rec[10..12][1];
    SliceRight(SND, r1, 12, 16);
    SliceRight(BeBytes(SND_BODY, 4), r2, 8, 12);
    SliceRight(BeBytes(rate, 2), r3, 4, 8);
    SliceRight([Wrap(bits, 1), Wrap(channels, 1)], c, 2, 6);
  }

  /** The length field of an audio record counts exactly the bytes after it,
      and the record reads back as rate, bits, channels and tag. */
  lemma AudioRecordFields(st: StreamParams, tags: TagTables)
    requires st.codecType == Audio && tags.audio(st.codecId) != 0
    ensures var rec := StreamRecord(st, tags).value;
      && Be(rec[4..8]) == |rec| - 8
      && Be(rec[8..10]) == Wrap(st.sampleRate, 2)
      && rec[10] == Wrap(st.bitsPerCodedSample, 1) && rec[11] == Wrap(st.channels, 1)
      && Le(rec[12..16]) == Wrap(tags.audio(st.codecId), 4)
  {
    var tag := tags.audio(st.codecId);
    assert StreamRecord(st, tags).value == AudioRecord(st.sampleRate, st.bitsPerCodedSample, st.channels, tag);
    AudioRecordLayout(st.sampleRate, st.bitsPerCodedSample, st.channels, tag);
    BeRoundTrip(SND_BODY, 4);
    BeRoundTrip(st.sampleRate, 2);
    LeRoundTrip(tag, 4);
  }

  /** Where each field of a video record sits. */
  lemma VideoRecordLayout(width: int, height: int, tag: nat)
    ensures var rec := VideoRecord(width, height, tag);
      && rec[4..8] == BeBytes(VID_BODY, 4) && rec[8..12] == BeBytes(VID_RESERVED, 4)
      && rec[12..14] == BeBytes(width, 2)
      && rec[14..16] == BeBytes(height, 2) && rec[16..20] == LeBytes(tag, 4)
  {
    var c := LeBytes(tag, 4);
    var r4 := BeBytes(height, 2) + c;
    var r3 := BeBytes(width, 2) + r4;
    var r2 := BeBytes(VID_RESERVED, 4) + r3;
    var r1 := BeBytes(VID_BODY, 4) + r2;
    var rec := VID + r1;
    SliceRight(VID, r1, 4, 8);
    SliceLeft(BeBytes(VID_BODY, 4), r2, 0, 4);
    SliceRight(VID, r1, 8, 12);
    SliceRight(BeBytes(VID_BODY, 4), r2, 4, 8);
    SliceLeft(BeBytes(VID_RESERVED, 4), r3, 0, 4);
    SliceRight(VID, r1, 12, 14);
    SliceRight(BeBytes(VID_BODY, 4), r2, 8, 10);
    SliceRight(BeBytes(VID_RESERVED, 4), r3, 4, 6);
    SliceLeft(BeBytes(width, 2), r4, 0, 2);
    SliceRight(VID, r1, 14, 16);
    SliceRight(BeBytes(VID_BODY, 4), r2, 10, 12);
    SliceRight(BeBytes(VID_RESERVED, 4), r3, 6, 8);
    SliceRight(BeBytes(width, 2), r4, 2, 4);
    SliceLeft(BeBytes(height, 2), c, 0, 2);
    SliceRight(VID, r1, 16, 20);
    SliceRight(BeBytes(VID_BODY, 4), r2, 12, 16);
    SliceRight(BeBytes(VID_RESERVED, 4), r3, 8, 12);
    SliceRight(BeBytes(width, 2), r4, 4, 8);
    SliceRight(BeBytes(height, 2), c, 2, 6);
  }

  /** The length field of a video record counts exactly the bytes after it,
      and the record reads back as a zero word, width, height and tag. */
  lemma VideoRecordFields(st: StreamParams, tags: TagTables)
    requires st.codecType == Video && tags.video(st.codecId) != 0
    ensures var rec := StreamRecord(st, tags).value;
      && Be(rec[4..8]) == |rec| - 8 && Be(rec[8..12]) == 0
      && Be(rec[12..14]) == Wrap(st.width, 2) && Be(rec[14..16]) == Wrap(st.height, 2)
      && Le(rec[16..20]) == Wrap(tags.video(st.codecId), 4)
  {
    var tag := tags.video(st.codecId);
    assert StreamRecord(st, tags).value == VideoRecord(st.width, st.height, tag);
    VideoRecordLayout(st.width, st.height, tag);
    BeRoundTrip(VID_BODY, 4);
    BeRoundTrip(VID_RESERVED, 4);
    BeRoundTrip(st.width, 2);
    BeRoundTrip(st.height, 2);
    LeRoundTrip(tag, 4);
  }

  /** The stream records written in order, stopping at the first stream whose
      codec has no tag: the bytes written and the status. */
  function StreamRecords(sts: seq<StreamParams>, tags: TagTables): (r: (seq<byte>, Status))
  {
    if sts == [] then ([], Success)
    else
      var prev := StreamRecords(sts[..|sts| - 1], tags);
      if prev.1.Failure? then prev
      else match StreamRecord(sts[|sts| - 1], tags)
        case Err(e) => (prev.0, Failure(e))
        case Ok(rec) => (prev.0 + rec, Success)
  }

  /** Every stream has a record: none is audio or video without a codec tag. */
  predicate AllRecorded(sts: seq<StreamParams>, tags: TagTables)
  {
    forall i :: 0 <= i < |sts| ==> StreamRecord(sts[i], tags).Ok?
  }

  /** The stream records succeed exactly when every stream has a record. */
  lemma {:induction false} StreamRecordsStatus(sts: seq<StreamParams>, tags: TagTables)
    ensures StreamRecords(sts, tags).1.Success? <==> AllRecorded(sts, tags)
    ensures StreamRecords(sts, tags).1.Failure? ==> StreamRecords(sts, tags).1.error == Inval
  {
    if sts != [] {
      StreamRecordsStatus(sts[..|sts| - 1], tags);
      AllRecordedSnoc(sts, tags);
    }
  }

  lemma AllRecordedSnoc(sts: seq<StreamParams>, tags: TagTables)
    requires sts != []
    ensures AllRecorded(sts, tags) <==> AllRecorded(sts[..|sts| - 1], tags) && StreamRecord(sts[|sts| - 1], tags).Ok?
  {
    var init := sts[..|sts| - 1];
    assert forall i :: 0 <= i < |init| ==> init[i] == sts[i];
  }

  /** One more stream with a record extends the records written so far. */
  lemma StreamRecordsStep(sts: seq<StreamParams>, tags: TagTables, n: nat)
    requires n < |sts| && StreamRecords(sts[..n], tags).1 == Success
    requires StreamRecord(sts[n], tags).Ok?
    ensures StreamRecords(sts[..n + 1], tags) ==
      (StreamRecords(sts[..n], tags).0 + StreamRecord(sts[n], tags).value, Success)
  {
    assert sts[..n + 1][..n] == sts[..n];
  }

  /** What smjpeg_write_header writes, and its status. */
  function HeaderBytes(md: seq<Entry>, sts: seq<StreamParams>, tags: TagTables): (r: (seq<byte>, Status))
  {
    if |sts| > MAX_STREAMS then ([], Failure(Inval))
    else
      var recs := StreamRecords(sts, tags);
      var body := Preamble() + TxtRecords(md) + recs.0;
      (if recs.1.Success? then body + HEND else body, recs.1)
  }

  /** A header begins with the magic and two zero words, the second being the
      duration slot at offset 12. A successful header ends with a HEND record;
      a failed one stops after the stream records, without it. It fails,
      having written nothing, for more than two streams, and otherwise exactly
      when an audio or video stream has no codec tag. */
  lemma HeaderLayout(md: seq<Entry>, sts: seq<StreamParams>, tags: TagTables)
    ensures var (h, st) := HeaderBytes(md, sts, tags);
      && (|sts| > MAX_STREAMS ==> h == [] && st == Failure(Inval))
      && (|sts| <= MAX_STREAMS ==>
            && |h| >= DURATION_OFFSET + 4
            && h[..8] == MAGIC
            && Be(h[8..DURATION_OFFSET]) == 0
            && Be(h[DURATION_OFFSET..DURATION_OFFSET + 4]) == 0
            && (st.Success? <==> AllRecorded(sts, tags))
            && (st.Success? ==> h == Preamble() + TxtRecords(md) + StreamRecords(sts, tags).0 + HEND)
            && (st.Success? ==> h[|h| - 4..] == HEND)
            && (st.Failure? ==> h == Preamble() + TxtRecords(md) + StreamRecords(sts, tags).0)
            && (st.Failure? ==> st.error == Inval))
  {
    if |sts| <= MAX_STREAMS {
      var (h, st) := HeaderBytes(md, sts, tags);
      var p := Preamble();
      assert h[..16] == p;
      assert p[..8] == MAGIC;
      assert h[8..12] == p[8..12] == BeBytes(0, 4);
      assert p[12..16] == BeBytes(0, 4);
      BeRoundTrip(0, 4);
      StreamRecordsStatus(sts, tags);
    }
  }

  /** The record a packet becomes: tag, pts, size and the data for audio and
      video streams; packets of other streams write nothing. */
  function PacketRecord(kind: MediaType, pkt: MuxPacket): (rec: seq<byte>)
    ensures kind == OtherMedia <==> rec == []
  {
    match kind
    case Audio => SNDD + BeBytes(pkt.pts, 4) + BeBytes(|pkt.data|, 4) + pkt.data
    case Video => VIDD + BeBytes(pkt.pts, 4) + BeBytes(|pkt.data|, 4) + pkt.data
    case OtherMedia => []
  }

  /** A packet record reads back as its pts (32-bit), its size and its data. */
  lemma PacketFields(kind: MediaType, pkt: MuxPacket)
    requires kind != OtherMedia && |pkt.data| < 0x1_0000_0000
    ensures var rec := PacketRecord(kind, pkt);
      && |rec| == 12 + |pkt.data|
      && rec[..4] == (if kind == Audio then SNDD else VIDD)
      && Be(rec[4..8]) == Wrap(pkt.pts, 4)
      && Be(rec[8..12]) == |pkt.data|
      && rec[12..] == pkt.data
  {
    var rec := PacketRecord(kind, pkt);
    var t, a, b := if kind == Audio then SNDD else VIDD, BeBytes(pkt.pts, 4), BeBytes(|pkt.data|, 4);
    assert rec == t + a + b + pkt.data;
    assert rec[..4] == t && rec[4..8] == a && rec[8..12] == b && rec[12..] == pkt.data;
    BeRoundTrip(pkt.pts, 4);
    BeRoundTrip(|pkt.data|, 4);
  }

  /** The muxer's running duration after a packet: the larger of the old value
      and the packet's end time, stored in 32 unsigned bits. */
  function NextDuration(d: nat, pts: int, duration: int): (r: nat)
    ensures r < 0x1_0000_0000
  {
    assert Pow256(4) == 0x1_0000_0000;
    Wrap(if d >= pts + duration then d else pts + duration, 4)
  }

  /** While packet end times fit in 32 bits the duration is their running
      maximum: it never decreases and covers the packet. */
  lemma DurationGrows(d: nat, pts: int, duration: int)
    requires d < 0x1_0000_0000 && pts + duration < 0x1_0000_0000
    ensures NextDuration(d, pts, duration) >= d
    ensures NextDuration(d, pts, duration) >= pts + duration
  {
    assert Pow256(4) == 0x1_0000_0000;
  }

  /** An end time past 2^32 ms wraps: the stored duration can drop. */
  lemma DurationWraps()
    ensures NextDuration(5, 0x1_0000_0000, 1) == 1
  {
    assert Pow256(4) == 0x1_0000_0000;
  }

  /** The duration after a run of packets with the given end times. */
  function FinalDuration(d: nat, ends: seq<int>): (r: nat)
  {
    if ends == [] then d else NextDuration(FinalDuration(d, ends[..|ends| - 1]), 0, ends[|ends| - 1])
  }

  /** Over a run of packets whose end times fit in 32 bits, the final duration
      is the maximum of the initial value and every end time. */
  lemma {:induction false} FinalDurationIsMax(d: nat, ends: seq<int>)
    requires d < 0x1_0000_0000
    requires forall i :: 0 <= i < |ends| ==> ends[i] < 0x1_0000_0000
    ensures FinalDuration(d, ends) >= d
    ensures forall i :: 0 <= i < |ends| ==> FinalDuration(d, ends) >= ends[i]
    ensures FinalDuration(d, ends) == d || exists i :: 0 <= i < |ends| && FinalDuration(d, ends) == ends[i]
  {
    if ends != [] {
      var init := ends[..|ends| - 1];
      FinalDurationIsMax(d, init);
      var prev := FinalDuration(d, init);
      assert prev < 0x1_0000_0000 by {
        if init != [] {
          assert prev == NextDuration(FinalDuration(d, init[..|init| - 1]), 0, init[|init| - 1]);
        }
      }
      DurationGrows(prev, 0, ends[|ends| - 1]);
      assert forall i :: 0 <= i < |init| ==> init[i] == ends[i];
      if FinalDuration(d, ends) != prev {
        assert FinalDuration(d, ends) == ends[|ends| - 1];
      }
    }
  }

  /** The muxer state: the output, the streams and the running duration
      (SMJPEGMuxContext.duration, a uint32_t). */
  class Muxer {
    const out: Writer
    const streams: seq<StreamParams>
    var duration: nat

    ghost predicate Valid()
      reads this, out
    {
      out.Valid() && duration < 0x1_0000_0000
    }

    constructor (out: Writer, streams: seq<StreamParams>)
      requires out.Valid()
      ensures Valid() && this.out == out && this.streams == streams && duration == 0
    {
      this.out := out;
      this.streams := streams;
      duration := 0;
    }

    /** smjpeg_write_header. */
    method WriteHeader(md: seq<Entry>, tags: TagTables) returns (st: Status)
      requires Valid()
      modifies out
      ensures Valid()
      ensures st == HeaderBytes(md, streams, tags).1
      ensures out.buf == Overwrite(old(out.buf), old(out.pos), HeaderBytes(md, streams, tags).0)
      ensures out.pos == old(out.pos) + |HeaderBytes(md, streams, tags).0|
    {
      if |streams| > MAX_STREAMS {
        return Failure(Inval);
      }
      ghost var s0, p0 := out.buf, out.pos;
      ghost var recs := StreamRecords(streams, tags);
      var pre := Preamble();
      out.Write(pre);
      ghost var done := pre;
      WriteTxtRecords(md);
      OverwriteConcat(s0, p0, done, TxtRecords(md));
      done := done + TxtRecords(md);
      st := WriteStreamRecords(tags);
      OverwriteConcat(s0, p0, done, recs.0);
      done := done + recs.0;
      if st.Success? {
        out.Write(HEND);
        OverwriteConcat(s0, p0, done, HEND);
        done := done + HEND;
      }
      assert HeaderBytes(md, streams, tags) == (done, st);
    }

    /** The metadata loop of smjpeg_write_header. */
    method WriteTxtRecords(md: seq<Entry>)
      requires Valid()
      modifies out
      ensures Valid()
      ensures out.buf == Overwrite(old(out.buf), old(out.pos), TxtRecords(md))
      ensures out.pos == old(out.pos) + |TxtRecords(md)|
    {
      ghost var s0, p0 := out.buf, out.pos;
      ghost var done: seq<byte> := [];
      var i := 0;
      while i < |md|
        invariant 0 <= i <= |md|
        invariant out.Valid() && p0 <= |s0|
        invariant done == TxtRecords(md[..i])
        invariant out.buf == Overwrite(s0, p0, done) && out.pos == p0 + |done|
      {
        var rec := TxtRecord(md[i]);
        out.Write(rec);
        OverwriteConcat(s0, p0, done, rec);
        assert md[..i + 1][..i] == md[..i];
        done := done + rec;
        i := i + 1;
      }
      assert md[..|md|] == md;
    }

    /** The stream loop of smjpeg_write_header: it stops at the first audio
        or video stream whose codec has no tag. */
    method WriteStreamRecords(tags: TagTables) returns (st: Status)
      requires Valid()
      modifies out
      ensures Valid()
      ensures st == StreamRecords(streams, tags).1
      ensures out.buf == Overwrite(old(out.buf), old(out.pos), StreamRecords(streams, tags).0)
      ensures out.pos == old(out.pos) + |StreamRecords(streams, tags).0|
    {
      ghost var s0, p0 := out.buf, out.pos;
      ghost var done: seq<byte> := [];
      var n := 0;
      var rec := if n < |streams| then StreamRecord(streams[n], tags) else Ok([]);
      while n < |streams| && rec.Ok?
        invariant 0 <= n <= |streams|
        invariant out.Valid() && p0 <= |s0|
        invariant rec == if n < |streams| then StreamRecord(streams[n], tags) else Ok([])
        invariant StreamRecords(streams[..n], tags) == (done, Success)
        invariant out.buf == Overwrite(s0, p0, done) && out.pos == p0 + |done|
      {
        out.Write(rec.value);
        OverwriteConcat(s0, p0, done, rec.value);
        StreamRecordsStep(streams, tags, n);
        done := done + rec.value;
        n := n + 1;
        rec := if n < |streams| then StreamRecord(streams[n], tags) else Ok([]);
      }
      if n < |streams| {
        StreamRecordsFailFrom(streams, tags, n + 1);
        return Failure(rec.error);
      }
      assert streams[..|streams|] == streams;
      st := Success;
    }

    /** smjpeg_write_packet: the record for the packet's stream, and for audio
        and video the running duration moves to the packet's end time. */
    method WritePacket(pkt: MuxPacket) returns (st: Status)
      requires Valid() && pkt.streamIndex < |streams|
      modifies this, out
      ensures Valid() && st == Success
      ensures out.buf == Overwrite(old(out.buf), old(out.pos), PacketRecord(streams[pkt.streamIndex].codecType, pkt))
      ensures out.pos == old(out.pos) + |PacketRecord(streams[pkt.streamIndex].codecType, pkt)|
      ensures duration == if streams[pkt.streamIndex].codecType == OtherMedia then old(duration)
                          else NextDuration(old(duration), pkt.pts, pkt.duration)
    {
      var kind := streams[pkt.streamIndex].codecType;
      if kind == OtherMedia {
        assert PacketRecord(kind, pkt) == [];
        assert Overwrite(out.buf, out.pos, []) == out.buf;
        return Success;
      }
      out.Write(PacketRecord(kind, pkt));
      duration := NextDuration(duration, pkt.pts, pkt.duration);
      st := Success;
    }

    /** smjpeg_write_trailer: on seekable output the duration goes into bytes
        12..15 and writing resumes where it stopped; then DONE. */
    method WriteTrailer() returns (st: Status)
      requires Valid() && DURATION_OFFSET <= |out.buf|
      modifies out
      ensures Valid() && st == Success
      ensures var patched := if out.seekable
                             then Overwrite(old(out.buf), DURATION_OFFSET, BeBytes(duration, 4))
                             else old(out.buf);
        old(out.pos) <= |patched| && out.buf == Overwrite(patched, old(out.pos), DONE)
      ensures out.pos == old(out.pos) + 4
      ensures old(out.pos) == |old(out.buf)| >= DURATION_OFFSET + 4 ==>
        && |out.buf| == |old(out.buf)| + 4
        && out.buf[..DURATION_OFFSET] == old(out.buf)[..DURATION_OFFSET]
        && out.buf[DURATION_OFFSET + 4..|old(out.buf)|] == old(out.buf)[DURATION_OFFSET + 4..]
        && out.buf[|old(out.buf)|..] == DONE
        && Be(out.buf[DURATION_OFFSET..DURATION_OFFSET + 4])
           == if out.seekable then duration else Be(old(out.buf)[DURATION_OFFSET..DURATION_OFFSET + 4])
    {
      if out.seekable {
        var current := out.Tell();
        out.Seek(DURATION_OFFSET);
        out.Write(BeBytes(duration, 4));
        out.Seek(current);
      }
      out.Write(DONE);
      st := Success;
      assert Pow256(4) == 0x1_0000_0000;
      BeRoundTrip(duration, 4);
      if old(out.pos) == |old(out.buf)| >= DURATION_OFFSET + 4 {
        if out.seekable {
          assert out.buf[DURATION_OFFSET..DURATION_OFFSET + 4] == BeBytes(duration, 4);
        } else {
          assert out.buf[DURATION_OFFSET..DURATION_OFFSET + 4] == old(out.buf)[DURATION_OFFSET..DURATION_OFFSET + 4];
        }
      }
    }
  }

  /** Once a stream without a record is met, the header fails there. */
  lemma StreamRecordsFailFrom(sts: seq<StreamParams>, tags: TagTables, k: nat)
    requires 0 < k <= |sts|
    requires StreamRecords(sts[..k - 1], tags).1 == Success
    requires StreamRecord(sts[k - 1], tags).Err?
    ensures StreamRecords(sts, tags).1 == Failure(Inval)
    ensures StreamRecords(sts, tags).0 == StreamRecords(sts[..k - 1], tags).0
    decreases |sts| - k
  {
    if k < |sts| {
      var init := sts[..|sts| - 1];
      assert init[..k - 1] == sts[..k - 1];
      assert init[k - 1] == sts[k - 1];
      StreamRecordsFailFrom(init, tags, k);
    } else {
      assert sts[..k - 1] == sts[..|sts| - 1];
    }
  }
}
