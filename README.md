# Four FFmpeg container modules in Dafny

This project models four small parts of FFmpeg's libavformat and proves
properties of them:

- **VOC packet reader** (`ff_voc_get_packet`). It reads the block structure of a
  Creative Voice file and cuts audio packets out of it: type byte,
  24-bit length, voice-data / continuation / extended / new-voice-data /
  terminator blocks. On the way it sets the stream's sample rate, channel
  count, bits per sample, codec and bit rate, and it advances the packet
  timestamp.
- **3DO STR demuxer** (`threedostr_probe`, `threedostr_read_header`,
  `threedostr_read_packet`). It walks the chunks (`CTRL`, `SHDR`, `SNDS`). The
  header walk finds the first `SNDS`/`SHDR` sound header. The packet walk
  returns the payload of each `SNDS`/`SSMP` chunk.
- **SMJPEG muxer** (`smjpeg_write_header`, `smjpeg_write_packet`,
  `smjpeg_write_trailer`). The header holds the magic, a zero word, a duration slot, one
  `_TXT` record per metadata entry, one `_SND`/`_VID` record per stream and
  `HEND`. Each packet becomes a `sndD`/`vidD` record. The trailer patches the
  duration slot on seekable output and writes `DONE`.
- **RSO muxer** (`rso_write_header`, `rso_write_packet`, `rso_write_trailer`).
  It writes an 8-byte big-endian header, then the raw samples. The trailer
  patches the data size, saturated at 0xffff.

Files:

- `bytes.dfy` (module `Bytes`) holds the byte-level vocabulary shared by all
  four:
  - little- and big-endian fields, and their round trips modulo the field width;
  - zero-padded reads past the end of input;
  - overwrites at a seek position.
- `avio.dfy` (module `AvIo`) models the I/O context:
  - a `Reader` whose cursor stops at the end of input;
  - a `Writer` over a growable buffer with `Seek` and `Tell`;
  - the error codes and codec identifiers the modules use.

Each module is written in the source's own form:

- The VOC and 3DO demuxers and the SMJPEG muxer keep state between calls, so
  each is a class over a `Reader` or `Writer`. The RSO muxer keeps no state
  of its own, so its three callbacks are methods over a `Writer`. The methods
  run the source's loops, and each method is proved equal to a function over
  the input bytes: `ScanBlocks`/`Demux`, `HeaderWalk`, `PacketWalk`,
  `HeaderBytes`, `StreamRecords`, `PacketRecord`.
- The properties of the format are lemmas about those functions.

## Model

| member | source | states |
|---|---|---|
| Bytes.LeRoundTrip | libavformat/smjpegenc.c:72 | a little-endian n-byte field reads back as the value truncated to n bytes (the `avio_wl32` of the codec tag) |
| Bytes.BeRoundTrip | libavformat/rsoenc.c:58-61 | a big-endian n-byte field reads back as the value truncated to n bytes (the `avio_wb16`/`avio_wb32` stores) |
| Bytes.Int32 | libavformat/3dostr.c:65-67 | an unsigned 32-bit read stored into a C `int` is negative exactly when its top bit is set, and wraps back to the same field |
| Bytes.Window | libavformat/3dostr.c:41-42 | a fixed-width read yields exactly n bytes: each is the input byte at that offset, or zero past the end of the input |
| Bytes.OverwriteConcat | libavformat/rsoenc.c:58-61 | consecutive writes at the cursor equal one write of their concatenation |
| Rso.HeaderCheck | libavformat/rsoenc.c:33-55 | `InvalidData` exactly when the codec tag is missing, the stream is not mono, the output cannot seek or the rate is outside [0, 65536) (the unsigned compare also rejects negative rates); `PatchWelcome` exactly when all checks pass and the codec is IMA ADPCM WAV |
| Rso.HeaderFields | libavformat/rsoenc.c:57-61 | the header reads back as codec tag, zero data size, sample rate and play mode 0, each a big-endian 16-bit field |
| Rso.WriteHeader | libavformat/rsoenc.c:28-66 | the status is the header check; nothing is written on failure; on success exactly the 8 header bytes are written at the cursor |
| Rso.WritePacket | libavformat/rsoenc.c:68-72 | the packet's bytes are written at the cursor and nothing else changes |
| Rso.CodedSize | libavformat/rsoenc.c:85-91 | the stored size fits 16 bits; it is the bytes after the header when they fit, 0xffff when there are more, and the 16-bit wrap of a negative count for a file shorter than the header |
| Rso.TrailerReturn | libavformat/rsoenc.c:80-98 | a negative `avio_tell` is returned unchanged and anything else gives 0 |
| Rso.WriteTrailer | libavformat/rsoenc.c:74-99 | bytes 2..3 hold the coded size, big-endian; every other byte is kept; the cursor returns to where writing stopped; the result is 0 |
| Rso.FileSizeField | libavformat/rsoenc.c:28-99 | for a whole file (header, payload, trailer) the data-size field reads back as the payload length saturated at 0xffff; the header's other fields and the payload are intact |
| Smjpeg.TxtRecordParses | libavformat/smjpegenc.c:50-56 | one `_TXT` record, whose length counts the `key = value` text after it, reads back as that text |
| Smjpeg.ParseTxtAppend | libavformat/smjpegenc.c:50-56 | reading concatenated runs of `_TXT` records gives the concatenated texts |
| Smjpeg.TxtRoundTrip | libavformat/smjpegenc.c:50-56 | the metadata records of the header read back as every entry's `key = value` text, in order |
| Smjpeg.StreamRecord | libavformat/smjpegenc.c:58-88 | an audio or video stream without a codec tag is `EINVAL`; other media write nothing; audio gives a 16-byte `_SND` record and video a 20-byte `_VID` record |
| Smjpeg.AudioRecordFields | libavformat/smjpegenc.c:61-73 | the length field counts the 8 bytes after it; rate (16 bits), bits, channels (8 bits each) and the little-endian codec tag read back truncated to their widths |
| Smjpeg.VideoRecordFields | libavformat/smjpegenc.c:74-87 | the length field counts the 12 bytes after it; the reserved word after it is zero; width and height (16 bits each) and the little-endian codec tag read back truncated to their widths |
| Smjpeg.StreamRecordsStatus | libavformat/smjpegenc.c:58-88 | the stream loop succeeds exactly when every stream has a record; otherwise it fails with `EINVAL` |
| Smjpeg.StreamRecordsFailFrom | libavformat/smjpegenc.c:58-88 | the loop stops at the first stream without a codec tag: later streams write nothing and the header fails |
| Smjpeg.HeaderLayout | libavformat/smjpegenc.c:35-94 | more than two streams fail with `EINVAL` before anything is written; otherwise the header starts with the magic and two zero words, the second being the duration slot at offset 12; it fails with `EINVAL` exactly when a stream lacks its codec tag; a successful header is the preamble, the `_TXT` records, the stream records and `HEND`, and a failed one is the same without `HEND` |
| Smjpeg.Muxer.WriteHeader | libavformat/smjpegenc.c:35-94 | writes exactly the header bytes at the cursor and returns their status |
| Smjpeg.Muxer.WriteTxtRecords | libavformat/smjpegenc.c:50-56 | the loop writes the `_TXT` records of all entries, in order |
| Smjpeg.Muxer.WriteStreamRecords | libavformat/smjpegenc.c:58-88 | the loop writes the records of the streams up to the first failure and returns the status |
| Smjpeg.PacketRecord | libavformat/smjpegenc.c:100-112 | a packet of other media writes nothing; audio and video packets give a non-empty record |
| Smjpeg.PacketFields | libavformat/smjpegenc.c:103-112 | a packet record reads back as the `sndD`/`vidD` tag, the pts as a 32-bit field, the size and the data |
| Smjpeg.Muxer.WritePacket | libavformat/smjpegenc.c:96-116 | the record is written at the cursor; the running duration moves for audio and video packets only |
| Smjpeg.DurationGrows | libavformat/smjpegenc.c:114 | while end times fit 32 bits, the running duration never falls and covers the packet's end time |
| Smjpeg.DurationWraps | libavformat/smjpegenc.c:31-33 | an end time past 2^32 ms wraps in the `uint32_t` field, so the duration can fall |
| Smjpeg.FinalDurationIsMax | libavformat/smjpegenc.c:114 | over packets whose end times fit 32 bits, the final duration is the largest end time (or the start value) |
| Smjpeg.Muxer.WriteTrailer | libavformat/smjpegenc.c:118-134 | on seekable output bytes 12..15 hold the duration, big-endian; `DONE` is appended at the cursor; the other bytes are kept |
| ThreeDoStr.Probe | libavformat/3dostr.c:25-33 | the score is 2/3 of the maximum exactly when the first tag is `CTRL`, `SHDR` or `SNDS`, and 0 otherwise |
| ThreeDoStr.DurationFormula | libavformat/3dostr.c:71-74 | with `ctrl_size` 20, 3 or unset the duration is (count - 1) / channels, where a zero count wraps to 2^32 - 1 before the division; otherwise it is count * 16 / channels while the product fits 32 bits, and 0 when it wraps to exactly 2^32 |
| ThreeDoStr.SndsHeader | libavformat/3dostr.c:55-74 | invalid data exactly when the `SHDR` sub-tag is missing or the signed channel count is not positive; otherwise the rate, channels and codec are the words at payload offsets 36, 40 and 44, and the duration is computed from the frame count at offset 52 and the current `ctrl_size` |
| ThreeDoStr.HeaderChunk | libavformat/3dostr.c:41-93 | a chunk fails exactly when its size is below 8, or when it is `SNDS` with too short a payload or a bad sound header; otherwise the walk moves to the end of the chunk; only `SNDS` ends the walk, with its sound header; a `CTRL` chunk sets `ctrl_size` to its payload size, a long `SHDR` chunk with a `CTRL` word and room after it sets it to the next big-endian word, and other chunks keep it |
| ThreeDoStr.HeaderWalk | libavformat/3dostr.c:35-109 | `PatchWelcome` at the end of the input; invalid data at a failing chunk; at an `SNDS` chunk, success exactly when its codec is SDX2, with the stream given in full (rate, channels, SDX2, block align equal to the channel count, duration) and the cursor after the chunk, and `PatchWelcome` otherwise |
| ThreeDoStr.HeaderWalkRun | libavformat/3dostr.c:40-94 | chunks that the walk passes over (`CTRL`, `SHDR`, unknown) decide nothing: the walk gives what the walk from the chunk after them gives, with the `ctrl_size` they handed on |
| ThreeDoStr.HeaderWalkStops | libavformat/3dostr.c:40-104 | every header walk passes over a run of chunks and its result is the one decided at the end of the input or at the first chunk that fails or is `SNDS` |
| ThreeDoStr.HeaderSkipsChunk | libavformat/3dostr.c:40-93 | a chunk of unknown type is skipped whole with ctrl_size unchanged; a `CTRL` chunk is skipped whole and sets ctrl_size to its payload size |
| ThreeDoStr.HeaderStopsAtSnds | libavformat/3dostr.c:40-77 | the header walk reads nothing after the first `SNDS` chunk |
| ThreeDoStr.Demuxer.ReadHeader | libavformat/3dostr.c:35-109 | the header loop computes the header walk: the stream and the cursor after its `SNDS` chunk on success; on error the model keeps the stream unchanged (the difference from the source is under Left out) |
| ThreeDoStr.Demuxer.ReadHeaderChunk | libavformat/3dostr.c:41-93 | one loop pass computes one header step and leaves the cursor at the next chunk |
| ThreeDoStr.Demuxer.ReadShdrChunk | libavformat/3dostr.c:78-87 | a long `SHDR` chunk with a `CTRL` word and room after it sets `ctrl_size`; the cursor ends at the chunk's end |
| ThreeDoStr.Demuxer.ReadSoundHeader | libavformat/3dostr.c:55-74 | reads the sound header the function describes |
| ThreeDoStr.PacketChunk | libavformat/3dostr.c:122-154 | a zero size skips the 8-byte header only; a size below 8, a payload of 16 bytes or less, or a missing `SSMP` is invalid data; only `SNDS` yields a packet |
| ThreeDoStr.PacketWalk | libavformat/3dostr.c:111-158 | end of file at the end of the input; at a failing chunk, its error; at an `SNDS` chunk, that chunk's packet and the offset after it; the packet holds the bytes after the chunk's 24 header bytes up to the next chunk |
| ThreeDoStr.PacketWalkRun | libavformat/3dostr.c:118-155 | chunks the packet loop skips decide nothing: the walk gives what the walk from the first chunk after them gives |
| ThreeDoStr.PacketLength | libavformat/3dostr.c:134-148 | a packet whose chunk lies inside the input holds the chunk's size less its 8-byte header and 16-byte sub-header, and its duration is that size divided by the channel count |
| ThreeDoStr.PacketSkipsChunk | libavformat/3dostr.c:123-154 | zero-size chunks and chunks other than `SNDS` produce no packet |
| ThreeDoStr.Demuxer.ReadPacket | libavformat/3dostr.c:111-158 | the packet loop computes the packet walk |
| ThreeDoStr.Demuxer.ReadPacketChunk | libavformat/3dostr.c:122-154 | one loop pass computes one packet step and leaves the cursor at the next chunk |
| ThreeDoStr.Demuxer.ReadSamples | libavformat/3dostr.c:134-148 | fails exactly when the `SSMP` sub-tag is missing; otherwise the packet holds the sample bytes |
| Voc.VoiceDataRate | libavformat/voc_packet.c:61 | the rate from a time-constant byte is between 3906 and 1000000 Hz |
| Voc.ExtendedRate | libavformat/voc_packet.c:82 | the rate from an extended block's 16-bit time constant and channel count is between 15 and 256000000 Hz, so positive |
| Voc.Block | libavformat/voc_packet.c:47-106 | end of file exactly for a terminator type byte; an I/O error exactly for a zero length on unseekable input; a failing block leaves the state as it was; a successful block moves the cursor forward and never past the end of the input |
| Voc.EofBlock | libavformat/voc_packet.c:47-49 | a terminator block ends the call with end of file after one byte and changes nothing |
| Voc.ZeroLengthBlock | libavformat/voc_packet.c:50-55 | a zero length is an I/O error on unseekable input; on seekable input the block runs to the end of the input |
| Voc.BlockAccounting | libavformat/voc_packet.c:56-105 | for each block kind: how far the cursor moves, what is left of the block and what the packet limit loses |
| Voc.ScanKeepsParams | libavformat/voc_packet.c:46-107 | once the sample rate is set, the block loop does not change the stream parameters |
| Voc.ParamsWrittenOnce | libavformat/voc_packet.c:59-117 | once the sample rate is set, a call keeps rate, channels and bits per sample, and a codec that is already set |
| Voc.VoiceDataSetsRate | libavformat/voc_packet.c:59-67 | the first voice-data block sets a positive rate: the extended block's override or the rate of its time-constant byte |
| Voc.ExtendedThenVoice | libavformat/voc_packet.c:59-85 | an extended block followed by voice data gives that data the extended rate and channel count, and the channel override is reset to 1 |
| Voc.ResolveCodec | libavformat/voc_packet.c:114-127 | no tag keeps the codec; a codec already set is kept (mid-stream change ignored); with no codec set, the tag's codec is taken, and it is `EINVAL` exactly when both the tag's codec and the user's codec are unknown |
| Voc.PacketSize | libavformat/voc_packet.c:131-134 | the packet size is the bytes left in the block, capped by the limit, or by 2048 when the limit is used up |
| Voc.NextPts | libavformat/voc_packet.c:139-143 | the timestamp stays known exactly when it was known and the duration is positive, and it then grows by the duration |
| Voc.GetPacketOutcome | libavformat/voc_packet.c:26-146 | the error cases in both directions (terminator or zero length, rate not positive, unknown codec), none of which moves the timestamp; on success the bit rate is rate × channels × bits, the bytes left stay non-negative, the packet is the bytes at the cursor and carries the old timestamp, and the timestamp then moves on by the packet's duration |
| Voc.PtsStaysLost | libavformat/voc_packet.c:139-143 | an unknown timestamp stays unknown whatever later packets hold |
| Voc.PtsKnown | libavformat/voc_packet.c:139-143 | a known timestamp stays known exactly while every packet duration is positive |
| Voc.Demuxer.GetPacket | libavformat/voc_packet.c:26-146 | the call's new state, cursor and result are exactly those of the packet function on the input |
| Voc.Demuxer.ReadBlocks | libavformat/voc_packet.c:46-107 | the block loop computes the block scan |
| Voc.Demuxer.ReadBlock | libavformat/voc_packet.c:47-106 | one loop pass computes one block step |
| Voc.Demuxer.ReadVoiceData | libavformat/voc_packet.c:59-73 | reads a voice-data header as the function describes |
| Voc.Demuxer.ReadExtended | libavformat/voc_packet.c:78-85 | reads an extended block as the function describes |
| Voc.Demuxer.ReadNewVoiceData | libavformat/voc_packet.c:87-99 | reads a new-voice-data header as the function describes |
| Voc.Demuxer.Emit | libavformat/voc_packet.c:109-145 | the checks after the loop and the packet cut, as the function describes |
| Voc.Demuxer.CutPacket | libavformat/voc_packet.c:129-143 | cuts the packet and moves the timestamp as the function describes |

## Left out

- `av_add_index_entry` (VOC, lines 39-44) is not modelled: the seek index is not part of the packet stream.
- `avpriv_set_pts_info`, `avio_flush`, logging and warnings are not modelled: they change no modelled state.
- `ff_standardize_creation_time` is not modelled: the metadata handed to the SMJPEG header is taken as already standardized.
- `avformat_new_stream` failing with `ENOMEM` (3DO header) is not modelled: allocation is not modelled.
- Codec tag tables, `av_get_bits_per_sample` and `av_get_audio_frame_duration2` are parameters (`Env` for VOC, `TagTables` for SMJPEG, a codec tag in the RSO stream parameters): the tables live in other files.
- `avio_feof` is modelled as "cursor at the end of input". FFmpeg's flag is set only when a read runs past the end, and a seek clears it. So the two differ when the last chunk ends exactly at the end of the input.
- ThreeDoStr.HeaderWalk: when no `SNDS` chunk appears and the chunks end exactly at the end of the input, FFmpeg's `threedostr_read_header` reads one more all-zero chunk header and returns `AVERROR_INVALIDDATA` (size 0 < 8). The model stops there and returns `PatchWelcome`.
- ThreeDoStr.PacketWalk: at the same boundary FFmpeg reads a zero-size header, skips it and then stops with end of file. The model stops with end of file at once. Only the reader position differs.
- `av_get_packet` short reads and errors: the packet holds whatever bytes are left before the end of input, and a size of zero or less reads nothing. Its negative return codes are not modelled.
- Reader position after an error return is left as the model's reads leave it; callers do not rely on it.
- Voc.Demuxer.GetPacket: the packet's stream index and duration are left at 0.
- Voc.GetPacketOutcome: the bit rate is computed on unbounded integers. The `int64_t` product does not overflow in the source: the rate is at most 2^31, the channel count is byte-sized (at most 256), and bits per sample is a byte or a small codec constant.
- Voc.Demuxer.GetPacket: the packet limit `max_size` is a C `int` in the source, but the model treats it as unbounded. Each block header takes 4 to 16 bytes from the limit, and each skipped block of unknown type takes its whole length. Once one call has skipped about 2^31 bytes this way, the source's limit wraps around:
  - this happens with many blocks of at most 2^24 - 1 bytes each, on any input, or with one zero-length block on seekable input;
  - after the wrap, the source's limit can be positive, and it then cuts a packet as large as the bytes left in the block (up to that limit);
  - the model's limit stays negative, so it cuts at most 2048 bytes.
  The packet size never exceeds the limit, so it needs no truncation of its own.
- ThreeDoStr.Demuxer.ReadHeader: the source creates the stream (3dostr.c:60) before two of its error returns: channels not positive (3dostr.c:67-68) and a codec other than SDX2 (3dostr.c:101-103). The model leaves the stream unchanged on every error. A caller cannot see the difference, because a failed header read discards the whole context.
- Rso.TrailerReturn: the model's cursor is never negative, so the negative-`avio_tell` path is proved of the function but cannot be reached through Rso.WriteTrailer.

The VOC model follows the code in these places:

- A tag that maps to no codec only draws a warning when the user forced a codec; the codec is left unset, not replaced by the forced one.
- After a voice-data block only the channel override goes back to 1; the rate announced by an extended block stays in force for later voice-data blocks in the same call.
- An extended block consumes its 4 header bytes whatever its length and leaves nothing of it.
- A voice-data or new-voice-data block shorter than its own header leaves a negative byte count. The packet then reads nothing and the count goes back to zero.
