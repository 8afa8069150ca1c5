# livedl, modelled and proved

livedl records live streams. This project models the parts of it that carry the difficult obligations and proves, with
Dafny 4.11, what they promise: the RTMP receiver that turns a chunk stream into an FLV file, the HLS recorder that polls a
playlist from several goroutines, and three smaller algorithms around them (conversion into files, the AMF 3 integer codec,
the concurrent range downloader).

`dafny verify dfyconfig.toml` checks everything.

## How it is built

| module | source | content |
|---|---|---|
| `Options`, `Bytes`, `AmfValues` | - | optional values; bytes, integers as bytes, reader and buffer objects; the values of AMF |
| `Amf3` | `src/amf/amf3/amf3.go` | variable length integers, strings, the tail of a command |
| `Amf0`, `Amf0Codec` | `src/amf/amf0/amf0.go`, `src/amf/amf.go` | what decoding means and which bytes an encoder may produce; the codec itself |
| `Chunk`, `ChunkStream`, `ChunkCodec` | `src/rtmps/message.go` | receiving as a function of the bytes; sending and the round trips; the message object and its readers |
| `Reception` | `src/rtmps/message.go` | what every kind of message is received as, under any permitted header |
| `Flv`, `FlvFile` | `src/flvs/flv.go` | tags, the backward scan and what it finds; the writer with its file and cursor |
| `Commands` | `src/rtmps/rtmp.go` | sending commands |
| `Tracks`, `Session`, `Rtmp` | `src/rtmps/rtmp.go` | what a run leaves in the file and counts; what messages mean and how they follow one another; the connection object |
| `Answers` | `src/rtmps/rtmp.go` | what statuses, answers, settings and commands mean, said of the values that carry them |
| `Recorded`, `Recording` | `src/rtmps/rtmp.go` | what the file holds, said of the events alone; from the bytes sent to the file |
| `Formats` | `src/amf`, `src/rtmps/message.go`, `src/flvs/flv.go` | the layouts on the wire, byte by byte |
| `Gorman` | `src/gorman/gorman.go` | the goroutine manager and all interleavings of its micro-steps |
| `Quiescence`, `Restart`, `RestartAsked` | `src/niconico/nico_hls.go` | the end of `Wait`; the return code handler and what it never does; what it brings about |
| `MemDb`, `Playlist` | `src/niconico/nico_mem_db.go`, `src/niconico/nico_hls.go` | the index in memory; one poll |
| `Polls`, `Gaps` | `src/niconico/nico_hls.go` | what a poll asks for, leaves in the index and spares the next one; what all polls of a recording miss |
| `Quality` | `src/niconico/nico_hls.go` | the choice of a variant and the ladder after server errors |
| `MediaDb`, `Stored` | `src/niconico/nico_db.go` | the media table and its queue of writes; what ends up in it |
| `Segments` | `src/zip2mp4/zip2mp4.go`, `src/livedl.go` | one output file per unbroken stretch |
| `RangeDownload` | `src/httpsub/httpsub.go` | ranges written piecewise by several goroutines |

Code that changes state is modelled by classes and methods with loops. Each method is proved against a function of its inputs or
of the old state, and the laws are proved about that function. A parser is a function from the bytes left to a value and the bytes
that remain, an error, or `Fatal`, which stands for `log.Fatal`. A Go map is enumerated in any order, so AMF encoding is a relation
between values and byte strings. Goroutines are state machines: a run is any sequence of enabled steps, each step one access to
shared state.

## Where the code differs from its documentation

The model follows the code.

- AMF 3 U29 integers of four bytes: the encoder takes the third group from bit 7 on, section 1.3.1 of Adobe AMF 3 and the
  decoder put it at bit 8. `Amf3.U29RoundTrip` says exactly which numbers survive.
- Three byte chunk basic headers: 64 is subtracted from the low byte alone, where section 5.3.1.1 of RTMP 1.0 takes it from the whole
  id. `Chunk.BasicRoundTrip` says exactly which ids survive, and `Chunk.HeaderRoundTrip` that the same ones are read right from a peer
  that follows the standard.
- A message that starts with a type 3 header after an extended timestamp: section 5.3.1.3 of RTMP 1.0 repeats the delta, the code
  takes it as absolute. `ChunkStream.Type3AfterExtended` says when that is right.
- An AMF encoding error of a command is overwritten by the next call, and a command without a body is sent. `Commands.Command` says
  exactly when, `Commands.LongArgument` shows it.
- A status command without an argument is indexed out of range and ends the process. `Session.StoppedByStatus` says that nothing else
  does, `Rtmp.BareStatus` that it can be received.
- A changed format of the chunk addresses switches the back-fill off for as long as the playlist goroutine lives
  (`Gaps.EveryPollWithoutBackFill`, `Gaps.FormatChangeLosesChunks`).
- The scan of a reopened file overwrites a track's timestamp each time it meets the track, so the track is taken up again at an earlier tag.
  `Tracks.GoesOnExactly` says exactly when its timestamps still increase.
- An error of the master playlist makes the recorder forget its lowered limit (`Quality.MasterErrorForgets`, `Quality.OnlyMasterErrors`).
- A listed bandwidth of 0 is taken for "nothing chosen yet". `Quality.ChosenRight` says exactly when the choice is still right.
- Lowering the limit below a bandwidth of 1 removes it. `Quality.OnlySinking` and `Quality.SinksPlainly` say exactly for which variants
  lowerings decrease.
- A download whose size is a multiple of the range size asks for one range too many and is refused
  (`RangeDownload.FinishedIsRemote`, `RangeDownload.EndsWhole`).

## Model

| member | source | states |
|---|---|---|
| Amf3.U29RoundTrip | src/amf/amf3/amf3.go:10-62 | every encoded U29 is read to its end and gives its number back if and only if it has at most 21 bits, or fits 29 bits with bits 7 to 14 all equal |
| Amf3.U29Loses | src/amf/amf3/amf3.go:164-176 | a concrete number that comes back as another one |
| Amf3.DecodeU29 | src/amf/amf3/amf3.go:10-38 | the loop, on any bytes, leaves the reader and the bits read where the functional decoder does, also when it runs out of bytes |
| Amf3.EncodeU28Flag | src/amf/amf3/amf3.go:142-190 | appends the U29 of twice the number plus one, or fails above 30 bits and appends nothing |
| Amf3.DecodeOne | src/amf/amf3/amf3.go:81-127 | on any bytes the recursive loop ends and yields the parse of a string or of the associative part of an array |
| Amf3.DecodeAll | src/amf/amf3/amf3.go:129-139 | reads all values up to the end of the bytes |
| Amf3.EncodeString | src/amf/amf3/amf3.go:221-234 | marker, length and bytes are appended, unless the length does not fit |
| Amf3.EncodeAll | src/amf/amf3/amf3.go:236-256 | the encoding of a list of strings, its error, or the fatal stop at anything else |
| Amf3.StringsRoundTrip | src/amf/amf3/amf3.go:129-256 | a list of strings decodes back to itself when every length survives |
| Amf3.ShortStringsKept | src/amf/amf3/amf3.go:221-234 | every length below 2^20 survives |
| Formats.Amf3Layout | src/amf/amf3/amf3.go:41-127 | numbers of one to three bytes are read seven bits a byte, highest first, and a short string from its marker, flagged length and bytes |
| Formats.Amf3Assoc | src/amf/amf3/amf3.go:64-105 | each pair of an array of short strings is kept under its key, up to the empty key |
| Amf0.RoundTrip | src/amf/amf0/amf0.go:117-149 | whatever order maps were enumerated in and however they are written, a value decodes to its normal form and decoding stops where the encoding ends |
| Amf0.MapRoundTrip | src/amf/amf0/amf0.go:68-116 | the same for a map written as an object or as an ECMA array |
| Amf0.EntriesRoundTrip | src/amf/amf0/amf0.go:212-237 | the entries of a map, in any order, are all collected, none twice, up to the object end |
| Amf0.AllRoundTrip | src/amf/amf0/amf0.go:151-171 | a list of values with an optional AMF 3 tail decodes to the normal forms followed by the strings of the tail |
| Amf0.StrictArrayRead | src/amf/amf0/amf0.go:249-264 | a strict array of encoded items, which the source never writes, is read as the list of their normal forms, and what follows is left |
| Amf0.ItemsRoundTrip | src/amf/amf0/amf0.go:255-262 | the counted loop reads that many items in order, whatever was read before |
| Amf0.NoPrefixDecodes | src/amf/amf0/amf0.go:266-302 | no strict prefix of an encoded value decodes |
| Amf0.EmptyKeyIsFatal | src/amf/amf0/amf0.go:226-233 | an entry with an empty key ends the process that reads it |
| Amf0.DecodesExactly | src/amf/amf0/amf0.go:117-302 | so a value without nested switch markers comes back as its normal form if it has no empty key anywhere in it, and otherwise each of its encodings ends the process that reads it |
| Amf0.UncleanIsFatal | src/amf/amf0/amf0.go:212-237 | the second half, however deep the empty key is and whatever order maps were enumerated in |
| Amf0.IndexedKeys | src/amf/amf0/amf0.go:133-139 | the map a list is written as has exactly the decimal indices as keys, one for every item |
| Amf0.IndexedAt | src/amf/amf0/amf0.go:135-138 | every item stands under its own index |
| Amf0.DecodedOne | src/amf/amf0/amf0.go:266-302 | decoding uses up at least one byte, so it ends on every byte string |
| Formats.Amf0Scalars | src/amf/amf0/amf0.go:175-302 | numbers, booleans, strings, null, undefined and the object end are read from the bytes that section 2 of Adobe AMF 0 gives them |
| Formats.Amf0Objects | src/amf/amf0/amf0.go:212-248 | an object, and an ECMA array whatever it counts, is read from key length, key and value up to the object end |
| Formats.Amf0Counts | src/amf/amf0/amf0.go:93-116 | an encoded ECMA array, and every list, announces as many entries as it has; an object announces none |
| Formats.Amf0Unknown | src/amf/amf0/amf0.go:266-302 | a marker the decoder does not know is an error |
| Amf0Codec.DecodeObject | src/amf/amf0/amf0.go:212-237 | the loop that grows a map ends on any bytes and yields the parse of the object |
| Amf0Codec.DecodeStrictArray | src/amf/amf0/amf0.go:249-264 | the counted loop yields the list of the announced length or the first error |
| Amf0Codec.DecodeOne | src/amf/amf0/amf0.go:266-302 | the recursive decoder on any bytes: value, error or fatal stop, and where the reader stands |
| Amf0Codec.DecodeAll | src/amf/amf0/amf0.go:304-319 | all values up to the end, an AMF 3 tail spliced in |
| Amf0Codec.DecodeAmf0 | src/amf/amf.go:26-48 | with a padding hint one byte is skipped, and everything is read again from the start if that fails |
| Amf0Codec.EncodeUtf8 | src/amf/amf0/amf0.go:44-60 | succeeds exactly up to 65535 bytes |
| Amf0Codec.EncodeEntries | src/amf/amf0/amf0.go:73-84 | whichever key is picked next, the loop appends an encoding of all entries; it succeeds exactly when every key and value can be encoded |
| Amf0Codec.EncodeMap | src/amf/amf0/amf0.go:93-116 | header, entries and object end make up an encoding of the map |
| Amf0Codec.ListToMap | src/amf/amf0/amf0.go:133-139 | the loop builds the map from decimal indices to items |
| Amf0Codec.Encode | src/amf/amf0/amf0.go:117-149 | succeeds exactly on encodable values, appending one of the encodings of the value; an error blames a string, the fatal stop an unknown kind |
| Amf0Codec.EncodeAll | src/amf/amf0/amf0.go:151-171 | succeeds exactly on lists that can be encoded, with one of their encodings; otherwise it fails only where a string is too long and stops the process only at a value of unknown kind |
| Chunk.BasicRoundTrip | src/rtmps/message.go:68-89 | what every chunk stream id from 2 to 65599 is read back as, and that it is itself if and only if it is below 320, or its low byte is at least 64, or its high part is odd |
| Chunk.HeaderRoundTrip | src/rtmps/message.go:211-246 | ids written as RTMP 1.0 prescribes, short or long, are read right under the very same condition |
| Chunk.SizeIsConsumed | src/rtmps/message.go:653-680 | the reported size is the number of bytes consumed exactly when the body has the announced length, which continuation headers of type 3 guarantee for any format, extended timestamp and chunk count |
| Chunk.Independence | src/rtmps/message.go:588-649 | a message depends on nothing remembered of other chunk streams and changes nothing of them |
| Chunk.DecodedOne | src/rtmps/message.go:580-729 | a received message uses up bytes, and media comes only from audio and video messages |
| ChunkStream.BodyReceived | src/rtmps/message.go:656-676 | a body cut into any number of chunks is put together again, and decoding stops where the chunks end |
| ChunkStream.MessageReceived | src/rtmps/message.go:580-676 | one message under any permitted header type and chunk size comes back with absolute timestamp, type, stream id and body, and the receiver remembers what the sender does |
| ChunkStream.RunReceived | src/rtmps/message.go:397-676 | header compression loses nothing over whole runs of messages on any mix of chunk streams, from this code's own sender or one that follows RTMP 1.0, also when messages on the way change the chunk size |
| ChunkStream.Type3AfterExtended | src/rtmps/message.go:602-618 | a message that starts with type 3 after an extended timestamp gets its delta as absolute time, which is right if and only if the message before was at time zero |
| ChunkStream.CommandReceived | src/rtmps/message.go:177-209 | an AMF 0 command is received as its normal form, whatever the chunk size, and exactly the bytes behind it are left |
| ChunkStream.WindowAckReceived | src/rtmps/message.go:130-138 | an announced window size is received up to 32 bits, with what follows left |
| ChunkStream.PeerBandwidthReceived | src/rtmps/message.go:139-148 | likewise a peer bandwidth and its limit type |
| ChunkStream.PongReceived | src/rtmps/message.go:150-162 | likewise the answer to a ping |
| ChunkStream.BufferLengthReceived | src/rtmps/message.go:163-176 | likewise a buffer length and its stream |
| ChunkStream.AckNotReceived | src/rtmps/message.go:121-129 | an acknowledgement, though sent, is a malformed message to the receiver |
| Reception.MediaReceived | src/rtmps/message.go:580-692 | an audio or video message under any permitted header, chunk size and form is received as its whole body at its time and with its type, and what follows is left |
| Reception.AggregateReceived | src/rtmps/message.go:682-688 | an aggregate whose body is written as FLV tags is received as exactly their types, times and data |
| Reception.ValuesReceived | src/rtmps/message.go:699-711 | commands and data are received as the normal forms of the values sent |
| Reception.PaddedReceived | src/rtmps/message.go:703-707 | a command of type 17 with its padding byte likewise |
| Reception.Unpadded | src/amf/amf.go:26-48 | one without padding is read as it is if reading from the second byte fails, and ends the process if that does |
| Reception.SizesReceived | src/rtmps/message.go:436-453 | a chunk size is received by its low 31 bits, a window by 32 |
| Reception.EventReceived | src/rtmps/message.go:467-516 | each user control event is received with the numbers sent behind it |
| Formats.RtmpLayout | src/rtmps/message.go:101-120 | a message sent in one chunk on a low chunk stream at a time below 2^24 - 1, byte by byte |
| Formats.AckLayout | src/rtmps/message.go:121-129 | the number in an acknowledgement is the total, in 32 bits, high byte first |
| ChunkCodec.ReadBasic | src/rtmps/message.go:211-236 | the three forms of a basic header, or a short read |
| ChunkCodec.Message.DecodeHeader | src/rtmps/message.go:397-434 | on any bytes the fields of the message object are filled as its type says; a continuation on another chunk stream is refused |
| ChunkCodec.Message.ReadChunkBody | src/rtmps/message.go:378-395 | one chunk is appended, at most the chunk size and at most what is missing |
| ChunkCodec.Message.Start | src/rtmps/message.go:583-653 | the first header completes the message and updates the table for its own chunk stream only |
| ChunkCodec.Message.ReadBody | src/rtmps/message.go:655-676 | the loop ends on any bytes and any chunk size, with the body put together or the first error |
| ChunkCodec.DecodeAggregate | src/rtmps/message.go:568-578 | all of them, or the first error |
| ChunkCodec.DecodeUserControl | src/rtmps/message.go:467-516 | event and numbers, a short read, or a malformed unknown event |
| ChunkCodec.DecodePayload | src/rtmps/message.go:682-728 | the switch over message types |
| ChunkCodec.DecodeOne | src/rtmps/message.go:580-729 | the whole receiver: result, bytes left and the table of chunk streams, on any input |
| ChunkCodec.Amf0Command | src/rtmps/message.go:177-209 | the loop over the body produces the message in chunks of the given size, which `CommandReceived` reads back |
| Flv.TagsDecoded | src/flvs/flv.go:118-162 | the aggregate decoder turns the tags written back into their types, timestamps and data, with nothing left over |
| Flv.ScanReadsTags | src/flvs/flv.go:196-248 | on a written file, whatever follows, the scan over bytes is a scan over tags |
| Flv.ReopenMarks | src/flvs/flv.go:204-245 | after a reopen each track has the timestamp of its earliest tag inside the shortest suffix that holds both tracks, or of the whole body if none does |
| Flv.ResumeNotLater | src/flvs/flv.go:183-248 | if timestamps increased, the resume point is not later than before closing |
| Flv.ResumeIsLatest | src/flvs/flv.go:183-194 | the resume point is the largest number that is later than neither track, a track without tags counting as at 0 |
| Flv.ReopenedResume | src/flvs/flv.go:183-248 | a reopened file of increasing tags resumes at a time not negative, not later than the last tag of either track, and at 0 if a track has none |
| FlvFile.FlvWriter.GetLastTimestamp | src/flvs/flv.go:183-194 | the same of the two positions the writer holds |
| Formats.FlvHeader | src/flvs/flv.go:250-258 | a fresh file starts with signature, version, both tracks and a size of zero |
| Formats.FlvLayout | src/flvs/flv.go:118-162 | a tag is kind, length, time with its high byte last, stream 0, data and the size of all that |
| Tracks.GoesOnExactly | src/flvs/flv.go:164-248 | an increasing track goes on increasing after a reopen, whatever is offered then, if and only if its earliest tag in the scanned suffix is also its latest one; otherwise what was recorded last can be recorded again |
| Flv.StepAt | src/flvs/flv.go:209-243 | each step of the scan moves to a smaller offset, on any bytes |
| FlvFile.FlvWriter.WritePacket | src/flvs/flv.go:118-162 | appends exactly one tag |
| FlvFile.FlvWriter.WriteAudio | src/flvs/flv.go:164-170 | a tag later than the track is appended and moves it, any other changes nothing |
| FlvFile.FlvWriter.WriteVideo | src/flvs/flv.go:171-177 | likewise for the other track |
| FlvFile.FlvWriter.StepBackward | src/flvs/flv.go:210-243 | reads and seeks of one round are one step of the scan |
| FlvFile.FlvWriter.LastPacketTimestamp | src/flvs/flv.go:196-248 | on any file the scan ends and marks both tracks as the scan of the contents does |
| FlvFile.Open | src/flvs/flv.go:31-79 | succeeds exactly on empty files and those with the signature; an empty one gets its header, another keeps its contents and is scanned |
| Tracks.RunWritesRecords | src/rtmps/rtmp.go:412-474 | after any run, with and without aggregate fixing, the file holds exactly the strict running maxima of the non-negative timestamps offered to each track |
| Recorded.FileHolds | src/rtmps/rtmp.go:412-474 | said of the messages alone: the file holds, in order, every metadata tag, and of every audio and video message and every such part of an accepted aggregate a tag of its kind, at its time or moved with its aggregate, with its data, if that time is not negative and later than all before it of that kind |
| Recording.Record | src/rtmps/rtmp.go:187-239 | from bytes to bytes: a peer sends any audio, video and aggregate messages on any mix of chunk streams; `wait` on a fresh file ends at the end of the bytes, and the file is header and tags of exactly what `FileHolds` says |
| Tracks.RunIsOffers | src/rtmps/rtmp.go:412-474 | a run of messages is the writer taking in all offered tags one after the other |
| Tracks.WrittenAreRecords | src/flvs/flv.go:164-177 | the same for any sequence of offered tags, and each track stands at the maximum |
| Tracks.WrittenIncrease | src/flvs/flv.go:164-177 | on each track the tags in the file increase from zero on |
| Tracks.PositionIsMax | src/rtmps/rtmp.go:413-432 | the recording position is the running maximum of the timestamps of media and aggregates |
| Tracks.AckConserves | src/rtmps/rtmp.go:381-389 | in every run the total is the last acknowledged one plus the bytes counted since, which stay below half the window, however the window changes |
| Tracks.ToldAtHalf | src/rtmps/rtmp.go:381-389 | a message is acknowledged exactly if the bytes received since the last acknowledgement make up half the window in force, and the number told is all bytes received |
| Tracks.ResumeAfterRun | src/flvs/flv.go:183-248 | after any run of messages the file gives a resume point not later than where recording stands |
| Rtmp.Connection.Count | src/rtmps/rtmp.go:381-389 | the counters after a message, and the acknowledgement sent exactly at the threshold |
| Rtmp.Connection.WriteParts | src/rtmps/rtmp.go:429-474 | the loop over an aggregate offers its parts at their moved times, or refuses the aggregate and writes nothing |
| Rtmp.Connection.CheckStatus | src/rtmps/rtmp.go:330-360 | how a status ends the recording, and whether it is the pause waited for |
| Rtmp.Connection.HandleCommand | src/rtmps/rtmp.go:524-550 | which commands end the connection, which is the answer waited for, and that a status without an argument ends the process |
| Session.StoppedByStatus | src/rtmps/rtmp.go:546 | a command ends the process if and only if it is a status without an argument |
| Session.StatusReceived | src/rtmps/rtmp.go:524-546 | such a command, with any id and any value, can be sent and is read as one |
| Rtmp.BareStatus | src/rtmps/rtmp.go:363-546 | receiving it ends the process, whatever is being waited for |
| Rtmp.Connection.HandleData | src/rtmps/rtmp.go:476-513 | play status ends the recording or not by duration and code; metadata sets the duration and becomes one tag holding an encoding of it, empty exactly if it cannot be encoded; other data does nothing |
| Rtmp.Connection.HandleControl | src/rtmps/rtmp.go:552-596 | chunk size and window are set, a ping is answered with its own number, and a recorded stream that has run dry is paused and left |
| Rtmp.Connection.Dispatch | src/rtmps/rtmp.go:412-600 | the switch over message types: file, position, settings, duration, answers sent, outcome and what the caller is told |
| Rtmp.Connection.RecvChunk | src/rtmps/rtmp.go:363-601 | one message is read, counted and handled; on an error nothing is counted, written or sent, and only a malformed message asks for a retry |
| Rtmp.Connection.Receive | src/rtmps/rtmp.go:205-238 | one round of the loop is one step along the byte stream, or ends as the error of reading what stands there |
| Rtmp.Connection.Wait | src/rtmps/rtmp.go:187-239 | in each mode the loop goes on until a message ends the wait, and ends as that one says, or until the bytes behind the last message cannot be read, and ends as that error; the messages handled are those at the front of the byte stream, each from the state the one before has left; started on a fresh file it leaves exactly the running maxima of each track in it, as well-formed tags |
| Session.StreamRuns | src/rtmps/rtmp.go:379-474 | over any stream of messages the recording is the run of their events and the counters are those of their sizes, each under the window then in force |
| Session.StreamReplies | src/rtmps/rtmp.go:381-389 | after every message the bytes sent have grown by exactly the acknowledgement and the answer it calls for |
| Session.StreamAcks | src/rtmps/rtmp.go:381-389 | over any stream the acknowledgements among the bytes sent are those of the totals told, in order, and no others |
| Session.ToldIsAcked | src/rtmps/rtmp.go:631-637 | the total taken for acknowledged is the last one told |
| Answers.SettingsInForce | src/rtmps/rtmp.go:363-389 | in any stream each message is read in chunks of the size last announced before it and counted under the window last announced before it; the stream is a recorded one once it was said to be |
| Answers.StatusMeans | src/rtmps/rtmp.go:330-360 | playing complete within a second of the duration or failed completes a recording, complete earlier leaves it incomplete, no code is an error, any other means nothing; a pause notice is exactly the one that says so |
| Answers.StatusCarried | src/rtmps/rtmp.go:476-550 | a message that carries a status ends as the status says |
| Answers.OnlyStatusCompletes | src/rtmps/rtmp.go:412-600 | and nothing else completes a recording |
| Answers.FindMeans | src/objs/objs.go:16-44 | an object answers for its own keys, a list for its first element that has the key |
| Answers.AnswerMeans | src/rtmps/rtmp.go:524-540 | a command answers the one waited for exactly if it carries its id, and the answer is its fourth value |
| Answers.AnswerTaken | src/rtmps/rtmp.go:187-239 | a command that waits takes the answer sent with its id, and goes on waiting at any other |
| Answers.WaitsFor | src/rtmps/rtmp.go:205-238 | which handled messages end which wait |
| Answers.AckEndsWait | src/rtmps/rtmp.go:205-238 | an acknowledgement sent to the recorder ends its wait as incomplete, to be tried again; the end of the bytes is an error |
| Answers.PingAnswered | src/rtmps/rtmp.go:560-564 | a ping is answered by one message that the peer receives with the number it sent |
| Answers.DryStreamPaused | src/rtmps/rtmp.go:573-580 | a recorded stream that has run dry is paused by one command, received as such by the peer |
| Answers.DurationMeans | src/rtmps/rtmp.go:495-503 | metadata that has a duration sets it, and nothing else |
| Answers.MetaDataKept | src/rtmps/rtmp.go:286-303 | metadata becomes one tag of kind 18 at the time of its message, from which the same metadata can be decoded |
| Commands.Command | src/rtmps/rtmp.go:677-685 | what is sent goes out on the right chunk stream with a body exactly if everything can be encoded; any receiver with that chunk size takes the normalised values from it, or no values if there is no body, and leaves what follows |
| Rtmp.SendCommand | src/rtmps/rtmp.go:654-685 | the transaction id by name, its counter, and the bytes sent |
| Rtmp.Call | src/rtmps/rtmp.go:687-694 | a command with an id then receives until its answer comes or something else ends the wait; one without returns at once |
| Commands.LongArgument | src/rtmps/rtmp.go:680-681 | an argument too long for AMF 0 sends a command without a body, and the peer receives it as one without values |
| Commands.PauseRaw | src/rtmps/rtmp.go:716-724 | the exact bytes of the command that pauses |
| Answers.WireStreams | src/rtmps/rtmp.go:664-685 | playing, seeking and pausing go to stream 1 on chunk stream 8, all else to stream 0 on chunk stream 3, with type and length of the body |
| Answers.IdsDiffer | src/rtmps/rtmp.go:655-675 | from one connection to the next no two commands that wait have the same id |
| Gorman.GoroutineManager.Cancel | src/gorman/gorman.go:38-45 | closes every registered channel once, no other, and leaves none registered |
| Gorman.ChannelsAfter | src/gorman/gorman.go:28-67 | after every micro-step each registered channel is open and its goroutine has not deregistered |
| Gorman.LiveAfter | src/gorman/gorman.go:51-70 | after every micro-step the wait group counts exactly the goroutines not finished |
| Gorman.StepKeepsInv | src/gorman/gorman.go:28-67 | every micro-step of starting, ending and cancelling keeps the invariant of channels, closes, mutex and wait group |
| Gorman.ManagerSafe | src/gorman/gorman.go:28-70 | in every interleaving no channel is closed twice, a registered one is open and belongs to a live goroutine, there are never more than the wait group counts, and none once it is at zero |
| Gorman.NoneOutOfReach | src/gorman/gorman.go:28-63 | in every interleaving a registered goroutine that has not deregistered has its channel registered, or closed once |
| Gorman.CancelReachesAll | src/gorman/gorman.go:38-45 | so a cancellation that ends has closed the channel of every one of them |
| Quiescence.WaitIsQuiescent | src/niconico/nico_hls.go:1866-1900 | in every interleaving, when `Wait` returns every goroutine ever started has finished |
| Quiescence.OrderTheorem | src/niconico/nico_hls.go:634-639 | an order of the four final waits guarantees this if and only if starters are waited for before what they start |
| Quiescence.LeftBehind | src/niconico/nico_hls.go:574-639 | for every other order, a run that returns with a goroutine left |
| Quiescence.SafeOrders | src/niconico/nico_hls.go:575-639 | the safe orders, listed: main anywhere, playlist before comments before the database |
| Restart.RestartControl | src/niconico/nico_hls.go:474-511 | in every interleaving of return codes the start delay is 0, 1, 3 to 13 or 60, and at most one restart happens once the recording is to finish |
| Restart.SomeoneStops | src/niconico/nico_hls.go:517-568 | however their flag writes and reads interleave, a playlist-end and a comment-done handler do not both leave the goroutines running; without timeshift the former always stops them |
| Restart.RestartersStop | src/niconico/nico_hls.go:491-546 | whoever may have asked for a restart has stopped the playlist goroutines by the time it ends, after network errors the comment goroutines too |
| Restart.RunKeepsInv | src/niconico/nico_hls.go:480-620 | the invariant of lock, flags and handler positions behind both |
| Restart.PairKept | src/niconico/nico_hls.go:517-568 | once a comment handler has stopped nothing, no step of either handler lets both pass |
| RestartAsked.NetworkErrorRestarts | src/niconico/nico_hls.go:480-504 | from any reachable state with the mutex free and neither restart nor end pending, the handler of a network error alone sets the flag, stops both sides, and moves the delay from 0 to 1, from 1 to 3, from 3 to 12 one further, and to 60 after that |
| RestartAsked.OthersRestart | src/niconico/nico_hls.go:508-541 | a refused playlist, unless interrupted, and an unknown quality ask for a restart at once |
| RestartAsked.RestartNotLost | src/niconico/nico_hls.go:480-620 | in every interleaving, once the handler of such a code is over the flag is set, or the restart has looked at it since, or the recording is to finish, or a refused playlist was interrupted |
| RestartAsked.InterruptedStops | src/niconico/nico_hls.go:508-515 | once interrupted a refused playlist only stops the playlist goroutines |
| RestartAsked.PlaylistEnds | src/niconico/nico_hls.go:517-530 | the end of the playlist is noted and stops everything, but lets comments go on that have begun and are not done in timeshift |
| RestartAsked.CommentsEnd | src/niconico/nico_hls.go:562-566 | the end of the comments is noted and stops everything exactly if the end of the recording was noted |
| RestartAsked.EveryCodeStops | src/niconico/nico_hls.go:489-571 | in every run a handler that is over has stopped what its code says, and the end of programme or playlist is noted |
| MemDb.Index.Open | src/niconico/nico_mem_db.go:10-57 | the loop describes exactly the last ten stored rows, and marks those before the first missing chunk |
| MemDb.LatestTen | src/niconico/nico_mem_db.go:24-27 | those are the last rows, ten or all there are |
| MediaDb.ReopenedKnows | src/niconico/nico_mem_db.go:24-53 | a reopened recording knows of the last ten rows exactly the chunks the table holds and that are not empty, and stops going back exactly where none has been missing so far |
| Playlist.Poller.GoBack | src/niconico/nico_hls.go:1251-1281 | the back-fill loop stops at a mark, a missing chunk, chunk 0 or a failure, and knows the range it fetched |
| Playlist.Poller.GoForward | src/niconico/nico_hls.go:1297-1344 | the loop over the list skips known chunks and stops at a failure or, sped up, at a 500 for chunk 0 |
| Playlist.Poller.Fetch | src/niconico/nico_hls.go:1206-1344 | a poll up to its marks as a function of index, list and answers |
| Playlist.Poller.GetPlaylist | src/niconico/nico_hls.go:1206-1366 | the whole poll: index, address format and speed after it, and what the caller is told, including the end of the list |
| Polls.PollMarks | src/niconico/nico_hls.go:1251-1352 | after a completed poll every number from the lowest it asked for to the highest before any listed 404 is marked, if that is above 0; more than 100 below the list nothing is kept; other marks are as before |
| Polls.NoMarks | src/niconico/nico_hls.go:1346-1352 | otherwise a number not asked for keeps its mark or has none |
| Polls.PollAsks | src/niconico/nico_hls.go:965-1037 | a completed poll has asked for exactly what its list and the way back call for, and stored, missed or failed each by its answer |
| Polls.PollKnows | src/niconico/nico_mem_db.go:123-170 | and knows exactly the chunks that were answered or known before |
| Polls.PollTells | src/niconico/nico_hls.go:1042-1366 | the caller is told of no response, a 403 or a slow-down only if one came, and of none only if none came; after a whole poll, of a 500 exactly if it was the last listed answer |
| Polls.Spared | src/niconico/nico_hls.go:1251-1306 | a poll whose list starts directly above a mark does not depend on answers below the list or for chunks it knows |
| Polls.NextPollSpared | src/niconico/nico_hls.go:1251-1352 | so after a completed poll the next one does not, wherever its list starts right behind or inside what that poll has marked |
| Polls.SlowsDown | src/niconico/nico_hls.go:1326-1335 | in timeshift a 500 for chunk 0 while sped up cuts the poll short and slows the recording down |
| Polls.SpeedsUp | src/niconico/nico_hls.go:1286-1295 | the first list that starts between 1 and 9 restores the speed |
| Polls.FormatChanges | src/niconico/nico_hls.go:1206-1221 | the address format has changed exactly if two of all formats seen since the playlist goroutine started differ |
| Gaps.NoSilentGaps | src/niconico/nico_hls.go:1251-1352 | in live mode, with one address format and from an empty index, over every run of polls and restarts, including polls cut short: every number up to the newest one listed by a completed poll is stored, or was answered 404 or 500, unless a number above it and not above that newest one was answered 404 |
| Gaps.ExplainedAsked | src/niconico/nico_hls.go:965-1037 | and so every such number was asked for |
| Gaps.RunKnown | src/niconico/nico_hls.go:965-1037 | in every setting and every run, a chunk the index knows is stored, and what was answered was asked for |
| Gaps.NoGapFrom | src/niconico/nico_hls.go:1251-1352 | the same from any sound index |
| Gaps.PollKeepsSound | src/niconico/nico_hls.go:1251-1352 | every poll, complete or not, keeps marks only where nothing below is passed over |
| Gaps.BackOk | src/niconico/nico_hls.go:1256-1280 | the back-fill leaves no gap below the list |
| Gaps.ForwardOk | src/niconico/nico_hls.go:1302-1344 | nor does the list, and only numbers without a gap below can be marked |
| Gaps.FinishedOk | src/niconico/nico_hls.go:1346-1351 | marking and deleting keep this |
| Gaps.WithoutBackFill | src/niconico/nico_hls.go:1253-1254 | in timeshift or after a format change, a completed poll leaves no gap if and only if there was none below the list, or a listed chunk was known to be missing, or one not known to be there is answered 404 |
| Gaps.EveryPollWithoutBackFill | src/niconico/nico_hls.go:1253-1254 | this is so of every completed poll of every run from an empty index, also of those after a loss |
| Gaps.ForwardMisses | src/niconico/nico_hls.go:1302-1344 | which listed chunks end up missing, from the index and the answers alone |
| Gaps.FormatChangeLosesChunks | src/niconico/nico_hls.go:1215-1220 | a concrete run that loses chunks in silence |
| Gaps.ReopenedSound | src/niconico/nico_mem_db.go:24-53 | the index of a reopened recording is sound if and only if the first of its last ten rows is missing, or leaves no gap below and the rows up to the first missing chunk follow one another |
| Quality.Choose | src/niconico/nico_hls.go:1376-1410 | the loop holds one of the variants, the same as the step by step choice |
| Quality.ChosenRight | src/niconico/nico_hls.go:1376-1410 | for every list and limit: the loop holds the largest bandwidth within the limit, or else the smallest, if and only if there is no limit, or no bandwidth of 0 is listed, or a positive one is within the limit, or the last one is 0 |
| Quality.ChoiceUnique | src/niconico/nico_hls.go:1387-1409 | the bandwidth wanted is unique |
| Quality.HeldRight | src/niconico/nico_hls.go:1387-1409 | what the loop holds after every variant seen, on any list |
| Quality.FirstOfEquals | src/niconico/nico_hls.go:1387-1409 | of variants of equal bandwidth the first is kept, if none is 0 |
| Quality.ZeroForgotten | src/niconico/nico_hls.go:1387-1388 | in all other cases the loop forgets a listed 0 and ends above the limit |
| Quality.ZeroBandwidth | src/niconico/nico_hls.go:1387-1388 | a concrete list where it does |
| Quality.Ladder.ServerError | src/niconico/nico_hls.go:1059-1088 | the third error at one place lowers the limit, or fails if that was done for this bandwidth; a master error resets everything |
| Quality.LoweringsDecrease | src/niconico/nico_hls.go:1059-1088 | in every run, for variants that sink, the lowered bandwidths strictly decrease between errors of the master playlist, so there are at most as many as bandwidths from each such error to the next |
| Quality.OnlyMasterErrors | src/niconico/nico_hls.go:1079-1085 | for such variants, lowerings decrease over all runs of a setting if and only if the master playlist never fails |
| Quality.OnlySinking | src/niconico/nico_hls.go:1059-1088 | while the master playlist stays readable, lowerings decrease under every limit if and only if the variants sink: just below each positive bandwidth the loop chooses that one or a lower positive one |
| Quality.AboveOneSinks | src/niconico/nico_hls.go:1070-1072 | positive bandwidths sink if and only if they are all above 1 or all 1 |
| Quality.SinksPlainly | src/niconico/nico_hls.go:1387-1409 | any list sinks if and only if none is positive, or the smallest positive bandwidth is 1 and none is above it, or it is above 1 and stands behind the last 0 |
| Quality.HeldBehindZero | src/niconico/nico_hls.go:1387-1396 | where nothing positive is within the limit, the loop holds the smallest bandwidth behind the last 0 |
| Quality.ThenItFails | src/niconico/nico_hls.go:1064-1068 | once the smallest has been lowered, the next lowering is the error exit |
| Quality.MasterErrorForgets | src/niconico/nico_hls.go:1079-1085 | for every list of variants and every limit, a run with an error of the master playlist that lowers the same bandwidth twice |
| Quality.NewPlaceStartsOver | src/niconico/nico_hls.go:1061-1077 | a server error at a new place starts the count over, and only the third in a row lowers the limit |
| MediaDb.OrderKeepsSelected | src/niconico/nico_db.go:15-18 | in any order of the queued writes the same chunks are selected and none that was stored is lost |
| MediaDb.SelectedAfter | src/niconico/nico_db.go:219-256 | selected are exactly the chunks stored before and those some write stores |
| MediaDb.OrderKeepsContents | src/niconico/nico_db.go:219-256 | the whole table is independent of the order if and only if no two writes store different chunks under one number |
| MediaDb.DrainedQueue | src/niconico/nico_hls.go:993-1037 | once the queue has drained the selected chunks are exactly those accepted for writing; every chunk the index knows is one of them, unless it came after an interrupt |
| MediaDb.ReopenedStarts | src/niconico/nico_mem_db.go:24-53 | the index a reopened recording fills knows only stored chunks, so this holds of reopened recordings as well |
| MediaDb.InterruptDrops | src/niconico/nico_hls.go:589-594 | after an interrupt the index takes note of a chunk that is not stored |
| Stored.StoredAsSaved | src/niconico/nico_hls.go:993-1037 | once the queue has drained, in any order: selected are exactly the chunks stored before and those saved before an interrupt, with just the bytes that were saved; every 404 noted in time has its row |
| Segments.ConvertDB | src/zip2mp4/zip2mp4.go:521-563 | the files hold all chunk data in order, each a stretch of consecutive numbers and one bandwidth, no two neighbours could be one, and their number is one more than the breaks |
| Segments.OneSegmentation | src/zip2mp4/zip2mp4.go:521-551 | there is only one way to do that |
| Segments.SplitIsSegmentation | src/zip2mp4/zip2mp4.go:521-551 | and always one |
| Segments.FileCount | src/zip2mp4/zip2mp4.go:561 | one file means one unbroken stretch, and conversely |
| Segments.CountIsBreaks | src/zip2mp4/zip2mp4.go:530-546 | the loop opens one file more than there are breaks, and there is no break exactly in an unbroken stretch |
| Segments.NothingLost | src/zip2mp4/zip2mp4.go:550 | all files together are all chunks together |
| Segments.ConvertAndDecide | src/livedl.go:143-158 | a broken recording is deleted in mode 2 and above only, an unbroken one from mode 1 on |
| RangeDownload.FinishedIsRemote | src/httpsub/httpsub.go:111-136 | in every interleaving, for any sizes and concurrency, a download that finishes equals the remote resource byte for byte; it finishes only if the size is not a multiple of the range size and is refused only if it is |
| RangeDownload.RunsEnd | src/httpsub/httpsub.go:111-136 | no interleaving goes on forever |
| RangeDownload.NeverStuck | src/httpsub/httpsub.go:70-136 | while requests are answered, a download that is neither finished nor refused can go on |
| RangeDownload.EndsWhole | src/httpsub/httpsub.go:111-136 | a run that has come to its end finished, with the whole file, if and only if every request was answered and the size is not a multiple of the range size; it was refused if and only if every request was answered and the size is one |
| RangeDownload.UnansweredWaits | src/httpsub/httpsub.go:84-127 | one request without an answer leaves the main loop waiting for its length |
| RangeDownload.StepKeepsFile | src/httpsub/httpsub.go:97-108 | every piecewise write keeps all that was written before |
| RangeDownload.EachRangeOnce | src/httpsub/httpsub.go:111-136 | in every interleaving the goroutines have asked for the ranges one after the other from 0 on, each once, and never more run at once than allowed |
| RangeDownload.PieceSizes | src/httpsub/httpsub.go:97-108 | every piece but the last of a range fills the buffer |
| RangeDownload.Target.Copy | src/httpsub/httpsub.go:97-108 | the pieces of one goroutine together are one write of its range |
| RangeDownload.Download | src/httpsub/httpsub.go:111-136 | the loop one at a time, with the default sizes: the whole file if and only if the size is not a multiple of the range size |

## Left out

- Sockets, the RTMP handshake, HTTP, websockets and timers: received bytes, answers, return codes and the moments of interrupts are inputs or nondeterministic steps.
- Conversion between Go integers and floating point numbers: an AMF number is an opaque value of eight bytes, and an integer carries the bytes it is converted to.
- Amf3.EncodeAll: does not model lists of strings written as dense arrays, which the decoder does not read back; anything but a string is the fatal case here.
- `Amf0EcmaArray` values: the encoder does not know them and ends the process, as for any other unknown type.
- Integer width: lengths, timestamps and counters are unbounded where the code does not itself cut them to 16, 24, 29 or 32 bits.
- Amf0.RoundTrip: needs keys that are not empty and no switch marker inside a value, which the format cannot carry; `Amf0.DecodesExactly` shows that the first is needed.
- Tracks.ResumeAfterRun: asks for timestamps below 2^32 and tags below 2^32 bytes, beyond which the file format itself cuts them off.
- Recording.Record: the bytes are audio, video and accepted aggregates only; other messages between them are covered by `Session.StreamRuns` with `Recorded.FileHolds`, from the messages on.
- Rtmp.Connection.HandleData: does not model the flag for a frame rate in the metadata, which nothing modelled here reads.
- Rtmp.Connection.Wait: does not model clocks: a test ends after a given number of messages, and a read that times out is an error of reading.
- Rtmp.Connection.CheckStatus: takes the FLV file for open, as every stream of media leaves it; in the code a completion before anything was written prints the timestamp of a file that is not there, which ends the process.
- Opening the FLV file at the first write, buffering, flushing and errors of writing: the file is one byte sequence with a cursor.
- Sending with a chunk size of 0, which never ends.
- Message headers of types 1 and 2 on the sending side: the code only receives them; `ChunkStream` states when section 5.3.1.2 of RTMP 1.0 permits each.
- Goroutines: every access to shared state is one atomic step in a sequentially consistent order; data races on unprotected flags are covered only as interleavings.
- Quiescence.WaitIsQuiescent: does not cover goroutines started outside the four managers, such as the one that commits on an interrupt.
- SQLite: tables are maps with IGNORE, REPLACE and delete semantics, each statement one step, without errors.
- The text of playlists, address formats and master playlists: a poll gets the first number, the format of each address and the answers; a variant is a bandwidth and an address.
- Timeshift positions, durations and waiting times of polls: they decide when to poll, not what is fetched.
- Playlist.Poller.GetPlaylist: does not model the parsing of a media playlist, nor lists refused by it; an unreadable one touches only what `Quality.Ladder.ServerError` models, and in timeshift the end of the list is an input.
- RangeDownload.FinishedIsRemote: does not cover a response that breaks off in the middle, which the code takes for its end.
- ffmpeg and file names: an output file is the sequence of bytes fed to it.
- Comments, login, page scraping, option parsing, YouTube and Twitcas recording: input, output and text handling.
