/** The FLV writer as it runs: a file with a cursor, and the latest timestamp of each track. */
module FlvFile {
  import opened Bytes
  import opened Flv

  class FlvWriter {
    var file: Data
    var cursor: nat
    var startAt: int
    var audioTimestamp: int
    var videoTimestamp: int

    constructor (content: Data)
      ensures file == content && cursor == 0 && audioTimestamp == -1 && videoTimestamp == -1
    {
      file, cursor, startAt := content, 0, 0;
      audioTimestamp, videoTimestamp := -1, -1;
    }

    /** Standing at the end of a file made of these tags. */
    ghost predicate Holds(tags: seq<Tag>)
      reads this
    {
      file == FileBytes(tags) && cursor == |file|
    }

    /** Both tracks are known up to their latest tags, as long as the file was not reopened. */
    ghost predicate InStep(tags: seq<Tag>)
      reads this
    {
      Holds(tags) && audioTimestamp == LastTs(tags, AUDIO) && videoTimestamp == LastTs(tags, VIDEO)
    }

    /** A write at the cursor; the writer only ever writes at the end. */
    method Write(d: Data)
      requires cursor == |file|
      modifies this`file, this`cursor
      ensures file == old(file) + d && cursor == |file|
    {
      file := file + d;
      cursor := |file|;
    }

    /** `io.ReadFull` on the file. */
    method ReadFull(n: nat) returns (r: Result<Data>)
      modifies this`cursor
      ensures r == if old(cursor) + n <= |file| then Done(file[old(cursor)..old(cursor) + n]) else Failed(ShortRead)
      ensures r.Done? ==> cursor == old(cursor) + n
    {
      if cursor + n > |file| {
        if cursor < |file| {
          cursor := |file|;
        }
        return Failed(ShortRead);
      }
      r := Done(file[cursor..cursor + n]);
      cursor := cursor + n;
    }

    /** A seek to before the start of the file is an error and moves nothing. */
    method Seek(pos: int) returns (ok: bool)
      modifies this`cursor
      ensures ok == (pos >= 0)
      ensures cursor == if ok then pos else old(cursor)
    {
      ok := pos >= 0;
      if ok {
        cursor := pos;
      }
    }

    /** Type, sizes and timestamp around the data, piece by piece. */
    method WritePacket(kind: byte, data: Data, ts: int)
      requires cursor == |file|
      modifies this`file, this`cursor
      ensures file == old(file) + TagBytes(Tag(kind, ts, data)) && cursor == |file|
    {
      var buff := new Buffer();
      buff.Write([kind]);
      buff.Write(BE24(|data|));
      var tsBytes := BE32(ts);
      buff.Write(tsBytes[1..4]);
      buff.Write([tsBytes[0]]);
      buff.Write([0, 0, 0]);
      assert buff.data == TagHead(Tag(kind, ts, data));
      Write(buff.data);
      Write(data);
      Write(BE32(11 + |data|));
      Assoc4(old(file), TagHead(Tag(kind, ts, data)), data, BE32(11 + |data|));
      Assoc3(TagHead(Tag(kind, ts, data)), data, BE32(11 + |data|));
    }

    method WriteAudio(data: Data, ts: int)
      requires cursor == |file|
      modifies this
      ensures ts > old(audioTimestamp) ==> file == old(file) + TagBytes(Tag(AUDIO, ts, data)) && audioTimestamp == ts
      ensures ts <= old(audioTimestamp) ==> file == old(file) && audioTimestamp == old(audioTimestamp)
      ensures cursor == |file| && videoTimestamp == old(videoTimestamp) && startAt == old(startAt)
    {
      if ts > audioTimestamp {
        audioTimestamp := ts;
        WritePacket(AUDIO, data, ts);
      }
    }

    method WriteVideo(data: Data, ts: int)
      requires cursor == |file|
      modifies this
      ensures ts > old(videoTimestamp) ==> file == old(file) + TagBytes(Tag(VIDEO, ts, data)) && videoTimestamp == ts
      ensures ts <= old(videoTimestamp) ==> file == old(file) && videoTimestamp == old(videoTimestamp)
      ensures cursor == |file| && audioTimestamp == old(audioTimestamp) && startAt == old(startAt)
    {
      if ts > videoTimestamp {
        videoTimestamp := ts;
        WritePacket(VIDEO, data, ts);
      }
    }

    method WriteMetaData(data: Data, ts: int)
      requires cursor == |file|
      modifies this`file, this`cursor
      ensures file == old(file) + TagBytes(Tag(18, ts, data)) && cursor == |file|
    {
      WritePacket(18, data, ts);
    }

    /** Where to resume: the latest time that neither track has passed. */
    method GetLastTimestamp() returns (min: int)
      ensures min >= 0 && NotLater(min, audioTimestamp) && NotLater(min, videoTimestamp)
      ensures forall x :: NotLater(x, audioTimestamp) && NotLater(x, videoTimestamp) ==> x <= min
      ensures min == Resume(audioTimestamp, videoTimestamp)
    {
      min := if audioTimestamp > videoTimestamp then videoTimestamp else audioTimestamp;
      if min < 0 {
        min := 0;
      }
    }

    /** One step of the backward scan: size, header, and a seek to the size before. */
    method StepBackward() returns (s: Step)
      modifies this`cursor
      ensures s == StepAt(file, old(cursor))
      ensures s.Back? && s.prev >= 0 ==> cursor == s.prev
    {
      var p := cursor;
      var b0 := ReadFull(4);
      if b0.Failed? {
        return Stop;
      }
      var size := FromBE32(b0.value);
      if size == 0 {
        return Stop;
      }
      var ok := Seek(cursor - (size + 4));
      if !ok {
        return Stop;
      }
      var b1 := ReadFull(11);
      if b1.Failed? {
        return Stop;
      }
      assert b1.value == file[p - size..p - size + 11];
      s := Back(b1.value[0], TimeAt(b1.value), cursor - 15);
      ok := Seek(cursor - 15);
    }

    /** The backward scan, on any file: it ends, and marks what the scan of the contents finds. */
    method LastPacketTimestamp()
      modifies this`cursor, this`audioTimestamp, this`videoTimestamp
      ensures |file| < 4 ==> audioTimestamp == old(audioTimestamp) && videoTimestamp == old(videoTimestamp)
      ensures |file| >= 4 ==>
        var found := Scanned(file, |file| - 4, Marks(old(audioTimestamp), old(videoTimestamp), false, false));
        audioTimestamp == found.audio && videoTimestamp == found.video
    {
      var ok := Seek(|file| - 4);
      if !ok {
        return;
      }
      var audioFound, videoFound := false, false;
      ghost var goal := Scanned(file, cursor, Marks(audioTimestamp, videoTimestamp, false, false));
      while !(audioFound && videoFound)
        invariant goal == Scanned(file, cursor, Marks(audioTimestamp, videoTimestamp, audioFound, videoFound))
        decreases cursor
      {
        var s := StepBackward();
        if s.Stop? {
          break;
        }
        if s.kind == 8 {
          audioTimestamp, audioFound := s.ts, true;
        } else if s.kind == 9 {
          videoTimestamp, videoFound := s.ts, true;
        }
        if s.prev < 0 {
          return;
        }
      }
    }
  }

  /** `Open`: an empty file gets its header, any other must have one; then the scan, and on to the end. */
  method Open(content: Data) returns (r: Result<FlvWriter>)
    ensures r.Done? ==> fresh(r.value) && r.value.cursor == |r.value.file|
    ensures r.Done? <==> content == [] || (|content| >= 9 && content[..3] == Header[..3])
    ensures content == [] ==> r.value.InStep([])
    ensures content != [] && r.Done? ==>
      var m := Scanned(content, |content| - 4, Marks(-1, -1, false, false));
      r.value.file == content && r.value.audioTimestamp == m.audio && r.value.videoTimestamp == m.video
  {
    var flv := new FlvWriter(content);
    if |content| == 0 {
      flv.Write(Header);
      assert flv.file == Header == FileBytes([]);
      assert flv.file[9..13] == [0, 0, 0, 0];
    }
    var _ := flv.Seek(0);
    var b := flv.ReadFull(9);
    if b.Failed? {
      return Failed(ShortRead);
    }
    assert b.value[..3] == flv.file[..3];
    if b.value[..3] != [70, 76, 86] {
      return Failed(Other);
    }
    flv.startAt := FromBE32(b.value[5..9]);
    flv.LastPacketTimestamp();
    var _ := flv.Seek(|flv.file|);
    return Done(flv);
  }
}
