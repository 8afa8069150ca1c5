/** Sending commands, and what a receiver makes of them. */
module Commands {
  import opened Bytes
  import opened AmfValues
  import opened Chunk
  import opened ChunkStream
  import opened ChunkCodec
  import Amf0
  import Amf0Codec

  /** The bytes of a name; all names are ASCII. */
  function Text(s: string): (d: Data)
    ensures |d| == |s|
  {
    seq(|s|, i requires 0 <= i < |s| => (s[i] as int) % 256)
  }

  /** Whatever the receiver knows of other chunk streams and whatever follows, it takes these values from the wire and
      leaves exactly what follows. */
  ghost predicate IsReceivedAs(wire: Data, csz: nat, values: seq<Value>) {
    forall info: InfoTable, rest: Data ::
      var p := DecodedOne(wire + rest, csz, info);
      p.Ok? && p.rest == rest && p.value.typeId == 20 && p.value.payload == Values(values)
  }

  function StreamNames(): set<Data> {
    {Text("play"), Text("seek"), Text("pause"), Text("pauseRaw")}
  }

  /** Commands about a stream go to stream 1 on a chunk stream of their own. */
  function Wire(csz: nat, name: Data, body: Data): Data
    requires csz > 0
  {
    if name in StreamNames() then CommandBytes(csz, 8, 1, body) else CommandBytes(csz, 3, 0, body)
  }

  /** The transaction id of a command after those up to `last`: commands about a stream get none, a new connection starts again. */
  function TransactionId(name: Data, last: nat): nat {
    if name == Text("connect") then 1 else if name in StreamNames() then 0 else last + 1
  }

  /** Encoding and sending: a name, its transaction id and arguments go out as one AMF 0 command, in chunks of the agreed size.
      An encoding error goes unnoticed: if a string does not fit, a command without a body is sent, which is received as one
      without values. Otherwise whoever receives it with that chunk size gets back the normalised values. */
  method Command(name: Data, trId: Float64, args: seq<Value>, csz: nat) returns (r: Result<Data>, ghost body: Data)
    requires csz > 0
    ensures !r.Failed? && (r.Exit? ==> !Amf0Codec.KnownAll([Str(name), Int(trId)] + args))
    ensures r.Done? ==> r.value == Wire(csz, name, body)
    ensures r.Done? ==> (body != [] <==> Amf0Codec.EncodableAll([Str(name), Int(trId)] + args))
    ensures r.Done? && body != [] ==> Amf0.IsEncodingAll([Str(name), Int(trId)] + args, false, body)
    ensures r.Done? && body != [] && Amf0.CleanAll([Str(name), Int(trId)] + args) && |body| < 0x100_0000
      ==> IsReceivedAs(r.value, csz, Amf0.NormAll([Str(name), Int(trId)] + args))
    ensures r.Done? && body == [] ==> IsReceivedAs(r.value, csz, [])
  {
    var csid, streamId := 3, 0;
    if name in StreamNames() {
      csid, streamId := 8, 1;
    }
    var cmd := [Str(name), Int(trId)] + args;
    var encoded := Amf0Codec.EncodeAll(cmd, false);
    if encoded.Exit? {
      return Exit, [];
    }
    var bytes := if encoded.Done? then encoded.value else [];
    body := bytes;
    if encoded.Done? {
      NotEmpty(cmd, false, body);
      if Amf0.CleanAll(cmd) && |body| < 0x100_0000 {
        SentAndReceived(csz, csid, streamId, cmd, body);
      }
    } else {
      SentAndReceived(csz, csid, streamId, [], []);
    }
    var wire := Amf0Command(csz, csid, streamId, bytes);
    r := Done(wire);
  }

  lemma NotEmpty(cmd: seq<Value>, ecma: bool, body: Data)
    requires cmd != [] && cmd[0].Str? && Amf0.IsEncodingAll(cmd, ecma, body)
    ensures body != []
  {
    var val, tail :| Amf0.IsAppended(body, val, tail) && Amf0.IsEncoding(cmd[0], ecma, val) && Amf0.IsEncodingAll(cmd[1..], ecma, tail);
  }

  lemma SentAndReceived(csz: nat, csid: nat, streamId: int, cmd: seq<Value>, body: Data)
    requires csz > 0 && 2 <= csid <= 65599 && |body| < 0x100_0000
    requires Amf0.CleanAll(cmd) && Amf0.IsEncodingAll(cmd, false, body)
    ensures IsReceivedAs(CommandBytes(csz, csid, streamId, body), csz, Amf0.NormAll(cmd))
  {
    forall info: InfoTable, rest: Data
      ensures var p := DecodedOne(CommandBytes(csz, csid, streamId, body) + rest, csz, info);
        p.Ok? && p.rest == rest && p.value.typeId == 20 && p.value.payload == Values(Amf0.NormAll(cmd))
    {
      CommandReceived(csz, csid, streamId, cmd, false, body, info, rest);
    }
  }

  lemma {:induction false} ShortAt(cmd: seq<Value>, i: nat)
    requires i < |cmd| && (forall v :: v in cmd ==> !v.SwitchToAmf3?) && Amf0Codec.ShortAll(cmd)
    ensures Amf0Codec.Short(cmd[i])
  {
    if i > 0 { ShortAt(cmd[1..], i - 1); }
  }

  lemma {:induction false} AllKnown(cmd: seq<Value>)
    requires forall v :: v in cmd ==> Amf0Codec.Known(v) && !v.SwitchToAmf3?
    ensures Amf0Codec.KnownAll(cmd)
  {
    if cmd != [] { AllKnown(cmd[1..]); }
  }

  /** A command with an argument that is too long, such as the name of a stream: the peer gets one without name, id or arguments. */
  method LongArgument(name: Data, trId: Float64, s: Data, csz: nat) returns (r: Result<Data>)
    requires csz > 0 && |s| > 0xffff
    ensures r == Done(Wire(csz, name, [])) && IsReceivedAs(r.value, csz, [])
  {
    ghost var cmd := [Str(name), Int(trId), Str(s)];
    assert [Str(name), Int(trId)] + [Str(s)] == cmd;
    AllKnown(cmd);
    if Amf0Codec.ShortAll(cmd) { ShortAt(cmd, 2); }
    ghost var body;
    r, body := Command(name, trId, [Str(s)], csz);
  }

  // ---------- Commands without maps and lists ----------

  predicate IsScalar(v: Value) {
    v.Num? || v.Int? || v.Bool? || v.Null? || (v.Str? && |v.s| <= 0xffff)
  }

  function ScalarBytes(vs: seq<Value>): Data
    requires forall v :: v in vs ==> IsScalar(v)
  {
    if vs == [] then []
    else
      (match vs[0]
       case Num(b) => [0] + b
       case Int(b) => [0] + b
       case Bool(b) => [1, if b then 1 else 0]
       case Str(s) => [2] + Amf0.Utf8(s)
       case _ => [5])
      + ScalarBytes(vs[1..])
  }

  lemma {:induction false} ScalarEncoding(vs: seq<Value>, ecma: bool, bs: Data)
    requires (forall v :: v in vs ==> IsScalar(v)) && Amf0.IsEncodingAll(vs, ecma, bs)
    ensures bs == ScalarBytes(vs)
  {
    if vs != [] {
      assert IsScalar(vs[0]);
      var val, tail :| Amf0.IsAppended(bs, val, tail) && Amf0.IsEncoding(vs[0], ecma, val) && Amf0.IsEncodingAll(vs[1..], ecma, tail);
      ScalarEncoding(vs[1..], ecma, tail);
    }
  }

  lemma {:induction false} ScalarsEncodable(vs: seq<Value>)
    requires forall v :: v in vs ==> IsScalar(v)
    ensures Amf0Codec.EncodableAll(vs)
  {
    if vs != [] {
      assert IsScalar(vs[0]);
      ScalarsEncodable(vs[1..]);
    }
  }

  /** The float64 zero. */
  const Zero: Float64 := [0, 0, 0, 0, 0, 0, 0, 0]

  function PauseRawBytes(csz: nat): Data
    requires csz > 0
  {
    CommandBytes(csz, 8, 1, ScalarBytes([Str(Text("pauseRaw")), Int(Zero), Null, Bool(true), Int(Zero)]))
  }

  method PauseRaw(csz: nat) returns (wire: Data)
    requires csz > 0
    ensures wire == PauseRawBytes(csz)
  {
    ghost var cmd := [Str(Text("pauseRaw")), Int(Zero), Null, Bool(true), Int(Zero)];
    ghost var body;
    var r;
    r, body := Command(Text("pauseRaw"), Zero, [Null, Bool(true), Int(Zero)], csz);
    assert [Str(Text("pauseRaw")), Int(Zero)] + [Null, Bool(true), Int(Zero)] == cmd;
    assert forall v :: v in cmd ==> IsScalar(v);
    ScalarsEncodable(cmd);
    ScalarEncoding(cmd, false, body);
    wire := r.value;
  }
}
