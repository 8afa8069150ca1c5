/** The formats on the wire and in the file, byte by byte as their standards lay them out. */
module Formats {
  import opened Bytes
  import opened AmfValues
  import opened Chunk
  import opened ChunkStream
  import Amf0
  import Amf3
  import Flv

  // ---------- Integers ----------

  /** The most significant byte comes first, but in a message stream id. */
  lemma ByteOrder()
    ensures FromBE16([1, 2]) == 0x0102 && FromBE24([1, 2, 3]) == 0x01_0203 && FromBE32([1, 2, 3, 4]) == 0x0102_0304
    ensures FromLE32([1, 2, 3, 4]) == 0x0403_0201
  {
  }

  lemma Digits16(n: int)
    requires 0 <= n < 0x1_0000
    ensures BE16(n) == [n / 0x100, n % 0x100]
  {
  }

  lemma Digits24(n: int)
    requires 0 <= n < 0x100_0000
    ensures BE24(n) == [n / 0x1_0000, n / 0x100 % 0x100, n % 0x100]
  {
  }

  lemma Digits32(n: int)
    requires 0 <= n < 0x1_0000_0000
    ensures BE32(n) == [n / 0x100_0000, n / 0x1_0000 % 0x100, n / 0x100 % 0x100, n % 0x100]
    ensures LE32(n) == [n % 0x100, n / 0x100 % 0x100, n / 0x1_0000 % 0x100, n / 0x100_0000]
  {
    SmallMod(n / 0x100_0000, 0x100);
    Twice(n);
  }

  lemma Twice(n: int)
    requires 0 <= n < 0x1_0000_0000
    ensures n / 0x1_0000 / 0x100 == n / 0x100_0000
  {
    var q, r := n / 0x1_0000, n % 0x1_0000;
    Quotient(n, 0x100_0000, q / 0x100, 0x1_0000 * (q % 0x100) + r);
  }

  // ---------- AMF 0, sections 2.2 to 2.12 of Adobe AMF 0 ----------

  /** Each marker and what stands behind it. */
  lemma Amf0Scalars(b: Float64, x: byte, h: byte, l: byte, s: Data, rest: Data)
    requires |s| == 0x100 * (h as int) + (l as int)
    ensures Amf0.DecodedOne([0] + (b + rest)) == Ok(Num(b), rest)
    ensures Amf0.DecodedOne([1] + ([x] + rest)) == Ok(Bool(x != 0), rest)
    ensures Amf0.DecodedOne([2] + ([h, l] + (s + rest))) == Ok(Str(s), rest)
    ensures Amf0.DecodedOne([5] + rest) == Ok(Null, rest) == Amf0.DecodedOne([6] + rest)
    ensures Amf0.DecodedOne([9] + rest) == Ok(ObjectEnd, rest)
  {
    Amf0.AfterMarker(0, b + rest);
    TakeAppend(b, rest);
    Amf0.AfterMarker(1, [x] + rest);
    TakeAppend([x], rest);
    Amf0.AfterMarker(2, [h, l] + (s + rest));
    TakeAppend([h, l], s + rest);
    TakeAppend(s, rest);
    Amf0.AfterMarker(5, rest);
    Amf0.AfterMarker(6, rest);
    Amf0.AfterMarker(9, rest);
  }

  lemma Amf0Unknown(marker: byte, rest: Data)
    requires marker !in {0, 1, 2, 3, 5, 6, 8, 9, 10, 17}
    ensures Amf0.DecodedOne([marker] + rest) == Err(Other)
  {
    Amf0.AfterMarker(marker, rest);
  }

  /** An object is key and value pairs behind its marker; an ECMA array has a count as well, which is not used. */
  lemma Amf0Objects(h: byte, l: byte, key: Data, val: Data, v: Value, count: Data, rest: Data)
    requires key != [] && |key| == 0x100 * (h as int) + (l as int) && |count| == 4
    requires Amf0.DecodedOne(val + ([0, 0, 9] + rest)) == Ok(v, [0, 0, 9] + rest)
    ensures var body := [h, l] + key + (val + ([0, 0, 9] + rest));
      && Amf0.DecodedOne([3] + body) == Ok(Obj(map[key := v]), rest)
      && Amf0.DecodedOne([8] + (count + body)) == Ok(Obj(map[key := v]), rest)
  {
    var body := [h, l] + key + (val + ([0, 0, 9] + rest));
    KeyBytes(h, l, key);
    Amf0.ObjectStep(key, val, v, [0, 0, 9] + rest, map[]);
    Amf0.ObjectEnds(rest, map[key := v]);
    Amf0.AfterMarker(3, body);
    Amf0.AfterMarker(8, count + body);
    TakeAppend(count, body);
  }

  lemma KeyBytes(h: byte, l: byte, key: Data)
    requires |key| == 0x100 * (h as int) + (l as int)
    ensures Amf0.Utf8(key) == [h, l] + key && |key| <= 0xffff
  {
  }

  /** A written map starts with its marker, an ECMA array with its number of entries behind it; a list is one of as many as it has items. */
  lemma Amf0Counts(m: map<Data, Value>, items: seq<Value>, ecma: bool, bs: Data)
    ensures Amf0.IsEncoding(Obj(m), true, bs) ==> |bs| >= 5 && bs[0] == 8 && FromBE32(bs[1..5]) == |m| % 0x1_0000_0000
    ensures Amf0.IsEncoding(Obj(m), false, bs) ==> |bs| >= 1 && bs[0] == 3
    ensures Amf0.IsEncoding(List(items), ecma, bs) ==> |bs| >= 5 && bs[0] == 8 && FromBE32(bs[1..5]) == |items| % 0x1_0000_0000
  {
    Amf0.IndexedKeys(items);
    if |bs| >= 5 { assert bs[1..5] == bs[..5][1..]; }
    assert ([8] + BE32(|m|))[1..] == BE32(|m|) && ([8] + BE32(|items|))[1..] == BE32(|items|);
  }

  /** A map inside a map is written in the form of the outer one. */
  lemma Amf0Nested(key: Data, m: map<Data, Value>, ecma: bool, bs: Data)
    requires Amf0.IsEncoding(Obj(map[key := Obj(m)]), ecma, bs)
    ensures var at := (if ecma then 5 else 1) + 2 + |key|; |bs| > at && bs[at] == if ecma then 8 else 3
  {
    var head := if ecma then 5 else 1;
    var outer := map[key := Obj(m)];
    assert key in outer;
    var k, val, tail := Amf0.FirstEntry(outer, ecma, bs[head..], []);
    assert k == key && outer[k] == Obj(m);
    Amf0Counts(m, [], ecma, val);
    assert bs[head..] + [] == bs[head..];
    var at := 2 + |key|;
    assert (Amf0.Utf8(key) + (val + (tail + [])))[at] == val[0];
    assert bs[head..][at] == bs[head + at];
  }

  /** Strings of up to 65535 bytes can be written, longer ones cannot. */
  lemma Amf0Longest(s: Data, ecma: bool, bs: Data)
    ensures |s| == 65535 ==> Amf0.IsEncoding(Str(s), ecma, [2] + ([255, 255] + s))
    ensures |s| > 65535 ==> !Amf0.IsEncoding(Str(s), ecma, bs)
  {
  }

  // ---------- AMF 3, sections 1.3.1 and 3.8 to 3.11 of Adobe AMF 3 ----------

  /** A string whose length takes one byte, and the numbers of one to three bytes. */
  lemma Amf3Layout(a: nat, b: nat, c: nat, s: Data, rest: Data)
    requires a < 0x80 && b < 0x80 && c < 0x80 && |s| < 0x40
    ensures Amf3.DecodedU29([a] + rest) == Amf3.U29(a, true, rest)
    ensures Amf3.DecodedU29([0x80 + a, b] + rest) == Amf3.U29(0x80 * a + b, true, rest)
    ensures Amf3.DecodedU29([0x80 + a, 0x80 + b, c] + rest) == Amf3.U29(0x4000 * a + 0x80 * b + c, true, rest)
    ensures Amf3.DecodedOne([6] + ([2 * |s| + 1] + (s + rest))) == Ok(Str(s), rest)
  {
    assert ([a] + rest)[1..] == rest;
    Amf3.TwoBytes(a, b, rest);
    Amf3.ThreeBytes(a, b, c, rest);
    ShortString(s, rest);
    TakeAppend([6], [2 * |s| + 1] + (s + rest));
  }

  lemma ShortString(s: Data, rest: Data)
    requires |s| < 0x40
    ensures Amf3.DecodedString([2 * |s| + 1] + (s + rest)) == Ok(s, rest)
  {
    assert ([2 * |s| + 1] + (s + rest))[1..] == s + rest;
    TakeAppend(s, rest);
  }

  function PairBytes(k: Data, v: Data, tail: Data): Data
    requires |k| < 0x40 && |v| < 0x40
  {
    [2 * |k| + 1] + (k + ([6] + ([2 * |v| + 1] + (v + tail))))
  }

  predicate AreShort(pairs: seq<(Data, Data)>) {
    forall p :: p in pairs ==> 0 < |p.0| < 0x40 && |p.1| < 0x40
  }

  function AssocBytes(pairs: seq<(Data, Data)>, rest: Data): Data
    requires AreShort(pairs)
  {
    if pairs == [] then [1] + rest else PairBytes(pairs[0].0, pairs[0].1, AssocBytes(pairs[1..], rest))
  }

  function AssocOf(pairs: seq<(Data, Data)>, acc: map<Data, Value>): map<Data, Value> {
    if pairs == [] then acc else AssocOf(pairs[1..], acc[pairs[0].0 := Str(pairs[0].1)])
  }

  lemma StringValue(v: Data, tail: Data)
    requires |v| < 0x40
    ensures Amf3.DecodedOne([6] + ([2 * |v| + 1] + (v + tail))) == Ok(Str(v), tail)
  {
    Amf3Layout(0, 0, 0, v, tail);
  }

  lemma KeyThenValue(bs: Data, k: Data, mid: Data, v: Value, tail: Data, acc: map<Data, Value>)
    requires k != [] && Amf3.DecodedString(bs) == Ok(k, mid) && Amf3.DecodedOne(mid) == Ok(v, tail)
    ensures Amf3.DecodedAssoc(bs, acc) == Amf3.DecodedAssoc(tail, acc[k := v])
  {
  }

  lemma AssocStep(k: Data, v: Data, tail: Data, acc: map<Data, Value>)
    requires 0 < |k| < 0x40 && |v| < 0x40
    ensures Amf3.DecodedAssoc(PairBytes(k, v, tail), acc) == Amf3.DecodedAssoc(tail, acc[k := Str(v)])
  {
    var mid := [6] + ([2 * |v| + 1] + (v + tail));
    ShortString(k, mid);
    StringValue(v, tail);
    KeyThenValue(PairBytes(k, v, tail), k, mid, Str(v), tail, acc);
  }

  lemma AssocEnds(rest: Data, acc: map<Data, Value>)
    ensures Amf3.DecodedAssoc([1] + rest, acc) == Ok(Obj(acc), rest)
  {
    ShortString([], rest);
    assert [1] + rest == [2 * 0 + 1] + ([] + rest);
  }

  lemma {:induction false} AssocEntries(pairs: seq<(Data, Data)>, rest: Data, acc: map<Data, Value>)
    requires AreShort(pairs)
    ensures Amf3.DecodedAssoc(AssocBytes(pairs, rest), acc) == Ok(Obj(AssocOf(pairs, acc)), rest)
    decreases |pairs|
  {
    if pairs == [] {
      AssocEnds(rest, acc);
    } else {
      AssocStep(pairs[0].0, pairs[0].1, AssocBytes(pairs[1..], rest), acc);
      AssocEntries(pairs[1..], rest, acc[pairs[0].0 := Str(pairs[0].1)]);
    }
  }

  /** An array without a dense part is its keys and values up to the empty key. */
  lemma Amf3Assoc(pairs: seq<(Data, Data)>, rest: Data)
    requires AreShort(pairs)
    ensures Amf3.DecodedOne([9] + ([1] + AssocBytes(pairs, rest))) == Ok(Obj(AssocOf(pairs, map[])), rest)
  {
    TakeAppend([9], [1] + AssocBytes(pairs, rest));
    assert ([1] + AssocBytes(pairs, rest))[1..] == AssocBytes(pairs, rest);
    AssocEntries(pairs, rest, map[]);
  }

  // ---------- RTMP 1.0, sections 5.3.1 and 5.4 ----------

  /** A message of type 0 in one chunk: chunk stream, time, length and type, stream, body. */
  lemma RtmpLayout(m: OutMsg, csz: nat)
    requires 2 <= m.csid <= 63 && m.ts < 0xff_ffff && |m.body| < 0x100_0000 && |m.body| <= csz && csz > 0 && 0 <= m.streamId < 0x1_0000_0000
    ensures MessageBytes(Own, m, 0, m.ts, csz) ==
      [m.csid]
      + [m.ts / 0x1_0000, m.ts / 0x100 % 0x100, m.ts % 0x100]
      + [|m.body| / 0x1_0000, |m.body| / 0x100 % 0x100, |m.body| % 0x100]
      + [m.typeId]
      + [m.streamId % 0x100, m.streamId / 0x100 % 0x100, m.streamId / 0x1_0000 % 0x100, m.streamId / 0x100_0000]
      + m.body
  {
    Digits24(m.ts);
    Digits24(|m.body|);
    Digits32(m.streamId);
    RtmpShape(BasicHeader(0, m.csid), BE24(m.ts), BE24(|m.body|), [m.typeId], LE32(m.streamId), m.body);
  }

  lemma RtmpShape(a: Data, b: Data, c: Data, d: Data, e: Data, f: Data)
    ensures a + ((b + (c + d) + e) + ([] + f)) == a + b + c + d + e + f
  {
  }

  /** An acknowledgement carries the total. */
  lemma AckLayout(total: int)
    requires 0 <= total < 0x1_0000_0000
    ensures AckBytes(total) == [2, 0, 0, 0, 0, 0, 4, 3, 0, 0, 0, 0] + [total / 0x100_0000, total / 0x1_0000 % 0x100, total / 0x100 % 0x100, total % 0x100]
  {
    Digits32(total);
    assert BE24(0) == [0, 0, 0] && BE24(4) == [0, 0, 4] && LE32(0) == [0, 0, 0, 0];
  }

  // ---------- FLV, annexes E.2 to E.4 of the Adobe FLV specification ----------

  /** "FLV", version 1, flags for audio (4) and video (1), the size of the header, and no tag before the first. */
  lemma FlvHeader()
    ensures Flv.Header == ['F' as int, 'L' as int, 'V' as int] + [1] + [4 + 1] + BE32(9) + BE32(0)
  {
  }

  /** A tag: type, size, time with its highest byte last, stream 0, data, and the size of all that. */
  lemma FlvLayout(t: Flv.Tag)
    requires |t.data| < 0x100_0000 - 11 && 0 <= t.ts < 0x1_0000_0000
    ensures Flv.TagBytes(t) ==
      [t.kind]
      + [|t.data| / 0x1_0000, |t.data| / 0x100 % 0x100, |t.data| % 0x100]
      + [t.ts / 0x1_0000 % 0x100, t.ts / 0x100 % 0x100, t.ts % 0x100, t.ts / 0x100_0000]
      + [0, 0, 0]
      + t.data
      + [0, (|t.data| + 11) / 0x1_0000, (|t.data| + 11) / 0x100 % 0x100, (|t.data| + 11) % 0x100]
  {
    Digits24(|t.data|);
    Digits32(t.ts);
    Digits32(11 + |t.data|);
    SmallMod((11 + |t.data|) / 0x1_0000, 0x100);
    assert (11 + |t.data|) / 0x100_0000 == 0;
    var b := BE32(t.ts);
    assert b[1..4] + [b[0]] == [b[1], b[2], b[3], b[0]];
  }
}
