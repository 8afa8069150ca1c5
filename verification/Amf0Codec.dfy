/** The AMF 0 codec as it runs: decoders advance a reader, encoders append to a buffer. */
module Amf0Codec {
  import opened Bytes
  import opened AmfValues
  import opened Amf0
  import Amf3

  // ---------- Decoding ----------

  method DecodeString(rdr: Reader) returns (r: Result<Data>)
    requires rdr.Valid()
    modifies rdr
    ensures rdr.Did(DecodedString(old(rdr.Rest())), r)
  {
    var len := rdr.ReadFull(2);
    if len.Failed? {
      return Failed(len.kind);
    }
    r := rdr.ReadFull(FromBE16(len.value));
  }

  method DecodeObject(rdr: Reader) returns (r: Result<Value>)
    requires rdr.Valid()
    modifies rdr
    ensures rdr.Did(DecodedObject(old(rdr.Rest()), map[]), r)
    decreases |rdr.Rest()|, 1
  {
    var res: map<Data, Value> := map[];
    ghost var before := rdr.Rest();
    while true
      invariant rdr.Valid() && |rdr.Rest()| <= |before|
      invariant DecodedObject(before, map[]) == DecodedObject(rdr.Rest(), res)
      decreases |rdr.Rest()|
    {
      var key := DecodeString(rdr);
      if !key.Done? {
        return if key.Failed? then Failed(key.kind) else Exit;
      }
      var val := DecodeOne(rdr);
      if !val.Done? {
        return val;
      }
      if key.value == [] {
        return if val.value.ObjectEnd? then Done(Obj(res)) else Exit;
      }
      res := res[key.value := val.value];
    }
  }

  method DecodeStrictArray(rdr: Reader) returns (r: Result<Value>)
    requires rdr.Valid()
    modifies rdr
    ensures rdr.Did(DecodedAfter(10, old(rdr.Rest())), r)
    decreases |rdr.Rest()|, 1
  {
    var buf := rdr.ReadFull(4);
    if buf.Failed? {
      return Failed(buf.kind);
    }
    var count := FromBE32(buf.value);
    var res: seq<Value> := [];
    ghost var before := rdr.Rest();
    for i := 0 to count
      invariant rdr.Valid() && |rdr.Rest()| <= |before|
      invariant DecodedItems(before, count, []) == DecodedItems(rdr.Rest(), count - i, res)
    {
      var re := DecodeOne(rdr);
      if !re.Done? {
        return re;
      }
      res := res + [re.value];
    }
    return Done(List(res));
  }

  method DecodeOne(rdr: Reader) returns (r: Result<Value>)
    requires rdr.Valid()
    modifies rdr
    ensures rdr.Did(DecodedOne(old(rdr.Rest())), r)
    decreases |rdr.Rest()|, 0
  {
    var buf := rdr.ReadFull(1);
    if buf.Failed? {
      return Failed(buf.kind);
    }
    r := DecodeAfter(buf.value[0], rdr);
  }

  method DecodeAfter(marker: byte, rdr: Reader) returns (r: Result<Value>)
    requires rdr.Valid()
    modifies rdr
    ensures rdr.Did(DecodedAfter(marker, old(rdr.Rest())), r)
    decreases |rdr.Rest()|, 2
  {
    match marker
    case 0 =>
      var num := rdr.ReadFull(8);
      r := if num.Done? then Done(Num(num.value)) else Failed(num.kind);
    case 1 =>
      var b := rdr.ReadFull(1);
      r := if b.Done? then Done(Bool(b.value[0] != 0)) else Failed(b.kind);
    case 2 =>
      var s := DecodeString(rdr);
      r := if s.Done? then Done(Str(s.value)) else Failed(s.kind);
    case 3 =>
      r := DecodeObject(rdr);
    case 5 =>
      r := Done(Null);
    case 6 =>
      r := Done(Null);
    case 8 =>
      var count := rdr.ReadFull(4);
      if count.Failed? {
        return Failed(count.kind);
      }
      r := DecodeObject(rdr);
    case 9 =>
      r := Done(ObjectEnd);
    case 10 =>
      r := DecodeStrictArray(rdr);
    case 17 =>
      var dat := Amf3.DecodeAll(rdr);
      r := match dat case Done(tail) => Done(Amf3(tail)) case Failed(k) => Failed(k) case Exit => Exit;
    case _ =>
      r := Failed(Other);
  }

  method DecodeAll(rdr: Reader) returns (r: Result<seq<Value>>)
    requires rdr.Valid()
    modifies rdr
    ensures rdr.Did(DecodedAll(old(rdr.Rest())), r)
  {
    var res: seq<Value> := [];
    ghost var before := rdr.Rest();
    PrependedStep([], [], DecodedAll(before));
    while rdr.Len() > 0
      invariant rdr.Valid()
      invariant DecodedAll(before) == Prepended(res, DecodedAll(rdr.Rest()))
      decreases |rdr.Rest()|
    {
      ghost var soFar := res;
      var re := DecodeOne(rdr);
      if !re.Done? {
        return if re.Failed? then Failed(re.kind) else Exit;
      }
      res := res + Spliced(re.value);
      PrependedStep(soFar, Spliced(re.value), DecodedAll(rdr.Rest()));
    }
    assert rdr.Rest() == [] && res + [] == res;
    return Done(res);
  }

  /** `DecodeAmf0` with its padding hint. */
  method DecodeAmf0(data: Data, padded: bool) returns (r: Result<seq<Value>>)
    ensures match DecodedAmf0(data, padded)
      case Ok(vs, _) => r == Done(vs)
      case Err(k) => r == Failed(k)
      case Fatal => r == Exit
  {
    var rdr := new Reader(data);
    assert rdr.Rest() == data;
    if padded && |data| > 0 {
      rdr.pos := 1;
    }
    r := DecodeAll(rdr);
    if r.Failed? && padded {
      rdr.pos := 0;
      assert rdr.Rest() == data;
      r := DecodeAll(rdr);
    }
  }

  // ---------- Encoding ----------

  /** Nothing in the value is of an unknown kind, at which `encode` ends the process. */
  ghost predicate Known(v: Value) {
    match v
    case Obj(m) => forall k :: k in m ==> Known(m[k])
    case List(items) => forall k :: k in Indexed(items) ==> Known(Indexed(items)[k])
    case ObjectEnd => false
    case Amf3(_) => false
    case _ => true
  }

  /** All strings and keys in the value fit two length bytes; `encode` fails at one that does not. */
  ghost predicate Short(v: Value) {
    match v
    case Str(s) => |s| <= 0xffff
    case Obj(m) => forall k :: k in m ==> |k| <= 0xffff && Short(m[k])
    case List(items) => forall k :: k in Indexed(items) ==> |k| <= 0xffff && Short(Indexed(items)[k])
    case _ => true
  }

  /** The values `encode` gets to the end of. */
  ghost predicate Encodable(v: Value) {
    Known(v) && Short(v)
  }

  ghost predicate EncodableMap(m: map<Data, Value>) {
    forall k :: k in m ==> |k| <= 0xffff && Encodable(m[k])
  }

  /** Which of its two ways an unsuccessful encoding takes: the fatal one only at an unknown kind, an error only at a string
      that is too long. A map with both goes by the order of its entries. */
  ghost predicate Blames(r: Result<()>, known: bool, short: bool) {
    && (r.Done? <==> known && short)
    && (r.Exit? ==> !known)
    && (r.Failed? ==> !short)
  }

  method EncodeUtf8(s: Data, buff: Buffer) returns (ok: bool)
    modifies buff
    ensures ok == (|s| <= 0xffff)
    ensures ok ==> buff.data == old(buff.data) + Utf8(s)
  {
    ok := |s| <= 0xffff;
    if ok {
      buff.Write(BE16(|s|));
      buff.Write(s);
      assert buff.data == old(buff.data) + (BE16(|s|) + s);
    }
  }

  /** `bs` was appended to what the buffer held. */
  ghost predicate Grew(before: Data, bs: Data, after: Data) {
    after == before + bs
  }

  /** Whatever finishes the entries still to come finishes all of them. */
  ghost predicate Finishes(m: map<Data, Value>, todo: map<Data, Value>, ecma: bool, written: Data) {
    forall tail :: IsEntries(todo, ecma, tail) ==> IsEntries(m, ecma, written + tail)
  }

  lemma EntriesIntro(m: map<Data, Value>, ecma: bool, key: Data, val: Data, tail: Data)
    requires key in m && |key| <= 0xffff && IsEncoding(m[key], ecma, val) && IsEntries(m - {key}, ecma, tail)
    ensures IsEntries(m, ecma, Utf8(key) + val + tail)
  {
    assert IsEntry(Utf8(key) + val + tail, key, val, tail);
  }

  lemma EntryWritten(m: map<Data, Value>, todo: map<Data, Value>, ecma: bool, written: Data, key: Data, val: Data)
    requires Finishes(m, todo, ecma, written)
    requires key in todo && |key| <= 0xffff && IsEncoding(todo[key], ecma, val)
    ensures Finishes(m, todo - {key}, ecma, written + (Utf8(key) + val))
  {
    forall tail | IsEntries(todo - {key}, ecma, tail)
      ensures IsEntries(m, ecma, written + (Utf8(key) + val) + tail)
    {
      EntriesIntro(todo, ecma, key, val, tail);
      assert written + (Utf8(key) + val + tail) == written + (Utf8(key) + val) + tail;
    }
  }

  lemma GrewTwice(a: Data, b: Data, c: Data, x: Data, y: Data)
    requires Grew(a, x, b) && Grew(b, y, c)
    ensures Grew(a, x + y, c)
  {
    assert a + x + y == a + (x + y);
  }

  lemma NothingWritten(m: map<Data, Value>, ecma: bool)
    ensures Finishes(m, m, ecma, [])
  {
    forall tail | IsEntries(m, ecma, tail) ensures IsEntries(m, ecma, [] + tail) {
      assert [] + tail == tail;
    }
  }

  lemma EntryBlamed(m: map<Data, Value>, key: Data, r: Result<()>)
    requires key in m && !r.Done? && Blames(r, Known(m[key]), |key| <= 0xffff && Short(m[key]))
    ensures Blames(r, Known(Obj(m)), Short(Obj(m)))
  {
  }

  lemma NoneBlamed(m: map<Data, Value>)
    requires EncodableMap(m)
    ensures Blames(Done(()), Known(Obj(m)), Short(Obj(m)))
  {
  }

  /** The loop of `encodeObject` and `encodeEcmaArray` over a map, and the object end. */
  method EncodeEntries(m: map<Data, Value>, ecma: bool, buff: Buffer, ghost owner: Value) returns (r: Result<()>, ghost written: Data)
    requires forall k :: k in m ==> m[k] < owner
    modifies buff
    ensures Blames(r, Known(Obj(m)), Short(Obj(m)))
    ensures r.Done? ==> Grew(old(buff.data), written, buff.data) && IsEntries(m, ecma, written)
    decreases owner, 0, 0
  {
    var todo := m;
    written := [];
    NothingWritten(m, ecma);
    assert Grew(buff.data, [], buff.data);
    while todo != map[]
      invariant forall k :: k in todo ==> k in m && m[k] == todo[k]
      invariant forall k :: k in m && k !in todo ==> |k| <= 0xffff && Encodable(m[k])
      invariant Grew(old(buff.data), written, buff.data)
      invariant Finishes(m, todo, ecma, written)
      decreases todo.Keys
    {
      var key :| key in todo;
      ghost var val;
      label before:
      r, val := EncodeEntry(key, todo[key], ecma, buff, owner);
      if !r.Done? {
        EntryBlamed(m, key, r);
        return;
      }
      EntryWritten(m, todo, ecma, written, key, val);
      GrewTwice(old(buff.data), old@before(buff.data), buff.data, written, Utf8(key) + val);
      written := written + (Utf8(key) + val);
      todo := todo - {key};
    }
    label last:
    buff.Write([0, 0, 9]);
    assert IsEntries(todo, ecma, [0, 0, 9]);
    GrewTwice(old(buff.data), old@last(buff.data), buff.data, written, [0, 0, 9]);
    written := written + [0, 0, 9];
    r := Done(());
    NoneBlamed(m);
  }

  method EncodeEntry(key: Data, v: Value, ecma: bool, buff: Buffer, ghost owner: Value) returns (r: Result<()>, ghost val: Data)
    requires v < owner
    modifies buff
    ensures Blames(r, Known(v), |key| <= 0xffff && Short(v))
    ensures r.Done? ==> Grew(old(buff.data), Utf8(key) + val, buff.data) && IsEncoding(v, ecma, val)
    decreases v, 2
  {
    var ok := EncodeUtf8(key, buff);
    if !ok {
      return Failed(Other), [];
    }
    label middle:
    r, val := Encode(v, ecma, buff);
    if r.Done? {
      GrewTwice(old(buff.data), old@middle(buff.data), buff.data, Utf8(key), val);
    }
  }

  method ListToMap(items: seq<Value>) returns (m: map<Data, Value>)
    ensures m == Indexed(items)
  {
    m := map[];
    for i := 0 to |items|
      invariant m == Indexed(items[..i])
    {
      assert items[..i + 1][..i] == items[..i];
      m := m[Decimal(i) := items[i]];
    }
    assert items[..|items|] == items;
  }

  /** One value; `val` is what it appended. An ECMA array is announced by its number of entries. */
  method Encode(v: Value, ecma: bool, buff: Buffer) returns (r: Result<()>, ghost val: Data)
    modifies buff
    ensures Blames(r, Known(v), Short(v))
    ensures r.Done? ==> Grew(old(buff.data), val, buff.data) && IsEncoding(v, ecma, val)
    decreases v, 1
  {
    val := [];
    r := Done(());
    match v
    case Num(b) =>
      buff.Write([0] + b);
      val := [0] + b;
    case Int(b) =>
      buff.Write([0] + b);
      val := [0] + b;
    case Bool(b) =>
      buff.Write([1, if b then 1 else 0]);
      val := [1, if b then 1 else 0];
    case Str(s) =>
      buff.Write([2]);
      var ok := EncodeUtf8(s, buff);
      if !ok {
        return Failed(Other), val;
      }
      val := [2] + Utf8(s);
      assert old(buff.data) + val == old(buff.data) + [2] + Utf8(s);
    case Obj(m) =>
      r, val := EncodeMap(m, ecma, buff, v);
    case List(items) =>
      var m := ListToMap(items);
      r, val := EncodeMap(m, true, buff, v);
    case Null =>
      buff.Write([5]);
      val := [5];
    case SwitchToAmf3 =>
      buff.Write([17]);
      val := [17];
    case _ =>
      r := Exit;
  }

  method EncodeMap(m: map<Data, Value>, ecma: bool, buff: Buffer, ghost owner: Value) returns (r: Result<()>, ghost val: Data)
    requires forall k :: k in m ==> m[k] < owner
    modifies buff
    ensures Blames(r, Known(Obj(m)), Short(Obj(m)))
    ensures r.Done? ==> Grew(old(buff.data), val, buff.data) && IsEncoding(Obj(m), ecma, val)
    decreases owner, 0, 1
  {
    var header := if ecma then [8] + BE32(|m|) else [3];
    buff.Write(header);
    label body:
    ghost var entries;
    r, entries := EncodeEntries(m, ecma, buff, owner);
    val := header + entries;
    if r.Done? {
      GrewTwice(old(buff.data), old@body(buff.data), buff.data, header, entries);
      HeaderThenEntries(m, ecma, header, entries);
    }
  }

  lemma HeaderThenEntries(m: map<Data, Value>, ecma: bool, header: Data, entries: Data)
    requires header == if ecma then [8] + BE32(|m|) else [3]
    requires IsEntries(m, ecma, entries)
    ensures IsEncoding(Obj(m), ecma, header + entries)
  {
    var bs := header + entries;
    assert bs[..|header|] == header && bs[|header|..] == entries;
  }

  ghost predicate FinishesAll(vs: seq<Value>, i: nat, ecma: bool, written: Data) {
    i <= |vs| && forall tail :: IsEncodingAll(vs[i..], ecma, tail) ==> IsEncodingAll(vs, ecma, written + tail)
  }

  lemma AllIntro(vs: seq<Value>, ecma: bool, val: Data, tail: Data)
    requires vs != [] && !vs[0].SwitchToAmf3?
    requires IsEncoding(vs[0], ecma, val) && IsEncodingAll(vs[1..], ecma, tail)
    ensures IsEncodingAll(vs, ecma, val + tail)
  {
    assert IsAppended(val + tail, val, tail);
  }

  lemma ValueWritten(vs: seq<Value>, i: nat, ecma: bool, written: Data, val: Data)
    requires i < |vs| && FinishesAll(vs, i, ecma, written)
    requires IsEncoding(vs[i], ecma, val) && !vs[i].SwitchToAmf3?
    ensures FinishesAll(vs, i + 1, ecma, written + val)
  {
    assert vs[i..][1..] == vs[i + 1..];
    forall tail | IsEncodingAll(vs[i + 1..], ecma, tail)
      ensures IsEncodingAll(vs, ecma, written + val + tail)
    {
      AllIntro(vs[i..], ecma, val, tail);
      Assoc3(written, val, tail);
    }
  }

  lemma NoValueWritten(vs: seq<Value>, ecma: bool)
    ensures FinishesAll(vs, 0, ecma, [])
  {
    assert vs[0..] == vs;
    forall tail | IsEncodingAll(vs[0..], ecma, tail) ensures IsEncodingAll(vs, ecma, [] + tail) {
      assert [] + tail == tail;
    }
  }

  lemma AllWritten(vs: seq<Value>, ecma: bool, written: Data)
    requires FinishesAll(vs, |vs|, ecma, written)
    ensures IsEncodingAll(vs, ecma, written)
  {
    assert IsEncodingAll(vs[|vs|..], ecma, []) && written + [] == written;
  }

  lemma TailWritten(vs: seq<Value>, i: nat, ecma: bool, written: Data, tail: Data)
    requires i < |vs| && FinishesAll(vs, i, ecma, written)
    requires vs[i].SwitchToAmf3? && Amf3.AllBytes(vs[i + 1..]) == Done(tail)
    ensures IsEncodingAll(vs, ecma, written + [17] + tail)
  {
    assert ([17] + tail)[1..] == tail && vs[i..][1..] == vs[i + 1..];
    assert IsEncodingAll(vs[i..], ecma, [17] + tail);
    assert written + ([17] + tail) == written + [17] + tail;
  }

  /** Up to a switch marker values that can be encoded, behind it a list that the AMF 3 encoder takes. */
  ghost predicate KnownAll(vs: seq<Value>) {
    vs == [] || if vs[0].SwitchToAmf3? then !Amf3.AllBytes(vs[1..]).Exit? else Known(vs[0]) && KnownAll(vs[1..])
  }

  ghost predicate ShortAll(vs: seq<Value>) {
    vs == [] || if vs[0].SwitchToAmf3? then !Amf3.AllBytes(vs[1..]).Failed? else Short(vs[0]) && ShortAll(vs[1..])
  }

  ghost predicate EncodableAll(vs: seq<Value>) {
    KnownAll(vs) && ShortAll(vs)
  }

  /** A whole list; after a switch marker the AMF 3 encoder takes over. */
  method EncodeAll(vs: seq<Value>, ecma: bool) returns (r: Result<Data>)
    ensures r.Done? ==> IsEncodingAll(vs, ecma, r.value)
    ensures r.Done? <==> EncodableAll(vs)
    ensures (r.Exit? ==> !KnownAll(vs)) && (r.Failed? ==> !ShortAll(vs))
  {
    var buff := new Buffer();
    NoValueWritten(vs, ecma);
    assert vs[0..] == vs;
    for i := 0 to |vs|
      invariant FinishesAll(vs, i, ecma, buff.data)
      invariant (KnownAll(vs) <==> KnownAll(vs[i..])) && (ShortAll(vs) <==> ShortAll(vs[i..]))
    {
      ghost var written := buff.data;
      assert vs[i..][0] == vs[i] && vs[i..][1..] == vs[i + 1..];
      var one, val := Encode(vs[i], ecma, buff);
      if !one.Done? {
        return if one.Failed? then Failed(one.kind) else Exit;
      }
      if vs[i].SwitchToAmf3? {
        assert buff.data == written + [17];
        r := Amf3.EncodeAll(vs[i + 1..]);
        if r.Done? {
          TailWritten(vs, i, ecma, written, r.value);
          r := Done(buff.data + r.value);
        }
        return;
      }
      ValueWritten(vs, i, ecma, written, val);
    }
    AllWritten(vs, ecma, buff.data);
    return Done(buff.data);
  }
}
