/** The AMF 3 tail that may follow an AMF 0 command: variable length integers and strings. */
module Amf3 {
  import opened Options
  import opened Bytes
  import opened AmfValues

  // ---------- U29 ----------

  /** `decodeU29` returns the bits read so far even when it fails, and one caller looks only at those. */
  datatype U29 = U29(value: nat, ok: bool, rest: Data)

  /** Byte number `i` of a U29, with `res` read before it. */
  function U29From(bs: Data, i: nat, res: nat): (u: U29)
    requires i < 4
    ensures |u.rest| <= |bs|
    ensures u.ok ==> |u.rest| < |bs|
    decreases 4 - i
  {
    if bs == [] then U29(res, false, [])
    else
      var flag := i < 3 && bs[0] >= 0x80;
      var val := if i == 3 then bs[0] else bs[0] % 0x80;
      var res' := if i == 0 then val else if i == 3 then 256 * res + val else 0x80 * res + val;
      if flag then U29From(bs[1..], i + 1, res') else U29(res', true, bs[1..])
  }

  function DecodedU29(bs: Data): U29 {
    U29From(bs, 0, 0)
  }

  function U29Bytes(num: int): (r: Option<Data>) {
    if 0 <= num <= 0x7f then
      Some([num])
    else if 0x80 <= num <= 0x3fff then
      Some([0x80 + num / 0x80 % 0x80, num % 0x80])
    else if 0x4000 <= num <= 0x1f_ffff then
      Some([0x80 + num / 0x4000 % 0x80, 0x80 + num / 0x80 % 0x80, num % 0x80])
    else if 0x20_0000 <= num <= 0x3fff_ffff then
      Some([0x80 + num / 0x40_0000 % 0x80, 0x80 + num / 0x8000 % 0x80, 0x80 + num / 0x80 % 0x80, num % 0x100])
    else
      None
  }

  /** The numbers that survive: three bytes suffice, or they fit 29 bits and bits 7 to 14 are all equal.
      The encoder takes the third group of a four byte number from bit 7 on, the decoder puts it at bit 8. */
  predicate U29Keeps(num: int) {
    || 0 <= num < 0x20_0000
    || (0x20_0000 <= num < 0x2000_0000 && num / 0x80 % 0x100 in {0, 0xff})
  }

  lemma U29RoundTrip(num: int, rest: Data)
    requires U29Bytes(num).Some?
    ensures var u := DecodedU29(U29Bytes(num).value + rest);
      u.ok && u.rest == rest && (u.value == num <==> U29Keeps(num))
  {
    if num < 0x20_0000 {
      ShortRoundTrip(num, rest);
    } else {
      FourBytes(num / 0x40_0000 % 0x80, num / 0x8000 % 0x80, num / 0x80 % 0x80, num % 0x100, rest);
      FourGroups(num);
    }
  }

  lemma ShortRoundTrip(num: nat, rest: Data)
    requires num < 0x20_0000
    ensures DecodedU29(U29Bytes(num).value + rest) == U29(num, true, rest)
  {
    if num <= 0x7f {
      assert ([num] + rest)[1..] == rest;
    } else if num <= 0x3fff {
      TwoBytes(num / 0x80 % 0x80, num % 0x80, rest);
    } else {
      ThreeBytes(num / 0x4000 % 0x80, num / 0x80 % 0x80, num % 0x80, rest);
      ThreeGroups(num);
    }
  }

  lemma TwoBytes(a: nat, b: nat, rest: Data)
    requires a < 0x80 && b < 0x80
    ensures DecodedU29([0x80 + a, b] + rest) == U29(0x80 * a + b, true, rest)
  {
    var bs := [0x80 + a, b] + rest;
    assert bs[1..] == [b] + rest;
    assert bs[1..][1..] == rest;
  }

  lemma ThreeBytes(a: nat, b: nat, c: nat, rest: Data)
    requires a < 0x80 && b < 0x80 && c < 0x80
    ensures DecodedU29([0x80 + a, 0x80 + b, c] + rest) == U29(0x80 * (0x80 * a + b) + c, true, rest)
  {
    var bs := [0x80 + a, 0x80 + b, c] + rest;
    assert bs[1..] == [0x80 + b, c] + rest;
    assert bs[1..][1..] == [c] + rest;
    assert bs[1..][1..][1..] == rest;
  }

  lemma FourBytes(a: nat, b: nat, c: nat, d: byte, rest: Data)
    requires a < 0x80 && b < 0x80 && c < 0x80
    ensures DecodedU29([0x80 + a, 0x80 + b, 0x80 + c, d] + rest) ==
            U29(0x100 * (0x80 * (0x80 * a + b) + c) + d, true, rest)
  {
    var bs := [0x80 + a, 0x80 + b, 0x80 + c, d] + rest;
    assert bs[1..] == [0x80 + b, 0x80 + c, d] + rest;
    assert bs[1..][1..] == [0x80 + c, d] + rest;
    assert bs[1..][1..][1..] == [d] + rest;
    assert bs[1..][1..][1..][1..] == rest;
    assert U29From([d] + rest, 3, 0x80 * (0x80 * a + b) + c) == U29(0x100 * (0x80 * (0x80 * a + b) + c) + d, true, rest);
  }

  lemma ThreeGroups(num: int)
    requires 0 <= num < 0x20_0000
    ensures 0x80 * (0x80 * (num / 0x4000 % 0x80) + num / 0x80 % 0x80) + num % 0x80 == num
  {
  }

  /** Bits 7 to 14, as the encoder's third group sees them and as the decoder does. */
  lemma FourGroups(num: int)
    requires 0x20_0000 <= num <= 0x3fff_ffff
    ensures 0x100 * (0x80 * (0x80 * (num / 0x40_0000 % 0x80) + num / 0x8000 % 0x80) + num / 0x80 % 0x80) + num % 0x100 == num
            <==> U29Keeps(num)
  {
    var h, m, w, low := GroupsOf(num);
    Regroup(h, m, w, low);
  }

  lemma GroupsOf(num: nat) returns (h: nat, m: nat, w: nat, low: nat)
    requires num <= 0x3fff_ffff
    ensures h < 0x100 && m < 0x80 && w < 0x100 && low < 0x80
    ensures num == 0x80 * (0x100 * (0x80 * h + m) + w) + low
    ensures num / 0x40_0000 % 0x80 == h % 0x80 && num / 0x8000 % 0x80 == m
    ensures num / 0x80 % 0x80 == w % 0x80 && num / 0x80 % 0x100 == w
    ensures num % 0x100 == 0x80 * (w % 2) + low
  {
    var q := num / 0x80;
    low := num % 0x80;
    var t := q / 0x100;
    w := q % 0x100;
    h, m := t / 0x80, t % 0x80;
    assert num == 0x80 * q + low && q == 0x100 * t + w && t == 0x80 * h + m;
    Quotient(num, 0x8000, t, 0x80 * w + low);
    Quotient(num, 0x40_0000, h, 0x8000 * m + 0x80 * w + low);
    Quotient(num, 0x100, 0x80 * t + w / 2, 0x80 * (w % 2) + low);
    Quotient(q, 0x80, 2 * t + w / 0x80, w % 0x80);
  }

  lemma Regroup(h: nat, m: nat, w: nat, low: nat)
    requires h < 0x100 && m < 0x80 && w < 0x100 && low < 0x80
    ensures 0x100 * (0x80 * (0x80 * (h % 0x80) + m) + w % 0x80) + (0x80 * (w % 2) + low)
            == 0x80 * (0x100 * (0x80 * h + m) + w) + low
            <==> h < 0x80 && w in {0, 0xff}
  {
    assert 2 * (w % 0x80) + w % 2 == w <==> w in {0, 0xff};
    assert h % 0x80 == if h < 0x80 then h else h - 0x80;
  }

  /** A string length loses its value as soon as three bytes do not suffice and bit 7 differs from bit 8. */
  lemma U29Loses()
    ensures U29Bytes(0x20_0081).Some? && DecodedU29(U29Bytes(0x20_0081).value).value == 0x20_0181
  {
    var bs := U29Bytes(0x20_0081).value;
    assert bs == [0x80, 0xc0, 0x81, 0x81];
    assert bs[1..] == [0xc0, 0x81, 0x81] && bs[1..][1..] == [0x81, 0x81] && bs[1..][1..][1..] == [0x81];
  }

  method DecodeU29(rdr: Reader) returns (res: nat, ok: bool)
    requires rdr.Valid()
    modifies rdr
    ensures rdr.Valid() && U29(res, ok, rdr.Rest()) == DecodedU29(old(rdr.Rest()))
  {
    res := 0;
    for i := 0 to 4
      invariant rdr.Valid()
      invariant i < 4 && U29From(rdr.Rest(), i, res) == DecodedU29(old(rdr.Rest()))
    {
      if rdr.Len() == 0 {
        assert rdr.Rest() == [];
        return res, false;
      }
      var num := rdr.data[rdr.pos];
      assert rdr.Rest()[1..] == rdr.data[rdr.pos + 1..];
      rdr.pos := rdr.pos + 1;
      var flag := i < 3 && num >= 0x80;
      var val := if i == 3 then num else num % 0x80;
      if i == 0 {
        res := val;
      } else if i == 3 {
        res := 256 * res + val;
      } else {
        res := 0x80 * res + val;
      }
      if !flag {
        return res, true;
      }
    }
    assert false;
  }

  /** `encodeU28Flag` with the flag set, the only way the source calls it. */
  method EncodeU28Flag(num: nat, buff: Buffer) returns (ok: bool)
    modifies buff
    ensures ok == U29Bytes(2 * num + 1).Some?
    ensures buff.data == if ok then old(buff.data) + U29Bytes(2 * num + 1).value else old(buff.data)
  {
    var n := 2 * num + 1;
    ok := true;
    if n <= 0x7f {
      buff.Write([n % 0x80]);
    } else if n <= 0x3fff {
      buff.Write([0x80 + n / 0x80 % 0x80]);
      buff.Write([n % 0x80]);
    } else if n <= 0x1f_ffff {
      buff.Write([0x80 + n / 0x4000 % 0x80]);
      buff.Write([0x80 + n / 0x80 % 0x80]);
      buff.Write([n % 0x80]);
    } else if n <= 0x3fff_ffff {
      buff.Write([0x80 + n / 0x40_0000 % 0x80]);
      buff.Write([0x80 + n / 0x8000 % 0x80]);
      buff.Write([0x80 + n / 0x80 % 0x80]);
      buff.Write([n % 0x100]);
    } else {
      ok := false;
    }
  }

  // ---------- Decoding ----------

  /** UTF-8-vr; string references are not implemented in the source. */
  function DecodedString(bs: Data): (p: Parse<Data>)
    ensures p.Ok? ==> |p.rest| < |bs|
  {
    var u := DecodedU29(bs);
    if !u.ok then Err(ShortRead)
    else if u.value % 2 == 0 then Fatal
    else Take(u.rest, u.value / 2)
  }

  function DecodedOne(bs: Data): (p: Parse<Value>)
    ensures p.Ok? ==> |p.rest| < |bs|
    decreases |bs|, 0
  {
    var (marker, r) :- Take(bs, 1);
    if marker[0] == 6 then
      var (s, r1) :- DecodedString(r);
      Ok(Str(s), r1)
    else if marker[0] == 9 then
      var u := DecodedU29(r);
      if u.value % 2 == 0 then Fatal
      else if u.value / 2 == 0 then DecodedAssoc(u.rest, map[])
      else Ok(Null, u.rest)
    else Fatal
  }

  /** The associative part of an array, up to the empty key. */
  function DecodedAssoc(bs: Data, acc: map<Data, Value>): (p: Parse<Value>)
    ensures p.Ok? ==> |p.rest| < |bs|
    decreases |bs|, 1
  {
    var (key, r) :- DecodedString(bs);
    if key == [] then Ok(Obj(acc), r)
    else
      var (v, r1) :- DecodedOne(r);
      DecodedAssoc(r1, acc[key := v])
  }

  function DecodedAll(bs: Data): (p: Parse<seq<Value>>)
    ensures p.Ok? ==> p.rest == []
    decreases |bs|
  {
    if bs == [] then Ok([], [])
    else
      var (v, r) :- DecodedOne(bs);
      Prepended([v], DecodedAll(r))
  }

  method DecodeString(rdr: Reader) returns (r: Result<Data>)
    requires rdr.Valid()
    modifies rdr
    ensures rdr.Did(DecodedString(old(rdr.Rest())), r)
  {
    var u29, ok := DecodeU29(rdr);
    if !ok {
      return Failed(ShortRead);
    }
    if u29 % 2 == 0 {
      return Exit;
    }
    r := rdr.ReadFull(u29 / 2);
  }

  method DecodeOne(rdr: Reader) returns (r: Result<Value>)
    requires rdr.Valid()
    modifies rdr
    ensures rdr.Did(DecodedOne(old(rdr.Rest())), r)
    decreases |rdr.Rest()|
  {
    ghost var before := rdr.Rest();
    var marker := rdr.ReadFull(1);
    if marker.Failed? {
      return Failed(marker.kind);
    }
    match marker.value[0]
    case 6 =>
      var s := DecodeString(rdr);
      match s {
        case Done(str) => return Done(Str(str));
        case Failed(k) => return Failed(k);
        case Exit => return Exit;
      }
    case 9 =>
      var u29, _ := DecodeU29(rdr);
      if u29 % 2 == 0 {
        return Exit;
      }
      if u29 / 2 != 0 {
        return Done(Null);
      }
      var assoc: map<Data, Value> := map[];
      while true
        invariant rdr.Valid() && |rdr.Rest()| < |before|
        invariant DecodedAssoc(rdr.Rest(), assoc) == DecodedOne(before)
        decreases |rdr.Rest()|
      {
        var k := DecodeString(rdr);
        match k {
          case Failed(kind) => return Failed(kind);
          case Exit => return Exit;
          case Done(key) =>
            if key == [] {
              return Done(Obj(assoc));
            }
            var v := DecodeOne(rdr);
            match v {
              case Failed(kind) => return Failed(kind);
              case Exit => return Exit;
              case Done(val) => assoc := assoc[key := val];
            }
        }
      }
    case _ =>
      return Exit;
  }

  method DecodeAll(rdr: Reader) returns (r: Result<seq<Value>>)
    requires rdr.Valid()
    modifies rdr
    ensures rdr.Did(DecodedAll(old(rdr.Rest())), r)
  {
    var res: seq<Value> := [];
    ghost var before := rdr.Rest();
    PrependedStep([], [], DecodedAll(before));
    while rdr.Len() > 0
      invariant rdr.Valid()
      invariant DecodedAll(before) == Prepended(res, DecodedAll(rdr.Rest()))
      decreases |rdr.Rest()|
    {
      ghost var soFar := res;
      var v := DecodeOne(rdr);
      match v {
        case Failed(kind) => return Failed(kind);
        case Exit => return Exit;
        case Done(val) => res := res + [val];
      }
      PrependedStep(soFar, [v.value], DecodedAll(rdr.Rest()));
    }
    assert rdr.Rest() == [] && res + [] == res;
    return Done(res);
  }

  // ---------- Encoding ----------

  function StringBytes(s: Data): Option<Data> {
    match U29Bytes(2 * |s| + 1)
    case None => None
    case Some(len) => Some([6] + len + s)
  }

  /** What `Encode` makes of a list: an error ends it, and anything but a string is fatal. */
  function AllBytes(vs: seq<Value>): Result<Data> {
    if vs == [] then Done([])
    else if !vs[0].Str? then Exit
    else if StringBytes(vs[0].s).None? then Failed(Other)
    else match AllBytes(vs[1..])
         case Done(tail) => Done(StringBytes(vs[0].s).value + tail)
         case e => e
  }

  method EncodeString(s: Data, buff: Buffer) returns (ok: bool)
    modifies buff
    ensures ok == StringBytes(s).Some?
    ensures ok ==> buff.data == old(buff.data) + StringBytes(s).value
  {
    ghost var soFar := buff.data;
    buff.Write([6]);
    ok := EncodeU28Flag(|s|, buff);
    if ok {
      buff.Write(s);
      assert buff.data == soFar + StringBytes(s).value;
    }
  }

  method EncodeAll(vs: seq<Value>) returns (r: Result<Data>)
    ensures r == AllBytes(vs)
  {
    var buff := new Buffer();
    assert vs[0..] == vs;
    assert AllBytes(vs).Done? ==> [] + AllBytes(vs).value == AllBytes(vs).value;
    for i := 0 to |vs|
      invariant AllBytes(vs) == match AllBytes(vs[i..]) case Done(b) => Done(buff.data + b) case e => e
    {
      assert vs[i..][1..] == vs[i + 1..];
      ghost var soFar := buff.data;
      if !vs[i].Str? {
        return Exit;
      }
      var ok := EncodeString(vs[i].s, buff);
      if !ok {
        return Failed(Other);
      }
      assert AllBytes(vs[i + 1..]).Done? ==>
        soFar + AllBytes(vs[i..]).value == buff.data + AllBytes(vs[i + 1..]).value;
    }
    assert buff.data + [] == buff.data;
    return Done(buff.data);
  }

  predicate AllKept(vs: seq<Value>) {
    forall v :: v in vs ==> v.Str? && U29Keeps(2 * |v.s| + 1)
  }

  /** Lists of strings round-trip when every length does. */
  lemma {:induction false} StringsRoundTrip(vs: seq<Value>)
    requires AllKept(vs)
    ensures AllBytes(vs).Done?
    ensures DecodedAll(AllBytes(vs).value) == Ok(vs, [])
  {
    if vs != [] {
      StringsRoundTrip(vs[1..]);
      OneRoundTrip(vs[0].s, AllBytes(vs[1..]).value);
      assert [vs[0]] + vs[1..] == vs;
    }
  }

  /** Below 2^20 bytes every string length survives. */
  lemma ShortStringsKept(vs: seq<Value>)
    requires forall v :: v in vs ==> v.Str? && |v.s| < 0x10_0000
    ensures AllKept(vs)
  {
  }

  lemma OneRoundTrip(s: Data, rest: Data)
    requires U29Keeps(2 * |s| + 1)
    ensures StringBytes(s).Some?
    ensures DecodedOne(StringBytes(s).value + rest) == Ok(Str(s), rest)
  {
    var len := U29Bytes(2 * |s| + 1).value;
    var bs := StringBytes(s).value + rest;
    assert bs[1..] == len + (s + rest);
    U29RoundTrip(2 * |s| + 1, s + rest);
    TakeAppend(s, rest);
  }
}
