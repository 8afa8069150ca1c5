/** AMF 0: what its decoder computes, which byte strings its encoder may produce, and how the two fit.
    A Go map is enumerated in any order, so encoding is a relation between values and byte strings. */
module Amf0 {
  import opened Bytes
  import opened AmfValues
  import Amf3

  // ---------- Decoding ----------

  function DecodedString(bs: Data): (p: Parse<Data>)
    ensures p.Ok? ==> |p.rest| <= |bs| - 2
  {
    var (len, r) :- Take(bs, 2);
    Take(r, FromBE16(len))
  }

  function DecodedOne(bs: Data): (p: Parse<Value>)
    ensures p.Ok? ==> |p.rest| < |bs|
    decreases |bs|, 0
  {
    var (marker, r) :- Take(bs, 1);
    DecodedAfter(marker[0], r)
  }

  function DecodedAfter(marker: byte, r: Data): (p: Parse<Value>)
    ensures p.Ok? ==> |p.rest| <= |r|
    decreases |r|, 2
  {
    match marker
    case 0 => var (b, r1) :- Take(r, 8); Ok(Num(b), r1)
    case 1 => var (b, r1) :- Take(r, 1); Ok(Bool(b[0] != 0), r1)
    case 2 => var (s, r1) :- DecodedString(r); Ok(Str(s), r1)
    case 3 => DecodedObject(r, map[])
    case 5 => Ok(Null, r)
    case 6 => Ok(Null, r)
    case 8 => var (_, r1) :- Take(r, 4); DecodedObject(r1, map[])
    case 9 => Ok(ObjectEnd, r)
    case 10 => var (n, r1) :- Take(r, 4); DecodedItems(r1, FromBE32(n), [])
    case 17 => var (tail, r1) :- Amf3.DecodedAll(r); Ok(Amf3(tail), r1)
    case _ => Err(Other)
  }

  /** Key and value pairs up to an empty key, whose value must be the object end marker. */
  function DecodedObject(bs: Data, acc: map<Data, Value>): (p: Parse<Value>)
    ensures p.Ok? ==> |p.rest| < |bs|
    decreases |bs|, 1
  {
    var (key, r) :- DecodedString(bs);
    var (v, r1) :- DecodedOne(r);
    if key == [] then
      if v.ObjectEnd? then Ok(Obj(acc), r1) else Fatal
    else
      DecodedObject(r1, acc[key := v])
  }

  function DecodedItems(bs: Data, n: nat, acc: seq<Value>): (p: Parse<Value>)
    ensures p.Ok? ==> |p.rest| <= |bs|
    decreases |bs|, 1, n
  {
    if n == 0 then Ok(List(acc), bs)
    else
      var (v, r) :- DecodedOne(bs);
      DecodedItems(r, n - 1, acc + [v])
  }

  function Spliced(v: Value): seq<Value> {
    if v.Amf3? then v.tail else [v]
  }

  function DecodedAll(bs: Data): (p: Parse<seq<Value>>)
    ensures p.Ok? ==> p.rest == []
    decreases |bs|
  {
    if bs == [] then Ok([], [])
    else
      var (v, r) :- DecodedOne(bs);
      Prepended(Spliced(v), DecodedAll(r))
  }

  /** `DecodeAmf0`: with a padding hint the first byte is skipped, and read after all if that fails. */
  function DecodedAmf0(bs: Data, padded: bool): Parse<seq<Value>> {
    if !padded then DecodedAll(bs)
    else
      var p := DecodedAll(if bs == [] then [] else bs[1..]);
      if p.Err? then DecodedAll(bs) else p
  }

  // ---------- Encoding ----------

  function Utf8(s: Data): (d: Data)
    ensures |d| == 2 + |s|
  {
    BE16(|s|) + s
  }

  function Decimal(n: nat): (d: Data)
    ensures d != [] && |d| <= n + 1
    ensures DecimalValue(d) == n
  {
    if n < 10 then [48 + n] else
      var d := Decimal(n / 10) + [48 + n % 10];
      assert d[..|d| - 1] == Decimal(n / 10);
      d
  }

  function DecimalValue(d: Data): int {
    if d == [] then 0 else 10 * DecimalValue(d[..|d| - 1]) + (d[|d| - 1] as int - 48)
  }

  /** The map a list is turned into before it is written: items under their decimal index. */
  function Indexed(items: seq<Value>): (m: map<Data, Value>)
    ensures forall k :: k in m ==> k != [] && m[k] in items
  {
    if items == [] then map[]
    else
      var n := |items| - 1;
      Indexed(items[..n])[Decimal(n) := items[n]]
  }

  /** Its keys are exactly the decimal indices of the list, as many as it has items. */
  lemma {:induction false} IndexedKeys(items: seq<Value>)
    ensures forall k :: k in Indexed(items) ==> 0 <= DecimalValue(k) < |items| && k == Decimal(DecimalValue(k))
    ensures |Indexed(items)| == |items|
  {
    if items != [] {
      var n := |items| - 1;
      IndexedKeys(items[..n]);
      assert DecimalValue(Decimal(n)) == n;
      assert Decimal(n) !in Indexed(items[..n]);
    }
  }

  /** Each item stands under its own decimal index. */
  lemma {:induction false} IndexedAt(items: seq<Value>, i: nat)
    requires i < |items|
    ensures Decimal(i) in Indexed(items) && Indexed(items)[Decimal(i)] == items[i]
  {
    var n := |items| - 1;
    if i < n {
      IndexedAt(items[..n], i);
      assert DecimalValue(Decimal(i)) != DecimalValue(Decimal(n));
    }
  }

  ghost predicate IsEntry(bs: Data, key: Data, val: Data, tail: Data) {
    |key| <= 0xffff && bs == Utf8(key) + val + tail
  }

  /** `bs` is one of the byte strings `encode` can append for `v`. Nothing is, if `encode` fails or is fatal. */
  ghost predicate IsEncoding(v: Value, ecma: bool, bs: Data)
    decreases |bs|, 1
  {
    match v
    case Num(b) => bs == [0] + b
    case Int(b) => bs == [0] + b
    case Bool(b) => bs == [1, if b then 1 else 0]
    case Str(s) => |s| <= 0xffff && bs == [2] + Utf8(s)
    case Obj(m) =>
      if ecma then 5 <= |bs| && bs[..5] == [8] + BE32(|m|) && IsEntries(m, true, bs[5..])
      else 1 <= |bs| && bs[..1] == [3] && IsEntries(m, false, bs[1..])
    case List(items) =>
      5 <= |bs| && bs[..5] == [8] + BE32(|Indexed(items)|) && IsEntries(Indexed(items), true, bs[5..])
    case Null => bs == [5]
    case SwitchToAmf3 => bs == [17]
    case _ => false
  }

  /** The entries of `m`, each once, in some order, and the object end. */
  ghost predicate IsEntries(m: map<Data, Value>, ecma: bool, bs: Data)
    decreases |bs|, 0
  {
    if m == map[] then bs == [0, 0, 9]
    else exists key, val, tail ::
      && IsEntry(bs, key, val, tail)
      && key in m
      && IsEncoding(m[key], ecma, val)
      && IsEntries(m - {key}, ecma, tail)
  }

  /** What `Encode` may produce: up to a switch marker AMF 0 values, after it AMF 3 ones. */
  ghost predicate IsEncodingAll(vs: seq<Value>, ecma: bool, bs: Data)
    decreases |vs|
  {
    if vs == [] then bs == []
    else if vs[0].SwitchToAmf3? then
      [17] <= bs && Amf3.AllBytes(vs[1..]) == Done(bs[1..])
    else exists val, tail :: IsAppended(bs, val, tail) && IsEncoding(vs[0], ecma, val) && IsEncodingAll(vs[1..], ecma, tail)
  }

  ghost predicate IsAppended(bs: Data, a: Data, b: Data) {
    bs == a + b
  }

  // ---------- Round trip ----------

  /** Free of empty keys and of nested switch markers, which the format cannot carry. */
  ghost predicate Clean(v: Value) {
    match v
    case Obj(m) => forall k :: k in m ==> k != [] && Clean(m[k])
    case List(items) => forall i :: 0 <= i < |items| ==> Clean(items[i])
    case SwitchToAmf3 => false
    case _ => true
  }

  /** The value that comes back: ints as numbers, lists as maps with decimal keys. */
  ghost function Norm(v: Value): Value {
    match v
    case Int(b) => Num(b)
    case Obj(m) => Obj(map k | k in m :: Norm(m[k]))
    case List(items) => Obj(map k | k in Indexed(items) :: Norm(Indexed(items)[k]))
    case _ => v
  }

  ghost function NormMap(m: map<Data, Value>): map<Data, Value> {
    map k | k in m :: Norm(m[k])
  }

  lemma Utf8RoundTrip(s: Data, rest: Data)
    requires |s| <= 0xffff
    ensures DecodedString(Utf8(s) + rest) == Ok(s, rest)
  {
    LengthThen(BE16(|s|), s, rest);
  }

  lemma LengthThen(len: Data, s: Data, rest: Data)
    requires |len| == 2 && FromBE16(len) == |s|
    ensures DecodedString(len + s + rest) == Ok(s, rest)
  {
    assert len + s + rest == len + (s + rest);
    TakeAppend(len, s + rest);
    TakeAppend(s, rest);
  }

  lemma AfterMarker(marker: byte, r: Data)
    ensures DecodedOne([marker] + r) == DecodedAfter(marker, r)
  {
    TakeAppend([marker], r);
  }

  lemma ObjectEnds(rest: Data, acc: map<Data, Value>)
    ensures DecodedObject([0, 0, 9] + rest, acc) == Ok(Obj(acc), rest)
  {
    assert [0, 0, 9] + rest == Utf8([]) + ([9] + rest);
    Utf8RoundTrip([], [9] + rest);
    AfterMarker(9, rest);
  }

  lemma ObjectStep(key: Data, val: Data, v: Value, rest: Data, acc: map<Data, Value>)
    requires key != [] && |key| <= 0xffff
    requires DecodedOne(val + rest) == Ok(v, rest)
    ensures DecodedObject(Utf8(key) + (val + rest), acc) == DecodedObject(rest, acc[key := v])
  {
    Utf8RoundTrip(key, val + rest);
  }

  /** Whatever order the maps were enumerated in, decoding gives the normalised value back
      and stops exactly where its encoding ends. */
  lemma {:induction false} RoundTrip(v: Value, ecma: bool, bs: Data, rest: Data)
    requires Clean(v) && IsEncoding(v, ecma, bs)
    ensures DecodedOne(bs + rest) == Ok(Norm(v), rest)
    decreases |bs|, 1
  {
    if v.Obj? {
      MapRoundTrip(v.fields, ecma, bs, rest);
    } else if v.List? {
      MapRoundTrip(Indexed(v.items), true, bs, rest);
    } else {
      assert bs + rest == [bs[0]] + (bs[1..] + rest);
      AfterMarker(bs[0], bs[1..] + rest);
      TakeAppend(bs[1..], rest);
      if v.Str? {
        assert bs[1..] == Utf8(v.s);
        Utf8RoundTrip(v.s, rest);
      }
    }
  }

  lemma {:induction false} MapRoundTrip(m: map<Data, Value>, ecma: bool, bs: Data, rest: Data)
    requires forall k :: k in m ==> k != [] && Clean(m[k])
    requires IsEncoding(Obj(m), ecma, bs)
    ensures DecodedOne(bs + rest) == Ok(Obj(NormMap(m)), rest)
    decreases |bs|, 0
  {
    var body := bs[if ecma then 5 else 1..];
    MapHeader(m, ecma, bs, rest);
    EntriesRoundTrip(m, ecma, body, rest, map[]);
    assert map[] + NormMap(m) == NormMap(m);
  }

  lemma MapHeader(m: map<Data, Value>, ecma: bool, bs: Data, rest: Data)
    requires IsEncoding(Obj(m), ecma, bs)
    ensures DecodedOne(bs + rest) == DecodedObject(bs[if ecma then 5 else 1..] + rest, map[])
  {
    if ecma {
      var body := bs[5..];
      assert bs + rest == [8] + (BE32(|m|) + (body + rest)) by {
        assert bs == bs[..5] + body;
      }
      AfterMarker(8, BE32(|m|) + (body + rest));
      TakeAppend(BE32(|m|), body + rest);
    } else {
      assert bs + rest == [3] + (bs[1..] + rest);
      AfterMarker(3, bs[1..] + rest);
    }
  }

  lemma NormMapStep(m: map<Data, Value>, key: Data, acc: map<Data, Value>)
    requires key in m
    ensures acc[key := Norm(m[key])] + NormMap(m - {key}) == acc + NormMap(m)
  {
  }

  lemma FirstEntry(m: map<Data, Value>, ecma: bool, bs: Data, rest: Data) returns (key: Data, val: Data, tail: Data)
    requires IsEntries(m, ecma, bs) && m != map[]
    ensures key in m && |key| <= 0xffff && |val| < |bs| && |tail| < |bs|
    ensures bs + rest == Utf8(key) + (val + (tail + rest))
    ensures IsEncoding(m[key], ecma, val) && IsEntries(m - {key}, ecma, tail)
  {
    key, val, tail :|
      IsEntry(bs, key, val, tail) && key in m && IsEncoding(m[key], ecma, val) && IsEntries(m - {key}, ecma, tail);
    EntryBytes(bs, key, val, tail, rest);
  }

  lemma EntryBytes(bs: Data, key: Data, val: Data, tail: Data, rest: Data)
    requires IsEntry(bs, key, val, tail)
    ensures bs + rest == Utf8(key) + (val + (tail + rest))
    ensures |key| <= 0xffff && |val| < |bs| && |tail| < |bs|
  {
  }

  lemma {:induction false} EntriesRoundTrip(m: map<Data, Value>, ecma: bool, bs: Data, rest: Data, acc: map<Data, Value>)
    requires IsEntries(m, ecma, bs)
    requires forall k :: k in m ==> k != [] && Clean(m[k])
    requires m.Keys !! acc.Keys
    ensures DecodedObject(bs + rest, acc) == Ok(Obj(acc + NormMap(m)), rest)
    decreases |bs|, 0
  {
    if m == map[] {
      ObjectEnds(rest, acc);
      assert acc + NormMap(m) == acc;
    } else {
      var key, val, tail := FirstEntry(m, ecma, bs, rest);
      RoundTrip(m[key], ecma, val, tail + rest);
      ObjectStep(key, val, Norm(m[key]), tail + rest, acc);
      EntriesRoundTrip(m - {key}, ecma, tail, rest, acc[key := Norm(m[key])]);
      NormMapStep(m, key, acc);
    }
  }

  /** Why keys must not be empty: an entry with an empty key ends the process that reads it. */
  lemma EmptyKeyIsFatal(v: Value, ecma: bool, val: Data, rest: Data, acc: map<Data, Value>)
    requires Clean(v) && IsEncoding(v, ecma, val)
    ensures DecodedObject(Utf8([]) + (val + rest), acc) == Fatal
  {
    Utf8RoundTrip([], val + rest);
    RoundTrip(v, ecma, val, rest);
  }

  /** No switch marker inside, where it would turn all that follows into AMF 3. */
  ghost predicate Unswitched(v: Value) {
    match v
    case Obj(m) => forall k :: k in m ==> Unswitched(m[k])
    case List(items) => forall i :: 0 <= i < |items| ==> Unswitched(items[i])
    case SwitchToAmf3 => false
    case _ => true
  }

  /** An entry no decoder gets past: an empty key, or a value that has one somewhere. */
  ghost predicate IsStop(key: Data, v: Value) {
    key == [] || !Clean(v)
  }

  /** With an empty key anywhere in it, however deep, a value has no encoding that can be read: each ends the process. */
  lemma {:induction false} UncleanIsFatal(v: Value, ecma: bool, bs: Data, rest: Data)
    requires Unswitched(v) && !Clean(v) && IsEncoding(v, ecma, bs)
    ensures DecodedOne(bs + rest) == Fatal
    decreases |bs|, 1
  {
    if v.Obj? {
      UncleanMap(v.fields, ecma, bs, rest);
    } else {
      var m := Indexed(v.items);
      var i :| 0 <= i < |v.items| && !Clean(v.items[i]);
      IndexedAt(v.items, i);
      assert IsStop(Decimal(i), m[Decimal(i)]);
      UncleanMap(m, true, bs, rest);
    }
  }

  lemma {:induction false} UncleanMap(m: map<Data, Value>, ecma: bool, bs: Data, rest: Data)
    requires (forall k :: k in m ==> Unswitched(m[k])) && exists k :: k in m && IsStop(k, m[k])
    requires IsEncoding(Obj(m), ecma, bs)
    ensures DecodedOne(bs + rest) == Fatal
    decreases |bs|, 0
  {
    MapHeader(m, ecma, bs, rest);
    UncleanEntries(m, ecma, bs[if ecma then 5 else 1..], rest, map[]);
  }

  lemma FatalEntry(key: Data, val: Data, rest: Data, acc: map<Data, Value>)
    requires |key| <= 0xffff && DecodedOne(val + rest) == Fatal
    ensures DecodedObject(Utf8(key) + (val + rest), acc) == Fatal
  {
    Utf8RoundTrip(key, val + rest);
  }

  lemma {:induction false} UncleanEntries(m: map<Data, Value>, ecma: bool, bs: Data, rest: Data, acc: map<Data, Value>)
    requires IsEntries(m, ecma, bs)
    requires (forall k :: k in m ==> Unswitched(m[k])) && exists k :: k in m && IsStop(k, m[k])
    ensures DecodedObject(bs + rest, acc) == Fatal
    decreases |bs|, 0
  {
    var key, val, tail := FirstEntry(m, ecma, bs, rest);
    if !Clean(m[key]) {
      UncleanIsFatal(m[key], ecma, val, tail + rest);
      FatalEntry(key, val, tail + rest, acc);
    } else if key == [] {
      EmptyKeyIsFatal(m[key], ecma, val, tail + rest, acc);
    } else {
      RoundTrip(m[key], ecma, val, tail + rest);
      ObjectStep(key, val, Norm(m[key]), tail + rest, acc);
      var k :| k in m && IsStop(k, m[k]);
      assert k in m - {key} && IsStop(k, (m - {key})[k]);
      UncleanEntries(m - {key}, ecma, tail, rest, acc[key := Norm(m[key])]);
    }
  }

  /** So the round trip holds of exactly the values without an empty key. */
  lemma DecodesExactly(v: Value, ecma: bool, bs: Data, rest: Data)
    requires Unswitched(v) && IsEncoding(v, ecma, bs)
    ensures DecodedOne(bs + rest) == if Clean(v) then Ok(Norm(v), rest) else Fatal
  {
    if Clean(v) { RoundTrip(v, ecma, bs, rest); } else { UncleanIsFatal(v, ecma, bs, rest); }
  }

  // ---------- Lists of values ----------

  /** What `Encode` is given: clean values and, after a switch marker, strings that AMF 3 keeps. */
  ghost predicate CleanAll(vs: seq<Value>) {
    vs != [] ==>
      if vs[0].SwitchToAmf3? then Amf3.AllKept(vs[1..])
      else Clean(vs[0]) && CleanAll(vs[1..])
  }

  ghost function NormAll(vs: seq<Value>): seq<Value> {
    if vs == [] then []
    else if vs[0].SwitchToAmf3? then vs[1..]
    else [Norm(vs[0])] + NormAll(vs[1..])
  }

  /** Decoding an encoded list gives the normalised values followed by the strings after the marker. */
  lemma {:induction false} AllRoundTrip(vs: seq<Value>, ecma: bool, bs: Data)
    requires CleanAll(vs) && IsEncodingAll(vs, ecma, bs)
    ensures DecodedAll(bs) == Ok(NormAll(vs), [])
    decreases |vs|
  {
    if vs == [] {
    } else if vs[0].SwitchToAmf3? {
      Amf3.StringsRoundTrip(vs[1..]);
      assert bs == [17] + bs[1..];
      SwitchedTail(vs[1..], bs[1..]);
    } else {
      var val, tail :| IsAppended(bs, val, tail) && IsEncoding(vs[0], ecma, val) && IsEncodingAll(vs[1..], ecma, tail);
      RoundTrip(vs[0], ecma, val, tail);
      AllRoundTrip(vs[1..], ecma, tail);
      assert Spliced(Norm(vs[0])) == [Norm(vs[0])];
    }
  }

  lemma SwitchedTail(vs: seq<Value>, tail: Data)
    requires Amf3.DecodedAll(tail) == Ok(vs, [])
    ensures DecodedAll([17] + tail) == Ok(vs, [])
  {
    AfterMarker(17, tail);
    assert DecodedOne([17] + tail) == Ok(Amf3(vs), []);
    assert vs + [] == vs;
  }

  // ---------- Strict arrays ----------

  /** `bs` is made of encodings of the items, one after the other. */
  ghost predicate AreEncodings(items: seq<Value>, ecma: bool, bs: Data)
    decreases |items|
  {
    if items == [] then bs == []
    else exists val, tail :: IsAppended(bs, val, tail) && IsEncoding(items[0], ecma, val) && AreEncodings(items[1..], ecma, tail)
  }

  ghost function NormEach(items: seq<Value>): seq<Value> {
    if items == [] then [] else [Norm(items[0])] + NormEach(items[1..])
  }

  lemma {:induction false} ItemsRoundTrip(items: seq<Value>, ecma: bool, bs: Data, rest: Data, acc: seq<Value>)
    requires AreEncodings(items, ecma, bs) && forall v :: v in items ==> Clean(v)
    ensures DecodedItems(bs + rest, |items|, acc) == Ok(List(acc + NormEach(items)), rest)
    decreases |items|
  {
    if items == [] {
      assert bs + rest == rest && acc + [] == acc;
    } else {
      var val, tail :| IsAppended(bs, val, tail) && IsEncoding(items[0], ecma, val) && AreEncodings(items[1..], ecma, tail);
      Assoc3(val, tail, rest);
      RoundTrip(items[0], ecma, val, tail + rest);
      ItemsRoundTrip(items[1..], ecma, tail, rest, acc + [Norm(items[0])]);
      assert acc + [Norm(items[0])] + NormEach(items[1..]) == acc + NormEach(items);
    }
  }

  /** The source never writes a strict array, but it reads one: its items come back in order, and what follows is left. */
  lemma StrictArrayRead(items: seq<Value>, ecma: bool, bs: Data, rest: Data)
    requires AreEncodings(items, ecma, bs) && |items| < 0x1_0000_0000 && forall v :: v in items ==> Clean(v)
    ensures DecodedOne([10] + (BE32(|items|) + (bs + rest))) == Ok(List(NormEach(items)), rest)
  {
    AfterMarker(10, BE32(|items|) + (bs + rest));
    TakeAppend(BE32(|items|), bs + rest);
    SmallMod(|items|, 0x1_0000_0000);
    ItemsRoundTrip(items, ecma, bs, rest, []);
    assert [] + NormEach(items) == NormEach(items);
  }

  // ---------- No strict prefix decodes ----------

  // If more bytes follow what was read of `p + x`, no switch marker was met, and reading `p` alone cannot tell the difference.

  lemma TakeMore(p: Data, x: Data, n: nat)
    requires Take(p, n).Ok?
    ensures Take(p + x, n) == Ok(Take(p, n).value, Take(p, n).rest + x)
  {
    assert (p + x)[..n] == p[..n] && (p + x)[n..] == p[n..] + x;
  }

  lemma StringMore(p: Data, x: Data)
    requires DecodedString(p).Ok?
    ensures DecodedString(p + x) == Ok(DecodedString(p).value, DecodedString(p).rest + x)
  {
    TakeMore(p, x, 2);
    TakeMore(p[2..], x, FromBE16(p[..2]));
  }

  lemma {:induction false} OneMore(p: Data, x: Data)
    requires DecodedOne(p).Ok? && DecodedOne(p + x).Ok? && DecodedOne(p + x).rest != []
    ensures DecodedOne(p + x) == Ok(DecodedOne(p).value, DecodedOne(p).rest + x)
    decreases |p|, 0
  {
    TakeMore(p, x, 1);
    AfterMore(p[0], p[1..], x);
  }

  lemma {:induction false} AfterMore(marker: byte, p: Data, x: Data)
    requires DecodedAfter(marker, p).Ok? && DecodedAfter(marker, p + x).Ok? && DecodedAfter(marker, p + x).rest != []
    ensures DecodedAfter(marker, p + x) == Ok(DecodedAfter(marker, p).value, DecodedAfter(marker, p).rest + x)
    decreases |p|, 2
  {
    match marker
    case 0 => TakeMore(p, x, 8);
    case 1 => TakeMore(p, x, 1);
    case 2 => StringMore(p, x);
    case 3 => ObjectMore(p, map[], x);
    case 8 => TakeMore(p, x, 4); ObjectMore(p[4..], map[], x);
    case 10 => TakeMore(p, x, 4); ItemsMore(p[4..], FromBE32(p[..4]), [], x);
    case _ =>
  }

  lemma {:induction false} ObjectMore(p: Data, acc: map<Data, Value>, x: Data)
    requires DecodedObject(p, acc).Ok? && DecodedObject(p + x, acc).Ok? && DecodedObject(p + x, acc).rest != []
    ensures DecodedObject(p + x, acc) == Ok(DecodedObject(p, acc).value, DecodedObject(p, acc).rest + x)
    decreases |p|, 1
  {
    StringMore(p, x);
    var key, r := DecodedString(p).value, DecodedString(p).rest;
    OneMore(r, x);
    if key != [] {
      ObjectMore(DecodedOne(r).rest, acc[key := DecodedOne(r).value], x);
    }
  }

  lemma {:induction false} ItemsMore(p: Data, n: nat, acc: seq<Value>, x: Data)
    requires DecodedItems(p, n, acc).Ok? && DecodedItems(p + x, n, acc).Ok? && DecodedItems(p + x, n, acc).rest != []
    ensures DecodedItems(p + x, n, acc) == Ok(DecodedItems(p, n, acc).value, DecodedItems(p, n, acc).rest + x)
    decreases |p|, 1, n
  {
    if n > 0 {
      OneMore(p, x);
      ItemsMore(DecodedOne(p).rest, n - 1, acc + [DecodedOne(p).value], x);
    }
  }

  /** The encoding of one value is self-delimiting: none of its strict prefixes decodes. */
  lemma NoPrefixDecodes(v: Value, ecma: bool, bs: Data, n: nat)
    requires Clean(v) && IsEncoding(v, ecma, bs) && n < |bs|
    ensures !DecodedOne(bs[..n]).Ok?
  {
    var p, x := bs[..n], bs[n..] + [0];
    RoundTrip(v, ecma, bs, [0]);
    assert bs + [0] == p + x;
    if DecodedOne(p).Ok? {
      OneMore(p, x);
    }
  }
}
