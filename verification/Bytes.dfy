/** Byte sequences, big and little endian integers, and the two Go stream types the
    codecs use: a reader that is advanced and a buffer that is appended to. */
module Bytes {

  type byte = x: int | 0 <= x < 256
  type Data = seq<byte>

  /** `ShortRead` is an I/O error, `Malformed` the source's `DecodeError`, `Other` any further error value. */
  datatype ErrKind = ShortRead | Malformed | Other

  /** The outcome of parsing a prefix of a byte sequence. `Fatal` stands for `log.Fatal`, which ends the process. */
  datatype Parse<+T> = Ok(value: T, rest: Data) | Err(kind: ErrKind) | Fatal {
    predicate IsFailure() {
      !Ok?
    }

    function PropagateFailure<U>(): Parse<U>
      requires IsFailure()
    {
      if Err? then Err(kind) else Fatal
    }

    function Extract(): (T, Data)
      requires !IsFailure()
    {
      (value, rest)
    }
  }

  /** What a reading method hands back to its caller; the bytes left stay in the reader. */
  datatype Result<+T> = Done(value: T) | Failed(kind: ErrKind) | Exit

  /** The list `p` yields, with `front` before it. */
  function Prepended<T>(front: seq<T>, p: Parse<seq<T>>): (r: Parse<seq<T>>) {
    match p
    case Ok(vs, rest) => Ok(front + vs, rest)
    case _ => p
  }

  lemma PrependedStep<T>(a: seq<T>, b: seq<T>, p: Parse<seq<T>>)
    ensures Prepended(a, Prepended(b, p)) == Prepended(a + b, p)
    ensures Prepended([], p) == p
  {
    if p.Ok? {
      assert a + (b + p.value) == (a + b) + p.value && [] + p.value == p.value;
    }
  }

  function Take(bs: Data, n: nat): Parse<Data> {
    if |bs| < n then Err(ShortRead) else Ok(bs[..n], bs[n..])
  }

  // Integers written by the source keep only their low bytes, whatever their sign.

  function BE16(n: int): (d: Data)
    ensures |d| == 2 && FromBE16(d) == n % 0x1_0000
  {
    [(n / 256) % 256, n % 256]
  }

  function BE24(n: int): (d: Data)
    ensures |d| == 3 && FromBE24(d) == n % 0x100_0000
  {
    SplitLow(n, 0x1_0000, 256);
    [(n / 0x1_0000) % 256] + BE16(n)
  }

  function BE32(n: int): (d: Data)
    ensures |d| == 4 && FromBE32(d) == n % 0x1_0000_0000
  {
    SplitLow(n, 0x1_0000, 0x1_0000);
    BE16(n / 0x1_0000) + BE16(n)
  }

  function LE32(n: int): (d: Data)
    ensures |d| == 4 && FromLE32(d) == n % 0x1_0000_0000
  {
    var d := BE32(n);
    [d[3], d[2], d[1], d[0]]
  }

  function FromBE16(d: Data): (n: nat)
    requires |d| == 2
  {
    256 * (d[0] as int) + d[1]
  }

  function FromBE24(d: Data): (n: nat)
    requires |d| == 3
  {
    0x1_0000 * (d[0] as int) + 256 * (d[1] as int) + d[2]
  }

  function FromBE32(d: Data): (n: nat)
    requires |d| == 4
  {
    0x100_0000 * (d[0] as int) + 0x1_0000 * (d[1] as int) + 256 * (d[2] as int) + d[3]
  }

  function FromLE32(d: Data): (n: nat)
    requires |d| == 4
  {
    FromBE32([d[3], d[2], d[1], d[0]])
  }

  /** The low digits of `n`, then the next ones, make up the low digits of both together. */
  lemma SplitLow(n: int, low: int, next: int)
    requires low > 0 && next > 0
    ensures low * ((n / low) % next) + n % low == n % (low * next)
  {
    var q := n / low;
    assert n == low * q + n % low && q == next * (q / next) + q % next;
    var r := low * (q % next) + n % low;
    assert n == (low * next) * (q / next) + r by {
      assert low * (next * (q / next)) == (low * next) * (q / next);
    }
    assert 0 <= r < low * next by {
      assert low * (q % next) <= low * (next - 1);
    }
    Quotient(n, low * next, q / next, r);
  }

  lemma Quotient(n: int, d: int, q: int, r: int)
    requires d > 0 && n == d * q + r && 0 <= r < d
    ensures n / d == q && n % d == r
  {
    var k := n / d - q;
    assert d * k == r - n % d;
    MulAtLeast(d, k);
  }

  lemma SmallMod(n: int, d: int)
    requires 0 <= n < d
    ensures n % d == n
  {
  }

  lemma MulAtLeast(d: int, k: int)
    requires d > 0
    ensures k >= 1 ==> d * k >= d
    ensures k <= -1 ==> d * k <= -d
  {
  }

  lemma TakeAppend(a: Data, b: Data)
    ensures (a + b)[..|a|] == a && (a + b)[|a|..] == b
    ensures Take(a + b, |a|) == Ok(a, b)
  {
    assert (a + b)[..|a|] == a && (a + b)[|a|..] == b;
  }

  lemma Assoc3(a: Data, b: Data, c: Data)
    ensures a + b + c == a + (b + c)
  {
  }

  lemma Assoc4(a: Data, b: Data, c: Data, d: Data)
    ensures a + b + c + d == a + (b + (c + d))
  {
  }

  /** A `bytes.Reader`, or the receiving side of a connection: fixed contents and a cursor. */
  class Reader {
    const data: Data
    var pos: nat

    constructor (data: Data)
      ensures this.data == data && pos == 0
    {
      this.data := data;
      pos := 0;
    }

    ghost predicate Valid()
      reads this
    {
      pos <= |data|
    }

    ghost function Rest(): Data
      requires Valid()
      reads this
    {
      data[pos..]
    }

    /** The reader stands where the parse `p` of its earlier contents ends, and `r` is what `p` yields. */
    ghost predicate Did<T(!new)>(p: Parse<T>, r: Result<T>)
      reads this
    {
      && Valid()
      && match p
         case Ok(v, rest) => r == Done(v) && Rest() == rest
         case Err(k) => r == Failed(k)
         case Fatal => r == Exit
    }

    function Len(): nat
      requires Valid()
      reads this
    {
      |data| - pos
    }

    /** `io.ReadFull` into a buffer of `n` bytes; a short read uses up what there is. */
    method ReadFull(n: nat) returns (r: Result<Data>)
      requires Valid()
      modifies this
      ensures Did(Take(old(Rest()), n), r)
    {
      if |data| - pos < n {
        pos := |data|;
        return Failed(ShortRead);
      }
      r := Done(data[pos..pos + n]);
      assert Rest()[..n] == data[pos..pos + n] && Rest()[n..] == data[pos + n..];
      pos := pos + n;
    }
  }

  /** A `bytes.Buffer` in its writing role. */
  class Buffer {
    var data: Data

    constructor ()
      ensures data == []
    {
      data := [];
    }

    method Write(d: Data)
      modifies this
      ensures data == old(data) + d
    {
      data := data + d;
    }
  }
}
