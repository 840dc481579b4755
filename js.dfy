/** JavaScript values as the engine stores and publishes them, and the
    Node.js Buffer operations its encoders and decoders rely on. */
module Js {

  datatype Option<+T> = None | Some(value: T) {
    function GetOr(default: T): T {
      if Some? then value else default
    }
  }

  type byte = x: int | 0 <= x < 256
  type Bytes = seq<byte>

  /** A value held in the status object or handed to the publication sink:
      undefined, null, a boolean, a finite number, NaN, a string or a Date
      (milliseconds since the epoch). */
  datatype Value = Undefined | Null | Bool(b: bool) | Num(x: real) | NaN | Text(s: string) | Date(ms: int)

  /** JavaScript `===`. NaN is not equal to itself, and a Date is an object,
      so a freshly created one is identical to nothing already stored. */
  predicate StrictEquals(a: Value, b: Value) {
    a == b && !a.NaN? && !a.Date?
  }

  /** `buf[i]`: undefined outside the buffer. */
  function At(data: Bytes, i: int): Option<byte> {
    if 0 <= i < |data| then Some(data[i]) else None
  }

  /** `buf[i]` stored as a value: a number, or undefined. */
  function ByteValue(o: Option<byte>): Value {
    if o.Some? then Num(o.value as real) else Undefined
  }

  /** `Boolean(buf[i])`: false for undefined and for 0. */
  predicate Truthy(o: Option<byte>) {
    o.Some? && o.value != 0
  }

  function Pow2(n: nat): (r: nat)
    ensures r >= 1
  {
    if n == 0 then 1 else 2 * Pow2(n - 1)
  }

  /** `bitmask.check(b).mask.bitN`, taken to be bit N of b; an undefined
      byte reads as 0. */
  predicate Bit(o: Option<byte>, n: nat) {
    o.Some? && (o.value / Pow2(n)) % 2 == 1
  }

  /** `buf.readUInt16LE(off)`; None where Node throws a RangeError. */
  function U16LE(data: Bytes, off: nat): (r: Option<int>)
    ensures r.Some? <==> off + 2 <= |data|
    ensures r.Some? ==> 0 <= r.value < 0x1_0000
  {
    if off + 2 <= |data| then Some(data[off] as int + 0x100 * (data[off + 1] as int)) else None
  }

  /** `buf.readUInt32LE(off)`; None where Node throws a RangeError. */
  function U32LE(data: Bytes, off: nat): (r: Option<int>)
    ensures r.Some? <==> off + 4 <= |data|
    ensures r.Some? ==> 0 <= r.value < 0x1_0000_0000
  {
    if off + 4 <= |data| then
      Some(data[off] as int + 0x100 * (data[off + 1] as int) + 0x1_0000 * (data[off + 2] as int) + 0x100_0000 * (data[off + 3] as int))
    else None
  }

  /** `buf.readInt16LE(off)`: two's complement of the unsigned reading. */
  function I16LE(data: Bytes, off: nat): (r: Option<int>)
    ensures r.Some? <==> off + 2 <= |data|
    ensures r.Some? ==> -0x8000 <= r.value < 0x8000
  {
    match U16LE(data, off)
    case None => None
    case Some(u) => Some(if u >= 0x8000 then u - 0x1_0000 else u)
  }

  /** `buf.readInt8(off)`. */
  function I8(data: Bytes, off: nat): (r: Option<int>)
    ensures r.Some? <==> off < |data|
    ensures r.Some? ==> -0x80 <= r.value < 0x80
    ensures r.Some? ==> r.value % 0x100 == data[off]
  {
    if off < |data| then Some(if data[off] >= 0x80 then data[off] as int - 0x100 else data[off] as int) else None
  }

  /** The little-endian bytes of a 16-bit word, as a device sends it. */
  function LE16(n: int): (r: Bytes)
    requires 0 <= n < 0x1_0000
    ensures |r| == 2
  {
    [n % 0x100, n / 0x100]
  }

  /** The little-endian bytes of a 32-bit word. */
  function LE32(n: int): (r: Bytes)
    requires 0 <= n < 0x1_0000_0000
    ensures |r| == 4
  {
    LE16(n % 0x1_0000) + LE16(n / 0x1_0000)
  }

  /** Reading a 16-bit word back where it was written gives the word. */
  lemma U16LERoundTrip(pre: Bytes, n: int, post: Bytes)
    requires 0 <= n < 0x1_0000
    ensures U16LE(pre + LE16(n) + post, |pre|) == Some(n)
  {
    var data := pre + LE16(n) + post;
    assert data[|pre|] == n % 0x100 && data[|pre| + 1] == n / 0x100;
  }

  /** Reading a 32-bit word back where it was written gives the word. */
  lemma U32LERoundTrip(pre: Bytes, n: int, post: Bytes)
    requires 0 <= n < 0x1_0000_0000
    ensures U32LE(pre + LE32(n) + post, |pre|) == Some(n)
  {
    var data := pre + LE32(n) + post;
    var lo := n % 0x1_0000;
    var hi := n / 0x1_0000;
    assert data[|pre|] == lo % 0x100 && data[|pre| + 1] == lo / 0x100;
    assert data[|pre| + 2] == hi % 0x100 && data[|pre| + 3] == hi / 0x100;
  }

  /** A signed 16-bit reading of the two's complement bytes of `v` gives `v`. */
  lemma I16LERoundTrip(pre: Bytes, v: int, post: Bytes)
    requires -0x8000 <= v < 0x8000
    ensures I16LE(pre + LE16(if v < 0 then v + 0x1_0000 else v) + post, |pre|) == Some(v)
  {
    U16LERoundTrip(pre, if v < 0 then v + 0x1_0000 else v, post);
  }

  /** A signed byte read where its two's complement byte was written gives
      it back. */
  lemma I8RoundTrip(pre: Bytes, v: int, post: Bytes)
    requires -0x80 <= v < 0x80
    ensures I8(pre + [if v < 0 then v + 0x100 else v] + post, |pre|) == Some(v)
  {
    assert (pre + [if v < 0 then v + 0x100 else v] + post)[|pre|] == if v < 0 then v + 0x100 else v;
  }

  /** Sum of two offsets where either may be NaN (None), as `a + b` in
      JavaScript when one operand is undefined. */
  function Add(a: Option<int>, b: Option<int>): Option<int> {
    if a.Some? && b.Some? then Some(a.value + b.value) else None
  }

  /** How `buf.slice` clamps an offset; NaN counts as 0. */
  function AdjustOffset(offset: Option<int>, length: nat): (r: nat)
    ensures r <= length
    ensures offset.Some? && 0 <= offset.value <= length ==> r == offset.value
  {
    match offset
    case None => 0
    case Some(o) =>
      if o == 0 then 0
      else if o < 0 then (if o + length > 0 then o + length else 0)
      else if o < length then o
      else length
  }

  /** `buf.slice(start, end)`: always a piece of the buffer. NaN offsets
      read as 0, negative ones count from the end, and offsets past the end
      stop at it; the piece is empty when the clamped end is not past the
      clamped start. */
  function Slice(data: Bytes, start: Option<int>, end: Option<int>): (r: Bytes)
    ensures exists s, e :: 0 <= s <= e <= |data| && r == data[s..e]
    ensures start.Some? && end.Some? && 0 <= start.value <= end.value <= |data| ==>
              r == data[start.value..end.value]
    ensures end.None? ==> r == []
    ensures start.None? && end.Some? && 0 <= end.value <= |data| ==> r == data[..end.value]
    ensures start.Some? && end.Some? && 0 <= start.value <= |data| <= end.value ==> r == data[start.value..]
    ensures start.Some? && end.Some? && |data| <= start.value ==> r == []
    ensures start.Some? && end.Some? && -|data| <= start.value < 0 && |data| <= end.value ==>
              r == data[|data| + start.value..]
  {
    var s := AdjustOffset(start, |data|);
    var e := AdjustOffset(end, |data|);
    if e > s then data[s..e] else data[s..s]
  }

  /** `buf.toString()` on the byte range, each byte read as the character
      with that code; this agrees with UTF-8 decoding on ASCII. */
  function AsText(bs: Bytes): (s: string)
    ensures |s| == |bs|
    ensures forall i :: 0 <= i < |bs| ==> s[i] as int == bs[i]
  {
    seq(|bs|, i requires 0 <= i < |bs| => bs[i] as char)
  }

  function HexDigit(n: int): char
    requires 0 <= n < 16
  {
    if n < 10 then ('0' as int + n) as char else ('a' as int + n - 10) as char
  }

  function Unhex(c: char): Option<int> {
    if '0' <= c <= '9' then Some(c as int - '0' as int)
    else if 'a' <= c <= 'f' then Some(c as int - 'a' as int + 10)
    else if 'A' <= c <= 'F' then Some(c as int - 'A' as int + 10)
    else None
  }

  /** `buf.toString('hex')`: two lower-case digits per byte. */
  function Hex(bs: Bytes): (s: string)
    ensures |s| == 2 * |bs|
  {
    if bs == [] then "" else [HexDigit(bs[0] / 16), HexDigit(bs[0] % 16)] + Hex(bs[1..])
  }

  /** `Buffer.from(s, 'hex')`: digit pairs from the left, stopping at the
      first pair that is not two hex digits; an odd last digit is dropped. */
  function HexDecode(s: string): (r: Bytes)
    ensures |r| <= |s| / 2
  {
    if |s| < 2 then []
    else match (Unhex(s[0]), Unhex(s[1]))
      case (Some(hi), Some(lo)) => [hi * 16 + lo] + HexDecode(s[2..])
      case _ => []
  }

  lemma UnhexDigit(n: int)
    requires 0 <= n < 16
    ensures Unhex(HexDigit(n)) == Some(n)
  {
  }

  /** Decoding the hex text of a buffer gives the buffer back. */
  lemma {:induction false} HexRoundTrip(bs: Bytes)
    ensures HexDecode(Hex(bs)) == bs
  {
    if bs != [] {
      var s := Hex(bs);
      UnhexDigit(bs[0] / 16);
      UnhexDigit(bs[0] % 16);
      assert s[2..] == Hex(bs[1..]);
      HexRoundTrip(bs[1..]);
    }
  }

  /** Decimal text of a natural number, as `String(n)`. */
  function Decimal(n: nat): (s: string)
    ensures |s| >= 1
    ensures forall i :: 0 <= i < |s| ==> '0' <= s[i] <= '9'
  {
    if n < 10 then [('0' as int + n) as char]
    else Decimal(n / 10) + [('0' as int + n % 10) as char]
  }

  /** `String(n)` for an integer. */
  function IntText(n: int): string {
    if n < 0 then "-" + Decimal(-n) else Decimal(n)
  }

  /** `s.toLowerCase()` on ASCII letters; other characters are kept. */
  function Lower(s: string): (r: string)
    ensures |r| == |s|
  {
    seq(|s|, i requires 0 <= i < |s| => if 'A' <= s[i] <= 'Z' then (s[i] as int + 32) as char else s[i])
  }

  /** Lower-casing twice is lower-casing once. */
  lemma LowerIdempotent(s: string)
    ensures Lower(Lower(s)) == Lower(s)
  {
  }
}
