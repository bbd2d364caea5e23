/** Bytes, ASCII text and decimal numerals: the raw material of the wire format. */
module Bytes {

  /** An unsigned 8-bit integer. Arithmetic whose result leaves 0..255 is an
      error, as it is for the server's `u8` length accumulators. */
  newtype byte = b: int | 0 <= b < 256

  const CR: byte := 13
  const LF: byte := 10
  const Zero: byte := 48

  /** The bytes of an ASCII text, one byte per character. */
  function Ascii(s: string): (r: seq<byte>)
    requires forall i | 0 <= i < |s| :: s[i] as int < 128
    ensures |r| == |s|
    ensures forall i | 0 <= i < |s| :: r[i] as int == s[i] as int
  {
    seq(|s|, i requires 0 <= i < |s| => s[i] as int as byte)
  }

  predicate IsDigit(b: byte) {
    Zero <= b <= Zero + 9
  }

  predicate AllDigits(ds: seq<byte>) {
    forall i | 0 <= i < |ds| :: IsDigit(ds[i])
  }

  /** The number a string of decimal digits denotes, most significant digit
      first; leading zeros are allowed. */
  function DecimalValue(ds: seq<byte>): nat
    requires AllDigits(ds)
  {
    if ds == [] then 0
    else 10 * DecimalValue(ds[..|ds| - 1]) + (ds[|ds| - 1] as int - Zero as int)
  }

  /** The decimal numeral of `n` without leading zeros, as `format!("{}", n)`
      writes it. Reading it back gives `n`. */
  function Decimal(n: nat): (ds: seq<byte>)
    ensures 1 <= |ds| && AllDigits(ds)
    ensures DecimalValue(ds) == n
    ensures |ds| > 1 ==> ds[0] != Zero
  {
    if n < 10 then
      [(n + Zero as int) as byte]
    else
      var front := Decimal(n / 10);
      var ds := front + [(n % 10 + Zero as int) as byte];
      assert ds[..|ds| - 1] == front;
      ds
  }

  /** Appending one digit multiplies the value by ten and adds the digit: the
      step of the accumulation loops, stated on a window of a buffer. */
  lemma DecimalStep(buf: seq<byte>, q: nat, p: nat)
    requires q <= p < |buf|
    requires AllDigits(buf[q..p]) && IsDigit(buf[p])
    ensures AllDigits(buf[q..p + 1])
    ensures DecimalValue(buf[q..p + 1]) == 10 * DecimalValue(buf[q..p]) + (buf[p] as int - Zero as int)
  {
    assert buf[q..p + 1] == buf[q..p] + [buf[p]];
    assert buf[q..p + 1][..p - q] == buf[q..p];
  }

  /** A prefix of a numeral never denotes more than the whole numeral. */
  lemma {:induction false} DecimalPrefixBound(ds: seq<byte>, k: nat)
    requires AllDigits(ds) && k <= |ds|
    ensures AllDigits(ds[..k])
    ensures DecimalValue(ds[..k]) <= DecimalValue(ds)
    decreases |ds| - k
  {
    if k < |ds| {
      var front := ds[..|ds| - 1];
      assert front[..k] == ds[..k];
      DecimalPrefixBound(front, k);
    } else {
      assert ds[..k] == ds;
    }
  }

  /** ASCII upper case to lower case; every other byte is unchanged. */
  function LowerByte(b: byte): byte {
    if 'A' as int <= b as int <= 'Z' as int then b + 32 else b
  }

  /** ASCII case folding of a whole text. */
  function Lower(s: seq<byte>): (r: seq<byte>)
    ensures |r| == |s|
    ensures forall i | 0 <= i < |s| :: r[i] == LowerByte(s[i])
  {
    seq(|s|, i requires 0 <= i < |s| => LowerByte(s[i]))
  }
}
