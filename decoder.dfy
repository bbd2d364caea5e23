/** The request decoder: `parse_bulk_string`, `parse_array` and
    `parse_redis_command` read one RESP array of bulk strings from the receive
    buffer, moving a cursor forward, and turn it into a command record.

    Each parser is specified by a total function over the buffer's bytes. Its
    outcome is `Ok` with the value read and the cursor after it, `Rejected`
    where the server's own assertion or panic fires, or `OutOfRange` where the
    server would index past the buffer, overflow a `u8` length, read a
    non-digit in a length or ask for an array element that is not there. The
    server checks none of the `OutOfRange` conditions, so the methods require
    that they do not arise. */
module Decoder {
  import opened Bytes
  import opened Frames

  /** The size of the server's receive buffer. */
  const BufferSize: nat := 512

  datatype Reason = NotBulkString | UnknownCommand

  datatype Parsed<+T> = Ok(value: T, next: nat) | Rejected(reason: Reason) | OutOfRange

  datatype CommandName = Ping | Echo | Set | Get

  datatype Command = Command(name: CommandName, operands: seq<seq<byte>>)

  const PingWord: seq<byte> := Ascii("ping")
  const EchoWord: seq<byte> := Ascii("echo")
  const SetWord: seq<byte> := Ascii("set")
  const GetWord: seq<byte> := Ascii("get")

  /** The position of the first carriage return at or after `q`, or `|buf|`
      when there is none (`FindCRFirst` shows that no CR comes earlier). */
  function FindCR(buf: seq<byte>, q: nat): (e: nat)
    requires q <= |buf|
    ensures q <= e <= |buf|
    ensures e < |buf| ==> buf[e] == CR
    decreases |buf| - q
  {
    if q == |buf| || buf[q] == CR then q else FindCR(buf, q + 1)
  }

  /** No byte between `q` and the position `FindCR` returns is a CR. */
  lemma {:induction false} FindCRFirst(buf: seq<byte>, q: nat, i: nat)
    requires q <= |buf| && q <= i < FindCR(buf, q)
    ensures buf[i] != CR
    decreases |buf| - q
  {
    if i > q {
      FindCRFirst(buf, q + 1, i);
    }
  }

  /** A CR at `e` with none before it from `q` on is the one `FindCR` finds. */
  lemma {:induction false} FindCRAt(buf: seq<byte>, q: nat, e: nat)
    requires q <= e < |buf| && buf[e] == CR
    requires forall i | q <= i < e :: buf[i] != CR
    ensures FindCR(buf, q) == e
    decreases e - q
  {
    if q < e {
      FindCRAt(buf, q + 1, e);
    }
  }

  /** The length field read as the digit loop reads it: digits are folded
      into the accumulator `acc` until a CR, and the cursor ends past the CR
      and the byte after it (which is skipped, not checked). Running off the
      buffer, a non-digit, or a value that no longer fits in a `u8` is out of
      range. */
  function LengthFrom(buf: seq<byte>, q: nat, acc: nat): (r: Parsed<nat>)
    ensures r.Ok? ==> q + 2 <= r.next <= |buf| + 1 && buf[r.next - 2] == CR
    decreases |buf| - q
  {
    if q >= |buf| then OutOfRange
    else if buf[q] == CR then Ok(acc, q + 2)
    else if !IsDigit(buf[q]) || 10 * acc + (buf[q] - Zero) as int >= 256 then OutOfRange
    else LengthFrom(buf, q + 1, 10 * acc + (buf[q] - Zero) as int)
  }

  /** The length field that starts at `q`. */
  function LengthAt(buf: seq<byte>, q: nat): Parsed<nat> {
    LengthFrom(buf, q, 0)
  }

  /** The same field read declaratively: the bytes from `q` up to the first
      CR form a decimal numeral below 256. */
  function NumeralAt(buf: seq<byte>, q: nat): Parsed<nat>
    requires q <= |buf|
  {
    var e := FindCR(buf, q);
    if e == |buf| || !AllDigits(buf[q..e]) || DecimalValue(buf[q..e]) >= 256 then OutOfRange
    else Ok(DecimalValue(buf[q..e]), e + 2)
  }

  /** Reading on from `p` with the value of the digits already read is
      reading the whole numeral. */
  lemma {:induction false} LengthFromNumeral(buf: seq<byte>, q: nat, p: nat)
    requires q <= |buf| && q <= p <= FindCR(buf, q)
    requires AllDigits(buf[q..p]) && DecimalValue(buf[q..p]) < 256
    ensures LengthFrom(buf, p, DecimalValue(buf[q..p])) == NumeralAt(buf, q)
    decreases |buf| - p
  {
    var e := FindCR(buf, q);
    if p < e {
      FindCRFirst(buf, q, p);
      if IsDigit(buf[p]) {
        DecimalStep(buf, q, p);
        if DecimalValue(buf[q..p + 1]) < 256 {
          LengthFromNumeral(buf, q, p + 1);
        } else if AllDigits(buf[q..e]) {
          assert buf[q..e][..p + 1 - q] == buf[q..p + 1];
          DecimalPrefixBound(buf[q..e], p + 1 - q);
        }
      } else {
        assert buf[q..e][p - q] == buf[p];
      }
    }
  }

  /** The digit loop computes exactly the decimal value of the field, and
      fails exactly where the field is not a numeral below 256 ended by a
      CR. */
  lemma LengthAtIsNumeral(buf: seq<byte>, q: nat)
    requires q <= |buf|
    ensures LengthAt(buf, q) == NumeralAt(buf, q)
  {
    assert buf[q..q] == [];
    LengthFromNumeral(buf, q, q);
  }

  /** The bulk string whose `$` is at `p`. Its trailing CR LF is skipped, not
      checked, and an empty payload reads no byte at all. */
  function BulkStringAt(buf: seq<byte>, p: nat): Parsed<seq<byte>> {
    if p >= |buf| then OutOfRange
    else if buf[p] != Dollar then Rejected(NotBulkString)
    else match LengthAt(buf, p + 1)
      case Ok(n, q) =>
        if n == 0 then Ok([], q + 2)
        else if q + n <= |buf| then Ok(buf[q..q + n], q + n + 2)
        else OutOfRange
      case _ => OutOfRange
  }

  /** `count` bulk strings one after the other, the first at `p`. */
  function ElementsAt(buf: seq<byte>, p: nat, count: nat): Parsed<seq<seq<byte>>>
    decreases count
  {
    if count == 0 then Ok([], p)
    else match BulkStringAt(buf, p)
      case Ok(v, q) => Prefixed([v], ElementsAt(buf, q, count - 1))
      case Rejected(reason) => Rejected(reason)
      case OutOfRange => OutOfRange
  }

  /** Puts `vs` in front of a successful parse; failures pass through. */
  function Prefixed(vs: seq<seq<byte>>, r: Parsed<seq<seq<byte>>>): Parsed<seq<seq<byte>>> {
    match r
    case Ok(ws, q) => Ok(vs + ws, q)
    case Rejected(reason) => Rejected(reason)
    case OutOfRange => OutOfRange
  }

  lemma PrefixedNothing(r: Parsed<seq<seq<byte>>>)
    ensures Prefixed([], r) == r
  {
    if r.Ok? {
      assert [] + r.value == r.value;
    }
  }

  lemma PrefixedTwice(vs: seq<seq<byte>>, ws: seq<seq<byte>>, r: Parsed<seq<seq<byte>>>)
    ensures Prefixed(vs, Prefixed(ws, r)) == Prefixed(vs + ws, r)
  {
    if r.Ok? {
      assert vs + (ws + r.value) == (vs + ws) + r.value;
    }
  }

  /** One turn of the element loop: the next bulk string is within range,
      and either its rejection ends the run or its value joins the result. */
  lemma ElementsStep(buf: seq<byte>, vs: seq<seq<byte>>, p: nat, count: nat)
    requires count > 0 && !Prefixed(vs, ElementsAt(buf, p, count)).OutOfRange?
    ensures !BulkStringAt(buf, p).OutOfRange?
    ensures BulkStringAt(buf, p).Rejected? ==>
      Prefixed(vs, ElementsAt(buf, p, count)) == Rejected(BulkStringAt(buf, p).reason)
    ensures BulkStringAt(buf, p).Ok? ==>
      Prefixed(vs, ElementsAt(buf, p, count))
      == Prefixed(vs + [BulkStringAt(buf, p).value], ElementsAt(buf, BulkStringAt(buf, p).next, count - 1))
  {
    var first := BulkStringAt(buf, p);
    if first.Ok? {
      PrefixedTwice(vs, [first.value], ElementsAt(buf, first.next, count - 1));
    }
  }

  /** The array whose type byte is at `p` (the byte itself is skipped, not
      checked). */
  function ArrayAt(buf: seq<byte>, p: nat): Parsed<seq<seq<byte>>> {
    if p + 1 > |buf| then OutOfRange
    else match LengthAt(buf, p + 1)
      case Ok(count, q) => ElementsAt(buf, q, count)
      case _ => OutOfRange
  }

  /** The command a list of elements denotes: the first element names it,
      matched without regard to ASCII case, and the operands are picked from
      fixed positions. SET takes its third operand from position 4 whenever
      there are more than three elements, and never looks at position 3. */
  function Recognize(elements: seq<seq<byte>>, next: nat): (r: Parsed<Command>)
    ensures r.Ok? ==> r.next == next
    ensures r.Rejected? <==>
      |elements| > 0 && Lower(elements[0]) !in {PingWord, EchoWord, SetWord, GetWord}
    ensures r.Rejected? ==> r.reason == UnknownCommand
  {
    if |elements| == 0 then OutOfRange
    else
      var word := Lower(elements[0]);
      if word == PingWord then Ok(Command(Ping, []), next)
      else if word == EchoWord then
        if |elements| < 2 then OutOfRange else Ok(Command(Echo, [elements[1]]), next)
      else if word == SetWord then
        if |elements| < 3 then OutOfRange
        else if |elements| <= 3 then Ok(Command(Set, [elements[1], elements[2]]), next)
        else if |elements| < 5 then OutOfRange
        else Ok(Command(Set, [elements[1], elements[2], elements[4]]), next)
      else if word == GetWord then
        if |elements| < 2 then OutOfRange else Ok(Command(Get, [elements[1]]), next)
      else Rejected(UnknownCommand)
  }

  /** The command in a buffer whose array starts at offset 0. */
  function CommandIn(buf: seq<byte>): Parsed<Command> {
    match ArrayAt(buf, 0)
    case Ok(elements, next) => Recognize(elements, next)
    case Rejected(reason) => Rejected(reason)
    case OutOfRange => OutOfRange
  }

  /** The digit loop shared by `parse_bulk_string` and `parse_array`: it
      accumulates the length in a `u8` until it meets a CR, then skips the CR
      and the byte after it. */
  method ReadLength(buf: array<byte>, q: nat) returns (len: byte, p: nat)
    requires LengthAt(buf[..], q).Ok?
    ensures LengthAt(buf[..], q) == Ok(len as nat, p)
  {
    len, p := 0, q;
    while buf[p] != CR
      invariant LengthFrom(buf[..], p, len as nat) == LengthAt(buf[..], q)
      decreases buf.Length - p
    {
      len := len * 10 + (buf[p] - Zero);
      p := p + 1;
    }
    p := p + 2;
  }

  /** `parse_bulk_string`: the bulk string at the cursor `ptr`, and the cursor
      after it. */
  method ParseBulkString(buf: array<byte>, ptr: nat) returns (r: Parsed<seq<byte>>)
    requires !BulkStringAt(buf[..], ptr).OutOfRange?
    ensures r == BulkStringAt(buf[..], ptr)
  {
    if buf[ptr] != Dollar {
      return Rejected(NotBulkString);
    }
    var len, p := ReadLength(buf, ptr + 1);
    ghost var start := p;
    var result: seq<byte> := [];
    for i := 0 to len as int
      invariant p == start + i
      invariant len > 0 ==> start + len as int <= buf.Length
      invariant result == if len == 0 then [] else buf[start..p]
    {
      result := result + [buf[p]];
      p := p + 1;
    }
    p := p + 2;
    return Ok(result, p);
  }

  /** The element loop of `parse_array`: `count` bulk strings read one after
      the other from the cursor `ptr`, stopping at the first rejection. */
  method ParseElements(buf: array<byte>, ptr: nat, count: nat) returns (r: Parsed<seq<seq<byte>>>)
    requires !ElementsAt(buf[..], ptr, count).OutOfRange?
    ensures r == ElementsAt(buf[..], ptr, count)
  {
    ghost var goal := ElementsAt(buf[..], ptr, count);
    var p := ptr;
    var result: seq<seq<byte>> := [];
    PrefixedNothing(goal);
    for i := 0 to count
      invariant goal == Prefixed(result, ElementsAt(buf[..], p, count - i))
    {
      ElementsStep(buf[..], result, p, count - i);
      var element := ParseBulkString(buf, p);
      if element.Rejected? {
        return Rejected(element.reason);
      }
      result := result + [element.value];
      p := element.next;
    }
    assert result + [] == result;
    return Ok(result, p);
  }

  /** `parse_array`: skips the type byte at `ptr`, reads the element count and
      then that many bulk strings. */
  method ParseArray(buf: array<byte>, ptr: nat) returns (r: Parsed<seq<seq<byte>>>)
    requires !ArrayAt(buf[..], ptr).OutOfRange?
    ensures r == ArrayAt(buf[..], ptr)
  {
    var len, p := ReadLength(buf, ptr + 1);
    r := ParseElements(buf, p, len as nat);
  }

  /** `parse_redis_command`: the array at offset 0 of the receive buffer,
      recognised as a command. */
  method ParseCommand(buf: array<byte>) returns (r: Parsed<Command>)
    requires buf.Length == BufferSize
    requires !CommandIn(buf[..]).OutOfRange?
    ensures r == CommandIn(buf[..])
  {
    var ptr := 0;
    var elements := ParseArray(buf, ptr);
    match elements
    case Ok(els, next) => r := Recognize(els, next);
    case Rejected(reason) => r := Rejected(reason);
  }
}
