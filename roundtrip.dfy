/** What the decoder reads back from the frames of `Frames`, where its cursor
    ends up, and how it recognises commands. */
module RoundTrip {
  import opened Bytes
  import opened Frames
  import opened Decoder

  /** `x` sits in `buf` starting at position `p`. */
  predicate At(buf: seq<byte>, p: nat, x: seq<byte>) {
    p + |x| <= |buf| && forall i | 0 <= i < |x| :: buf[p + i] == x[i]
  }

  /** Whatever sits at `p` as `x + y` has `x` at `p` and `y` right after it. */
  lemma AtSplit(buf: seq<byte>, p: nat, x: seq<byte>, y: seq<byte>)
    requires At(buf, p, x + y)
    ensures At(buf, p, x) && At(buf, p + |x|, y)
  {
    forall i | 0 <= i < |x|
      ensures buf[p + i] == x[i]
    {
      assert (x + y)[i] == x[i];
    }
    forall i | 0 <= i < |y|
      ensures buf[p + |x| + i] == y[i]
    {
      assert buf[p + (|x| + i)] == (x + y)[|x| + i];
    }
  }

  /** What sits at `p` is the slice of `buf` there. */
  lemma AtSlice(buf: seq<byte>, p: nat, x: seq<byte>)
    requires At(buf, p, x)
    ensures buf[p..p + |x|] == x
  {
    forall i | 0 <= i < |x|
      ensures buf[p..p + |x|][i] == x[i]
    {
      assert buf[p + i] == x[i];
    }
  }

  /** The front part of a concatenation sits at its start. */
  lemma AtFront(x: seq<byte>, y: seq<byte>)
    ensures At(x + y, 0, x)
  {
    forall i | 0 <= i < |x|
      ensures (x + y)[0 + i] == x[i]
    {
    }
  }

  /** A numeral followed by CR LF is read back as its value, and the cursor
      moves past the CR and the LF. */
  lemma LengthAtNumeral(buf: seq<byte>, q: nat, n: nat)
    requires n < 256
    requires At(buf, q, Decimal(n)) && At(buf, q + |Decimal(n)|, CRLF)
    ensures LengthAt(buf, q) == Ok(n, q + |Decimal(n)| + 2)
  {
    var ds := Decimal(n);
    assert buf[q + |ds| + 0] == CRLF[0];
    forall i | q <= i < q + |ds|
      ensures buf[i] != CR
    {
      assert buf[q + (i - q)] == ds[i - q];
      assert IsDigit(ds[i - q]);
    }
    AtSlice(buf, q, ds);
    FindCRAt(buf, q, q + |ds|);
    LengthAtIsNumeral(buf, q);
  }

  /** A frame header, a type byte followed by a numeral and CR LF, is read
      back as the numeral's value, and what follows it starts right after. */
  lemma FrameHeader(buf: seq<byte>, p: nat, mark: byte, n: nat, body: seq<byte>)
    requires n < 256 && At(buf, p, [mark] + Decimal(n) + CRLF + body)
    ensures p < |buf| && buf[p] == mark
    ensures LengthAt(buf, p + 1) == Ok(n, p + |Decimal(n)| + 3)
    ensures At(buf, p + |Decimal(n)| + 3, body)
  {
    var ds := Decimal(n);
    AtSplit(buf, p, [mark] + ds + CRLF, body);
    AtSplit(buf, p, [mark] + ds, CRLF);
    AtSplit(buf, p, [mark], ds);
    assert buf[p + 0] == [mark][0];
    LengthAtNumeral(buf, p + 1, n);
  }

  /** Decoding what `construct_return_redis_string` encodes gives the payload
      back, for payloads shorter than 256 bytes, wherever the frame sits in the
      buffer; the cursor stops just past the frame. */
  lemma BulkStringRoundTrip(buf: seq<byte>, p: nat, v: seq<byte>)
    requires |v| < 256 && At(buf, p, BulkString(v))
    ensures BulkStringAt(buf, p) == Ok(v, p + |BulkString(v)|)
  {
    AtSplit(buf, p, [Dollar] + Decimal(|v|) + CRLF + v, CRLF);
    FrameHeader(buf, p, Dollar, |v|, v);
    AtSlice(buf, p + |Decimal(|v|)| + 3, v);
  }

  /** Decoding a run of encoded bulk strings gives them back, in order, and
      stops right after the last. */
  lemma {:induction false} BulkStringsRoundTrip(buf: seq<byte>, p: nat, args: seq<seq<byte>>)
    requires forall i | 0 <= i < |args| :: |args[i]| < 256
    requires At(buf, p, BulkStrings(args))
    ensures ElementsAt(buf, p, |args|) == Ok(args, p + |BulkStrings(args)|)
    decreases |args|
  {
    if args != [] {
      var q := p + |BulkString(args[0])|;
      BulkStringsTail(buf, p, args);
      BulkStringRoundTrip(buf, p, args[0]);
      BulkStringsRoundTrip(buf, q, args[1..]);
      BulkStringsStep(buf, p, args, q, p + |BulkStrings(args)|);
    }
  }

  /** The rest of an encoded run starts right after its first bulk string. */
  lemma BulkStringsTail(buf: seq<byte>, p: nat, args: seq<seq<byte>>)
    requires args != [] && At(buf, p, BulkStrings(args))
    ensures At(buf, p, BulkString(args[0]))
    ensures At(buf, p + |BulkString(args[0])|, BulkStrings(args[1..]))
    ensures |BulkStrings(args)| == |BulkString(args[0])| + |BulkStrings(args[1..])|
  {
    assert BulkStrings(args) == BulkString(args[0]) + BulkStrings(args[1..]);
    AtSplit(buf, p, BulkString(args[0]), BulkStrings(args[1..]));
  }

  /** The step of `BulkStringsRoundTrip`: the first bulk string decodes in
      front of the decoded rest. */
  lemma BulkStringsStep(buf: seq<byte>, p: nat, args: seq<seq<byte>>, q: nat, n: nat)
    requires args != [] && BulkStringAt(buf, p) == Ok(args[0], q)
    requires ElementsAt(buf, q, |args| - 1) == Ok(args[1..], n)
    ensures ElementsAt(buf, p, |args|) == Ok(args, n)
  {
    ElementsCons(buf, p, |args|, args[0], q, args[1..], n);
    assert [args[0]] + args[1..] == args;
  }

  /** A bulk string followed by a run of the others is the whole run. */
  lemma ElementsCons(buf: seq<byte>, p: nat, count: nat, v: seq<byte>, q: nat, vs: seq<seq<byte>>, n: nat)
    requires count > 0 && BulkStringAt(buf, p) == Ok(v, q)
    requires ElementsAt(buf, q, count - 1) == Ok(vs, n)
    ensures ElementsAt(buf, p, count) == Ok([v] + vs, n)
  {
  }

  /** Decoding an encoded request, wherever it sits in the buffer, gives
      back its elements in order and stops just past the last one. */
  lemma ArrayRoundTrip(buf: seq<byte>, p: nat, args: seq<seq<byte>>)
    requires |args| < 256
    requires forall i | 0 <= i < |args| :: |args[i]| < 256
    requires At(buf, p, Request(args))
    ensures ArrayAt(buf, p) == Ok(args, p + |Request(args)|)
  {
    var q := p + |Decimal(|args|)| + 3;
    FrameHeader(buf, p, Star, |args|, BulkStrings(args));
    BulkStringsRoundTrip(buf, q, args);
    ArrayAtHeader(buf, p, |args|, q);
  }

  /** An array is the run of elements its header announces. */
  lemma ArrayAtHeader(buf: seq<byte>, p: nat, n: nat, q: nat)
    requires p < |buf| && LengthAt(buf, p + 1) == Ok(n, q)
    ensures ArrayAt(buf, p) == ElementsAt(buf, q, n)
  {
  }

  /** A request at the start of the receive buffer decodes to its elements,
      whatever follows it. */
  lemma RequestRoundTrip(args: seq<seq<byte>>, post: seq<byte>)
    requires |args| < 256
    requires forall i | 0 <= i < |args| :: |args[i]| < 256
    ensures ArrayAt(Request(args) + post, 0) == Ok(args, |Request(args)|)
  {
    AtFront(Request(args), post);
    ArrayRoundTrip(Request(args) + post, 0, args);
  }

  /** The command in an encoded request is the one its elements denote. */
  lemma CommandInRequest(args: seq<seq<byte>>, post: seq<byte>)
    requires |args| < 256
    requires forall i | 0 <= i < |args| :: |args[i]| < 256
    ensures CommandIn(Request(args) + post) == Recognize(args, |Request(args)|)
  {
    RequestRoundTrip(args, post);
  }

  /** `parse_bulk_string` returns exactly the declared number of bytes, taken
      from just after the length line, and moves the cursor by one for the `$`,
      the digits, two for CR LF, the payload, and two for the final CR LF. */
  lemma BulkStringCursor(buf: seq<byte>, p: nat)
    requires BulkStringAt(buf, p).Ok?
    ensures p < |buf| && buf[p] == Dollar
    ensures var e := FindCR(buf, p + 1);
      var v := BulkStringAt(buf, p).value;
      && AllDigits(buf[p + 1..e]) && |v| == DecimalValue(buf[p + 1..e]) < 256
      && (|v| > 0 ==> e + 2 + |v| <= |buf| && v == buf[e + 2..e + 2 + |v|])
      && BulkStringAt(buf, p).next == p + 1 + (e - (p + 1)) + 2 + |v| + 2
  {
    LengthAtIsNumeral(buf, p + 1);
  }

  /** Where the `k`-th bulk string of a run starting at `p` starts: the
      `k - 1`-th of the run that starts where the first one ends. */
  function ElementStart(buf: seq<byte>, p: nat, k: nat): nat
    decreases k
  {
    if k == 0 then p
    else match BulkStringAt(buf, p)
      case Ok(_, q) => ElementStart(buf, q, k - 1)
      case _ => p
  }

  /** In a successful run, each bulk string starts where the previous one
      ended. */
  lemma {:induction false} ElementStartNext(buf: seq<byte>, p: nat, k: nat)
    requires ElementsAt(buf, p, k + 1).Ok?
    ensures BulkStringAt(buf, ElementStart(buf, p, k)).Ok?
    ensures ElementStart(buf, p, k + 1) == BulkStringAt(buf, ElementStart(buf, p, k)).next
    decreases k
  {
    ElementsUncons(buf, p, k + 1);
    if k > 0 {
      ElementStartNext(buf, BulkStringAt(buf, p).next, k - 1);
    }
  }

  /** A successful run of `count` bulk strings has exactly `count` elements,
      and the cursor ends where the element after the last would start. */
  lemma {:induction false} ElementsCount(buf: seq<byte>, p: nat, count: nat)
    requires ElementsAt(buf, p, count).Ok?
    ensures |ElementsAt(buf, p, count).value| == count
    ensures ElementsAt(buf, p, count).next >= p
    ensures ElementsAt(buf, p, count).next == ElementStart(buf, p, count)
    decreases count
  {
    if count > 0 {
      ElementsUncons(buf, p, count);
      ElementsCount(buf, BulkStringAt(buf, p).next, count - 1);
    }
  }

  /** The elements come back in buffer order: element `k` is the bulk string
      at `ElementStart(buf, p, k)`, where element `k - 1` ended. */
  lemma {:induction false} ElementsInOrder(buf: seq<byte>, p: nat, count: nat, k: nat)
    requires ElementsAt(buf, p, count).Ok? && k < count
    ensures |ElementsAt(buf, p, count).value| == count
    ensures BulkStringAt(buf, ElementStart(buf, p, k)).Ok?
    ensures ElementsAt(buf, p, count).value[k] == BulkStringAt(buf, ElementStart(buf, p, k)).value
    decreases count
  {
    ElementsUncons(buf, p, count);
    var q := BulkStringAt(buf, p).next;
    ElementsCount(buf, q, count - 1);
    if k > 0 {
      var rest := ElementsAt(buf, q, count - 1).value;
      assert ElementsAt(buf, p, count).value[k] == rest[k - 1];
      ElementsInOrder(buf, q, count - 1, k - 1);
    }
  }

  /** A successful run of elements is its first bulk string in front of a
      successful run of the others. */
  lemma ElementsUncons(buf: seq<byte>, p: nat, count: nat)
    requires count > 0 && ElementsAt(buf, p, count).Ok?
    ensures BulkStringAt(buf, p).Ok?
    ensures var q := BulkStringAt(buf, p).next;
      && ElementsAt(buf, q, count - 1).Ok?
      && ElementsAt(buf, p, count).value == [BulkStringAt(buf, p).value] + ElementsAt(buf, q, count - 1).value
  {
  }

  /** `parse_array`: the element count is the decimal header read up to its
      CR, and the elements come back in the order they appear. */
  lemma ArrayCount(buf: seq<byte>, p: nat)
    requires ArrayAt(buf, p).Ok?
    ensures p + 1 <= |buf|
    ensures var e := FindCR(buf, p + 1);
      && e < |buf| && AllDigits(buf[p + 1..e])
      && |ArrayAt(buf, p).value| == DecimalValue(buf[p + 1..e])
      && ArrayAt(buf, p) == ElementsAt(buf, e + 2, DecimalValue(buf[p + 1..e]))
  {
    var e := FindCR(buf, p + 1);
    LengthAtIsNumeral(buf, p + 1);
    ElementsCount(buf, e + 2, DecimalValue(buf[p + 1..e]));
  }
}
