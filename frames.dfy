/** RESP framing as the server writes it: bulk strings, simple strings and the
    fixed replies of the dispatcher. `Request` is the frame a client sends, an
    array of bulk strings; the server never builds one, but it is the input the
    decoder is specified against. */
module Frames {
  import opened Bytes

  const Dollar: byte := '$' as byte
  const Star: byte := '*' as byte
  const Plus: byte := '+' as byte
  const CRLF: seq<byte> := [CR, LF]

  /** `construct_return_redis_string`: `$<byte length>\r\n<v>\r\n`. */
  function BulkString(v: seq<byte>): (r: seq<byte>)
    ensures |r| == |Decimal(|v|)| + |v| + 5
    ensures r[0] == Dollar && r[|r| - 2..] == CRLF
  {
    [Dollar] + Decimal(|v|) + CRLF + v + CRLF
  }

  /** `+<text>\r\n`, the frame the dispatcher uses for ECHO. */
  function SimpleString(text: seq<byte>): (r: seq<byte>)
    ensures |r| == |text| + 3
    ensures r[0] == Plus && r[1..|r| - 2] == text && r[|r| - 2..] == CRLF
  {
    [Plus] + text + CRLF
  }

  const PongReply: seq<byte> := Ascii("+PONG\r\n")
  const OkReply: seq<byte> := Ascii("+OK\r\n")
  const NullBulk: seq<byte> := Ascii("$-1\r\n")

  /** The bulk strings of `args`, one after the other. */
  function BulkStrings(args: seq<seq<byte>>): seq<byte> {
    if args == [] then [] else BulkString(args[0]) + BulkStrings(args[1..])
  }

  /** A RESP array of bulk strings: `*<count>\r\n` followed by the elements. */
  function Request(args: seq<seq<byte>>): seq<byte> {
    [Star] + Decimal(|args|) + CRLF + BulkStrings(args)
  }

  /** The layout of a bulk string: where its length field, its payload and its
      terminator sit, and its total size. */
  lemma BulkStringLayout(v: seq<byte>)
    ensures var n := |Decimal(|v|)|;
      && |BulkString(v)| == n + |v| + 5
      && BulkString(v)[0] == Dollar
      && BulkString(v)[1..n + 1] == Decimal(|v|)
      && BulkString(v)[n + 1] == CR && BulkString(v)[n + 2] == LF
      && BulkString(v)[n + 3..n + 3 + |v|] == v
      && BulkString(v)[n + 3 + |v|..] == CRLF
  {
  }

  /** A hit can never be mistaken for a miss: no bulk string is the null bulk
      reply, because a length field starts with a digit and the null bulk
      has `-` there. */
  lemma NullBulkIsNoBulkString(v: seq<byte>)
    ensures BulkString(v) != NullBulk
  {
    BulkStringLayout(v);
    assert IsDigit(BulkString(v)[1]);
    assert NullBulk[1] == '-' as byte;
  }

  /** The simple-string replies are distinct from each other and from every
      bulk reply: their first byte is `+`. */
  lemma SimpleRepliesAreNotBulk(v: seq<byte>, text: seq<byte>)
    ensures SimpleString(text)[0] == PongReply[0] == OkReply[0] == Plus
    ensures BulkString(v)[0] == NullBulk[0] == Dollar
    ensures PongReply != OkReply
  {
    assert PongReply[1] != OkReply[1];
  }
}
