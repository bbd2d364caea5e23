/** Requests as they arrive in the server's receive buffer, decoded and
    dispatched against a fresh keyspace: one read, one command, one reply, as
    each turn of the connection loop does. */
module Scenarios {
  import opened Bytes
  import opened Frames
  import opened Decoder
  import opened Recognition
  import opened Dispatcher

  /** The rest of a zeroed receive buffer after the bytes that were read. */
  function Padding(req: seq<byte>): (pad: seq<byte>)
    requires |req| <= BufferSize
    ensures |req + pad| == BufferSize
  {
    seq(BufferSize - |req|, _ => 0)
  }

  /** A zeroed 512-byte buffer into which one read delivered `req`. */
  method Receive(req: seq<byte>) returns (buf: array<byte>)
    requires |req| <= BufferSize
    ensures fresh(buf) && buf[..] == req + Padding(req)
  {
    buf := new byte[BufferSize](i => if 0 <= i < |req| then req[i] else 0);
    assert buf[..] == req + Padding(req);
  }

  /** `*1\r\n$4\r\nPING\r\n` is answered with `+PONG\r\n`. */
  method Ping(now: nat) returns (reply: seq<byte>)
    ensures reply == PongReply
  {
    var ks := new Keyspace();
    var req := Request([Ascii("PING")]);
    var buf := Receive(req);
    PingRequest([], Padding(req));
    assert [Ascii("PING")] + [] == [Ascii("PING")];
    var cmd := ParseCommand(buf);
    reply := ks.Dispatch(cmd.value, now);
  }

  /** ECHO answers with the message as a simple string. */
  method Echo(msg: seq<byte>, now: nat) returns (reply: seq<byte>)
    requires |msg| < 256 && |Request([Ascii("ECHO"), msg])| <= BufferSize
    ensures reply == SimpleString(msg)
  {
    var ks := new Keyspace();
    var req := Request([Ascii("ECHO"), msg]);
    var buf := Receive(req);
    EchoRequest(msg, Padding(req));
    var cmd := ParseCommand(buf);
    reply := ks.Dispatch(cmd.value, now);
  }

  /** GET of a key that was never set is answered with the null bulk reply. */
  method GetMiss(key: seq<byte>, now: nat) returns (reply: seq<byte>)
    requires |key| < 256 && |Request([Ascii("GET"), key])| <= BufferSize
    ensures reply == NullBulk
  {
    var ks := new Keyspace();
    var req := Request([Ascii("GET"), key]);
    var buf := Receive(req);
    GetRequest(key, Padding(req));
    var cmd := ParseCommand(buf);
    reply := ks.Dispatch(cmd.value, now);
  }

  /** SET then GET on one connection: `+OK\r\n`, then the value as a bulk
      string, at any later clock reading. */
  method SetThenGet(key: seq<byte>, value: seq<byte>, setAt: nat, getAt: nat) returns (replies: seq<seq<byte>>)
    requires |key| < 256 && |value| < 256
    requires |Request([Ascii("SET"), key, value])| <= BufferSize
    requires |Request([Ascii("GET"), key])| <= BufferSize
    ensures replies == [OkReply, BulkString(value)]
  {
    var ks := new Keyspace();
    var setReq := Request([Ascii("SET"), key, value]);
    var buf := Receive(setReq);
    SetRequest(key, value, Padding(setReq));
    var cmd := ParseCommand(buf);
    var first := ks.Dispatch(cmd.value, setAt);

    var getReq := Request([Ascii("GET"), key]);
    buf := Receive(getReq);
    GetRequest(key, Padding(getReq));
    cmd := ParseCommand(buf);
    var second := ks.Dispatch(cmd.value, getAt);
    replies := [first, second];
  }

  /** SET with PX then GET: the value while the clock has not passed
      `setAt` plus the milliseconds, the null bulk reply once it has. */
  method SetPxThenGet(key: seq<byte>, value: seq<byte>, ms: seq<byte>, setAt: nat, getAt: nat)
    returns (replies: seq<seq<byte>>)
    requires |key| < 256 && |value| < 256 && |ms| < 256 && MillisOperand(ms)
    requires |Request([Ascii("SET"), key, value, Ascii("PX"), ms])| <= BufferSize
    requires |Request([Ascii("GET"), key])| <= BufferSize
    ensures |replies| == 2 && replies[0] == OkReply
    ensures replies[1] == if getAt <= setAt + DecimalValue(ms) then BulkString(value) else NullBulk
  {
    var ks := new Keyspace();
    var setReq := Request([Ascii("SET"), key, value, Ascii("PX"), ms]);
    var buf := Receive(setReq);
    SetPxRequest(key, value, Ascii("PX"), ms, Padding(setReq));
    var cmd := ParseCommand(buf);
    var first := ks.Dispatch(cmd.value, setAt);

    var getReq := Request([Ascii("GET"), key]);
    buf := Receive(getReq);
    GetRequest(key, Padding(getReq));
    cmd := ParseCommand(buf);
    var second := ks.Dispatch(cmd.value, getAt);
    replies := [first, second];
  }

  /** A SET without expiry clears the expiry of an earlier SET with PX: the
      new value is visible at every later clock reading. */
  method OverwriteClearsExpiry(key: seq<byte>, v1: seq<byte>, v2: seq<byte>, ms: nat, t0: nat, t1: nat, t2: nat)
    returns (reply: seq<byte>)
    requires ms <= MaxMillis
    ensures reply == BulkString(v2)
  {
    var ks := new Keyspace();
    var _ := ks.Dispatch(Command(Set, [key, v1, Decimal(ms)]), t0);
    var _ := ks.Dispatch(Command(Set, [key, v2]), t1);
    reply := ks.Dispatch(Command(Get, [key]), t2);
  }
}
