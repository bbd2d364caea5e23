/** The keyspace with lazy expiry and the `dispatcher` that runs PING, ECHO,
    SET and GET against it. The wall clock is the parameter `now`, in
    milliseconds since the Unix epoch, sampled once per command. */
module Dispatcher {
  import opened Bytes
  import opened Frames
  import opened Decoder

  datatype Option<+T> = None | Some(value: T)

  /** `ValueAndExpiration`: a stored value and its absolute expiry, if any. */
  datatype Entry = Entry(value: seq<byte>, expiration: Option<nat>)

  type Entries = map<seq<byte>, Entry>

  /** The largest number `str::parse::<u64>` accepts. */
  const MaxMillis: nat := 0xFFFF_FFFF_FFFF_FFFF

  /** An entry is still visible at `now` unless it has an expiry that `now`
      has passed; an entry whose expiry equals `now` is visible. */
  predicate Live(e: Entry, now: nat) {
    match e.expiration
    case None => true
    case Some(exp) => now <= exp
  }

  /** What a GET of `key` at `now` observes. */
  function Lookup(entries: Entries, key: seq<byte>, now: nat): (r: Option<seq<byte>>)
    ensures r.Some? ==> key in entries && r.value == entries[key].value
    ensures key !in entries ==> r == None
    ensures key in entries && entries[key].expiration.Some? ==>
      (r.Some? <==> now <= entries[key].expiration.value)
    ensures key in entries && entries[key].expiration.None? ==> r.Some?
  {
    if key in entries && Live(entries[key], now) then Some(entries[key].value) else None
  }

  /** The reply to GET: the value as a bulk string, or the null bulk reply.
      A miss and a hit are told apart by the reply alone. */
  function GetReply(entries: Entries, key: seq<byte>, now: nat): (r: seq<byte>)
    ensures r == NullBulk <==> Lookup(entries, key, now) == None
  {
    match Lookup(entries, key, now)
    case Some(v) =>
      NullBulkIsNoBulkString(v);
      BulkString(v)
    case None => NullBulk
  }

  /** A millisecond operand that `parse::<u64>()` accepts without panicking,
      restricted to plain decimal digits. */
  predicate MillisOperand(s: seq<byte>) {
    |s| > 0 && AllDigits(s) && DecimalValue(s) <= MaxMillis
  }

  /** The operands the dispatcher indexes are present, and SET's third
      operand, when there is one, parses as milliseconds. */
  predicate Dispatchable(cmd: Command) {
    match cmd.name
    case Ping => true
    case Echo => |cmd.operands| >= 1
    case Get => |cmd.operands| >= 1
    case Set => |cmd.operands| == 2 || (|cmd.operands| >= 3 && MillisOperand(cmd.operands[2]))
  }

  /** The entry SET installs: no expiry with two operands, otherwise `now`
      plus the milliseconds of the third operand. */
  function SetEntry(cmd: Command, now: nat): (e: Entry)
    requires cmd.name == Set && Dispatchable(cmd)
    ensures e.value == cmd.operands[1]
    ensures e.expiration.None? <==> |cmd.operands| == 2
    ensures e.expiration.Some? ==> e.expiration.value >= now
  {
    if |cmd.operands| == 2 then Entry(cmd.operands[1], None)
    else Entry(cmd.operands[1], Some(now + DecimalValue(cmd.operands[2])))
  }

  /** The server's shared dictionary, without the lock around it. */
  class Keyspace {
    var entries: Entries

    constructor ()
      ensures entries == map[]
    {
      entries := map[];
    }

    /** `dispatcher`: PING, ECHO and GET leave the keyspace as it is (GET
        does not remove an expired entry); SET replaces the entry of its key,
        expiry included, and touches no other key. */
    method Dispatch(cmd: Command, now: nat) returns (reply: seq<byte>)
      requires Dispatchable(cmd)
      modifies this
      ensures cmd.name != Set ==> entries == old(entries)
      ensures cmd.name == Set ==> entries == old(entries)[cmd.operands[0] := SetEntry(cmd, now)]
      ensures cmd.name == Ping ==> reply == PongReply
      ensures cmd.name == Echo ==> reply == SimpleString(cmd.operands[0])
      ensures cmd.name == Set ==> reply == OkReply
      ensures cmd.name == Get ==> reply == GetReply(old(entries), cmd.operands[0], now)
    {
      match cmd.name
      case Ping =>
        reply := PongReply;
      case Echo =>
        reply := SimpleString(cmd.operands[0]);
      case Set =>
        entries := entries[cmd.operands[0] := SetEntry(cmd, now)];
        reply := OkReply;
      case Get =>
        var key := cmd.operands[0];
        if key in entries {
          var value := entries[key];
          match value.expiration
          case Some(exp) =>
            if now > exp {
              reply := NullBulk;
            } else {
              reply := BulkString(value.value);
            }
          case None =>
            reply := BulkString(value.value);
        } else {
          reply := NullBulk;
        }
    }
  }

  /** GET after SET, for every key and every later clock reading: the key
      just set shows its new value until the new expiry has passed (for
      ever without one, whatever expiry the key had before), and every
      other key shows what it showed before. */
  lemma LookupAfterSet(entries: Entries, cmd: Command, setAt: nat, key: seq<byte>, now: nat)
    requires cmd.name == Set && Dispatchable(cmd)
    ensures var after := entries[cmd.operands[0] := SetEntry(cmd, setAt)];
      && (key == cmd.operands[0] && |cmd.operands| == 2 ==> Lookup(after, key, now) == Some(cmd.operands[1]))
      && (key == cmd.operands[0] && |cmd.operands| > 2 ==>
            Lookup(after, key, now) == if now <= setAt + DecimalValue(cmd.operands[2]) then Some(cmd.operands[1]) else None)
      && (key != cmd.operands[0] ==> Lookup(after, key, now) == Lookup(entries, key, now))
  {
  }

  /** The expiry boundary is strict: a key is still visible at its expiry
      instant and gone one millisecond later, and once gone it stays gone
      until the next SET. */
  lemma ExpiryBoundary(entries: Entries, key: seq<byte>, exp: nat, now: nat, later: nat)
    requires key in entries && entries[key].expiration == Some(exp)
    requires now <= later
    ensures Lookup(entries, key, exp) == Some(entries[key].value)
    ensures Lookup(entries, key, exp + 1) == None
    ensures Lookup(entries, key, now) == None ==> Lookup(entries, key, later) == None
  {
  }
}
