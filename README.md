# A verified model of a minimal RESP key–value server

This project models the core of a small Redis-like server written in Rust
(`src/main.rs`). The server reads one request into a 512-byte buffer and decodes it
as a RESP array of bulk strings. It recognises PING, ECHO, SET (with an optional
millisecond expiry) and GET, runs the command against an in-memory dictionary with
lazy expiry, and writes back a RESP reply.

The model has six modules:

- `Bytes` (`bytes.dfy`): bytes as an 8-bit newtype, so that Dafny must prove
  that the server's `u8` length accumulators never overflow on the inputs the
  model admits. It also
  holds ASCII text, ASCII case folding, and decimal numerals (`DecimalValue` reads
  one, `Decimal` writes one).
- `Frames` (`frames.dfy`): the reply encoder `construct_return_redis_string`
  (`BulkString`), the simple-string frame used for ECHO, and the fixed replies
  `+PONG\r\n`, `+OK\r\n` and `$-1\r\n`. It also holds `Request`, the array of
  bulk strings a client sends. The server never builds one, but the decoder's
  round trips are stated against it.
- `Decoder` (`decoder.dfy`): `parse_bulk_string`, `parse_array` and
  `parse_redis_command` as imperative methods over an `array<byte>`. Each moves
  an explicit cursor and carries the loops of the original. Each is proved equal
  to a total specification function (`BulkStringAt`, `ArrayAt`, `CommandIn`).
  That function says the parse ends in one of three ways:
  - `Ok(value, next)`: the value read and the cursor after it.
  - `Rejected(reason)`: the server's own `assert!` (no `$`) or `panic!` (unknown
    command word) fires.
  - `OutOfRange`: the server would index past the buffer, overflow a `u8` length,
    read a non-digit in a length field, or ask for an array element that is not
    there. The server checks none of these, so the methods require that they do
    not happen.

  Length fields are specified twice. `LengthFrom` follows the digit loop byte by
  byte. `NumeralAt` reads the bytes up to the first CR as one decimal numeral.
  `LengthAtIsNumeral` proves that the two agree.
- `RoundTrip` (`roundtrip.dfy`): decoding what the encoders produce gives back
  the payloads and elements in order. It also shows where the cursor ends, and
  that the element count equals the header.
- `Recognition` (`recognize.dfy`): how the first element selects the command
  without regard to ASCII case, which operands each command keeps, and the
  commands that whole encoded requests decode to.
- `Dispatcher` (`dispatcher.dfy`): the keyspace as a class `Keyspace` whose
  `entries` map is replaced by SET. `Dispatch` is the `dispatcher` function, and
  `Lookup` is what a GET observes at a given clock reading `now`.
- `Scenarios` (`scenarios.dfy`): whole request/reply exchanges. A request
  arrives in a zeroed 512-byte buffer, `ParseCommand` decodes it, and
  `Keyspace.Dispatch` answers it.

The model keeps these behaviours of the code as they are written. For the first
three, Redis itself documents a different behaviour, noted beside each.

- ECHO answers with a simple string `+<msg>\r\n`. Redis answers ECHO with a
  bulk string.
- SET with more than three elements takes the expiry from element 4 and never
  looks at element 3, so any word there acts as `PX`. Four elements index past
  the array. Redis parses named options such as `EX` and `PX`.
- An unknown command word is a `panic!` (`Rejected(UnknownCommand)`). Redis
  answers it with an `-ERR unknown command` error reply.
- GET does not remove an expired entry. It only answers `$-1\r\n`.
- Length fields are accumulated in a `u8`. Lengths of 256 or more are outside
  the model.
- Each read is parsed from offset 0 as exactly one request. Bytes after that
  request are ignored, and a request split over two reads is not reassembled.

## Model

| member | source | states |
|---|---|---|
| `Bytes.Decimal` | src/main.rs:85 | the `{}` rendering of a length is a non-empty digit string with no leading zero, and it reads back as the same number |
| `Bytes.DecimalStep` | src/main.rs:121 | one turn of `len = len * 10 + (b - '0')`: appending a digit to a numeral keeps it a numeral, and its value becomes ten times the old value plus the digit |
| `Bytes.DecimalPrefixBound` | src/main.rs:118-123 | every prefix of a length field is worth no more than the whole field, so a `u8` accumulator whose final value is below 256 never overflows on the way |
| `Decoder.FindCR` | src/main.rs:120 | the scan stops within the buffer on a CR at or after the cursor, or at the end of the buffer |
| `Decoder.FindCRFirst` | src/main.rs:120 | no byte between the cursor and the position the scan stops at is a CR, so it stops at the first CR |
| `Decoder.FindCRAt` | src/main.rs:120 | a CR with no CR before it from the cursor on is exactly where the scan stops |
| `Decoder.LengthFrom` | src/main.rs:120-124 | the digit loop, when it ends, leaves the cursor two bytes past a CR that lies inside the buffer |
| `Decoder.LengthFromNumeral` | src/main.rs:120-124 | continuing the digit loop from any point before the first CR, with the value of the digits read so far, gives what reading the whole field as a decimal numeral gives |
| `Decoder.LengthAtIsNumeral` | src/main.rs:118-124 | the digit loop succeeds exactly when the bytes up to the first CR are a decimal numeral below 256; its value is that numeral's value and the cursor ends two bytes past the CR |
| `Decoder.ReadLength` | src/main.rs:118-124 | the `u8` loop of both parsers never overflows and returns the value and final cursor of the digit loop's specification, hence the decimal value of the field |
| `Decoder.ParseBulkString` | src/main.rs:115-132 | the cursor-driven loop returns exactly the bulk string and final cursor of the specification, or the rejection when `$` is missing |
| `Decoder.ParseElements` | src/main.rs:152-156 | the element loop returns exactly the run of `count` bulk strings of the specification and the cursor after it, or the first element's rejection |
| `Decoder.ParseArray` | src/main.rs:141-157 | skips the type byte, reads the count, then returns exactly that run of bulk strings and the cursor after it, or the first element's rejection |
| `Decoder.Recognize` | src/main.rs:164-191 | a recognised command keeps the cursor; the result is the unknown-command rejection exactly when there is a first element and it folds to none of `ping`, `echo`, `set`, `get` |
| `Decoder.ParseCommand` | src/main.rs:160-192 | parses the array at offset 0 of the 512-byte buffer and recognises it as a command, as the specification does |
| `Frames.BulkString` | src/main.rs:83-86 | the reply starts with `$` and ends with CR LF, and is five bytes longer than the payload plus its decimal length |
| `Frames.SimpleString` | src/main.rs:26 | the reply is `+`, then exactly the text, then CR LF, three bytes longer than the text |
| `Frames.BulkStringLayout` | src/main.rs:83-86 | the encoding is `$`, the decimal length, CR LF, the payload, CR LF; its size is the payload plus the numeral plus five |
| `Frames.NullBulkIsNoBulkString` | src/main.rs:65-76 | no bulk reply of a GET hit equals the null bulk reply of a miss |
| `Frames.SimpleRepliesAreNotBulk` | src/main.rs:22-27 | PONG, OK and ECHO replies start with `+`, bulk and null bulk replies with `$`; PONG and OK differ |
| `RoundTrip.LengthAtNumeral` | src/main.rs:118-124 | a numeral below 256 followed by CR LF is read back as its value, with the cursor just past the CR LF |
| `RoundTrip.FrameHeader` | src/main.rs:116-124 | a header made of a type byte, a numeral below 256 and CR LF has that type byte, is read back as the numeral's value, and leaves the cursor where what follows the header starts |
| `RoundTrip.BulkStringRoundTrip` | src/main.rs:115-132 | parsing the encoding of any payload shorter than 256 bytes (an ASCII payload, for the server's own replies), wherever it sits in the buffer, gives the payload back and stops the cursor right after the encoding |
| `RoundTrip.BulkStringsRoundTrip` | src/main.rs:152-156 | parsing a run of encoded bulk strings gives them back in order and stops right after the last |
| `RoundTrip.ArrayRoundTrip` | src/main.rs:141-157 | parsing an encoded request wherever it sits in the buffer gives back its elements in order and stops right after the last |
| `RoundTrip.RequestRoundTrip` | src/main.rs:141-157 | parsing an encoded request at offset 0 gives back its elements in order and stops right after the last, whatever follows |
| `RoundTrip.CommandInRequest` | src/main.rs:160-162 | the command in an encoded request is the one its element list denotes |
| `RoundTrip.BulkStringCursor` | src/main.rs:115-132 | a successful bulk parse starts at `$`, returns exactly the declared number of bytes from after the length line, and advances the cursor by 1 + digits + 2 + length + 2 |
| `RoundTrip.ElementStartNext` | src/main.rs:152-156 | in a successful element run, each bulk string starts exactly where the previous one ended |
| `RoundTrip.ElementsCount` | src/main.rs:152-156 | the element loop returns exactly as many strings as it was asked for, never moves the cursor backwards, and leaves it where an element after the last would start |
| `RoundTrip.ElementsInOrder` | src/main.rs:152-156 | element `k` of the result is the bulk string that starts at `ElementStart(buf, p, k)`, where element `k - 1` ended, so the elements come back in buffer order |
| `RoundTrip.ArrayCount` | src/main.rs:141-157 | the element count is the decimal header read from just after the type byte up to the CR, and the elements are the run that follows |
| `Recognition.RecognizeCases` | src/main.rs:160-191 | PING keeps no operand, ECHO and GET keep element 1, SET keeps elements 1 and 2 (plus 4 beyond three elements, and four elements are out of range), any other word is rejected |
| `Recognition.RecognizedArity` | src/main.rs:164-188 | every recognised command has the operands the dispatcher indexes: none, one, or two or three for SET, taken from the elements |
| `Recognition.RecognizeIgnoresCase` | src/main.rs:165-184 | elements whose first words fold to the same lower case are recognised alike |
| `Recognition.SetIgnoresElement3` | src/main.rs:175-179 | SET's result does not depend on element 3, so the option word is never checked |
| `Recognition.UpperCaseWords` | src/main.rs:165 | `PING`, `ECHO`, `SET`, `GET` and `pInG` fold to the command words |
| `Recognition.PingRequest` | src/main.rs:164-169 | an encoded PING request, with any further elements, decodes to PING without operands |
| `Recognition.EchoRequest` | src/main.rs:170-174 | an encoded `ECHO msg` decodes to ECHO of `msg` |
| `Recognition.GetRequest` | src/main.rs:184-188 | an encoded `GET key` decodes to GET of `key` |
| `Recognition.SetRequest` | src/main.rs:175-183 | an encoded `SET key value` decodes to SET with exactly those two operands |
| `Recognition.SetPxRequest` | src/main.rs:175-183 | an encoded `SET key value <word> ms` decodes to SET with `ms` as third operand, whatever the word |
| `Dispatcher.Lookup` | src/main.rs:55-79 | a GET finds a value only for a present key, and it is that key's stored value; an absent key is a miss, an entry without expiry is always a hit, and one with an expiry is a hit exactly while `now` is not past it |
| `Dispatcher.GetReply` | src/main.rs:55-79 | GET answers `$-1\r\n` exactly when the lookup misses, so a hit's bulk reply is never mistaken for a miss |
| `Dispatcher.SetEntry` | src/main.rs:29-48 | SET stores the value with no expiry for two operands, and otherwise with an expiry at or after `now` |
| `Dispatcher.Keyspace.Dispatch` | src/main.rs:20-81 | PING answers `+PONG\r\n`, ECHO `+msg\r\n`, SET `+OK\r\n` after replacing its key's entry and nothing else; GET answers from `Lookup` and leaves the map unchanged |
| `Dispatcher.LookupAfterSet` | src/main.rs:28-79 | after SET, GET of that key gives the new value for ever without expiry, or until `now` exceeds `setAt + ms` with one, replacing any earlier expiry; every other key reads as before |
| `Dispatcher.ExpiryBoundary` | src/main.rs:60-67 | an entry is visible at its expiry instant, gone one millisecond later, and stays gone as the clock advances |
| `Scenarios.Ping` | src/main.rs:22-24 | `*1\r\n$4\r\nPING\r\n` in the buffer is answered with `+PONG\r\n` |
| `Scenarios.Echo` | src/main.rs:25-27 | an ECHO request is answered with the message as a simple string; for the server this holds for ASCII messages |
| `Scenarios.GetMiss` | src/main.rs:75-77 | GET of a never-set key is answered with `$-1\r\n` |
| `Scenarios.SetThenGet` | src/main.rs:28-79 | SET then GET from the buffer answers `+OK\r\n`, then the value as a bulk string, at any later clock reading; for the server this holds for ASCII values |
| `Scenarios.SetPxThenGet` | src/main.rs:38-66 | SET with PX then GET answers the value up to and including `setAt + ms`, and `$-1\r\n` after it |
| `Scenarios.OverwriteClearsExpiry` | src/main.rs:49-52 | a SET without expiry over an expiring key makes the new value visible at every later time |

## Left out

- `main` (src/main.rs:88-113) is left out: the TCP listener, task spawning, socket reads and writes, and the `unwrap`s on I/O. The scenarios model one read that delivers a whole request into a zeroed 512-byte buffer.
- The `Arc<Mutex<…>>` around the dictionary exists only for concurrency. The keyspace is a plain map owned by `Keyspace`, and each `Dispatch` runs as one atomic step.
- The wall clock (`SystemTime::now`, `UNIX_EPOCH`, `Duration`) is the parameter `now` in whole milliseconds. The stored expiry `(now + ms).as_millis()` equals `now_ms + ms` because `ms` is a whole number of milliseconds.
- Dispatcher.SetEntry: the `u128` expiry and the `checked_add(...).unwrap()` overflow panic are not modelled. The sum is an unbounded natural number.
- Dispatcher.Keyspace.Dispatch: it requires the SET milliseconds to be plain decimal digits below 2^64. `parse::<u64>()` also accepts a leading `+`, and anything else is an `unwrap` panic that the model does not reproduce.
- Decoder.ReadLength: it requires length fields made only of decimal digits, with a value below 256. The server folds any byte at or above `'0'` into the length, and underflows on bytes below it. In a debug build, a `u8` length of 256 or more is an overflow panic, and in a release build it wraps around. None of this is modelled.
- Decoder.ParseBulkString, Decoder.ParseElements, Decoder.ParseArray, Decoder.ParseCommand: out-of-bounds indexing of the buffer or of the element list is a precondition, not a modelled panic. Only the `assert!` on `$` and the `panic!` on an unknown word are modelled, as `Rejected`.
- Frames.BulkString: values are byte sequences, and replies carry the stored bytes unchanged. The server stores each received byte as `char::from(u8)` (src/main.rs:127), so a byte of 0x80 or above is held as two UTF-8 bytes. The GET and ECHO replies (src/main.rs:26, 85) write both bytes back, and `len()` counts both: a value stored as the single byte 0xE9 comes back as `$2\r\n\xC3\xA9\r\n`. The server is therefore not binary-safe. The model's replies, and the rows for `BulkStringRoundTrip`, `Scenarios.Echo` and `Scenarios.SetThenGet`, describe the server only for ASCII payloads.
- Frames.SimpleString: the same re-encoding of bytes at or above 0x80 applies to the ECHO reply, and it is not modelled.
- Bytes.Lower: `to_lowercase` is modelled as ASCII case folding. A character made from one byte never lowercases to an ASCII letter unless it is an ASCII capital, so the result of comparing against the four command words is unchanged.
- The `println!` logging has no effect on replies or state and is left out.
