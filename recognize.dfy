/** How `parse_redis_command` turns the elements of the array into a command,
    and what it makes of whole encoded requests. */
module Recognition {
  import opened Bytes
  import opened Frames
  import opened Decoder
  import opened RoundTrip

  /** The four command words differ in their first letter. */
  lemma CommandWordsDistinct()
    ensures PingWord[0] == 'p' as byte && EchoWord[0] == 'e' as byte
    ensures SetWord[0] == 's' as byte && GetWord[0] == 'g' as byte
    ensures |{PingWord, EchoWord, SetWord, GetWord}| == 4
  {
  }

  /** The outcome of recognition, case by case: PING drops every further
      element, ECHO and GET keep exactly element 1, SET keeps elements 1 and 2
      and, when there are more than three elements, element 4; any other word
      is rejected, and a missing element is out of range. */
  lemma RecognizeCases(elements: seq<seq<byte>>, next: nat)
    ensures |elements| == 0 ==> Recognize(elements, next) == OutOfRange
    ensures |elements| > 0 ==> var word := Lower(elements[0]);
      && (word == PingWord ==> Recognize(elements, next) == Ok(Command(Ping, []), next))
      && (word == EchoWord && |elements| >= 2 ==> Recognize(elements, next) == Ok(Command(Echo, [elements[1]]), next))
      && (word == GetWord && |elements| >= 2 ==> Recognize(elements, next) == Ok(Command(Get, [elements[1]]), next))
      && (word == SetWord && |elements| == 3 ==> Recognize(elements, next) == Ok(Command(Set, [elements[1], elements[2]]), next))
      && (word == SetWord && |elements| >= 5 ==>
            Recognize(elements, next) == Ok(Command(Set, [elements[1], elements[2], elements[4]]), next))
      && (word == SetWord && |elements| == 4 ==> Recognize(elements, next) == OutOfRange)
      && (word !in {PingWord, EchoWord, SetWord, GetWord} ==> Recognize(elements, next) == Rejected(UnknownCommand))
  {
    CommandWordsDistinct();
  }

  /** Every recognised command carries the operands the dispatcher indexes:
      none for PING, one for ECHO and GET, two or three for SET. The cursor is
      passed through unchanged. */
  lemma RecognizedArity(elements: seq<seq<byte>>, next: nat)
    requires Recognize(elements, next).Ok?
    ensures var c := Recognize(elements, next).value;
      && Recognize(elements, next).next == next
      && (c.name == Ping ==> c.operands == [])
      && (c.name == Echo || c.name == Get ==> |c.operands| == 1 && c.operands[0] == elements[1])
      && (c.name == Set ==> 2 <= |c.operands| <= 3 && c.operands[..2] == elements[1..3])
      && (c.name == Set && |c.operands| == 3 <==> c.name == Set && |elements| > 3)
  {
  }

  /** The command word is matched without regard to ASCII case: two element
      lists that differ only in the case of their first element are
      recognised alike. */
  lemma RecognizeIgnoresCase(elements: seq<seq<byte>>, word: seq<byte>, next: nat)
    requires |elements| > 0 && Lower(word) == Lower(elements[0])
    ensures Recognize(elements[0 := word], next) == Recognize(elements, next)
  {
  }

  /** SET never inspects element 3: whatever stands there (`PX` or not),
      the command is the same. */
  lemma SetIgnoresElement3(elements: seq<seq<byte>>, x: seq<byte>, next: nat)
    requires |elements| > 3 && Lower(elements[0]) == SetWord
    ensures Recognize(elements[3 := x], next) == Recognize(elements, next)
  {
  }

  /** The upper-case spellings clients send fold to the command words. */
  lemma UpperCaseWords()
    ensures Lower(Ascii("PING")) == PingWord
    ensures Lower(Ascii("ECHO")) == EchoWord
    ensures Lower(Ascii("SET")) == SetWord
    ensures Lower(Ascii("GET")) == GetWord
    ensures Lower(Ascii("pInG")) == PingWord
  {
  }

  /** `*1\r\n$4\r\nPING\r\n`, with or without further elements, is PING. */
  lemma PingRequest(extra: seq<seq<byte>>, post: seq<byte>)
    requires |extra| < 255
    requires forall i | 0 <= i < |extra| :: |extra[i]| < 256
    ensures var req := Request([Ascii("PING")] + extra);
      CommandIn(req + post) == Ok(Command(Ping, []), |req|)
  {
    var args := [Ascii("PING")] + extra;
    UpperCaseWords();
    CommandInRequest(args, post);
  }

  /** An encoded `ECHO msg` is ECHO with the message as its operand. */
  lemma EchoRequest(msg: seq<byte>, post: seq<byte>)
    requires |msg| < 256
    ensures var req := Request([Ascii("ECHO"), msg]);
      CommandIn(req + post) == Ok(Command(Echo, [msg]), |req|)
  {
    UpperCaseWords();
    CommandWordsDistinct();
    CommandInRequest([Ascii("ECHO"), msg], post);
  }

  /** An encoded `GET key` is GET of that key. */
  lemma GetRequest(key: seq<byte>, post: seq<byte>)
    requires |key| < 256
    ensures var req := Request([Ascii("GET"), key]);
      CommandIn(req + post) == Ok(Command(Get, [key]), |req|)
  {
    UpperCaseWords();
    CommandWordsDistinct();
    CommandInRequest([Ascii("GET"), key], post);
  }

  /** An encoded `SET key value` is SET with two operands. */
  lemma SetRequest(key: seq<byte>, value: seq<byte>, post: seq<byte>)
    requires |key| < 256 && |value| < 256
    ensures var req := Request([Ascii("SET"), key, value]);
      CommandIn(req + post) == Ok(Command(Set, [key, value]), |req|)
  {
    UpperCaseWords();
    CommandInRequest([Ascii("SET"), key, value], post);
  }

  /** An encoded `SET key value <option> ms` is SET with the milliseconds as
      its third operand, whatever the option word says. */
  lemma SetPxRequest(key: seq<byte>, value: seq<byte>, option: seq<byte>, ms: seq<byte>, post: seq<byte>)
    requires |key| < 256 && |value| < 256 && |option| < 256 && |ms| < 256
    ensures var req := Request([Ascii("SET"), key, value, option, ms]);
      CommandIn(req + post) == Ok(Command(Set, [key, value, ms]), |req|)
  {
    UpperCaseWords();
    CommandInRequest([Ascii("SET"), key, value, option, ms], post);
  }
}
