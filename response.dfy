/**
 * Reply formatting: `create_response` writes `"<code> <message>\r\n"`, the reply
 * shape of section 4.2 of RFC 959. The function is the same in both versions of
 * the server, so it is defined once here. `ParseReply` reads such a line back
 * and is its inverse.
 */
module Response {
  import opened Wrappers
  import opened Text

  /** The code `Response::service_ready()` stands for. */
  const ServiceReadyCode: nat := 220

  /**
   * The bytes of the greeting message "Service ready for new user.", word by
   * word; `ServiceReadyMessageText` proves they are the character codes of that text.
   */
  const ServiceReadyMessage: seq<byte> :=
    [83, 101, 114, 118, 105, 99, 101, 32] + [114, 101, 97, 100, 121, 32] + [102, 111, 114, 32]
    + [110, 101, 119, 32] + [117, 115, 101, 114, 46]

  /**
   * `format!("{} {}\r\n", code, message).into_bytes()`: the decimal digits of
   * the code, one space, the message, CR LF.
   */
  function CreateResponse(code: nat, message: seq<byte>): (r: seq<byte>)
    ensures |r| == |DecimalBytes(code)| + |message| + 3
    ensures r[..|DecimalBytes(code)|] == DecimalBytes(code)
    ensures r[|DecimalBytes(code)|] == Space
    ensures r[|DecimalBytes(code)| + 1..|r| - 2] == message
    ensures r[|r| - 2..] == [CR, LF]
  {
    DecimalBytes(code) + [Space] + message + [CR, LF]
  }

  /** The reply a newly admitted control connection has pending first. */
  function Greeting(): seq<byte> {
    CreateResponse(ServiceReadyCode, ServiceReadyMessage)
  }

  datatype Reply = Reply(code: nat, message: seq<byte>)

  /** Reads what follows the code: one space, the message bytes and a closing CR LF. */
  function ParseMessage(rest: seq<byte>): (r: Option<seq<byte>>)
    ensures r.Some? ==> |rest| == |r.value| + 3 && rest == [Space] + r.value + [CR, LF]
  {
    if |rest| < 3 || rest[0] != Space || rest[|rest| - 2..] != [CR, LF] then None
    else
      var m := rest[1..|rest| - 2];
      assert rest == [Space] + m + [CR, LF];
      Some(m)
  }

  /**
   * Reads one reply line: a run of decimal digits, one space, the message bytes
   * and a closing CR LF. Anything else is not a reply.
   */
  function ParseReply(b: seq<byte>): (r: Option<Reply>)
    ensures r.Some? ==> |b| >= 4 && b[|b| - 2..] == [CR, LF]
  {
    var k := DigitPrefixLength(b);
    if k == 0 then None
    else
      match ParseMessage(b[k..])
      case None => None
      case Some(m) =>
        assert b == b[..k] + b[k..];
        Some(Reply(DigitsValue(b[..k]), m))
  }

  /** Space, message and CR LF read back as the message. */
  lemma ParseMessageLayout(m: seq<byte>)
    ensures ParseMessage([Space] + m + [CR, LF]) == Some(m)
  {
    var rest := [Space] + m + [CR, LF];
    assert rest[1..|rest| - 2] == m;
  }

  /** A line laid out as digits, space, message, CR LF parses to those parts. */
  lemma ParseLayout(d: seq<byte>, m: seq<byte>)
    requires |d| >= 1 && AllDigits(d)
    ensures ParseReply(d + [Space] + m + [CR, LF]) == Some(Reply(DigitsValue(d), m))
  {
    var tail := [Space] + m + [CR, LF];
    var b := d + [Space] + m + [CR, LF];
    assert b == d + tail;
    assert DigitPrefixLength(b) == |d| by {
      DigitPrefixOfDigits(d, tail);
    }
    assert b[..|d|] == d;
    assert b[|d|..] == tail;
    ParseMessageLayout(m);
  }

  /** Every formatted reply reads back as exactly its code and its message. */
  lemma ParseCreateResponse(code: nat, message: seq<byte>)
    ensures ParseReply(CreateResponse(code, message)) == Some(Reply(code, message))
  {
    DecimalValue(code);
    ParseLayout(DecimalBytes(code), message);
  }

  /** The greeting message is the text "Service ready for new user.", character by character. */
  lemma ServiceReadyMessageText()
    ensures ServiceReadyMessage == AsciiBytes("Service ") + AsciiBytes("ready ") + AsciiBytes("for ")
      + AsciiBytes("new ") + AsciiBytes("user.")
  {
    assert AsciiBytes("Service ") == [83, 101, 114, 118, 105, 99, 101, 32];
    assert AsciiBytes("ready ") == [114, 101, 97, 100, 121, 32];
    assert AsciiBytes("for ") == [102, 111, 114, 32];
    assert AsciiBytes("new ") == [110, 101, 119, 32];
    assert AsciiBytes("user.") == [117, 115, 101, 114, 46];
  }

  /**
   * The greeting is the line the server's own tests expect a new client to
   * read first, "220 Service ready for new user.\r\n", character by character.
   */
  lemma GreetingText()
    ensures Greeting() == AsciiBytes("220 ") + ServiceReadyMessage + AsciiBytes("\r\n")
  {
    assert DecimalBytes(ServiceReadyCode) + [Space] == AsciiBytes("220 ") by {
      assert DecimalBytes(ServiceReadyCode) == [50, 50, 48];
    }
    assert AsciiBytes("\r\n") == [CR, LF];
  }
}
