/**
 * `get_test_html` of the older server: a minimal HTTP/1.1 response whose
 * Content-Length header announces the byte length of the body that follows.
 * `ParseTestPage` reads such a response back and accepts it only when the
 * announced length is the length of the body; the round trip between the two
 * is the property the header promises.
 */
module TestPage {
  import opened Wrappers
  import opened Text

  /**
   * The bytes of the status line and the header name, "HTTP/1.1 200 OK\r\n"
   * then "Content-Length: "; `HeadText` proves they are that text.
   */
  const Head: seq<byte> :=
    [72, 84, 84, 80, 47, 49, 46, 49, 32] + [50, 48, 48, 32] + [79, 75] + [13, 10]
    + [67, 111, 110, 116, 101, 110, 116, 45] + [76, 101, 110, 103, 116, 104, 58, 32]

  /** The head is the text "HTTP/1.1 200 OK\r\nContent-Length: ", character by character. */
  lemma HeadText()
    ensures Head == AsciiBytes("HTTP/1.1 ") + AsciiBytes("200 ") + AsciiBytes("OK") + AsciiBytes("\r\n")
      + AsciiBytes("Content-") + AsciiBytes("Length: ")
  {
    assert AsciiBytes("HTTP/1.1 ") == [72, 84, 84, 80, 47, 49, 46, 49, 32];
    assert AsciiBytes("200 ") == [50, 48, 48, 32];
    assert AsciiBytes("OK") == [79, 75];
    assert AsciiBytes("\r\n") == [13, 10];
    assert AsciiBytes("Content-") == [67, 111, 110, 116, 101, 110, 116, 45];
    assert AsciiBytes("Length: ") == [76, 101, 110, 103, 116, 104, 58, 32];
  }

  /** The end of the header line and the blank line that ends the header block. */
  const HeaderEnd: seq<byte> := [CR, LF, CR, LF]

  /**
   * `format!("HTTP/1.1 200 OK\r\nContent-Length: {}\r\n\r\n{}", data.len(), data)`
   * as bytes; `data.len()` is the length of `data` in bytes.
   */
  function GetTestHtml(data: seq<byte>): (r: seq<byte>)
    ensures |r| == |Head| + |DecimalBytes(|data|)| + 4 + |data|
    ensures r[..|Head|] == Head
    ensures r[|r| - |data|..] == data
  {
    Head + DecimalBytes(|data|) + HeaderEnd + data
  }

  /**
   * Reads what follows the head: a run of decimal digits, CR LF CR LF, then
   * the body. It is accepted only when the digits give the body's length.
   */
  function ParseLengthAndBody(rest: seq<byte>): (r: Option<seq<byte>>)
    ensures r.Some? ==> |r.value| < |rest| && r.value == rest[|rest| - |r.value|..]
  {
    var k := DigitPrefixLength(rest);
    if k == 0 || |rest| < k + 4 || rest[k..k + 4] != [CR, LF, CR, LF] then None
    else
      var body := rest[k + 4..];
      if DigitsValue(rest[..k]) != |body| then None else Some(body)
  }

  /** Reads a page that starts with the head `h`. */
  function ParseAfterHead(h: seq<byte>, b: seq<byte>): (r: Option<seq<byte>>)
    ensures r.Some? ==> |h| <= |b| && b[..|h|] == h
    ensures r.Some? ==> |r.value| < |b| && r.value == b[|b| - |r.value|..]
  {
    if |b| < |h| || b[..|h|] != h then None
    else
      var r := ParseLengthAndBody(b[|h|..]);
      assert r.Some? ==> b[|h|..][|b[|h|..]| - |r.value|..] == b[|b| - |r.value|..];
      r
  }

  /** Reads a test page back: the head, the decimal length, CR LF CR LF and a body of that length. */
  function ParseTestPage(b: seq<byte>): (r: Option<seq<byte>>)
    ensures r.Some? ==> |Head| <= |b| && b[..|Head|] == Head
    ensures r.Some? ==> |r.value| < |b| && r.value == b[|b| - |r.value|..]
  {
    ParseAfterHead(Head, b)
  }

  /** Digits, CR LF CR LF and body parse back to the body exactly when the digits give its length. */
  lemma LengthLayout(d: seq<byte>, body: seq<byte>)
    requires |d| >= 1 && AllDigits(d)
    ensures ParseLengthAndBody(d + [CR, LF, CR, LF] + body) == (if DigitsValue(d) == |body| then Some(body) else None)
  {
    var end := [CR, LF, CR, LF] + body;
    var rest := d + [CR, LF, CR, LF] + body;
    assert rest == d + end;
    assert DigitPrefixLength(rest) == |d| by {
      DigitPrefixOfDigits(d, end);
    }
    assert rest[..|d|] == d;
    assert rest[|d|..|d| + 4] == [CR, LF, CR, LF] by {
      assert rest[|d|..|d| + 4] == end[..4];
    }
    assert rest[|d| + 4..] == body by {
      assert rest[|d|..] == end;
    }
  }

  /** Head, digits, CR LF CR LF and body parse back to the body exactly when the digits give its length. */
  lemma HeadLayout(h: seq<byte>, d: seq<byte>, body: seq<byte>)
    requires |d| >= 1 && AllDigits(d)
    ensures ParseAfterHead(h, h + d + [CR, LF, CR, LF] + body) == (if DigitsValue(d) == |body| then Some(body) else None)
  {
    var rest := d + [CR, LF, CR, LF] + body;
    var b := h + d + [CR, LF, CR, LF] + body;
    assert b == h + rest;
    assert b[..|h|] == h;
    assert b[|h|..] == rest;
    LengthLayout(d, body);
  }

  /** A test page parses back to its body exactly when the announced length is the body's. */
  lemma ParsePageLayout(d: seq<byte>, body: seq<byte>)
    requires |d| >= 1 && AllDigits(d)
    ensures ParseTestPage(Head + d + [CR, LF, CR, LF] + body) == (if DigitsValue(d) == |body| then Some(body) else None)
  {
    HeadLayout(Head, d, body);
  }

  /** The announced Content-Length is the body's length: every test page parses back to exactly its body. */
  lemma ParseGetTestHtml(data: seq<byte>)
    ensures ParseTestPage(GetTestHtml(data)) == Some(data)
  {
    DecimalValue(|data|);
    ParsePageLayout(DecimalBytes(|data|), data);
  }
}
