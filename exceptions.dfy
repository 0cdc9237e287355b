/**
 * `HttpException`: an error reply the server raises and writes back, and the
 * Python exceptions that are not replies (the ones that end in the generic 500).
 */
module Exceptions {
  import opened Wrappers
  import opened PyStrings
  import opened Json

  /** An `HttpException` after construction: a code from the table and the JSON detail text. */
  datatype HttpException = HttpException(statusCode: int, detail: string)

  /** The Python exceptions the model distinguishes that are not `HttpException`. */
  datatype ErrorKind =
    | ValueError          // a failed unpacking, `int()` of bad text, `json.loads` of bad JSON
    | KeyError            // a missing dictionary key
    | TypeError           // a bad call, `issubclass` of a non-class
    | RecursionError      // `HttpException` with no 500 in the status table
    | IncompleteReadError // the stream ended before the expected line or bytes
    | ForeignError        // anything raised inside the handler or a foreign call

  /** How an operation that can raise ends when it raises. */
  datatype Failure = Http(exc: HttpException) | Uncaught(kind: ErrorKind)

  /** The line written when a reply cannot be serialised. */
  const FallbackLine: string := "HTTP/1.1 500 Internal Server\r\n"

  const WrongCodeMessage: string := "Wrong http code defined."

  /**
   * `raise HttpException(code, detail)`. A code outside the table makes the
   * constructor raise `HttpException(500, ...)` instead, which itself needs 500
   * to be in the table; without it the constructor recurses until Python gives up.
   */
  function Raise(reasons: map<int, string>, code: int, detail: Option<string>): (r: Failure)
    ensures r.Http? ==> r.exc.statusCode in reasons
    ensures r.Http? <==> code in reasons || 500 in reasons
    ensures code in reasons ==> r.exc.statusCode == code && r.exc.detail == DetailJson(detail)
    ensures code !in reasons && 500 in reasons ==>
              r.exc.statusCode == 500 && r.exc.detail == DetailJson(Some(WrongCodeMessage))
  {
    if code in reasons then Http(HttpException(code, DetailJson(detail)))
    else if 500 in reasons then Http(HttpException(500, DetailJson(Some(WrongCodeMessage))))
    else Uncaught(RecursionError)
  }

  /** `f"HTTP/1.1 {code} {reason}\r\n"`. */
  function StatusLine(code: string, reason: string): string {
    "HTTP/1.1 " + code + " " + reason + "\r\n"
  }

  /** `str(e)`: `None` when the code is not in the table (the lookup raises). */
  function ExceptionText(reasons: map<int, string>, e: HttpException): (r: Option<string>)
    ensures r.Some? <==> e.statusCode in reasons
    ensures r.Some? ==> r.value == StatusLine(IntToString(e.statusCode), reasons[e.statusCode]) + "\r\n" + e.detail
  {
    if e.statusCode in reasons then
      Some(StatusLine(IntToString(e.statusCode), reasons[e.statusCode]) + "\r\n" + e.detail)
    else None
  }

  /** What `e.write_to_stream` sends: `str(e)`, or the fallback line when that raises. */
  function WriteException(reasons: map<int, string>, e: HttpException): string {
    match ExceptionText(reasons, e)
    case Some(t) => t
    case None => FallbackLine
  }

  /**
   * A raised exception always serialises: its text is the status line of the
   * code it ended with, a blank line, and the detail, a printable-ASCII JSON
   * object (so no header line follows the status line), never the fallback.
   */
  lemma RaisedWrites(reasons: map<int, string>, code: int, detail: Option<string>)
    requires Raise(reasons, code, detail).Http?
    ensures var e := Raise(reasons, code, detail).exc;
            && WriteException(reasons, e) != FallbackLine
            && WriteException(reasons, e) == StatusLine(IntToString(e.statusCode), reasons[e.statusCode]) + "\r\n" + e.detail
            && AllPrintableAscii(e.detail)
  {
    var e := Raise(reasons, code, detail).exc;
    var d := if code in reasons then detail else Some(WrongCodeMessage);
    assert e.detail == DetailJson(d);
    DetailJsonPrintable(d);
    EndsDiffer(StatusLine(IntToString(e.statusCode), reasons[e.statusCode]) + "\r\n", e.detail);
  }

  lemma EndsDiffer(head: string, detail: string)
    requires |detail| > 0 && detail[|detail| - 1] == '}'
    ensures head + detail != FallbackLine
  {
    var t := head + detail;
    assert t[|t| - 1] == '}';
    assert FallbackLine[|FallbackLine| - 1] == '\n';
  }

  /** The detail is JSON text whose `"detail"` member decodes back to the message. */
  lemma DetailDecodes(reasons: map<int, string>, code: int, message: string)
    requires code in reasons
    ensures exists body :: Raise(reasons, code, Some(message)).exc.detail == "{\"detail\": \"" + body + "\"}"
                           && Unescape(body) == Some(message)
    ensures Raise(reasons, code, None).exc.detail == "{\"detail\": null}"
  {
    UnescapeEscape(message);
    DetailJsonShape(message);
    var body := Escape(message);
    assert Raise(reasons, code, Some(message)).exc.detail == "{\"detail\": \"" + body + "\"}";
  }
}
