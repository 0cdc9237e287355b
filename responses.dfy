/**
 * `Response`: a reply's status code, headers (with their cookie jar) and
 * body, and the text it is written as.
 */
module Responses {
  import opened Wrappers
  import opened PyStrings
  import opened OrderedMaps
  import opened Values
  import opened Exceptions
  import opened Params

  /**
   * `HTTP_STATUS_CODES[code]` for a status code given as any Python value: a
   * dictionary lookup finds every value that equals an integer key, so an
   * integer, a boolean (which equals 0 or 1) and an object equal to an
   * integer; strings, `None`, models and the markers are never keys.
   */
  function Reason(rt: Runtime, code: Value): (r: Option<string>)
    ensures code.IntV? ==> (r.Some? <==> code.i in rt.reasons)
    ensures code.IntV? && r.Some? ==> r.value == rt.reasons[code.i]
    ensures code.BoolV? ==> var i := if code.b then 1 else 0;
              (r.Some? <==> i in rt.reasons) && (r.Some? ==> r.value == rt.reasons[i])
    ensures code.ObjV? ==> (r.Some? <==> rt.intKey(code).Some? && rt.intKey(code).value in rt.reasons)
    ensures code.ObjV? && r.Some? ==> r.value == rt.reasons[rt.intKey(code).value]
    ensures !code.IntV? && !code.BoolV? && !code.ObjV? ==> r.None?
  {
    match code
    case IntV(i) => if i in rt.reasons then Some(rt.reasons[i]) else None
    case BoolV(b) => var i := if b then 1 else 0; if i in rt.reasons then Some(rt.reasons[i]) else None
    case ObjV(_, _) =>
      (match rt.intKey(code)
       case Some(i) => if i in rt.reasons then Some(rt.reasons[i]) else None
       case None => None)
    case _ => None
  }

  /** `str(body)` for the body field, which may be `None`. */
  function BodyFieldText(rt: Runtime, body: Option<Body>): Option<string> {
    if body.None? then Some("None") else BodyText(rt, body.value)
  }

  /**
   * `str(response)`: the status line, the header block, a blank line, then
   * the body; `None` where Python raises (a status code outside the table, a
   * body `json.dumps` rejects).
   */
  function ResponseText(rt: Runtime, status: Value, hs: seq<HeaderParam>, cs: seq<Cookie>, body: Option<Body>): Option<string> {
    var reason := Reason(rt, status);
    var b := BodyFieldText(rt, body);
    if reason.None? || b.None? then None
    else Some(StatusLine(Show(status), reason.value) + HeadersText(hs, cs) + "\r\n" + b.value)
  }

  /** What `write_to_stream` sends: the text, or the fallback line when building it raises. */
  function WriteText(rt: Runtime, status: Value, hs: seq<HeaderParam>, cs: seq<Cookie>, body: Option<Body>): (r: string)
    ensures ResponseText(rt, status, hs, cs, body).Some? ==> r == ResponseText(rt, status, hs, cs, body).value
    ensures ResponseText(rt, status, hs, cs, body).None? ==> r == FallbackLine
  {
    match ResponseText(rt, status, hs, cs, body)
    case Some(t) => t
    case None => FallbackLine
  }

  class Response {
    var statusCode: Value
    var headers: Headers
    var body: Option<Body>

    ghost predicate Valid()
      reads this, headers, headers.cookies
    {
      headers.Valid()
    }

    /** `Response(status_code, headers, response_body)`: no check of the code; fresh empty headers when none are given. */
    constructor (status: Value, hs: Headers?, responseBody: Option<Body>)
      requires hs != null ==> hs.Valid()
      ensures Valid() && statusCode == status && body == responseBody
      ensures hs != null ==> headers == hs
      ensures hs == null ==> fresh(headers) && fresh(headers.cookies)
      ensures hs == null ==> headers.headerParams == Empty() && headers.cookies.params == Empty()
    {
      statusCode := status;
      body := responseBody;
      if hs != null {
        headers := hs;
      } else {
        headers := new Headers(null, []);
      }
    }

    /** `response.cookies`: the jar of the response's headers. */
    function Jar(): (r: Cookies)
      reads this, headers
      ensures r == headers.cookies
    {
      headers.cookies
    }

    /** `response.add_cookie(cookie)`: only the headers' jar changes. */
    method AddCookie(cookie: Cookie)
      requires Valid()
      modifies headers.cookies
      ensures Valid() && headers.cookies.params == old(headers.cookies.params).Put(cookie.name, cookie)
    {
      headers.AddCookie(cookie);
    }

    /** `response.set_cookies(jar)`: the headers hold `jar`; nothing else changes. */
    method SetCookies(jar: Cookies)
      requires Valid() && jar.Valid()
      modifies headers
      ensures Valid() && headers.cookies == jar && headers.headerParams == old(headers.headerParams)
    {
      headers.SetCookies(jar);
    }

    /** `str(response)`. */
    method ToText(rt: Runtime) returns (r: Option<string>)
      requires Valid()
      ensures r == ResponseText(rt, statusCode, headers.headerParams.Values(), headers.cookies.params.Values(), body)
    {
      var reason := Reason(rt, statusCode);
      if reason.None? {
        return None;
      }
      var s := StatusLine(Show(statusCode), reason.value);
      var h := headers.ToText();
      s := s + h;
      s := s + "\r\n";
      var b := BodyFieldText(rt, body);
      if b.None? {
        return None;
      }
      r := Some(s + b.value);
    }

    /** `response.write_to_stream(writer)`: the text written. */
    method Write(rt: Runtime) returns (out: string)
      requires Valid()
      ensures out == WriteText(rt, statusCode, headers.headerParams.Values(), headers.cookies.params.Values(), body)
    {
      var t := ToText(rt);
      if t.Some? {
        out := t.value;
      } else {
        out := FallbackLine;
      }
    }
  }

  /** The status 200 is written as the three digits `200`. */
  lemma ShowTwoHundred()
    ensures Show(IntV(200)) == "200"
  {
    assert NatToString(2) == "2";
    assert NatToString(20) == NatToString(2) + [DigitChar(0)];
    assert NatToString(200) == NatToString(20) + [DigitChar(0)];
  }

  /**
   * `Response(200, Headers(), Body("Hello, World!"))` is written as the
   * status line, an empty header block and the body.
   */
  lemma HelloWorld(rt: Runtime)
    requires 200 in rt.reasons
    ensures ResponseText(rt, IntV(200), [], [], Some(Body(StrV("Hello, World!"))))
            == Some("HTTP/1.1 200 " + rt.reasons[200] + "\r\n\r\nHello, World!")
  {
    assert HeaderLines([]) == [] && CookieLines([]) == [];
    assert HeadersText([], []) == "";
    ShowTwoHundred();
    assert Reason(rt, IntV(200)) == Some(rt.reasons[200]);
    assert BodyFieldText(rt, Some(Body(StrV("Hello, World!")))) == Some("Hello, World!");
    var line := StatusLine("200", rt.reasons[200]);
    assert ResponseText(rt, IntV(200), [], [], Some(Body(StrV("Hello, World!"))))
           == Some(line + "" + "\r\n" + "Hello, World!");
    assert line + "" + "\r\n" + "Hello, World!" == "HTTP/1.1 200 " + rt.reasons[200] + "\r\n\r\nHello, World!";
  }

  /** Without a body, the written text ends in the four characters `None`. */
  lemma NoBodyEndsInNone(rt: Runtime, status: Value, hs: seq<HeaderParam>, cs: seq<Cookie>)
    requires Reason(rt, status).Some?
    ensures ResponseText(rt, status, hs, cs, None).Some?
    ensures EndsWith(ResponseText(rt, status, hs, cs, None).value, "\r\nNone")
  {
    var head := StatusLine(Show(status), Reason(rt, status).value) + HeadersText(hs, cs);
    assert ResponseText(rt, status, hs, cs, None) == Some(head + "\r\n" + "None");
    assert head + "\r\n" + "None" == head + "\r\nNone";
    EndsWithAppend(head, "\r\nNone");
  }

  /** A status code outside the table sends the fallback line, whatever the rest is. */
  lemma UnknownStatusFallsBack(rt: Runtime, code: int, hs: seq<HeaderParam>, cs: seq<Cookie>, body: Option<Body>)
    requires code !in rt.reasons
    ensures WriteText(rt, IntV(code), hs, cs, body) == FallbackLine
  {
  }

  /**
   * The head of a written response is one line per header and cookie after
   * the status line, then a blank line, provided no header line itself holds
   * a carriage return.
   */
  lemma ResponseHeadLines(rt: Runtime, status: Value, hs: seq<HeaderParam>, cs: seq<Cookie>, body: Option<Body>)
    requires ResponseText(rt, status, hs, cs, body).Some?
    requires Lacks(Show(status), '\r') && Lacks(Reason(rt, status).value, '\r')
    requires forall i :: 0 <= i < |hs| ==> Lacks(hs[i].name + ": " + Show(hs[i].value), '\r')
    requires forall i :: 0 <= i < |cs| ==> Lacks(CookieText(cs[i]), '\r')
    ensures var first := "HTTP/1.1 " + Show(status) + " " + Reason(rt, status).value;
            var lines := [first] + HeaderLines(hs) + CookieLines(cs);
            && ResponseText(rt, status, hs, cs, body).value == Terminated(lines, "\r\n") + "\r\n" + BodyFieldText(rt, body).value
            && Split(Terminated(lines, "\r\n"), "\r\n") == lines + [""]
  {
    var first := "HTTP/1.1 " + Show(status) + " " + Reason(rt, status).value;
    var lines := [first] + HeaderLines(hs) + CookieLines(cs);
    HeadLinesText(first, hs, cs);
    assert StatusLine(Show(status), Reason(rt, status).value) == first + "\r\n";
    StatusLacks(Show(status), Reason(rt, status).value);
    HeadLinesFree(first, hs, cs);
    PairBorderless('\r', '\n');
    SplitTerminated(lines, "\r\n");
  }

  lemma StatusLacks(code: string, reason: string)
    requires Lacks(code, '\r') && Lacks(reason, '\r')
    ensures Lacks("HTTP/1.1 " + code + " " + reason, '\r')
  {
    assert Lacks("HTTP/1.1 ", '\r') && Lacks(" ", '\r');
    LacksAppend("HTTP/1.1 ", code, '\r');
    LacksAppend("HTTP/1.1 " + code, " ", '\r');
    LacksAppend("HTTP/1.1 " + code + " ", reason, '\r');
  }

  lemma HeadLinesText(first: string, hs: seq<HeaderParam>, cs: seq<Cookie>)
    ensures Terminated([first] + HeaderLines(hs) + CookieLines(cs), "\r\n") == first + "\r\n" + HeadersText(hs, cs)
  {
    var hl, cl := HeaderLines(hs), CookieLines(cs);
    assert [first] + hl + cl == [first] + (hl + cl);
    TerminatedCons(first, hl + cl, "\r\n");
    TerminatedAppend(hl, cl, "\r\n");
  }

  lemma HeadLinesFree(first: string, hs: seq<HeaderParam>, cs: seq<Cookie>)
    requires Lacks(first, '\r')
    requires forall i :: 0 <= i < |hs| ==> Lacks(hs[i].name + ": " + Show(hs[i].value), '\r')
    requires forall i :: 0 <= i < |cs| ==> Lacks(CookieText(cs[i]), '\r')
    ensures var lines := [first] + HeaderLines(hs) + CookieLines(cs);
            forall k :: 0 <= k < |lines| ==> !Contains(lines[k], "\r\n")
  {
    CookieLinesLack(cs);
    ConcatLack([first], HeaderLines(hs), '\r');
    ConcatLack([first] + HeaderLines(hs), CookieLines(cs), '\r');
    AllLackNotContain([first] + HeaderLines(hs) + CookieLines(cs), "\r\n");
  }

  lemma CookieLinesLack(cs: seq<Cookie>)
    requires forall i :: 0 <= i < |cs| ==> Lacks(CookieText(cs[i]), '\r')
    ensures forall i :: 0 <= i < |cs| ==> Lacks(CookieLines(cs)[i], '\r')
  {
    forall i | 0 <= i < |cs|
      ensures Lacks(CookieLines(cs)[i], '\r')
    {
      var t := CookieText(cs[i]);
      assert CookieLines(cs)[i] == "Set-Cookie: " + t;
      assert Lacks("Set-Cookie: ", '\r');
    }
  }
}
