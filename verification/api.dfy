/** The API client (`callKimaiApi`): how one call's request is built from the
    server settings, and how the reply the server sends back settles the
    call. The HTTP transport and `JSON.parse` are not modelled: a reply is
    given as an error the HTTP library reports (during set-up or later), a
    body that does not parse, or the parsed JSON value. */
module Api {
  import opened Options
  import opened Json
  import opened ServerUrl

  datatype Method = GET | POST | PATCH

  /** The `serversettings` section of the settings file. */
  datatype ServerSettings = ServerSettings(kimaiurl: string, username: string, password: string)

  datatype Header = Header(name: string, value: string)

  /** The options object handed to the HTTP library; `body` is the JSON value
      that `JSON.stringify` serialises, `qs` the query-string object. */
  datatype Request = Request(
    verb: Method,
    url: string,
    headers: seq<Header>,
    qs: Option<Json>,
    body: Option<Json>)

  const ApiPath := "/api/"
  const UserHeader := "X-AUTH-USER"
  const TokenHeader := "X-AUTH-TOKEN"
  const ContentTypeHeader := "Content-Type"
  const JsonMediaType := "application/json"

  /** Value of the first header called `name`, if any. */
  function HeaderValue(headers: seq<Header>, name: string): Option<string> {
    if headers == [] then None
    else if headers[0].name == name then Some(headers[0].value)
    else HeaderValue(headers[1..], name)
  }

  /** The request for one API call. `qs` and `reqbody` are the optional
      filter and body; each is used only when it is truthy, as the client's
      `options.qs || false` and `if (qs)` tests do. */
  function BuildRequest(verb: Method, endpoint: string, server: ServerSettings,
                        qs: Option<Json>, reqbody: Option<Json>): (r: Request)
    ensures r.verb == verb
    ensures |Sanitize(server.kimaiurl)| <= |r.url|
    ensures r.url[..|Sanitize(server.kimaiurl)|] == Sanitize(server.kimaiurl)
    ensures r.url[|Sanitize(server.kimaiurl)|..] == ApiPath + endpoint
    ensures HeaderValue(r.headers, UserHeader) == Some(server.username)
    ensures HeaderValue(r.headers, TokenHeader) == Some(server.password)
    ensures HeaderValue(r.headers, ContentTypeHeader).Some? <==> Truthy(reqbody)
    ensures Truthy(reqbody) ==> HeaderValue(r.headers, ContentTypeHeader) == Some(JsonMediaType)
    ensures forall h :: h in r.headers ==> h.name in {UserHeader, TokenHeader, ContentTypeHeader}
    ensures r.body.Some? <==> Truthy(reqbody)
    ensures r.body.Some? ==> r.body == reqbody
    ensures r.qs.Some? <==> Truthy(qs)
    ensures r.qs.Some? ==> r.qs == qs
  {
    var auth := [Header(UserHeader, server.username), Header(TokenHeader, server.password)];
    var headers := if Truthy(reqbody) then auth + [Header(ContentTypeHeader, JsonMediaType)] else auth;
    assert headers[1..][1..] == if Truthy(reqbody) then [Header(ContentTypeHeader, JsonMediaType)] else [];
    assert UserHeader[0] != ContentTypeHeader[0] && TokenHeader[0] != ContentTypeHeader[0];
    assert HeaderValue(headers, ContentTypeHeader) == HeaderValue(headers[1..][1..], ContentTypeHeader);
    Request(
      verb,
      Sanitize(server.kimaiurl) + ApiPath + endpoint,
      headers,
      if Truthy(qs) then qs else None,
      if Truthy(reqbody) then reqbody else None)
  }

  /** Trailing slashes in the configured server URL never reach the request:
      the request is the one built from the URL without them. */
  lemma RequestIgnoresTrailingSlashes(verb: Method, endpoint: string, server: ServerSettings,
                                      slashes: string, qs: Option<Json>, reqbody: Option<Json>)
    requires AllSlashes(slashes)
    ensures BuildRequest(verb, endpoint, server.(kimaiurl := server.kimaiurl + slashes), qs, reqbody)
         == BuildRequest(verb, endpoint, server, qs, reqbody)
  {
    SanitizeIgnoresAddedSlashes(server.kimaiurl, slashes);
  }

  /** The base URL and the API path meet in a single '/': the character
      before "/api/" is never another '/'. */
  lemma RequestUrlHasNoDoubleSlash(verb: Method, endpoint: string, server: ServerSettings,
                                   qs: Option<Json>, reqbody: Option<Json>)
    requires Sanitize(server.kimaiurl) != []
    ensures var r := BuildRequest(verb, endpoint, server, qs, reqbody);
            var n := |Sanitize(server.kimaiurl)|;
            r.url[n - 1] != '/' && r.url[n] == '/'
  {
    var r := BuildRequest(verb, endpoint, server, qs, reqbody);
    var n := |Sanitize(server.kimaiurl)|;
    assert r.url[n - 1] == r.url[..n][n - 1];
    assert r.url[n] == r.url[n..][0];
  }

  /** What the server sends back for one request. The HTTP library reports
      an error either while `request` is still setting the call up (an
      invalid URL, say) or later, from the network (a refused connection, an
      unknown host). */
  datatype Reply =
    | SetupFailure(cause: string)    // reported before `request` returns; `cause` is the error's text
    | NetworkFailure(cause: string)  // reported after `request` returned
    | Unparsable                     // a body that `JSON.parse` rejects
    | Delivered(payload: Json)       // a body that parses to `payload`

  datatype Rejection =
    | TransportError(cause: string)
    | ServerError(message: Json)

  /** How one call ends. `Halted` is an exception thrown in the reply
      callback after `request` returned: nothing catches it, and the process
      stops on it before any handler of the call runs, so nothing after it
      runs. After an error reported late the call has already rejected
      (kimai2-cmd.js:77) when reading the missing response throws (:80);
      after an unparsable or null body the throw comes first and the call
      never settles. */
  datatype Settlement =
    | Resolved(value: Json)
    | Rejected(reason: Rejection)
    | Halted

  /** A parsed payload that reports a server-side error: one with a truthy
      `message` property. */
  predicate ReportsError(payload: Json) {
    !payload.JNull? && Truthy(Get(payload, "message"))
  }

  /** The settlement of a call. On an error the callback rejects and then
      throws reading `response.body` of a missing response: during set-up
      the promise constructor catches that throw and the rejection stands,
      later nothing catches it. `reject` is reached before `resolve`, so a
      payload with a truthy `message` ends the call as a rejection carrying
      that message, whatever the method. A body that does not parse, or
      reading `.message` of a `null` payload, throws in the callback. */
  function Settle(reply: Reply): (s: Settlement)
    ensures s.Resolved? <==> reply.Delivered? && !reply.payload.JNull? && !ReportsError(reply.payload)
    ensures s.Resolved? ==> s.value == reply.payload
    ensures reply.Delivered? && ReportsError(reply.payload) ==>
              s == Rejected(ServerError(Get(reply.payload, "message").value))
    ensures reply.SetupFailure? <==> s.Rejected? && s.reason.TransportError?
    ensures reply.SetupFailure? ==> s == Rejected(TransportError(reply.cause))
    ensures s.Halted? <==> reply.NetworkFailure? || reply.Unparsable? || reply == Delivered(JNull)
  {
    match reply
    case SetupFailure(cause) => Rejected(TransportError(cause))
    case NetworkFailure(_) => Halted
    case Unparsable => Halted
    case Delivered(payload) =>
      if payload.JNull? then Halted
      else if Truthy(Get(payload, "message")) then Rejected(ServerError(Get(payload, "message").value))
      else Resolved(payload)
  }

  /** The lines the client prints while settling a call: the server's error
      code and message, after a heading, when the payload reports an error. */
  function ReplyLines(reply: Reply): (lines: seq<string>)
    ensures |lines| > 0 <==> Settle(reply).Rejected? && Settle(reply).reason.ServerError?
    ensures |lines| > 0 ==> lines == ["Server error message:",
                                      JsString(Get(reply.payload, "code")),
                                      JsString(Some(Settle(reply).reason.message))]
  {
    if reply.Delivered? && ReportsError(reply.payload) then
      ["Server error message:", JsString(Get(reply.payload, "code")), JsString(Get(reply.payload, "message"))]
    else []
  }

  /** The text a rejection reason converts to when appended to a string. */
  function RejectionText(reason: Rejection): string {
    match reason
    case TransportError(cause) => cause
    case ServerError(message) => JsString(Some(message))
  }

  /** What a run of the client does that can be observed, in order: requests
      it hands to the HTTP library and lines it prints. A request the library
      refuses while setting it up (a `SetupFailure` reply) is still a `Send`
      here, although nothing of it reaches the network. */
  datatype Event = Send(request: Request) | Print(line: string)

  function Prints(lines: seq<string>): (events: seq<Event>)
    ensures |events| == |lines|
    ensures forall i :: 0 <= i < |lines| ==> events[i] == Print(lines[i])
  {
    seq(|lines|, i requires 0 <= i < |lines| => Print(lines[i]))
  }

  /** The requests among `events`, in order. */
  function Sends(events: seq<Event>): seq<Request> {
    if events == [] then []
    else (if events[0].Send? then [events[0].request] else []) + Sends(events[1..])
  }

  lemma {:induction false} SendsAppend(a: seq<Event>, b: seq<Event>)
    ensures Sends(a + b) == Sends(a) + Sends(b)
    decreases |a|
  {
    if a == [] {
      assert a + b == b;
    } else {
      var h := if a[0].Send? then [a[0].request] else [];
      assert (a + b)[0] == a[0];
      assert (a + b)[1..] == a[1..] + b;
      SendsAppend(a[1..], b);
      calc {
        Sends(a + b);
        h + Sends(a[1..] + b);
        h + (Sends(a[1..]) + Sends(b));
        (h + Sends(a[1..])) + Sends(b);
        Sends(a) + Sends(b);
      }
    }
  }

  lemma {:induction false} SendsOfPrints(lines: seq<string>)
    ensures Sends(Prints(lines)) == []
    decreases |lines|
  {
    if lines != [] {
      assert Prints(lines)[1..] == Prints(lines[1..]);
      SendsOfPrints(lines[1..]);
    }
  }

  /** One call as observed: the request goes out, and once `reply` arrives
      the client prints whatever settling it prints. */
  function CallEvents(request: Request, reply: Reply): (events: seq<Event>)
    ensures Sends(events) == [request]
    ensures |events| >= 1 && events[0] == Send(request)
    ensures Settle(reply).Rejected? && Settle(reply).reason.ServerError? ==>
              events == [Send(request), Print("Server error message:"),
                         Print(JsString(Get(reply.payload, "code"))),
                         Print(JsString(Some(Settle(reply).reason.message)))]
    ensures events == [Send(request)] <==> !(Settle(reply).Rejected? && Settle(reply).reason.ServerError?)
  {
    SendsOfPrints(ReplyLines(reply));
    SendsAppend([Send(request)], Prints(ReplyLines(reply)));
    [Send(request)] + Prints(ReplyLines(reply))
  }
}
