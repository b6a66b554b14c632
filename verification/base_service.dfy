/**
  The shared transport layer every service inherits (`BaseService` in
  src/services/index.ts): the session token, the two request builders, the
  XML form-submission protocol and the action invoker.

  A request is a value describing what the client hands to `fetch`; replies
  arrive as already-parsed values.  Nothing here performs I/O.
 */
module BaseService {
  import opened Results
  import opened Entries
  import opened Text

  // ---------------------------------------------------------------------------
  // Requests

  datatype Method = GET | POST

  /** An XML element tree: the value handed to the XML serialiser. */
  datatype Node =
    | Element(name: string, attrs: seq<Entry>, children: seq<Node>)
    | TextNode(content: string)

  datatype Body =
    | NoBody
    | UrlEncoded(params: seq<Entry>)
    | XmlDocument(root: Node)

  /** `location` is the URL text without query; `query` its search parameters in order. */
  datatype Url = Url(location: string, query: seq<Entry>)

  datatype Request = Request(verb: Method, url: Url, headers: seq<Entry>, body: Body)

  /** The caller's `options` argument of `fetch`; `undefined` is `NoOptions`. */
  datatype FetchOptions = FetchOptions(verb: Option<Method>, headers: seq<Entry>, body: Body)

  const NoOptions := FetchOptions(None, [], NoBody)

  /** The client's options: the host and the current session token (absent until the first login). */
  datatype Session = Session(host: string, token: Option<string>)

  /** The `Cookie` header value; an absent token renders as the text `undefined`. */
  function SessionCookie(token: Option<string>): string {
    "JSESSIONID=" + token.GetOr("undefined")
  }

  function Origin(s: Session): string {
    "https://" + s.host
  }

  // ---------------------------------------------------------------------------
  // setSession

  /**
    The session token a `Set-Cookie` entry carries, stated on its own:
    within the text before the first `;`, the text from the first `=` up
    to the next `=` (or the end); absent when that text has no `=`.
   */
  function CookieToken(cookie: string): Option<string> {
    var pair := TakeUntil(cookie, ';');
    if '=' in pair then Some(TakeUntil(After(pair, '='), '=')) else None
  }

  /**
    `setSession(headers)`: reads `getSetCookie()[0]`, which is `undefined`
    when the reply sets no cookie (a TypeError then), and stores
    `split(';')[0].split('=')[1]`.
   */
  function SetSession(s: Session, setCookies: seq<string>): (r: Result<Session>)
    ensures setCookies == [] <==> r == Err(TypeFault)
    ensures setCookies != [] ==> r == Ok(Session(s.host, CookieToken(setCookies[0])))
  {
    if setCookies == [] then Err(TypeFault)
    else
      var pieces := Split(Split(setCookies[0], ';')[0], '=');
      Ok(s.(token := if |pieces| >= 2 then Some(pieces[1]) else None))
  }

  /** A first cookie `NAME=VALUE; attributes` yields exactly `VALUE`, whatever follows it. */
  lemma NameValueToken(s: Session, name: string, value: string, attributes: string, later: seq<string>)
    requires '=' !in name && ';' !in name
    requires '=' !in value && ';' !in value
    ensures SetSession(s, [name + "=" + value + ";" + attributes] + later)
         == Ok(Session(s.host, Some(value)))
    ensures SetSession(s, [name + "=" + value] + later) == Ok(Session(s.host, Some(value)))
  {
    var pair := name + "=" + value;
    assert ';' !in pair;
    FirstSeparator(pair, ';', attributes);
    assert pair + ";" + attributes == pair + [';'] + attributes;
    FirstSeparator(name, '=', value);
    assert pair == name + ['='] + value;
  }

  /** The fixture `JSESSIONID=ABC123; Path=/` yields the token `ABC123`. */
  lemma SessionFixture(s: Session)
    ensures SetSession(s, ["JSESSIONID=ABC123; Path=/"]) == Ok(Session(s.host, Some("ABC123")))
  {
    var name, value := "JSESSIONID", "ABC123";
    assert name + "=" + value + ";" + " Path=/" == "JSESSIONID=ABC123; Path=/";
    assert '=' !in name && ';' !in name;
    assert '=' !in value && ';' !in value;
    NameValueToken(s, name, value, " Path=/", []);
  }

  // ---------------------------------------------------------------------------
  // fetch / request

  /**
    `fetch(path, options)`: GET unless a method is given, the caller's
    headers followed by `Cookie`, which is written last and so always
    carries the session token, and the body passed through.
   */
  function Fetch(s: Session, path: string, opts: FetchOptions): (req: Request)
    ensures req.url == Url(Origin(s) + path, [])
    ensures req.verb == (if opts.verb.Some? then opts.verb.value else GET)
    ensures req.body == opts.body
    ensures Get(req.headers, "Cookie") == Some(SessionCookie(s.token))
    ensures forall k :: k != "Cookie" ==> Get(req.headers, k) == LastValue(opts.headers, k)
    ensures DistinctKeys(req.headers)
  {
    var spread := SetAll([], opts.headers);
    SetAllFromEmpty(opts.headers);
    Request(opts.verb.GetOr(GET), Url(Origin(s) + path, []),
            Set(spread, "Cookie", SessionCookie(s.token)), opts.body)
  }

  /**
    `request(path, params)`: a GET whose search parameters are set one by
    one in the order given (a repeated key keeps its last value) and whose
    only header is the session cookie.
   */
  function Query(s: Session, path: string, params: seq<Entry>): (req: Request)
    ensures req.verb == GET && req.body == NoBody
    ensures req.url.location == Origin(s) + path
    ensures req.headers == [("Cookie", SessionCookie(s.token))]
    ensures forall k :: Get(req.url.query, k) == LastValue(params, k)
    ensures DistinctKeys(params) ==> req.url.query == params
  {
    SetAllFromEmpty(params);
    Request(GET, Url(Origin(s) + path, SetAll([], params)), [("Cookie", SessionCookie(s.token))], NoBody)
  }

  // ---------------------------------------------------------------------------
  // submitForm: the XML envelope

  /** The form a submission addresses: its id and numeric action code. */
  datatype Form = Form(id: string, action: string)

  datatype Field = Field(id: string, value: string)

  function FieldNode(f: Field): Node {
    Element("field", [("id", f.id)], [TextNode(f.value)])
  }

  /** `<form id=".." action=".."><field id="..">value</field>…</form>` */
  function Envelope(form: Form, fields: seq<Field>): Node {
    Element("form", [("id", form.id), ("action", form.action)],
            seq(|fields|, i requires 0 <= i < |fields| => FieldNode(fields[i])))
  }

  /** Reads one `<field id="..">value</field>` element back. */
  function ReadField(n: Node): Option<Field> {
    if n.Element? && n.name == "field" && |n.attrs| == 1 && n.attrs[0].0 == "id"
       && |n.children| == 1 && n.children[0].TextNode?
    then Some(Field(n.attrs[0].1, n.children[0].content))
    else None
  }

  function ReadFields(ns: seq<Node>): Option<seq<Field>> {
    if ns == [] then Some([])
    else match (ReadField(ns[0]), ReadFields(ns[1..]))
      case (Some(f), Some(fs)) => Some([f] + fs)
      case _ => None
  }

  /** Reads a form envelope back into its form and fields. */
  function ReadEnvelope(n: Node): Option<(Form, seq<Field>)> {
    if n.Element? && n.name == "form" && |n.attrs| == 2
       && n.attrs[0].0 == "id" && n.attrs[1].0 == "action"
    then match ReadFields(n.children)
      case Some(fs) => Some((Form(n.attrs[0].1, n.attrs[1].1), fs))
      case None => None
    else None
  }

  lemma {:induction false} ReadFieldsOfNodes(fields: seq<Field>)
    ensures ReadFields(seq(|fields|, i requires 0 <= i < |fields| => FieldNode(fields[i]))) == Some(fields)
  {
    var ns := seq(|fields|, i requires 0 <= i < |fields| => FieldNode(fields[i]));
    if fields != [] {
      ReadFieldsOfNodes(fields[1..]);
      assert ns[1..] == seq(|fields[1..]|, i requires 0 <= i < |fields[1..]| => FieldNode(fields[1..][i]));
      assert fields == [fields[0]] + fields[1..];
    }
  }

  /** The envelope holds the form's attributes and exactly the given fields, in order. */
  lemma EnvelopeRoundTrip(form: Form, fields: seq<Field>)
    ensures ReadEnvelope(Envelope(form, fields)) == Some((form, fields))
  {
    ReadFieldsOfNodes(fields);
  }

  /** The POST `submitForm` issues: the envelope, as `text/xml; charset=UTF-8`, to `/IOServlet`. */
  function SubmitFormRequest(s: Session, form: Form, fields: seq<Field>): (req: Request)
    ensures req.verb == POST
    ensures req.url == Url(Origin(s) + "/IOServlet", [])
    ensures Get(req.headers, "Content-Type") == Some("text/xml; charset=UTF-8")
    ensures Get(req.headers, "Cookie") == Some(SessionCookie(s.token))
    ensures req.body.XmlDocument? && ReadEnvelope(req.body.root) == Some((form, fields))
  {
    EnvelopeRoundTrip(form, fields);
    Fetch(s, "/IOServlet", FetchOptions(Some(POST), [("Content-Type", "text/xml; charset=UTF-8")],
                                        XmlDocument(Envelope(form, fields))))
  }

  // ---------------------------------------------------------------------------
  // submitForm: the reply

  /**
    The parsed reply to a submission: its root element and that root's
    `error` child, `None` when the child is missing.  An `ioservletresponse`
    root with no content parses to the empty text, which is falsy, so the
    reply is then read as if it had a `message` root; `UnknownReply` is a
    reply with neither root.
   */
  datatype Reply =
    | IoServletResponse(error: Option<string>)
    | EmptyIoServletResponse
    | MessageReply(error: Option<string>)
    | UnknownReply

  /**
    How `submitForm` completes for a reply.  `throw new Error(undefined)`
    has the empty message, hence `GetOr("")`.
   */
  function SubmitOutcome(reply: Reply): (o: Outcome)
    ensures o == Pass <==> reply == MessageReply(Some(""))
    ensures reply.IoServletResponse? ==> o.Fail? && o.error.Thrown?
    ensures reply == IoServletResponse(Some("")) ==> o == Fail(Thrown("Form not recognized"))
    ensures reply == EmptyIoServletResponse || reply == UnknownReply ==> o == Fail(TypeFault)
  {
    match reply
    case IoServletResponse(e) =>
      if e == Some("") then Fail(Thrown("Form not recognized")) else Fail(Thrown(e.GetOr("")))
    case MessageReply(e) =>
      if e == Some("") then Pass else Fail(Thrown(e.GetOr("")))
    case EmptyIoServletResponse => Fail(TypeFault)
    case UnknownReply => Fail(TypeFault)
  }

  /**
    The three outcomes a submission can have, read off the reply by the
    server's convention: under `message` an empty error means the form was
    accepted, under `ioservletresponse` an empty error means the form id
    was not recognised, and any other error text is a rejection.
   */
  datatype Verdict = Accepted | Rejected(reason: string) | NotRecognized | Unreadable

  function VerdictOf(reply: Reply): Verdict {
    match reply
    case MessageReply(Some(e)) => if e == "" then Accepted else Rejected(e)
    case IoServletResponse(Some(e)) => if e == "" then NotRecognized else Rejected(e)
    case MessageReply(None) => Rejected("")
    case IoServletResponse(None) => Rejected("")
    case EmptyIoServletResponse => Unreadable
    case UnknownReply => Unreadable
  }

  /** `submitForm` completes normally exactly on an accepted form and throws each other verdict. */
  lemma SubmitOutcomeFollowsVerdict(reply: Reply)
    ensures SubmitOutcome(reply) == Pass <==> VerdictOf(reply) == Accepted
    ensures VerdictOf(reply).Rejected? ==> SubmitOutcome(reply) == Fail(Thrown(VerdictOf(reply).reason))
    ensures VerdictOf(reply) == NotRecognized ==> SubmitOutcome(reply) == Fail(Thrown("Form not recognized"))
    ensures VerdictOf(reply) == Unreadable ==> SubmitOutcome(reply) == Fail(TypeFault)
  {
  }

  /** The empty-error rule is inverted between the two roots. */
  lemma EmptyErrorAsymmetry()
    ensures SubmitOutcome(MessageReply(Some(""))) == Pass
    ensures SubmitOutcome(IoServletResponse(Some(""))) == Fail(Thrown("Form not recognized"))
    ensures SubmitOutcome(MessageReply(Some("Validation failed"))) == Fail(Thrown("Validation failed"))
    ensures SubmitOutcome(EmptyIoServletResponse) == Fail(TypeFault)
  {
  }

  /**
    A caller cannot tell an unrecognised form from a rejection whose text
    happens to be `Form not recognized`: both surface as the same error.
   */
  lemma NotRecognizedIsPlainError()
    ensures VerdictOf(IoServletResponse(Some(""))) != VerdictOf(MessageReply(Some("Form not recognized")))
    ensures SubmitOutcome(IoServletResponse(Some(""))) == SubmitOutcome(MessageReply(Some("Form not recognized")))
  {
  }

  // ---------------------------------------------------------------------------
  // executeAction

  /** `URLSearchParams.toString()`: `key=value` pairs joined by `&`. */
  function SearchString(params: seq<Entry>): string {
    if params == [] then ""
    else Join(seq(|params|, i requires 0 <= i < |params| => params[i].0 + "=" + params[i].1), '&')
  }

  /** Reads a search string back into its pairs, the inverse of `SearchString`. */
  function ParseSearch(q: string): seq<Entry> {
    if q == "" then []
    else
      var pieces := Split(q, '&');
      seq(|pieces|, i requires 0 <= i < |pieces| =>
        (TakeUntil(pieces[i], '='), if '=' in pieces[i] then After(pieces[i], '=') else ""))
  }

  /** Pairs whose keys hold neither `=` nor `&` and whose values hold no `&` read back unchanged. */
  lemma SearchRoundTrip(params: seq<Entry>)
    requires forall i :: 0 <= i < |params| ==> '=' !in params[i].0 && '&' !in params[i].0 && '&' !in params[i].1
    ensures ParseSearch(SearchString(params)) == params
  {
    if params != [] {
      var pieces := seq(|params|, i requires 0 <= i < |params| => params[i].0 + "=" + params[i].1);
      forall i | 0 <= i < |pieces|
        ensures '&' !in pieces[i]
        ensures '=' in pieces[i] && TakeUntil(pieces[i], '=') == params[i].0 && After(pieces[i], '=') == params[i].1
      {
        assert pieces[i] == params[i].0 + ['='] + params[i].1;
        FirstSeparator(params[i].0, '=', params[i].1);
      }
      SplitJoin(pieces, '&');
      assert Join(pieces, '&') != "" by {
        assert |pieces[0]| >= 1;
        JoinSplit(Join(pieces, '&'), '&');
      }
    }
  }

  /**
    `executeAction(params)`: a bodiless POST to `/IOServlet` with the
    search string appended directly to the path, no `?` in between.
   */
  function ExecuteAction(s: Session, params: seq<Entry>): (req: Request)
    ensures req.verb == POST && req.body == NoBody
    ensures req.url == Url(Origin(s) + "/IOServlet" + SearchString(SetAll([], params)), [])
    ensures DistinctKeys(params) ==> req.url.location == Origin(s) + "/IOServlet" + SearchString(params)
    ensures Get(req.headers, "Cookie") == Some(SessionCookie(s.token))
  {
    SetAllFromEmpty(params);
    assert Origin(s) + ("/IOServlet" + SearchString(SetAll([], params)))
        == Origin(s) + "/IOServlet" + SearchString(SetAll([], params));
    Fetch(s, "/IOServlet" + SearchString(SetAll([], params)), FetchOptions(Some(POST), [], NoBody))
  }
}
