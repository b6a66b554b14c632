/**
  The browser-driven client (`WTicketBot` in src/client.ts).  It logs in
  through a real browser page and afterwards sends the browser's cookies
  as a stored header map; its listings repeat the service code, and are
  written here the way that code runs: map every row, then drop the
  nulls.  The browser itself is a parameter: the texts of the page's
  buttons, whether the post-click navigation arrived, and the cookie jar.
 */
module Bot {
  import opened Results
  import opened Entries
  import opened Text
  import opened Rows
  import opened BaseService
  import StaffService
  import TicketService
  import AuthService

  datatype Bot = Bot(host: string, headers: seq<Entry>)

  datatype Cookie = Cookie(name: string, value: string)

  /** A bot before login: no stored headers. */
  function NewBot(host: string): Bot {
    Bot(host, [])
  }

  // ---------------------------------------------------------------------------
  // The cookie header

  /** The `name=value` text of one cookie; every cookie after the first is led by a space. */
  function CookiePiece(c: Cookie, first: bool): string {
    (if first then "" else " ") + c.name + "=" + c.value
  }

  /**
    `cookies.map(c => `${c.name}=${c.value}`).join("; ")`: the pieces
    joined by `;`, every piece after the first starting with a space.
   */
  function CookieHeader(cs: seq<Cookie>): (h: string)
    ensures cs == [] <==> h == ""
  {
    if cs == [] then ""
    else
      var pieces := seq(|cs|, i requires 0 <= i < |cs| => CookiePiece(cs[i], i == 0));
      JoinNonEmpty(pieces, ';');
      Join(pieces, ';')
  }

  /** Joining pieces whose first is not empty gives a non-empty text. */
  lemma JoinNonEmpty(pieces: seq<string>, c: char)
    requires |pieces| >= 1 && pieces[0] != ""
    ensures Join(pieces, c) != ""
  {
    assert |Join(pieces, c)| >= |pieces[0]|;
  }

  /** Reads a cookie header back into its cookies. */
  function ParseCookieHeader(h: string): seq<Cookie> {
    if h == "" then []
    else
      var pieces := Split(h, ';');
      seq(|pieces|, i requires 0 <= i < |pieces| => ReadPiece(pieces[i], i == 0))
  }

  function ReadPiece(p: string, first: bool): Cookie {
    var pair := if !first && |p| > 0 && p[0] == ' ' then p[1..] else p;
    Cookie(TakeUntil(pair, '='), if '=' in pair then After(pair, '=') else "")
  }

  /** A cookie the header can carry unambiguously. */
  predicate Plain(c: Cookie) {
    '=' !in c.name && ';' !in c.name && ';' !in c.value
  }

  /** The cookie header lists every cookie, in jar order, name and value. */
  lemma {:induction false} CookieHeaderRoundTrip(cs: seq<Cookie>)
    requires forall i :: 0 <= i < |cs| ==> Plain(cs[i])
    ensures ParseCookieHeader(CookieHeader(cs)) == cs
  {
    if cs != [] {
      var pieces := seq(|cs|, i requires 0 <= i < |cs| => CookiePiece(cs[i], i == 0));
      forall i | 0 <= i < |pieces|
        ensures ';' !in pieces[i]
        ensures ReadPiece(pieces[i], i == 0) == cs[i]
      {
        PieceRoundTrip(cs[i], i == 0);
      }
      SplitJoin(pieces, ';');
    }
  }

  /** One cookie's piece holds no `;` and reads back as the cookie. */
  lemma PieceRoundTrip(c: Cookie, first: bool)
    requires Plain(c)
    ensures ';' !in CookiePiece(c, first)
    ensures ReadPiece(CookiePiece(c, first), first) == c
  {
    var pair := c.name + "=" + c.value;
    assert pair == c.name + ['='] + c.value;
    FirstSeparator(c.name, '=', c.value);
    if first {
      assert CookiePiece(c, first) == pair;
    } else {
      assert CookiePiece(c, first) == [' '] + pair;
      assert CookiePiece(c, first)[1..] == pair;
    }
  }

  // ---------------------------------------------------------------------------
  // login

  /**
    The button loop: the buttons are visited in order, the first whose
    text is exactly `Login` is clicked, and the loop stops there.
   */
  method ClickLogin(texts: seq<string>) returns (clicked: seq<nat>)
    ensures |clicked| <= 1
    ensures clicked == if LoginButton(texts).Some? then [LoginButton(texts).value] else []
    ensures clicked == [] <==> "Login" !in texts
    ensures forall k :: 0 <= k < |clicked| ==>
              clicked[k] < |texts| && texts[clicked[k]] == "Login"
              && forall j :: 0 <= j < clicked[k] ==> texts[j] != "Login"
  {
    clicked := [];
    var i := 0;
    while i < |texts|
      invariant 0 <= i <= |texts|
      invariant clicked == []
      invariant forall j :: 0 <= j < i ==> texts[j] != "Login"
    {
      if texts[i] == "Login" {
        clicked := [i];
        return;
      }
      i := i + 1;
    }
  }

  /** The button the loop clicks, stated as a search: the first one labelled `Login`. */
  function LoginButton(texts: seq<string>): (b: Option<nat>)
    ensures b.None? <==> "Login" !in texts
    ensures b.Some? ==> b.value < |texts| && texts[b.value] == "Login"
                        && forall j :: 0 <= j < b.value ==> texts[j] != "Login"
    decreases |texts|
  {
    if texts == [] then None
    else if texts[0] == "Login" then Some(0)
    else
      match LoginButton(texts[1..])
      case None => None
      case Some(j) =>
        assert forall k :: 1 <= k <= j ==> texts[k] == texts[1..][k - 1];
        Some(j + 1)
  }

  datatype BrowserRun = BrowserRun(page: string, clicked: Option<nat>, bot: Bot, outcome: Outcome)

  /**
    `login(credentials)` after the page has loaded and the credentials were
    typed: click the first `Login` button, wait for the navigation, and on
    arrival store the browser's cookies as the `Cookie` header.  A
    navigation that never arrives is "Login failed", with nothing stored.
   */
  function BrowserLogin(b: Bot, texts: seq<string>, navigated: bool, jar: seq<Cookie>): (run: BrowserRun)
    ensures run.page == "https://" + b.host + AuthService.IndexPage
    ensures run.clicked == LoginButton(texts)
    ensures run.bot.host == b.host
    ensures run.outcome == Pass <==> navigated
    ensures !navigated ==> run.outcome == Fail(Thrown("Login failed")) && run.bot == b
    ensures navigated ==> Get(run.bot.headers, "Cookie") == Some(CookieHeader(jar))
    ensures navigated ==> forall k :: k != "Cookie" ==> Get(run.bot.headers, k) == Get(b.headers, k)
  {
    var page := "https://" + b.host + AuthService.IndexPage;
    if !navigated then BrowserRun(page, LoginButton(texts), b, Fail(Thrown("Login failed")))
    else BrowserRun(page, LoginButton(texts), Bot(b.host, Set(b.headers, "Cookie", CookieHeader(jar))), Pass)
  }

  /** Logging in again replaces the stored cookies instead of adding to them. */
  lemma ReloginReplacesCookies(b: Bot, texts: seq<string>, first: seq<Cookie>, second: seq<Cookie>)
    requires DistinctKeys(b.headers)
    ensures var once := BrowserLogin(b, texts, true, first).bot;
            var twice := BrowserLogin(once, texts, true, second).bot;
            Get(twice.headers, "Cookie") == Some(CookieHeader(second)) && DistinctKeys(twice.headers)
            && |twice.headers| == |once.headers|
  {
    var once := BrowserLogin(b, texts, true, first).bot;
    assert DistinctKeys(once.headers);
    assert Get(once.headers, "Cookie").Some?;
    GetNoneIffAbsent(once.headers, "Cookie");
    SetInPlace(once.headers, "Cookie", CookieHeader(second));
  }

  // ---------------------------------------------------------------------------
  // logout and request

  /** The host `logout` always addresses, whatever host the bot was created for. */
  const LogoutHost := "wticket-pcrolin.multitrader.nl"

  /** `logout()`: a GET of the fixed host's logout page with the stored headers. */
  function Logout(b: Bot): (req: Request)
    ensures req.verb == GET && req.body == NoBody && req.headers == b.headers
    ensures req.url == Url("https://" + LogoutHost + AuthService.LogoutPage, [])
  {
    Request(GET, Url("https://" + LogoutHost + "/login/wf/logout.jsp", []), b.headers, NoBody)
  }

  /** Two different hosts give two different addresses for the same path. */
  lemma {:induction false} HostsDiffer(h1: string, h2: string, path: string)
    requires h1 != h2
    ensures "https://" + h1 + path != "https://" + h2 + path
  {
    var a, b := "https://" + h1 + path, "https://" + h2 + path;
    if |h1| == |h2| {
      var k :| 0 <= k < |h1| && h1[k] != h2[k];
      assert a[8 + k] == h1[k];
      assert b[8 + k] == h2[k];
    } else {
      assert |a| != |b|;
    }
  }

  /** The bot's logout matches the plain client's only on the fixed host. */
  lemma LogoutIgnoresHost(b: Bot, token: Option<string>, d: AuthService.Delivery)
    ensures Logout(b).url == Logout(Bot(LogoutHost, b.headers)).url
    ensures Logout(b).url == AuthService.Logout(Session(LogoutHost, token), d).requests[0].url
    ensures b.host != LogoutHost ==>
              Logout(b).url != AuthService.Logout(Session(b.host, token), d).requests[0].url
  {
    if b.host != LogoutHost {
      HostsDiffer(b.host, LogoutHost, AuthService.LogoutPage);
    }
  }

  /** `request(path, params)`: the parameters set in order, sent with the stored headers. */
  function BotQuery(b: Bot, path: string, params: seq<Entry>): (req: Request)
    ensures req.verb == GET && req.body == NoBody && req.headers == b.headers
    ensures req.url.location == "https://" + b.host + path
    ensures forall k :: Get(req.url.query, k) == LastValue(params, k)
    ensures DistinctKeys(params) ==> req.url.query == params
  {
    SetAllFromEmpty(params);
    Request(GET, Url("https://" + b.host + path, SetAll([], params)), b.headers, NoBody)
  }

  /** The bot addresses the same URL as the plain client for the same host and parameters. */
  lemma BotQueryMatchesQuery(b: Bot, token: Option<string>, path: string, params: seq<Entry>)
    ensures BotQuery(b, path, params).url == Query(Session(b.host, token), path, params).url
  {
  }

  // ---------------------------------------------------------------------------
  // The duplicated listings

  /** `trs.map(...)`: header and placeholder positions map to null, the rest are decoded. */
  function Mapped<T>(rows: seq<Row>, decode: Row -> Result<T>): (ms: seq<Option<Result<T>>>)
    ensures |ms| == |rows|
  {
    seq(|rows|, i requires 0 <= i < |rows| =>
      if i == 0 || i == 1 || IsPlaceholder(rows[i]) then None else Some(decode(rows[i])))
  }

  /** `.filter(v => v !== null)`, where the first decoding failure has already thrown. */
  function Collect<T>(ms: seq<Option<Result<T>>>): Result<seq<T>> {
    if ms == [] then Ok([])
    else
      match ms[0]
      case None => Collect(ms[1..])
      case Some(Err(e)) => Err(e)
      case Some(Ok(x)) =>
        match Collect(ms[1..])
        case Err(e) => Err(e)
        case Ok(xs) => Ok([x] + xs)
  }

  /** The map-then-filter of the browser client computes the shared listing. */
  lemma {:induction false} CollectMapped<T>(rows: seq<Row>, from: nat, decode: Row -> Result<T>)
    requires from <= |rows|
    ensures Collect(Mapped(rows, decode)[from..]) == DecodeAll(KeptFrom(rows, from), decode)
    decreases |rows| - from
  {
    var ms := Mapped(rows, decode);
    if from < |rows| {
      CollectMapped(rows, from + 1, decode);
      assert ms[from..][1..] == ms[from + 1..];
      var rest := KeptFrom(rows, from + 1);
      if Listed(rows, from) {
        var kept := [rows[from]] + rest;
        assert KeptFrom(rows, from) == kept;
        assert kept[0] == rows[from] && kept[1..] == rest;
      } else {
        assert KeptFrom(rows, from) == rest;
      }
    }
  }

  function BotListing<T>(rows: seq<Row>, decode: Row -> Result<T>): (r: Result<seq<T>>)
    ensures r == Listing(rows, decode)
  {
    CollectMapped(rows, 0, decode);
    assert Mapped(rows, decode)[0..] == Mapped(rows, decode);
    Collect(Mapped(rows, decode))
  }

  /** `listStaff()` on the rows and the `#sc3` cell of the reply. */
  function ListStaff(rows: seq<Row>, sc3: Option<string>): (r: Result<StaffService.StaffList>)
    ensures r == StaffService.List(rows, sc3)
  {
    match BotListing(rows, StaffService.DecodeStaff)
    case Err(e) => Err(e)
    case Ok(staff) =>
      match sc3
      case None => Err(TypeFault)
      case Some(html) => Ok(StaffService.StaffList(ToNumber(html), staff))
  }

  /** `listTicketsOfStaff(staffId)` on the rows of the reply. */
  function ListTicketsOfStaff(rows: seq<Row>): (r: Result<seq<StaffService.AssignedTicket>>)
    ensures r == StaffService.ListTickets(rows)
  {
    BotListing(rows, StaffService.DecodeAssigned)
  }

  /** `trs.find(tr => tr.getAttribute("empty") !== "true")`: the row itself. */
  function FindShown(rows: seq<Row>): (tr: Option<Row>)
    ensures tr.Some? <==> FirstShown(rows).Some?
    ensures tr.Some? ==> tr.value == rows[FirstShown(rows).value]
  {
    if rows == [] then None
    else if !IsPlaceholder(rows[0]) then
      assert FirstShown(rows) == Some(0);
      Some(rows[0])
    else
      var tr := FindShown(rows[1..]);
      ShownAfterPlaceholder(rows);
      tr
  }

  lemma ShownAfterPlaceholder(rows: seq<Row>)
    requires rows != [] && IsPlaceholder(rows[0])
    ensures FirstShown(rows).Some? <==> FirstShown(rows[1..]).Some?
    ensures FirstShown(rows).Some? ==> FirstShown(rows).value == FirstShown(rows[1..]).value + 1
  {
    var a, b := FirstShown(rows), FirstShown(rows[1..]);
    if a.Some? {
      assert rows[a.value] == rows[1..][a.value - 1];
      assert forall j :: 0 <= j < a.value - 1 ==> rows[1..][j] == rows[j + 1];
    }
    if b.Some? {
      assert rows[b.value + 1] == rows[1..][b.value];
      assert forall j :: 1 <= j < b.value + 1 ==> rows[j] == rows[1..][j - 1];
    }
  }

  /** `getTicket(ticketNumber)` on the rows of the reply. */
  function GetTicket(rows: seq<Row>): (r: Result<TicketService.Ticket>)
    ensures r == TicketService.GetTicket(rows)
  {
    match FindShown(rows)
    case None => Err(Thrown("Ticket not found"))
    case Some(tr) =>
      if |tr.cells| < 4 then Err(TypeFault)
      else Ok(TicketService.Ticket(OptionalToNumber(Attr(tr, "unid")), ToNumber(tr.cells[1]), tr.cells[2], tr.cells[3]))
  }

  /** The three queries the bot sends address the same URLs as the services' queries. */
  lemma BotRequestsMatchServices(b: Bot, token: Option<string>, staffId: int, ticketNumber: int)
    ensures var s := Session(b.host, token);
            BotQuery(b, TablePage, StaffService.StaffParams).url == StaffService.ListRequest(s).url
    ensures var s := Session(b.host, token);
            BotQuery(b, TablePage, StaffService.TicketParams(staffId)).url
            == StaffService.ListTicketsRequest(s, staffId).url
    ensures var s := Session(b.host, token);
            BotQuery(b, TablePage, TicketService.GetParams(ticketNumber)).url
            == TicketService.GetRequest(s, ticketNumber).url
  {
  }
}
