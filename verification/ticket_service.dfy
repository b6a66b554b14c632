/**
  Tickets (`TicketService` in src/services/ticket.ts): looking one up by
  number, adding a message to it, pinning and unpinning a message, and
  listing its messages.
 */
module TicketService {
  import opened Results
  import opened Entries
  import opened Text
  import opened Rows
  import opened BaseService
  import SearchColumns

  // ---------------------------------------------------------------------------
  // get

  datatype Ticket = Ticket(id: Num, number: Num, searchName: string, description: string)

  /** The search key of an exact-match lookup. */
  const ExactPrefix := "_<exact>_"

  function GetParams(ticketNumber: int): seq<Entry> {
    [("queryid", "wf1act"), ("searchcol", "2"), ("key", ExactPrefix + IntToDecimal(ticketNumber))]
  }

  /**
    The query `get(ticketNumber)` sends: an exact-match search of the
    `id` column for the number's decimal text.
   */
  function GetRequest(s: Session, ticketNumber: int): (req: Request)
    ensures req.verb == GET && req.url.location == Origin(s) + TablePage
    ensures req.headers == [("Cookie", SessionCookie(s.token))]
    ensures req.url.query == [("queryid", "wf1act"), ("searchcol", "2"), ("key", ExactPrefix + IntToDecimal(ticketNumber))]
    ensures Get(req.url.query, "queryid") == Some("wf1act")
    ensures Get(req.url.query, "searchcol").Some?
            && SearchColumns.ColumnOf("id").Some?
            && ToNumber(Get(req.url.query, "searchcol").value) == Finite(SearchColumns.ColumnOf("id").value)
    ensures Get(req.url.query, "key").Some?
            && ExactPrefix <= Get(req.url.query, "key").value
            && ToNumber(Get(req.url.query, "key").value[|ExactPrefix|..]) == Finite(ticketNumber)
  {
    var params := GetParams(ticketNumber);
    assert DistinctKeys(params);
    GetAt(params, 0);
    GetAt(params, 1);
    GetAt(params, 2);
    SearchColumns.IdColumn();
    DecimalRoundTrip(2);
    DecimalRoundTrip(ticketNumber);
    assert (ExactPrefix + IntToDecimal(ticketNumber))[|ExactPrefix|..] == IntToDecimal(ticketNumber);
    Query(s, TablePage, params)
  }

  /**
    `get(ticketNumber)` on the rows of the reply: the first row that is not
    a placeholder, header or not, decoded; none at all is "Ticket not found".
   */
  function GetTicket(rows: seq<Row>): (r: Result<Ticket>)
    ensures r == Err(Thrown("Ticket not found")) <==> forall j :: 0 <= j < |rows| ==> IsPlaceholder(rows[j])
    ensures r.Ok? ==> exists i :: 0 <= i < |rows| && !IsPlaceholder(rows[i])
                                 && (forall j :: 0 <= j < i ==> IsPlaceholder(rows[j]))
                                 && |rows[i].cells| >= 4
                                 && r.value == Ticket(OptionalToNumber(Attr(rows[i], "unid")),
                                                      ToNumber(rows[i].cells[1]), rows[i].cells[2], rows[i].cells[3])
    ensures r.Err? && r.error != Thrown("Ticket not found") ==> r.error == TypeFault
  {
    match FirstShown(rows)
    case None => Err(Thrown("Ticket not found"))
    case Some(i) =>
      var tr := rows[i];
      if |tr.cells| < 4 then Err(TypeFault)
      else Ok(Ticket(OptionalToNumber(Attr(tr, "unid")), ToNumber(tr.cells[1]), tr.cells[2], tr.cells[3]))
  }

  /** Rows after the first shown one are never read. */
  lemma GetReadsFirstShownOnly(shown: Row, placeholders: seq<Row>, later: seq<Row>)
    requires !IsPlaceholder(shown)
    requires forall j :: 0 <= j < |placeholders| ==> IsPlaceholder(placeholders[j])
    ensures GetTicket(placeholders + [shown] + later) == GetTicket([shown])
  {
    var rows := placeholders + [shown] + later;
    assert rows[|placeholders|] == shown;
    assert forall j :: 0 <= j < |placeholders| ==> rows[j] == placeholders[j];
    assert FirstShown(rows) == Some(|placeholders|);
    assert FirstShown([shown]) == Some(0);
  }

  // ---------------------------------------------------------------------------
  // addMessage

  datatype MessageKind = Internal | External

  /** The wire code of a message kind. */
  function KindCode(k: MessageKind): string {
    match k
    case Internal => "I"
    case External => "E"
  }

  /** The header colours a message may carry. */
  datatype Color = Blauw | DonkerGrijs | Oranje | Geel | Groen | Paars | Rood | Roze | Turquoise

  function ColorName(c: Color): (name: string)
    ensures name != ""
  {
    match c
    case Blauw => "BLAUW"
    case DonkerGrijs => "DONKER-GRIJS"
    case Oranje => "ORANJE"
    case Geel => "GEEL"
    case Groen => "GROEN"
    case Paars => "PAARS"
    case Rood => "ROOD"
    case Roze => "ROZE"
    case Turquoise => "TURQUOISE"
  }

  /** The colour whose name is `name`, if any: the inverse of `ColorName`. */
  function ColorNamed(name: string): (c: Option<Color>)
    ensures c.Some? ==> ColorName(c.value) == name
  {
    if name == "BLAUW" then Some(Blauw)
    else if name == "DONKER-GRIJS" then Some(DonkerGrijs)
    else if name == "ORANJE" then Some(Oranje)
    else if name == "GEEL" then Some(Geel)
    else if name == "GROEN" then Some(Groen)
    else if name == "PAARS" then Some(Paars)
    else if name == "ROOD" then Some(Rood)
    else if name == "ROZE" then Some(Roze)
    else if name == "TURQUOISE" then Some(Turquoise)
    else None
  }

  lemma ColorNameRoundTrip(c: Color)
    ensures ColorNamed(ColorName(c)) == Some(c)
  {
  }

  /** The optional settings of `addMessage`; an omitted one is `None`. */
  datatype MessageOptions = MessageOptions(
    messageType: Option<MessageKind>, color: Option<Color>, title: Option<string>, message: Option<string>)

  /** A text option is sent only when it is truthy: present and not empty. */
  predicate Truthy(o: Option<string>) {
    o.Some? && o.value != ""
  }

  /** The first field called `id`, as `value`. */
  function FieldValue(fields: seq<Field>, id: string): (v: Option<string>)
    ensures v.None? <==> forall i :: 0 <= i < |fields| ==> fields[i].id != id
    ensures v.Some? ==> exists i :: 0 <= i < |fields| && fields[i] == Field(id, v.value)
  {
    if fields == [] then None
    else if fields[0].id == id then Some(fields[0].value)
    else
      var v := FieldValue(fields[1..], id);
      assert forall i :: 1 <= i < |fields| ==> fields[i] == fields[1..][i - 1];
      v
  }

  /** The order in which `addMessage` lays its fields out. */
  const FieldOrder: seq<string> := ["messageType", "actnr_wf1act_unid", "headerclass", "onderwerp", "bericht"]

  function Rank(id: string): nat {
    if id == "messageType" then 0
    else if id == "actnr_wf1act_unid" then 1
    else if id == "headerclass" then 2
    else if id == "onderwerp" then 3
    else if id == "bericht" then 4
    else 5
  }

  /** The number of optional fields that will be sent. */
  function OptionalCount(o: MessageOptions): nat {
    (if o.color.Some? then 1 else 0) + (if Truthy(o.title) then 1 else 0) + (if Truthy(o.message) then 1 else 0)
  }

  /** The optional fields, each sent only when its option is truthy: colour, title, text. */
  function OptionalFields(o: MessageOptions): (fields: seq<Field>)
    ensures |fields| == OptionalCount(o)
  {
    (if o.color.Some? then [Field("headerclass", ColorName(o.color.value))] else [])
    + (if Truthy(o.title) then [Field("onderwerp", o.title.value)] else [])
    + (if Truthy(o.message) then [Field("bericht", o.message.value)] else [])
  }

  /**
    The fields `addMessage(ticketId, options)` submits: the message type
    (internal unless given) and the ticket, then the optional ones.
   */
  function MessageFields(ticketId: int, o: MessageOptions): (fields: seq<Field>)
    ensures |fields| == 2 + OptionalCount(o)
    ensures fields[0] == Field("messageType", KindCode(o.messageType.GetOr(Internal)))
    ensures fields[1] == Field("actnr_wf1act_unid", IntToDecimal(ticketId))
  {
    [Field("messageType", KindCode(o.messageType.GetOr(Internal))),
     Field("actnr_wf1act_unid", IntToDecimal(ticketId))] + OptionalFields(o)
  }

  /** The submitted fields follow the fixed order without repeating a name. */
  lemma MessageFieldsOrder(ticketId: int, o: MessageOptions)
    ensures var fields := MessageFields(ticketId, o);
            forall i, j :: 0 <= i < j < |fields| ==> Rank(fields[i].id) < Rank(fields[j].id)
    ensures var fields := MessageFields(ticketId, o);
            forall i :: 0 <= i < |fields| ==> Rank(fields[i].id) < 5 && FieldOrder[Rank(fields[i].id)] == fields[i].id
  {
    var fields := MessageFields(ticketId, o);
    var color := if o.color.Some? then [Field("headerclass", ColorName(o.color.value))] else [];
    var title := if Truthy(o.title) then [Field("onderwerp", o.title.value)] else [];
    var message := if Truthy(o.message) then [Field("bericht", o.message.value)] else [];
    assert fields == fields[..2] + color + title + message;
    RanksOf(fields[..2], color, title, message);
  }

  lemma RanksOf(head: seq<Field>, color: seq<Field>, title: seq<Field>, message: seq<Field>)
    requires |head| == 2 && head[0].id == "messageType" && head[1].id == "actnr_wf1act_unid"
    requires |color| <= 1 && forall i :: 0 <= i < |color| ==> color[i].id == "headerclass"
    requires |title| <= 1 && forall i :: 0 <= i < |title| ==> title[i].id == "onderwerp"
    requires |message| <= 1 && forall i :: 0 <= i < |message| ==> message[i].id == "bericht"
    ensures var fields := head + color + title + message;
            forall i, j :: 0 <= i < j < |fields| ==> Rank(fields[i].id) < Rank(fields[j].id)
    ensures var fields := head + color + title + message;
            forall i :: 0 <= i < |fields| ==> Rank(fields[i].id) < 5 && FieldOrder[Rank(fields[i].id)] == fields[i].id
  {
    var fields := head + color + title + message;
    assert Rank("messageType") == 0 && Rank("actnr_wf1act_unid") == 1 && Rank("headerclass") == 2;
    assert Rank("onderwerp") == 3 && Rank("bericht") == 4;
    forall i | 0 <= i < |fields|
      ensures Rank(fields[i].id) < 5 && FieldOrder[Rank(fields[i].id)] == fields[i].id
      ensures Rank(fields[i].id) >= i
      ensures Rank(fields[i].id) == i || i >= 2
    {
    }
    forall i, j | 0 <= i < j < |fields|
      ensures Rank(fields[i].id) < Rank(fields[j].id)
    {
    }
  }

  /** Each optional field is present exactly when its option is truthy, and carries its value. */
  lemma MessageFieldsOptional(ticketId: int, o: MessageOptions)
    ensures FieldValue(MessageFields(ticketId, o), "headerclass")
            == if o.color.Some? then Some(ColorName(o.color.value)) else None
    ensures FieldValue(MessageFields(ticketId, o), "onderwerp") == if Truthy(o.title) then o.title else None
    ensures FieldValue(MessageFields(ticketId, o), "bericht") == if Truthy(o.message) then o.message else None
  {
    PastTheHead(ticketId, o, "headerclass");
    PastTheHead(ticketId, o, "onderwerp");
    PastTheHead(ticketId, o, "bericht");
    OptionalValues(o);
  }

  /** An optional field is looked up among the optional fields alone. */
  lemma PastTheHead(ticketId: int, o: MessageOptions, id: string)
    requires id != "messageType" && id != "actnr_wf1act_unid"
    ensures FieldValue(MessageFields(ticketId, o), id) == FieldValue(OptionalFields(o), id)
  {
    var fields := MessageFields(ticketId, o);
    assert fields == fields[..2] + OptionalFields(o);
    FieldValueConcat(fields[..2], OptionalFields(o), id);
  }

  lemma OptionalValues(o: MessageOptions)
    ensures FieldValue(OptionalFields(o), "headerclass") == if o.color.Some? then Some(ColorName(o.color.value)) else None
    ensures FieldValue(OptionalFields(o), "onderwerp") == if Truthy(o.title) then o.title else None
    ensures FieldValue(OptionalFields(o), "bericht") == if Truthy(o.message) then o.message else None
  {
    var color := if o.color.Some? then [Field("headerclass", ColorName(o.color.value))] else [];
    var title := if Truthy(o.title) then [Field("onderwerp", o.title.value)] else [];
    var message := if Truthy(o.message) then [Field("bericht", o.message.value)] else [];
    ValueAmongRuns(color, title, message, "headerclass");
    ValueAmongRuns(color, title, message, "onderwerp");
    ValueAmongRuns(color, title, message, "bericht");
  }

  /** The value of `id` in three runs of fields. */
  lemma ValueAmongRuns(color: seq<Field>, title: seq<Field>, message: seq<Field>, id: string)
    ensures FieldValue(color + title + message, id)
            == if FieldValue(color, id).Some? then FieldValue(color, id)
               else if FieldValue(title, id).Some? then FieldValue(title, id)
               else FieldValue(message, id)
  {
    FieldValueConcat(color + title, message, id);
    FieldValueConcat(color, title, id);
  }

  /** The first field called `id` of two runs of fields is the first run's, if it has one. */
  lemma {:induction false} FieldValueConcat(a: seq<Field>, b: seq<Field>, id: string)
    ensures FieldValue(a + b, id) == if FieldValue(a, id).Some? then FieldValue(a, id) else FieldValue(b, id)
    decreases |a|
  {
    if a == [] {
      assert a + b == b;
    } else {
      FieldValueConcat(a[1..], b, id);
      assert (a + b)[1..] == a[1..] + b;
    }
  }

  /** What a server reads back from the submitted fields. */
  datatype MessageRequest = MessageRequest(ticketId: Num, options: MessageOptions)

  /** The kind a wire code names. */
  function KindNamed(code: string): Option<MessageKind> {
    if code == "I" then Some(Internal) else if code == "E" then Some(External) else None
  }

  /** Reads submitted message fields back; an absent field reads as an omitted option. */
  function ReadMessageFields(fields: seq<Field>): MessageRequest {
    var kind := FieldValue(fields, "messageType");
    var color := FieldValue(fields, "headerclass");
    MessageRequest(
      OptionalToNumber(FieldValue(fields, "actnr_wf1act_unid")),
      MessageOptions(
        if kind.Some? then KindNamed(kind.value) else None,
        if color.Some? then ColorNamed(color.value) else None,
        FieldValue(fields, "onderwerp"),
        FieldValue(fields, "bericht")))
  }

  /** The options as they reach the server: the type made explicit, falsy texts dropped. */
  function Normalized(o: MessageOptions): MessageOptions {
    MessageOptions(Some(o.messageType.GetOr(Internal)), o.color,
                   if Truthy(o.title) then o.title else None,
                   if Truthy(o.message) then o.message else None)
  }

  /** The submitted fields carry the ticket and every truthy option, and nothing else. */
  lemma MessageFieldsRoundTrip(ticketId: int, o: MessageOptions)
    ensures ReadMessageFields(MessageFields(ticketId, o)) == MessageRequest(Finite(ticketId), Normalized(o))
  {
    var fields := MessageFields(ticketId, o);
    var kind := o.messageType.GetOr(Internal);
    assert FieldValue(fields, "messageType") == Some(KindCode(kind));
    assert KindNamed(KindCode(kind)) == Some(kind);
    assert OptionalToNumber(FieldValue(fields, "actnr_wf1act_unid")) == Finite(ticketId) by {
      assert FieldValue(fields, "actnr_wf1act_unid") == Some(IntToDecimal(ticketId));
      DecimalRoundTrip(ticketId);
    }
    var color := FieldValue(fields, "headerclass");
    assert (if color.Some? then ColorNamed(color.value) else None) == o.color by {
      MessageFieldsOptional(ticketId, o);
      if o.color.Some? {
        ColorNameRoundTrip(o.color.value);
      }
    }
    MessageFieldsOptional(ticketId, o);
  }

  /** The form messages are added through. */
  const MessageForm := Form("wf1procesinsmsgadd", "15")

  /**
    `addMessage(ticketId, options)`: the request it submits and, given the
    parsed reply, how it completes.
   */
  function AddMessage(s: Session, ticketId: int, o: MessageOptions, reply: Reply): (r: (Request, Outcome))
    ensures r.0.verb == POST && r.0.url == Url(Origin(s) + "/IOServlet", [])
    ensures r.0.body.XmlDocument?
            && ReadEnvelope(r.0.body.root) == Some((MessageForm, MessageFields(ticketId, o)))
    ensures r.1 == Pass <==> VerdictOf(reply) == Accepted
    ensures VerdictOf(reply).Rejected? ==> r.1 == Fail(Thrown(VerdictOf(reply).reason))
  {
    SubmitOutcomeFollowsVerdict(reply);
    (SubmitFormRequest(s, MessageForm, MessageFields(ticketId, o)), SubmitOutcome(reply))
  }

  // ---------------------------------------------------------------------------
  // pinMessage / unpinMessage

  const PinAction := "101"
  const UnpinAction := "102"

  function MessageActionParams(action: string, messageId: int): seq<Entry> {
    [("action", action), ("name", "wf1procesinsmsg"), ("uniqueid", IntToDecimal(messageId))]
  }

  /** The path `executeAction` builds for a message action: the search string right after `/IOServlet`. */
  lemma MessageActionPath(action: string, messageId: int)
    requires '&' !in action
    ensures SearchString(MessageActionParams(action, messageId))
            == "action=" + action + "&name=wf1procesinsmsg" + "&uniqueid=" + IntToDecimal(messageId)
    ensures ParseSearch(SearchString(MessageActionParams(action, messageId))) == MessageActionParams(action, messageId)
  {
    var params := MessageActionParams(action, messageId);
    var d := IntToDecimal(messageId);
    var pieces := seq(|params|, i requires 0 <= i < |params| => params[i].0 + "=" + params[i].1);
    assert pieces == ["action" + "=" + action, "name" + "=" + "wf1procesinsmsg", "uniqueid" + "=" + d];
    JoinThree(pieces[0], pieces[1], pieces[2]);
    assert pieces == [pieces[0], pieces[1], pieces[2]];
    ActionSearchLiteral(action, d);
    assert '&' !in d by {
      assert forall i :: 0 <= i < |d| ==> d[i] == '-' || IsDigit(d[i]);
    }
    SearchRoundTrip(params);
  }

  lemma JoinThree(a: string, b: string, c: string)
    ensures Join([a, b, c], '&') == a + "&" + b + "&" + c
  {
    assert [a, b, c][1..] == [b, c];
    assert [b, c][1..] == [c];
    assert Join([b, c], '&') == b + ['&'] + c;
    assert Join([a, b, c], '&') == a + ['&'] + (b + ['&'] + c);
    assert "&" == ['&'];
  }

  lemma ActionSearchLiteral(action: string, d: string)
    ensures ("action" + "=" + action) + "&" + ("name" + "=" + "wf1procesinsmsg") + "&" + ("uniqueid" + "=" + d)
            == "action=" + action + "&name=wf1procesinsmsg" + "&uniqueid=" + d
  {
    ActionKey();
    NameKey();
    IdKey();
  }

  lemma ActionKey()
    ensures "action" + "=" == "action="
  {
  }

  lemma NameKey()
    ensures "&" + ("name" + "=" + "wf1procesinsmsg") == "&name=wf1procesinsmsg"
  {
    assert "name" + "=" + "wf1procesinsmsg" == "name=wf1procesinsmsg";
  }

  lemma IdKey()
    ensures "&" + ("uniqueid" + "=") == "&uniqueid="
  {
  }

  /**
    `executeAction` on a message: the action code, the fixed table name and
    the message id, set in that order and appended to `/IOServlet`.
   */
  function MessageAction(s: Session, action: string, messageId: int): (req: Request)
    requires '&' !in action
    ensures req.verb == POST && req.body == NoBody
    ensures Get(req.headers, "Cookie") == Some(SessionCookie(s.token))
    ensures |Origin(s) + "/IOServlet"| <= |req.url.location|
    ensures req.url.location
            == Origin(s) + "/IOServlet" + ("action=" + action + "&name=wf1procesinsmsg" + "&uniqueid=" + IntToDecimal(messageId))
    ensures ParseSearch(req.url.location[|Origin(s) + "/IOServlet"|..]) == MessageActionParams(action, messageId)
  {
    var params := MessageActionParams(action, messageId);
    assert DistinctKeys(params);
    MessageActionPath(action, messageId);
    var base := Origin(s) + "/IOServlet";
    var req := ExecuteAction(s, params);
    assert (base + SearchString(params))[|base|..] == SearchString(params);
    req
  }

  /** `pinMessage(messageId)`: action 101 on the message. */
  function PinMessage(s: Session, messageId: int): (req: Request)
    ensures req.verb == POST && req.body == NoBody
    ensures req.url.location
            == Origin(s) + "/IOServlet" + ("action=" + PinAction + "&name=wf1procesinsmsg" + "&uniqueid=" + IntToDecimal(messageId))
    ensures ParseSearch(req.url.location[|Origin(s) + "/IOServlet"|..]) == MessageActionParams(PinAction, messageId)
  {
    MessageAction(s, PinAction, messageId)
  }

  /** `unpinMessage(messageId)`: action 102 on the message; only the action code differs from pinning. */
  function UnpinMessage(s: Session, messageId: int): (req: Request)
    ensures req.verb == POST && req.body == NoBody
    ensures req.url.location
            == Origin(s) + "/IOServlet" + ("action=" + UnpinAction + "&name=wf1procesinsmsg" + "&uniqueid=" + IntToDecimal(messageId))
    ensures ParseSearch(req.url.location[|Origin(s) + "/IOServlet"|..]) == MessageActionParams(UnpinAction, messageId)
  {
    MessageAction(s, UnpinAction, messageId)
  }

  // ---------------------------------------------------------------------------
  // listMessages

  /** The path of a ticket's form page, which holds its message thread. */
  const TicketFormPage := "/jsp/wf/uiform/uiform_wf1act.jsp"

  /** The query `listMessages(ticketId)` sends. */
  function ListMessagesRequest(s: Session, ticketId: int): (req: Request)
    ensures req.verb == GET && req.url.location == Origin(s) + TicketFormPage
    ensures req.headers == [("Cookie", SessionCookie(s.token))]
    ensures |req.url.query| == 1 && req.url.query[0].0 == "uniqueid"
            && ToNumber(req.url.query[0].1) == Finite(ticketId)
  {
    DecimalRoundTrip(ticketId);
    Query(s, TicketFormPage, [("uniqueid", IntToDecimal(ticketId))])
  }

  /**
    An element of the form page as the message reader sees it: its classes
    and `id` attribute, whether it has an `.internal` descendant, and the
    text (or, for the body, the inner HTML) of its first `.timestamp`,
    `.author`, `.desc` and `.message` descendants, when present.
   */
  datatype Block = Block(
    classes: set<string>, id: Option<string>, hasInternal: bool,
    timestamp: Option<string>, author: Option<string>, title: Option<string>, body: Option<string>)

  /** Matches the selector `.comment.expanded`. */
  predicate IsComment(b: Block) {
    "comment" in b.classes && "expanded" in b.classes
  }

  /** The positions of the comments from `from` on, in ascending order. */
  function CommentPositionsFrom(blocks: seq<Block>, from: nat): (ps: seq<nat>)
    ensures forall i :: i in ps <==> from <= i < |blocks| && IsComment(blocks[i])
    ensures forall k :: 0 <= k < |ps| ==> from <= ps[k] < |blocks|
    ensures forall a, b :: 0 <= a < b < |ps| ==> ps[a] < ps[b]
    decreases |blocks| - from
  {
    if from >= |blocks| then []
    else
      var rest := CommentPositionsFrom(blocks, from + 1);
      assert forall k :: 0 <= k < |rest| ==> rest[k] in rest;
      (if IsComment(blocks[from]) then [from] else []) + rest
  }

  /** The comments from position `from` on, in document order. */
  function CommentsFrom(blocks: seq<Block>, from: nat): seq<Block>
    decreases |blocks| - from
  {
    if from >= |blocks| then []
    else (if IsComment(blocks[from]) then [blocks[from]] else []) + CommentsFrom(blocks, from + 1)
  }

  /** The comments are the blocks at the comment positions. */
  lemma {:induction false} CommentsAtPositions(blocks: seq<Block>, from: nat)
    ensures AtPositions(CommentsFrom(blocks, from), blocks, CommentPositionsFrom(blocks, from))
    decreases |blocks| - from
  {
    if from < |blocks| {
      CommentsAtPositions(blocks, from + 1);
      var rest, keptRest := CommentPositionsFrom(blocks, from + 1), CommentsFrom(blocks, from + 1);
      if IsComment(blocks[from]) {
        assert CommentPositionsFrom(blocks, from) == [from] + rest;
        assert CommentsFrom(blocks, from) == [blocks[from]] + keptRest;
        AtPositionsCons(keptRest, blocks, rest, from);
      } else {
        assert CommentPositionsFrom(blocks, from) == rest;
        assert CommentsFrom(blocks, from) == keptRest;
      }
    }
  }

  /** `querySelectorAll(".comment.expanded")`: the comments among the blocks. */
  function Comments(blocks: seq<Block>): (cs: seq<Block>)
    ensures forall b :: b in cs <==> b in blocks && IsComment(b)
    ensures |cs| <= |blocks|
  {
    CommentsInOrder(blocks);
    var ps := CommentPositionsFrom(blocks, 0);
    var cs := CommentsFrom(blocks, 0);
    forall b | b in cs
      ensures b in blocks && IsComment(b)
    {
      var k :| 0 <= k < |cs| && cs[k] == b;
      assert ps[k] in ps;
    }
    forall b | b in blocks && IsComment(b)
      ensures b in cs
    {
      var i :| 0 <= i < |blocks| && blocks[i] == b;
      assert i in ps;
      var k :| 0 <= k < |ps| && ps[k] == i;
      assert cs[k] == b;
    }
    cs
  }

  /**
    The selection keeps document order: it holds exactly the blocks at the
    comment positions, ascending, and each comment once per position.
   */
  lemma CommentsInOrder(blocks: seq<Block>)
    ensures var ps := CommentPositionsFrom(blocks, 0);
            && AtPositions(CommentsFrom(blocks, 0), blocks, ps)
            && (forall a, b :: 0 <= a < b < |ps| ==> ps[a] < ps[b])
            && (forall i :: 0 <= i < |blocks| && IsComment(blocks[i]) <==> i in ps)
    ensures |CommentsFrom(blocks, 0)| <= |blocks|
  {
    var ps := CommentPositionsFrom(blocks, 0);
    CommentsAtPositions(blocks, 0);
    PositionsBound(ps, 0, |blocks|);
  }

  datatype Message = Message(
    id: Num, messageType: MessageKind,
    timestamp: Option<string>, author: Option<string>, title: Option<string>, body: Option<string>)

  /** The message id: the element id without its `comment` prefix, as a number; NaN when there is no id. */
  function MessageId(id: Option<string>): Num {
    match id
    case None => NaN
    case Some(text) => ToNumber(ReplaceFirst(text, "comment", ""))
  }

  /** An element id `comment<n>` yields message id `n`, and a missing id yields NaN. */
  lemma MessageIdOfElementId(n: int)
    ensures MessageId(Some("comment" + IntToDecimal(n))) == Finite(n)
    ensures MessageId(None) == NaN
  {
    ReplaceLeadingPattern("comment", IntToDecimal(n), "");
    assert "" + IntToDecimal(n) == IntToDecimal(n);
    DecimalRoundTrip(n);
  }

  function ReadMessage(b: Block): Message {
    Message(MessageId(b.id), if b.hasInternal then Internal else External,
            b.timestamp, b.author, b.title, b.body)
  }

  /** `listMessages(ticketId)` on the blocks of the reply: one message per comment, in document order. */
  function ListMessages(blocks: seq<Block>): (ms: seq<Message>)
    ensures |ms| == |Comments(blocks)|
    ensures forall k :: 0 <= k < |ms| ==>
              var c := Comments(blocks)[k];
              (ms[k].messageType == Internal <==> c.hasInternal)
              && ms[k].id == MessageId(c.id)
              && ms[k].timestamp == c.timestamp && ms[k].author == c.author
              && ms[k].title == c.title && ms[k].body == c.body
  {
    var cs := Comments(blocks);
    seq(|cs|, k requires 0 <= k < |cs| => ReadMessage(cs[k]))
  }

  /** Blocks that are not comments never become messages. */
  lemma NonCommentsIgnored(blocks: seq<Block>, others: seq<Block>)
    requires forall k :: 0 <= k < |others| ==> !IsComment(others[k])
    ensures Comments(blocks + others) == Comments(blocks)
    ensures ListMessages(blocks + others) == ListMessages(blocks)
  {
    CommentsPadding(blocks, others, 0);
  }

  lemma {:induction false} CommentsPadding(blocks: seq<Block>, others: seq<Block>, from: nat)
    requires forall k :: 0 <= k < |others| ==> !IsComment(others[k])
    ensures CommentsFrom(blocks + others, from) == CommentsFrom(blocks, from)
    decreases |blocks + others| - from
  {
    if from < |blocks + others| {
      CommentsPadding(blocks, others, from + 1);
      if from >= |blocks| {
        assert !IsComment((blocks + others)[from]) by {
          assert (blocks + others)[from] == others[from - |blocks|];
        }
      } else {
        assert (blocks + others)[from] == blocks[from];
      }
    }
  }
}
