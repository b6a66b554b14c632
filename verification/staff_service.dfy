/**
  Staff listings (`StaffService` in src/services/staff.ts): the staff
  table and the open tickets of one staff member.  Each is a table query
  whose kept rows are decoded cell by cell; a kept row with too few cells
  makes reading `tds[k].textContent` raise, which fails the whole listing.
 */
module StaffService {
  import opened Results
  import opened Entries
  import opened Text
  import opened Rows
  import opened BaseService

  datatype Staff = Staff(id: Num, staffCode: string, name: string, tasks: Num)

  datatype StaffList = StaffList(totalTasks: Num, staff: seq<Staff>)

  datatype AssignedTicket = AssignedTicket(id: Num, ticketNumber: Num, searchName: string, description: string)

  /** `Number(tr.getAttribute("unid"))`. */
  function RowId(r: Row): Num {
    OptionalToNumber(Attr(r, "unid"))
  }

  // ---------------------------------------------------------------------------
  // list

  const StaffParams: seq<Entry> := [("queryid", "wf1medewerkers")]

  /** The query `list()` sends. */
  function ListRequest(s: Session): (req: Request)
    ensures req.verb == GET && req.url == Url(Origin(s) + TablePage, [("queryid", "wf1medewerkers")])
    ensures req.headers == [("Cookie", SessionCookie(s.token))]
  {
    Query(s, TablePage, StaffParams)
  }

  function DecodeStaff(r: Row): Result<Staff> {
    if |r.cells| < 3 then Err(TypeFault)
    else Ok(Staff(RowId(r), r.cells[0], r.cells[1], ToNumber(r.cells[2])))
  }

  /**
    `list()` on the rows of the staff table and the inner HTML of the
    `#sc3` cell (absent when the page has none): one record per kept row,
    in order, then the total.
   */
  function List(rows: seq<Row>, sc3: Option<string>): (r: Result<StaffList>)
    ensures r.Ok? <==> sc3.Some? && forall k :: 0 <= k < |Kept(rows)| ==> |Kept(rows)[k].cells| >= 3
    ensures r.Err? ==> r.error == TypeFault
    ensures r.Ok? ==> r.value.totalTasks == ToNumber(sc3.value)
    ensures r.Ok? ==> |r.value.staff| == |Kept(rows)|
    ensures r.Ok? ==> forall k :: 0 <= k < |r.value.staff| ==>
              var row := Kept(rows)[k];
              |row.cells| >= 3
              && r.value.staff[k] == Staff(RowId(row), row.cells[0], row.cells[1], ToNumber(row.cells[2]))
  {
    match Listing(rows, DecodeStaff)
    case Err(e) => Err(e)
    case Ok(staff) =>
      match sc3
      case None => Err(TypeFault)
      case Some(html) => Ok(StaffList(ToNumber(html), staff))
  }

  // ---------------------------------------------------------------------------
  // listTickets

  const ForeignName := "_<arrayoverlaps>_uitvoerder_gc1mdw_unid"

  function TicketParams(staffId: int): seq<Entry> {
    [("queryid", "wf1actlopend"), ("foreignUNIDName", ForeignName), ("foreignUNIDValue", IntToDecimal(staffId))]
  }

  /** The query `listTickets(staffId)` sends: the staff id travels as its decimal text. */
  function ListTicketsRequest(s: Session, staffId: int): (req: Request)
    ensures req.verb == GET && req.url.location == Origin(s) + TablePage
    ensures req.url.query == TicketParams(staffId)
    ensures Get(req.url.query, "queryid") == Some("wf1actlopend")
    ensures Get(req.url.query, "foreignUNIDName") == Some(ForeignName)
    ensures Get(req.url.query, "foreignUNIDValue").Some?
            && ToNumber(Get(req.url.query, "foreignUNIDValue").value) == Finite(staffId)
  {
    DecimalRoundTrip(staffId);
    var params := TicketParams(staffId);
    assert DistinctKeys(params);
    GetAt(params, 0);
    GetAt(params, 1);
    GetAt(params, 2);
    Query(s, TablePage, params)
  }

  function DecodeAssigned(r: Row): Result<AssignedTicket> {
    if |r.cells| < 4 then Err(TypeFault)
    else Ok(AssignedTicket(RowId(r), ToNumber(r.cells[1]), r.cells[2], r.cells[3]))
  }

  /** `listTickets(staffId)` on the rows of the reply: one record per kept row, in order. */
  function ListTickets(rows: seq<Row>): (r: Result<seq<AssignedTicket>>)
    ensures r.Ok? <==> forall k :: 0 <= k < |Kept(rows)| ==> |Kept(rows)[k].cells| >= 4
    ensures r.Err? ==> r.error == TypeFault
    ensures r.Ok? ==> |r.value| == |Kept(rows)|
    ensures r.Ok? ==> forall k :: 0 <= k < |r.value| ==>
              var row := Kept(rows)[k];
              |row.cells| >= 4
              && r.value[k] == AssignedTicket(RowId(row), ToNumber(row.cells[1]), row.cells[2], row.cells[3])
  {
    Listing(rows, DecodeAssigned)
  }

  /** Placeholder and header rows never reach a listing, however many there are. */
  lemma PlaceholdersNeverListed(rows: seq<Row>, filler: seq<Row>, sc3: Option<string>)
    requires forall k :: 0 <= k < |filler| ==> IsPlaceholder(filler[k])
    ensures ListTickets(rows + filler) == ListTickets(rows)
    ensures List(rows + filler, sc3) == List(rows, sc3)
  {
    KeptPadding(rows, filler, 0);
    ListingOfKept(rows + filler, rows, DecodeAssigned);
    ListingOfKept(rows + filler, rows, DecodeStaff);
  }

  lemma {:induction false} KeptPadding(rows: seq<Row>, filler: seq<Row>, from: nat)
    requires forall k :: 0 <= k < |filler| ==> IsPlaceholder(filler[k])
    ensures KeptFrom(rows + filler, from) == KeptFrom(rows, from)
    decreases |rows + filler| - from
  {
    if from < |rows + filler| {
      KeptPadding(rows, filler, from + 1);
      if from >= |rows| {
        assert IsPlaceholder((rows + filler)[from]) by {
          assert (rows + filler)[from] == filler[from - |rows|];
        }
      } else {
        assert (rows + filler)[from] == rows[from];
      }
    }
  }
}
