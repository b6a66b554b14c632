# WTicket client core, modelled in Dafny

This project models the decision logic of a TypeScript client for the
WTicket ERP web application.  The client logs in to a WTicket host, keeps a
`JSESSIONID` session token, lists staff and the open tickets of a staff
member, looks tickets up by number, adds, pins and unpins ticket messages,
and lists the messages of a ticket.  It comes in two variants: the
service classes (`BaseService`, `AuthService`, `StaffService`,
`TicketService`), which talk HTTP directly, and the browser-driven
`WTicketBot`, which logs in through a browser page and replays the
browser's cookies.

Everything is modelled as pure functions over immutable values:

- a request is a `Request` value (verb, URL with ordered search
  parameters, ordered headers, body) describing what the client hands to
  `fetch`, and each reply arrives already parsed;
- ordered key/value maps (headers, `URLSearchParams`, the entries of an
  object literal) are `seq<(string, string)>` in the order JavaScript
  enumerates them, with the semantics of `URLSearchParams.set`: a new key is
  appended, an existing one is overwritten in place;
- an HTML table reply is the sequence of its `tr` rows, each as its
  attributes and the texts of its `td` cells;
- a message page is the sequence of its elements as the message reader
  sees them;
- an XML form reply is one of four parsed shapes;
- a thrown exception is an `Error` value: `Thrown(message)` for
  `throw new Error(message)`, `TypeFault` for reading a property of
  `undefined` (a missing `Set-Cookie` entry or `td` cell), and
  `TransportFault` for a `fetch` that rejects.

Modules follow the source files:

| module | file |
|---|---|
| `Results` | error, option and outcome types |
| `Text` | `split`, `join`, `replace`, `String(n)` and `Number(text)` |
| `Entries` | ordered maps with `URLSearchParams.set` |
| `BaseService` | src/services/index.ts |
| `AuthService` | src/services/auth.ts |
| `Rows` | the row rules shared by src/services/staff.ts, src/services/ticket.ts and src/client.ts |
| `StaffService` | src/services/staff.ts |
| `SearchColumns` | src/services/ticket.config.ts |
| `TicketService` | src/services/ticket.ts |
| `Bot` | src/client.ts |
| `Parser` | src/utils/parser.ts |

Points where the code behaves in ways a reader might not expect:

- `get(ticketNumber)` counts from row 0 and does not skip the two header
  rows: it takes the first row that is not marked `empty="true"`, while the
  listings start at row 2 (`Rows.LookupDoesNotSkipHeaders`).
- src/client.ts has no duplicate-session recovery, no login status and no
  `isLoggedIn` query: a failed browser navigation throws "Login failed",
  and nothing retries.
- A `Result` union type is declared but never used; every operation
  reports failure by throwing.
- Under the `ioservletresponse` root an empty error means the form was not
  recognised.  The caller cannot tell this apart from a rejection whose
  text is literally `Form not recognized` (`BaseService.NotRecognizedIsPlainError`).
- `Number("")` is 0, so a blank cell reads as 0 rather than NaN.
- An empty `<ioservletresponse/>` root is parsed to the empty string, which
  is falsy, so the reply is read as a `message` root and reading its `error`
  raises a TypeError (`BaseService.SubmitOutcome`).

## Model

| member | source | states |
|---|---|---|
| Entries.Set | src/services/index.ts:36 | `searchParams.set(k, v)`: afterwards `k` reads `v`, every other key reads as before, a new key is appended at the end, and keys stay distinct |
| Entries.Without | src/services/index.ts:36 | dropping the later duplicates of a key leaves no entry under it and changes no other key's value |
| Entries.SetAllGet | src/services/index.ts:35-37 | after setting entries one by one, a key reads the value of its last entry, and keys not set keep their old value |
| Entries.SetAllDistinct | src/services/index.ts:35-37 | setting entries one by one never creates a repeated key |
| Entries.SetAllFresh | src/services/index.ts:35-37 | entries with distinct keys, none already present, are appended verbatim and in order |
| Entries.SetAllFromEmpty | src/services/index.ts:91-94 | starting from an empty map, keys are distinct, each reads its last value, and distinct-key entries come out unchanged |
| Entries.SetInPlace | src/client.ts:43 | assigning a header that is already present overwrites the entry at its position; every other entry is unchanged and none is added |
| Entries.SetAll | src/services/index.ts:35-37 | setting entries one by one, characterised by `Entries.SetAllGet`, `Entries.SetAllDistinct` and `Entries.SetAllFresh` |
| Text.Split | src/services/index.ts:14 | `split(c)` yields at least one piece, none containing `c`, and the first is the text before the first `c` |
| Text.JoinSplit | src/utils/parser.ts:2 | joining the pieces of a split gives back the original text |
| Text.SplitJoin | src/client.ts:43 | splitting a join of separator-free pieces gives back the pieces |
| Text.ReplaceLeadingPattern | src/services/ticket.ts:69 | `replace` with a string pattern on a text that starts with it removes exactly that prefix |
| Text.NatToDecimal | src/services/staff.ts:39 | `toString()` of a natural number is a non-empty run of digits without a leading zero |
| Text.NatToDecimalValue | src/services/staff.ts:39 | the digits of a natural number read back as the number |
| Text.DecimalRoundTrip | src/services/ticket.ts:36 | `Number(String(n))` is `n` for every integer, negative ones included |
| Text.DigitsToNumber | src/utils/parser.ts:3 | `Number` of a run of digits is its decimal value, whatever its leading zeros |
| Text.ToNumber | src/services/staff.ts:24 | `Number(text)`, characterised by `Text.DigitsToNumber` (digit runs) and `Text.DecimalRoundTrip` (it inverts `String(n)`) |
| Text.IntToDecimal | src/services/ticket.ts:36 | `String(n)`, characterised by `Text.DecimalRoundTrip` and, for natural numbers, `Text.NatToDecimal` and `Text.NatToDecimalValue` |
| Text.ReplaceFirst | src/services/ticket.ts:69 | `replace` with a string pattern, characterised by `Text.ReplaceLeadingPattern` |
| Text.Join | src/client.ts:43 | `join(c)`, characterised by `Text.SplitJoin` and `Text.JoinSplit` (it inverts `split`) |
| BaseService.SetSession | src/services/index.ts:13-15 | only the first `Set-Cookie` entry is read; none at all raises a TypeError; the host is kept and the token is the text between the first `=` and the next `=` of the part before the first `;` |
| BaseService.NameValueToken | src/services/index.ts:14 | a first cookie `NAME=VALUE; …` (or `NAME=VALUE`) whose parts hold no `=` or `;` yields exactly `VALUE`, whatever later entries say |
| BaseService.SessionFixture | src/services/index.ts:14 | `JSESSIONID=ABC123; Path=/` yields the token `ABC123` |
| BaseService.SessionCookie | src/services/index.ts:26 | the `Cookie` value `JSESSIONID=<token>` (`undefined` before any login), characterised by `BaseService.Fetch` and `AuthService.LoginRequests` |
| BaseService.Fetch | src/services/index.ts:17-30 | the URL is host plus path; the verb is GET unless one is given; the body passes through; `Cookie` always carries the session token, overriding any caller `Cookie`; every other header keeps the caller's last value; header keys are distinct |
| BaseService.Query | src/services/index.ts:32-47 | a GET without body whose only header is the session cookie; each search key reads the last value given for it; distinct keys are sent verbatim in order |
| BaseService.ReadFieldsOfNodes | src/services/index.ts:53-61 | the `field` elements built from a field list read back as that list |
| BaseService.EnvelopeRoundTrip | src/services/index.ts:50-62 | the envelope reads back as exactly its form attributes and fields, in order |
| BaseService.SubmitFormRequest | src/services/index.ts:49-69 | a submission is a POST to `/IOServlet` with `Content-Type: text/xml; charset=UTF-8` and the session cookie, and its body reads back as the form and its fields |
| BaseService.Envelope | src/services/index.ts:50-62 | the `<form id action>` element with one `field` per entry, characterised by `BaseService.EnvelopeRoundTrip` |
| BaseService.SubmitOutcome | src/services/index.ts:75-87 | success exactly for a `message` root with an empty error; an `ioservletresponse` root always throws, and throws "Form not recognized" for an empty error; an empty `ioservletresponse` root, or a reply of neither shape, raises a TypeError |
| BaseService.SubmitOutcomeFollowsVerdict | src/services/index.ts:75-87 | success iff the reply accepts the form; a rejection throws its text verbatim; an unrecognised form throws "Form not recognized"; an unreadable reply (an empty `ioservletresponse` root, or neither shape) raises a TypeError |
| BaseService.EmptyErrorAsymmetry | src/services/index.ts:75-83 | an empty error means success under `message` and failure under `ioservletresponse`, and an empty `ioservletresponse` root raises a TypeError; other text is thrown verbatim |
| BaseService.NotRecognizedIsPlainError | src/services/index.ts:76-85 | an unrecognised form and a rejection reading `Form not recognized` are different verdicts yet throw the same error |
| BaseService.SearchRoundTrip | src/services/index.ts:91-96 | the search string of parameters whose keys hold no `=` or `&`, and whose values hold no `&`, parses back as those parameters |
| BaseService.SearchString | src/services/index.ts:91-96 | `URLSearchParams.toString()` without percent-encoding, characterised by `BaseService.SearchRoundTrip` |
| BaseService.ExecuteAction | src/services/index.ts:90-97 | a bodiless POST whose location is `/IOServlet` followed directly by the search string, with no `?`, parameters in insertion order, carrying the session cookie |
| AuthService.Login | src/services/auth.ts:4-21 | GET `/jsp/wf/index.jsp`, POST `/login?action=refreshsession`, POST `/login`, in that order, stopping at the first failure; all three are sent iff the index page set a cookie and the refresh was delivered; a rejected `fetch` at any step fails with a transport error, and a delivered reply without a cookie with a TypeError; once the index page set a cookie its token is kept unless the login reply sets another; the token is replaced from the login reply before its status is checked; success iff that reply carries a cookie and is OK; otherwise the `message` header is thrown |
| AuthService.LoginRequests | src/services/auth.ts:5-15 | the first request carries the old token; the refresh and credential requests carry the token the index page set; only the credential POST has a body, exactly `username` and `password` |
| AuthService.FailedLoginReplacesToken | src/services/auth.ts:16-20 | a non-OK login reply that sets a cookie still replaces the token, and the login fails |
| AuthService.LoginFailureMessage | src/services/auth.ts:19 | without a `message` header the error is "Something went wrong"; an empty header gives an empty message |
| AuthService.Logout | src/services/auth.ts:23-25 | one GET of `/login/wf/logout.jsp` with the current token; the session is unchanged |
| Rows.ListedFrom | src/services/staff.ts:12-15 | the listed positions are exactly those at index 2 or later whose row is not `empty="true"`, in ascending order |
| Rows.KeptAtListed | src/services/staff.ts:12-26 | the rows a listing decodes are the rows at the listed positions, in server order |
| Rows.KeptRows | src/services/staff.ts:12-26 | kept rows are the non-placeholder rows from position 2 on, all of them, in order; none is a placeholder; there are at most `|rows| - 2` |
| Rows.Kept | src/services/staff.ts:12-15 | the rows a listing keeps, characterised by `Rows.KeptRows` and `Rows.KeptAtListed` |
| Rows.DecodeAll | src/services/staff.ts:17-26 | decoding succeeds iff every row decodes, and then yields the decoded values in order; a failure is the first failing row's error |
| Rows.Listing | src/services/staff.ts:12-26 | a listing decodes exactly the kept rows, in order, and fails with the first kept row that cannot be decoded |
| Rows.ListingOfKept | src/services/staff.ts:14-15 | two tables with the same kept rows give the same listing |
| Rows.FirstShownFrom | src/services/ticket.ts:13 | the first position at or after `from` whose row is not a placeholder; none iff all rows from there on are placeholders |
| Rows.FirstShown | src/services/ticket.ts:13 | the first non-placeholder row counting from position 0, headers included; none iff every row is a placeholder |
| Rows.LookupDoesNotSkipHeaders | src/services/ticket.ts:13 | two ordinary rows give an empty listing, yet a lookup takes the first of them |
| StaffService.ListRequest | src/services/staff.ts:6-8 | the staff query is a GET of the table page with exactly `queryid=wf1medewerkers` and the session cookie |
| StaffService.List | src/services/staff.ts:5-33 | one record per kept row, in order: `id` from `unid`, `staffCode` from cell 0, `name` from cell 1, `tasks` from the number in cell 2; the total is the number in `#sc3`; it fails iff a kept row has fewer than 3 cells or `#sc3` is missing |
| StaffService.DecodeStaff | src/services/staff.ts:17-25 | one staff record from a row, characterised by `StaffService.List` |
| StaffService.ListTicketsRequest | src/services/staff.ts:36-40 | `queryid=wf1actlopend`, the fixed `foreignUNIDName`, and a `foreignUNIDValue` that reads back as the staff id |
| StaffService.ListTickets | src/services/staff.ts:35-59 | one record per kept row, in order, with `ticketNumber`, `searchName` and `description` from cells 1, 2 and 3; it fails iff a kept row has fewer than 4 cells |
| StaffService.DecodeAssigned | src/services/staff.ts:51-57 | one assigned ticket from a row, characterised by `StaffService.ListTickets` |
| StaffService.PlaceholdersNeverListed | src/services/staff.ts:15 | appending placeholder rows changes neither listing |
| SearchColumns.ColumnIn | src/services/ticket.config.ts:3-19 | a name's column is that of an entry with that name; there is none iff no entry has the name |
| SearchColumns.NameIn | src/services/ticket.config.ts:3-19 | a column's name is that of an entry with that column; there is none iff no entry has the column |
| SearchColumns.ColumnsConsecutive | src/services/ticket.config.ts:4-18 | 15 entries whose columns run 2, 3, …, 16 in declaration order |
| SearchColumns.ColumnsInjective | src/services/ticket.config.ts:3-19 | no two names share a column, and no name appears twice |
| SearchColumns.ColumnOfRoundTrip | src/services/ticket.config.ts:3-19 | looking up a listed name gives its own column |
| SearchColumns.NameOfRoundTrip | src/services/ticket.config.ts:3-19 | looking up a listed column gives its own name |
| SearchColumns.NameOfRange | src/services/ticket.config.ts:3-19 | a column names a field iff it lies in 2..16 |
| SearchColumns.LookupRoundTrip | src/services/ticket.config.ts:3-19 | name-to-column and column-to-name lookups are mutually inverse over the table, whose columns are exactly 2..16 |
| SearchColumns.IdColumn | src/services/ticket.config.ts:4 | `id` is column 2 |
| TicketService.GetRequest | src/services/ticket.ts:7-11 | exactly the parameters `queryid=wf1act`, `searchcol=2` and `key=_<exact>_<n>`, in that order, where `2` reads as the `id` column and `<n>` reads back as the ticket number |
| TicketService.GetTicket | src/services/ticket.ts:6-25 | "Ticket not found" iff every row is a placeholder; otherwise the first non-placeholder row, header or not, yields `id` from `unid` and `number`, `searchName`, `description` from cells 1-3; a short row raises a TypeError |
| TicketService.GetReadsFirstShownOnly | src/services/ticket.ts:13 | rows after the first shown row are never read |
| TicketService.ColorName | src/services/ticket.ts:30 | every colour name is non-empty, so a given colour always passes the truthiness test |
| TicketService.ColorNamed | src/services/ticket.ts:30 | a recognised name is the name of the colour returned |
| TicketService.ColorNameRoundTrip | src/services/ticket.ts:30 | every colour is recovered from its name |
| TicketService.OptionalFields | src/services/ticket.ts:38-40 | one optional field per truthy option |
| TicketService.MessageFields | src/services/ticket.ts:34-40 | the field list starts with `messageType` (`I` unless given) and then the ticket id's decimal text, followed by the optional fields |
| TicketService.MessageFieldsOrder | src/services/ticket.ts:34-40 | fields appear in the fixed order `messageType`, `actnr_wf1act_unid`, `headerclass`, `onderwerp`, `bericht`, without repeating a name |
| TicketService.MessageFieldsOptional | src/services/ticket.ts:38-40 | `headerclass` is present iff a colour is given; `onderwerp` and `bericht` are present iff their option is non-empty; each carries its option's value |
| TicketService.MessageFieldsRoundTrip | src/services/ticket.ts:34-40 | reading the fields back gives the ticket id and the options, with the type made explicit and empty texts dropped |
| TicketService.AddMessage | src/services/ticket.ts:27-43 | a POST to `/IOServlet` of form `wf1procesinsmsgadd`, action `15`, with the message fields; success iff the reply accepts the form; a rejection throws its text |
| TicketService.MessageActionPath | src/services/ticket.ts:46-50 | the search string is `action=…&name=wf1procesinsmsg&uniqueid=<id>`, and it parses back as those three parameters |
| TicketService.MessageAction | src/services/ticket.ts:46-50 | a bodiless POST with the session cookie, to `/IOServlet` followed by the action's search string, which parses back as its parameters |
| TicketService.PinMessage | src/services/ticket.ts:45-51 | action `101` on the message, addressed as above |
| TicketService.UnpinMessage | src/services/ticket.ts:53-59 | action `102` on the message; the other parameters are as for pinning |
| TicketService.ListMessagesRequest | src/services/ticket.ts:62-64 | a GET of the ticket form page with a single `uniqueid` that reads back as the ticket id |
| TicketService.CommentPositionsFrom | src/services/ticket.ts:66 | the positions from `from` on whose element is a `.comment.expanded`, all of them, in ascending order |
| TicketService.CommentsAtPositions | src/services/ticket.ts:66 | the selected elements are the elements at the comment positions, in that order |
| TicketService.Comments | src/services/ticket.ts:66 | exactly the `.comment.expanded` elements are selected, no more than there are elements |
| TicketService.CommentsInOrder | src/services/ticket.ts:66 | the selection is the elements at the ascending comment positions, so it keeps document order and lists each comment element once |
| TicketService.MessageId | src/services/ticket.ts:69 | `Number(id.replace("comment", ""))`, characterised by `TicketService.MessageIdOfElementId` |
| TicketService.MessageIdOfElementId | src/services/ticket.ts:69 | an element id `comment<n>` yields message id `n`; a missing id yields NaN |
| TicketService.ListMessages | src/services/ticket.ts:61-85 | one message per comment, in document order: the id with `comment` removed, type `I` iff an `.internal` descendant exists, and the timestamp, author, title and body of that comment |
| TicketService.NonCommentsIgnored | src/services/ticket.ts:66-68 | appending elements that are not comments changes neither the selection nor the messages |
| Bot.CookieHeader | src/client.ts:43 | the cookie header is empty iff the jar is empty |
| Bot.CookieHeaderRoundTrip | src/client.ts:43 | the header lists every cookie's name and value, in jar order, separated by `; ` |
| Bot.ClickLogin | src/client.ts:28-35 | at most one click, on the first button whose text is exactly `Login`; no click iff no such button |
| Bot.LoginButton | src/client.ts:28-35 | the first button labelled `Login`, if any |
| Bot.BrowserLogin | src/client.ts:14-45 | the page visited is the host's index page; a navigation that never arrives throws "Login failed" and stores nothing; otherwise the `Cookie` header is set to the jar's header and the other headers are kept |
| Bot.ReloginReplacesCookies | src/client.ts:43 | logging in again replaces the stored cookie header instead of adding a second one |
| Bot.Logout | src/client.ts:47-51 | a GET of `/login/wf/logout.jsp` on the fixed host, with the stored headers |
| Bot.LogoutIgnoresHost | src/client.ts:48 | the bot's logout address does not depend on its host, and differs from the plain client's logout for any other host |
| Bot.BotQuery | src/client.ts:53-64 | a GET of host plus path with the stored headers; each search key reads the last value given; distinct keys are sent verbatim |
| Bot.BotQueryMatchesQuery | src/client.ts:54-57 | the bot and the plain client address the same URL for the same host, path and parameters |
| Bot.Mapped | src/client.ts:73-86 | the row-by-row mapping inside `page.evaluate`, characterised by `Bot.CollectMapped` |
| Bot.Collect | src/client.ts:87 | dropping the nulls and surfacing the first error, characterised by `Bot.CollectMapped` |
| Bot.CollectMapped | src/client.ts:73-87 | map-every-row-then-drop-nulls computes the shared listing |
| Bot.BotListing | src/client.ts:73-87 | the browser client's listing equals the shared listing |
| Bot.ListStaff | src/client.ts:66-94 | `listStaff` equals `StaffService.list` on the same rows and `#sc3` cell |
| Bot.ListTicketsOfStaff | src/client.ts:96-120 | `listTicketsOfStaff` equals `StaffService.listTickets` on the same rows |
| Bot.FindShown | src/client.ts:129 | `find` returns the row at the first non-placeholder position, or nothing when there is none |
| Bot.GetTicket | src/client.ts:122-141 | `getTicket` equals `TicketService.get` on the same rows |
| Bot.BotRequestsMatchServices | src/client.ts:66-127 | the bot's three table queries address the same URLs as the services' |
| Parser.Date | src/utils/parser.ts:1-4 | the day is the first `-` piece as a number; a missing month or year is NaN; the month index is finite iff the month piece reads as a number, and is then one less |
| Parser.DateOfDigits | src/utils/parser.ts:2-3 | for `dd-mm-yyyy` with digit fields, optionally followed by `-…`, the result is (yyyy, mm − 1, dd) |
| Parser.DateOfNumbers | src/utils/parser.ts:2-3 | three dash-free fields that read as numbers give those numbers, with the month one less |
| Parser.DateFormatRoundTrip | src/utils/parser.ts:1-4 | formatting a day, month index and year as `d-m-yyyy`, without zero padding, and reading it back gives them again |
| Parser.DateFixture | src/utils/parser.ts:2-3 | `24-09-2025` gives (2025, 8, 24) |

## Left out

- Network I/O: `fetch` is not performed.  Requests are values and replies are parameters; only login and logout model a rejected `fetch`.
- URL percent-encoding: search parameters are kept as raw pairs, so `BaseService.SearchRoundTrip` requires keys and values free of `=` and `&` where they would be ambiguous.
- Browser automation: launching, `goto`, typing the credentials, `click` and `close` are not modelled.  `Bot.BrowserLogin` takes as parameters the button texts, whether the navigation arrived and the cookie jar.
- Bot.BrowserLogin: does not model a browser that fails before the navigation wait (a launch or `goto` failure); only the wait's failure is modelled.
- HTML and XML parsing and serialisation (`node-html-parser`, `fast-xml-parser`, `jstoxml`): replies arrive as parsed rows, blocks and reply shapes, and the envelope is a node tree, not text.
- CSS selection beyond the `.comment.expanded` class test: the `#sc3` cell, the `.internal` test and the `.timestamp`, `.author`, `.desc`, `.message` lookups are inputs of each element.
- `innerHTML` of `#sc3` and of `.message`: opaque strings.
- JavaScript `Number`: only blank text, optionally signed decimal integers and NaN are modelled; fractions, exponents, hexadecimal, `Infinity` and floating-point rounding are not.
- `Date` calendar arithmetic: `Parser.Date` stops at the three numbers handed to `new Date(year, monthIndex, day)`; normalisation of out-of-range days or months is not modelled.
- `fast-xml-parser` numeric conversion of an `error` text that looks like a number is not modelled.
- Case-insensitive merging of HTTP header names: headers are compared by exact name.
- The type-only files src/types.ts, src/services/auth.types.ts, src/services/ticket.types.ts and src/services/types.ts, and the factory in src/index.ts, have no behaviour to model.
- Duplicate-session recovery, a login status and `isLoggedIn` do not exist in the code and are not modelled.
- Integer-like keys: JavaScript enumerates an object's integer-like keys before its other keys, whatever the insertion order.  Every object whose entries the code enumerates (the `executeAction` parameters, the `query` parameters, the header records) has only non-numeric names such as `action`, `name`, `uniqueid`, `queryid` and `Cookie`, so the model's sequences hold them in insertion order and do not reorder integer-like keys.
- Bot.Logout: the reply is ignored by the code, so the model describes only the request.
