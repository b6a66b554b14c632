/**
  The row-selection rules every table query shares (src/services/staff.ts,
  src/services/ticket.ts and their copies in src/client.ts).

  A query answers with an HTML table; the model receives its `tr`
  elements in document order, each as its attributes and the text of its
  `td` cells.  Listings skip positions 0 and 1 (header rows) and every
  placeholder row marked `empty="true"`; a single lookup takes the first
  row that is not a placeholder, header or not.
 */
module Rows {
  import opened Results

  /** The page every table query is sent to. */
  const TablePage := "/jsp/atsc/UITableIFrame.jsp"

  datatype Row = Row(attrs: map<string, string>, cells: seq<string>)

  /** `tr.getAttribute(name)`: `undefined` when the row lacks the attribute. */
  function Attr(r: Row, name: string): Option<string> {
    if name in r.attrs then Some(r.attrs[name]) else None
  }

  /** A "no results" row: `getAttribute("empty") === "true"`. */
  predicate IsPlaceholder(r: Row) {
    Attr(r, "empty") == Some("true")
  }

  /** A listing decodes the row at position `i` exactly when this holds. */
  predicate Listed(rows: seq<Row>, i: int) {
    2 <= i < |rows| && !IsPlaceholder(rows[i])
  }

  /** The listed positions from `from` on, in ascending order. */
  function ListedFrom(rows: seq<Row>, from: nat): (ps: seq<nat>)
    ensures forall i :: i in ps <==> from <= i && Listed(rows, i)
    ensures forall k :: 0 <= k < |ps| ==> from <= ps[k] < |rows|
    ensures forall a, b :: 0 <= a < b < |ps| ==> ps[a] < ps[b]
    decreases |rows| - from
  {
    if from >= |rows| then []
    else
      var rest := ListedFrom(rows, from + 1);
      assert forall k :: 0 <= k < |rest| ==> rest[k] in rest;
      (if Listed(rows, from) then [from] else []) + rest
  }

  /** The rows a listing decodes, from position `from` on, in server order. */
  function KeptFrom(rows: seq<Row>, from: nat): seq<Row>
    decreases |rows| - from
  {
    if from >= |rows| then []
    else (if Listed(rows, from) then [rows[from]] else []) + KeptFrom(rows, from + 1)
  }

  /** The rows a listing decodes. */
  function Kept(rows: seq<Row>): seq<Row> {
    KeptFrom(rows, 0)
  }

  /** `kept` holds the elements of `rows` at positions `ps`, in that order. */
  predicate AtPositions<T(==)>(kept: seq<T>, rows: seq<T>, ps: seq<nat>) {
    |kept| == |ps| && forall k :: 0 <= k < |ps| ==> ps[k] < |rows| && kept[k] == rows[ps[k]]
  }

  lemma AtPositionsCons<T>(kept: seq<T>, rows: seq<T>, ps: seq<nat>, p: nat)
    requires AtPositions(kept, rows, ps) && p < |rows|
    ensures AtPositions([rows[p]] + kept, rows, [p] + ps)
  {
    assert forall k :: 1 <= k <= |ps| ==> ([p] + ps)[k] == ps[k - 1] && ([rows[p]] + kept)[k] == kept[k - 1];
  }

  /** The kept rows are the rows at the listed positions, in ascending order. */
  lemma {:induction false} KeptAtListed(rows: seq<Row>, from: nat)
    ensures AtPositions(KeptFrom(rows, from), rows, ListedFrom(rows, from))
    decreases |rows| - from
  {
    if from < |rows| {
      KeptAtListed(rows, from + 1);
      var rest, keptRest := ListedFrom(rows, from + 1), KeptFrom(rows, from + 1);
      if Listed(rows, from) {
        assert ListedFrom(rows, from) == [from] + rest;
        assert KeptFrom(rows, from) == [rows[from]] + keptRest;
        AtPositionsCons(keptRest, rows, rest, from);
      } else {
        assert ListedFrom(rows, from) == rest;
        assert KeptFrom(rows, from) == keptRest;
      }
    }
  }

  /**
    Listing rows: every kept row is a non-placeholder from position 2 on,
    every such row is kept, and they keep their server order.
   */
  lemma KeptRows(rows: seq<Row>)
    ensures var ps := ListedFrom(rows, 0);
            && |Kept(rows)| == |ps|
            && (forall k :: 0 <= k < |ps| ==> 2 <= ps[k] < |rows| && Kept(rows)[k] == rows[ps[k]])
            && (forall a, b :: 0 <= a < b < |ps| ==> ps[a] < ps[b])
            && (forall i :: Listed(rows, i) <==> i in ps)
    ensures forall k :: 0 <= k < |Kept(rows)| ==> !IsPlaceholder(Kept(rows)[k])
    ensures |Kept(rows)| <= if |rows| < 2 then 0 else |rows| - 2
  {
    var ps := ListedFrom(rows, 0);
    KeptAtListed(rows, 0);
    assert forall k :: 0 <= k < |ps| ==> ps[k] in ps;
    PositionsBound(ps, 2, |rows|);
  }

  /** An ascending run of positions within `lo .. hi - 1` has at most `hi - lo` members. */
  lemma {:induction false} PositionsBound(ps: seq<nat>, lo: nat, hi: nat)
    requires forall a, b :: 0 <= a < b < |ps| ==> ps[a] < ps[b]
    requires forall k :: 0 <= k < |ps| ==> lo <= ps[k] < hi
    ensures |ps| <= if hi < lo then 0 else hi - lo
    decreases |ps|
  {
    if ps != [] {
      PositionsBound(ps[1..], ps[0] + 1, hi);
    }
  }

  /**
    Decoding rows one after the other: every row is decoded in order, and
    the first decoding failure aborts the whole run.
   */
  function DecodeAll<T>(kept: seq<Row>, decode: Row -> Result<T>): (r: Result<seq<T>>)
    ensures r.Ok? <==> forall k :: 0 <= k < |kept| ==> decode(kept[k]).Ok?
    ensures r.Ok? ==> |r.value| == |kept| && forall k :: 0 <= k < |kept| ==> decode(kept[k]) == Ok(r.value[k])
    ensures r.Err? ==> exists k :: 0 <= k < |kept| && decode(kept[k]) == Err(r.error)
                                   && forall j :: 0 <= j < k ==> decode(kept[j]).Ok?
  {
    if kept == [] then Ok([])
    else
      match decode(kept[0])
      case Err(e) => Err(e)
      case Ok(x) =>
        var rest := DecodeAll(kept[1..], decode);
        assert forall k :: 1 <= k < |kept| ==> kept[k] == kept[1..][k - 1];
        match rest
        case Err(e) =>
          var k :| 0 <= k < |kept[1..]| && decode(kept[1..][k]) == Err(e)
                   && forall j :: 0 <= j < k ==> decode(kept[1..][j]).Ok?;
          assert decode(kept[k + 1]) == Err(e);
          Err(e)
        case Ok(xs) => Ok([x] + xs)
  }

  /**
    `trs.map(...).filter(v => v !== null)`: header and placeholder rows
    yield nothing, the kept rows are decoded in order, and the first
    decoding failure aborts the whole listing.
   */
  function Listing<T>(rows: seq<Row>, decode: Row -> Result<T>): (r: Result<seq<T>>)
    ensures r.Ok? <==> forall k :: 0 <= k < |Kept(rows)| ==> decode(Kept(rows)[k]).Ok?
    ensures r.Ok? ==> |r.value| == |Kept(rows)|
                      && forall k :: 0 <= k < |r.value| ==> decode(Kept(rows)[k]) == Ok(r.value[k])
    ensures r.Err? ==> exists k :: 0 <= k < |Kept(rows)| && decode(Kept(rows)[k]) == Err(r.error)
                                   && forall j :: 0 <= j < k ==> decode(Kept(rows)[j]).Ok?
  {
    DecodeAll(Kept(rows), decode)
  }

  /** A listing depends on nothing but the kept rows. */
  lemma ListingOfKept<T>(rows: seq<Row>, other: seq<Row>, decode: Row -> Result<T>)
    requires Kept(rows) == Kept(other)
    ensures Listing(rows, decode) == Listing(other, decode)
  {
    var a, b := Listing(rows, decode), Listing(other, decode);
    if a.Ok? {
      assert a.value == b.value;
    } else {
      var k :| 0 <= k < |Kept(rows)| && decode(Kept(rows)[k]) == Err(a.error)
               && forall j :: 0 <= j < k ==> decode(Kept(rows)[j]).Ok?;
      var m :| 0 <= m < |Kept(rows)| && decode(Kept(rows)[m]) == Err(b.error)
               && forall j :: 0 <= j < m ==> decode(Kept(rows)[j]).Ok?;
      assert decode(Kept(rows)[k]).Err? && decode(Kept(rows)[m]).Err?;
      assert k == m;
    }
  }

  /** `trs.find(tr => tr.getAttribute("empty") !== "true")`, as a position, from `from` on. */
  function FirstShownFrom(rows: seq<Row>, from: nat): (i: Option<nat>)
    ensures i.Some? ==> from <= i.value < |rows| && !IsPlaceholder(rows[i.value])
                        && forall j :: from <= j < i.value ==> IsPlaceholder(rows[j])
    ensures i.None? <==> forall j :: from <= j < |rows| ==> IsPlaceholder(rows[j])
    decreases |rows| - from
  {
    if from >= |rows| then None
    else if !IsPlaceholder(rows[from]) then Some(from)
    else FirstShownFrom(rows, from + 1)
  }

  /** The row a single lookup decodes: the first non-placeholder, counting from position 0. */
  function FirstShown(rows: seq<Row>): (i: Option<nat>)
    ensures i.Some? ==> i.value < |rows| && !IsPlaceholder(rows[i.value])
                        && forall j :: 0 <= j < i.value ==> IsPlaceholder(rows[j])
    ensures i.None? <==> forall j :: 0 <= j < |rows| ==> IsPlaceholder(rows[j])
  {
    FirstShownFrom(rows, 0)
  }

  /**
    The two rules differ on header rows: two rows without an `empty`
    attribute give an empty listing, yet a lookup takes the first of them.
   */
  lemma LookupDoesNotSkipHeaders(h: Row)
    requires !IsPlaceholder(h)
    ensures Kept([h, h]) == []
    ensures FirstShown([h, h]) == Some(0)
  {
    assert KeptFrom([h, h], 2) == [];
    assert KeptFrom([h, h], 1) == [];
  }
}
