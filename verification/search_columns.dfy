/**
  The ticket table's searchable columns (src/services/ticket.config.ts):
  each field name with the column index the server's `searchcol`
  parameter expects, in declaration order.
 */
module SearchColumns {
  import opened Results

  const Columns: seq<(string, nat)> := [
    ("id", 2), ("searchName", 3), ("description", 4), ("p", 5), ("pi", 6),
    ("s", 7), ("as", 8), ("plannedFrom", 9), ("plannedUntil", 10), ("deadline", 11),
    ("updatedAt", 12), ("age", 13), ("eig", 14), ("hv", 15), ("involved", 16)
  ]

  /** The column of the first entry named `name` in `table`. */
  function ColumnIn(table: seq<(string, nat)>, name: string): (c: Option<nat>)
    ensures c.Some? ==> exists i :: 0 <= i < |table| && table[i] == (name, c.value)
    ensures c.None? <==> forall i :: 0 <= i < |table| ==> table[i].0 != name
  {
    if table == [] then None
    else if table[0].0 == name then Some(table[0].1)
    else
      var c := ColumnIn(table[1..], name);
      assert forall i :: 1 <= i < |table| ==> table[i] == table[1..][i - 1];
      c
  }

  /** The name of the first entry whose column is `column` in `table`. */
  function NameIn(table: seq<(string, nat)>, column: nat): (n: Option<string>)
    ensures n.Some? ==> exists i :: 0 <= i < |table| && table[i] == (n.value, column)
    ensures n.None? <==> forall i :: 0 <= i < |table| ==> table[i].1 != column
  {
    if table == [] then None
    else if table[0].1 == column then Some(table[0].0)
    else
      var n := NameIn(table[1..], column);
      assert forall i :: 1 <= i < |table| ==> table[i] == table[1..][i - 1];
      n
  }

  /** `SearchColumns[name]`. */
  function ColumnOf(name: string): Option<nat> {
    ColumnIn(Columns, name)
  }

  /** The field searched by a column index, when there is one. */
  function NameOf(column: nat): Option<string> {
    NameIn(Columns, column)
  }

  /** Fifteen columns whose indexes run 2, 3, …, 16 in declaration order. */
  lemma ColumnsConsecutive()
    ensures |Columns| == 15
    ensures forall i :: 0 <= i < |Columns| ==> Columns[i].1 == i + 2
    ensures forall i :: 0 <= i < |Columns| ==> 2 <= Columns[i].1 <= 16
  {
  }

  /** No two names share a column and no name occurs twice. */
  lemma ColumnsInjective()
    ensures forall i, j :: 0 <= i < j < |Columns| ==> Columns[i].1 != Columns[j].1
    ensures forall i, j :: 0 <= i < j < |Columns| ==> Columns[i].0 != Columns[j].0
  {
    ColumnsConsecutive();
  }

  /** Looking a listed name up gives its own column. */
  lemma ColumnOfRoundTrip(i: nat)
    requires i < |Columns|
    ensures ColumnOf(Columns[i].0) == Some(Columns[i].1)
  {
    ColumnsInjective();
    var c := ColumnOf(Columns[i].0);
    var j :| 0 <= j < |Columns| && Columns[j] == (Columns[i].0, c.value);
  }

  /** Looking a listed column up gives its own name. */
  lemma NameOfRoundTrip(i: nat)
    requires i < |Columns|
    ensures NameOf(Columns[i].1) == Some(Columns[i].0)
  {
    ColumnsInjective();
    var n := NameOf(Columns[i].1);
    var m :| 0 <= m < |Columns| && Columns[m] == (n.value, Columns[i].1);
  }

  /** Exactly the columns 2 to 16 name a field. */
  lemma NameOfRange(c: nat)
    ensures NameOf(c).Some? <==> 2 <= c <= 16
  {
    ColumnsConsecutive();
    if 2 <= c <= 16 {
      assert Columns[c - 2].1 == c;
    }
  }

  /** Looking a name up and back, or a column up and back, returns where it started. */
  lemma LookupRoundTrip()
    ensures forall i :: 0 <= i < |Columns| ==> ColumnOf(Columns[i].0) == Some(Columns[i].1)
    ensures forall i :: 0 <= i < |Columns| ==> NameOf(Columns[i].1) == Some(Columns[i].0)
    ensures forall c: nat :: NameOf(c).Some? <==> 2 <= c <= 16
  {
    forall i | 0 <= i < |Columns|
      ensures ColumnOf(Columns[i].0) == Some(Columns[i].1)
      ensures NameOf(Columns[i].1) == Some(Columns[i].0)
    {
      ColumnOfRoundTrip(i);
      NameOfRoundTrip(i);
    }
    forall c: nat
      ensures NameOf(c).Some? <==> 2 <= c <= 16
    {
      NameOfRange(c);
    }
  }

  /** `id` is column 2: the column a ticket lookup searches. */
  lemma IdColumn()
    ensures ColumnOf("id") == Some(2)
  {
    ColumnOfRoundTrip(0);
  }
}
