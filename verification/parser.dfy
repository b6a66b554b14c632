/**
  The date helper of src/utils/parser.ts: a `dd-mm-yyyy` text becomes the
  arguments `new Date(year, monthIndex, day)` receives.  The calendar
  arithmetic `Date` then performs is not modelled; the model stops at the
  three numbers.
 */
module Parser {
  import opened Results
  import opened Text

  /** The arguments handed to `new Date(year, monthIndex, day)`. */
  datatype DateArgs = DateArgs(year: Num, monthIndex: Num, day: Num)

  /** Array destructuring: the `i`-th piece, or `undefined` past the end. */
  function Piece(parts: seq<string>, i: nat): Option<string> {
    if i < |parts| then Some(parts[i]) else None
  }

  /**
    `date(value)`: split on `-`, read day, month and year by position,
    and pass the month on one less, as JavaScript's months count from 0.
   */
  function Date(value: string): (d: DateArgs)
    ensures var parts := Split(value, '-');
            d.day == ToNumber(parts[0])
            && (|parts| < 2 ==> d.monthIndex == NaN)
            && (|parts| < 3 ==> d.year == NaN)
    ensures d.monthIndex.Finite? <==> OptionalToNumber(Piece(Split(value, '-'), 1)).Finite?
    ensures d.monthIndex.Finite? ==> d.monthIndex.value + 1 == OptionalToNumber(Piece(Split(value, '-'), 1)).value
  {
    var parts := Split(value, '-');
    DateArgs(OptionalToNumber(Piece(parts, 2)), OptionalToNumber(Piece(parts, 1)).Pred(), OptionalToNumber(Piece(parts, 0)))
  }

  /**
    The three numbers `Date` yields written out as `d-m-yyyy`: plain decimal
    fields without zero padding, which `Number` reads back all the same.
   */
  function Format(year: nat, monthIndex: int, day: nat): string
    requires monthIndex >= -1
  {
    IntToDecimal(day) + "-" + IntToDecimal(monthIndex + 1) + "-" + IntToDecimal(year)
  }

  lemma DigitsHaveNoDash(s: string)
    requires IsDigits(s)
    ensures '-' !in s
  {
    forall i | 0 <= i < |s|
      ensures s[i] != '-'
    {
      assert IsDigit(s[i]);
    }
  }

  lemma SplitAtDash(p: string, rest: string)
    requires '-' !in p
    ensures Split(p + "-" + rest, '-') == [p] + Split(rest, '-')
  {
    assert p + "-" + rest == p + ['-'] + rest;
    SplitAfterPiece(p, '-', rest);
  }

  /** The first two pieces of `dd-mm-…`, and the pieces of the rest. */
  lemma SplitTwoFields(dd: string, mm: string, tail: string)
    requires '-' !in dd && '-' !in mm
    ensures Split(dd + "-" + (mm + "-" + tail), '-') == [dd, mm] + Split(tail, '-')
  {
    var y := mm + "-" + tail;
    var xs := Split(tail, '-');
    var ys := Split(y, '-');
    SplitAtDash(mm, tail);
    assert ys == [mm] + xs;
    SplitAtDash(dd, y);
    assert Split(dd + "-" + y, '-') == [dd] + ys;
    assert [dd] + ([mm] + xs) == [dd, mm] + xs;
  }

  /** A year followed by nothing or by a further `-…` is the first piece of what follows the month. */
  lemma SplitYear(yyyy: string, rest: string)
    requires '-' !in yyyy
    requires rest == "" || rest[0] == '-'
    ensures Split(yyyy + rest, '-')[0] == yyyy
  {
    if rest == "" {
      assert yyyy + rest == yyyy;
    } else {
      assert yyyy + rest == yyyy + "-" + rest[1..];
      SplitAtDash(yyyy, rest[1..]);
    }
  }

  /** The first three pieces of `dd-mm-yyyy` followed by nothing or by a further `-…`. */
  lemma SplitFields(dd: string, mm: string, yyyy: string, rest: string)
    requires '-' !in dd && '-' !in mm && '-' !in yyyy
    requires rest == "" || rest[0] == '-'
    ensures var parts := Split(dd + "-" + mm + "-" + yyyy + rest, '-');
            |parts| >= 3 && parts[0] == dd && parts[1] == mm && parts[2] == yyyy
  {
    var tail := yyyy + rest;
    var v := dd + "-" + mm + "-" + yyyy + rest;
    var w := dd + "-" + (mm + "-" + tail);
    assert v == w;
    var xs := Split(tail, '-');
    SplitTwoFields(dd, mm, tail);
    SplitYear(yyyy, rest);
    PiecesOfTwoFields(dd, mm, xs);
  }

  lemma PiecesOfTwoFields(dd: string, mm: string, xs: seq<string>)
    requires |xs| >= 1
    ensures var parts := [dd, mm] + xs;
            |parts| >= 3 && parts[0] == dd && parts[1] == mm && parts[2] == xs[0]
  {
  }

  /** The date of a text whose first three pieces are known. */
  lemma DateOfPieces(value: string, dd: string, mm: string, yyyy: string)
    requires var parts := Split(value, '-');
             |parts| >= 3 && parts[0] == dd && parts[1] == mm && parts[2] == yyyy
    ensures Date(value) == DateArgs(ToNumber(yyyy), ToNumber(mm).Pred(), ToNumber(dd))
  {
  }

  /** Three dash-free fields followed by nothing or by a further `-…` are read by position. */
  lemma DateOfFields(dd: string, mm: string, yyyy: string, rest: string)
    requires '-' !in dd && '-' !in mm && '-' !in yyyy
    requires rest == "" || rest[0] == '-'
    ensures Date(dd + "-" + mm + "-" + yyyy + rest) == DateArgs(ToNumber(yyyy), ToNumber(mm).Pred(), ToNumber(dd))
  {
    SplitFields(dd, mm, yyyy, rest);
    DateOfPieces(dd + "-" + mm + "-" + yyyy + rest, dd, mm, yyyy);
  }

  /**
    Digit fields read as their values, whatever their leading zeros, and
    anything after a third `-` is ignored.
   */
  lemma DateOfDigits(dd: string, mm: string, yyyy: string, rest: string)
    requires |dd| >= 1 && IsDigits(dd) && |mm| >= 1 && IsDigits(mm) && |yyyy| >= 1 && IsDigits(yyyy)
    requires rest == "" || rest[0] == '-'
    ensures Date(dd + "-" + mm + "-" + yyyy + rest)
            == DateArgs(Finite(DecimalValue(yyyy)), Finite(DecimalValue(mm) - 1), Finite(DecimalValue(dd)))
  {
    var y, m, d := DecimalValue(yyyy), DecimalValue(mm), DecimalValue(dd);
    assert '-' !in yyyy && ToNumber(yyyy) == Finite(y) by { DigitsRead(yyyy); }
    assert '-' !in mm && ToNumber(mm) == Finite(m) by { DigitsRead(mm); }
    assert '-' !in dd && ToNumber(dd) == Finite(d) by { DigitsRead(dd); }
    DateOfNumbers(dd, mm, yyyy, rest, y, m, d);
  }

  /** A run of digits holds no `-` and reads as its value. */
  lemma DigitsRead(s: string)
    requires |s| >= 1 && IsDigits(s)
    ensures '-' !in s
    ensures ToNumber(s) == Finite(DecimalValue(s))
  {
    DigitsHaveNoDash(s);
    DigitsToNumber(s);
  }

  /** Three dash-free fields that read as numbers give those numbers, the month one less. */
  lemma DateOfNumbers(dd: string, mm: string, yyyy: string, rest: string, y: int, m: int, d: int)
    requires '-' !in dd && '-' !in mm && '-' !in yyyy
    requires rest == "" || rest[0] == '-'
    requires ToNumber(yyyy) == Finite(y) && ToNumber(mm) == Finite(m) && ToNumber(dd) == Finite(d)
    ensures Date(dd + "-" + mm + "-" + yyyy + rest) == DateArgs(Finite(y), Finite(m - 1), Finite(d))
  {
    DateOfFields(dd, mm, yyyy, rest);
  }

  /** Reading back a formatted date gives the numbers it was written from. */
  lemma DateFormatRoundTrip(year: nat, monthIndex: int, day: nat)
    requires monthIndex >= -1
    ensures Date(Format(year, monthIndex, day)) == DateArgs(Finite(year), Finite(monthIndex), Finite(day))
  {
    var m: nat := monthIndex + 1;
    NatToDecimalValue(day);
    NatToDecimalValue(m);
    NatToDecimalValue(year);
    DateOfDigits(IntToDecimal(day), IntToDecimal(m), IntToDecimal(year), "");
    assert Format(year, monthIndex, day) == IntToDecimal(day) + "-" + IntToDecimal(m) + "-" + IntToDecimal(year) + "";
  }

  /** The date of 24 September 2025, as the server writes it. */
  lemma DateFixture()
    ensures Date("24-09-2025") == DateArgs(Finite(2025), Finite(8), Finite(24))
  {
    var dd, mm, yyyy := "24", "09", "2025";
    assert dd + "-" + mm + "-" + yyyy + "" == "24-09-2025";
    assert DecimalValue(dd[..1]) == 2;
    assert DecimalValue(dd) == 24;
    assert DecimalValue(mm[..1]) == 0;
    assert DecimalValue(mm) == 9;
    assert DecimalValue(yyyy[..1]) == 2;
    assert yyyy[..2][..1] == yyyy[..1];
    assert DecimalValue(yyyy[..2]) == 20;
    assert yyyy[..3][..2] == yyyy[..2];
    assert DecimalValue(yyyy[..3]) == 202;
    assert yyyy[..4][..3] == yyyy[..3];
    assert DecimalValue(yyyy) == 2025;
    DateOfDigits(dd, mm, yyyy, "");
  }
}
