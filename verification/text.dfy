/**
  The string primitives the client leans on: `String.prototype.split` with a
  one-character separator, `Array.prototype.join`, `String.prototype.replace`
  with a string pattern, `String(n)` / `n.toString()` of an integer and the
  global `Number(text)` conversion restricted to integer literals.
 */
module Text {
  import opened Results

  // ---------------------------------------------------------------------------
  // Searching

  /** The position of the first `c` in `s`. */
  function IndexOf(s: string, c: char): (i: nat)
    requires c in s
    ensures i < |s| && s[i] == c
    ensures c !in s[..i]
  {
    if s[0] == c then 0
    else
      assert s == [s[0]] + s[1..];
      var j := IndexOf(s[1..], c);
      assert s[..1 + j] == [s[0]] + s[1..][..j];
      1 + j
  }

  /** The text before the first `c`, or all of `s` when there is none. */
  function TakeUntil(s: string, c: char): (p: string)
    ensures c !in p
    ensures p <= s
  {
    if c in s then s[..IndexOf(s, c)] else s
  }

  /** The text after the first `c`. */
  function After(s: string, c: char): (q: string)
    requires c in s
    ensures s == TakeUntil(s, c) + [c] + q
  {
    var i := IndexOf(s, c);
    assert s == s[..i] + [s[i]] + s[i + 1..];
    s[i + 1..]
  }

  /** The first `c` of `p + [c] + rest` is the one after `p` when `p` has none. */
  lemma FirstSeparator(p: string, c: char, rest: string)
    requires c !in p
    ensures c in p + [c] + rest
    ensures TakeUntil(p + [c] + rest, c) == p
    ensures After(p + [c] + rest, c) == rest
  {
    var s := p + [c] + rest;
    assert s[..|p|] == p;
    assert s[|p|] == c;
    var i := IndexOf(s, c);
    assert i <= |p| by {
      assert c in s[..|p| + 1];
    }
    assert i == |p|;
    assert s[..i] == p;
    assert s[i + 1..] == rest;
  }

  // ---------------------------------------------------------------------------
  // split / join

  /** `s.split(c)`: the maximal pieces between separators, left to right. */
  function Split(s: string, c: char): (parts: seq<string>)
    ensures |parts| >= 1
    ensures forall i :: 0 <= i < |parts| ==> c !in parts[i]
    ensures parts[0] == TakeUntil(s, c)
    decreases |s|
  {
    if c in s then
      var i := IndexOf(s, c);
      var rest := Split(s[i + 1..], c);
      assert forall k :: 1 <= k < |[s[..i]] + rest| ==> ([s[..i]] + rest)[k] == rest[k - 1];
      [s[..i]] + rest
    else [s]
  }

  /** `parts.join(sep)` for a one-character separator. */
  function Join(parts: seq<string>, c: char): string
    requires |parts| >= 1
  {
    if |parts| == 1 then parts[0] else parts[0] + [c] + Join(parts[1..], c)
  }

  /** Splitting a prefix without separators off a joined text. */
  lemma SplitAfterPiece(p: string, c: char, rest: string)
    requires c !in p
    ensures Split(p + [c] + rest, c) == [p] + Split(rest, c)
  {
    FirstSeparator(p, c, rest);
  }

  /** Joining the pieces of a split gives back the text. */
  lemma {:induction false} JoinSplit(s: string, c: char)
    ensures Join(Split(s, c), c) == s
    decreases |s|
  {
    if c in s {
      var rest := After(s, c);
      JoinSplit(rest, c);
      assert Split(s, c)[1..] == Split(rest, c);
    }
  }

  /** Splitting joined pieces that hold no separator gives back the pieces. */
  lemma {:induction false} SplitJoin(parts: seq<string>, c: char)
    requires |parts| >= 1
    requires forall i :: 0 <= i < |parts| ==> c !in parts[i]
    ensures Split(Join(parts, c), c) == parts
  {
    if |parts| > 1 {
      SplitJoin(parts[1..], c);
      SplitAfterPiece(parts[0], c, Join(parts[1..], c));
      assert parts == [parts[0]] + parts[1..];
    }
  }

  // ---------------------------------------------------------------------------
  // replace

  /** `s.replace(pat, rep)` with a string pattern: only the first occurrence is replaced. */
  function ReplaceFirst(s: string, pat: string, rep: string): string
    decreases |s|
  {
    if pat <= s then rep + s[|pat|..]
    else if s == [] then s
    else [s[0]] + ReplaceFirst(s[1..], pat, rep)
  }

  /** A text that starts with the pattern loses exactly that prefix. */
  lemma ReplaceLeadingPattern(pat: string, rest: string, rep: string)
    ensures ReplaceFirst(pat + rest, pat, rep) == rep + rest
  {
    assert pat <= pat + rest;
    assert (pat + rest)[|pat|..] == rest;
  }

  // ---------------------------------------------------------------------------
  // Decimal digits

  predicate IsDigit(c: char) {
    '0' <= c <= '9'
  }

  predicate IsDigits(s: string) {
    forall i :: 0 <= i < |s| ==> IsDigit(s[i])
  }

  /** The value of a run of decimal digits, most significant first. */
  function DecimalValue(s: string): nat
    requires IsDigits(s)
  {
    if s == [] then 0
    else 10 * DecimalValue(s[..|s| - 1]) + (s[|s| - 1] as int - '0' as int)
  }

  function DigitChar(d: nat): (c: char)
    requires d < 10
    ensures IsDigit(c) && c as int - '0' as int == d
  {
    ('0' as int + d) as char
  }

  /** The shortest decimal spelling of a natural number. */
  function NatToDecimal(n: nat): (s: string)
    ensures |s| >= 1 && IsDigits(s)
    ensures |s| > 1 ==> s[0] != '0'
  {
    if n < 10 then [DigitChar(n)] else NatToDecimal(n / 10) + [DigitChar(n % 10)]
  }

  /** `String(n)` for an integer `n`. */
  function IntToDecimal(n: int): string {
    if n < 0 then "-" + NatToDecimal(-n) else NatToDecimal(n)
  }

  lemma {:induction false} NatToDecimalValue(n: nat)
    ensures DecimalValue(NatToDecimal(n)) == n
  {
    if n >= 10 {
      NatToDecimalValue(n / 10);
      var s := NatToDecimal(n / 10) + [DigitChar(n % 10)];
      assert s[..|s| - 1] == NatToDecimal(n / 10);
    }
  }

  // ---------------------------------------------------------------------------
  // Number(text)

  /** The result of `Number(...)`: an integer, or NaN. */
  datatype Num = Finite(value: int) | NaN {

    /** `this - 1` in floating point, restricted to integers and NaN. */
    function Pred(): Num {
      match this
      case Finite(v) => Finite(v - 1)
      case NaN => NaN
    }
  }

  /** The characters `Number(text)` strips from both ends (white space and line terminators). */
  predicate IsJsSpace(c: char) {
    || c == ' ' || c == '\t' || c == '\n' || c == '\r'
    || c == '\U{000B}' || c == '\U{000C}' || c == '\U{00A0}' || c == '\U{1680}'
    || ('\U{2000}' <= c <= '\U{200A}')
    || c == '\U{2028}' || c == '\U{2029}' || c == '\U{202F}' || c == '\U{205F}'
    || c == '\U{3000}' || c == '\U{FEFF}'
  }

  function TrimStart(s: string): string
    decreases |s|
  {
    if |s| > 0 && IsJsSpace(s[0]) then TrimStart(s[1..]) else s
  }

  function TrimEnd(s: string): string
    decreases |s|
  {
    if |s| > 0 && IsJsSpace(s[|s| - 1]) then TrimEnd(s[..|s| - 1]) else s
  }

  function Trim(s: string): string {
    TrimEnd(TrimStart(s))
  }

  /**
    `Number(text)`: blank text is 0, an optionally signed run of decimal
    digits is its value, and everything else is NaN.
   */
  function ToNumber(s: string): Num {
    var t := Trim(s);
    if t == "" then Finite(0)
    else if IsDigits(t) then Finite(DecimalValue(t))
    else if |t| > 1 && t[0] == '-' && IsDigits(t[1..]) then Finite(-(DecimalValue(t[1..]) as int))
    else if |t| > 1 && t[0] == '+' && IsDigits(t[1..]) then Finite(DecimalValue(t[1..]))
    else NaN
  }

  /** `Number(x)` where `x` may be `undefined` (a missing attribute): NaN then. */
  function OptionalToNumber(o: Option<string>): Num {
    match o
    case Some(s) => ToNumber(s)
    case None => NaN
  }

  /** `Number(String(n)) == n` for every integer. */
  lemma DecimalRoundTrip(n: int)
    ensures ToNumber(IntToDecimal(n)) == Finite(n)
  {
    var s := IntToDecimal(n);
    var d := NatToDecimal(if n < 0 then -n else n);
    NatToDecimalValue(if n < 0 then -n else n);
    TrimKeeps(s);
    if n < 0 {
      assert s == "-" + d && s[1..] == d;
      assert !IsDigits(s) by {
        assert !IsDigit(s[0]);
      }
    }
  }

  /** Text that neither starts nor ends with white space is left alone by trimming. */
  lemma TrimKeeps(s: string)
    requires |s| >= 1 && (IsDigit(s[|s| - 1])) && (s[0] == '-' || IsDigit(s[0]))
    ensures Trim(s) == s
  {
    assert !IsJsSpace(s[0]) && !IsJsSpace(s[|s| - 1]);
  }

  /** `Number(digits)` reads a run of decimal digits, whatever its leading zeros. */
  lemma DigitsToNumber(s: string)
    requires |s| >= 1 && IsDigits(s)
    ensures ToNumber(s) == Finite(DecimalValue(s))
  {
    assert !IsJsSpace(s[0]) && !IsJsSpace(s[|s| - 1]);
    assert Trim(s) == s;
  }
}
