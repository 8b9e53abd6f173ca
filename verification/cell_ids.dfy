/**
 * Cell identities. A cell at row `i`, column `j` is named by the string
 * `n:i:j` (both numbers in decimal), and the path reconstructor reads a
 * predecessor's position back out of such a name with
 * `split(":").slice(1).map(Number)`.
 */
module CellIds {
  import opened Wrappers

  predicate IsDigit(ch: char) { '0' <= ch <= '9' }

  predicate AllDigits(s: string) { forall k :: 0 <= k < |s| ==> IsDigit(s[k]) }

  function DigitChar(d: nat): (ch: char)
    requires d < 10
    ensures IsDigit(ch) && DigitValue(ch) == d
  {
    ('0' as int + d) as char
  }

  function DigitValue(ch: char): nat
    requires IsDigit(ch)
  {
    ch as int - '0' as int
  }

  /** `${n}` for a non-negative integer: its decimal digits, no leading zero. */
  function Decimal(n: nat): (s: string)
    ensures |s| >= 1 && AllDigits(s)
  {
    if n < 10 then [DigitChar(n)] else Decimal(n / 10) + [DigitChar(n % 10)]
  }

  /** The value of a string of decimal digits, most significant first. */
  function DecimalValue(s: string): nat
    requires AllDigits(s)
  {
    if s == [] then 0 else DecimalValue(s[..|s| - 1]) * 10 + DigitValue(s[|s| - 1])
  }

  /**
   * JavaScript's `Number(s)` on the strings that occur here: a string of
   * decimal digits denotes its value (the empty string denotes 0), any other
   * string is `NaN`, written `None`.
   */
  function NumberOf(s: string): Option<nat>
  {
    if AllDigits(s) then Some(DecimalValue(s)) else None
  }

  /** `s.split(sep)` for a one-character separator: the fields between separators, at least one. */
  function Split(s: string, sep: char): (fields: seq<string>)
    ensures |fields| >= 1
  {
    if s == [] then [[]]
    else
      var rest := Split(s[1..], sep);
      if s[0] == sep then [[]] + rest else [[s[0]] + rest[0]] + rest[1..]
  }

  /** The identity `n:${i}:${j}` given to the cell at row `i`, column `j`. */
  function IdOf(i: nat, j: nat): string
  {
    "n:" + Decimal(i) + ":" + Decimal(j)
  }

  /** `id.split(":").slice(1).map(Number)`: the numbers after the first field. */
  function BacktrackIndices(id: string): (ix: seq<Option<nat>>)
    ensures |ix| == |Split(id, ':')| - 1
  {
    var fields := Split(id, ':');
    seq(|fields| - 1, k requires 0 <= k < |fields| - 1 => NumberOf(fields[k + 1]))
  }

  lemma {:induction false} DecimalRoundTrip(n: nat)
    ensures NumberOf(Decimal(n)) == Some(n)
  {
    if n >= 10 {
      var s := Decimal(n);
      assert s[..|s| - 1] == Decimal(n / 10);
      DecimalRoundTrip(n / 10);
      assert DecimalValue(s) == (n / 10) * 10 + n % 10;
    }
  }

  lemma {:induction false} SplitWithoutSeparator(a: string, sep: char)
    requires sep !in a
    ensures Split(a, sep) == [a]
  {
    if a != [] {
      SplitWithoutSeparator(a[1..], sep);
      assert [a[0]] + a[1..] == a;
    }
  }

  lemma {:induction false} SplitAtFirstSeparator(a: string, b: string, sep: char)
    requires sep !in a
    ensures Split(a + [sep] + b, sep) == [a] + Split(b, sep)
  {
    if a == [] {
      assert a + [sep] + b == [sep] + b;
      assert ([sep] + b)[1..] == b;
    } else {
      assert (a + [sep] + b)[1..] == a[1..] + [sep] + b;
      SplitAtFirstSeparator(a[1..], b, sep);
      assert [a[0]] + a[1..] == a;
    }
  }

  lemma DigitsHaveNoColon(s: string)
    requires AllDigits(s)
    ensures ':' !in s
  {
  }

  /** Splitting an identity yields exactly its three fields. */
  lemma IdFields(i: nat, j: nat)
    ensures Split(IdOf(i, j), ':') == ["n", Decimal(i), Decimal(j)]
  {
    var di, dj := Decimal(i), Decimal(j);
    DigitsHaveNoColon(di);
    DigitsHaveNoColon(dj);
    assert IdOf(i, j) == "n" + [':'] + (di + [':'] + dj);
    SplitAtFirstSeparator("n", di + [':'] + dj, ':');
    SplitAtFirstSeparator(di, dj, ':');
    SplitWithoutSeparator(dj, ':');
  }

  /** Reading an identity back gives the position it was built from. */
  lemma IdRoundTrip(i: nat, j: nat)
    ensures BacktrackIndices(IdOf(i, j)) == [Some(i), Some(j)]
  {
    IdFields(i, j);
    DecimalRoundTrip(i);
    DecimalRoundTrip(j);
  }

  /** Distinct positions get distinct identities. */
  lemma IdInjective(i: nat, j: nat, i': nat, j': nat)
    requires IdOf(i, j) == IdOf(i', j')
    ensures i == i' && j == j'
  {
    IdRoundTrip(i, j);
    IdRoundTrip(i', j');
  }
}
