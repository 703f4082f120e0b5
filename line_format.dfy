/**
 The console line the byte stream inspector prints for one record
 (examples/byte_stream_inspector.py, `read`): the timestamp, two spaces, then one
 column per decoded value, each the value in decimal right-justified to width 7 (the
 format field `7d`) followed by a space.
 */
module LineFormat {

  predicate IsDigit(ch: char)
  {
    '0' <= ch <= '9'
  }

  function DigitChar(d: nat): (ch: char)
    requires d < 10
    ensures IsDigit(ch)
  {
    "0123456789"[d]
  }

  function DigitValue(ch: char): (d: nat)
    requires IsDigit(ch)
    ensures d < 10
  {
    ch as int - '0' as int
  }

  predicate AllDigits(s: string)
  {
    forall i :: 0 <= i < |s| ==> IsDigit(s[i])
  }

  /** The decimal digits of `n`, most significant first, without leading zeros. */
  function NatDigits(n: nat): (s: string)
    ensures 1 <= |s| && AllDigits(s)
    ensures |s| > 1 ==> s[0] != '0'
  {
    if n < 10 then [DigitChar(n)] else NatDigits(n / 10) + [DigitChar(n % 10)]
  }

  /** Text holding no line break. */
  predicate NoNewline(s: string)
  {
    forall i :: 0 <= i < |s| ==> s[i] != '\n'
  }

  lemma NoNewlineConcat(a: string, b: string)
    requires NoNewline(a) && NoNewline(b)
    ensures NoNewline(a + b)
  {
    forall i | 0 <= i < |a + b|
      ensures (a + b)[i] != '\n'
    {
      if i >= |a| {
        assert (a + b)[i] == b[i - |a|];
      }
    }
  }

  /** The 'd' presentation of an integer: an optional minus sign, then the digits. */
  function Decimal(v: int): string
  {
    if v < 0 then "-" + NatDigits(-v) else NatDigits(v)
  }

  /** The number a string of digits denotes. */
  function ParseNat(s: string): nat
    requires AllDigits(s)
  {
    if s == [] then 0 else ParseNat(s[..|s| - 1]) * 10 + DigitValue(s[|s| - 1])
  }

  /** The integer a 'd'-formatted string denotes. */
  function ParseDecimal(s: string): int
    requires (|s| > 0 && s[0] == '-' && AllDigits(s[1..])) || AllDigits(s)
  {
    if |s| > 0 && s[0] == '-' then -(ParseNat(s[1..]) as int) else ParseNat(s)
  }

  function Spaces(n: nat): (s: string)
    ensures |s| == n && forall i :: 0 <= i < n ==> s[i] == ' '
  {
    seq(n, _ => ' ')
  }

  /** One column: the value in decimal, padded on the left to width 7 (never truncated), then a space. */
  function Column(v: int): string
  {
    var d := Decimal(v);
    (if |d| < 7 then Spaces(7 - |d|) else "") + d + " "
  }

  /** The format string repeated once per value, filled in: one column per value, in order. */
  function Row(data: seq<int>): string
  {
    if data == [] then "" else Column(data[0]) + Row(data[1..])
  }

  /** The two print calls of `read`: the timestamp with end='  ', then the row and a newline. */
  function Line(stamp: string, data: seq<int>): string
  {
    stamp + "  " + Row(data) + "\n"
  }

  /** Reading a column back: drop the trailing space and the left padding, parse the rest. */
  function StripLeft(s: string): (r: string)
    ensures |r| <= |s| && r == s[|s| - |r|..]
    ensures r == [] || r[0] != ' '
  {
    if s != [] && s[0] == ' ' then StripLeft(s[1..]) else s
  }

  // ---------------------------------------------------------------------------------------
  // Decimal rendering is invertible

  lemma {:induction false} NatDigitsRoundTrip(n: nat)
    ensures ParseNat(NatDigits(n)) == n
  {
    if n >= 10 {
      var s := NatDigits(n);
      assert s[..|s| - 1] == NatDigits(n / 10);
      NatDigitsRoundTrip(n / 10);
    }
  }

  /** Parsing the 'd' rendering of any integer gives the integer back. */
  lemma DecimalRoundTrip(v: int)
    ensures ParseDecimal(Decimal(v)) == v
  {
    var n: nat := if v < 0 then -v else v;
    var d := NatDigits(n);
    NatDigitsRoundTrip(n);
    if v < 0 {
      assert Decimal(v) == "-" + d;
      ParseSigned(d);
    } else {
      assert Decimal(v) == d;
      ParseUnsigned(d);
    }
  }

  lemma ParseSigned(d: string)
    requires AllDigits(d)
    ensures ParseDecimal("-" + d) == -(ParseNat(d) as int)
  {
    assert ("-" + d)[1..] == d;
  }

  lemma ParseUnsigned(d: string)
    requires AllDigits(d) && d != []
    ensures ParseDecimal(d) == ParseNat(d)
  {
    assert IsDigit(d[0]);
  }

  /** A rendering is a minus sign exactly for a negative value, followed by at least one
      digit; it holds no line break. */
  lemma DecimalShape(v: int)
    ensures var s := Decimal(v);
            && 1 <= |s| && (s[0] == '-' <==> v < 0)
            && (v < 0 ==> 2 <= |s| && AllDigits(s[1..]))
            && (v >= 0 ==> AllDigits(s))
            && NoNewline(s)
  {
    var s := Decimal(v);
    if v < 0 {
      var d := NatDigits(-v);
      assert s == "-" + d && s[1..] == d;
      forall i | 0 <= i < |s| ensures s[i] != '\n' {
        if i > 0 {
          assert s[i] == d[i - 1];
        }
      }
    }
  }

  function Pow10(k: nat): (p: nat)
    ensures p >= 1
  {
    if k == 0 then 1 else 10 * Pow10(k - 1)
  }

  lemma {:induction false} NatDigitsLength(n: nat, k: nat)
    requires 1 <= k && n < Pow10(k)
    ensures |NatDigits(n)| <= k
  {
    if n >= 10 {
      assert k >= 2;
      NatDigitsLength(n / 10, k - 1);
    }
  }

  /** Every 16-bit value renders in at most six characters, sign included. */
  lemma DecimalWidth16(v: int)
    requires -32768 <= v <= 32767
    ensures |Decimal(v)| <= 6
  {
    assert Pow10(5) == 100000;
    if v < 0 {
      NatDigitsLength(-v, 5);
    } else {
      NatDigitsLength(v, 5);
    }
  }

  // ---------------------------------------------------------------------------------------
  // Column and row shape

  lemma StripSpaces(n: nat, d: string)
    requires d == [] || d[0] != ' '
    ensures StripLeft(Spaces(n) + d) == d
  {
    if n > 0 {
      assert (Spaces(n) + d)[1..] == Spaces(n - 1) + d;
      StripSpaces(n - 1, d);
    } else {
      assert Spaces(0) + d == d;
    }
  }

  /** A column is the value right-justified to width 7 and a trailing space, and it reads back as the value. */
  lemma ColumnShape(v: int)
    ensures |Column(v)| == (if |Decimal(v)| < 7 then 7 else |Decimal(v)|) + 1
    ensures Column(v)[|Column(v)| - 1] == ' '
    ensures NoNewline(Column(v))
    ensures forall i :: 0 <= i < |Column(v)| - 1 - |Decimal(v)| ==> Column(v)[i] == ' '
    ensures Column(v)[|Column(v)| - 1 - |Decimal(v)|..|Column(v)| - 1] == Decimal(v)
    ensures StripLeft(Column(v)[..|Column(v)| - 1]) == Decimal(v)
  {
    var d := Decimal(v);
    DecimalShape(v);
    var n := if |d| < 7 then 7 - |d| else 0;
    var c := Spaces(n) + d + " ";
    assert Spaces(0) == "";
    assert Column(v) == c;
    PaddedParts(n, d);
    assert |c| - 1 - |d| == n;
  }

  /** The parts of `n` spaces, then `d`, then a space, for a `d` that starts with no space. */
  lemma PaddedParts(n: nat, d: string)
    requires 1 <= |d| && d[0] != ' ' && NoNewline(d)
    ensures var c := Spaces(n) + d + " ";
            && |c| == n + |d| + 1
            && c[|c| - 1] == ' '
            && NoNewline(c)
            && (forall i :: 0 <= i < n ==> c[i] == ' ')
            && c[n..n + |d|] == d
            && StripLeft(c[..|c| - 1]) == d
  {
    var pad := Spaces(n);
    var c := pad + d + " ";
    assert c[..|c| - 1] == pad + d;
    assert c[n..n + |d|] == d;
    forall i | 0 <= i < n ensures c[i] == ' ' {
      assert c[i] == pad[i];
    }
    StripSpaces(n, d);
    NoNewlineConcat(pad, d);
    NoNewlineConcat(pad + d, " ");
  }

  /** Reading a column back yields the value it shows. */
  lemma ColumnRoundTrip(v: int)
    ensures var t := StripLeft(Column(v)[..|Column(v)| - 1]);
            ((|t| > 0 && t[0] == '-' && AllDigits(t[1..])) || AllDigits(t)) && ParseDecimal(t) == v
  {
    ColumnShape(v);
    DecimalRoundTrip(v);
    if v < 0 {
      assert Decimal(v)[1..] == NatDigits(-v);
    }
  }

  /** Every value at most seven characters wide, so that each column is exactly 8 characters. */
  predicate Narrow(data: seq<int>)
  {
    forall i :: 0 <= i < |data| ==> |Decimal(data[i])| <= 7
  }

  lemma ColumnWidth(v: int)
    requires |Decimal(v)| <= 7
    ensures |Column(v)| == 8
  {
    ColumnShape(v);
  }

  /** Behind an 8-character head, slice k of the tail is slice k + 1 of the whole. */
  lemma SliceRight(head: string, tail: string, col: string, k: nat)
    requires |head| == 8 && 8 * k + 8 <= |tail| && tail[8 * k..8 * k + 8] == col
    ensures (head + tail)[8 * (k + 1)..8 * (k + 1) + 8] == col
  {
    assert (head + tail)[8 * (k + 1)..8 * (k + 1) + 8] == tail[8 * k..8 * k + 8];
  }

  lemma NarrowTail(data: seq<int>)
    requires Narrow(data) && data != []
    ensures Narrow(data[1..])
  {
    forall i | 0 <= i < |data| - 1 ensures |Decimal(data[1..][i])| <= 7 {
      assert data[1..][i] == data[i + 1];
    }
  }

  /** With narrow values the row is 8 characters per value. */
  lemma {:induction false} RowLength(data: seq<int>)
    requires Narrow(data)
    ensures |Row(data)| == 8 * |data|
  {
    if data != [] {
      ColumnWidth(data[0]);
      NarrowTail(data);
      RowLength(data[1..]);
    }
  }

  /** With narrow values, the k-th 8-character slice of the row is the k-th value's column. */
  lemma {:induction false} RowColumns(data: seq<int>, k: nat)
    requires Narrow(data)
    requires k < |data|
    ensures |Row(data)| == 8 * |data|
    ensures Row(data)[8 * k..8 * k + 8] == Column(data[k])
  {
    RowLength(data);
    ColumnWidth(data[0]);
    var c := Column(data[0]);
    var rest := Row(data[1..]);
    assert Row(data) == c + rest;
    if k == 0 {
      assert (c + rest)[0..8] == c;
    } else {
      NarrowTail(data);
      RowColumns(data[1..], k - 1);
      assert data[1..][k - 1] == data[k];
      SliceRight(c, rest, Column(data[k]), k - 1);
    }
  }

  /** A line of narrow values is the stamp, two spaces, one 8-character column per value (the
      k-th showing value k) and a newline. */
  lemma LineShape(stamp: string, data: seq<int>, k: nat)
    requires Narrow(data) && k < |data|
    ensures var line := Line(stamp, data);
            && |line| == |stamp| + 2 + 8 * |data| + 1
            && line[..|stamp| + 2] == stamp + "  "
            && line[|stamp| + 2 + 8 * k..|stamp| + 2 + 8 * k + 8] == Column(data[k])
            && line[|line| - 1] == '\n'
  {
    RowColumns(data, k);
    LineParts(stamp, Row(data), Column(data[k]), |data|, k);
  }

  lemma LineParts(stamp: string, row: string, column: string, n: nat, k: nat)
    requires |row| == 8 * n && k < n && row[8 * k..8 * k + 8] == column
    ensures var line := stamp + "  " + row + "\n";
            && |line| == |stamp| + 2 + 8 * n + 1
            && line[..|stamp| + 2] == stamp + "  "
            && line[|stamp| + 2 + 8 * k..|stamp| + 2 + 8 * k + 8] == column
            && line[|line| - 1] == '\n'
  {
    var line := stamp + "  " + row + "\n";
    assert line == (stamp + "  ") + (row + "\n");
    assert (row + "\n")[8 * k..8 * k + 8] == row[8 * k..8 * k + 8];
  }

  /** A row holds no line break. */
  lemma {:induction false} RowNoNewline(data: seq<int>)
    ensures NoNewline(Row(data))
  {
    if data != [] {
      ColumnShape(data[0]);
      RowNoNewline(data[1..]);
      NoNewlineConcat(Column(data[0]), Row(data[1..]));
    }
  }

  /** The two print calls end one console line: with a stamp holding no line break, the line's
      only line break is its last character. */
  lemma LineBreaks(stamp: string, data: seq<int>)
    requires NoNewline(stamp)
    ensures var line := Line(stamp, data);
            && line[|line| - 1] == '\n'
            && NoNewline(line[..|line| - 1])
  {
    var row := Row(data);
    RowNoNewline(data);
    NoNewlineConcat(stamp, "  ");
    NoNewlineConcat(stamp + "  ", row);
    var line := Line(stamp, data);
    assert line == stamp + "  " + row + "\n";
    assert line[..|line| - 1] == stamp + "  " + row;
  }
}
