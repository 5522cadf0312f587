/** The report loses nothing: equal reports of a category come from equal sheets. */
module ReportLaws {
  import opened Operations
  import opened Accounting
  import opened Report

  // Decimal notation and padding

  function Pow10(n: nat): nat {
    if n == 0 then 1 else 10 * Pow10(n - 1)
  }

  function ValueOf(s: string): int {
    if s == "" then 0 else 10 * ValueOf(s[..|s| - 1]) + (s[|s| - 1] as int - '0' as int)
  }

  ghost predicate NoSpaces(s: string) {
    ' ' !in s
  }

  /** Reading a printed number gives it back; it is never empty and has no blanks. */
  lemma {:induction false} DigitsRoundTrip(n: nat)
    ensures ValueOf(Digits(n)) == n && Digits(n) != "" && NoSpaces(Digits(n))
  {
    if n < 10 {
      assert Digits(n)[..0] == "";
    } else {
      DigitsRoundTrip(n / 10);
      assert Digits(n)[..|Digits(n)| - 1] == Digits(n / 10);
    }
  }

  lemma {:induction false} DigitsWidth(n: nat, width: nat)
    requires width > 0 && n < Pow10(width)
    ensures |Digits(n)| <= width
  {
    if n >= 10 {
      assert Pow10(1) == 10 * Pow10(0);
      DigitsWidth(n / 10, width - 1);
    }
  }

  /** The padding of the shorter text is a blank where the longer one begins. */
  lemma LengthShows(a: string, b: string, width: nat)
    requires |a| <= width && |b| <= width && NoSpaces(b)
    ensures |a| < |b| ==> Padded(a, width) != Padded(b, width)
  {
    if |a| < |b| {
      assert Padded(a, width)[width - |b|] == ' ';
      assert Padded(b, width)[width - |b|] == b[0] != ' ';
    }
  }

  lemma PaddedInjective(a: string, b: string, width: nat)
    requires |a| <= width && |b| <= width && NoSpaces(a) && NoSpaces(b)
    requires Padded(a, width) == Padded(b, width)
    ensures a == b
  {
    LengthShows(a, b, width);
    LengthShows(b, a, width);
    assert a == Padded(a, width)[width - |a|..] && b == Padded(b, width)[width - |b|..];
  }

  lemma NumberColumn(x: nat, y: nat, width: nat)
    requires width > 0 && x < Pow10(width) && y < Pow10(width)
    requires Padded(Digits(x), width) == Padded(Digits(y), width)
    ensures x == y
  {
    DigitsRoundTrip(x);
    DigitsRoundTrip(y);
    DigitsWidth(x, width);
    DigitsWidth(y, width);
    PaddedInjective(Digits(x), Digits(y), width);
  }

  // Rows

  const TEN_12 := 1_000_000_000_000
  const TEN_15 := 1_000_000_000_000_000

  lemma Powers()
    ensures Pow10(12) == TEN_12 && Pow10(15) == TEN_15
  {
    assert Pow10(6) == 1_000_000;
    assert Pow10(9) == 1_000 * Pow10(6);
    assert Pow10(12) == 1_000 * Pow10(9);
    assert Pow10(15) == 1_000 * Pow10(12);
  }

  /** The entry does not overflow the columns of the report. */
  ghost predicate Fits(name: string, c: Counters) {
    |name| <= 15 && NoSpaces(name)
    && c.op < TEN_12 && c.error < TEN_12 && c.bypass < TEN_12 && c.bytes < TEN_15
  }

  lemma ColumnWidths(name: string, c: Counters)
    requires Fits(name, c)
    ensures |Padded(name, 15)| == 15 && |Padded(Digits(c.bytes), 15)| == 15
    ensures |Padded(Digits(c.op), 12)| == |Padded(Digits(c.error), 12)| == |Padded(Digits(c.bypass), 12)| == 12
  {
    Powers();
    DigitsWidth(c.op, 12);
    DigitsWidth(c.error, 12);
    DigitsWidth(c.bypass, 12);
    DigitsWidth(c.bytes, 15);
  }

  /** Every row has the 70 characters of the format, with each column at its place. */
  lemma RowColumns(name: string, c: Counters)
    requires Fits(name, c)
    ensures |Row(name, c)| == 70
    ensures Row(name, c)[..15] == Padded(name, 15)
    ensures Row(name, c)[16..28] == Padded(Digits(c.op), 12)
    ensures Row(name, c)[29..41] == Padded(Digits(c.error), 12)
    ensures Row(name, c)[42..54] == Padded(Digits(c.bypass), 12)
    ensures Row(name, c)[55..] == Padded(Digits(c.bytes), 15)
  {
    hide Padded, Digits;
    ColumnWidths(name, c);
    ColumnsOfLine(Padded(name, 15), Padded(Digits(c.op), 12), Padded(Digits(c.error), 12),
                  Padded(Digits(c.bypass), 12), Padded(Digits(c.bytes), 15));
  }

  lemma ColumnsOfLine(a: string, b: string, c: string, d: string, e: string)
    requires |a| == |e| == 15 && |b| == |c| == |d| == 12
    ensures var line := a + " " + b + " " + c + " " + d + " " + e;
            && |line| == 70 && line[..15] == a && line[16..28] == b && line[29..41] == c && line[42..54] == d
            && line[55..] == e
  {
    var upToB := a + " " + b;
    var upToC := upToB + " " + c;
    var upToD := upToC + " " + d;
    ColumnStays(a, " " + b, 0, 15);
    assert a + (" " + b) == upToB;
    ColumnStays(upToB, " " + c, 0, 28);
    assert upToB + (" " + c) == upToC;
    ColumnStays(upToC, " " + d, 0, 41);
    assert upToC + (" " + d) == upToD;
    ColumnStays(upToD, " " + e, 0, 54);
    assert upToD + (" " + e) == upToD + " " + e;
  }

  lemma ColumnStays(s: string, more: string, i: nat, j: nat)
    requires i <= j <= |s|
    ensures (s + more)[i..j] == s[i..j]
  {
  }

  /** By how much a text exceeds its column. */
  function Excess(s: string, width: nat): nat {
    if |s| > width then |s| - width else 0
  }

  /** A row, whatever its counters, is safe to print exactly when its columns together exceed their
      widths by at most four characters. */
  lemma RowFitsBuffer(name: string, c: Counters)
    ensures |Row(name, c)| < ROW_BUFFER
       <==> Excess(name, 15) + Excess(Digits(c.op), 12) + Excess(Digits(c.error), 12)
            + Excess(Digits(c.bypass), 12) + Excess(Digits(c.bytes), 15) <= 4
  {
    hide Padded, Digits;
    var a, b := Padded(name, 15), Padded(Digits(c.op), 12);
    var d, e, f := Padded(Digits(c.error), 12), Padded(Digits(c.bypass), 12), Padded(Digits(c.bytes), 15);
    assert |Row(name, c)| == |a| + |b| + |d| + |e| + |f| + 4;
  }

  /** A row determines its name and its four counters. */
  lemma RowInjective(n1: string, c1: Counters, n2: string, c2: Counters)
    requires Fits(n1, c1) && Fits(n2, c2)
    requires Row(n1, c1) == Row(n2, c2)
    ensures n1 == n2 && c1 == c2
  {
    RowColumns(n1, c1);
    RowColumns(n2, c2);
    PaddedInjective(n1, n2, 15);
    Powers();
    NumberColumn(c1.op, c2.op, 12);
    NumberColumn(c1.error, c2.error, 12);
    NumberColumn(c1.bypass, c2.bypass, 12);
    NumberColumn(c1.bytes, c2.bytes, 15);
  }

  // The lines of a report

  ghost predicate FullWidth(rows: seq<string>) {
    forall i | 0 <= i < |rows| :: |rows[i]| == 70
  }

  lemma {:induction false} LinesLength(rows: seq<string>)
    requires FullWidth(rows)
    ensures |Lines(rows)| == 71 * |rows|
  {
    if rows != [] {
      LinesLength(rows[..|rows| - 1]);
    }
  }

  /** Line i of the report of full rows is row i. */
  lemma {:induction false} LineIsRow(rows: seq<string>, i: nat)
    requires FullWidth(rows) && i < |rows|
    ensures |Lines(rows)| == 71 * |rows| && Lines(rows)[71 * i..71 * i + 71] == rows[i] + "\n"
  {
    var n := |rows| - 1;
    LinesLength(rows);
    LinesLength(rows[..n]);
    if i < n {
      LineIsRow(rows[..n], i);
      assert Lines(rows)[..71 * n] == Lines(rows[..n]);
      assert Lines(rows)[71 * i..71 * i + 71] == Lines(rows[..n])[71 * i..71 * i + 71];
    }
  }

  lemma {:induction false} LinesInjective(a: seq<string>, b: seq<string>)
    requires FullWidth(a) && FullWidth(b) && Lines(a) == Lines(b)
    ensures a == b
  {
    LinesLength(a);
    LinesLength(b);
    if a != [] {
      var n := |a| - 1;
      LinesLength(a[..n]);
      LinesLength(b[..n]);
      assert Lines(a) == Lines(a[..n]) + (a[n] + "\n");
      assert Lines(b) == Lines(b[..n]) + (b[n] + "\n");
      assert Lines(a[..n]) == Lines(a)[..71 * n] == Lines(b[..n]);
      assert a[n] == Lines(a)[71 * n..71 * n + 70] == b[n];
      LinesInjective(a[..n], b[..n]);
    }
  }

  // The report of a category

  ghost predicate Reportable(names: seq<string>, sheet: Sheet) {
    |names| == |sheet| && NoRepeats(names)
    && forall i | 0 <= i < |sheet| :: Fits(names[i], sheet[i]) && (Reported(sheet[i]) || sheet[i] == ZERO)
  }

  ghost predicate IsRowOf(names: seq<string>, sheet: Sheet, i: nat, row: string)
    requires |names| == |sheet|
  {
    i < |sheet| && Reported(sheet[i]) && row == Row(names[i], sheet[i])
  }

  lemma {:induction false} RowsComeFromEntries(names: seq<string>, sheet: Sheet, row: string) returns (i: nat)
    requires |names| == |sheet| && row in Rows(names, sheet)
    ensures IsRowOf(names, sheet, i, row)
  {
    var n := |sheet| - 1;
    if row in Rows(names[..n], sheet[..n]) {
      i := RowsComeFromEntries(names[..n], sheet[..n], row);
    } else {
      i := n;
    }
  }

  lemma {:induction false} EntriesHaveRows(names: seq<string>, sheet: Sheet, i: nat)
    requires |names| == |sheet| && i < |sheet| && Reported(sheet[i])
    ensures Row(names[i], sheet[i]) in Rows(names, sheet)
  {
    var n := |sheet| - 1;
    if i < n {
      EntriesHaveRows(names[..n], sheet[..n], i);
    }
  }

  lemma RowsFullWidth(names: seq<string>, sheet: Sheet)
    requires Reportable(names, sheet)
    ensures FullWidth(Rows(names, sheet))
  {
    var rows := Rows(names, sheet);
    forall j | 0 <= j < |rows| ensures |rows[j]| == 70 {
      var i := RowsComeFromEntries(names, sheet, rows[j]);
      RowColumns(names[i], sheet[i]);
    }
  }

  /** The header line is there exactly when it is asked for; the rule and the rows always are. */
  lemma ReportLayout(names: seq<string>, sheet: Sheet)
    requires |names| == |sheet| && Rows(names, sheet) != []
    ensures CategoryReport(names, sheet, true) == HEADER + "\n" + CategoryReport(names, sheet, false)
    ensures CategoryReport(names, sheet, false) == RULER + "\n" + Lines(Rows(names, sheet))
  {
    hide Line, Lines, Rows;
    var rule := RULER;
    Regrouped(HEADER + "\n", rule, "\n", Lines(Rows(names, sheet)));
    assert "" + rule == rule;
  }

  lemma Regrouped(a: string, b: string, c: string, d: string)
    ensures a + b + c + d == a + (b + c + d)
  {
  }

  lemma ReportDeterminesRows(names: seq<string>, a: Sheet, b: Sheet, printHeader: bool)
    requires Reportable(names, a) && Reportable(names, b)
    requires CategoryReport(names, a, printHeader) == CategoryReport(names, b, printHeader)
    ensures Rows(names, a) == Rows(names, b)
  {
    RowsFullWidth(names, a);
    RowsFullWidth(names, b);
    var head := (if printHeader then HEADER + "\n" else "") + RULER + "\n";
    var la, lb := Lines(Rows(names, a)), Lines(Rows(names, b));
    assert (head + la)[|head|..] == la && (head + lb)[|head|..] == lb;
    if Rows(names, a) != [] && Rows(names, b) != [] {
      LinesInjective(Rows(names, a), Rows(names, b));
    }
  }

  lemma ReportedEntryAgrees(names: seq<string>, a: Sheet, b: Sheet, i: nat)
    requires Reportable(names, a) && Reportable(names, b) && Rows(names, a) == Rows(names, b)
    requires i < |a| && Reported(a[i])
    ensures a[i] == b[i]
  {
    EntriesHaveRows(names, a, i);
    var j := RowsComeFromEntries(names, b, Row(names[i], a[i]));
    RowInjective(names[i], a[i], names[j], b[j]);
    assert i == j;
  }

  /** The filtered report determines all the counters of the category, omitted entries included. */
  lemma ReportInjective(names: seq<string>, a: Sheet, b: Sheet, printHeader: bool)
    requires Reportable(names, a) && Reportable(names, b)
    requires CategoryReport(names, a, printHeader) == CategoryReport(names, b, printHeader)
    ensures a == b
  {
    ReportDeterminesRows(names, a, b, printHeader);
    forall i | 0 <= i < |a| ensures a[i] == b[i] {
      if Reported(a[i]) {
        ReportedEntryAgrees(names, a, b, i);
      } else if Reported(b[i]) {
        ReportedEntryAgrees(names, b, a, i);
      }
    }
  }
}
