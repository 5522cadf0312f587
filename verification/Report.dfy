/** The text of the statistics report: `%15s %12lu %12lu %12lu %15lu` rows, one per used entry. */
module Report {
  import opened Words
  import opened Accounting

  /** The size of the buffer a row is printed into, its terminating null character included. */
  const ROW_BUFFER := 75

  ghost predicate FitBuffer(rows: seq<string>) {
    forall i | 0 <= i < |rows| :: |rows[i]| < ROW_BUFFER
  }

  /** Right-aligned in a field of at least `width` characters. */
  function Padded(s: string, width: nat): (r: string)
    ensures |r| == if |s| < width then width else |s|
  {
    if |s| < width then seq(width - |s|, i => ' ') + s else s
  }

  function Digit(d: nat): char
    requires d < 10
  {
    '0' + d as char
  }

  /** Decimal notation. */
  function Digits(n: nat): string {
    if n < 10 then [Digit(n)] else Digits(n / 10) + [Digit(n % 10)]
  }

  /** `%15s %12s %12s %12s %15s`, with the digits of a number for its `%12lu` or `%15lu`. */
  function Line(name: string, calls: string, errors: string, bypassed: string, bytes: string): string {
    Padded(name, 15) + " " + Padded(calls, 12) + " " + Padded(errors, 12) + " "
    + Padded(bypassed, 12) + " " + Padded(bytes, 15)
  }

  const HEADER := Line("syscall", "calls", "errors", "bypassed", "bytes")
  const RULER := Line("-------", "-----", "------", "--------", "-----")

  function Row(name: string, c: Counters): string {
    Line(name, Digits(c.op), Digits(c.error), Digits(c.bypass), Digits(c.bytes))
  }

  /** An entry is reported when its 64-bit sum of calls, errors and bypasses is positive. */
  predicate Reported(c: Counters) {
    Wrap(c.op + c.error + c.bypass) > 0
  }

  /** While the three add up below 2^64, exactly the entries that counted any of them are reported. */
  lemma ReportedExactly(c: Counters)
    requires c.op + c.error + c.bypass < TWO_64
    ensures Reported(c) <==> c.op > 0 || c.error > 0 || c.bypass > 0
  {
    WrapSmall(c.op + c.error + c.bypass);
  }

  function Rows(names: seq<string>, sheet: Sheet): seq<string>
    requires |names| == |sheet|
  {
    if sheet == [] then []
    else
      var n := |sheet| - 1;
      Rows(names[..n], sheet[..n]) + if Reported(sheet[n]) then [Row(names[n], sheet[n])] else []
  }

  lemma RowsStep(names: seq<string>, sheet: Sheet, i: nat)
    requires |names| == |sheet| && i < |sheet|
    ensures Rows(names[..i + 1], sheet[..i + 1])
         == Rows(names[..i], sheet[..i]) + if Reported(sheet[i]) then [Row(names[i], sheet[i])] else []
  {
    assert names[..i + 1][..i] == names[..i] && sheet[..i + 1][..i] == sheet[..i];
  }

  function Lines(rows: seq<string>): string {
    if rows == [] then "" else Lines(rows[..|rows| - 1]) + rows[|rows| - 1] + "\n"
  }

  function CategoryReport(names: seq<string>, sheet: Sheet, printHeader: bool): string
    requires |names| == |sheet|
  {
    var rows := Rows(names, sheet);
    if rows == [] then ""
    else (if printHeader then HEADER + "\n" else "") + RULER + "\n" + Lines(rows)
  }
}
