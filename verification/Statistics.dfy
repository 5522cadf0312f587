/** The statistics objects of the program: entries with lock-protected counters, and the container
    that updates and aggregates them. */
module Statistics {
  import opened Words
  import opened Operations
  import opened Accounting
  import opened Report

  /** Each increment method is one critical section of the entry's mutex. */
  class StatisticEntry {
    ghost const owner: object
    ghost const position: nat
    const name: string
    var operationCounter: u64
    var byteCounter: u64
    var errorCounter: u64
    var bypassCounter: u64
    /** The increments performed so far, in order. */
    ghost var increments: seq<Inc>

    ghost function Value(): Counters
      reads this
    {
      Counters(operationCounter, byteCounter, errorCounter, bypassCounter)
    }

    constructor (name: string, ghost owner: object, ghost position: nat)
      ensures this.name == name && this.owner == owner && this.position == position
      ensures Value() == ZERO && increments == []
    {
      this.name, this.owner, this.position, increments := name, owner, position, [];
      operationCounter, byteCounter, errorCounter, bypassCounter := 0, 0, 0, 0;
    }

    constructor Copy(entry: StatisticEntry)
      ensures name == entry.name && Value() == entry.Value()
    {
      name, owner, position, increments := entry.name, entry.owner, entry.position, entry.increments;
      operationCounter := entry.operationCounter;
      byteCounter := entry.byteCounter;
      errorCounter := entry.errorCounter;
      bypassCounter := entry.bypassCounter;
    }

    method IncrementOperationCounter(count: u64)
      modifies `operationCounter, `increments
      ensures Value() == Bump(old(Value()), OpCount, count)
      ensures increments == old(increments) + [Inc(position, OpCount, count)]
    {
      operationCounter := Wrap(operationCounter + count);
      increments := increments + [Inc(position, OpCount, count)];
    }

    method IncrementByteCounter(bytes: u64)
      modifies `byteCounter, `increments
      ensures Value() == Bump(old(Value()), ByteCount, bytes)
      ensures increments == old(increments) + [Inc(position, ByteCount, bytes)]
    {
      byteCounter := Wrap(byteCounter + bytes);
      increments := increments + [Inc(position, ByteCount, bytes)];
    }

    method IncrementErrorCounter(count: u64)
      modifies `errorCounter, `increments
      ensures Value() == Bump(old(Value()), ErrorCount, count)
      ensures increments == old(increments) + [Inc(position, ErrorCount, count)]
    {
      errorCounter := Wrap(errorCounter + count);
      increments := increments + [Inc(position, ErrorCount, count)];
    }

    method IncrementBypassCounter(count: u64)
      modifies `bypassCounter, `increments
      ensures Value() == Bump(old(Value()), BypassCount, count)
      ensures increments == old(increments) + [Inc(position, BypassCount, count)]
    {
      bypassCounter := Wrap(bypassCounter + count);
      increments := increments + [Inc(position, BypassCount, count)];
    }

    /** The fixed-width row of the report; printing a longer one than the buffer holds is undefined. */
    method ToString() returns (row: string)
      requires |Row(name, Value())| < ROW_BUFFER
      ensures row == Row(name, Value())
    {
      row := Padded(name, 15) + " " + Padded(Digits(operationCounter), 12) + " "
        + Padded(Digits(errorCounter), 12) + " " + Padded(Digits(bypassCounter), 12) + " "
        + Padded(Digits(byteCounter), 15);
    }
  }

  class Statistics {
    const identifier: string
    /** The category the object was constructed for. */
    ghost const kind: OperationType
    var size: nat
    var entries: seq<StatisticEntry>

    ghost predicate Valid()
      reads this
    {
      && NoRepeats(entries) && size <= |entries|
      && forall i | 0 <= i < |entries| :: entries[i].owner == this && entries[i].position == i
    }

    ghost function Contents(): (sheet: Sheet)
      reads this, entries
      ensures |sheet| == |entries|
    {
      seq(|entries|, i requires 0 <= i < |entries| reads this, entries => entries[i].Value())
    }

    ghost function EntryNames(): (names: seq<string>)
      reads this, entries
      ensures |names| == |entries|
    {
      seq(|entries|, i requires 0 <= i < |entries| reads this, entries => entries[i].name)
    }

    constructor (identifier: string, kind: OperationType)
      ensures Valid() && size == Size(kind) && forall k | 0 <= k < |entries| :: fresh(entries[k])
      ensures this.identifier == identifier && this.kind == kind
      ensures Contents() == Zeros(Size(kind)) && EntryNames() == Names(kind)
    {
      this.identifier, this.kind := identifier, kind;
      size := 0;
      entries := [];
      new;
      Initialize(kind);
    }

    method EmplaceBack(name: string)
      requires Valid()
      modifies this
      ensures Valid() && size == old(size)
      ensures |entries| == |old(entries)| + 1 && entries[..|old(entries)|] == old(entries)
      ensures fresh(entries[|old(entries)|])
      ensures Contents() == old(Contents()) + [ZERO]
      ensures EntryNames() == old(EntryNames()) + [name]
    {
      var entry := new StatisticEntry(name, this, |entries|);
      entries := entries + [entry];
    }

    /** Appends the entries of a category; a repeated call appends them once more. */
    method Initialize(kind: OperationType)
      requires Valid()
      modifies this
      ensures Valid() && size == Size(kind)
      ensures |entries| == |old(entries)| + Size(kind) && entries[..|old(entries)|] == old(entries)
      ensures forall k | |old(entries)| <= k < |entries| :: fresh(entries[k])
      ensures Contents() == old(Contents()) + Zeros(Size(kind))
      ensures EntryNames() == old(EntryNames()) + Names(kind)
    {
      var names := Names(kind);
      for i := 0 to |names|
        invariant Valid() && size == old(size)
        invariant |entries| == |old(entries)| + i && entries[..|old(entries)|] == old(entries)
        invariant forall k | |old(entries)| <= k < |entries| :: fresh(entries[k])
        invariant Contents() == old(Contents()) + Zeros(i)
        invariant EntryNames() == old(EntryNames()) + names[..i]
      {
        EmplaceBack(names[i]);
        assert Zeros(i) + [ZERO] == Zeros(i + 1) && names[..i] + [names[i]] == names[..i + 1];
      }
      assert names[..|names|] == names;
      size := Size(kind);
    }

    /** A copy of the entry of an operation. */
    method GetStatisticEntry(operation: nat) returns (entry: StatisticEntry)
      requires Valid() && size > 0
      ensures fresh(entry) && entry.Value() == Contents()[operation % size]
      ensures entry.name == EntryNames()[operation % size]
    {
      var position := operation % size;
      entry := new StatisticEntry.Copy(entries[position]);
    }

    /** The overload without an error value. */
    method UpdateStatisticEntry(operation: nat, operationValue: u64, byteValue: u64)
      requires Valid() && size > 0
      modifies entries[operation % size]
      ensures Contents() == Apply(old(Contents()), Plain(operation % size, operationValue, byteValue))
      ensures entries[operation % size].increments
           == old(entries[operation % size].increments) + Script(Plain(operation % size, operationValue, byteValue))
    {
      var position := operation % size;
      entries[position].IncrementOperationCounter(operationValue);
      entries[position].IncrementByteCounter(byteValue);
      ChargedPlain(old(Contents()[position]), position, operationValue, byteValue);
      assert Contents()[position]
          == Charged(old(Contents()[position]), Plain(position, operationValue, byteValue));
    }

    /** The overload with an error value. */
    method UpdateStatisticEntryWithError(operation: nat, operationValue: u64, byteValue: u64, errorValue: u64)
      requires Valid() && size > 0
      modifies entries[operation % size]
      ensures Contents()
           == Apply(old(Contents()), Failing(operation % size, operationValue, byteValue, errorValue))
      ensures entries[operation % size].increments
           == old(entries[operation % size].increments)
              + Script(Failing(operation % size, operationValue, byteValue, errorValue))
    {
      var position := operation % size;
      entries[position].IncrementOperationCounter(operationValue);
      entries[position].IncrementByteCounter(byteValue);
      entries[position].IncrementErrorCounter(errorValue);
      ChargedFailing(old(Contents()[position]), position, operationValue, byteValue, errorValue);
      assert Contents()[position]
          == Charged(old(Contents()[position]), Failing(position, operationValue, byteValue, errorValue));
    }

    method UpdateBypassedStatisticEntry(operation: nat, bypassValue: u64)
      requires Valid() && size > 0
      modifies entries[operation % size]
      ensures Contents() == Apply(old(Contents()), Bypass(operation % size, bypassValue))
      ensures entries[operation % size].increments
           == old(entries[operation % size].increments) + Script(Bypass(operation % size, bypassValue))
    {
      var position := operation % size;
      entries[position].IncrementBypassCounter(bypassValue);
      ChargedBypass(old(Contents()[position]), position, bypassValue);
      assert Contents()[position] == Charged(old(Contents()[position]), Bypass(position, bypassValue));
    }

    /** The update method an update stands for. */
    method Perform(u: Update)
      requires Valid() && u.pos < size
      modifies entries[u.pos]
      ensures Contents() == Apply(old(Contents()), u)
      ensures entries[u.pos].increments == old(entries[u.pos].increments) + Script(u)
    {
      hide Apply, Contents, Script;
      PositionIsIdentity(u.pos, size);
      match u {
        case Plain(p, op, bytes) => UpdateStatisticEntry(p, op, bytes);
        case Failing(p, op, bytes, error) => UpdateStatisticEntryWithError(p, op, bytes, error);
        case Bypass(p, bypass) => UpdateBypassedStatisticEntry(p, bypass);
      }
    }

    /** The run total of one counter, accumulated in a `long`; an unknown counter type yields 0. */
    method AggregateCounters(counterType: int) returns (sum: int)
      ensures counterType == 0 ==> sum == ToLong(Wrap(SheetSum(Contents(), OpCount)))
      ensures counterType == 1 ==> sum == ToLong(Wrap(SheetSum(Contents(), ByteCount)))
      ensures counterType == 2 ==> sum == ToLong(Wrap(SheetSum(Contents(), ErrorCount)))
      ensures counterType == 3 ==> sum == ToLong(Wrap(SheetSum(Contents(), BypassCount)))
      ensures !(0 <= counterType <= 3) ==> sum == 0
    {
      sum := 0;
      if !(0 <= counterType <= 3) {
        return;
      }
      ghost var k := if counterType == 0 then OpCount else if counterType == 1 then ByteCount
                     else if counterType == 2 then ErrorCount else BypassCount;
      ghost var sheet := Contents();
      for i := 0 to |entries|
        invariant sum == ToLong(Wrap(SheetSum(sheet[..i], k)))
      {
        var element := entries[i];
        var counter := if counterType == 0 then element.operationCounter
                       else if counterType == 1 then element.byteCounter
                       else if counterType == 2 then element.errorCounter
                       else element.bypassCounter;
        assert sheet[..i + 1][..i] == sheet[..i] && Field(sheet[i], k) == counter;
        LongAdd(SheetSum(sheet[..i], k), counter);
        sum := ToLong(Wrap(sum + counter));
      }
      assert sheet[..|entries|] == sheet;
    }

    /** The entries that saw any call, in order. */
    method SelectReported() returns (shown: seq<StatisticEntry>)
      ensures RowsOf(shown) == Rows(EntryNames(), Contents())
    {
      ghost var sheet, names := Contents(), EntryNames();
      shown := [];
      for i := 0 to |entries|
        invariant RowsOf(shown) == Rows(names[..i], sheet[..i])
      {
        shown := PushReported(shown, entries[i]);
        RowsStep(names, sheet, i);
        assert sheet[i] == entries[i].Value() && names[i] == entries[i].name;
      }
      assert names[..|entries|] == names && sheet[..|entries|] == sheet;
    }

    /** One line per given entry. */
    method PrintRows(shown: seq<StatisticEntry>) returns (text: string)
      requires FitBuffer(RowsOf(shown))
      ensures text == Lines(RowsOf(shown))
    {
      ghost var rows := RowsOf(shown);
      text := "";
      for i := 0 to |shown|
        invariant text == Lines(rows[..i])
      {
        assert |rows[i]| < ROW_BUFFER;
        var row := shown[i].ToString();
        assert rows[..i + 1][..i] == rows[..i] && rows[i] == row;
        text := text + row + "\n";
      }
      assert rows[..|shown|] == rows;
    }

    /** The report of the category: a row per selected entry, under a header. */
    method ToString(printHeader: bool) returns (report: string)
      requires FitBuffer(Rows(EntryNames(), Contents()))
      ensures report == CategoryReport(EntryNames(), Contents(), printHeader)
    {
      hide Rows, Row, Lines, FitBuffer, Contents, EntryNames;
      var shown := SelectReported();
      report := "";
      if |shown| != 0 {
        var header := if printHeader then HEADER + "\n" else "";
        var text := PrintRows(shown);
        report := header + RULER + "\n" + text;
      }
    }
  }

  /** The remainder that gives the position is the identity on the operations of a category. */
  lemma PositionIsIdentity(p: nat, size: nat)
    requires p < size
    ensures p % size == p
  {
  }

  /** Keeps an entry of the report if it saw any call. */
  method PushReported(shown: seq<StatisticEntry>, elem: StatisticEntry) returns (longer: seq<StatisticEntry>)
    ensures RowsOf(longer)
         == RowsOf(shown) + if Reported(elem.Value()) then [Row(elem.name, elem.Value())] else []
  {
    longer := shown;
    if Wrap(elem.operationCounter + elem.errorCounter + elem.bypassCounter) > 0 {
      longer := longer + [elem];
      assert RowsOf(shown + [elem]) == RowsOf(shown) + [Row(elem.name, elem.Value())];
    }
  }

  ghost function RowsOf(shown: seq<StatisticEntry>): (rows: seq<string>)
    reads shown
    ensures |rows| == |shown|
  {
    seq(|shown|, i requires 0 <= i < |shown| reads shown => Row(shown[i].name, shown[i].Value()))
  }
}
