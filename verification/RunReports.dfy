/** The reports of the program: in every reachable state they determine the statistics. */
module RunReports {
  import opened Words
  import opened Operations
  import opened Accounting
  import opened Report
  import opened ReportLaws
  import opened MountPoints
  import opened Engine
  import opened Runs
  import opened Conservation

  // Bytes are only ever counted together with an operation

  ghost predicate BytesNeedCalls(c: Counters) {
    c.bytes > 0 ==> c.op > 0
  }

  ghost predicate Sane(books: Books) {
    forall kind, p | 0 <= p < Size(kind) :: BytesNeedCalls(SheetOf(books, kind)[p])
  }

  lemma ChargedSane(c: Counters, u: Update, n: nat)
    requires BytesNeedCalls(c) && CountersUpTo(c, n) && n + 1 < TWO_64
    requires u.Bypass? || u.op == 1
    ensures BytesNeedCalls(Charged(c, u))
  {
  }

  lemma ChangedSane(books: Books, kind: OperationType, u: Update, n: nat)
    requires Sane(books) && Bounded(books, n) && n + 1 < TWO_64 && u.pos < Size(kind)
    requires u.Bypass? || u.op == 1
    ensures Sane(Changed(books, kind, u))
  {
    forall other, p | 0 <= p < Size(other) ensures BytesNeedCalls(SheetOf(Changed(books, kind, u), other)[p]) {
      assert BytesNeedCalls(SheetOf(books, other)[p]) && CountersUpTo(SheetOf(books, other)[p], n);
      SheetOfChanged(books, kind, u, other);
      ChargedSane(SheetOf(books, other)[p], u, n);
    }
  }

  lemma NextSane(cfg: Config, env: Env, inputs: seq<Input>, call: Call)
    requires |inputs| + 1 < TWO_64
    requires Sane(Run(cfg, env, inputs).ld.books) && Sane(Run(cfg, env, inputs).passthrough)
    ensures var w' := Dispatched(cfg, env, Run(cfg, env, inputs), call).0;
            Sane(w'.ld.books) && Sane(w'.passthrough)
  {
    hide Dispatched, Serving, Run, Sane, Position, Kind, FamilyOf;
    var w, op := Run(cfg, env, inputs), Variant(call);
    NextBooks(cfg, env, w, call);
    CountersBounded(cfg, env, inputs);
    if ToLd(cfg, w.loaded, op) {
      ChangedSane(w.ld.books, Kind(op), Charge(cfg, env, w, call), |inputs|);
    } else if op != Sync {
      var pt := PtWrapperOf(op);
      ChangedSane(w.passthrough, pt.kind, PtUpdate(pt, env.answer(w.trace, Forwarded(op, call))), |inputs|);
    }
  }

  lemma {:induction false} ReachableSane(cfg: Config, env: Env, inputs: seq<Input>)
    requires |inputs| < TWO_64
    ensures Sane(Run(cfg, env, inputs).ld.books) && Sane(Run(cfg, env, inputs).passthrough)
  {
    hide Dispatched;
    if inputs == [] {
      assert forall kind :: SheetOf(NEW_BOOKS, kind) == Zeros(Size(kind));
    } else {
      var front, last := inputs[..|inputs| - 1], inputs[|inputs| - 1];
      RunGrows(cfg, env, inputs);
      ReachableSane(cfg, env, front);
      if last.Request? {
        NextSane(cfg, env, front, last.call);
      }
    }
  }

  // The names of the entries

  lemma NamesShort(kind: OperationType, i: nat)
    requires i < Size(kind)
    ensures |Names(kind)[i]| <= 15
  {
  }

  lemma MetadataNamesNoSpaces(i: nat)
    requires i < 22
    ensures NoSpaces(Names(MetadataCalls)[i])
  {
  }

  lemma NamesNoSpaces(kind: OperationType, i: nat)
    requires i < Size(kind)
    ensures NoSpaces(Names(kind)[i])
  {
    if kind == MetadataCalls {
      MetadataNamesNoSpaces(i);
    }
  }

  lemma NamesDistinct(kind: OperationType)
    ensures NoRepeats(Names(kind))
  {
  }

  // The theorem

  /** No counter of the sheet overflows its column. */
  ghost predicate Columns(sheet: Sheet) {
    forall i | 0 <= i < |sheet| ::
      sheet[i].op < TEN_12 && sheet[i].error < TEN_12 && sheet[i].bypass < TEN_12 && sheet[i].bytes < TEN_15
  }

  lemma SheetSize(books: Books, kind: OperationType)
    ensures |SheetOf(books, kind)| == Size(kind)
  {
  }

  /** The report of a category of a back end. */
  function ReportOf(books: Books, kind: OperationType, printHeader: bool): string {
    SheetSize(books, kind);
    CategoryReport(Names(kind), SheetOf(books, kind), printHeader)
  }

  lemma ReachableReportable(books: Books, kind: OperationType)
    requires Sane(books) && Columns(SheetOf(books, kind))
    ensures Reportable(Names(kind), SheetOf(books, kind))
  {
    hide Names, Size, SheetOf;
    var names, sheet := Names(kind), SheetOf(books, kind);
    SheetSize(books, kind);
    NamesDistinct(kind);
    forall i | 0 <= i < |sheet|
      ensures Fits(names[i], sheet[i]) && (Reported(sheet[i]) || sheet[i] == ZERO)
    {
      NamesShort(kind, i);
      NamesNoSpaces(kind, i);
      assert BytesNeedCalls(SheetOf(books, kind)[i]);
    }
  }

  /** Reports of reachable statistics without overflowing columns are safe to print. */
  lemma ReportsFitBuffer(cfg: Config, env: Env, inputs: seq<Input>, kind: OperationType, ofLdPreloaded: bool)
    requires |inputs| < TWO_64
    requires Columns(SheetOf(BooksOf(Run(cfg, env, inputs), ofLdPreloaded), kind))
    ensures |SheetOf(BooksOf(Run(cfg, env, inputs), ofLdPreloaded), kind)| == Size(kind)
    ensures FitBuffer(Rows(Names(kind), SheetOf(BooksOf(Run(cfg, env, inputs), ofLdPreloaded), kind)))
  {
    hide Run, Sane, Columns, Rows;
    var books := BooksOf(Run(cfg, env, inputs), ofLdPreloaded);
    SheetSize(books, kind);
    ReachableSane(cfg, env, inputs);
    ReachableReportable(books, kind);
    RowsFullWidth(Names(kind), SheetOf(books, kind));
  }

  lemma EqualReportsOfSane(a: Books, b: Books, kind: OperationType, printHeader: bool)
    requires Sane(a) && Sane(b) && Columns(SheetOf(a, kind)) && Columns(SheetOf(b, kind))
    requires ReportOf(a, kind, printHeader) == ReportOf(b, kind, printHeader)
    ensures SheetOf(a, kind) == SheetOf(b, kind)
  {
    hide Names, SheetOf;
    ReachableReportable(a, kind);
    ReachableReportable(b, kind);
    ReportInjective(Names(kind), SheetOf(a, kind), SheetOf(b, kind), printHeader);
  }

  /** The counters of one of the two back ends. */
  function BooksOf(w: World, ofLdPreloaded: bool): Books {
    if ofLdPreloaded then w.ld.books else w.passthrough
  }

  /** Two runs, under whatever configurations and environments, that end with equal reports of a
      category of a back end end with equal statistics of it, reported entries and omitted ones. */
  lemma LosslessReports(
    cfg1: Config, env1: Env, inputs1: seq<Input>, cfg2: Config, env2: Env, inputs2: seq<Input>,
    kind: OperationType, printHeader: bool, ofLdPreloaded: bool)
    requires |inputs1| < TWO_64 && |inputs2| < TWO_64
    requires var a := BooksOf(Run(cfg1, env1, inputs1), ofLdPreloaded);
             var b := BooksOf(Run(cfg2, env2, inputs2), ofLdPreloaded);
             Columns(SheetOf(a, kind)) && Columns(SheetOf(b, kind))
             && ReportOf(a, kind, printHeader) == ReportOf(b, kind, printHeader)
    ensures SheetOf(BooksOf(Run(cfg1, env1, inputs1), ofLdPreloaded), kind)
         == SheetOf(BooksOf(Run(cfg2, env2, inputs2), ofLdPreloaded), kind)
  {
    hide Run, ReportOf, SheetOf, Columns;
    ReachableSane(cfg1, env1, inputs1);
    ReachableSane(cfg2, env2, inputs2);
    EqualReportsOfSane(
      BooksOf(Run(cfg1, env1, inputs1), ofLdPreloaded), BooksOf(Run(cfg2, env2, inputs2), ofLdPreloaded),
      kind, printHeader);
  }
}
