/** Conservation laws of whole runs: counters against calls, against the submission log, and
    against the tokens submitted. */
module Conservation {
  import opened Words
  import opened Operations
  import opened Accounting
  import opened MountPoints
  import opened Engine
  import opened Runs

  // No counter of calls wraps in a run of fewer than 2^64 steps

  ghost predicate Unit(u: Update) {
    Amount(u, OpCount) <= 1 && Amount(u, ErrorCount) <= 1 && Amount(u, BypassCount) <= 1
  }

  ghost predicate CountersUpTo(c: Counters, n: nat) {
    c.op <= n && c.error <= n && c.bypass <= n
  }

  ghost predicate Bounded(books: Books, n: nat) {
    forall kind, p | 0 <= p < Size(kind) :: CountersUpTo(SheetOf(books, kind)[p], n)
  }

  lemma ChargedExactly(c: Counters, u: Update, n: nat, k: Counter)
    requires CountersUpTo(c, n) && n + 1 < TWO_64 && Unit(u)
    ensures CountersUpTo(Charged(c, u), n + 1)
    ensures k != ByteCount ==> Field(Charged(c, u), k) == Field(c, k) + Amount(u, k)
  {
  }

  lemma SheetOfChanged(books: Books, kind: OperationType, u: Update, other: OperationType)
    requires u.pos < Size(kind)
    ensures SheetOf(Changed(books, kind, u), other)
         == if other == kind then Apply(SheetOf(books, kind), u) else SheetOf(books, other)
  {
  }

  lemma BoundedChanged(books: Books, kind: OperationType, u: Update, n: nat)
    requires Bounded(books, n) && n + 1 < TWO_64 && u.pos < Size(kind) && Unit(u)
    ensures Bounded(Changed(books, kind, u), n + 1)
  {
    forall other, p | 0 <= p < Size(other)
      ensures CountersUpTo(SheetOf(Changed(books, kind, u), other)[p], n + 1)
    {
      assert CountersUpTo(SheetOf(books, other)[p], n);
      SheetOfChanged(books, kind, u, other);
      ChargedExactly(SheetOf(books, other)[p], u, n, OpCount);
    }
  }

  lemma BoundedStays(books: Books, n: nat)
    requires Bounded(books, n)
    ensures Bounded(books, n + 1)
  {
    forall kind, p | 0 <= p < Size(kind) ensures CountersUpTo(SheetOf(books, kind)[p], n + 1) {
      assert CountersUpTo(SheetOf(books, kind)[p], n);
    }
  }

  lemma LdBounded(cfg: Config, env: Env, w: World, call: Call, n: nat)
    requires Bounded(w.ld.books, n) && n + 1 < TWO_64
    ensures Bounded(Dispatched(cfg, env, w, call).0.ld.books, n + 1)
  {
    hide Dispatched, Serving, LdServed;
    NextBooks(cfg, env, w, call);
    if ToLd(cfg, w.loaded, Variant(call)) && cfg.collectLd {
      BoundedChanged(w.ld.books, Kind(Variant(call)), Charge(cfg, env, w, call), n);
    } else {
      BoundedStays(w.ld.books, n);
    }
  }

  lemma PtBounded(cfg: Config, env: Env, w: World, call: Call, n: nat)
    requires Bounded(w.passthrough, n) && n + 1 < TWO_64
    ensures Bounded(Dispatched(cfg, env, w, call).0.passthrough, n + 1)
  {
    var op := Variant(call);
    var pt := PtWrapperOf(op);
    NextBooks(cfg, env, w, call);
    BoundedStays(w.passthrough, n);
    BoundedChanged(w.passthrough, pt.kind, PtUpdate(pt, env.answer(w.trace, Forwarded(op, call))), n);
  }

  lemma {:induction false} CountersBounded(cfg: Config, env: Env, inputs: seq<Input>)
    requires |inputs| < TWO_64
    ensures Bounded(Run(cfg, env, inputs).ld.books, |inputs|)
    ensures Bounded(Run(cfg, env, inputs).passthrough, |inputs|)
  {
    if inputs != [] {
      var front, last := inputs[..|inputs| - 1], inputs[|inputs| - 1];
      RunGrows(cfg, env, inputs);
      CountersBounded(cfg, env, front);
      if last.Request? {
        LdBounded(cfg, env, Run(cfg, env, front), last.call, |front|);
        PtBounded(cfg, env, Run(cfg, env, front), last.call, |front|);
      } else {
        BoundedStays(Run(cfg, env, front).ld.books, |front|);
        BoundedStays(Run(cfg, env, front).passthrough, |front|);
      }
    }
  }

  // Both back ends together count every call

  function CategorySum(books: Books, kind: OperationType, k: Counter): nat {
    SheetSum(SheetOf(books, kind), k)
  }

  lemma CategorySumChanged(books: Books, kind: OperationType, u: Update, n: nat, other: OperationType, k: Counter)
    requires Bounded(books, n) && n + 1 < TWO_64 && u.pos < Size(kind) && Unit(u) && k != ByteCount
    ensures CategorySum(Changed(books, kind, u), other, k)
         == CategorySum(books, other, k) + if other == kind then Amount(u, k) else 0
  {
    SheetOfChanged(books, kind, u, other);
    if other == kind {
      var c := SheetOf(books, kind)[u.pos];
      assert CountersUpTo(c, n);
      SheetSumUpdate(SheetOf(books, kind), u.pos, Charged(c, u), k);
      ChargedExactly(c, u, n, k);
    }
  }

  /** The calls of a category the application made. */
  function CallsOf(inputs: seq<Input>, kind: OperationType): nat {
    if inputs == [] then 0
    else
      var last := inputs[|inputs| - 1];
      CallsOf(inputs[..|inputs| - 1], kind) + if last.Request? && Kind(Variant(last.call)) == kind then 1 else 0
  }

  /** The calls to an operation that took the passthrough. */
  function PassedCalls(cfg: Config, inputs: seq<Input>, op: Op): nat {
    if inputs == [] then 0
    else
      var front, last := inputs[..|inputs| - 1], inputs[|inputs| - 1];
      PassedCalls(cfg, front, op)
      + if last.Request? && Variant(last.call) == op && !ToLd(cfg, Loaded in front, op) then 1 else 0
  }

  lemma {:induction false} LoadedOnceLoaded(cfg: Config, env: Env, inputs: seq<Input>)
    ensures Run(cfg, env, inputs).loaded <==> Loaded in inputs
  {
    if inputs != [] {
      var front, last := inputs[..|inputs| - 1], inputs[|inputs| - 1];
      RunGrows(cfg, env, inputs);
      assert inputs == front + [last];
      LoadedOnceLoaded(cfg, env, front);
    }
  }

  /** What both back ends recorded for a category. */
  function Counted(w: World, kind: OperationType): nat {
    LdCounted(w, kind) + PtCounted(w, kind)
  }

  function LdCounted(w: World, kind: OperationType): nat {
    CategorySum(w.ld.books, kind, OpCount) + CategorySum(w.ld.books, kind, BypassCount)
  }

  lemma NextLdCounted(cfg: Config, env: Env, inputs: seq<Input>, call: Call, kind: OperationType)
    requires cfg.collectLd && |inputs| + 1 < TWO_64
    ensures var w, op := Run(cfg, env, inputs), Variant(call);
            var counts := Kind(op) == kind && ToLd(cfg, w.loaded, op);
            LdCounted(Dispatched(cfg, env, w, call).0, kind) == LdCounted(w, kind) + if counts then 1 else 0
  {
    hide Dispatched, Serving, LdServed, Run;
    var w, op := Run(cfg, env, inputs), Variant(call);
    NextBooks(cfg, env, w, call);
    if ToLd(cfg, w.loaded, op) {
      CountersBounded(cfg, env, inputs);
      ChargeVerdict(cfg, env, inputs, call);
      var u := Charge(cfg, env, w, call);
      CategorySumChanged(w.ld.books, Kind(op), u, |inputs|, kind, OpCount);
      CategorySumChanged(w.ld.books, Kind(op), u, |inputs|, kind, BypassCount);
    }
  }

  function PtCounted(w: World, kind: OperationType): nat {
    CategorySum(w.passthrough, kind, OpCount)
  }

  lemma NextPtCounted(cfg: Config, env: Env, inputs: seq<Input>, call: Call, kind: OperationType)
    requires cfg.collectPt && |inputs| + 1 < TWO_64
    ensures var w, op := Run(cfg, env, inputs), Variant(call);
            var counts := Kind(op) == kind && op != Sync && !ToLd(cfg, w.loaded, op);
            PtCounted(Dispatched(cfg, env, w, call).0, kind) == PtCounted(w, kind) + if counts then 1 else 0
  {
    hide Dispatched, Serving, LdServed, Run;
    var w, op := Run(cfg, env, inputs), Variant(call);
    NextBooks(cfg, env, w, call);
    if !ToLd(cfg, w.loaded, op) && op != Sync {
      CountersBounded(cfg, env, inputs);
      var pt := PtWrapperOf(op);
      var u := PtUpdate(pt, env.answer(w.trace, Forwarded(op, call)));
      CategorySumChanged(w.passthrough, pt.kind, u, |inputs|, kind, OpCount);
    }
  }

  lemma NewCounted(kind: OperationType)
    ensures Counted(NEW_WORLD, kind) == 0
  {
    assert SheetOf(NEW_BOOKS, kind) == Zeros(Size(kind));
    SheetSumZeros(Size(kind), OpCount);
    SheetSumZeros(Size(kind), BypassCount);
  }

  /** For any intercept flags and any moment of loading, every call of a category is counted by
      exactly one back end, once, except a sync that takes the passthrough. */
  lemma {:induction false} TwoBackEndConservation(cfg: Config, env: Env, inputs: seq<Input>, kind: OperationType)
    requires cfg.collectLd && cfg.collectPt && |inputs| < TWO_64
    ensures Counted(Run(cfg, env, inputs), kind) + (if kind == MetadataCalls then PassedCalls(cfg, inputs, Sync) else 0)
         == CallsOf(inputs, kind)
  {
    if inputs == [] {
      NewCounted(kind);
    } else {
      var front, last := inputs[..|inputs| - 1], inputs[|inputs| - 1];
      RunGrows(cfg, env, inputs);
      TwoBackEndConservation(cfg, env, front, kind);
      LoadedOnceLoaded(cfg, env, front);
      if last.Request? {
        NextLdCounted(cfg, env, front, last.call, kind);
        NextPtCounted(cfg, env, front, last.call, kind);
      }
    }
  }

  // The submission log against the counters

  /** Submissions of a class. */
  function Tagged(log: seq<Submission>, class_: Op): nat {
    if log == [] then 0
    else Tagged(log[..|log| - 1], class_) + if log[|log| - 1].class_ == class_ then 1 else 0
  }

  function SumOfOps(books: Books, ops: seq<Op>): nat {
    if ops == [] then 0
    else SumOfOps(books, ops[..|ops| - 1]) + CountersOf(books, ops[|ops| - 1]).op
  }

  lemma {:induction false} SumOfOpsPosted(books: Books, op: Op, u: Update, ops: seq<Op>)
    requires NoRepeats(ops) && u.pos == Position(op)
    requires CountersOf(books, op).op + Amount(u, OpCount) < TWO_64
    ensures SumOfOps(Posted(books, op, u), ops)
         == SumOfOps(books, ops) + if op in ops then Amount(u, OpCount) else 0
  {
    hide CountersOf, Posted, Position;
    if ops != [] {
      var front, last := ops[..|ops| - 1], ops[|ops| - 1];
      assert ops == front + [last];
      SumOfOpsPosted(books, op, u, front);
      PostedCounters(books, op, u, last);
    }
  }

  /** The call is served by LdPreloaded, enforced, and not a sync. */
  ghost predicate Submitting(cfg: Config, w: World, call: Call) {
    var op := Variant(call);
    ToLd(cfg, w.loaded, op) && op != Sync && OughtToEnforce(cfg, w.ld, op, call)
  }

  /** What enforcing a call costs: a read or write the narrowed size it asks for, any other call one. */
  function CostOf(op: Op, call: Call): u64 {
    if MovesBytes(op) then TokenCost(call.size) else 1
  }

  /** The request of a call made in this state. */
  ghost predicate SubmittedAs(cfg: Config, env: Env, w: World, s: Submission, call: Call) {
    var op, ids := Variant(call), Workflows(cfg);
    && s.class_ == ClassOf(op) && s.context == ContextOf(op) && s.cost == CostOf(op, call)
    && s.workflow == ids[env.outputs(w.ld.drawn) % |ids|] && s.calls == |w.trace|
  }

  /** What a call submits: nothing, or one request under the tags of its operation, under the workflow
      that one more generator output selects, and before its libc call. */
  lemma NextLog(cfg: Config, env: Env, inputs: seq<Input>, call: Call)
    ensures var w := Run(cfg, env, inputs);
            var ld' := Dispatched(cfg, env, w, call).0.ld;
            if Submitting(cfg, w, call) then
              |ld'.log| == |w.ld.log| + 1 && ld'.log[..|w.ld.log|] == w.ld.log && ld'.drawn == w.ld.drawn + 1
              && SubmittedAs(cfg, env, w, ld'.log[|w.ld.log|], call)
            else
              ld'.log == w.ld.log && ld'.drawn == w.ld.drawn
  {
    hide Run, Dispatched, Serving, ClassOf, ContextOf, CostOf, Payload, Workflows, OughtToEnforce, Variant, FamilyOf,
         Picked;
    var w, op := Run(cfg, env, inputs), Variant(call);
    IndexesAgree(cfg, env, inputs);
    NextLd(cfg, env, w, call);
    ServedLog(cfg, env, w, call);
    PayloadIsCost(op, call);
    if op != Sync {
      PickedExactly(cfg, env, w.ld, op, call);
    } else {
      FamilyOfOne(op);
      SyncPicksNothing(cfg, env, w.ld, call);
    }
  }

  lemma NextLd(cfg: Config, env: Env, w: World, call: Call)
    ensures Dispatched(cfg, env, w, call).0.ld
         == if ToLd(cfg, w.loaded, Variant(call)) then Serving(cfg, env, w, call).ld else w.ld
  {
    hide Variant, LdServed, WrapperOf, PtPosted, PtWrapperOf;
  }

  /** What an LdPreloaded wrapper submits, by the workflow it picks. */
  lemma ServedLog(cfg: Config, env: Env, w: World, call: Call)
    ensures var op, served := Variant(call), Serving(cfg, env, w, call);
            var (id, draws) := Picked(cfg, env, w.ld, FamilyOf(op), call);
            && (served.enforced <==> op == Sync || id != NO_WORKFLOW)
            && served.ld.drawn == w.ld.drawn + draws
            && served.ld.log == w.ld.log + (if id == NO_WORKFLOW then [] else
                 [Submission(id, ClassOf(op), ContextOf(op), Wrap(Payload(FamilyOf(op), call)), |w.trace|)])
  {
    hide Variant, Kind, Position, ClassOf, ContextOf, FamilyOf, Picked, Outcome, LdUpdate, Payload, Changed, Indexed;
    FamilyOfOne(Variant(call));
    IndexedKeeps(cfg, w.ld, FamilyOf(Variant(call)), call, Answer(env, w, call));
  }

  lemma PayloadIsCost(op: Op, call: Call)
    ensures Wrap(Payload(FamilyOf(op), call)) == CostOf(op, call)
  {
    hide FamilyOf;
    FamilyByDescriptor(op);
  }

  lemma IndexedKeeps(cfg: Config, ld: LdState, family: Family, call: Call, ret: int)
    ensures var ld' := Indexed(cfg, ld, family, call, ret); ld'.log == ld.log && ld'.drawn == ld.drawn
  {
  }

  lemma SyncPicksNothing(cfg: Config, env: Env, ld: LdState, call: Call)
    ensures Picked(cfg, env, ld, Flush, call) == (NO_WORKFLOW, 0)
  {
  }

  lemma OughtSubmits(cfg: Config, ld: LdState, op: Op, call: Call)
    requires op != Sync && OughtToEnforce(cfg, ld, op, call)
    ensures Submits(op)
  {
  }

  lemma SyncSubmitsNothing()
    ensures !Submits(Sync)
  {
  }

  lemma NextMembers(cfg: Config, env: Env, inputs: seq<Input>, call: Call, class_: Op)
    requires cfg.collectLd && |inputs| + 1 < TWO_64
    ensures var w := Run(cfg, env, inputs);
            var grows := Submitting(cfg, w, call) && ClassOf(Variant(call)) == class_;
            SumOfOps(Dispatched(cfg, env, w, call).0.ld.books, Members(class_))
            == SumOfOps(w.ld.books, Members(class_)) + (if grows then 1 else 0)
  {
    hide Run, Dispatched, ClassOf, Members, Submits, FamilyOf, OughtToEnforce, Position, Kind, Charge;
    var w, op, u := Run(cfg, env, inputs), Variant(call), Charge(cfg, env, Run(cfg, env, inputs), call);
    NextBooks(cfg, env, w, call);
    if ToLd(cfg, w.loaded, op) {
      ChargeVerdict(cfg, env, inputs, call);
      CountersBounded(cfg, env, inputs);
      MembersAreTheClass(class_, op);
      MembersDistinct(class_);
      assert CountersUpTo(SheetOf(w.ld.books, Kind(op))[Position(op)], |inputs|);
      SumOfOpsPosted(w.ld.books, op, u, Members(class_));
      if Submitting(cfg, w, call) {
        OughtSubmits(cfg, w.ld, op, call);
      } else {
        SyncSubmitsNothing();
      }
    }
  }

  lemma TaggedGrows(log: seq<Submission>, longer: seq<Submission>, class_: Op)
    requires |longer| == |log| + 1 && longer[..|log|] == log
    ensures Tagged(longer, class_) == Tagged(log, class_) + if longer[|log|].class_ == class_ then 1 else 0
  {
  }

  /** In every run the submissions of a class are exactly the operations counted by its members:
      for the open class the eight open, creat, openat and open64 entries, and so on. */
  lemma {:induction false} ClassConservation(cfg: Config, env: Env, inputs: seq<Input>, class_: Op)
    requires cfg.collectLd && |inputs| < TWO_64
    ensures Tagged(Run(cfg, env, inputs).ld.log, class_)
         == SumOfOps(Run(cfg, env, inputs).ld.books, Members(class_))
  {
    hide Dispatched, Members, ClassOf, Submitting;
    if inputs == [] {
      NewSums(Members(class_));
    } else {
      var front, last := inputs[..|inputs| - 1], inputs[|inputs| - 1];
      RunGrows(cfg, env, inputs);
      var w := Run(cfg, env, front);
      ClassConservation(cfg, env, front, class_);
      if last.Request? {
        NextMembers(cfg, env, front, last.call, class_);
        NextLog(cfg, env, front, last.call);
        if Submitting(cfg, w, last.call) {
          TaggedGrows(w.ld.log, Run(cfg, env, inputs).ld.log, class_);
        }
      }
    }
  }

  // The same, entry by entry, for the classes of several operations

  lemma SumAndOne(books: Books, ops: seq<Op>, last: Op)
    ensures SumOfOps(books, ops + [last]) == SumOfOps(books, ops) + CountersOf(books, last).op
  {
    hide CountersOf;
    assert (ops + [last])[..|ops|] == ops;
  }

  lemma SumOfTwo(books: Books, a: Op, b: Op)
    ensures SumOfOps(books, [a, b]) == CountersOf(books, a).op + CountersOf(books, b).op
  {
    hide CountersOf;
    assert [a, b] == [a] + [b] && [a] == [] + [a];
    SumAndOne(books, [], a);
    SumAndOne(books, [a], b);
  }

  lemma SumOfThree(books: Books, a: Op, b: Op, c: Op)
    ensures SumOfOps(books, [a, b, c])
         == CountersOf(books, a).op + CountersOf(books, b).op + CountersOf(books, c).op
  {
    hide CountersOf, SumOfOps;
    assert [a, b, c] == [a, b] + [c];
    SumOfTwo(books, a, b);
    SumAndOne(books, [a, b], c);
  }

  lemma {:induction false} SumOfBoth(books: Books, first: seq<Op>, second: seq<Op>)
    ensures SumOfOps(books, first + second) == SumOfOps(books, first) + SumOfOps(books, second)
  {
    hide CountersOf;
    if second == [] {
      assert first + second == first;
    } else {
      var n := |second| - 1;
      assert (first + second)[..|first + second| - 1] == first + second[..n];
      SumOfBoth(books, first, second[..n]);
    }
  }

  /** The submissions of the open class are the operations of its eight entries. */
  lemma OpenClassConservation(cfg: Config, env: Env, inputs: seq<Input>)
    requires cfg.collectLd && |inputs| < TWO_64
    ensures var ld := Run(cfg, env, inputs).ld;
            Tagged(ld.log, Open)
            == CountersOf(ld.books, Open).op + CountersOf(ld.books, OpenVariadic).op
               + CountersOf(ld.books, Open64).op + CountersOf(ld.books, Open64Variadic).op
               + CountersOf(ld.books, Creat).op + CountersOf(ld.books, Creat64).op
               + CountersOf(ld.books, Openat).op + CountersOf(ld.books, OpenatVariadic).op
  {
    hide Run, CountersOf, Tagged, SumOfOps;
    var books := Run(cfg, env, inputs).ld.books;
    ClassConservation(cfg, env, inputs, Open);
    assert Members(Open) == ([Open, OpenVariadic, Open64] + [Open64Variadic, Creat, Creat64]) + [Openat, OpenatVariadic];
    SumOfBoth(books, [Open, OpenVariadic, Open64] + [Open64Variadic, Creat, Creat64], [Openat, OpenatVariadic]);
    SumOfBoth(books, [Open, OpenVariadic, Open64], [Open64Variadic, Creat, Creat64]);
    SumOfThree(books, Open, OpenVariadic, Open64);
    SumOfThree(books, Open64Variadic, Creat, Creat64);
    SumOfTwo(books, Openat, OpenatVariadic);
  }

  /** Those of unlink, rename, mkdir and mknod are the operations of two entries each. */
  lemma PairClassConservation(cfg: Config, env: Env, inputs: seq<Input>)
    requires cfg.collectLd && |inputs| < TWO_64
    ensures var ld := Run(cfg, env, inputs).ld;
            && Tagged(ld.log, Unlink) == CountersOf(ld.books, Unlink).op + CountersOf(ld.books, Unlinkat).op
            && Tagged(ld.log, Rename) == CountersOf(ld.books, Rename).op + CountersOf(ld.books, Renameat).op
            && Tagged(ld.log, Mkdir) == CountersOf(ld.books, Mkdir).op + CountersOf(ld.books, Mkdirat).op
            && Tagged(ld.log, Mknod) == CountersOf(ld.books, Mknod).op + CountersOf(ld.books, Mknodat).op
  {
    hide Run, CountersOf, Tagged, SumOfOps;
    var books := Run(cfg, env, inputs).ld.books;
    ClassConservation(cfg, env, inputs, Unlink);
    ClassConservation(cfg, env, inputs, Rename);
    ClassConservation(cfg, env, inputs, Mkdir);
    ClassConservation(cfg, env, inputs, Mknod);
    SumOfTwo(books, Unlink, Unlinkat);
    SumOfTwo(books, Rename, Renameat);
    SumOfTwo(books, Mkdir, Mkdirat);
    SumOfTwo(books, Mknod, Mknodat);
  }

  /** Those of getxattr, setxattr and listxattr are the operations of three entries each. */
  lemma AttributeClassConservation(cfg: Config, env: Env, inputs: seq<Input>)
    requires cfg.collectLd && |inputs| < TWO_64
    ensures var ld := Run(cfg, env, inputs).ld;
            && Tagged(ld.log, Getxattr) == CountersOf(ld.books, Getxattr).op + CountersOf(ld.books, Lgetxattr).op
                                           + CountersOf(ld.books, Fgetxattr).op
            && Tagged(ld.log, Setxattr) == CountersOf(ld.books, Setxattr).op + CountersOf(ld.books, Lsetxattr).op
                                           + CountersOf(ld.books, Fsetxattr).op
            && Tagged(ld.log, Listxattr) == CountersOf(ld.books, Listxattr).op + CountersOf(ld.books, Llistxattr).op
                                            + CountersOf(ld.books, Flistxattr).op
  {
    hide Run, CountersOf, Tagged, SumOfOps;
    var books := Run(cfg, env, inputs).ld.books;
    ClassConservation(cfg, env, inputs, Getxattr);
    ClassConservation(cfg, env, inputs, Setxattr);
    ClassConservation(cfg, env, inputs, Listxattr);
    SumOfThree(books, Getxattr, Lgetxattr, Fgetxattr);
    SumOfThree(books, Setxattr, Lsetxattr, Fsetxattr);
    SumOfThree(books, Listxattr, Llistxattr, Flistxattr);
  }

  lemma {:induction false} NewSums(ops: seq<Op>)
    ensures SumOfOps(NEW_BOOKS, ops) == 0
  {
    if ops != [] {
      NewSums(ops[..|ops| - 1]);
      var op := ops[|ops| - 1];
      assert SheetOf(NEW_BOOKS, Kind(op)) == Zeros(Size(Kind(op)));
    }
  }

  /** All operation counters of a back end. */
  function AllOps(books: Books): nat {
    CategorySum(books, MetadataCalls, OpCount) + CategorySum(books, DataCalls, OpCount)
    + CategorySum(books, DirectoryCalls, OpCount) + CategorySum(books, ExtAttrCalls, OpCount)
    + CategorySum(books, SpecialCalls, OpCount)
  }

  lemma AllOpsChanged(books: Books, kind: OperationType, u: Update, n: nat)
    requires Bounded(books, n) && n + 1 < TWO_64 && u.pos < Size(kind) && Unit(u)
    ensures AllOps(Changed(books, kind, u)) == AllOps(books) + Amount(u, OpCount)
  {
    hide CategorySum, Changed, Bounded;
    CategorySumChanged(books, kind, u, n, MetadataCalls, OpCount);
    CategorySumChanged(books, kind, u, n, DataCalls, OpCount);
    CategorySumChanged(books, kind, u, n, DirectoryCalls, OpCount);
    CategorySumChanged(books, kind, u, n, ExtAttrCalls, OpCount);
    CategorySumChanged(books, kind, u, n, SpecialCalls, OpCount);
  }

  lemma NextAllOps(cfg: Config, env: Env, inputs: seq<Input>, call: Call)
    requires cfg.collectLd && |inputs| + 1 < TWO_64
    ensures var w, op := Run(cfg, env, inputs), Variant(call);
            var after, syncs := Dispatched(cfg, env, w, call).0.ld.books, op == Sync && ToLd(cfg, w.loaded, op);
            AllOps(after) == AllOps(w.ld.books) + (if Submitting(cfg, w, call) || syncs then 1 else 0)
            && CountersOf(after, Sync).op == CountersOf(w.ld.books, Sync).op + (if syncs then 1 else 0)
  {
    hide Run, Dispatched, OughtToEnforce, Position, Kind, Charge, AllOps;
    var w, op, u := Run(cfg, env, inputs), Variant(call), Charge(cfg, env, Run(cfg, env, inputs), call);
    NextBooks(cfg, env, w, call);
    if ToLd(cfg, w.loaded, op) {
      ChargeVerdict(cfg, env, inputs, call);
      CountersBounded(cfg, env, inputs);
      AllOpsChanged(w.ld.books, Kind(op), u, |inputs|);
      PostedCounters(w.ld.books, op, u, Sync);
      assert CountersUpTo(SheetOf(w.ld.books, Kind(op))[Position(op)], |inputs|);
      SyncIsEnforced(cfg, w.ld, call);
    }
  }

  /** In every run the length of the whole log is the sum of all operation counters minus that of
      sync, which is counted as enforced without submitting anything. */
  lemma {:induction false} LogLength(cfg: Config, env: Env, inputs: seq<Input>)
    requires cfg.collectLd && |inputs| < TWO_64
    ensures var ld := Run(cfg, env, inputs).ld;
            |ld.log| == AllOps(ld.books) - CountersOf(ld.books, Sync).op
  {
    hide Dispatched, AllOps, Submitting, CountersOf;
    if inputs == [] {
      BlankAllOps(NEW_BOOKS);
    } else {
      var front, last := inputs[..|inputs| - 1], inputs[|inputs| - 1];
      RunGrows(cfg, env, inputs);
      LogLength(cfg, env, front);
      if last.Request? {
        NextAllOps(cfg, env, front, last.call);
        NextLog(cfg, env, front, last.call);
        SubmittingIsNoSync(cfg, Run(cfg, env, front), last.call);
      }
    }
  }

  lemma SubmittingIsNoSync(cfg: Config, w: World, call: Call)
    ensures Submitting(cfg, w, call) ==> Variant(call) != Sync
  {
  }

  lemma BlankAllOps(books: Books)
    requires forall kind :: SheetOf(books, kind) == Zeros(Size(kind))
    ensures AllOps(books) == 0 && CountersOf(books, Sync).op == 0
  {
    hide SheetSum, SheetOf;
    BlankSum(books, MetadataCalls);
    BlankSum(books, DataCalls);
    BlankSum(books, DirectoryCalls);
    BlankSum(books, ExtAttrCalls);
    BlankSum(books, SpecialCalls);
    assert SheetOf(books, Kind(Sync)) == Zeros(Size(Kind(Sync)));
  }

  lemma BlankSum(books: Books, kind: OperationType)
    requires SheetOf(books, kind) == Zeros(Size(kind))
    ensures CategorySum(books, kind, OpCount) == 0
  {
    SheetSumZeros(Size(kind), OpCount);
  }

  // Tokens

  function Tokens(log: seq<Submission>): nat {
    if log == [] then 0 else Tokens(log[..|log| - 1]) + log[|log| - 1].cost
  }

  /** Submissions that are not reads or writes. */
  function Others(log: seq<Submission>): nat {
    if log == [] then 0
    else Others(log[..|log| - 1]) + if MovesBytes(log[|log| - 1].class_) then 0 else 1
  }

  /** The reads and writes of a run that are enforced, each measured by a function of its size. */
  ghost function EnforcedSizes(cfg: Config, env: Env, inputs: seq<Input>, measure: u64 -> nat): nat {
    if inputs == [] then 0
    else
      var front, last := inputs[..|inputs| - 1], inputs[|inputs| - 1];
      EnforcedSizes(cfg, env, front, measure)
      + if last.Request? && MovesBytes(Variant(last.call)) && Submitting(cfg, Run(cfg, env, front), last.call)
        then measure(last.call.size) else 0
  }

  /** In every run the tokens submitted are the narrowed sizes of the enforced reads and writes plus
      one per other submission. */
  lemma {:induction false} TokenConservation(cfg: Config, env: Env, inputs: seq<Input>)
    ensures var log := Run(cfg, env, inputs).ld.log;
            Tokens(log) == EnforcedSizes(cfg, env, inputs, size => TokenCost(size)) + Others(log)
  {
    hide Dispatched, Submitting, ClassOf, ContextOf, Workflows, MovesBytes, Variant, TokenCost;
    if inputs != [] {
      var front, last := inputs[..|inputs| - 1], inputs[|inputs| - 1];
      RunGrows(cfg, env, inputs);
      TokenConservation(cfg, env, front);
      if last.Request? {
        NextLog(cfg, env, front, last.call);
        ClassKeeps(Variant(last.call));
      }
    }
  }

  ghost predicate SmallTransfers(inputs: seq<Input>) {
    forall i | 0 <= i < |inputs| ::
      inputs[i].Request? && MovesBytes(Variant(inputs[i].call)) ==> inputs[i].call.size < TWO_31
  }

  lemma {:induction false} SmallSizes(cfg: Config, env: Env, inputs: seq<Input>)
    requires SmallTransfers(inputs)
    ensures EnforcedSizes(cfg, env, inputs, size => TokenCost(size)) == EnforcedSizes(cfg, env, inputs, size => size)
  {
    hide Run, Submitting, MovesBytes, Variant, TokenCost;
    if inputs != [] {
      SmallSizes(cfg, env, inputs[..|inputs| - 1]);
      var last := inputs[|inputs| - 1];
      if last.Request? {
        TokenCostExact(last.call.size);
      }
    }
  }

  /** So when the reads and writes are all below 2 GiB the tokens are their bytes and one per other
      submission. */
  lemma SmallTokenConservation(cfg: Config, env: Env, inputs: seq<Input>)
    requires SmallTransfers(inputs)
    ensures var log := Run(cfg, env, inputs).ld.log;
            Tokens(log) == EnforcedSizes(cfg, env, inputs, size => size) + Others(log)
  {
    hide Run, EnforcedSizes, Tokens, Others;
    TokenConservation(cfg, env, inputs);
    SmallSizes(cfg, env, inputs);
  }
}
