/** What every single statistics entry of both back ends holds after a run, told from the calls, their
    libc results and the paths in scope. */
module EntryAccounting {
  import opened Words
  import opened Operations
  import opened Accounting
  import opened MountPoints
  import opened Engine
  import opened Runs
  import opened Conservation

  // What one call counts, operation by operation

  predicate OnAttributes(op: Op) {
    op in {Getxattr, Lgetxattr, Fgetxattr, Setxattr, Lsetxattr, Fsetxattr, Listxattr, Llistxattr, Flistxattr}
  }

  /** The results LdPreloaded counts as errors. */
  predicate LdFails(op: Op, ret: int) {
    if op in {Fopen, Fopen64} then ret == 0
    else if op == Mmap then ret == -1
    else if op in {Mkdir, Mkdirat, Rmdir, Mknod, Mknodat} then ret != 0
    else op != Sync && ret < 0
  }

  /** What an enforced call adds to a counter of its entry; the result of an attribute call counts
      as bytes. */
  function LdEnforced(op: Op, ret: int, k: Counter): nat {
    match k
    case OpCount => 1
    case ByteCount => if (MovesBytes(op) || OnAttributes(op)) && ret >= 0 then Wrap(ret) else 0
    case ErrorCount => if LdFails(op, ret) then 1 else 0
    case BypassCount => 0
  }

  /** The results the passthrough counts as errors. */
  predicate PtFails(op: Op, ret: int) {
    if op in {Fopen, Fopen64} then ret == 0
    else if op in {Mmap, Socket} || OnAttributes(op) then ret == -1
    else if MovesBytes(op)
         || op in {Open, OpenVariadic, Open64, Open64Variadic, Creat, Creat64, Openat, OpenatVariadic, Close}
    then ret < 0
    else ret != 0
  }

  function PtAdds(op: Op, ret: int, k: Counter): nat {
    match k
    case OpCount => 1
    case ByteCount => if MovesBytes(op) && ret >= 0 then Wrap(ret) else 0
    case ErrorCount => if PtFails(op, ret) then 1 else 0
    case BypassCount => 0
  }

  /** The passthrough files a call under its own operation, but open64 with a mode under open64, and
      a sync nowhere. */
  predicate FiledUnder(op: Op, entry: Op) {
    if op == Open64Variadic then entry == Open64 else op != Sync && entry == op
  }

  lemma EnforcedAmount(op: Op, ret: int, k: Counter)
    requires op != Munmap && op != Socket && op != Fcntl
    ensures Amount(LdUpdate(Kind(op), Position(op), Outcome(FamilyOf(op), ret), true), k) == LdEnforced(op, ret, k)
  {
    hide Position, Wrap, Kind, FamilyOf;
    WrapSmall(0);
    AttributeKind(op);
    OutcomeOf(op, ret);
    if MovesBytes(op) || OnAttributes(op) {
      MovedOrFailed(op, ret);
    }
  }

  lemma OutcomeOf(op: Op, ret: int)
    ensures Outcome(FamilyOf(op), ret) == if op in {Fopen, Fopen64} then if ret != 0 then 0 else -1
                                          else if op == Mmap then if ret == -1 then -1 else 0
                                          else if op == Sync then 1 else ret
  {
  }

  lemma PassedAmount(op: Op, ret: int, k: Counter)
    requires op != Fcntl
    ensures Amount(PtUpdate(PtWrapperOf(op), ret), k) == PtAdds(op, ret, k)
  {
    hide Position, Kind, Wrap, RuleOf, Accepts, PtFails, FamilyOf, MovesBytes, CountedAs;
    RuleIsFailure(op, ret);
    FamilyByDescriptor(op);
    if MovesBytes(op) {
      MovedOrFailed(op, ret);
    }
  }

  lemma RuleIsFailure(op: Op, ret: int)
    requires op != Fcntl
    ensures Accepts(RuleOf(op), ret) <==> !PtFails(op, ret)
  {
    hide RuleOf, OnAttributes, MovesBytes;
    RuleTable(op);
  }

  lemma RuleTable(op: Op)
    requires op != Fcntl
    ensures RuleOf(op) == if op in {Fopen, Fopen64} then NotNull
                          else if op in {Mmap, Socket} || OnAttributes(op) then NotMinusOne
                          else if MovesBytes(op) || op in {Open, OpenVariadic, Open64, Open64Variadic, Creat,
                                                           Creat64, Openat, OpenatVariadic, Close}
                          then NonNegative else Zero
  {
    hide Kind;
    AttributeKind(op);
  }

  lemma AttributeKind(op: Op)
    ensures OnAttributes(op) <==> Kind(op) == ExtAttrCalls
    ensures MovesBytes(op) ==> Kind(op) == DataCalls
    ensures Kind(op) == DataCalls ==> MovesBytes(op) || op == Mmap || op == Munmap
    ensures Kind(op) == DirectoryCalls <==> op in {Mkdir, Mkdirat, Rmdir, Mknod, Mknodat}
  {
  }

  lemma MovedOrFailed(op: Op, ret: int)
    requires MovesBytes(op) || OnAttributes(op)
    ensures LdFails(op, ret) <==> ret < 0
    ensures MovesBytes(op) ==> (PtFails(op, ret) <==> ret < 0)
  {
  }

  lemma PassedEntry(op: Op, entry: Op)
    requires op != Sync
    ensures CountedAs(op) == entry <==> FiledUnder(op, entry)
  {
  }

  /** What a call adds to a counter of an entry of LdPreloaded. */
  ghost function LdAmount(cfg: Config, env: Env, w: World, call: Call, entry: Op, k: Counter): nat {
    if Variant(call) != entry || !ToLd(cfg, w.loaded, entry) || !cfg.collectLd then 0
    else if OughtToEnforce(cfg, w.ld, entry, call) then LdEnforced(entry, Answer(env, w, call), k)
    else if k == BypassCount then 1 else 0
  }

  /** What it adds to a counter of an entry of the passthrough. */
  ghost function PtAmount(cfg: Config, env: Env, w: World, call: Call, entry: Op, k: Counter): nat {
    var op := Variant(call);
    if ToLd(cfg, w.loaded, op) || !cfg.collectPt || !FiledUnder(op, entry) then 0
    else PtAdds(op, Answer(env, w, call), k)
  }

  // One step

  lemma ChargeAmount(cfg: Config, env: Env, inputs: seq<Input>, call: Call, k: Counter)
    ensures var w, op := Run(cfg, env, inputs), Variant(call);
            Amount(Charge(cfg, env, w, call), k)
            == if OughtToEnforce(cfg, w.ld, op, call) then LdEnforced(op, Answer(env, w, call), k)
               else if k == BypassCount then 1 else 0
  {
    hide Run, Variant, Position, Kind, FamilyOf, OughtToEnforce, Serving, LdEnforced, Outcome;
    var w, op := Run(cfg, env, inputs), Variant(call);
    EnforcedExactly(cfg, env, inputs, call);
    ServedAnswer(cfg, env, w, call);
    if OughtToEnforce(cfg, w.ld, op, call) {
      NeverEnforced(cfg, w.ld, op, call);
      EnforcedAmount(op, Answer(env, w, call), k);
    }
  }

  lemma ServedAnswer(cfg: Config, env: Env, w: World, call: Call)
    ensures Serving(cfg, env, w, call).ret == Answer(env, w, call)
  {
    hide Variant, WrapperOf, Picked, Indexed, LdPosted;
  }

  lemma NeverEnforced(cfg: Config, ld: LdState, op: Op, call: Call)
    requires OughtToEnforce(cfg, ld, op, call)
    ensures op != Munmap && op != Socket && op != Fcntl
  {
  }

  lemma NextLdField(cfg: Config, env: Env, inputs: seq<Input>, call: Call, entry: Op, k: Counter)
    ensures var w := Run(cfg, env, inputs);
            Field(CountersOf(Dispatched(cfg, env, w, call).0.ld.books, entry), k)
            == Wrap(Field(CountersOf(w.ld.books, entry), k) + LdAmount(cfg, env, w, call, entry, k))
  {
    hide Run, Dispatched, Charge, Amount, Field, CountersOf, Posted, Position, Variant, OughtToEnforce, LdEnforced,
         Answer, FamilyOf, Wrap;
    var w, op := Run(cfg, env, inputs), Variant(call);
    NextBooks(cfg, env, w, call);
    if ToLd(cfg, w.loaded, op) && cfg.collectLd {
      var u := Charge(cfg, env, w, call);
      ChargeVerdict(cfg, env, inputs, call);
      ChargeAmount(cfg, env, inputs, call, k);
      PostedCounters(w.ld.books, op, u, entry);
      FieldAfterCharge(CountersOf(w.ld.books, entry), u, k);
    }
    WrapSmall(Field(CountersOf(w.ld.books, entry), k));
  }

  lemma NextPtField(cfg: Config, env: Env, w: World, call: Call, entry: Op, k: Counter)
    ensures Field(CountersOf(Dispatched(cfg, env, w, call).0.passthrough, entry), k)
         == Wrap(Field(CountersOf(w.passthrough, entry), k) + PtAmount(cfg, env, w, call, entry, k))
  {
    hide Dispatched, Amount, Field, CountersOf, Position, Kind, Variant, PtAdds, CountedAs, FiledUnder, RuleOf,
         Wrap, Forwarded, PtUpdate, FamilyOf, Charge;
    var op, ret := Variant(call), Answer(env, w, call);
    NextBooks(cfg, env, w, call);
    if !ToLd(cfg, w.loaded, op) && op != Sync && cfg.collectPt {
      var u := PtUpdate(PtWrapperOf(op), ret);
      PassedPosition(op, ret);
      PassedAmount(op, ret, k);
      PassedEntry(op, entry);
      PostedCounters(w.passthrough, CountedAs(op), u, entry);
      FieldAfterCharge(CountersOf(w.passthrough, entry), u, k);
    }
    SyncFiledNowhere(entry);
    WrapSmall(Field(CountersOf(w.passthrough, entry), k));
  }

  lemma PassedPosition(op: Op, ret: int)
    ensures PtUpdate(PtWrapperOf(op), ret).pos == Position(CountedAs(op))
    ensures PtWrapperOf(op).kind == Kind(CountedAs(op))
  {
    hide Position, Kind, RuleOf, FamilyOf, Accepts, CountedAs;
  }

  lemma SyncFiledNowhere(entry: Op)
    ensures !FiledUnder(Sync, entry)
  {
  }

  // Whole runs

  /** What a run adds to a counter of an entry of LdPreloaded, before any wrapping. */
  ghost function LdTotal(cfg: Config, env: Env, inputs: seq<Input>, entry: Op, k: Counter): nat {
    if inputs == [] then 0
    else
      var front, last := inputs[..|inputs| - 1], inputs[|inputs| - 1];
      LdTotal(cfg, env, front, entry, k)
      + if last.Request? then LdAmount(cfg, env, Run(cfg, env, front), last.call, entry, k) else 0
  }

  ghost function PtTotal(cfg: Config, env: Env, inputs: seq<Input>, entry: Op, k: Counter): nat {
    if inputs == [] then 0
    else
      var front, last := inputs[..|inputs| - 1], inputs[|inputs| - 1];
      PtTotal(cfg, env, front, entry, k)
      + if last.Request? then PtAmount(cfg, env, Run(cfg, env, front), last.call, entry, k) else 0
  }

  lemma NewField(op: Op, k: Counter)
    ensures Field(CountersOf(NEW_BOOKS, op), k) == 0
  {
    hide Position;
    assert SheetOf(NEW_BOOKS, Kind(op)) == Zeros(Size(Kind(op)));
  }

  /** After any run every counter of LdPreloaded is the sum modulo 2^64 of what the calls of exactly
      its operation add ... */
  lemma {:induction false} RunAccounting(cfg: Config, env: Env, inputs: seq<Input>, entry: Op, k: Counter)
    ensures Field(CountersOf(Run(cfg, env, inputs).ld.books, entry), k) == Wrap(LdTotal(cfg, env, inputs, entry, k))
  {
    hide Dispatched, LdAmount, Field, CountersOf, Wrap;
    if inputs == [] {
      NewField(entry, k);
      WrapSmall(0);
    } else {
      var front, last := inputs[..|inputs| - 1], inputs[|inputs| - 1];
      RunGrows(cfg, env, inputs);
      var w := Run(cfg, env, front);
      RunAccounting(cfg, env, front, entry, k);
      if last.Request? {
        NextLdField(cfg, env, front, last.call, entry, k);
        WrapAdd(LdTotal(cfg, env, front, entry, k), LdAmount(cfg, env, w, last.call, entry, k));
      }
    }
  }

  /** ... and every counter of the passthrough that of the calls filed under its entry. */
  lemma {:induction false} PassthroughAccounting(cfg: Config, env: Env, inputs: seq<Input>, entry: Op, k: Counter)
    ensures Field(CountersOf(Run(cfg, env, inputs).passthrough, entry), k) == Wrap(PtTotal(cfg, env, inputs, entry, k))
  {
    hide Dispatched, PtAmount, Field, CountersOf, Wrap;
    if inputs == [] {
      NewField(entry, k);
      WrapSmall(0);
    } else {
      var front, last := inputs[..|inputs| - 1], inputs[|inputs| - 1];
      RunGrows(cfg, env, inputs);
      var w := Run(cfg, env, front);
      PassthroughAccounting(cfg, env, front, entry, k);
      if last.Request? {
        NextPtField(cfg, env, w, last.call, entry, k);
        WrapAdd(PtTotal(cfg, env, front, entry, k), PtAmount(cfg, env, w, last.call, entry, k));
      }
    }
  }

  // Both back ends together, operation by operation

  /** The calls to an operation. */
  function CallsTo(inputs: seq<Input>, op: Op): nat {
    if inputs == [] then 0
    else
      var last := inputs[|inputs| - 1];
      CallsTo(inputs[..|inputs| - 1], op) + if last.Request? && Variant(last.call) == op then 1 else 0
  }

  /** What both back ends recorded for an operation. */
  function Recorded(w: World, op: Op): nat {
    CountersOf(w.ld.books, op).op + CountersOf(w.ld.books, op).bypass + CountersOf(w.passthrough, op).op
  }

  /** What a call adds to it. */
  function Records(cfg: Config, loaded: bool, call: Call, op: Op): nat {
    if ToLd(cfg, loaded, Variant(call)) then if Variant(call) == op then 1 else 0
    else if FiledUnder(Variant(call), op) then 1 else 0
  }

  lemma NextRecorded(cfg: Config, env: Env, inputs: seq<Input>, call: Call, op: Op)
    requires cfg.collectLd && cfg.collectPt && |inputs| + 1 < TWO_64
    ensures var w := Run(cfg, env, inputs);
            Recorded(Dispatched(cfg, env, w, call).0, op) == Recorded(w, op) + Records(cfg, w.loaded, call, op)
  {
    hide Run, Dispatched, Variant, Position, Kind, FiledUnder, Wrap, CountersOf, LdAmount, PtAmount, ToLd;
    var w := Run(cfg, env, inputs);
    NextLdField(cfg, env, inputs, call, op, OpCount);
    NextLdField(cfg, env, inputs, call, op, BypassCount);
    NextPtField(cfg, env, w, call, op, OpCount);
    EntryBounded(cfg, env, inputs, op);
    OneRecord(cfg, env, w, call, op);
    WrapSmall(CountersOf(w.ld.books, op).op + LdAmount(cfg, env, w, call, op, OpCount));
    WrapSmall(CountersOf(w.ld.books, op).bypass + LdAmount(cfg, env, w, call, op, BypassCount));
    WrapSmall(CountersOf(w.passthrough, op).op + PtAmount(cfg, env, w, call, op, OpCount));
  }

  lemma OneRecord(cfg: Config, env: Env, w: World, call: Call, op: Op)
    requires cfg.collectLd && cfg.collectPt
    ensures LdAmount(cfg, env, w, call, op, OpCount) + LdAmount(cfg, env, w, call, op, BypassCount)
            + PtAmount(cfg, env, w, call, op, OpCount)
         == Records(cfg, w.loaded, call, op)
  {
    hide Variant, OughtToEnforce, FamilyOf, FiledUnder, Answer, Wrap, ToLd;
  }

  lemma EntryBounded(cfg: Config, env: Env, inputs: seq<Input>, op: Op)
    requires |inputs| < TWO_64
    ensures var w := Run(cfg, env, inputs);
            CountersUpTo(CountersOf(w.ld.books, op), |inputs|) && CountersUpTo(CountersOf(w.passthrough, op), |inputs|)
  {
    hide Run, Position, Kind, CountersUpTo;
    CountersBounded(cfg, env, inputs);
  }

  /** For any intercept flags and any moment of loading, what both back ends recorded for an operation
      is the number of calls to it, save that the passthrough records no sync and records an open64
      with a mode as an open64. */
  lemma {:induction false} OperationConservation(cfg: Config, env: Env, inputs: seq<Input>, op: Op)
    requires cfg.collectLd && cfg.collectPt && |inputs| < TWO_64
    ensures Recorded(Run(cfg, env, inputs), op)
            + (if op == Sync || op == Open64Variadic then PassedCalls(cfg, inputs, op) else 0)
         == CallsTo(inputs, op) + (if op == Open64 then PassedCalls(cfg, inputs, Open64Variadic) else 0)
  {
    hide Dispatched, Recorded, Records, Variant, ToLd;
    hide CallsTo, PassedCalls;
    if inputs == [] {
      NothingYet(cfg, op);
      NewRecorded(op);
    } else {
      var front, last := inputs[..|inputs| - 1], inputs[|inputs| - 1];
      RunGrows(cfg, env, inputs);
      OperationConservation(cfg, env, front, op);
      CountsGrow(cfg, inputs, op);
      CountsGrow(cfg, inputs, Open64Variadic);
      LoadedOnceLoaded(cfg, env, front);
      if last.Request? {
        NextRecorded(cfg, env, front, last.call, op);
        RecordsOrPasses(cfg, Loaded in front, last.call, op);
      } else {
        RecordedWhenLoaded(Run(cfg, env, front), op);
      }
    }
  }

  lemma RecordsOrPasses(cfg: Config, loaded: bool, call: Call, op: Op)
    ensures Records(cfg, loaded, call, op)
            + (if (op == Sync || op == Open64Variadic) && Variant(call) == op && !ToLd(cfg, loaded, op) then 1 else 0)
         == (if Variant(call) == op then 1 else 0)
            + (if op == Open64 && Variant(call) == Open64Variadic && !ToLd(cfg, loaded, Open64Variadic) then 1 else 0)
  {
    hide Variant, ToLd, FiledUnder;
    var v := Variant(call);
    if !ToLd(cfg, loaded, v) {
      FiledOnce(v, op);
    }
  }

  lemma FiledOnce(v: Op, op: Op)
    ensures (if FiledUnder(v, op) then 1 else 0) + (if (op == Sync || op == Open64Variadic) && v == op then 1 else 0)
         == (if v == op then 1 else 0) + (if op == Open64 && v == Open64Variadic then 1 else 0)
  {
    if v != op {
      assert FiledUnder(v, op) <==> v == Open64Variadic && op == Open64;
    }
  }

  lemma CountsGrow(cfg: Config, inputs: seq<Input>, op: Op)
    requires inputs != []
    ensures var front, last := inputs[..|inputs| - 1], inputs[|inputs| - 1];
            && CallsTo(inputs, op) == CallsTo(front, op) + (if last.Request? && Variant(last.call) == op then 1 else 0)
            && PassedCalls(cfg, inputs, op) == PassedCalls(cfg, front, op)
               + (if last.Request? && Variant(last.call) == op && !ToLd(cfg, Loaded in front, op) then 1 else 0)
  {
    hide Variant, ToLd;
  }

  lemma RecordedWhenLoaded(w: World, op: Op)
    ensures Recorded(w.(loaded := true), op) == Recorded(w, op)
  {
  }

  lemma NothingYet(cfg: Config, op: Op)
    ensures CallsTo([], op) == 0 && PassedCalls(cfg, [], op) == 0 && PassedCalls(cfg, [], Open64Variadic) == 0
  {
  }

  lemma NewRecorded(op: Op)
    ensures Recorded(NEW_WORLD, op) == 0
  {
    hide CountersOf;
    NewField(op, OpCount);
    NewField(op, BypassCount);
  }
}
