/** Whole runs of the application over the engine, and the invariants of every reachable state. */
module Runs {
  import opened Words
  import opened Operations
  import opened Accounting
  import opened MountPoints
  import opened MountPointTable
  import opened Engine

  /** What happens next: the LdPreloaded back end becomes ready, or the application makes a call. */
  datatype Input = Loaded | Request(call: Call)

  /** The state after a sequence of inputs. */
  function Run(cfg: Config, env: Env, inputs: seq<Input>): World
    decreases |inputs|, 0
  {
    if inputs == [] then NEW_WORLD else After(cfg, env, inputs[..|inputs| - 1], inputs[|inputs| - 1])
  }

  /** The state after one more input. */
  function After(cfg: Config, env: Env, inputs: seq<Input>, input: Input): World
    decreases |inputs|, 2
  {
    match input
    case Loaded => Run(cfg, env, inputs).(loaded := true)
    case Request(call) => AfterCall(cfg, env, inputs, call)
  }

  /** The state after one more call. */
  function AfterCall(cfg: Config, env: Env, inputs: seq<Input>, call: Call): World
    decreases |inputs|, 1
  {
    Dispatched(cfg, env, Run(cfg, env, inputs), call).0
  }

  lemma RunGrows(cfg: Config, env: Env, inputs: seq<Input>)
    requires inputs != []
    ensures var w := Run(cfg, env, inputs[..|inputs| - 1]);
            Run(cfg, env, inputs) == match inputs[|inputs| - 1]
                                     case Loaded => w.(loaded := true)
                                     case Request(call) => Dispatched(cfg, env, w, call).0
  {
    hide Dispatched;
    assert Run(cfg, env, inputs) == After(cfg, env, inputs[..|inputs| - 1], inputs[|inputs| - 1]);
    match inputs[|inputs| - 1] {
      case Loaded =>
      case Request(call) =>
        assert AfterCall(cfg, env, inputs[..|inputs| - 1], call)
            == Dispatched(cfg, env, Run(cfg, env, inputs[..|inputs| - 1]), call).0;
    }
  }

  /** The libc result of the next call. */
  function Answer(env: Env, w: World, call: Call): int {
    env.answer(w.trace, Forwarded(Variant(call), call))
  }

  function Lookup(index: Index, key: int): Option<Entry> {
    if key in index then Some(index[key]) else None
  }

  // The indexes agree with what they cache

  /** Keys are valid and every stored mount point is the classification of the stored path. */
  ghost predicate FdsSound(cfg: Config, index: Index) {
    forall fd | fd in index :: ValidFd(fd) && index[fd].mount == Classify(cfg, index[fd].path)
  }

  ghost predicate StreamsSound(cfg: Config, index: Index) {
    forall s | s in index :: ValidStream(cfg, s) && index[s].mount == Classify(cfg, index[s].path)
  }

  lemma IndexedSound(cfg: Config, ld: LdState, family: Family, call: Call, ret: int)
    requires FdsSound(cfg, ld.fds) && StreamsSound(cfg, ld.streams)
    ensures FdsSound(cfg, Indexed(cfg, ld, family, call, ret).fds)
    ensures StreamsSound(cfg, Indexed(cfg, ld, family, call, ret).streams)
  {
  }

  lemma NextIndexes(cfg: Config, env: Env, w: World, call: Call)
    ensures var op, w' := Variant(call), Dispatched(cfg, env, w, call).0;
            if ToLd(cfg, w.loaded, op) then
              var ret := env.answer(w.trace, Forwarded(op, call));
              w'.ld.fds == Indexed(cfg, w.ld, FamilyOf(op), call, ret).fds
              && w'.ld.streams == Indexed(cfg, w.ld, FamilyOf(op), call, ret).streams
            else
              w'.ld == w.ld
  {
  }

  /** In every reachable state both indexes are sound. */
  lemma {:induction false} IndexesAgree(cfg: Config, env: Env, inputs: seq<Input>)
    ensures FdsSound(cfg, Run(cfg, env, inputs).ld.fds)
    ensures StreamsSound(cfg, Run(cfg, env, inputs).ld.streams)
  {
    if inputs != [] {
      var front, last := inputs[..|inputs| - 1], inputs[|inputs| - 1];
      RunGrows(cfg, env, inputs);
      var w := Run(cfg, env, front);
      IndexesAgree(cfg, env, front);
      if last.Request? {
        var op := Variant(last.call);
        NextIndexes(cfg, env, w, last.call);
        IndexedSound(cfg, w.ld, FamilyOf(op), last.call, env.answer(w.trace, Forwarded(op, last.call)));
      }
    }
  }

  // Which calls are enforced

  /** The calls PADLL is meant to enforce, told operation by operation and from paths alone: the path
      of the call, or the path under which its descriptor or stream was registered. A close is
      enforced whatever it closes; munmap, socket and fcntl never are. */
  ghost predicate OughtToEnforce(cfg: Config, ld: LdState, op: Op, call: Call) {
    if TakesPath(op) then InScope(cfg, call.path)
    else if TakesDescriptor(op) then call.fd in ld.fds && InScope(cfg, ld.fds[call.fd].path)
    else if op == Fclose then call.stream in ld.streams && InScope(cfg, ld.streams[call.stream].path)
    else op == Close || op == Sync
  }

  /** One generator output picks a workflow of the mount point that has workflows, by its remainder;
      for any other mount point none is drawn. */
  lemma SelectionExact(cfg: Config, mount: MountPoint, output: u32)
    ensures var ids := Workflows(cfg);
            Selection(cfg, mount, output)
            == if mount == HomeMount(cfg) then (ids[output % |ids|], 1) else (NO_WORKFLOW, 0)
    ensures Selection(cfg, mount, output).0 != NO_WORKFLOW <==> mount == HomeMount(cfg)
  {
    WorkflowsAreSound(cfg);
  }

  lemma ScopeIsHome(cfg: Config, path: string)
    ensures InScope(cfg, path) <==> Classify(cfg, path) == HomeMount(cfg)
  {
  }

  /** A call that ought to be enforced picks the workflow the next generator output selects, any other
      call the sentinel, without drawing. */
  lemma PickedExactly(cfg: Config, env: Env, ld: LdState, op: Op, call: Call)
    requires FdsSound(cfg, ld.fds) && StreamsSound(cfg, ld.streams) && op != Sync
    ensures var ids := Workflows(cfg);
            Picked(cfg, env, ld, FamilyOf(op), call)
            == if OughtToEnforce(cfg, ld, op, call) then (ids[env.outputs(ld.drawn) % |ids|], 1) else (NO_WORKFLOW, 0)
    ensures Picked(cfg, env, ld, FamilyOf(op), call).0 != NO_WORKFLOW <==> OughtToEnforce(cfg, ld, op, call)
  {
    hide FamilyOf, TakesPath, TakesDescriptor, InScope, Classify, Workflows, Selection;
    var output := env.outputs(ld.drawn);
    FamilyByDescriptor(op);
    FamilyByPath(op);
    FamilyOfOne(op);
    match FamilyOf(op) {
      case OpenFile | OpenStream | PathCall =>
        ScopeIsHome(cfg, call.path);
        SelectionExact(cfg, Classify(cfg, call.path), output);
      case Transfer | MapMemory | FdCall =>
        if call.fd in ld.fds {
          ScopeIsHome(cfg, ld.fds[call.fd].path);
          SelectionExact(cfg, ld.fds[call.fd].mount, output);
        }
      case CloseStream =>
        if call.stream in ld.streams {
          ScopeIsHome(cfg, ld.streams[call.stream].path);
          SelectionExact(cfg, ld.streams[call.stream].mount, output);
        }
      case CloseFile =>
        SelectionExact(cfg, HomeMount(cfg), output);
      case UnmapMemory | Flush | MakeSocket | Control =>
    }
  }

  /** What an LdPreloaded wrapper does in the state a run has reached. */
  function Serving(cfg: Config, env: Env, w: World, call: Call): Served {
    var op := Variant(call);
    LdServed(cfg, env, w.ld, w.trace, WrapperOf(op), call, Forwarded(op, call))
  }

  /** In every reachable state a wrapper enforces exactly the calls that ought to be enforced. */
  lemma EnforcedExactly(cfg: Config, env: Env, inputs: seq<Input>, call: Call)
    ensures var w := Run(cfg, env, inputs);
            Serving(cfg, env, w, call).enforced <==> OughtToEnforce(cfg, w.ld, Variant(call), call)
  {
    hide Run, Variant, FamilyOf, OughtToEnforce, Picked, Indexed, LdPosted, Forwarded;
    var w, op := Run(cfg, env, inputs), Variant(call);
    IndexesAgree(cfg, env, inputs);
    FamilyOfOne(op);
    if op != Sync {
      PickedExactly(cfg, env, w.ld, op, call);
    } else {
      SyncIsEnforced(cfg, w.ld, call);
    }
  }

  lemma SyncIsEnforced(cfg: Config, ld: LdState, call: Call)
    ensures OughtToEnforce(cfg, ld, Sync, call)
  {
  }

  /** So a call through a registered descriptor is enforced like a call on the registered path. */
  lemma DescriptorLikePath(cfg: Config, env: Env, inputs: seq<Input>, byFd: Call, byPath: Call)
    requires TakesDescriptor(Variant(byFd)) && TakesPath(Variant(byPath))
    requires byFd.fd in Run(cfg, env, inputs).ld.fds
    requires byPath.path == Run(cfg, env, inputs).ld.fds[byFd.fd].path
    ensures var w := Run(cfg, env, inputs);
            Serving(cfg, env, w, byFd).enforced == Serving(cfg, env, w, byPath).enforced
  {
    hide Serving, Run, Variant, InScope;
    EnforcedExactly(cfg, env, inputs, byFd);
    EnforcedExactly(cfg, env, inputs, byPath);
  }

  // How one call changes the counters

  /** The counters of an operation after an update of another one or of its own. */
  lemma PostedCounters(books: Books, op: Op, u: Update, other: Op)
    requires u.pos == Position(op)
    ensures CountersOf(Posted(books, op, u), other)
         == if other == op then Charged(CountersOf(books, op), u) else CountersOf(books, other)
  {
    hide Kind, Position;
    if Kind(other) == Kind(op) && Position(other) == Position(op) {
      PositionInjective(op, other);
    }
  }

  function Charge(cfg: Config, env: Env, w: World, call: Call): Update {
    var op, served := Variant(call), Serving(cfg, env, w, call);
    LdUpdate(Kind(op), Position(op), Outcome(FamilyOf(op), served.ret), served.enforced)
  }

  lemma NextBooks(cfg: Config, env: Env, w: World, call: Call)
    ensures var op, w' := Variant(call), Dispatched(cfg, env, w, call).0;
            if ToLd(cfg, w.loaded, op) then
              w'.passthrough == w.passthrough
              && w'.ld.books == if cfg.collectLd then Posted(w.ld.books, op, Charge(cfg, env, w, call)) else w.ld.books
            else
              w'.ld == w.ld
              && w'.passthrough == if op == Sync then w.passthrough
                 else PtPosted(cfg, w.passthrough, PtWrapperOf(op), env.answer(w.trace, Forwarded(op, call)))
  {
  }

  // Verdicts of the fallback paths

  ghost predicate FallbacksKept(books: Books) {
    && CountersOf(books, Close).bypass == 0 && CountersOf(books, Munmap).op == 0
    && CountersOf(books, Socket).op == 0 && CountersOf(books, Fcntl).op == 0
  }

  lemma FallbackStep(books: Books, op: Op, u: Update)
    requires FallbacksKept(books) && u.pos == Position(op)
    requires op == Close ==> !u.Bypass?
    requires op == Munmap || op == Socket || op == Fcntl ==> u.Bypass?
    ensures FallbacksKept(Posted(books, op, u))
  {
    hide CountersOf, Posted, Position;
    PostedCounters(books, op, u, Close);
    PostedCounters(books, op, u, Munmap);
    PostedCounters(books, op, u, Socket);
    PostedCounters(books, op, u, Fcntl);
  }

  /** The update charged for a call bypasses it exactly when it ought not to be enforced. */
  lemma ChargeVerdict(cfg: Config, env: Env, inputs: seq<Input>, call: Call)
    ensures var w := Run(cfg, env, inputs);
            var u := Charge(cfg, env, w, call);
            u.pos == Position(Variant(call))
            && (u.Bypass? <==> !OughtToEnforce(cfg, w.ld, Variant(call), call))
            && Amount(u, OpCount) + Amount(u, BypassCount) == 1
            && Amount(u, ErrorCount) <= Amount(u, OpCount)
            && Amount(u, OpCount) == if u.Bypass? then 0 else 1
  {
    hide Serving, Run, OughtToEnforce, FamilyOf, Position, Kind, Variant;
    EnforcedExactly(cfg, env, inputs, call);
  }

  lemma FallbackCharge(cfg: Config, env: Env, inputs: seq<Input>, call: Call)
    ensures var op, u := Variant(call), Charge(cfg, env, Run(cfg, env, inputs), call);
            && (op == Close ==> !u.Bypass?)
            && (op == Munmap || op == Socket || op == Fcntl ==> u.Bypass?)
  {
    hide Serving, Run, Charge;
    ChargeVerdict(cfg, env, inputs, call);
  }

  lemma FallbackNext(cfg: Config, env: Env, inputs: seq<Input>, call: Call)
    requires FallbacksKept(Run(cfg, env, inputs).ld.books)
    ensures FallbacksKept(Dispatched(cfg, env, Run(cfg, env, inputs), call).0.ld.books)
  {
    hide Serving, Run, Charge, Dispatched;
    var w := Run(cfg, env, inputs);
    var u := Charge(cfg, env, w, call);
    ChargeVerdict(cfg, env, inputs, call);
    NextBooks(cfg, env, w, call);
    if ToLd(cfg, w.loaded, Variant(call)) && cfg.collectLd {
      FallbackCharge(cfg, env, inputs, call);
      FallbackStep(w.ld.books, Variant(call), u);
    }
  }

  /** In every run close is never bypassed, and munmap, socket and fcntl are never enforced. */
  lemma {:induction false} FallbackVerdicts(cfg: Config, env: Env, inputs: seq<Input>)
    ensures FallbacksKept(Run(cfg, env, inputs).ld.books)
  {
    if inputs != [] {
      var front, last := inputs[..|inputs| - 1], inputs[|inputs| - 1];
      RunGrows(cfg, env, inputs);
      FallbackVerdicts(cfg, env, front);
      if last.Request? {
        FallbackNext(cfg, env, front, last.call);
      }
    }
  }
}
