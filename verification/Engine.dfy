/** The meaning of one intercepted call: which back end serves it, what it submits to the stage,
    which libc call it makes, and how it changes the indexes and the counters. */
module Engine {
  import opened Words
  import opened Operations
  import opened Accounting
  import opened MountPoints
  import opened MountPointTable

  datatype Option<+T> = None | Some(value: T)

  // Calls and libc

  /** The open functions for which the dispatcher separates the form with a mode. */
  predicate IsVariadicForm(op: Op) {
    op.OpenVariadic? || op.Open64Variadic? || op.OpenatVariadic?
  }

  /** A function exported by libc. */
  type Function = op: Op | !IsVariadicForm(op) witness Open

  /** Linux commands of fcntl that duplicate a descriptor. */
  const F_DUPFD := 0
  const F_DUPFD_CLOEXEC := 1030

  /** A call of a libc function. Fields its signature lacks are ignored: `path` is the path that
      is classified (the new one of a rename), `text` any other string, `creates` the O_CREAT bit
      of the flags, `mode` the optional argument of the open functions, `rest` everything else. */
  datatype Call = Call(
    fn: Function,
    path: string,
    text: string,
    fd: int,
    stream: int,
    size: u64,
    creates: bool,
    mode: Option<int>,
    cmd: int,
    rest: seq<int>)

  /** A libc call and its result. Descriptors, byte counts and statuses are their values, streams
      and mappings their addresses (0 for a null stream, -1 for MAP_FAILED). */
  datatype Event = Event(call: Call, ret: int)

  /** What the program cannot control: libc and the kernel answer a call depending on the calls
      before it in any way whatsoever, and the generator outputs any numbers. */
  datatype Env = Env(answer: (seq<Event>, Call) -> int, outputs: nat -> u32)

  function Variant(call: Call): Op {
    if !call.creates then call.fn
    else
      match call.fn
      case Open => OpenVariadic
      case Open64 => Open64Variadic
      case Openat => OpenatVariadic
      case fn => fn
  }

  /** The forms of the open functions that take no mode. */
  predicate DropsMode(op: Op) {
    op.Open? || op.Open64? || op.Openat?
  }

  function Issued(dropsMode: bool, call: Call): Call {
    if dropsMode then call.(mode := None) else call
  }

  /** The libc call the wrapper of an operation makes: the call it serves, less a mode it drops. */
  function Forwarded(op: Op, call: Call): Call {
    Issued(DropsMode(op), call)
  }

  // Counters of a back end

  datatype RawBooks = Books(metadata: Sheet, data: Sheet, directory: Sheet, extAttr: Sheet, special: Sheet)

  function SheetOf(books: RawBooks, kind: OperationType): Sheet {
    match kind
    case MetadataCalls => books.metadata
    case DataCalls => books.data
    case DirectoryCalls => books.directory
    case ExtAttrCalls => books.extAttr
    case SpecialCalls => books.special
  }

  predicate Sized(books: RawBooks) {
    |books.metadata| == 22 && |books.data| == 9 && |books.directory| == 6 && |books.extAttr| == 10
    && |books.special| == 3
  }

  type Books = b: RawBooks | Sized(b) witness Books(Zeros(22), Zeros(9), Zeros(6), Zeros(10), Zeros(3))

  const NEW_BOOKS: Books := Books(Zeros(22), Zeros(9), Zeros(6), Zeros(10), Zeros(3))

  function WithSheet(books: Books, kind: OperationType, sheet: Sheet): Books
    requires |sheet| == Size(kind)
  {
    match kind
    case MetadataCalls => books.(metadata := sheet)
    case DataCalls => books.(data := sheet)
    case DirectoryCalls => books.(directory := sheet)
    case ExtAttrCalls => books.(extAttr := sheet)
    case SpecialCalls => books.(special := sheet)
  }

  function CountersOf(books: Books, op: Op): Counters {
    SheetOf(books, Kind(op))[Position(op)]
  }

  /** The five sheets after an update of one of them. */
  function Changed(books: Books, kind: OperationType, u: Update): Books
    requires u.pos < Size(kind)
  {
    WithSheet(books, kind, Apply(SheetOf(books, kind), u))
  }

  lemma SameSheets(a: Books, b: Books)
    requires forall kind :: SheetOf(a, kind) == SheetOf(b, kind)
    ensures a == b
  {
    assert SheetOf(a, MetadataCalls) == SheetOf(b, MetadataCalls);
    assert SheetOf(a, DataCalls) == SheetOf(b, DataCalls);
    assert SheetOf(a, DirectoryCalls) == SheetOf(b, DirectoryCalls);
    assert SheetOf(a, ExtAttrCalls) == SheetOf(b, ExtAttrCalls);
    assert SheetOf(a, SpecialCalls) == SheetOf(b, SpecialCalls);
  }

  function Posted(books: Books, op: Op, u: Update): Books
    requires u.pos == Position(op)
  {
    Changed(books, Kind(op), u)
  }

  // The LdPreloaded back end

  /** What tells the wrappers apart: the steps they share with their family, the entry they are
      counted under, and the tags of their requests. */
  datatype RawWrapper = Wrapper(
    family: Family, kind: OperationType, position: nat, class_: Op, context: Context, dropsMode: bool)

  type Wrapper = w: RawWrapper | w.position < Size(w.kind) && (w.dropsMode ==> w.family == OpenFile)
    witness Wrapper(OpenFile, MetadataCalls, 1, Open, MetaContext, true)

  function WrapperOf(op: Op): Wrapper {
    Wrapper(FamilyOf(op), Kind(op), Position(op), ClassOf(op), ContextOf(op), DropsMode(op))
  }

  /** A request as PAIO receives it, with the number of libc calls made before it. */
  datatype Submission = Submission(workflow: u32, class_: Op, context: Context, cost: u64, calls: nat)

  datatype LdState = LdState(fds: Index, streams: Index, drawn: nat, log: seq<Submission>, books: Books)

  /** The mount point and workflow of a call, and the generator outputs drawn to pick it. */
  function Picked(cfg: Config, env: Env, ld: LdState, family: Family, call: Call): (u32, nat) {
    match family
    case OpenFile | OpenStream | PathCall => Selection(cfg, Classify(cfg, call.path), env.outputs(ld.drawn))
    case Transfer | MapMemory | FdCall =>
      if ValidFd(call.fd) && call.fd in ld.fds
      then Selection(cfg, ld.fds[call.fd].mount, env.outputs(ld.drawn)) else (NO_WORKFLOW, 0)
    case CloseStream =>
      if ValidStream(cfg, call.stream) && call.stream in ld.streams
      then Selection(cfg, ld.streams[call.stream].mount, env.outputs(ld.drawn)) else (NO_WORKFLOW, 0)
    case CloseFile => Selection(cfg, HomeMount(cfg), env.outputs(ld.drawn))
    case UnmapMemory | Flush | MakeSocket | Control => (NO_WORKFLOW, 0)
  }

  /** The `int` payload of the request: the narrowed size for reads and writes, else one. */
  function Payload(family: Family, call: Call): int {
    if family == Transfer then ToInt(call.size) else 1
  }

  /** The result handed to the statistics. */
  function Outcome(family: Family, ret: int): int {
    match family
    case OpenStream => if ret != 0 then 0 else -1
    case MapMemory => if ret == -1 then -1 else 0
    case Flush => 1
    case _ => ret
  }

  predicate Succeeded(kind: OperationType, result: int) {
    if kind == DirectoryCalls then result == 0 else result >= 0
  }

  function Carried(kind: OperationType, result: int): int {
    if kind == DataCalls || kind == ExtAttrCalls then result else 0
  }

  function LdUpdate(kind: OperationType, position: nat, result: int, enforced: bool): Update {
    if !enforced then Bypass(position, 1)
    else if Succeeded(kind, result) then Plain(position, 1, Wrap(Carried(kind, result)))
    else Failing(position, 1, 0, 1)
  }

  function LdPosted(cfg: Config, books: Books, w: Wrapper, result: int, enforced: bool): Books {
    if cfg.collectLd then Changed(books, w.kind, LdUpdate(w.kind, w.position, result, enforced)) else books
  }

  /** How the libc result changes the indexes. */
  function Indexed(cfg: Config, ld: LdState, family: Family, call: Call, ret: int): LdState {
    match family
    case OpenFile =>
      ld.(fds := Created(ld.fds, ValidFd(ret), ret, Entry(call.path, Classify(cfg, call.path), NO_UNIT)).0)
    case OpenStream =>
      ld.(streams := Created(ld.streams, ValidStream(cfg, ret), ret,
                             Entry(call.path, Classify(cfg, call.path), NO_UNIT)).0)
    case CloseFile => if cfg.hardRemove then ld.(fds := Removed(ld.fds, ValidFd(call.fd), call.fd).0) else ld
    case CloseStream => ld.(streams := Removed(ld.streams, ValidStream(cfg, call.stream), call.stream).0)
    case Control =>
      if call.cmd == F_DUPFD || call.cmd == F_DUPFD_CLOEXEC then ld.(fds := Replaced(ld.fds, call.fd, ret).0)
      else ld
    case _ => ld
  }

  datatype Served = Served(ld: LdState, trace: seq<Event>, ret: int, enforced: bool)

  /** One call through an LdPreloaded wrapper: pick a workflow, enforce, make the libc call
      `issued`, maintain the indexes, account. */
  function LdServed(
    cfg: Config, env: Env, ld: LdState, trace: seq<Event>, w: Wrapper, call: Call, issued: Call): Served
  {
    var (id, draws) := Picked(cfg, env, ld, w.family, call);
    var enforced := w.family == Flush || id != NO_WORKFLOW;
    var submitted := if id != NO_WORKFLOW
                     then [Submission(id, w.class_, w.context, Wrap(Payload(w.family, call)), |trace|)] else [];
    var ret := env.answer(trace, issued);
    var indexed := Indexed(cfg, ld, w.family, call, ret);
    Served(
      indexed.(drawn := ld.drawn + draws, log := ld.log + submitted,
               books := LdPosted(cfg, ld.books, w, Outcome(w.family, ret), enforced)),
      trace + [Event(issued, ret)], ret, enforced)
  }

  // The passthrough back end

  /** The entry a passthrough call is counted under. */
  function CountedAs(op: Op): Op {
    if op == Open64Variadic then Open64 else op
  }

  /** The results a passthrough wrapper takes for a success. */
  datatype Rule = NonNegative | Zero | NotMinusOne | NotNull

  predicate Accepts(rule: Rule, ret: int) {
    match rule
    case NonNegative => ret >= 0
    case Zero => ret == 0
    case NotMinusOne => ret != -1
    case NotNull => ret != 0
  }

  function RuleOf(op: Op): Rule {
    match FamilyOf(op)
    case Transfer | OpenFile | CloseFile => NonNegative
    case OpenStream => NotNull
    case MapMemory | MakeSocket => NotMinusOne
    case _ => if Kind(op) == ExtAttrCalls then NotMinusOne else Zero
  }

  /** What tells the passthrough wrappers apart; reads and writes count the bytes of their result. */
  datatype RawPtWrapper = PtWrapper(
    rule: Rule, kind: OperationType, position: nat, countsBytes: bool, dropsMode: bool)

  type PtWrapper = w: RawPtWrapper | w.position < Size(w.kind)
    witness PtWrapper(NonNegative, MetadataCalls, 1, false, true)

  function PtWrapperOf(op: Op): PtWrapper {
    PtWrapper(RuleOf(op), Kind(CountedAs(op)), Position(CountedAs(op)), FamilyOf(op) == Transfer, DropsMode(op))
  }

  function PtUpdate(w: PtWrapper, ret: int): Update {
    if Accepts(w.rule, ret) then Plain(w.position, 1, if w.countsBytes then Wrap(ret) else 0)
    else Failing(w.position, 1, 0, 1)
  }

  function PtPosted(cfg: Config, books: Books, w: PtWrapper, ret: int): Books {
    if cfg.collectPt then Changed(books, w.kind, PtUpdate(w, ret)) else books
  }

  // The dispatcher

  datatype World = World(loaded: bool, ld: LdState, passthrough: Books, trace: seq<Event>)

  const NEW_LD := LdState(map[], map[], 0, [], NEW_BOOKS)
  const NEW_WORLD := World(false, NEW_LD, NEW_BOOKS, [])

  /** A call goes to LdPreloaded when it is intercepted and that back end is loaded; fcntl always does. */
  predicate ToLd(cfg: Config, loaded: bool, op: Op) {
    op == Fcntl || (op in cfg.intercept && loaded)
  }

  /** One call of the application. */
  function Dispatched(cfg: Config, env: Env, w: World, call: Call): (World, int) {
    var op := Variant(call);
    if ToLd(cfg, w.loaded, op) then
      var served := LdServed(cfg, env, w.ld, w.trace, WrapperOf(op), call, Forwarded(op, call));
      (w.(ld := served.ld, trace := served.trace), served.ret)
    else
      var ret := env.answer(w.trace, Forwarded(op, call));
      (w.(passthrough := if op == Sync then w.passthrough
                         else PtPosted(cfg, w.passthrough, PtWrapperOf(op), ret),
          trace := w.trace + [Event(Forwarded(op, call), ret)]), ret)
  }
}
