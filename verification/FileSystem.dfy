/** The passthrough back end and the dispatcher in front of both back ends. */
module FileSystem {
  import opened Words
  import opened Operations
  import opened Accounting
  import opened MountPoints
  import opened Engine
  import opened Components
  import opened LdPreloaded

  class PosixPassthrough {
    const cfg: Config
    const libc: Libc
    const stats: StatisticsSet

    ghost predicate Valid()
      reads stats, stats.Repr
    {
      stats.Valid() && libc !in stats.Repr
    }

    constructor (cfg: Config, libc: Libc)
      ensures Valid() && stats.books == NEW_BOOKS
      ensures this.cfg == cfg && this.libc == libc && fresh(stats) && fresh(stats.Repr)
    {
      this.cfg, this.libc := cfg, libc;
      stats := new StatisticsSet();
      new;
      stats.UnusedIsValid();
    }

    /** The wrapper of an operation other than sync: one libc call, then the accounting. */
    method Passing(op: Op, call: Call) returns (ret: int)
      requires Valid() && op != Sync
      modifies libc, stats, stats.Repr
      ensures Valid()
      ensures ret == libc.answer(old(libc.trace), Forwarded(op, call))
      ensures libc.trace == old(libc.trace) + [Event(Forwarded(op, call), ret)]
      ensures stats.books == PtPosted(cfg, old(stats.books), PtWrapperOf(op), ret)
    {
      hide PtWrapperOf, DropsMode, StatisticsSet.Valid;
      assert PtWrapperOf(op).dropsMode == DropsMode(op) by { WrapperDrops(op); }
      ret := Counting(PtWrapperOf(op), call);
    }

    lemma WrapperDrops(op: Op)
      ensures PtWrapperOf(op).dropsMode == DropsMode(op)
    {
    }

    /** The steps the wrappers share. */
    method Counting(w: PtWrapper, call: Call) returns (ret: int)
      requires Valid()
      modifies libc, stats, stats.Repr
      ensures Valid()
      ensures ret == libc.answer(old(libc.trace), Issued(w.dropsMode, call))
      ensures libc.trace == old(libc.trace) + [Event(Issued(w.dropsMode, call), ret)]
      ensures stats.books == PtPosted(cfg, old(stats.books), w, ret)
    {
      ret := libc.Invoke(if w.dropsMode then call.(mode := None) else call);
      if cfg.collectPt {
        var succeeded :=
          match w.rule
          case NonNegative => ret >= 0
          case Zero => ret == 0
          case NotMinusOne => ret != -1
          case NotNull => ret != 0;
        if succeeded {
          stats.Post(w.kind, Plain(w.position, 1, if w.countsBytes then Wrap(ret) else 0));
        } else {
          stats.Post(w.kind, Failing(w.position, 1, 0, 1));
        }
      }
    }

    /** sync returns before it is counted. */
    method Syncing(call: Call) returns (ret: int)
      modifies libc
      ensures ret == libc.answer(old(libc.trace), call)
      ensures libc.trace == old(libc.trace) + [Event(call, ret)]
    {
      ret := libc.Invoke(call);
    }
  }

  class PosixFileSystem {
    const cfg: Config
    const libc: Libc
    const ldPreloaded: LdPreloadedPosix
    const passthrough: PosixPassthrough
    var loaded: bool

    ghost predicate Valid()
      reads ldPreloaded.table, ldPreloaded.stats, ldPreloaded.stats.Repr, passthrough.stats, passthrough.stats.Repr
    {
      && ldPreloaded.Valid() && passthrough.Valid()
      && ldPreloaded.cfg == passthrough.cfg == cfg && ldPreloaded.libc == passthrough.libc == libc
      && ldPreloaded.stats != passthrough.stats && ldPreloaded.stats.Repr !! passthrough.stats.Repr
      && ldPreloaded.stats !in passthrough.stats.Repr && passthrough.stats !in ldPreloaded.stats.Repr
      && this !in ldPreloaded.stats.Repr && this !in passthrough.stats.Repr
      && ldPreloaded.table !in passthrough.stats.Repr && ldPreloaded.stage !in passthrough.stats.Repr
    }

    ghost function State(): World
      reads `loaded, libc, ldPreloaded.table, ldPreloaded.stage, ldPreloaded.stats, passthrough.stats
    {
      World(loaded, ldPreloaded.State(), passthrough.stats.books, libc.trace)
    }

    constructor (cfg: Config, libc: Libc, outputs: nat -> u32)
      requires libc.trace == []
      ensures Valid() && State() == NEW_WORLD
      ensures this.cfg == cfg && this.libc == libc && ldPreloaded.Environment() == Env(libc.answer, outputs)
    {
      hide StatisticsSet.Valid;
      this.cfg, this.libc := cfg, libc;
      ldPreloaded := new LdPreloadedPosix(cfg, libc, outputs);
      passthrough := new PosixPassthrough(cfg, libc);
      loaded := false;
    }

    method SetLoaded(value: bool)
      requires Valid()
      modifies `loaded
      ensures Valid() && State() == old(State()).(loaded := value)
    {
      loaded := value;
    }

    /** The LdPreloaded wrapper of an operation. */
    method ThroughLdPreloaded(w: Wrapper, call: Call) returns (ret: int)
      requires ldPreloaded.Valid()
      modifies ldPreloaded.libc, ldPreloaded.table, ldPreloaded.stage, ldPreloaded.stats, ldPreloaded.stats.Repr
      ensures ldPreloaded.Valid()
      ensures ldPreloaded.Served(old(ldPreloaded.State()), old(ldPreloaded.libc.trace), w, call, ret)
    {
      match w.family {
        case Transfer => ret := ldPreloaded.Transferring(w, call);
        case MapMemory => ret := ldPreloaded.Mapping(w, call);
        case UnmapMemory => ret := ldPreloaded.Unmapping(w, call);
        case OpenFile => ret := ldPreloaded.Opening(w, call);
        case CloseFile => ret := ldPreloaded.Closing(w, call);
        case Flush => ret := ldPreloaded.Syncing(w, call);
        case PathCall => ret := ldPreloaded.ByPath(w, call);
        case FdCall => ret := ldPreloaded.ByFd(w, call);
        case OpenStream => ret := ldPreloaded.OpeningStream(w, call);
        case CloseStream => ret := ldPreloaded.ClosingStream(w, call);
        case MakeSocket => ret := ldPreloaded.MakingSocket(w, call);
        case Control => ret := ldPreloaded.Controlling(w, call);
      }
    }

    /** The passthrough wrapper of an operation. */
    method ThroughPassthrough(op: Op, call: Call) returns (ret: int)
      requires passthrough.Valid()
      modifies passthrough.libc, passthrough.stats, passthrough.stats.Repr
      ensures passthrough.Valid()
      ensures ret == passthrough.libc.answer(old(passthrough.libc.trace), Forwarded(op, call))
      ensures passthrough.libc.trace == old(passthrough.libc.trace) + [Event(Forwarded(op, call), ret)]
      ensures passthrough.stats.books == if op == Sync then old(passthrough.stats.books)
              else PtPosted(passthrough.cfg, old(passthrough.stats.books), PtWrapperOf(op), ret)
    {
      hide PtPosted, PtWrapperOf;
      if op == Sync {
        ret := passthrough.Syncing(call);
      } else {
        ret := passthrough.Passing(op, call);
      }
    }

    lemma WrapperForwards(op: Op, call: Call)
      ensures Issued(WrapperOf(op).dropsMode, call) == Forwarded(op, call)
    {
    }

    /** One call of the application. */
    method Dispatch(call: Call) returns (ret: int)
      requires Valid()
      modifies libc, ldPreloaded.table, ldPreloaded.stage, ldPreloaded.stats, ldPreloaded.stats.Repr,
               passthrough.stats, passthrough.stats.Repr
      ensures Valid()
      ensures (State(), ret) == Dispatched(cfg, ldPreloaded.Environment(), old(State()), call)
    {
      hide LdServed, PtPosted, WrapperOf, PtWrapperOf, Issued, Forwarded, Variant, StatisticsSet.Valid;
      var op := Variant(call);
      if op == Fcntl || (op in cfg.intercept && loaded) {
        WrapperForwards(op, call);
        ret := ThroughLdPreloaded(WrapperOf(op), call);
      } else {
        ret := ThroughPassthrough(op, call);
      }
    }
  }
}
