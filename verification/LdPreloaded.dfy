/** The LdPreloaded back end. The wrappers of a family differ only in their tags, so there is one
    method per family; `w` selects the wrapper. Every method is proved against `Engine.LdServed`. */
module LdPreloaded {
  import opened Words
  import opened Operations
  import opened Accounting
  import opened MountPoints
  import opened MountPointTable
  import opened Engine
  import opened Components

  class LdPreloadedPosix {
    const cfg: Config
    const libc: Libc
    const table: MountPointTable
    const stage: DataPlaneStage
    const stats: StatisticsSet

    ghost predicate Valid()
      reads table, stats, stats.Repr
    {
      table.Valid() && table.cfg == cfg && stats.Valid() && libc !in stats.Repr && table !in stats.Repr
      && stage !in stats.Repr && stage.libc == libc
    }

    ghost function State(): LdState
      reads table, stage, stats
    {
      LdState(table.fds, table.streams, table.drawn, stage.log, stats.books)
    }

    ghost function Environment(): Env {
      Env(libc.answer, table.outputs)
    }

    /** The state is the one the call leads to from the given one. */
    ghost predicate Served(ld: LdState, trace: seq<Event>, w: Wrapper, call: Call, ret: int)
      requires Valid()
      reads libc, table, stage, stats, stats.Repr
    {
      var served := LdServed(cfg, Environment(), ld, trace, w, call, Issued(w.dropsMode, call));
      State() == served.ld && libc.trace == served.trace && ret == served.ret
    }

    constructor (cfg: Config, libc: Libc, outputs: nat -> u32)
      ensures Valid() && State() == NEW_LD
      ensures this.cfg == cfg && this.libc == libc && table.outputs == outputs
      ensures fresh({table, stage, stats}) && fresh(stats.Repr)
    {
      this.cfg, this.libc := cfg, libc;
      table := new MountPointTable(cfg, outputs);
      stage := new DataPlaneStage(libc);
      stats := new StatisticsSet();
      new;
      stats.UnusedIsValid();
    }

    /** Submits the request unless no workflow was picked. */
    method EnforceRequest(id: u32, class_: Op, context: Context, payload: int) returns (valid: bool)
      modifies stage
      ensures valid <==> id != NO_WORKFLOW
      ensures stage.log
           == old(stage.log) + if valid then [Submission(id, class_, context, Wrap(payload), |stage.libc.trace|)] else []
    {
      valid := id != NO_WORKFLOW;
      if valid {
        stage.EnforceRequest(id, class_, context, Wrap(payload));
      }
    }

    method UpdateStatisticEntryData(position: nat, bytes: int, enforced: bool)
      requires Valid() && position < Size(DataCalls)
      modifies stats, stats.Repr
      ensures Valid()
      ensures stats.books
           == Changed(old(stats.books), DataCalls, LdUpdate(DataCalls, position, bytes, enforced))
    {
      if enforced {
        if bytes >= 0 {
          stats.Post(DataCalls, Plain(position, 1, Wrap(bytes)));
        } else {
          stats.Post(DataCalls, Failing(position, 1, 0, 1));
        }
      } else {
        stats.Post(DataCalls, Bypass(position, 1));
      }
    }

    method UpdateStatisticEntryMetadata(position: nat, result: int, enforced: bool)
      requires Valid() && position < Size(MetadataCalls)
      modifies stats, stats.Repr
      ensures Valid()
      ensures stats.books
           == Changed(old(stats.books), MetadataCalls, LdUpdate(MetadataCalls, position, result, enforced))
    {
      if enforced {
        if result >= 0 {
          stats.Post(MetadataCalls, Plain(position, 1, 0));
        } else {
          stats.Post(MetadataCalls, Failing(position, 1, 0, 1));
        }
      } else {
        stats.Post(MetadataCalls, Bypass(position, 1));
      }
    }

    method UpdateStatisticEntryDir(position: nat, result: int, enforced: bool)
      requires Valid() && position < Size(DirectoryCalls)
      modifies stats, stats.Repr
      ensures Valid()
      ensures stats.books
           == Changed(old(stats.books), DirectoryCalls, LdUpdate(DirectoryCalls, position, result, enforced))
    {
      if enforced {
        if result == 0 {
          stats.Post(DirectoryCalls, Plain(position, 1, 0));
        } else {
          stats.Post(DirectoryCalls, Failing(position, 1, 0, 1));
        }
      } else {
        stats.Post(DirectoryCalls, Bypass(position, 1));
      }
    }

    method UpdateStatisticEntryExtAttr(position: nat, result: int, enforced: bool)
      requires Valid() && position < Size(ExtAttrCalls)
      modifies stats, stats.Repr
      ensures Valid()
      ensures stats.books
           == Changed(old(stats.books), ExtAttrCalls, LdUpdate(ExtAttrCalls, position, result, enforced))
    {
      if enforced {
        if result >= 0 {
          stats.Post(ExtAttrCalls, Plain(position, 1, Wrap(result)));
        } else {
          stats.Post(ExtAttrCalls, Failing(position, 1, 0, 1));
        }
      } else {
        stats.Post(ExtAttrCalls, Bypass(position, 1));
      }
    }

    method UpdateStatisticEntrySpecial(position: nat, result: int, enforced: bool)
      requires Valid() && position < Size(SpecialCalls)
      modifies stats, stats.Repr
      ensures Valid()
      ensures stats.books
           == Changed(old(stats.books), SpecialCalls, LdUpdate(SpecialCalls, position, result, enforced))
    {
      if enforced {
        if result >= 0 {
          stats.Post(SpecialCalls, Plain(position, 1, 0));
        } else {
          stats.Post(SpecialCalls, Failing(position, 1, 0, 1));
        }
      } else {
        stats.Post(SpecialCalls, Bypass(position, 1));
      }
    }

    method UpdateStatistics(w: Wrapper, result: int, enforced: bool)
      requires Valid()
      modifies stats, stats.Repr
      ensures Valid()
      ensures stats.books == LdPosted(cfg, old(stats.books), w, result, enforced)
    {
      if cfg.collectLd {
        var position := w.position;
        match w.kind {
          case DataCalls => UpdateStatisticEntryData(position, result, enforced);
          case MetadataCalls => UpdateStatisticEntryMetadata(position, result, enforced);
          case DirectoryCalls => UpdateStatisticEntryDir(position, result, enforced);
          case ExtAttrCalls => UpdateStatisticEntryExtAttr(position, result, enforced);
          case SpecialCalls => UpdateStatisticEntrySpecial(position, result, enforced);
        }
      }
    }

    /** read, write, pread, pwrite, pread64, pwrite64. */
    method Transferring(w: Wrapper, call: Call) returns (ret: int)
      requires Valid() && w.family == Transfer
      modifies libc, table, stage, stats, stats.Repr
      ensures Valid() && Served(old(State()), old(libc.trace), w, call, ret)
    {
      hide LdPosted, Selection, Classify, StatisticsSet.Valid;
      var id := table.PickByFd(call.fd);
      var enforced := EnforceRequest(id, w.class_, w.context, ToInt(call.size));
      ret := libc.Invoke(call);
      UpdateStatistics(w, ret, enforced);
    }

    /** mmap. */
    method Mapping(w: Wrapper, call: Call) returns (ret: int)
      requires Valid() && w.family == MapMemory
      modifies libc, table, stage, stats, stats.Repr
      ensures Valid() && Served(old(State()), old(libc.trace), w, call, ret)
    {
      hide LdPosted, Selection, Classify, StatisticsSet.Valid;
      var id := table.PickByFd(call.fd);
      var enforced := EnforceRequest(id, w.class_, w.context, 1);
      ret := libc.Invoke(call);
      var result := if ret == -1 then -1 else 0;
      UpdateStatistics(w, result, enforced);
    }

    /** munmap. */
    method Unmapping(w: Wrapper, call: Call) returns (ret: int)
      requires Valid() && w.family == UnmapMemory
      modifies libc, table, stage, stats, stats.Repr
      ensures Valid() && Served(old(State()), old(libc.trace), w, call, ret)
    {
      hide LdPosted, Selection, Classify, StatisticsSet.Valid;
      var id := table.PickByFd(-1);
      var enforced := EnforceRequest(id, w.class_, w.context, 1);
      ret := libc.Invoke(call);
      UpdateStatistics(w, ret, enforced);
    }

    /** open, open64, creat, creat64, openat, with or without a mode. */
    method Opening(w: Wrapper, call: Call) returns (ret: int)
      requires Valid() && w.family == OpenFile
      modifies libc, table, stage, stats, stats.Repr
      ensures Valid() && Served(old(State()), old(libc.trace), w, call, ret)
    {
      hide LdPosted, Selection, Classify, StatisticsSet.Valid;
      var mount, id := table.PickByPath(call.path);
      var enforced := EnforceRequest(id, w.class_, w.context, 1);
      ret := libc.Invoke(if w.dropsMode then call.(mode := None) else call);
      var inserted := table.CreateFdEntry(ret, call.path, mount, NO_UNIT);
      UpdateStatistics(w, ret, enforced);
    }

    /** close; a descriptor whose own workflow cannot be picked takes one by force. */
    method Closing(w: Wrapper, call: Call) returns (ret: int)
      requires Valid() && w.family == CloseFile
      modifies libc, table, stage, stats, stats.Repr
      ensures Valid() && Served(old(State()), old(libc.trace), w, call, ret)
    {
      hide LdPosted, Selection, Classify, StatisticsSet.Valid;
      var id := table.PickForClose(call.fd);
      var enforced := EnforceRequest(id, w.class_, w.context, 1);
      ret := libc.Invoke(call);
      if cfg.hardRemove {
        var removed := table.RemoveFdEntry(call.fd);
      }
      UpdateStatistics(w, ret, enforced);
    }

    /** sync: counted as enforced, but nothing is submitted. */
    method Syncing(w: Wrapper, call: Call) returns (ret: int)
      requires Valid() && w.family == Flush
      modifies libc, table, stage, stats, stats.Repr
      ensures Valid() && Served(old(State()), old(libc.trace), w, call, ret)
    {
      hide LdPosted, Selection, Classify, StatisticsSet.Valid;
      ret := libc.Invoke(call);
      UpdateStatistics(w, 1, true);
    }

    /** The remaining calls with a path. */
    method ByPath(w: Wrapper, call: Call) returns (ret: int)
      requires Valid() && w.family == PathCall
      modifies libc, table, stage, stats, stats.Repr
      ensures Valid() && Served(old(State()), old(libc.trace), w, call, ret)
    {
      hide LdPosted, Selection, Classify, StatisticsSet.Valid;
      var mount, id := table.PickByPath(call.path);
      var enforced := EnforceRequest(id, w.class_, w.context, 1);
      ret := libc.Invoke(call);
      UpdateStatistics(w, ret, enforced);
    }

    /** The remaining calls with a descriptor. */
    method ByFd(w: Wrapper, call: Call) returns (ret: int)
      requires Valid() && w.family == FdCall
      modifies libc, table, stage, stats, stats.Repr
      ensures Valid() && Served(old(State()), old(libc.trace), w, call, ret)
    {
      hide LdPosted, Selection, Classify, StatisticsSet.Valid;
      var id := table.PickByFd(call.fd);
      var enforced := EnforceRequest(id, w.class_, w.context, 1);
      ret := libc.Invoke(call);
      UpdateStatistics(w, ret, enforced);
    }

    /** fopen, fopen64. */
    method OpeningStream(w: Wrapper, call: Call) returns (ret: int)
      requires Valid() && w.family == OpenStream
      modifies libc, table, stage, stats, stats.Repr
      ensures Valid() && Served(old(State()), old(libc.trace), w, call, ret)
    {
      hide LdPosted, Selection, Classify, StatisticsSet.Valid;
      var mount, id := table.PickByPath(call.path);
      var enforced := EnforceRequest(id, w.class_, w.context, 1);
      ret := libc.Invoke(call);
      var inserted := table.CreateStreamEntry(ret, call.path, mount, NO_UNIT);
      var result := if ret != 0 then 0 else -1;
      UpdateStatistics(w, result, enforced);
    }

    /** fclose: the entry goes whether or not libc succeeds. */
    method ClosingStream(w: Wrapper, call: Call) returns (ret: int)
      requires Valid() && w.family == CloseStream
      modifies libc, table, stage, stats, stats.Repr
      ensures Valid() && Served(old(State()), old(libc.trace), w, call, ret)
    {
      hide LdPosted, Selection, Classify, StatisticsSet.Valid;
      var id := table.PickByStream(call.stream);
      var enforced := EnforceRequest(id, w.class_, w.context, 1);
      ret := libc.Invoke(call);
      var removed := table.RemoveStreamEntry(call.stream);
      UpdateStatistics(w, ret, enforced);
    }

    /** socket: only counted, as bypassed. */
    method MakingSocket(w: Wrapper, call: Call) returns (ret: int)
      requires Valid() && w.family == MakeSocket
      modifies libc, table, stage, stats, stats.Repr
      ensures Valid() && Served(old(State()), old(libc.trace), w, call, ret)
    {
      hide LdPosted, Selection, Classify, StatisticsSet.Valid;
      ret := libc.Invoke(call);
      UpdateStatistics(w, ret, false);
    }

    /** fcntl: duplicating a descriptor moves its entry. */
    method Controlling(w: Wrapper, call: Call) returns (ret: int)
      requires Valid() && w.family == Control
      modifies libc, table, stage, stats, stats.Repr
      ensures Valid() && Served(old(State()), old(libc.trace), w, call, ret)
    {
      hide LdPosted, Selection, Classify, StatisticsSet.Valid;
      ret := libc.Invoke(call);
      if call.cmd == F_DUPFD || call.cmd == F_DUPFD_CLOEXEC {
        var replaced := table.ReplaceFileDescriptor(call.fd, ret);
      }
      UpdateStatistics(w, ret, false);
    }
  }
}
