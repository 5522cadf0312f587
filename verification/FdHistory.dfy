/** The descriptor index as a function of the history of the run. */
module FdHistory {
  import opened Operations
  import opened MountPoints
  import opened Engine
  import opened Runs
  import opened Conservation

  predicate Duplicates(call: Call) {
    call.cmd == F_DUPFD || call.cmd == F_DUPFD_CLOEXEC
  }

  /** The entry a descriptor should have after a call that LdPreloaded serves, from the ones it and the
      descriptor of the call had before: an open writes its path, a close removes the entry only under
      option_hard_remove, and a successful duplication of a descriptor that has an entry takes it away
      from the source and gives it to the target, unless the target had one. */
  function Written(
    cfg: Config, call: Call, ret: int, fd: int, before: Option<Entry>, source: Option<Entry>): Option<Entry>
  {
    if OpensFile(Variant(call)) then
      if ret == fd && ValidFd(fd) then Some(Entry(call.path, Classify(cfg, call.path), NO_UNIT)) else before
    else if call.fn == Close then
      if cfg.hardRemove && call.fd == fd then None else before
    else if call.fn == Fcntl && Duplicates(call) && ValidFd(call.fd) && ValidFd(ret) && call.fd != ret && source.Some?
    then
      if fd == call.fd then None else if fd == ret && before.None? then source else before
    else before
  }

  /** The entry it should have after a run, told from the calls and their libc results. */
  ghost function LastWriter(cfg: Config, env: Env, inputs: seq<Input>, fd: int): Option<Entry> {
    if inputs == [] then None
    else
      var front, last := inputs[..|inputs| - 1], inputs[|inputs| - 1];
      var before := LastWriter(cfg, env, front, fd);
      if last.Loaded? || !ToLd(cfg, Loaded in front, Variant(last.call)) then before
      else
        Written(cfg, last.call, Answer(env, Run(cfg, env, front), last.call), fd, before,
                LastWriter(cfg, env, front, last.call.fd))
  }

  lemma OnlyTheseFiles(call: Call)
    ensures FamilyOf(Variant(call)) == OpenFile <==> OpensFile(Variant(call))
    ensures FamilyOf(Variant(call)) == CloseFile <==> call.fn == Close
    ensures FamilyOf(Variant(call)) == Control <==> call.fn == Fcntl
    ensures OpensFile(Variant(call)) ==> call.fn != Close && call.fn != Fcntl
  {
    hide FamilyOf;
    FamilyByOpening(Variant(call));
    FamilyOfOne(Variant(call));
  }

  lemma NextFds(cfg: Config, env: Env, w: World, call: Call)
    ensures Dispatched(cfg, env, w, call).0.ld.fds
         == if ToLd(cfg, w.loaded, Variant(call))
            then Indexed(cfg, w.ld, FamilyOf(Variant(call)), call, Answer(env, w, call)).fds else w.ld.fds
  {
    hide Dispatched, Variant, FamilyOf;
    NextIndexes(cfg, env, w, call);
  }

  lemma IndexedWrites(cfg: Config, ld: LdState, call: Call, ret: int, fd: int)
    requires FdsSound(cfg, ld.fds)
    ensures Lookup(Indexed(cfg, ld, FamilyOf(Variant(call)), call, ret).fds, fd)
         == Written(cfg, call, ret, fd, Lookup(ld.fds, fd), Lookup(ld.fds, call.fd))
  {
    hide Variant, FamilyOf, Classify, OpensFile;
    OnlyTheseFiles(call);
  }

  /** After any run the descriptor index is the last-writer map of its history. */
  lemma {:induction false} FdTableIsHistory(cfg: Config, env: Env, inputs: seq<Input>, fd: int)
    ensures Lookup(Run(cfg, env, inputs).ld.fds, fd) == LastWriter(cfg, env, inputs, fd)
  {
    hide Dispatched, Answer, Variant, FamilyOf, ToLd, Indexed, Written;
    if inputs != [] {
      var front, last := inputs[..|inputs| - 1], inputs[|inputs| - 1];
      RunGrows(cfg, env, inputs);
      FdTableIsHistory(cfg, env, front, fd);
      LoadedOnceLoaded(cfg, env, front);
      if last.Request? {
        var w := Run(cfg, env, front);
        FdTableIsHistory(cfg, env, front, last.call.fd);
        IndexesAgree(cfg, env, front);
        NextFds(cfg, env, w, last.call);
        IndexedWrites(cfg, w.ld, last.call, Answer(env, w, last.call), fd);
      }
    }
  }

  /** Standard descriptors never have an entry. */
  lemma NoStandardDescriptors(cfg: Config, env: Env, inputs: seq<Input>, fd: int)
    requires fd <= 2
    ensures LastWriter(cfg, env, inputs, fd) == None
  {
    FdTableIsHistory(cfg, env, inputs, fd);
    IndexesAgree(cfg, env, inputs);
  }

  /** The descriptor index does not follow the descriptors that are open: once a registered
      descriptor has been duplicated onto another one, calls through it are not enforced any more,
      although it is still open. Duplicating it onto a standard descriptor keeps it registered. */
  lemma DuplicationStopsEnforcement(cfg: Config, env: Env, inputs: seq<Input>, dup: Call, later: Call)
    requires dup.fn == Fcntl && Duplicates(dup) && dup.fd in Run(cfg, env, inputs).ld.fds
    requires TakesDescriptor(Variant(later)) && later.fd == dup.fd
    requires Answer(env, Run(cfg, env, inputs), dup) != dup.fd
    ensures var after := inputs + [Request(dup)];
            var stays := Answer(env, Run(cfg, env, inputs), dup) <= 2;
            Serving(cfg, env, Run(cfg, env, after), later).enforced
            <==> stays && InScope(cfg, Run(cfg, env, inputs).ld.fds[dup.fd].path)
  {
    hide Dispatched, Answer, Serving, Classify, InScope;
    var after := inputs + [Request(dup)];
    assert after[..|after| - 1] == inputs;
    RunGrows(cfg, env, after);
    IndexesAgree(cfg, env, inputs);
    EnforcedExactly(cfg, env, after, later);
    NextFds(cfg, env, Run(cfg, env, inputs), dup);
  }

  /** Calls through the duplicate are enforced by the entry it inherits, unless an entry left under
      its number decides instead. */
  lemma DuplicateInherits(cfg: Config, env: Env, inputs: seq<Input>, dup: Call, later: Call)
    requires dup.fn == Fcntl && Duplicates(dup) && dup.fd in Run(cfg, env, inputs).ld.fds
    requires TakesDescriptor(Variant(later))
    requires later.fd == Answer(env, Run(cfg, env, inputs), dup) && ValidFd(later.fd) && later.fd != dup.fd
    ensures var fds := Run(cfg, env, inputs).ld.fds;
            Serving(cfg, env, Run(cfg, env, inputs + [Request(dup)]), later).enforced
            <==> InScope(cfg, fds[if later.fd in fds then later.fd else dup.fd].path)
  {
    hide Dispatched, Answer, Serving, Classify, InScope;
    var after := inputs + [Request(dup)];
    assert after[..|after| - 1] == inputs;
    RunGrows(cfg, env, after);
    IndexesAgree(cfg, env, inputs);
    EnforcedExactly(cfg, env, after, later);
    NextFds(cfg, env, Run(cfg, env, inputs), dup);
  }
}
