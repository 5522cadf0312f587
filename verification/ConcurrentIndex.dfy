/** Many threads opening and closing files. The libc step and the table step of an open are separate,
    and so are those of a close, which removes the entry only under `option_hard_remove`; other threads
    may run in between. */
module ConcurrentIndex {
  import opened Operations
  import opened MountPoints
  import opened Engine
  import opened Runs

  /** A thread outside the wrappers; one that has classified the path of its open; one to which libc
      has returned and whose registration is still to come; one back from the libc close. */
  datatype Thread =
    | Outside
    | Classified(path: string, mount: MountPoint)
    | Returned(path: string, mount: MountPoint, fd: int)
    | Closed(fd: int)

  /** How a descriptor came to be open: through an open wrapper, or in any other way (a socket, a
      pipe, a descriptor inherited or opened while PADLL was not loaded). */
  datatype Origin = Opening(path: string) | Elsewhere

  datatype System = System(open: map<int, Origin>, table: Index, threads: seq<Thread>)

  /** A close by a wrapper may fail and leave the descriptor open (`freed` is false then). */
  datatype Action =
    | Classifies(thread: nat, path: string)
    | LibcOpens(thread: nat, ret: int)
    | Registers(thread: nat)
    | LibcCloses(thread: nat, closed: int, freed: bool)
    | Removes(thread: nat)
    | OpensElsewhere(other: int)
    | ClosesElsewhere(other: int)

  function Initial(open: set<int>, threads: nat): System {
    System(map fd | fd in open :: Elsewhere, map[], seq(threads, t => Outside))
  }

  /** libc only ever returns a free descriptor, or a negative number for a failure. */
  predicate Enabled(s: System, a: Action) {
    match a
    case Classifies(t, _) => t < |s.threads| && s.threads[t].Outside?
    case LibcOpens(t, ret) => t < |s.threads| && s.threads[t].Classified? && ret !in s.open
    case Registers(t) => t < |s.threads| && s.threads[t].Returned?
    case LibcCloses(t, _, _) => t < |s.threads| && s.threads[t].Outside?
    case Removes(t) => t < |s.threads| && s.threads[t].Closed?
    case OpensElsewhere(fd) => 0 <= fd && fd !in s.open
    case ClosesElsewhere(_) => true
  }

  /** One critical section or one libc call of one thread; an action that is not enabled leaves
      everything as it is. */
  function Step(cfg: Config, s: System, a: Action): System {
    if !Enabled(s, a) then s else
    match a
    case Classifies(t, path) =>
      s.(threads := s.threads[t := Classified(path, Classify(cfg, path))])
    case LibcOpens(t, ret) =>
      var Classified(path, mount) := s.threads[t];
      s.(threads := s.threads[t := Returned(path, mount, ret)],
         open := if ret < 0 then s.open else s.open[ret := Opening(path)])
    case Registers(t) =>
      var Returned(path, mount, fd) := s.threads[t];
      s.(threads := s.threads[t := Outside],
         table := Created(s.table, ValidFd(fd), fd, Entry(path, mount, NO_UNIT)).0)
    case LibcCloses(t, fd, freed) =>
      s.(threads := s.threads[t := Closed(fd)], open := if freed then s.open - {fd} else s.open)
    case Removes(t) =>
      var fd := s.threads[t].fd;
      s.(threads := s.threads[t := Outside],
         table := if cfg.hardRemove then Removed(s.table, ValidFd(fd), fd).0 else s.table)
    case OpensElsewhere(fd) => s.(open := s.open[fd := Elsewhere])
    case ClosesElsewhere(fd) => s.(open := s.open - {fd})
  }

  function Steps(cfg: Config, s: System, actions: seq<Action>): System {
    if actions == [] then s
    else Step(cfg, Steps(cfg, s, actions[..|actions| - 1]), actions[|actions| - 1])
  }

  /** An interleaving: any sequence of actions, from an empty table. */
  function Interleave(cfg: Config, open: set<int>, threads: nat, actions: seq<Action>): System {
    Steps(cfg, Initial(open, threads), actions)
  }

  /** The descriptor has been returned by libc to an open that has not yet registered it. */
  ghost predicate UnderWay(s: System, fd: int) {
    exists t :: 0 <= t < |s.threads| && s.threads[t].Returned? && s.threads[t].fd == fd
  }

  /** The descriptor is open and the open that produced it has returned. */
  ghost predicate Settled(s: System, fd: int) {
    fd in s.open && s.open[fd].Opening? && !UnderWay(s, fd)
  }

  /** The action closes a descriptor before the open that produced it has returned. */
  ghost predicate ClosesEarly(s: System, a: Action, fd: int) {
    && UnderWay(s, fd) && Enabled(s, a)
    && (a == ClosesElsewhere(fd) || (a.LibcCloses? && a.closed == fd && a.freed))
  }

  /** The action is the removal of a close that comes when the descriptor is open again, or still. */
  ghost predicate RemovesLate(cfg: Config, s: System, a: Action, fd: int) {
    cfg.hardRemove && a.Removes? && Enabled(s, a) && s.threads[a.thread].fd == fd && Settled(s, fd)
  }

  /** Never in the interleaving is the descriptor closed early; other descriptors may be. */
  ghost predicate Disciplined(cfg: Config, open: set<int>, threads: nat, actions: seq<Action>, fd: int) {
    forall i {:trigger actions[i]} | 0 <= i < |actions| ::
      !ClosesEarly(Interleave(cfg, open, threads, actions[..i]), actions[i], fd)
  }

  ghost predicate NeverRemovedLate(cfg: Config, open: set<int>, threads: nat, actions: seq<Action>, fd: int) {
    forall i {:trigger actions[i]} | 0 <= i < |actions| ::
      !RemovesLate(cfg, Interleave(cfg, open, threads, actions[..i]), actions[i], fd)
  }

  /** In the shipped configuration no close removes anything. */
  lemma NothingRemoved(cfg: Config, open: set<int>, threads: nat, actions: seq<Action>, fd: int)
    requires !cfg.hardRemove
    ensures NeverRemovedLate(cfg, open, threads, actions, fd)
  {
    hide Interleave, Settled;
  }

  lemma Prefixes(cfg: Config, open: set<int>, threads: nat, actions: seq<Action>, n: nat, fd: int)
    requires n <= |actions|
    ensures Disciplined(cfg, open, threads, actions, fd) ==> Disciplined(cfg, open, threads, actions[..n], fd)
    ensures NeverRemovedLate(cfg, open, threads, actions, fd)
        ==> NeverRemovedLate(cfg, open, threads, actions[..n], fd)
  {
    hide Interleave, ClosesEarly, RemovesLate;
    var front := actions[..n];
    assert forall i {:trigger actions[i]} | 0 <= i < n :: front[..i] == actions[..i] && front[i] == actions[i];
    if Disciplined(cfg, open, threads, actions, fd) {
      forall i {:trigger front[i]} | 0 <= i < n
        ensures !ClosesEarly(Interleave(cfg, open, threads, front[..i]), front[i], fd)
      {
        assert front[i] == actions[i];
      }
    }
    if NeverRemovedLate(cfg, open, threads, actions, fd) {
      forall i {:trigger front[i]} | 0 <= i < n
        ensures !RemovesLate(cfg, Interleave(cfg, open, threads, front[..i]), front[i], fd)
      {
        assert front[i] == actions[i];
      }
    }
  }

  // The invariant of one descriptor

  /** A thread yet to register the descriptor holds the path it is open under, and is the only one. */
  ghost predicate PendingOk(s: System, fd: int) {
    && (forall t | 0 <= t < |s.threads| && s.threads[t].Returned? && s.threads[t].fd == fd ::
          fd in s.open && s.open[fd] == Opening(s.threads[t].path))
    && (forall t, u | 0 <= t < |s.threads| && 0 <= u < |s.threads| && s.threads[t].Returned?
                      && s.threads[u].Returned? && s.threads[t].fd == fd && s.threads[u].fd == fd :: t == u)
  }

  ghost predicate MountsOk(cfg: Config, s: System) {
    forall t | 0 <= t < |s.threads| && (s.threads[t].Classified? || s.threads[t].Returned?) ::
      s.threads[t].mount == Classify(cfg, s.threads[t].path)
  }

  /** An open whose call has returned is registered with its own path and mount point. */
  ghost predicate RegisteredOk(cfg: Config, s: System, fd: int) {
    Settled(s, fd) ==>
      fd in s.table && s.table[fd] == Entry(s.open[fd].path, Classify(cfg, s.open[fd].path), NO_UNIT)
  }

  lemma StepKeepsMounts(cfg: Config, s: System, a: Action)
    requires MountsOk(cfg, s)
    ensures MountsOk(cfg, Step(cfg, s, a))
  {
  }

  lemma StepKeepsPending(cfg: Config, s: System, a: Action, fd: int)
    requires ValidFd(fd) && PendingOk(s, fd) && !ClosesEarly(s, a, fd)
    ensures PendingOk(Step(cfg, s, a), fd)
  {
    if UnderWay(s, fd) {
      PendingWhileUnderWay(cfg, s, a, fd);
    } else {
      PendingFromNone(cfg, s, a, fd);
    }
  }

  lemma PendingWhileUnderWay(cfg: Config, s: System, a: Action, fd: int)
    requires ValidFd(fd) && PendingOk(s, fd) && !ClosesEarly(s, a, fd) && UnderWay(s, fd)
    ensures PendingOk(Step(cfg, s, a), fd)
  {
    assert fd in s.open;
  }

  lemma PendingFromNone(cfg: Config, s: System, a: Action, fd: int)
    requires ValidFd(fd) && !UnderWay(s, fd)
    ensures PendingOk(Step(cfg, s, a), fd)
  {
  }

  lemma StepKeepsRegistered(cfg: Config, s: System, a: Action, fd: int)
    requires ValidFd(fd) && MountsOk(cfg, s) && PendingOk(s, fd) && RegisteredOk(cfg, s, fd)
    requires !RemovesLate(cfg, s, a, fd)
    ensures RegisteredOk(cfg, Step(cfg, s, a), fd)
  {
    var s' := Step(cfg, s, a);
    if Enabled(s, a) {
      match a {
        case Classifies(t, _) =>
          StillUnderWay(s, s', t, fd);
        case LibcOpens(t, ret) =>
          assert s'.threads[t].Returned? && s'.threads[t].fd == ret;
          StillUnderWay(s, s', t, fd);
        case Registers(t) =>
          if s.threads[t].fd != fd {
            StillUnderWay(s, s', t, fd);
          }
        case LibcCloses(t, _, _) =>
          StillUnderWay(s, s', t, fd);
        case Removes(t) =>
          StillUnderWay(s, s', t, fd);
        case OpensElsewhere(_) =>
          assert UnderWay(s, fd) <==> UnderWay(s', fd);
        case ClosesElsewhere(_) =>
          assert UnderWay(s, fd) <==> UnderWay(s', fd);
      }
    }
  }

  /** A step of a thread that has nothing to do with the descriptor does not end its open. */
  lemma StillUnderWay(s: System, s': System, t: nat, fd: int)
    requires t < |s.threads|
    requires |s'.threads| == |s.threads| && s'.threads == s.threads[t := s'.threads[t]]
    requires s.threads[t].Returned? ==> s.threads[t].fd != fd
    ensures UnderWay(s, fd) ==> UnderWay(s', fd)
  {
    if UnderWay(s, fd) {
      var u :| 0 <= u < |s.threads| && s.threads[u].Returned? && s.threads[u].fd == fd;
      assert s'.threads[u] == s.threads[u];
    }
  }

  lemma {:induction false} InterleavingsKeep(
    cfg: Config, open: set<int>, threads: nat, actions: seq<Action>, fd: int)
    requires ValidFd(fd) && Disciplined(cfg, open, threads, actions, fd)
    ensures var s := Interleave(cfg, open, threads, actions);
            && MountsOk(cfg, s) && PendingOk(s, fd)
            && (NeverRemovedLate(cfg, open, threads, actions, fd) ==> RegisteredOk(cfg, s, fd))
  {
    hide Step, ClosesEarly, RemovesLate;
    if actions == [] {
      NothingPending(cfg, open, threads, fd);
    } else {
      var n := |actions| - 1;
      var s := Interleave(cfg, open, threads, actions[..n]);
      assert Interleave(cfg, open, threads, actions) == Step(cfg, s, actions[n]);
      Prefixes(cfg, open, threads, actions, n, fd);
      InterleavingsKeep(cfg, open, threads, actions[..n], fd);
      assert !ClosesEarly(s, actions[n], fd);
      StepKeepsMounts(cfg, s, actions[n]);
      StepKeepsPending(cfg, s, actions[n], fd);
      if NeverRemovedLate(cfg, open, threads, actions, fd) {
        assert !RemovesLate(cfg, s, actions[n], fd);
        StepKeepsRegistered(cfg, s, actions[n], fd);
      }
    }
  }

  lemma NothingPending(cfg: Config, open: set<int>, threads: nat, fd: int)
    ensures var s := Interleave(cfg, open, threads, []);
            MountsOk(cfg, s) && PendingOk(s, fd) && RegisteredOk(cfg, s, fd)
  {
  }

  /** In every interleaving that does not close the descriptor early and does not remove it late, if
      it is open and its open has returned then it is mapped to exactly the path and mount point of
      that open ... */
  lemma OpenDescriptorsAreMapped(
    cfg: Config, open: set<int>, threads: nat, actions: seq<Action>, fd: int, path: string)
    requires ValidFd(fd) && Disciplined(cfg, open, threads, actions, fd)
    requires cfg.hardRemove ==> NeverRemovedLate(cfg, open, threads, actions, fd)
    requires Settled(Interleave(cfg, open, threads, actions), fd)
    requires Interleave(cfg, open, threads, actions).open[fd] == Opening(path)
    ensures fd in Interleave(cfg, open, threads, actions).table
    ensures Interleave(cfg, open, threads, actions).table[fd] == Entry(path, Classify(cfg, path), NO_UNIT)
  {
    hide Interleave, Disciplined, NeverRemovedLate;
    if !cfg.hardRemove {
      NothingRemoved(cfg, open, threads, actions, fd);
    }
    InterleavingsKeep(cfg, open, threads, actions, fd);
  }

  /** ... so a call through it is enforced exactly when that path is in scope. */
  lemma OpenDescriptorsAreEnforced(
    cfg: Config, open: set<int>, threads: nat, actions: seq<Action>, path: string,
    env: Env, ld: LdState, op: Op, call: Call)
    requires ValidFd(call.fd) && Disciplined(cfg, open, threads, actions, call.fd)
    requires cfg.hardRemove ==> NeverRemovedLate(cfg, open, threads, actions, call.fd)
    requires Settled(Interleave(cfg, open, threads, actions), call.fd)
    requires Interleave(cfg, open, threads, actions).open[call.fd] == Opening(path)
    requires ld.fds == Interleave(cfg, open, threads, actions).table
    requires TakesDescriptor(op)
    ensures Picked(cfg, env, ld, FamilyOf(op), call).0 != NO_WORKFLOW <==> InScope(cfg, path)
  {
    hide Interleave, Disciplined, NeverRemovedLate, UnderWay, FamilyOf, TakesDescriptor;
    FamilyByDescriptor(op);
    OpenDescriptorsAreMapped(cfg, open, threads, actions, call.fd, path);
    ScopeIsHome(cfg, path);
    SelectionExact(cfg, Classify(cfg, path), env.outputs(ld.drawn));
  }

  // Both conditions are needed

  /** In every state of the interleaving the descriptor is mapped as it should be. */
  ghost predicate AlwaysMapped(cfg: Config, open: set<int>, threads: nat, actions: seq<Action>, fd: int) {
    forall n | 0 <= n <= |actions| :: RegisteredOk(cfg, Interleave(cfg, open, threads, actions[..n]), fd)
  }

  /** For an interleaving that does not close the descriptor early, its mapping is right in every
      state if and only if no removal comes late. */
  lemma MappedUnlessRemovedLate(cfg: Config, open: set<int>, threads: nat, actions: seq<Action>, fd: int)
    requires ValidFd(fd) && Disciplined(cfg, open, threads, actions, fd)
    ensures AlwaysMapped(cfg, open, threads, actions, fd) <==> NeverRemovedLate(cfg, open, threads, actions, fd)
  {
    hide Interleave, Disciplined, RegisteredOk, RemovesLate;
    if NeverRemovedLate(cfg, open, threads, actions, fd) {
      forall n | 0 <= n <= |actions|
        ensures RegisteredOk(cfg, Interleave(cfg, open, threads, actions[..n]), fd)
      {
        Prefixes(cfg, open, threads, actions, n, fd);
        InterleavingsKeep(cfg, open, threads, actions[..n], fd);
      }
    } else {
      var n :| 0 <= n < |actions| && RemovesLate(cfg, Interleave(cfg, open, threads, actions[..n]), actions[n], fd);
      var s := Interleave(cfg, open, threads, actions[..n]);
      LateRemovalUnmaps(cfg, s, actions[n], fd);
      assert actions[..n + 1] == actions[..n] + [actions[n]];
      InterleaveAppend(cfg, open, threads, actions[..n], actions[n]);
      assert !RegisteredOk(cfg, Interleave(cfg, open, threads, actions[..n + 1]), fd);
    }
  }

  lemma InterleaveAppend(cfg: Config, open: set<int>, threads: nat, actions: seq<Action>, a: Action)
    ensures Interleave(cfg, open, threads, actions + [a]) == Step(cfg, Interleave(cfg, open, threads, actions), a)
  {
    StepsAppend(cfg, Initial(open, threads), actions, a);
  }

  lemma LateRemovalUnmaps(cfg: Config, s: System, a: Action, fd: int)
    requires ValidFd(fd) && RemovesLate(cfg, s, a, fd)
    ensures !RegisteredOk(cfg, Step(cfg, s, a), fd) && fd !in Step(cfg, s, a).table
    ensures Settled(Step(cfg, s, a), fd) && Step(cfg, s, a).open == s.open
  {
  }

  lemma StepsAppend(cfg: Config, s: System, actions: seq<Action>, a: Action)
    ensures Steps(cfg, s, actions + [a]) == Step(cfg, Steps(cfg, s, actions), a)
  {
    assert (actions + [a])[..|actions|] == actions;
  }

  lemma TwoSteps(cfg: Config, s: System, a: Action, b: Action)
    ensures Steps(cfg, s, [a, b]) == Step(cfg, Step(cfg, s, a), b)
  {
    hide Step;
    assert [a, b] == [a] + [b] && [a] == [] + [a];
    StepsAppend(cfg, s, [a], b);
    StepsAppend(cfg, s, [], a);
  }

  lemma ThreeSteps(cfg: Config, s: System, a: Action, b: Action, c: Action)
    ensures Steps(cfg, s, [a, b, c]) == Step(cfg, Step(cfg, Step(cfg, s, a), b), c)
  {
    hide Step;
    assert [a, b, c] == [a, b] + [c];
    StepsAppend(cfg, s, [a, b], c);
    TwoSteps(cfg, s, a, b);
  }

  lemma {:induction false} StepsConcat(cfg: Config, s: System, first: seq<Action>, second: seq<Action>)
    ensures Steps(cfg, s, first + second) == Steps(cfg, Steps(cfg, s, first), second)
  {
    if second == [] {
      assert first + second == first;
    } else {
      var n := |second| - 1;
      assert first + second == first + second[..n] + [second[n]];
      StepsAppend(cfg, s, first + second[..n], second[n]);
      StepsConcat(cfg, s, first, second[..n]);
    }
  }

  /** What another thread can do while a descriptor is yet to be registered: close it, and open
      another path under the same descriptor. */
  function Reuse(t: nat, u: nat, fd: int, path: string): seq<Action> {
    [LibcCloses(u, fd, true), Removes(u), Classifies(u, path)] + [LibcOpens(u, fd), Registers(u), Registers(t)]
  }

  /** Wherever an interleaving can close a descriptor early while another thread is free, it can go
      on to a state in which the descriptor is open, its open has returned, and yet it is mapped to
      the path of the earlier open. */
  lemma EarlyCloseBreaks(
    cfg: Config, open: set<int>, threads: nat, actions: seq<Action>, t: nat, u: nat, fd: int, path: string)
    requires ValidFd(fd) && Disciplined(cfg, open, threads, actions, fd)
    requires t < |Interleave(cfg, open, threads, actions).threads|
    requires var pending := Interleave(cfg, open, threads, actions).threads[t];
             pending.Returned? && pending.fd == fd && pending.path != path
    requires u < |Interleave(cfg, open, threads, actions).threads|
    requires Interleave(cfg, open, threads, actions).threads[u].Outside?
    ensures var r := Interleave(cfg, open, threads, actions + Reuse(t, u, fd, path));
            && Settled(r, fd) && r.open[fd] == Opening(path)
            && fd in r.table && r.table[fd].path != path
  {
    hide Steps, Disciplined;
    var s := Interleave(cfg, open, threads, actions);
    InterleavingsKeep(cfg, open, threads, actions, fd);
    StepsConcat(cfg, Initial(open, threads), actions, Reuse(t, u, fd, path));
    ReuseBreaks(cfg, s, t, u, fd, path);
  }

  lemma ReuseBreaks(cfg: Config, s: System, t: nat, u: nat, fd: int, path: string)
    requires t < |s.threads| && s.threads[t].Returned? && s.threads[t].fd == fd && PendingOk(s, fd)
    requires u < |s.threads| && s.threads[u].Outside? && ValidFd(fd)
    ensures var r := Steps(cfg, s, Reuse(t, u, fd, path));
            && Settled(r, fd) && r.open[fd] == Opening(path)
            && fd in r.table && r.table[fd].path == s.threads[t].path
  {
    hide Steps;
    var first := [LibcCloses(u, fd, true), Removes(u), Classifies(u, path)];
    var second := [LibcOpens(u, fd), Registers(u), Registers(t)];
    var freed := Steps(cfg, s, first);
    StepsConcat(cfg, s, first, second);
    ThreeSteps(cfg, s, LibcCloses(u, fd, true), Removes(u), Classifies(u, path));
    ThreeSteps(cfg, freed, LibcOpens(u, fd), Registers(u), Registers(t));
    Freed(cfg, s, u, fd, path);
    RegisteredInOrder(cfg, s, freed, t, u, fd, path);
  }

  lemma Freed(cfg: Config, s: System, u: nat, fd: int, path: string)
    requires u < |s.threads| && s.threads[u].Outside?
    ensures var r := Step(cfg, Step(cfg, Step(cfg, s, LibcCloses(u, fd, true)), Removes(u)), Classifies(u, path));
            r.open == s.open - {fd} && r.threads == s.threads[u := Classified(path, Classify(cfg, path))]
  {
  }

  lemma RegisteredInOrder(cfg: Config, s: System, r: System, t: nat, u: nat, fd: int, path: string)
    requires t < |s.threads| && s.threads[t].Returned? && s.threads[t].fd == fd && PendingOk(s, fd)
    requires u < |s.threads| && s.threads[u].Outside? && ValidFd(fd)
    requires r.open == s.open - {fd} && r.threads == s.threads[u := Classified(path, Classify(cfg, path))]
    ensures var r' := Step(cfg, Step(cfg, Step(cfg, r, LibcOpens(u, fd)), Registers(u)), Registers(t));
            && Settled(r', fd) && r'.open[fd] == Opening(path)
            && fd in r'.table && r'.table[fd].path == s.threads[t].path
  {
  }

  /** Thread 0 is back from the libc open of descriptor 3 and has not registered it. */
  const OPENED := [Classifies(0, "/tmp/a"), LibcOpens(0, 3)]

  /** A concrete schedule of two threads that goes wrong after an early close. */
  lemma EarlyCloseHappens(cfg: Config)
    ensures var r := Interleave(cfg, {}, 2, OPENED + Reuse(0, 1, 3, "/tmp/b"));
            && Settled(r, 3) && r.open[3] == Opening("/tmp/b") && 3 in r.table && r.table[3].path == "/tmp/a"
  {
    hide Steps;
    var s := Initial({}, 2);
    TwoSteps(cfg, s, OPENED[0], OPENED[1]);
    StepsConcat(cfg, s, OPENED, Reuse(0, 1, 3, "/tmp/b"));
    ReuseBreaks(cfg, Steps(cfg, s, OPENED), 0, 1, 3, "/tmp/b");
  }

  /** Under option_hard_remove: thread 0 opens descriptor 3 and closes it, thread 1 opens another path
      under it before the removal of thread 0, which comes late. */
  const REMOVED_LATE :=
    [Classifies(0, "/tmp/a"), LibcOpens(0, 3), Registers(0)]
    + ([LibcCloses(0, 3, true), Classifies(1, "/tmp/b"), LibcOpens(1, 3)] + [Registers(1), Removes(0)])

  /** A concrete schedule, without an early close, that leaves an open descriptor unmapped. */
  lemma LateRemovalHappens(cfg: Config)
    requires cfg.hardRemove
    ensures var r := Interleave(cfg, {}, 2, REMOVED_LATE);
            Settled(r, 3) && r.open[3] == Opening("/tmp/b") && 3 !in r.table
    ensures Disciplined(cfg, {}, 2, REMOVED_LATE, 3)
  {
    hide Steps, UnderWay, Disciplined, Interleave;
    var first := [Classifies(0, "/tmp/a"), LibcOpens(0, 3), Registers(0)];
    var second := [LibcCloses(0, 3, true), Classifies(1, "/tmp/b"), LibcOpens(1, 3)];
    var third := [Registers(1), Removes(0)];
    var returned := OnceRegistered(cfg);
    ThreeSteps(cfg, returned, second[0], second[1], second[2]);
    var reopened := Steps(cfg, returned, second);
    TwoSteps(cfg, reopened, third[0], third[1]);
    StepsConcat(cfg, Initial({}, 2), first, second + third);
    StepsConcat(cfg, returned, second, third);
    LateRemovalInterleaves(cfg);
    NotUnderWay(Steps(cfg, reopened, third), 3);
    assert REMOVED_LATE[..3] == first;
    NoEarlyClose(cfg, returned);
  }

  lemma LateRemovalInterleaves(cfg: Config)
    ensures Interleave(cfg, {}, 2, REMOVED_LATE) == Steps(cfg, Initial({}, 2), REMOVED_LATE)
    ensures Interleave(cfg, {}, 2, REMOVED_LATE[..3]) == Steps(cfg, Initial({}, 2), REMOVED_LATE[..3])
  {
    hide Steps;
  }

  /** The state after the first three of those steps. */
  lemma OnceRegistered(cfg: Config) returns (s: System)
    ensures s == Steps(cfg, Initial({}, 2), [Classifies(0, "/tmp/a"), LibcOpens(0, 3), Registers(0)])
    ensures s == System(map[3 := Opening("/tmp/a")], map[3 := Entry("/tmp/a", Classify(cfg, "/tmp/a"), NO_UNIT)],
                        [Outside, Outside])
  {
    hide Steps, Classify;
    s := Steps(cfg, Initial({}, 2), [Classifies(0, "/tmp/a"), LibcOpens(0, 3), Registers(0)]);
    ThreeSteps(cfg, Initial({}, 2), Classifies(0, "/tmp/a"), LibcOpens(0, 3), Registers(0));
  }

  lemma NotUnderWay(s: System, fd: int)
    requires forall t | 0 <= t < |s.threads| :: s.threads[t].Outside?
    ensures !UnderWay(s, fd)
  {
  }

  lemma NoEarlyClose(cfg: Config, s: System)
    requires s == Interleave(cfg, {}, 2, REMOVED_LATE[..3]) && s.threads == [Outside, Outside]
    ensures Disciplined(cfg, {}, 2, REMOVED_LATE, 3)
  {
    hide Interleave, UnderWay;
    NotUnderWay(s, 3);
    forall i | 0 <= i < |REMOVED_LATE|
      ensures !ClosesEarly(Interleave(cfg, {}, 2, REMOVED_LATE[..i]), REMOVED_LATE[i], 3)
    {
      if i != 3 {
        assert !REMOVED_LATE[i].LibcCloses? && !REMOVED_LATE[i].ClosesElsewhere?;
      }
    }
  }

  // One thread alone

  /** The steps of an open, taken without interruption, are the open of the sequential engine ... */
  lemma {:induction false} StepsAreOpen(cfg: Config, s: System, t: nat, ld: LdState, call: Call, ret: int)
    requires t < |s.threads| && s.threads[t].Outside? && ret !in s.open
    requires ld.fds == s.table
    ensures var r := Steps(cfg, s, [Classifies(t, call.path), LibcOpens(t, ret), Registers(t)]);
            && r.table == Indexed(cfg, ld, OpenFile, call, ret).fds
            && r.threads == s.threads
            && r.open == if ret < 0 then s.open else s.open[ret := Opening(call.path)]
  {
    hide Steps;
    ThreeSteps(cfg, s, Classifies(t, call.path), LibcOpens(t, ret), Registers(t));
  }

  /** ... and those of a close are its close. */
  lemma {:induction false} StepsAreClose(cfg: Config, s: System, t: nat, ld: LdState, call: Call, ret: int, freed: bool)
    requires t < |s.threads| && s.threads[t].Outside? && ld.fds == s.table
    ensures var r := Step(cfg, Step(cfg, s, LibcCloses(t, call.fd, freed)), Removes(t));
            && r.table == Indexed(cfg, ld, CloseFile, call, ret).fds
            && r.threads == s.threads
            && r.open == if freed then s.open - {call.fd} else s.open
  {
    assert s.threads[t := Closed(call.fd)][t := Outside] == s.threads;
  }
}
