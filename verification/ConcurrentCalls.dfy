/** Many threads inside the LdPreloaded wrappers at once. A call is enforced, reaches libc and is
    accounted for in separate steps, so the submission log and the counters disagree in between:
    by how much, and that they agree again once no call is under way. */
module ConcurrentCalls {
  import opened Words
  import opened Operations
  import opened Accounting
  import opened MountPoints
  import opened MountPointTable
  import opened Engine
  import opened Runs
  import opened Conservation

  /** A thread outside the wrappers; one that has picked a workflow; one whose request has been
      enforced or bypassed; one about to perform increment `next` of its update. */
  datatype Thread =
    | Outside
    | Picked(op: Op, id: u32, payload: int)
    | Enforced(op: Op, enforced: bool)
    | Posting(op: Op, update: Update, next: nat)

  datatype System = System(log: seq<Submission>, calls: nat, books: Books, threads: seq<Thread>)

  /** Which workflow a call picks depends on the table at that moment, so it is left open here,
      except that sync, socket and fcntl pick none. */
  datatype Action =
    | Picks(thread: nat, op: Op, id: u32, payload: int)
    | Enforces(thread: nat)
    | Returns(thread: nat, result: int)
    | Increments(thread: nat)

  /** What a thread in the middle of a call carries belongs to its operation. */
  ghost predicate ThreadOk(t: Thread) {
    match t
    case Outside => true
    case Picked(op, id, _) => id != NO_WORKFLOW ==> Submits(op)
    case Enforced(op, enforced) => enforced ==> Submits(op) || op == Sync
    case Posting(op, u, next) =>
      && u.pos == Position(op) && next < |Script(u)| && Amount(u, OpCount) == if u.Bypass? then 0 else 1
  }

  ghost predicate Valid(s: System) {
    forall t | 0 <= t < |s.threads| :: ThreadOk(s.threads[t])
  }

  predicate Enabled(s: System, a: Action) {
    a.thread < |s.threads|
    && match a
       case Picks(t, op, id, _) => s.threads[t].Outside? && (id != NO_WORKFLOW ==> Submits(op))
       case Enforces(t) => s.threads[t].Picked?
       case Returns(t, _) => s.threads[t].Enforced?
       case Increments(t) => s.threads[t].Posting?
  }

  function Bumped(books: Books, op: Op, inc: Inc): Books {
    WithSheet(books, Kind(op), Perform(SheetOf(books, Kind(op)), inc))
  }

  function Rest(op: Op, u: Update, next: nat): Thread {
    if next + 1 == |Script(u)| then Outside else Posting(op, u, next + 1)
  }

  /** One step of one thread; an action that is not enabled leaves everything as it is. */
  function Step(s: System, a: Action): (r: System)
    requires Valid(s)
    ensures Valid(r) && |r.threads| == |s.threads|
  {
    if !Enabled(s, a) then s else
    match a
    case Picks(t, op, id, payload) => s.(threads := s.threads[t := Picked(op, id, payload)])
    case Enforces(t) =>
      var Picked(op, id, payload) := s.threads[t];
      s.(threads := s.threads[t := Enforced(op, op == Sync || id != NO_WORKFLOW)],
         log := if id == NO_WORKFLOW then s.log
                else s.log + [Submission(id, ClassOf(op), ContextOf(op), Wrap(payload), s.calls)])
    case Returns(t, result) =>
      var Enforced(op, enforced) := s.threads[t];
      s.(threads := s.threads[t := Posting(op, LdUpdate(Kind(op), Position(op), result, enforced), 0)],
         calls := s.calls + 1)
    case Increments(t) =>
      var Posting(op, u, next) := s.threads[t];
      s.(threads := s.threads[t := Rest(op, u, next)], books := Bumped(s.books, op, Script(u)[next]))
  }

  function Initial(threads: nat): (s: System)
    ensures Valid(s)
  {
    System([], 0, NEW_BOOKS, seq(threads, t => Outside))
  }

  /** An interleaving: any sequence of actions, from the initial state. */
  function Interleave(threads: nat, actions: seq<Action>): (s: System)
    ensures Valid(s) && |s.threads| == threads
    decreases |actions|, 0
  {
    if actions == [] then Initial(threads) else Then(threads, actions[..|actions| - 1], actions[|actions| - 1])
  }

  function Then(threads: nat, actions: seq<Action>, a: Action): (s: System)
    ensures Valid(s) && |s.threads| == threads
    decreases |actions|, 1
  {
    Step(Interleave(threads, actions), a)
  }

  // Calls submitted and not yet counted

  /** The thread has submitted a request of the class and has not counted the operation yet. */
  function Ahead(t: Thread, class_: Op): nat {
    match t
    case Enforced(op, true) => if op in Members(class_) then 1 else 0
    case Posting(op, u, 0) => if !u.Bypass? && op in Members(class_) then 1 else 0
    case _ => 0
  }

  function AllAhead(threads: seq<Thread>, class_: Op): nat {
    if threads == [] then 0
    else AllAhead(threads[..|threads| - 1], class_) + Ahead(threads[|threads| - 1], class_)
  }

  lemma {:induction false} AllAheadUpdate(threads: seq<Thread>, t: nat, to: Thread, class_: Op)
    requires t < |threads|
    ensures AllAhead(threads[t := to], class_)
         == AllAhead(threads, class_) - Ahead(threads[t], class_) + Ahead(to, class_)
  {
    hide Ahead;
    var n := |threads| - 1;
    if t == n {
      assert threads[t := to][..n] == threads[..n];
    } else {
      assert threads[t := to][..n] == threads[..n][t := to];
      AllAheadUpdate(threads[..n], t, to, class_);
    }
  }

  lemma {:induction false} AllAheadBounds(threads: seq<Thread>, class_: Op)
    ensures AllAhead(threads, class_) <= |threads|
    ensures (forall t | 0 <= t < |threads| :: threads[t].Outside?) ==> AllAhead(threads, class_) == 0
  {
    if threads != [] {
      AllAheadBounds(threads[..|threads| - 1], class_);
    }
  }

  // The invariant

  ghost predicate Accounted(s: System, class_: Op) {
    Tagged(s.log, class_) == SumOfOps(s.books, Members(class_)) + AllAhead(s.threads, class_)
  }

  ghost predicate OpsUpTo(books: Books, n: nat) {
    forall op :: CountersOf(books, op).op <= n
  }

  /** What an increment adds to the operation counter of its entry. */
  function OpAmount(inc: Inc): nat {
    if inc.counter == OpCount then inc.amount else 0
  }

  lemma BumpedCounters(books: Books, op: Op, inc: Inc, other: Op)
    requires inc.pos == Position(op)
    requires CountersOf(books, op).op + OpAmount(inc) < TWO_64
    ensures CountersOf(Bumped(books, op, inc), other).op
         == CountersOf(books, other).op + if other == op then OpAmount(inc) else 0
  {
    hide Kind, Position;
    if Kind(other) == Kind(op) && Position(other) == Position(op) {
      PositionInjective(op, other);
    }
  }

  lemma {:induction false} SumOfOpsBumped(books: Books, op: Op, inc: Inc, ops: seq<Op>)
    requires NoRepeats(ops) && inc.pos == Position(op)
    requires CountersOf(books, op).op + OpAmount(inc) < TWO_64
    ensures SumOfOps(Bumped(books, op, inc), ops) == SumOfOps(books, ops) + if op in ops then OpAmount(inc) else 0
  {
    hide Bumped, CountersOf, Position;
    if ops != [] {
      var front, last := ops[..|ops| - 1], ops[|ops| - 1];
      assert ops == front + [last];
      SumOfOpsBumped(books, op, inc, front);
      BumpedCounters(books, op, inc, last);
    }
  }

  lemma IncrementPays(op: Op, u: Update, next: nat, class_: Op)
    requires ThreadOk(Posting(op, u, next))
    ensures Script(u)[next].pos == Position(op) && OpAmount(Script(u)[next]) <= 1
    ensures Ahead(Posting(op, u, next), class_)
         == Ahead(Rest(op, u, next), class_) + if op in Members(class_) then OpAmount(Script(u)[next]) else 0
  {
    hide Position, Members;
  }

  lemma IncrementAccounted(s: System, t: nat, class_: Op, n: nat)
    requires Valid(s) && Accounted(s, class_) && OpsUpTo(s.books, n) && n + 1 < TWO_64
    requires Enabled(s, Increments(t))
    ensures Accounted(Step(s, Increments(t)), class_) && OpsUpTo(Step(s, Increments(t)).books, n + 1)
  {
    hide Position, Members, SumOfOps, Ahead, AllAhead, Rest, Script, Bumped, OpAmount, CountersOf;
    var Posting(op, u, next) := s.threads[t];
    var inc := Script(u)[next];
    IncrementPays(op, u, next, class_);
    AllAheadUpdate(s.threads, t, Rest(op, u, next), class_);
    MembersDistinct(class_);
    SumOfOpsBumped(s.books, op, inc, Members(class_));
    forall other
      ensures CountersOf(Bumped(s.books, op, inc), other).op <= n + 1
    {
      BumpedCounters(s.books, op, inc, other);
    }
  }

  /** A thread is ahead after enforcing exactly if it has submitted. */
  lemma EnforcedAhead(op: Op, id: u32, class_: Op)
    requires id != NO_WORKFLOW ==> Submits(op)
    ensures Ahead(Enforced(op, op == Sync || id != NO_WORKFLOW), class_)
         == if id != NO_WORKFLOW && ClassOf(op) == class_ then 1 else 0
  {
    hide Members, ClassOf;
    MembersAreTheClass(class_, op);
  }

  lemma EnforceAccounted(s: System, t: nat, class_: Op)
    requires Valid(s) && Accounted(s, class_) && Enabled(s, Enforces(t))
    ensures Accounted(Step(s, Enforces(t)), class_)
  {
    hide Members, SumOfOps, Ahead, AllAhead, ContextOf, ClassOf, Submits, Tagged;
    var Picked(op, id, payload) := s.threads[t];
    assert Ahead(s.threads[t], class_) == 0 by { NotAhead(s.threads[t], class_); }
    EnforcedAhead(op, id, class_);
    AllAheadUpdate(s.threads, t, Enforced(op, op == Sync || id != NO_WORKFLOW), class_);
    var submission := Submission(id, ClassOf(op), ContextOf(op), Wrap(payload), s.calls);
    TaggedGrows(s.log, s.log + [submission], class_);
  }

  lemma NotAhead(t: Thread, class_: Op)
    requires t.Outside? || t.Picked?
    ensures Ahead(t, class_) == 0
  {
  }

  /** The update of a call is ahead exactly as long as the call was. */
  lemma ReturnedAhead(op: Op, enforced: bool, result: int, class_: Op)
    ensures Ahead(Posting(op, LdUpdate(Kind(op), Position(op), result, enforced), 0), class_)
         == Ahead(Enforced(op, enforced), class_)
  {
    hide Position, Kind, Members;
  }

  lemma ReturnAccounted(s: System, t: nat, result: int, class_: Op)
    requires Valid(s) && Accounted(s, class_) && Enabled(s, Returns(t, result))
    ensures Accounted(Step(s, Returns(t, result)), class_) && Step(s, Returns(t, result)).books == s.books
  {
    hide Members, SumOfOps, Ahead, AllAhead, Position, Kind, LdUpdate, Tagged;
    var Enforced(op, enforced) := s.threads[t];
    ReturnedAhead(op, enforced, result, class_);
    AllAheadUpdate(s.threads, t, Posting(op, LdUpdate(Kind(op), Position(op), result, enforced), 0), class_);
  }

  lemma StepAccounted(s: System, a: Action, class_: Op, n: nat)
    requires Valid(s) && Accounted(s, class_) && OpsUpTo(s.books, n) && n + 1 < TWO_64
    ensures Accounted(Step(s, a), class_) && OpsUpTo(Step(s, a).books, n + 1)
  {
    hide Members, SumOfOps, Ahead, AllAhead, Position, CountersOf, Tagged, LdUpdate, Bumped, Script;
    if Enabled(s, a) {
      match a {
        case Picks(t, op, id, payload) =>
          AllAheadUpdate(s.threads, t, Picked(op, id, payload), class_);
          NotAhead(s.threads[t], class_);
          NotAhead(Picked(op, id, payload), class_);
        case Enforces(t) =>
          EnforceAccounted(s, t, class_);
        case Returns(t, result) =>
          ReturnAccounted(s, t, result, class_);
        case Increments(t) =>
          IncrementAccounted(s, t, class_, n);
      }
    }
  }

  lemma {:induction false} InterleaveAccounted(threads: nat, actions: seq<Action>, class_: Op)
    requires |actions| < TWO_64
    ensures Accounted(Interleave(threads, actions), class_)
    ensures OpsUpTo(Interleave(threads, actions).books, |actions|)
  {
    hide Step, Members, Position;
    if actions == [] {
      AllAheadBounds(Initial(threads).threads, class_);
      NewSums(Members(class_));
      forall op ensures CountersOf(NEW_BOOKS, op).op == 0 {
        assert SheetOf(NEW_BOOKS, Kind(op)) == Zeros(Size(Kind(op)));
      }
    } else {
      var front, last := actions[..|actions| - 1], actions[|actions| - 1];
      assert Interleave(threads, actions) == Then(threads, front, last) == Step(Interleave(threads, front), last);
      InterleaveAccounted(threads, front, class_);
      StepAccounted(Interleave(threads, front), last, class_, |front|);
    }
  }

  /** In every state of every interleaving the submissions of a class lead the operations counted
      by its members, by at most one for every thread. */
  lemma LogLeadsCounters(threads: nat, actions: seq<Action>, class_: Op)
    requires |actions| < TWO_64
    ensures var s := Interleave(threads, actions);
            SumOfOps(s.books, Members(class_)) <= Tagged(s.log, class_)
            && Tagged(s.log, class_) <= SumOfOps(s.books, Members(class_)) + threads
  {
    hide Members, SumOfOps, Tagged, Interleave;
    InterleaveAccounted(threads, actions, class_);
    AllAheadBounds(Interleave(threads, actions).threads, class_);
  }

  /** Once no call is under way they are equal, as in a sequential run. */
  lemma QuiescentConservation(threads: nat, actions: seq<Action>, class_: Op)
    requires |actions| < TWO_64
    requires forall t | 0 <= t < threads :: Interleave(threads, actions).threads[t].Outside?
    ensures var s := Interleave(threads, actions);
            Tagged(s.log, class_) == SumOfOps(s.books, Members(class_))
  {
    hide Members, SumOfOps, Tagged;
    InterleaveAccounted(threads, actions, class_);
    AllAheadBounds(Interleave(threads, actions).threads, class_);
  }

  // One thread alone

  /** A thread performs the rest of its update without interruption. */
  function Finished(s: System, t: nat): System
    requires Valid(s) && t < |s.threads|
    decreases match s.threads[t] case Posting(_, u, next) => |Script(u)| - next case _ => 0
  {
    if s.threads[t].Posting? then Finished(Step(s, Increments(t)), t) else s
  }

  lemma {:induction false} FinishedPerforms(s: System, t: nat)
    requires Valid(s) && t < |s.threads| && s.threads[t].Posting?
    ensures var Posting(op, u, next) := s.threads[t];
            && |PerformAll(SheetOf(s.books, Kind(op)), Script(u)[next..])| == Size(Kind(op))
            && Finished(s, t).books
               == WithSheet(s.books, Kind(op), PerformAll(SheetOf(s.books, Kind(op)), Script(u)[next..]))
            && Finished(s, t).log == s.log && Finished(s, t).threads == s.threads[t := Outside]
    decreases |Script(s.threads[t].update)| - s.threads[t].next
  {
    hide Kind, Position, Script;
    var Posting(op, u, next) := s.threads[t];
    var s' := Step(s, Increments(t));
    var sheet, inc := SheetOf(s.books, Kind(op)), Script(u)[next];
    SheetOfWith(s.books, Kind(op), Perform(sheet, inc));
    assert Script(u)[next..] == [inc] + Script(u)[next + 1..];
    PerformAllStep(sheet, inc, Script(u)[next + 1..]);
    if next + 1 == |Script(u)| {
      assert Script(u)[next + 1..] == [];
      assert Finished(s', t) == s';
    } else {
      FinishedPerforms(s', t);
      WithSheetTwice(s.books, Kind(op), Perform(sheet, inc), PerformAll(Perform(sheet, inc), Script(u)[next + 1..]));
      assert s'.threads[t := Outside] == s.threads[t := Outside];
    }
  }

  lemma SheetOfWith(books: Books, kind: OperationType, sheet: Sheet)
    requires |sheet| == Size(kind)
    ensures SheetOf(WithSheet(books, kind, sheet), kind) == sheet && |SheetOf(books, kind)| == Size(kind)
  {
  }

  lemma WithSheetTwice(books: Books, kind: OperationType, first: Sheet, second: Sheet)
    requires |first| == Size(kind) && |second| == Size(kind)
    ensures WithSheet(WithSheet(books, kind, first), kind, second) == WithSheet(books, kind, second)
  {
  }

  lemma PickedSubmits(cfg: Config, env: Env, ld: LdState, op: Op, call: Call)
    ensures Engine.Picked(cfg, env, ld, FamilyOf(op), call).0 != NO_WORKFLOW ==> Submits(op)
    ensures FamilyOf(op) == Flush <==> op == Sync
  {
    hide Selection, Classify;
  }

  lemma ServedBooks(cfg: Config, env: Env, w: World, call: Call)
    requires cfg.collectLd
    ensures Serving(cfg, env, w, call).ld.books == Posted(w.ld.books, Variant(call), Charge(cfg, env, w, call))
  {
    hide Variant, ClassOf, ContextOf, FamilyOf, Engine.Picked, Indexed, Outcome, Payload;
  }

  lemma EnforcedAlone(s: System, t: nat, op: Op, id: u32, payload: int)
    requires Valid(s) && t < |s.threads| && s.threads[t].Outside? && (id != NO_WORKFLOW ==> Submits(op))
    ensures Step(Step(s, Picks(t, op, id, payload)), Enforces(t))
         == s.(threads := s.threads[t := Enforced(op, op == Sync || id != NO_WORKFLOW)],
               log := s.log + (if id == NO_WORKFLOW then [] else
                      [Submission(id, ClassOf(op), ContextOf(op), Wrap(payload), s.calls)]))
  {
    hide ClassOf, ContextOf, Submits;
  }

  lemma PostedAlone(s: System, t: nat, result: int)
    requires Valid(s) && t < |s.threads| && s.threads[t].Enforced?
    ensures var Enforced(op, enforced) := s.threads[t];
            var r := Finished(Step(s, Returns(t, result)), t);
            && r.log == s.log && r.threads == s.threads[t := Outside]
            && r.books == Posted(s.books, op, LdUpdate(Kind(op), Position(op), result, enforced))
  {
    hide Kind, Position, LdUpdate, Finished, PerformAll, Apply, Script;
    var Enforced(op, enforced) := s.threads[t];
    var u := LdUpdate(Kind(op), Position(op), result, enforced);
    var posting := Step(s, Returns(t, result));
    FinishedPerforms(posting, t);
    assert Script(u)[0..] == Script(u);
    ScriptIsApply(SheetOf(s.books, Kind(op)), u);
  }

  /** The steps of a call, taken without interruption, are what the sequential engine does to the
      log and to the counters. */
  lemma StepsAreServed(s: System, t: nat, cfg: Config, env: Env, w: World, call: Call)
    requires Valid(s) && t < |s.threads| && s.threads[t].Outside? && cfg.collectLd
    requires w.ld.log == s.log && w.ld.books == s.books && s.calls == |w.trace|
    ensures var op, served := Variant(call), Serving(cfg, env, w, call);
            var id := Engine.Picked(cfg, env, w.ld, FamilyOf(op), call).0;
            var enforced := Step(Step(s, Picks(t, op, id, Payload(FamilyOf(op), call))), Enforces(t));
            var r := Finished(Step(enforced, Returns(t, Outcome(FamilyOf(op), served.ret))), t);
            r.log == served.ld.log && r.books == served.ld.books && r.threads == s.threads
  {
    hide Variant, FamilyOf, Kind, Position, ClassOf, ContextOf, Submits, Serving, Engine.Picked, Payload, Outcome,
         Posted, Step, Finished, LdUpdate;
    var op, served := Variant(call), Serving(cfg, env, w, call);
    var id := Engine.Picked(cfg, env, w.ld, FamilyOf(op), call).0;
    var payload := Payload(FamilyOf(op), call);
    PickedSubmits(cfg, env, w.ld, op, call);
    ServedLog(cfg, env, w, call);
    ServedBooks(cfg, env, w, call);
    EnforcedAlone(s, t, op, id, payload);
    var enforced := Step(Step(s, Picks(t, op, id, payload)), Enforces(t));
    PostedAlone(enforced, t, Outcome(FamilyOf(op), served.ret));
    assert enforced.threads[t := Outside] == s.threads;
  }
}
