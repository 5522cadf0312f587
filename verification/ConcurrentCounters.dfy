/** Many threads updating one set of statistics. An update is two or three increments, each under
    the lock of the entry but the update as a whole under none, so increments of different
    updates interleave freely. */
module ConcurrentCounters {
  import opened Words
  import opened Accounting
  import Operations
  import Engine

  /** A thread between updates, or about to perform increment `next` of the script of an update. */
  datatype Thread = Idle | Running(update: Update, next: nat)

  /** The shared sheet, the threads, and the updates started so far in the order they started. */
  datatype System = System(sheet: Sheet, threads: seq<Thread>, started: seq<Update>)

  datatype Action = Start(thread: nat, update: Update) | Tick(thread: nat)

  ghost predicate ThreadOk(t: Thread, size: nat) {
    t.Running? ==> t.next < |Script(t.update)| && t.update.pos < size
  }

  ghost predicate Valid(s: System) {
    && (forall t | 0 <= t < |s.threads| :: ThreadOk(s.threads[t], |s.sheet|))
    && Within(s.started, |s.sheet|)
  }

  function Initial(size: nat, threads: nat): (s: System)
    ensures Valid(s)
  {
    System(Zeros(size), seq(threads, t => Idle), [])
  }

  predicate Enabled(s: System, a: Action) {
    && a.thread < |s.threads|
    && match a
       case Start(t, u) => s.threads[t].Idle? && u.pos < |s.sheet|
       case Tick(t) => s.threads[t].Running?
  }

  /** One action of one thread; an action that is not enabled leaves everything as it is. */
  function Step(s: System, a: Action): (r: System)
    requires Valid(s)
    ensures Valid(r) && |r.sheet| == |s.sheet| && |r.threads| == |s.threads|
  {
    if !Enabled(s, a) then s else
    match a
    case Start(t, u) =>
      s.(threads := s.threads[t := Running(u, 0)], started := s.started + [u])
    case Tick(t) =>
      var Running(u, next) := s.threads[t];
      var rest := if next + 1 == |Script(u)| then Idle else Running(u, next + 1);
      s.(sheet := Perform(s.sheet, Script(u)[next]), threads := s.threads[t := rest])
  }

  /** An interleaving: any sequence of actions, from fresh statistics. */
  function Interleave(size: nat, threads: nat, actions: seq<Action>): (s: System)
    ensures Valid(s) && |s.sheet| == size && |s.threads| == threads
    decreases |actions|, 0
  {
    if actions == [] then Initial(size, threads)
    else Then(size, threads, actions[..|actions| - 1], actions[|actions| - 1])
  }

  /** An interleaving and one more action. */
  function Then(size: nat, threads: nat, actions: seq<Action>, a: Action): (s: System)
    ensures Valid(s) && |s.sheet| == size && |s.threads| == threads
    decreases |actions|, 1
  {
    Step(Interleave(size, threads, actions), a)
  }

  ghost predicate Quiescent(s: System) {
    forall t | 0 <= t < |s.threads| :: s.threads[t].Idle?
  }

  // What is still pending

  /** The place of the increment of a counter in a script. */
  function Slot(k: Counter): nat {
    match k
    case OpCount => 0
    case ByteCount => 1
    case ErrorCount => 2
    case BypassCount => 0
  }

  /** What a thread still has to add to a counter. */
  function Owes(t: Thread, p: nat, k: Counter): nat {
    if t.Running? && t.update.pos == p && t.next <= Slot(k) then Amount(t.update, k) else 0
  }

  /** The errors a thread still has to add for an operation it has already counted. */
  function Credit(t: Thread, p: nat): nat {
    if t.Running? && t.next == 0 then 0 else Owes(t, p, ErrorCount)
  }

  function Pending(threads: seq<Thread>, p: nat, k: Counter): nat {
    if threads == [] then 0
    else Pending(threads[..|threads| - 1], p, k) + Owes(threads[|threads| - 1], p, k)
  }

  function Credits(threads: seq<Thread>, p: nat): nat {
    if threads == [] then 0
    else Credits(threads[..|threads| - 1], p) + Credit(threads[|threads| - 1], p)
  }

  lemma {:induction false} PendingUpdate(threads: seq<Thread>, t: nat, to: Thread, p: nat, k: Counter)
    requires t < |threads|
    ensures Pending(threads[t := to], p, k) == Pending(threads, p, k) - Owes(threads[t], p, k) + Owes(to, p, k)
  {
    var n := |threads| - 1;
    if t == n {
      assert threads[t := to][..n] == threads[..n];
    } else {
      assert threads[t := to][..n] == threads[..n][t := to];
      PendingUpdate(threads[..n], t, to, p, k);
    }
  }

  lemma {:induction false} CreditsUpdate(threads: seq<Thread>, t: nat, to: Thread, p: nat)
    requires t < |threads|
    ensures Credits(threads[t := to], p) == Credits(threads, p) - Credit(threads[t], p) + Credit(to, p)
  {
    var n := |threads| - 1;
    if t == n {
      assert threads[t := to][..n] == threads[..n];
    } else {
      assert threads[t := to][..n] == threads[..n][t := to];
      CreditsUpdate(threads[..n], t, to, p);
    }
  }

  lemma {:induction false} IdleOwesNothing(threads: seq<Thread>, p: nat, k: Counter)
    requires forall t | 0 <= t < |threads| :: threads[t].Idle?
    ensures Pending(threads, p, k) == 0 && Credits(threads, p) == 0
  {
    if threads != [] {
      IdleOwesNothing(threads[..|threads| - 1], p, k);
    }
  }

  // Every counter plus what is pending is the total started

  /** What increment `next` of a script adds to a counter of an entry. */
  function Adds(u: Update, next: nat, p: nat, k: Counter): nat
    requires next < |Script(u)|
  {
    var inc := Script(u)[next];
    if inc.pos == p && inc.counter == k then inc.amount else 0
  }

  function Rest(u: Update, next: nat): Thread {
    if next + 1 == |Script(u)| then Idle else Running(u, next + 1)
  }

  /** An increment moves its amount out of what the thread owes. */
  lemma TickPays(u: Update, next: nat, p: nat, k: Counter)
    requires next < |Script(u)|
    ensures Owes(Running(u, next), p, k) == Adds(u, next, p, k) + Owes(Rest(u, next), p, k)
  {
  }

  lemma PerformAdds(sheet: Sheet, u: Update, next: nat, p: nat, k: Counter)
    requires next < |Script(u)| && u.pos < |sheet| && p < |sheet|
    ensures Field(Perform(sheet, Script(u)[next])[p], k) == Wrap(Field(sheet[p], k) + Adds(u, next, p, k))
  {
  }

  lemma TotalAppend(us: seq<Update>, u: Update, p: nat, k: Counter)
    ensures Total(us + [u], p, k) == Total(us, p, k) + if u.pos == p then Amount(u, k) else 0
  {
    assert (us + [u])[..|us|] == us;
  }

  /** Modulo 2^64, a counter and what is pending for it make up the total of the started updates. */
  ghost predicate Balanced(s: System, p: nat, k: Counter)
    requires p < |s.sheet|
  {
    && Pending(s.threads, p, k) <= Total(s.started, p, k)
    && Field(s.sheet[p], k) == Wrap(Total(s.started, p, k) - Pending(s.threads, p, k))
  }

  lemma StepBalanced(s: System, a: Action, p: nat, k: Counter)
    requires Valid(s) && p < |s.sheet| && Balanced(s, p, k)
    ensures Balanced(Step(s, a), p, k)
  {
    if Enabled(s, a) {
      match a {
        case Start(t, u) => StartBalanced(s, t, u, p, k);
        case Tick(t) => TickBalanced(s, t, p, k);
      }
    }
  }

  lemma StartBalanced(s: System, t: nat, u: Update, p: nat, k: Counter)
    requires Valid(s) && p < |s.sheet| && Balanced(s, p, k) && Enabled(s, Start(t, u))
    ensures Balanced(Step(s, Start(t, u)), p, k)
  {
    hide Wrap, Owes, Total, Pending;
    PendingUpdate(s.threads, t, Running(u, 0), p, k);
    TotalAppend(s.started, u, p, k);
    StartOwes(u, p, k);
    IdleOwes(p, k);
  }

  lemma TickBalanced(s: System, t: nat, p: nat, k: Counter)
    requires Valid(s) && p < |s.sheet| && Balanced(s, p, k) && Enabled(s, Tick(t))
    ensures Balanced(Step(s, Tick(t)), p, k)
  {
    hide Wrap, Owes, Total, Pending, Adds, Field, Perform, Script;
    var Running(u, next) := s.threads[t];
    PendingUpdate(s.threads, t, Rest(u, next), p, k);
    TickPays(u, next, p, k);
    PerformAdds(s.sheet, u, next, p, k);
    WrapAdd(Total(s.started, p, k) - Pending(s.threads, p, k), Adds(u, next, p, k));
  }

  lemma IdleOwes(p: nat, k: Counter)
    ensures Owes(Idle, p, k) == 0
  {
  }

  lemma StartOwes(u: Update, p: nat, k: Counter)
    ensures Owes(Running(u, 0), p, k) == if u.pos == p then Amount(u, k) else 0
  {
  }

  /** In every interleaving, each counter plus the increments still pending for it is the total
      of the updates started, modulo 2^64. */
  lemma {:induction false} NothingIsLost(size: nat, threads: nat, actions: seq<Action>, p: nat, k: Counter)
    requires p < size
    ensures Balanced(Interleave(size, threads, actions), p, k)
  {
    if actions == [] {
      IdleOwesNothing(Initial(size, threads).threads, p, k);
    } else {
      var front := actions[..|actions| - 1];
      NothingIsLost(size, threads, front, p, k);
      StepBalanced(Interleave(size, threads, front), actions[|actions| - 1], p, k);
    }
  }

  /** Below 2^64 the balance is exact. */
  lemma CounterPlusPending(size: nat, threads: nat, actions: seq<Action>, p: nat, k: Counter)
    requires p < size && Total(Interleave(size, threads, actions).started, p, k) < TWO_64
    ensures var s := Interleave(size, threads, actions);
            Field(s.sheet[p], k) + Pending(s.threads, p, k) == Total(s.started, p, k)
  {
    hide Total, Pending, Interleave, Wrap;
    NothingIsLost(size, threads, actions, p, k);
    var s := Interleave(size, threads, actions);
    WrapSmall(Total(s.started, p, k) - Pending(s.threads, p, k));
  }

  // Once no update is under way

  lemma SameCounters(a: Counters, b: Counters)
    requires forall k :: Field(a, k) == Field(b, k)
    ensures a == b
  {
    assert Field(a, OpCount) == Field(b, OpCount) && Field(a, ByteCount) == Field(b, ByteCount);
    assert Field(a, ErrorCount) == Field(b, ErrorCount) && Field(a, BypassCount) == Field(b, BypassCount);
  }

  /** Once done, a counter is the total of the updates started. */
  lemma QuiescentCounter(size: nat, threads: nat, actions: seq<Action>, p: nat, k: Counter)
    requires p < size && Quiescent(Interleave(size, threads, actions))
    ensures var s := Interleave(size, threads, actions); Field(s.sheet[p], k) == Wrap(Total(s.started, p, k))
  {
    hide Field, Total;
    NothingIsLost(size, threads, actions, p, k);
    IdleOwesNothing(Interleave(size, threads, actions).threads, p, k);
  }

  /** Whatever the interleaving, once every update has finished the sheet is the one that
      performing them one at a time, in the order they started, would have left. */
  lemma QuiescentIsSequential(size: nat, threads: nat, actions: seq<Action>)
    requires Quiescent(Interleave(size, threads, actions))
    ensures var s := Interleave(size, threads, actions); s.sheet == ApplyAll(Zeros(size), s.started)
  {
    var s := Interleave(size, threads, actions);
    var sequential := ApplyAll(Zeros(size), s.started);
    forall p | 0 <= p < size
      ensures s.sheet[p] == sequential[p]
    {
      forall k
        ensures Field(s.sheet[p], k) == Field(sequential[p], k)
      {
        QuiescentCounter(size, threads, actions, p, k);
        ExactAccounting(Zeros(size), s.started, p, k);
      }
      SameCounters(s.sheet[p], sequential[p]);
    }
  }

  function Without(us: seq<Update>, i: nat): seq<Update>
    requires i < |us|
  {
    us[..i] + us[i + 1..]
  }

  lemma {:induction false} TotalWithout(us: seq<Update>, i: nat, p: nat, k: Counter)
    requires i < |us|
    ensures Total(us, p, k) == Total(Without(us, i), p, k) + if us[i].pos == p then Amount(us[i], k) else 0
  {
    var n := |us| - 1;
    if i == n {
      assert Without(us, i) == us[..n];
    } else {
      TotalWithout(us[..n], i, p, k);
      assert Without(us, i) == Without(us[..n], i) + [us[n]];
      TotalAppend(Without(us[..n], i), us[n], p, k);
    }
  }

  lemma WithoutIsOneLess(us: seq<Update>, i: nat)
    requires i < |us|
    ensures multiset(Without(us, i)) == multiset(us) - multiset{us[i]}
  {
    assert us == us[..i] + [us[i]] + us[i + 1..];
  }

  lemma {:induction false} TotalOfPermutation(us: seq<Update>, vs: seq<Update>, p: nat, k: Counter)
    requires multiset(us) == multiset(vs)
    ensures Total(us, p, k) == Total(vs, p, k)
    decreases |us|
  {
    hide Total, Amount;
    assert |us| == |multiset(us)| == |vs|;
    if us == [] {
      assert us == vs;
    } else {
      assert us[0] in multiset(vs);
      var i :| 0 <= i < |vs| && vs[i] == us[0];
      WithoutIsOneLess(us, 0);
      WithoutIsOneLess(vs, i);
      TotalWithout(us, 0, p, k);
      TotalWithout(vs, i, p, k);
      TotalOfPermutation(Without(us, 0), Without(vs, i), p, k);
    }
  }

  /** The outcome does not depend on the schedule: two interleavings, on any numbers of threads,
      of the same updates in any order agree on every counter once they are done. */
  lemma ScheduleIndependence(size: nat, n: nat, first: seq<Action>, m: nat, second: seq<Action>)
    requires Quiescent(Interleave(size, n, first)) && Quiescent(Interleave(size, m, second))
    requires multiset(Interleave(size, n, first).started) == multiset(Interleave(size, m, second).started)
    ensures Interleave(size, n, first).sheet == Interleave(size, m, second).sheet
  {
    hide Field, Total, Interleave, Quiescent, Wrap;
    var s, t := Interleave(size, n, first), Interleave(size, m, second);
    forall p | 0 <= p < size
      ensures s.sheet[p] == t.sheet[p]
    {
      forall k
        ensures Field(s.sheet[p], k) == Field(t.sheet[p], k)
      {
        QuiescentCounter(size, n, first, p, k);
        QuiescentCounter(size, m, second, p, k);
        TotalOfPermutation(s.started, t.started, p, k);
      }
      SameCounters(s.sheet[p], t.sheet[p]);
    }
  }

  // Errors never run ahead of operations

  /** An update that reports at most as many errors as operations, as every wrapper's does. */
  predicate Sane(u: Update) {
    Amount(u, ErrorCount) <= Amount(u, OpCount)
  }

  lemma WrapperUpdatesAreSane(
    kind: Operations.OperationType, position: nat, result: int, enforced: bool, w: Engine.PtWrapper)
    ensures Sane(Engine.LdUpdate(kind, position, result, enforced)) && Sane(Engine.PtUpdate(w, result))
  {
  }

  ghost predicate AllSane(us: seq<Update>) {
    forall i | 0 <= i < |us| :: Sane(us[i])
  }

  /** What has been performed of a counter's total. */
  function Performed(s: System, p: nat, k: Counter): int {
    Total(s.started, p, k) - Pending(s.threads, p, k)
  }

  ghost predicate Covered(s: System, p: nat) {
    && (forall t | 0 <= t < |s.threads| && s.threads[t].Running? :: Sane(s.threads[t].update))
    && Performed(s, p, ErrorCount) + Credits(s.threads, p) <= Performed(s, p, OpCount)
  }

  lemma TickCovers(u: Update, next: nat, p: nat)
    requires next < |Script(u)| && Sane(u)
    ensures Adds(u, next, p, ErrorCount) + Credit(Rest(u, next), p) - Credit(Running(u, next), p)
         <= Adds(u, next, p, OpCount)
  {
  }

  lemma StepCovered(s: System, a: Action, p: nat)
    requires Valid(s) && Covered(s, p) && AllSane(Step(s, a).started)
    ensures Covered(Step(s, a), p)
  {
    if Enabled(s, a) {
      match a {
        case Start(t, u) =>
          StartCovered(s, t, u, p);
        case Tick(t) =>
          TickCovered(s, t, p);
      }
    }
  }

  lemma StartCovered(s: System, t: nat, u: Update, p: nat)
    requires Valid(s) && Covered(s, p) && Enabled(s, Start(t, u)) && AllSane(s.started + [u])
    ensures Covered(Step(s, Start(t, u)), p)
  {
    assert (s.started + [u])[|s.started|] == u;
    CreditsUpdate(s.threads, t, Running(u, 0), p);
    PendingUpdate(s.threads, t, Running(u, 0), p, OpCount);
    PendingUpdate(s.threads, t, Running(u, 0), p, ErrorCount);
    TotalAppend(s.started, u, p, OpCount);
    TotalAppend(s.started, u, p, ErrorCount);
  }

  lemma TickCovered(s: System, t: nat, p: nat)
    requires Valid(s) && Covered(s, p) && Enabled(s, Tick(t))
    ensures Covered(Step(s, Tick(t)), p)
  {
    var Running(u, next) := s.threads[t];
    CreditsUpdate(s.threads, t, Rest(u, next), p);
    PendingUpdate(s.threads, t, Rest(u, next), p, OpCount);
    PendingUpdate(s.threads, t, Rest(u, next), p, ErrorCount);
    TickPays(u, next, p, OpCount);
    TickPays(u, next, p, ErrorCount);
    TickCovers(u, next, p);
  }

  lemma {:induction false} InterleaveCovered(size: nat, threads: nat, actions: seq<Action>, p: nat)
    requires AllSane(Interleave(size, threads, actions).started)
    ensures Covered(Interleave(size, threads, actions), p)
  {
    if actions == [] {
      IdleOwesNothing(Initial(size, threads).threads, p, OpCount);
      IdleOwesNothing(Initial(size, threads).threads, p, ErrorCount);
    } else {
      var front, last := actions[..|actions| - 1], actions[|actions| - 1];
      var s := Interleave(size, threads, front);
      assert Interleave(size, threads, actions) == Then(size, threads, front, last) == Step(s, last);
      StartedGrows(s, last);
      InterleaveCovered(size, threads, front, p);
      StepCovered(s, last, p);
    }
  }

  lemma StartedGrows(s: System, a: Action)
    requires Valid(s)
    ensures s.started <= Step(s, a).started
  {
  }

  /** In every state of every interleaving whose operation totals fit the counter, no entry shows
      more errors than operations. */
  lemma ErrorsNeverExceedOperations(size: nat, threads: nat, actions: seq<Action>, p: nat)
    requires p < size && AllSane(Interleave(size, threads, actions).started)
    requires Total(Interleave(size, threads, actions).started, p, OpCount) < TWO_64
    ensures var c := Interleave(size, threads, actions).sheet[p]; c.error <= c.op
  {
    var s := Interleave(size, threads, actions);
    InterleaveCovered(size, threads, actions, p);
    TotalErrors(s.started, p);
    CounterPlusPending(size, threads, actions, p, OpCount);
    CounterPlusPending(size, threads, actions, p, ErrorCount);
  }

  lemma {:induction false} TotalErrors(us: seq<Update>, p: nat)
    requires AllSane(us)
    ensures Total(us, p, ErrorCount) <= Total(us, p, OpCount)
  {
    if us != [] {
      TotalErrors(us[..|us| - 1], p);
    }
  }
}
