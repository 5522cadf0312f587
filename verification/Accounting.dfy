/** What the statistics counters are meant to hold: sheets of 64-bit counters, the separately
    locked increments that change them, and the laws relating a sheet to a history of updates. */
module Accounting {
  import opened Words

  datatype Counter = OpCount | ByteCount | ErrorCount | BypassCount

  datatype Counters = Counters(op: u64, bytes: u64, error: u64, bypass: u64)

  type Sheet = seq<Counters>

  const ZERO := Counters(0, 0, 0, 0)

  function Field(c: Counters, k: Counter): u64 {
    match k
    case OpCount => c.op
    case ByteCount => c.bytes
    case ErrorCount => c.error
    case BypassCount => c.bypass
  }

  function Bump(c: Counters, k: Counter, amount: u64): Counters {
    match k
    case OpCount => c.(op := Wrap(c.op + amount))
    case ByteCount => c.(bytes := Wrap(c.bytes + amount))
    case ErrorCount => c.(error := Wrap(c.error + amount))
    case BypassCount => c.(bypass := Wrap(c.bypass + amount))
  }

  /** One increment under the lock of the entry. */
  datatype Inc = Inc(pos: nat, counter: Counter, amount: u64)

  /** The three update methods of `Statistics`. */
  datatype Update =
    | Plain(pos: nat, op: u64, bytes: u64)
    | Failing(pos: nat, op: u64, bytes: u64, error: u64)
    | Bypass(pos: nat, bypass: u64)

  function Amount(u: Update, k: Counter): u64 {
    match k
    case OpCount => if u.Bypass? then 0 else u.op
    case ByteCount => if u.Bypass? then 0 else u.bytes
    case ErrorCount => if u.Failing? then u.error else 0
    case BypassCount => if u.Bypass? then u.bypass else 0
  }

  /** The increments an update performs, in order. */
  function Script(u: Update): seq<Inc> {
    match u
    case Plain(p, op, bytes) => [Inc(p, OpCount, op), Inc(p, ByteCount, bytes)]
    case Failing(p, op, bytes, error) =>
      [Inc(p, OpCount, op), Inc(p, ByteCount, bytes), Inc(p, ErrorCount, error)]
    case Bypass(p, bypass) => [Inc(p, BypassCount, bypass)]
  }

  function Perform(sheet: Sheet, inc: Inc): Sheet {
    if inc.pos < |sheet| then sheet[inc.pos := Bump(sheet[inc.pos], inc.counter, inc.amount)] else sheet
  }

  function Charged(c: Counters, u: Update): Counters {
    Counters(Wrap(c.op + Amount(u, OpCount)), Wrap(c.bytes + Amount(u, ByteCount)),
             Wrap(c.error + Amount(u, ErrorCount)), Wrap(c.bypass + Amount(u, BypassCount)))
  }

  /** The effect of a whole update on a sheet nobody else touches meanwhile. */
  function Apply(sheet: Sheet, u: Update): Sheet
    requires u.pos < |sheet|
  {
    sheet[u.pos := Charged(sheet[u.pos], u)]
  }

  function PerformAll(sheet: Sheet, incs: seq<Inc>): Sheet
    decreases |incs|
  {
    if incs == [] then sheet else PerformAll(Perform(sheet, incs[0]), incs[1..])
  }

  lemma PerformAllStep(sheet: Sheet, inc: Inc, rest: seq<Inc>)
    ensures PerformAll(sheet, [inc] + rest) == PerformAll(Perform(sheet, inc), rest)
  {
    assert ([inc] + rest)[1..] == rest;
  }

  lemma PerformAllAppend(sheet: Sheet, incs: seq<Inc>, inc: Inc)
    ensures PerformAll(sheet, incs + [inc]) == Perform(PerformAll(sheet, incs), inc)
    decreases |incs|
  {
    if incs == [] {
      PerformAllStep(sheet, inc, []);
    } else {
      assert incs + [inc] == [incs[0]] + (incs[1..] + [inc]);
      PerformAllStep(sheet, incs[0], incs[1..] + [inc]);
      PerformAllAppend(Perform(sheet, incs[0]), incs[1..], inc);
    }
  }

  /** Running the increments of an update one after the other is the update. */
  lemma {:induction false} ScriptIsApply(sheet: Sheet, u: Update)
    requires u.pos < |sheet|
    ensures PerformAll(sheet, Script(u)) == Apply(sheet, u)
  {
    hide Wrap;
    var p := u.pos;
    match u {
      case Bypass(_, bypass) =>
        PerformAllAppend(sheet, [], Inc(p, BypassCount, bypass));
        ChargedBypass(sheet[p], p, bypass);
      case Plain(_, op, bytes) =>
        PerformPlain(sheet, p, op, bytes);
      case Failing(_, op, bytes, error) =>
        PerformPlain(sheet, p, op, bytes);
        PerformFailing(sheet, p, op, bytes, error);
    }
  }

  lemma {:induction false} PerformFailing(sheet: Sheet, p: nat, op: u64, bytes: u64, error: u64)
    requires p < |sheet|
    requires PerformAll(sheet, Script(Plain(p, op, bytes))) == Apply(sheet, Plain(p, op, bytes))
    ensures PerformAll(sheet, Script(Failing(p, op, bytes, error))) == Apply(sheet, Failing(p, op, bytes, error))
  {
    var inc := Inc(p, ErrorCount, error);
    assert Script(Failing(p, op, bytes, error)) == Script(Plain(p, op, bytes)) + [inc];
    PerformAllAppend(sheet, Script(Plain(p, op, bytes)), inc);
    assert Bump(Charged(sheet[p], Plain(p, op, bytes)), ErrorCount, error)
        == Charged(sheet[p], Failing(p, op, bytes, error));
  }

  lemma ChargedPlain(c: Counters, p: nat, op: u64, bytes: u64)
    ensures Bump(Bump(c, OpCount, op), ByteCount, bytes) == Charged(c, Plain(p, op, bytes))
  {
  }

  lemma ChargedBypass(c: Counters, p: nat, bypass: u64)
    ensures Bump(c, BypassCount, bypass) == Charged(c, Bypass(p, bypass))
  {
  }

  lemma ChargedFailing(c: Counters, p: nat, op: u64, bytes: u64, error: u64)
    ensures Bump(Bump(Bump(c, OpCount, op), ByteCount, bytes), ErrorCount, error)
         == Charged(c, Failing(p, op, bytes, error))
  {
    ChargedPlain(c, p, op, bytes);
  }

  lemma {:induction false} PerformPlain(sheet: Sheet, p: nat, op: u64, bytes: u64)
    requires p < |sheet|
    ensures PerformAll(sheet, Script(Plain(p, op, bytes))) == Apply(sheet, Plain(p, op, bytes))
  {
    var first, second := Inc(p, OpCount, op), Inc(p, ByteCount, bytes);
    assert [first, second] == [first] + [second] && [first] == [] + [first];
    PerformAllAppend(sheet, [first], second);
    PerformAllAppend(sheet, [], first);
  }

  lemma FieldAfterCharge(c: Counters, u: Update, k: Counter)
    ensures Field(Charged(c, u), k) == Wrap(Field(c, k) + Amount(u, k))
  {
  }

  /** What a history of updates adds to one counter of one entry, before any wrapping. */
  function Total(us: seq<Update>, p: nat, k: Counter): nat {
    if us == [] then 0
    else
      var last := us[|us| - 1];
      Total(us[..|us| - 1], p, k) + if last.pos == p then Amount(last, k) else 0
  }

  ghost predicate Within(us: seq<Update>, size: nat) {
    forall i | 0 <= i < |us| :: us[i].pos < size
  }

  function ApplyAll(sheet: Sheet, us: seq<Update>): (r: Sheet)
    requires forall i | 0 <= i < |us| :: us[i].pos < |sheet|
    ensures |r| == |sheet|
  {
    if us == [] then sheet else Apply(ApplyAll(sheet, us[..|us| - 1]), us[|us| - 1])
  }

  /** Every counter is the sum, modulo 2^64, of exactly the updates of its own operation. */
  lemma {:induction false} ExactAccounting(sheet: Sheet, us: seq<Update>, p: nat, k: Counter)
    requires Within(us, |sheet|) && p < |sheet|
    ensures Field(ApplyAll(sheet, us)[p], k) == Wrap(Field(sheet[p], k) + Total(us, p, k))
  {
    if us != [] {
      var front, last := us[..|us| - 1], us[|us| - 1];
      ExactAccounting(sheet, front, p, k);
      if last.pos == p {
        WrapAdd(Field(sheet[p], k) + Total(front, p, k), Amount(last, k));
      }
    }
  }

  /** The sum of one counter over all entries. */
  function SheetSum(sheet: Sheet, k: Counter): nat {
    if sheet == [] then 0
    else SheetSum(sheet[..|sheet| - 1], k) + Field(sheet[|sheet| - 1], k)
  }

  lemma {:induction false} SheetSumUpdate(sheet: Sheet, p: nat, c: Counters, k: Counter)
    requires p < |sheet|
    ensures SheetSum(sheet[p := c], k) == SheetSum(sheet, k) - Field(sheet[p], k) + Field(c, k)
  {
    var n := |sheet| - 1;
    if p == n {
      assert sheet[p := c][..n] == sheet[..n];
    } else {
      assert sheet[p := c][..n] == sheet[..n][p := c];
      SheetSumUpdate(sheet[..n], p, c, k);
    }
  }

  lemma {:induction false} SheetSumAppend(a: Sheet, b: Sheet, k: Counter)
    ensures SheetSum(a + b, k) == SheetSum(a, k) + SheetSum(b, k)
  {
    if b == [] {
      assert a + b == a;
    } else {
      var n := |b| - 1;
      assert (a + b)[..|a + b| - 1] == a + b[..n];
      SheetSumAppend(a, b[..n], k);
    }
  }

  function Zeros(n: nat): (s: Sheet)
    ensures |s| == n && forall i | 0 <= i < n :: s[i] == ZERO
  {
    seq(n, i => ZERO)
  }

  lemma {:induction false} SheetSumZeros(n: nat, k: Counter)
    ensures SheetSum(Zeros(n), k) == 0
  {
    if n > 0 {
      SheetSumZeros(n - 1, k);
      assert Zeros(n)[..n - 1] == Zeros(n - 1);
    }
  }

  /** What a history of updates adds to a counter over all entries. */
  function GrandTotal(us: seq<Update>, k: Counter): nat {
    if us == [] then 0 else GrandTotal(us[..|us| - 1], k) + Amount(us[|us| - 1], k)
  }

  lemma {:induction false} TotalBelowGrandTotal(us: seq<Update>, p: nat, k: Counter)
    ensures Total(us, p, k) <= GrandTotal(us, k)
  {
    if us != [] {
      TotalBelowGrandTotal(us[..|us| - 1], p, k);
    }
  }

  /** As long as the run total stays below 2^64 every counter of a fresh sheet is its exact total ... */
  lemma CountersAreTotals(size: nat, us: seq<Update>, p: nat, k: Counter)
    requires Within(us, size) && p < size && GrandTotal(us, k) < TWO_64
    ensures Field(ApplyAll(Zeros(size), us)[p], k) == Total(us, p, k)
  {
    hide Wrap, Total, GrandTotal, ApplyAll;
    TotalBelowGrandTotal(us, p, k);
    ExactAccounting(Zeros(size), us, p, k);
    WrapSmall(Total(us, p, k));
  }

  /** Modulo 2^64, and whatever the totals, the entries add up to the run total. */
  lemma {:induction false} EntriesAddUp(size: nat, us: seq<Update>, k: Counter)
    requires Within(us, size)
    ensures Wrap(SheetSum(ApplyAll(Zeros(size), us), k)) == Wrap(GrandTotal(us, k))
  {
    hide Wrap, SheetSum, Amount;
    if us == [] {
      SheetSumZeros(size, k);
    } else {
      var front, last := us[..|us| - 1], us[|us| - 1];
      EntriesAddUp(size, front, k);
      ChargedSum(ApplyAll(Zeros(size), front), last, k);
      WrapAdd(SheetSum(ApplyAll(Zeros(size), front), k), Amount(last, k));
      WrapAdd(GrandTotal(front, k), Amount(last, k));
    }
  }

  lemma ChargedSum(sheet: Sheet, u: Update, k: Counter)
    requires u.pos < |sheet|
    ensures Wrap(SheetSum(Apply(sheet, u), k)) == Wrap(SheetSum(sheet, k) + Amount(u, k))
  {
    hide Wrap, SheetSum;
    var c := sheet[u.pos];
    SheetSumUpdate(sheet, u.pos, Charged(c, u), k);
    FieldAfterCharge(c, u, k);
    WrapAdd(Field(c, k) + Amount(u, k), SheetSum(sheet, k) - Field(c, k));
  }

  /** What aggregate_counters accumulates in a `long` is the run total exactly when that total is
      below 2^63. */
  lemma AggregateIsRunTotal(size: nat, us: seq<Update>, k: Counter)
    requires Within(us, size)
    ensures ToLong(Wrap(SheetSum(ApplyAll(Zeros(size), us), k))) == GrandTotal(us, k) <==> GrandTotal(us, k) < TWO_63
  {
    EntriesAddUp(size, us, k);
  }
}
