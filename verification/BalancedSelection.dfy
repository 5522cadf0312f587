/** How evenly `prng % n` spreads requests over n workflows, and how many workflows have ids. */
module BalancedSelection {
  import opened Words
  import opened MountPoints
  import opened MountPointTable

  /** The generator outputs below `range` that select item `w` of `n`. */
  ghost function Choosing(range: nat, n: nat, w: nat): set<int>
    requires w < n
  {
    set r | 0 <= r < range && r % n == w
  }

  /** How many there are. */
  function Share(range: nat, n: nat, w: nat): nat
    requires w < n
  {
    range / n + if w < range % n then 1 else 0
  }

  lemma ShareStep(range: nat, n: nat, w: nat)
    requires w < n
    ensures Share(range + 1, n, w) == Share(range, n, w) + if range % n == w then 1 else 0
  {
    var q, r := range / n, range % n;
    assert range == n * q + r;
    if r + 1 < n {
      DivMod(range + 1, n, q, r + 1);
    } else {
      assert range + 1 == n * (q + 1);
      DivMod(range + 1, n, q + 1, 0);
    }
  }

  lemma DivMod(x: int, n: int, q: int, r: int)
    requires 0 <= r < n && x == n * q + r
    ensures x / n == q && x % n == r
  {
    var d := x / n - q;
    assert x == n * (x / n) + x % n;
    assert n * d == r - x % n;
    assert d >= 1 ==> n * d >= n;
    assert d <= -1 ==> n * d <= -n;
  }

  /** Each of n items is chosen by range / n or range / n + 1 of the outputs. */
  lemma {:induction false} ChoosingIsShare(range: nat, n: nat, w: nat)
    requires w < n
    ensures |Choosing(range, n, w)| == Share(range, n, w)
  {
    if range == 0 {
      assert Choosing(0, n, w) == {};
      DivMod(0, n, 0, 0);
    } else {
      var last := range - 1;
      ChoosingIsShare(last, n, w);
      ShareStep(last, n, w);
      if last % n == w {
        assert Choosing(range, n, w) == Choosing(last, n, w) + {last};
      } else {
        assert Choosing(range, n, w) == Choosing(last, n, w);
      }
    }
  }

  /** The outputs that make the table select a workflow of the home mount point. */
  ghost function Selecting(cfg: Config, id: u32): set<int> {
    set r | 0 <= r < TWO_32 && Selection(cfg, HomeMount(cfg), r).0 == id
  }

  /** Every registered workflow is selected by 2^32 / n or 2^32 / n + 1 of the 2^32 outputs. */
  lemma WorkflowsAreBalanced(cfg: Config, w: nat)
    requires w < |Workflows(cfg)|
    ensures var n := |Workflows(cfg)|; TWO_32 / n <= |Selecting(cfg, Workflows(cfg)[w])| <= TWO_32 / n + 1
    ensures |Selecting(cfg, Workflows(cfg)[w])| == Share(TWO_32, |Workflows(cfg)|, w)
  {
    hide Workflows;
    var ids := Workflows(cfg);
    WorkflowsAreSound(cfg);
    forall r: int | 0 <= r < TWO_32
      ensures Selection(cfg, HomeMount(cfg), r).0 == ids[w] <==> r % |ids| == w
    {
      assert ids[r % |ids|] == ids[w] <==> r % |ids| == w;
    }
    assert Selecting(cfg, ids[w]) == Choosing(TWO_32, |ids|, w);
    ChoosingIsShare(TWO_32, |ids|, w);
  }

  function SumOfShares(range: nat, n: nat, upTo: nat): nat
    requires upTo <= n
  {
    if upTo == 0 then 0 else SumOfShares(range, n, upTo - 1) + Share(range, n, upTo - 1)
  }

  lemma {:induction false} SharesUpTo(range: nat, n: nat, upTo: nat)
    requires upTo <= n && 0 < n
    ensures SumOfShares(range, n, upTo) == upTo * (range / n) + if upTo < range % n then upTo else range % n
  {
    if upTo > 0 {
      SharesUpTo(range, n, upTo - 1);
      assert upTo * (range / n) == (upTo - 1) * (range / n) + range / n;
    }
  }

  /** The shares add up: no output is lost and none selects two workflows. */
  lemma SharesAddUp(range: nat, n: nat)
    requires 0 < n
    ensures SumOfShares(range, n, n) == range
  {
    SharesUpTo(range, n, n);
    assert range == n * (range / n) + range % n;
  }

  /** The bound on the number of workflows is exact: it is where the ids i * 1000 of the
      constructor loop stop fitting an `int`. */
  lemma MaximumIsExact(n: nat)
    ensures n <= MAX_WORKFLOWS <==> forall i {:trigger i * 1000} | 1 <= i <= n :: i * 1000 < TWO_31
  {
    if n > MAX_WORKFLOWS {
      assert n * 1000 >= TWO_31;
    }
  }
}
