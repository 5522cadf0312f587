/** The submission log of a run, entry by entry: which libc call each request precedes, what it costs
    and which workflow it is given. */
module Submissions {
  import opened Words
  import opened Operations
  import opened MountPoints
  import opened Engine
  import opened Runs
  import opened Conservation
  import opened Streams

  /** The request is the one of a libc call. */
  ghost predicate RequestOf(s: Submission, call: Call) {
    var op := Variant(call);
    && s.class_ == ClassOf(op) && s.cost == CostOf(op, call)
    && s.context == if MovesBytes(op) || op == Mmap || op == Munmap then DataContext
                    else if op == Rmdir then DirContext else MetaContext
  }

  /** Every request was submitted just before the libc call it is for, and no call has two. */
  ghost predicate Ordered(log: seq<Submission>, trace: seq<Event>) {
    && (forall k | 0 <= k < |log| :: log[k].calls < |trace| && RequestOf(log[k], trace[log[k].calls].call))
    && (forall j, k | 0 <= j < k < |log| :: log[j].calls < log[k].calls)
  }

  lemma ForwardedRequest(s: Submission, call: Call)
    requires s.class_ == ClassOf(Variant(call)) && s.context == ContextOf(Variant(call))
    requires s.cost == CostOf(Variant(call), call)
    ensures RequestOf(s, Forwarded(Variant(call), call))
  {
    hide ClassOf, ContextOf, MovesBytes, TokenCost;
    ForwardedVariant(call);
    ContextByOperation(Variant(call));
  }

  lemma ForwardedVariant(call: Call)
    ensures Variant(Forwarded(Variant(call), call)) == Variant(call)
    ensures Forwarded(Variant(call), call).size == call.size
  {
  }

  lemma OrderedGrows(log: seq<Submission>, trace: seq<Event>, s: Submission, e: Event)
    requires Ordered(log, trace) && s.calls == |trace| && RequestOf(s, e.call)
    ensures Ordered(log + [s], trace + [e])
  {
    hide RequestOf;
  }

  lemma OrderedLonger(log: seq<Submission>, trace: seq<Event>, e: Event)
    requires Ordered(log, trace)
    ensures Ordered(log, trace + [e])
  {
    hide RequestOf;
  }

  /** In every run the requests come in the order of the libc calls, each before the call it is for and
      with the tags and the cost of that call. */
  lemma {:induction false} EnforcedBeforeCalled(cfg: Config, env: Env, inputs: seq<Input>)
    ensures Ordered(Run(cfg, env, inputs).ld.log, Run(cfg, env, inputs).trace)
  {
    hide Dispatched, Submitting, RequestOf, Ordered, Variant, Forwarded, Answer, ClassOf, ContextOf, CostOf, Workflows;
    if inputs == [] {
      assert Ordered([], []) by { NothingOrdered(); }
    } else {
      var front, last := inputs[..|inputs| - 1], inputs[|inputs| - 1];
      RunGrows(cfg, env, inputs);
      EnforcedBeforeCalled(cfg, env, front);
      if last.Request? {
        var w, w', call := Run(cfg, env, front), Run(cfg, env, inputs), last.call;
        var e := Event(Forwarded(Variant(call), call), Answer(env, w, call));
        NextTrace(cfg, env, w, call);
        NextLog(cfg, env, front, call);
        if Submitting(cfg, w, call) {
          var s := w'.ld.log[|w.ld.log|];
          assert w'.ld.log == w.ld.log + [s];
          ForwardedRequest(s, call);
          OrderedGrows(w.ld.log, w.trace, s, e);
        } else {
          OrderedLonger(w.ld.log, w.trace, e);
        }
      }
    }
  }

  lemma NothingOrdered()
    ensures Ordered([], [])
  {
  }

  /** In every run there is one generator output for every request, and the k-th output selects the
      workflow of the k-th request by its remainder. */
  lemma {:induction false} WorkflowsInOrder(cfg: Config, env: Env, inputs: seq<Input>)
    ensures var ld, ids := Run(cfg, env, inputs).ld, Workflows(cfg);
            && ld.drawn == |ld.log|
            && forall k | 0 <= k < |ld.log| :: ld.log[k].workflow == ids[env.outputs(k) % |ids|]
  {
    hide Dispatched, Submitting, Variant, ClassOf, ContextOf, CostOf, Workflows;
    if inputs != [] {
      var front, last := inputs[..|inputs| - 1], inputs[|inputs| - 1];
      RunGrows(cfg, env, inputs);
      WorkflowsInOrder(cfg, env, front);
      if last.Request? {
        NextLog(cfg, env, front, last.call);
        var log, log' := Run(cfg, env, front).ld.log, Run(cfg, env, inputs).ld.log;
        assert forall k | 0 <= k < |log| :: log'[k] == log'[..|log|][k];
      }
    }
  }

  /** In every run each request names a registered workflow, has the context of the calls of its class
      and, unless it is a read or a write, the cost one. */
  lemma LogIsWellFormed(cfg: Config, env: Env, inputs: seq<Input>)
    ensures forall s | s in Run(cfg, env, inputs).ld.log ::
              && s.workflow in Workflows(cfg)
              && s.context == (if MovesBytes(s.class_) || s.class_ == Mmap || s.class_ == Munmap then DataContext
                               else if s.class_ == Rmdir then DirContext else MetaContext)
              && (!MovesBytes(s.class_) ==> s.cost == 1)
  {
    hide Run, ClassOf, ContextOf, MovesBytes, Workflows, Variant, TokenCost;
    WorkflowsInOrder(cfg, env, inputs);
    EnforcedBeforeCalled(cfg, env, inputs);
    var log, trace := Run(cfg, env, inputs).ld.log, Run(cfg, env, inputs).trace;
    forall s | s in log
      ensures s.context == (if MovesBytes(s.class_) || s.class_ == Mmap || s.class_ == Munmap then DataContext
                            else if s.class_ == Rmdir then DirContext else MetaContext)
      ensures !MovesBytes(s.class_) ==> s.cost == 1
    {
      var k :| 0 <= k < |log| && log[k] == s;
      var op := Variant(trace[s.calls].call);
      ContextByOperation(op);
      ContextByOperation(s.class_);
      ClassKeeps(op);
    }
  }

  /** Every request of a run names a registered workflow, and those of the remote mount point are
      multiples of 1000 up to that of the last workflow. */
  lemma WorkflowsAreRegistered(cfg: Config, env: Env, inputs: seq<Input>)
    ensures forall k | 0 <= k < |Run(cfg, env, inputs).ld.log| ::
              var id := Run(cfg, env, inputs).ld.log[k].workflow;
              id in Workflows(cfg) && id != NO_WORKFLOW && id % 1000 == 0
              && 1000 <= id <= if cfg.differentiate then 1000 * cfg.workflows else 6000
  {
    hide Run;
    WorkflowsInOrder(cfg, env, inputs);
    WorkflowIds(cfg);
    WorkflowsAreSound(cfg);
  }

  /** The cost of the request for a read or write of any size: the low 32 bits of the size, and ones
      or zeros above them by its bit 31. */
  lemma TransferCost(cfg: Config, env: Env, inputs: seq<Input>, k: nat)
    requires k < |Run(cfg, env, inputs).ld.log| && MovesBytes(Run(cfg, env, inputs).ld.log[k].class_)
    ensures var w := Run(cfg, env, inputs);
            var s := w.ld.log[k];
            && s.calls < |w.trace|
            && var size := w.trace[s.calls].call.size;
               s.cost % TWO_32 == size % TWO_32
               && s.cost / TWO_32 == if (size / TWO_31) % 2 == 0 then 0 else TWO_32 - 1
  {
    hide Run, ClassOf, MovesBytes, TokenCost, Variant;
    EnforcedBeforeCalled(cfg, env, inputs);
    var w := Run(cfg, env, inputs);
    var call := w.trace[w.ld.log[k].calls].call;
    ClassKeeps(Variant(call));
    TokenCostIsSignExtension(call.size);
  }
}
