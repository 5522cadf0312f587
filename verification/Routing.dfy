/** Which back end a call reaches, told from the intercept flags and the moment of loading. */
module Routing {
  import opened Operations
  import opened MountPoints
  import opened Engine
  import opened Runs
  import opened Conservation

  /** The flags O_CREAT selects the form with a mode of the three functions that have one. */
  lemma VariantExactly(call: Call)
    ensures Variant(call) == OpenVariadic <==> call.fn == Open && call.creates
    ensures Variant(call) == Open64Variadic <==> call.fn == Open64 && call.creates
    ensures Variant(call) == OpenatVariadic <==> call.fn == Openat && call.creates
    ensures !call.creates || call.fn !in {Open, Open64, Openat} ==> Variant(call) == call.fn
  {
  }

  /** A fcntl, and an intercepted call while LdPreloaded is loaded, leaves the passthrough as it is; any
      other call leaves LdPreloaded as it is, its indexes, its log, its counters and its generator. */
  lemma RoutedByFlag(cfg: Config, env: Env, w: World, call: Call)
    ensures var op, w' := Variant(call), Dispatched(cfg, env, w, call).0;
            if op == Fcntl || (op in cfg.intercept && w.loaded) then w'.passthrough == w.passthrough
            else w'.ld == w.ld
  {
    hide Variant, LdServed, WrapperOf, PtPosted, PtWrapperOf, Forwarded;
  }

  /** No fcntl, and no intercepted call once LdPreloaded is loaded. */
  ghost predicate NeverIntercepted(cfg: Config, inputs: seq<Input>) {
    forall i | 0 <= i < |inputs| && inputs[i].Request? ::
      Variant(inputs[i].call) != Fcntl && (Variant(inputs[i].call) !in cfg.intercept || Loaded !in inputs[..i])
  }

  ghost predicate AlwaysIntercepted(cfg: Config, inputs: seq<Input>) {
    forall i | 0 <= i < |inputs| && inputs[i].Request? ::
      Variant(inputs[i].call) == Fcntl || (Variant(inputs[i].call) in cfg.intercept && Loaded in inputs[..i])
  }

  lemma Prefixes(cfg: Config, inputs: seq<Input>)
    requires inputs != []
    ensures NeverIntercepted(cfg, inputs) ==> NeverIntercepted(cfg, inputs[..|inputs| - 1])
    ensures AlwaysIntercepted(cfg, inputs) ==> AlwaysIntercepted(cfg, inputs[..|inputs| - 1])
  {
    hide Variant;
    var front := inputs[..|inputs| - 1];
    assert forall i | 0 <= i < |front| :: front[i] == inputs[i] && front[..i] == inputs[..i];
  }

  /** A run without intercepted calls leaves LdPreloaded as it began: nothing is submitted, registered
      or counted there ... */
  lemma {:induction false} LdPreloadedUntouched(cfg: Config, env: Env, inputs: seq<Input>)
    requires NeverIntercepted(cfg, inputs)
    ensures Run(cfg, env, inputs).ld == NEW_LD
  {
    hide Dispatched, Variant;
    if inputs != [] {
      var front, last := inputs[..|inputs| - 1], inputs[|inputs| - 1];
      RunGrows(cfg, env, inputs);
      Prefixes(cfg, inputs);
      LdPreloadedUntouched(cfg, env, front);
      LoadedOnceLoaded(cfg, env, front);
      if last.Request? {
        RoutedByFlag(cfg, env, Run(cfg, env, front), last.call);
      }
    }
  }

  /** ... and a run of intercepted calls leaves the passthrough as it began. */
  lemma {:induction false} PassthroughUntouched(cfg: Config, env: Env, inputs: seq<Input>)
    requires AlwaysIntercepted(cfg, inputs)
    ensures Run(cfg, env, inputs).passthrough == NEW_BOOKS
  {
    hide Dispatched, Variant;
    if inputs != [] {
      var front, last := inputs[..|inputs| - 1], inputs[|inputs| - 1];
      RunGrows(cfg, env, inputs);
      Prefixes(cfg, inputs);
      PassthroughUntouched(cfg, env, front);
      LoadedOnceLoaded(cfg, env, front);
      if last.Request? {
        RoutedByFlag(cfg, env, Run(cfg, env, front), last.call);
      }
    }
  }
}
