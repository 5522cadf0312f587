/** Running over PADLL against running directly over libc, for whole adaptive programs. */
module Transparency {
  import opened Operations
  import opened MountPoints
  import opened Engine

  /** A program: its next call, if any, may depend on all its calls and their results so far. */
  type Program = seq<Event> -> Option<Call>

  /** The history of the first n steps of a program running directly over libc. */
  function Direct(env: Env, program: Program, n: nat): seq<Event> {
    if n == 0 then []
    else
      var h := Direct(env, program, n - 1);
      match program(h)
      case None => h
      case Some(call) => h + [Event(call, env.answer(h, call))]
  }

  /** A program over PADLL: the engine with the libc calls it has made, and what the program saw. */
  datatype Session = Session(world: World, view: seq<Event>)

  /** The first n steps of a program over PADLL. `loaded` says, step by step, whether the LdPreloaded
      back end is ready. */
  function OverPadll(cfg: Config, env: Env, program: Program, loaded: nat -> bool, n: nat): Session
    decreases n, 0
  {
    if n == 0 then Session(NEW_WORLD, []) else Continued(cfg, env, program, loaded, n - 1)
  }

  /** ... and the step after them. */
  function Continued(cfg: Config, env: Env, program: Program, loaded: nat -> bool, n: nat): Session
    decreases n, 2
  {
    var s := OverPadll(cfg, env, program, loaded, n);
    match program(s.view)
    case None => s
    case Some(call) => Answered(cfg, env, program, loaded, n, call)
  }

  function Answered(
    cfg: Config, env: Env, program: Program, loaded: nat -> bool, n: nat, call: Call): Session
    decreases n, 1
  {
    var s := OverPadll(cfg, env, program, loaded, n);
    var (w, ret) := Dispatched(cfg, env, s.world.(loaded := loaded(n)), call);
    Session(w, s.view + [Event(call, ret)])
  }

  lemma NextStep(cfg: Config, env: Env, program: Program, loaded: nat -> bool, n: nat)
    ensures var s := OverPadll(cfg, env, program, loaded, n);
            OverPadll(cfg, env, program, loaded, n + 1)
            == match program(s.view)
               case None => s
               case Some(call) =>
                 var (w, ret) := Dispatched(cfg, env, s.world.(loaded := loaded(n)), call);
                 Session(w, s.view + [Event(call, ret)])
  {
    hide Dispatched;
    var s := OverPadll(cfg, env, program, loaded, n);
    assert OverPadll(cfg, env, program, loaded, n + 1) == Continued(cfg, env, program, loaded, n);
    if program(s.view).Some? {
      var call := program(s.view).value;
      var (w, ret) := Dispatched(cfg, env, s.world.(loaded := loaded(n)), call);
      assert Answered(cfg, env, program, loaded, n, call) == Session(w, s.view + [Event(call, ret)]);
    }
  }

  /** The one argument the dispatcher may lose: a mode given to open, open64 or openat without the
      O_CREAT flag, as O_TMPFILE allows. */
  predicate KeepsMode(call: Call) {
    call.fn in {Open, Open64, Openat} && call.mode.Some? ==> call.creates
  }

  lemma ForwardedExactly(call: Call)
    ensures Forwarded(Variant(call), call) == call <==> KeepsMode(call)
  {
  }

  /** Whichever back end serves the call, one libc call is made, and its result is returned. */
  lemma OneLibcCall(cfg: Config, env: Env, w: World, call: Call)
    ensures var issued := Forwarded(Variant(call), call);
            var (w', ret) := Dispatched(cfg, env, w, call);
            ret == env.answer(w.trace, issued) && w'.trace == w.trace + [Event(issued, ret)]
  {
  }

  /** PADLL has made the libc calls of the direct run, and the program has seen their results. */
  ghost predicate InStep(cfg: Config, env: Env, program: Program, loaded: nat -> bool, n: nat) {
    var s := OverPadll(cfg, env, program, loaded, n);
    s.world.trace == Direct(env, program, n) && s.view == Direct(env, program, n)
  }

  ghost predicate KeepsModeAt(env: Env, program: Program, n: nat) {
    var next := program(Direct(env, program, n));
    next.Some? ==> KeepsMode(next.value)
  }

  /** The libc calls of the two runs agree after every one of the first n steps. */
  ghost predicate SameCalls(cfg: Config, env: Env, program: Program, loaded: nat -> bool, n: nat) {
    forall m | 0 <= m <= n :: OverPadll(cfg, env, program, loaded, m).world.trace == Direct(env, program, m)
  }

  ghost predicate KeepsModes(env: Env, program: Program, n: nat) {
    forall m | 0 <= m < n :: KeepsModeAt(env, program, m)
  }

  /** One more step keeps the runs together exactly when the call loses no mode. */
  lemma NextInStep(cfg: Config, env: Env, program: Program, loaded: nat -> bool, n: nat)
    requires InStep(cfg, env, program, loaded, n)
    ensures KeepsModeAt(env, program, n) ==> InStep(cfg, env, program, loaded, n + 1)
    ensures OverPadll(cfg, env, program, loaded, n + 1).world.trace == Direct(env, program, n + 1)
            ==> KeepsModeAt(env, program, n)
  {
    hide Dispatched, Forwarded, Variant, KeepsMode;
    var s, h := OverPadll(cfg, env, program, loaded, n), Direct(env, program, n);
    NextStep(cfg, env, program, loaded, n);
    if program(h).Some? {
      var call := program(h).value;
      var issued := Forwarded(Variant(call), call);
      OneLibcCall(cfg, env, s.world.(loaded := loaded(n)), call);
      ForwardedExactly(call);
      var event := Event(issued, env.answer(h, issued));
      assert OverPadll(cfg, env, program, loaded, n + 1).world.trace == h + [event];
      assert (h + [event])[|h|] == event;
      assert Direct(env, program, n + 1)[|h|] == Event(call, env.answer(h, call));
    }
  }

  /** The runs stay together as long as no step loses a mode ... */
  lemma {:induction false} StaysInStep(cfg: Config, env: Env, program: Program, loaded: nat -> bool, n: nat)
    requires KeepsModes(env, program, n)
    ensures InStep(cfg, env, program, loaded, n)
  {
    hide Dispatched;
    if n > 0 {
      StaysInStep(cfg, env, program, loaded, n - 1);
      NextInStep(cfg, env, program, loaded, n - 1);
    }
  }

  /** ... and no longer. */
  lemma {:induction false} SameCallsKeepModes(cfg: Config, env: Env, program: Program, loaded: nat -> bool, n: nat)
    requires SameCalls(cfg, env, program, loaded, n)
    ensures InStep(cfg, env, program, loaded, n) && KeepsModes(env, program, n)
  {
    hide Dispatched, OverPadll, Direct;
    if n > 0 {
      SameCallsKeepModes(cfg, env, program, loaded, n - 1);
      assert OverPadll(cfg, env, program, loaded, n).world.trace == Direct(env, program, n);
      NextInStep(cfg, env, program, loaded, n - 1);
    } else {
      Beginning(cfg, env, program, loaded);
    }
  }

  lemma Beginning(cfg: Config, env: Env, program: Program, loaded: nat -> bool)
    ensures InStep(cfg, env, program, loaded, 0)
  {
  }

  /** Transparency: under every configuration and however the back end becomes ready, a program over
      PADLL makes the same libc calls in the same order as directly over libc, for any number of
      steps, if and only if none of its steps gives a mode that is not passed on; and then it sees
      the same results. */
  lemma Transparent(cfg: Config, env: Env, program: Program, loaded: nat -> bool, n: nat)
    ensures SameCalls(cfg, env, program, loaded, n) <==> KeepsModes(env, program, n)
    ensures KeepsModes(env, program, n)
            ==> OverPadll(cfg, env, program, loaded, n).view == Direct(env, program, n)
  {
    hide KeepsModeAt, OverPadll, Direct;
    if KeepsModes(env, program, n) {
      forall m | 0 <= m <= n
        ensures OverPadll(cfg, env, program, loaded, m).world.trace == Direct(env, program, m)
      {
        StaysInStep(cfg, env, program, loaded, m);
      }
      StaysInStep(cfg, env, program, loaded, n);
    }
    if SameCalls(cfg, env, program, loaded, n) {
      SameCallsKeepModes(cfg, env, program, loaded, n);
    }
  }

  /** The condition is needed: a program that opens a temporary file with a mode, as O_TMPFILE
      requires, makes a different call over PADLL. */
  lemma TemporaryFileModeIsLost(cfg: Config, env: Env, loaded: nat -> bool, directory: string, mode: int)
    ensures var open := Call(Open, directory, "", 0, 0, 0, false, Some(mode), 0, []);
            var program: Program := h => if h == [] then Some(open) else None;
            OverPadll(cfg, env, program, loaded, 1).world.trace != Direct(env, program, 1)
  {
    hide Dispatched, Forwarded;
    var open := Call(Open, directory, "", 0, 0, 0, false, Some(mode), 0, []);
    var program: Program := h => if h == [] then Some(open) else None;
    Beginning(cfg, env, program, loaded);
    assert Direct(env, program, 0) == [];
    assert !KeepsModeAt(env, program, 0);
    NextInStep(cfg, env, program, loaded, 0);
  }
}
