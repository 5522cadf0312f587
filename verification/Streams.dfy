/** The stream index over whole runs: its keys are the open streams, and its size can be told from
    the counters. */
module Streams {
  import opened Words
  import opened Operations
  import opened Accounting
  import opened MountPoints
  import opened Engine
  import opened Runs
  import opened Conservation

  /** The streams a libc history has opened and not passed to fclose since. */
  function OpenStreams(trace: seq<Event>): set<int> {
    if trace == [] then {} else StreamsAfter(OpenStreams(trace[..|trace| - 1]), trace[|trace| - 1])
  }

  function StreamsAfter(open: set<int>, e: Event): set<int> {
    if OpensStream(e.call.fn) then (if e.ret != 0 then open + {e.ret} else open)
    else if e.call.fn == Fclose then open - {e.call.stream}
    else open
  }

  lemma OpenStreamsAppend(trace: seq<Event>, e: Event)
    ensures OpenStreams(trace + [e]) == StreamsAfter(OpenStreams(trace), e)
  {
    assert (trace + [e])[..|trace|] == trace;
  }

  lemma ForwardedStream(call: Call)
    ensures OpensStream(Forwarded(Variant(call), call).fn) <==> OpensStream(Variant(call))
    ensures Forwarded(Variant(call), call).fn == Fclose <==> Variant(call) == Fclose
    ensures Forwarded(Variant(call), call).stream == call.stream
    ensures OpensStream(Variant(call)) || Variant(call) == Fclose ==> Variant(call) == call.fn
  {
  }

  lemma NextTrace(cfg: Config, env: Env, w: World, call: Call)
    ensures Dispatched(cfg, env, w, call).0.trace
         == w.trace + [Event(Forwarded(Variant(call), call), Answer(env, w, call))]
  {
  }

  /** How one call changes the streams that are open, those opened after any point of the history
      included. */
  lemma NextOpenStreams(cfg: Config, env: Env, w: World, call: Call, from: nat)
    requires from <= |w.trace|
    ensures var ret, open := Answer(env, w, call), OpenStreams(w.trace[from..]);
            OpenStreams(Dispatched(cfg, env, w, call).0.trace[from..])
            == if OpensStream(Variant(call)) then (if ret != 0 then open + {ret} else open)
               else if Variant(call) == Fclose then open - {call.stream}
               else open
  {
    hide Dispatched, FamilyOf, Variant, Forwarded, OpenStreams;
    NextTrace(cfg, env, w, call);
    ForwardedStream(call);
    var e := Event(Forwarded(Variant(call), call), Answer(env, w, call));
    assert (w.trace + [e])[from..] == w.trace[from..] + [e];
    OpenStreamsAppend(w.trace[from..], e);
  }

  lemma OnlyTheseStreams(op: Op)
    ensures FamilyOf(op) == OpenStream <==> OpensStream(op)
    ensures FamilyOf(op) == CloseStream <==> op == Fclose
    ensures OpensStream(op) ==> op != Fclose
  {
    hide FamilyOf;
    FamilyByOpening(op);
    FamilyOfOne(op);
  }

  /** How one call changes the stream index. */
  lemma NextStreams(cfg: Config, env: Env, w: World, call: Call)
    ensures var op, ret, streams' := Variant(call), Answer(env, w, call), Dispatched(cfg, env, w, call).0.ld.streams;
            if ToLd(cfg, w.loaded, op) && OpensStream(op) && ValidStream(cfg, ret) then
              streams' == w.ld.streams[ret := Entry(call.path, Classify(cfg, call.path), NO_UNIT)]
            else if ToLd(cfg, w.loaded, op) && op == Fclose && ValidStream(cfg, call.stream) then
              streams' == w.ld.streams - {call.stream}
            else
              streams' == w.ld.streams
  {
    hide Dispatched, Variant, Forwarded, Classify, FamilyOf;
    NextIndexes(cfg, env, w, call);
    OnlyTheseStreams(Variant(call));
    assert call.stream !in w.ld.streams ==> w.ld.streams - {call.stream} == w.ld.streams;
  }

  // The keys are the open streams

  ghost predicate InterceptsStreams(cfg: Config) {
    {Fopen, Fopen64, Fclose} <= cfg.intercept
  }

  /** The number of calls made before LdPreloaded became ready. */
  function CallsBeforeReady(inputs: seq<Input>): nat {
    if inputs == [] then 0
    else
      var front, last := inputs[..|inputs| - 1], inputs[|inputs| - 1];
      CallsBeforeReady(front) + if last.Request? && Loaded !in front then 1 else 0
  }

  lemma {:induction false} CallsBeforeReadyBound(cfg: Config, env: Env, inputs: seq<Input>)
    ensures CallsBeforeReady(inputs) <= |Run(cfg, env, inputs).trace|
    ensures Loaded !in inputs ==> CallsBeforeReady(inputs) == |Run(cfg, env, inputs).trace|
  {
    hide Dispatched, Answer, Forwarded;
    if inputs != [] {
      var front, last := inputs[..|inputs| - 1], inputs[|inputs| - 1];
      RunGrows(cfg, env, inputs);
      assert inputs == front + [last];
      CallsBeforeReadyBound(cfg, env, front);
      if last.Request? {
        NextTrace(cfg, env, Run(cfg, env, front), last.call);
      }
    }
  }

  /** The libc calls made since LdPreloaded became ready, and those made before. */
  function SinceReady(cfg: Config, env: Env, inputs: seq<Input>): seq<Event> {
    CallsBeforeReadyBound(cfg, env, inputs);
    Run(cfg, env, inputs).trace[CallsBeforeReady(inputs)..]
  }

  function BeforeReady(cfg: Config, env: Env, inputs: seq<Input>): seq<Event> {
    CallsBeforeReadyBound(cfg, env, inputs);
    Run(cfg, env, inputs).trace[..CallsBeforeReady(inputs)]
  }

  /** How the streams opened since then change with one more call. */
  lemma SinceReadyGrows(cfg: Config, env: Env, inputs: seq<Input>)
    requires inputs != []
    ensures var front, last := inputs[..|inputs| - 1], inputs[|inputs| - 1];
            var open := OpenStreams(SinceReady(cfg, env, front));
            OpenStreams(SinceReady(cfg, env, inputs))
            == if last.Loaded? || Loaded !in front then open
               else
                 if OpensStream(Variant(last.call)) then var ret := Answer(env, Run(cfg, env, front), last.call);
                   if ret != 0 then open + {ret} else open
                 else if Variant(last.call) == Fclose then open - {last.call.stream}
                 else open
  {
    hide Dispatched, Run, OpenStreams, FamilyOf, Variant, Answer, Forwarded;
    var front, last := inputs[..|inputs| - 1], inputs[|inputs| - 1];
    var w := Run(cfg, env, front);
    RunGrows(cfg, env, inputs);
    CallsBeforeReadyBound(cfg, env, front);
    CallsBeforeReadyBound(cfg, env, inputs);
    assert inputs == front + [last];
    if last.Request? {
      if Loaded in front {
        NextOpenStreams(cfg, env, w, last.call, CallsBeforeReady(front));
      } else {
        assert SinceReady(cfg, env, front) == [] && SinceReady(cfg, env, inputs) == [];
      }
    }
  }

  lemma {:induction false} NoNullStream(trace: seq<Event>)
    ensures 0 !in OpenStreams(trace)
  {
    if trace != [] {
      NoNullStream(trace[..|trace| - 1]);
    }
  }

  lemma NextKeys(cfg: Config, env: Env, w: World, call: Call, open: set<int>, open': set<int>)
    requires InterceptsStreams(cfg) && w.loaded && w.ld.streams.Keys == open - cfg.standardStreams && 0 !in open
    requires var ret := Answer(env, w, call);
             open' == if OpensStream(Variant(call)) then (if ret != 0 then open + {ret} else open)
                      else if Variant(call) == Fclose then open - {call.stream}
                      else open
    ensures Dispatched(cfg, env, w, call).0.ld.streams.Keys == open' - cfg.standardStreams
  {
    hide Dispatched, Answer, Classify, FamilyOf, Variant;
    NextStreams(cfg, env, w, call);
    OnlyTheseStreams(Variant(call));
  }

  /** In every run with fopen, fopen64 and fclose intercepted the keys of the stream index are exactly
      the non-standard streams opened since LdPreloaded became ready and not passed to fclose after,
      whether or not that fclose succeeded. */
  lemma {:induction false} StreamTableIsOpenStreams(cfg: Config, env: Env, inputs: seq<Input>)
    requires InterceptsStreams(cfg)
    ensures Run(cfg, env, inputs).ld.streams.Keys
         == OpenStreams(SinceReady(cfg, env, inputs)) - cfg.standardStreams
  {
    hide Dispatched, Variant, FamilyOf, Answer, OpenStreams, SinceReady;
    if inputs == [] {
      assert OpenStreams(SinceReady(cfg, env, [])) == {} by { NothingYet(cfg, env); }
    } else {
      var front, last := inputs[..|inputs| - 1], inputs[|inputs| - 1];
      RunGrows(cfg, env, inputs);
      StreamTableIsOpenStreams(cfg, env, front);
      SinceReadyGrows(cfg, env, inputs);
      LoadedOnceLoaded(cfg, env, front);
      if last.Request? {
        if Loaded in front {
          NoNullStream(SinceReady(cfg, env, front));
          NextKeys(cfg, env, Run(cfg, env, front), last.call, OpenStreams(SinceReady(cfg, env, front)),
                   OpenStreams(SinceReady(cfg, env, inputs)));
        } else {
          StreamsStay(cfg, env, Run(cfg, env, front), last.call);
        }
      }
    }
  }

  lemma NothingYet(cfg: Config, env: Env)
    ensures OpenStreams(SinceReady(cfg, env, [])) == {}
  {
  }

  lemma StreamsStay(cfg: Config, env: Env, w: World, call: Call)
    requires !w.loaded
    ensures Dispatched(cfg, env, w, call).0.ld.streams == w.ld.streams
  {
    hide Dispatched, Variant, FamilyOf, Answer;
    NextStreams(cfg, env, w, call);
    OnlyTheseStreams(Variant(call));
  }

  /** The entry a stream should have after a run: the path of the last fopen that returned it, unless
      it was passed to fclose since. */
  ghost function LastOpener(cfg: Config, env: Env, inputs: seq<Input>, stream: int): Option<Entry> {
    if inputs == [] then None
    else
      var front, last := inputs[..|inputs| - 1], inputs[|inputs| - 1];
      var before := LastOpener(cfg, env, front, stream);
      if last.Loaded? || !ToLd(cfg, Loaded in front, Variant(last.call)) then before
      else if OpensStream(Variant(last.call)) then
        if Answer(env, Run(cfg, env, front), last.call) == stream && ValidStream(cfg, stream)
        then Some(Entry(last.call.path, Classify(cfg, last.call.path), NO_UNIT)) else before
      else if Variant(last.call) == Fclose && last.call.stream == stream then None
      else before
  }

  /** After any run the stream index is the last-opener map of its history. */
  lemma {:induction false} StreamTableIsHistory(cfg: Config, env: Env, inputs: seq<Input>, stream: int)
    ensures Lookup(Run(cfg, env, inputs).ld.streams, stream) == LastOpener(cfg, env, inputs, stream)
  {
    hide Dispatched, Answer, Classify, Variant, ToLd, OpensStream;
    if inputs != [] {
      var front, last := inputs[..|inputs| - 1], inputs[|inputs| - 1];
      RunGrows(cfg, env, inputs);
      StreamTableIsHistory(cfg, env, front, stream);
      LoadedOnceLoaded(cfg, env, front);
      if last.Request? {
        IndexesAgree(cfg, env, front);
        NextStreams(cfg, env, Run(cfg, env, front), last.call);
        OnlyTheseStreams(Variant(last.call));
      }
    }
  }

  // When the keys are all the open streams

  /** The event opens the stream or passes it to fclose. */
  predicate Touches(e: Event, stream: int) {
    if OpensStream(e.call.fn) then e.ret != 0 && e.ret == stream
    else if e.call.fn == Fclose then e.call.stream == stream
    else false
  }

  ghost predicate Touched(trace: seq<Event>, stream: int) {
    exists i | 0 <= i < |trace| :: Touches(trace[i], stream)
  }

  /** A stream is open after two histories as the second leaves it, or, if the second does not touch
      it, as the first does. */
  lemma {:induction false} OpenAfterBoth(first: seq<Event>, second: seq<Event>, stream: int)
    ensures stream in OpenStreams(first + second)
       <==> if Touched(second, stream) then stream in OpenStreams(second) else stream in OpenStreams(first)
    ensures !Touched(second, stream) ==> stream !in OpenStreams(second)
  {
    hide FamilyOf;
    if second == [] {
      assert first + second == first;
    } else {
      var n := |second| - 1;
      var rest, last := second[..n], second[n];
      assert first + second == (first + rest) + [last] && second == rest + [last];
      OpenAfterBoth(first, rest, stream);
      OpenStreamsAppend(first + rest, last);
      OpenStreamsAppend(rest, last);
      assert Touched(second, stream) <==> Touched(rest, stream) || Touches(last, stream);
    }
  }

  /** The keys are all the non-standard streams that are open if and only if every one that was open
      when LdPreloaded became ready has since been opened again or passed to fclose. */
  lemma StreamTableIsAllOpenStreams(cfg: Config, env: Env, inputs: seq<Input>)
    requires InterceptsStreams(cfg)
    ensures Run(cfg, env, inputs).ld.streams.Keys == OpenStreams(Run(cfg, env, inputs).trace) - cfg.standardStreams
       <==> forall s | s in OpenStreams(BeforeReady(cfg, env, inputs)) - cfg.standardStreams ::
              Touched(SinceReady(cfg, env, inputs), s)
  {
    hide OpenStreams, Touched, Run;
    var before, since := BeforeReady(cfg, env, inputs), SinceReady(cfg, env, inputs);
    var trace, keys := Run(cfg, env, inputs).trace, Run(cfg, env, inputs).ld.streams.Keys;
    CallsBeforeReadyBound(cfg, env, inputs);
    assert trace == before + since;
    StreamTableIsOpenStreams(cfg, env, inputs);
    if forall s | s in OpenStreams(before) - cfg.standardStreams :: Touched(since, s) {
      forall s: int
        ensures s in keys <==> s in OpenStreams(trace) - cfg.standardStreams
      {
        OpenAfterBoth(before, since, s);
      }
      assert keys == OpenStreams(trace) - cfg.standardStreams;
    } else {
      var s :| s in OpenStreams(before) - cfg.standardStreams && !Touched(since, s);
      OpenAfterBoth(before, since, s);
      assert s in OpenStreams(trace) - cfg.standardStreams && s !in keys;
    }
  }

  // The counters tell how many entries the index has

  /** libc hands out only stream addresses that are not in use, and never a standard one. */
  ghost predicate FreshStreams(cfg: Config, env: Env) {
    forall h: seq<Event>, c: Call | OpensStream(c.fn) ::
      env.answer(h, c) == 0 || (env.answer(h, c) !in OpenStreams(h) && env.answer(h, c) !in cfg.standardStreams)
  }

  /** A fclose is never left to the passthrough, so nothing stays registered that is not open. */
  ghost predicate OnlyOpenRegistered(w: World) {
    w.ld.streams.Keys <= OpenStreams(w.trace) && (!w.loaded ==> w.ld.streams == map[])
  }

  lemma NextOnlyOpen(cfg: Config, env: Env, w: World, call: Call)
    requires Fclose in cfg.intercept && OnlyOpenRegistered(w) && StreamsSound(cfg, w.ld.streams)
    ensures OnlyOpenRegistered(Dispatched(cfg, env, w, call).0)
  {
    hide Dispatched, OpenStreams, Answer, Forwarded, Classify;
    NextOpenStreams(cfg, env, w, call, 0);
    WholeTraces(w.trace, Dispatched(cfg, env, w, call).0.trace);
    NextStreams(cfg, env, w, call);
    LoadedStays(cfg, env, w, call);
    OnlyTheseStreams(Variant(call));
  }

  lemma WholeTraces(a: seq<Event>, b: seq<Event>)
    ensures a[0..] == a && b[0..] == b
  {
  }

  lemma LoadedStays(cfg: Config, env: Env, w: World, call: Call)
    ensures Dispatched(cfg, env, w, call).0.loaded == w.loaded
  {
  }

  lemma {:induction false} OnlyOpenStreamsRegistered(cfg: Config, env: Env, inputs: seq<Input>)
    requires Fclose in cfg.intercept
    ensures OnlyOpenRegistered(Run(cfg, env, inputs))
  {
    hide Dispatched;
    if inputs != [] {
      var front, last := inputs[..|inputs| - 1], inputs[|inputs| - 1];
      RunGrows(cfg, env, inputs);
      OnlyOpenStreamsRegistered(cfg, env, front);
      IndexesAgree(cfg, env, front);
      if last.Request? {
        NextOnlyOpen(cfg, env, Run(cfg, env, front), last.call);
      }
    }
  }

  /** The registered streams of the mount point whose workflows are registered. */
  function HomeStreams(cfg: Config, streams: Index): set<int> {
    set s | s in streams && streams[s].mount == HomeMount(cfg)
  }

  /** Successful opens of streams less closes, by the counters. */
  function StreamBalance(books: Books): int {
    var f, f64, c := CountersOf(books, Fopen), CountersOf(books, Fopen64), CountersOf(books, Fclose);
    (f.op - f.error) + (f64.op - f64.error) - c.op
  }

  lemma StreamBalancePosted(books: Books, op: Op, u: Update, n: nat)
    requires u.pos == Position(op) && Unit(u) && n + 1 < TWO_64
    requires CountersUpTo(CountersOf(books, op), n)
    ensures StreamBalance(Posted(books, op, u))
         == StreamBalance(books)
            + (if op == Fopen || op == Fopen64 then Amount(u, OpCount) - Amount(u, ErrorCount) else 0)
            - (if op == Fclose then Amount(u, OpCount) else 0)
  {
    hide CountersOf, Posted, Position, Kind;
    PostedCounters(books, op, u, Fopen);
    PostedCounters(books, op, u, Fopen64);
    PostedCounters(books, op, u, Fclose);
    ChargedExactly(CountersOf(books, op), u, n, OpCount);
    ChargedExactly(CountersOf(books, op), u, n, ErrorCount);
  }

  /** What a call charges to the balance: a successful enforced open one, an enforced close minus one. */
  ghost function BalanceStep(cfg: Config, env: Env, w: World, call: Call): int {
    var op := Variant(call);
    if !ToLd(cfg, w.loaded, op) || !OughtToEnforce(cfg, w.ld, op, call) then 0
    else
      if OpensStream(op) then (if Answer(env, w, call) != 0 then 1 else 0)
      else if op == Fclose then -1
      else 0
  }

  lemma ChargeError(cfg: Config, env: Env, w: World, call: Call)
    requires OpensStream(Variant(call))
    ensures var u := Charge(cfg, env, w, call);
            Amount(u, ErrorCount) == if u.Bypass? || Answer(env, w, call) != 0 then 0 else 1
  {
    hide Position, Picked, Indexed, Forwarded;
    OnlyTheseStreams(Variant(call));
  }

  lemma NextBalance(cfg: Config, env: Env, inputs: seq<Input>, call: Call)
    requires cfg.collectLd && |inputs| + 1 < TWO_64
    ensures var w := Run(cfg, env, inputs);
            var w' := Dispatched(cfg, env, w, call).0;
            StreamBalance(w'.ld.books) == StreamBalance(w.ld.books) + BalanceStep(cfg, env, w, call)
  {
    hide Dispatched, Run, Charge, Position, Kind, FamilyOf, Answer, StreamBalance, OughtToEnforce;
    var w, op, u := Run(cfg, env, inputs), Variant(call), Charge(cfg, env, Run(cfg, env, inputs), call);
    NextBooks(cfg, env, w, call);
    OnlyTheseStreams(op);
    if ToLd(cfg, w.loaded, op) {
      ChargeVerdict(cfg, env, inputs, call);
      CountersBounded(cfg, env, inputs);
      assert CountersUpTo(SheetOf(w.ld.books, Kind(op))[Position(op)], |inputs|);
      StreamBalancePosted(w.ld.books, op, u, |inputs|);
      if OpensStream(op) {
        ChargeError(cfg, env, w, call);
      }
    }
  }

  lemma HomeStreamsAdd(cfg: Config, streams: Index, s: int, entry: Entry)
    requires s !in streams
    ensures |HomeStreams(cfg, streams[s := entry])|
         == |HomeStreams(cfg, streams)| + if entry.mount == HomeMount(cfg) then 1 else 0
  {
    var before, after := HomeStreams(cfg, streams), HomeStreams(cfg, streams[s := entry]);
    assert after == if entry.mount == HomeMount(cfg) then before + {s} else before;
  }

  lemma HomeStreamsDrop(cfg: Config, streams: Index, s: int)
    ensures |HomeStreams(cfg, streams - {s})|
         == |HomeStreams(cfg, streams)| - if s in streams && streams[s].mount == HomeMount(cfg) then 1 else 0
  {
    assert HomeStreams(cfg, streams - {s}) == HomeStreams(cfg, streams) - {s};
  }

  lemma NextHomeStreams(cfg: Config, env: Env, w: World, call: Call)
    requires FreshStreams(cfg, env) && OnlyOpenRegistered(w) && StreamsSound(cfg, w.ld.streams)
    ensures |HomeStreams(cfg, Dispatched(cfg, env, w, call).0.ld.streams)|
         == |HomeStreams(cfg, w.ld.streams)| + BalanceStep(cfg, env, w, call)
  {
    hide Dispatched, HomeStreams, Variant, OpenStreams, Forwarded, Classify, InScope, HomeMount;
    var op, ret, streams := Variant(call), Answer(env, w, call), w.ld.streams;
    NextStreams(cfg, env, w, call);
    ForwardedStream(call);
    if ToLd(cfg, w.loaded, op) && OpensStream(op) {
      ScopeIsHome(cfg, call.path);
      if ret != 0 {
        HomeStreamsAdd(cfg, streams, ret, Entry(call.path, Classify(cfg, call.path), NO_UNIT));
      }
    } else if ToLd(cfg, w.loaded, op) && op == Fclose {
      HomeStreamsDrop(cfg, streams, call.stream);
      if call.stream in streams {
        ScopeIsHome(cfg, streams[call.stream].path);
      }
    }
  }

  /** In every run with fclose intercepted over a libc that hands out fresh streams, the successful
      opens counted less the closes counted are the entries whose mount point has workflows. */
  lemma {:induction false} CountersVersusTable(cfg: Config, env: Env, inputs: seq<Input>)
    requires Fclose in cfg.intercept && cfg.collectLd && FreshStreams(cfg, env) && |inputs| < TWO_64
    ensures var ld := Run(cfg, env, inputs).ld;
            StreamBalance(ld.books) == |HomeStreams(cfg, ld.streams)|
  {
    hide Dispatched, StreamBalance, BalanceStep, HomeStreams, FreshStreams;
    if inputs == [] {
      NewBalance(cfg);
    } else {
      var front, last := inputs[..|inputs| - 1], inputs[|inputs| - 1];
      RunGrows(cfg, env, inputs);
      CountersVersusTable(cfg, env, front);
      if last.Request? {
        IndexesAgree(cfg, env, front);
        OnlyOpenStreamsRegistered(cfg, env, front);
        NextBalance(cfg, env, front, last.call);
        NextHomeStreams(cfg, env, Run(cfg, env, front), last.call);
      }
    }
  }

  lemma NewBalance(cfg: Config)
    ensures StreamBalance(NEW_BOOKS) == 0 && HomeStreams(cfg, map[]) == {}
  {
    assert SheetOf(NEW_BOOKS, MetadataCalls) == Zeros(22);
  }
}
