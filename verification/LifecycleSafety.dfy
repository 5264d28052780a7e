/** What every interleaving of the source's threads keeps. */
module LifecycleSafety {
  import opened Common
  import opened Lifecycle
  import opened LifecycleDiscipline

  // ---------------------------------------------------------------- the invariant

  /** The rest of the thread's program obeys the rules, and a thread that is not alive is at rest. */
  ghost predicate Typed(who: Who, th: Thread) {
    && Flow(who, th.todo, th.shape) == Some(IDLE)
    && (!th.alive ==> th.todo == Skip)
  }

  /** What is known about the thread's variables and phase is true. */
  ghost predicate Sound(th: Thread) {
    Owning(th) && Phased(th.shape) && (th.call.Some? ==> th.shape.using)
  }

  ghost predicate Owning(th: Thread) {
    && (th.local.Some? ==> th.shape.local)
    && (th.stale.Some? ==> th.shape.stale)
    && (th.built.Some? ==> th.shape.built)
    && (th.retired.Some? ==> th.shape.retired)
  }

  ghost predicate Phased(sh: Shape) {
    && (sh.using ==> sh.held.Has(Decoder))
    && (sh.stopping || sh.gone || sh.up ==> sh.held.Has(Lifecycle))
  }

  /** A thread inside a decoder call is calling the decoder that is installed. */
  ghost predicate CallsInstalled(th: Thread, g: Shared) {
    th.call.Some? ==> th.call == g.decoder
  }

  ghost predicate AllThreads(s: State) {
    forall w: Who :: Typed(w, s.At(w)) && Sound(s.At(w))
  }

  ghost predicate AllCalls(s: State) {
    forall w: Who :: CallsInstalled(s.At(w), s.g)
  }

  ghost predicate Mutex(s: State) {
    forall u: Who, v: Who, l: Lock ::
      s.At(u).shape.held.Has(l) && s.At(v).shape.held.Has(l) ==> u == v
  }

  /** Acquired in the documented order; only graphics may be entered again. */
  predicate Ordered(h: Held) {
    h.Push? ==> h.below.Below(h.top) && Ordered(h.below)
  }

  ghost predicate AllOrdered(s: State) {
    forall w: Who :: Ordered(s.At(w).shape.held)
  }

  /** Which threads exist. */
  ghost predicate Threads(s: State) {
    && s.render.alive && s.obs.alive
    && (s.g.joined ==> !s.reconnect.alive)
    && (forall w: Who :: s.At(w).shape.gone ==> !s.receive.alive)
    && (forall w: Who :: s.At(w).shape.up ==> s.g.running)
    && (s.receive.alive && !s.g.running ==> exists w: Who :: s.At(w).shape.stopping)
  }

  function Is(o: Option<nat>, id: nat): nat {
    if o == Some(id) then 1 else 0
  }

  function FrameIn(th: Thread, id: nat): nat {
    Is(th.local, id) + Is(th.stale, id)
  }

  function FrameShared(g: Shared, id: nat): nat {
    Is(g.pending, id) + Is(g.drawn, id) + g.released[id]
  }

  /** The number of places where a frame is: in a thread's hands, pending_, drawn_, and once for
      each time it was released. */
  function FramePlaces(s: State, id: nat): nat {
    FrameIn(s.receive, id) + FrameIn(s.render, id) + FrameIn(s.reconnect, id) + FrameIn(s.obs, id)
    + FrameShared(s.g, id)
  }

  function DecoderIn(th: Thread, id: nat): nat {
    Is(th.built, id) + Is(th.retired, id)
  }

  function DecoderShared(g: Shared, id: nat): nat {
    Is(g.decoder, id) + g.destroyed[id]
  }

  function DecoderPlaces(s: State, id: nat): nat {
    DecoderIn(s.receive, id) + DecoderIn(s.render, id) + DecoderIn(s.reconnect, id) + DecoderIn(s.obs, id)
    + DecoderShared(s.g, id)
  }

  ghost predicate Census(s: State) {
    && (forall id: nat :: FramePlaces(s, id) == if id < s.g.frames then 1 else 0)
    && (forall id: nat :: DecoderPlaces(s, id) == if id < s.g.decoders then 1 else 0)
  }

  ghost predicate Inv(s: State) {
    AllThreads(s) && AllCalls(s) && Mutex(s) && AllOrdered(s) && Threads(s) && Census(s)
  }

  // ---------------------------------------------------------------- one operation

  /** A working thread about to perform op and then next. */
  ghost predicate About(s: State, who: Who, op: Op, next: Prog) {
    && s.At(who).alive && Enabled(s, who, op)
    && FlowOp(who, op, s.At(who).shape).Some?
    && Flow(who, next, FlowOp(who, op, s.At(who).shape).value) == Some(IDLE)
  }

  lemma RestingOwnsNothing(s: State, who: Who)
    requires AllThreads(s) && !s.At(who).alive
    ensures s.At(who) == Resting(false)
  {
    assert Typed(who, s.At(who)) && Sound(s.At(who));
  }

  /** The threads that may be started are at rest. */
  lemma SpawnedIsResting(s: State, who: Who, op: Op, next: Prog)
    requires AllThreads(s) && Threads(s) && About(s, who, op, next)
    ensures op == SpawnReceive ==> who != Receive && s.receive == Resting(false)
    ensures op == SpawnReconnect && s.g.joined ==> who != Reconnect && s.reconnect == Resting(false)
  {
    if op == SpawnReceive {
      assert s.At(who).shape.gone;
      RestingOwnsNothing(s, Receive);
    }
    if op == SpawnReconnect && s.g.joined {
      RestingOwnsNothing(s, Reconnect);
    }
  }

  /** What the rules demand of the variables an operation fills or empties. */
  lemma OpVariables(who: Who, op: Op, sh: Shape)
    requires FlowOp(who, op, sh).Some?
    ensures op.TakePending? || op.EndDecode? ==> !sh.local
    ensures op.TakeDrawn? || op.PutPending? || op.Promote? ==> !sh.stale
    ensures op.Create? || op.NoBuilt? ==> !sh.built
    ensures op.Swap? ==> !sh.retired && !sh.using && sh.held.Has(Decoder)
  {
  }

  /** Frames only change hands: an operation moves a frame between the thread and the shared
      fields, creates the next one, or releases one. */
  lemma OpMovesFrames(who: Who, op: Op, th: Thread, g: Shared, choice: bool, id: nat)
    requires Sound(th) && FlowOp(who, op, th.shape).Some?
    ensures var th', g' := OwnPart(op, th, g, choice), SharedPart(op, th, g, choice);
            && g'.frames - g.frames in {0, 1}
            && FrameIn(th', id) + FrameShared(g', id)
               == FrameIn(th, id) + FrameShared(g, id) + (if g.frames <= id < g'.frames then 1 else 0)
  {
    OpVariables(who, op, th.shape);
    hide FlowOp;
  }

  lemma OpMovesDecoders(who: Who, op: Op, th: Thread, g: Shared, choice: bool, id: nat)
    requires Sound(th) && FlowOp(who, op, th.shape).Some?
    ensures var th', g' := OwnPart(op, th, g, choice), SharedPart(op, th, g, choice);
            && g'.decoders - g.decoders in {0, 1}
            && DecoderIn(th', id) + DecoderShared(g', id)
               == DecoderIn(th, id) + DecoderShared(g, id) + (if g.decoders <= id < g'.decoders then 1 else 0)
  {
    OpVariables(who, op, th.shape);
    hide FlowOp;
  }

  lemma ActCensus(s: State, who: Who, op: Op, next: Prog, choice: bool)
    requires AllThreads(s) && Census(s) && About(s, who, op, next)
    ensures Census(Act(s, who, op, next, choice))
  {
    hide FlowOp, Flow, IDLE, OwnPart, SharedPart;
    var t, th := Act(s, who, op, next, choice), s.At(who);
    hide FrameShared, DecoderShared;
    forall id: nat
      ensures FramePlaces(t, id) == if id < t.g.frames then 1 else 0
    {
      assert FramePlaces(s, id) == if id < s.g.frames then 1 else 0;
      OpMovesFrames(who, op, th, s.g, choice, id);
    }
    forall id: nat
      ensures DecoderPlaces(t, id) == if id < t.g.decoders then 1 else 0
    {
      assert DecoderPlaces(s, id) == if id < s.g.decoders then 1 else 0;
      OpMovesDecoders(who, op, th, s.g, choice, id);
    }
  }

  lemma OpOwning(who: Who, op: Op, th: Thread, g: Shared, choice: bool)
    requires Owning(th) && FlowOp(who, op, th.shape).Some?
    ensures Owning(OwnPart(op, th, g, choice).(shape := FlowOp(who, op, th.shape).value))
  {
  }

  lemma OpPhased(who: Who, op: Op, sh: Shape)
    requires Phased(sh) && FlowOp(who, op, sh).Some?
    ensures Phased(FlowOp(who, op, sh).value)
  {
  }

  lemma OpCall(who: Who, op: Op, th: Thread, g: Shared, choice: bool)
    requires (th.call.Some? ==> th.shape.using) && FlowOp(who, op, th.shape).Some?
    ensures OwnPart(op, th, g, choice).call.Some? ==> FlowOp(who, op, th.shape).value.using
  {
  }

  lemma OpHeld(who: Who, op: Op, sh: Shape)
    requires FlowOp(who, op, sh).Some?
    ensures var h := FlowOp(who, op, sh).value.held;
            && (op.Acquire? ==> h == Push(op.l, sh.held) && sh.held.Below(op.l))
            && (op.Release? ==> sh.held == Push(op.l, h))
            && (!op.Acquire? && !op.Release? ==> h == sh.held)
  {
  }

  lemma OpPhase(who: Who, op: Op, sh: Shape)
    requires FlowOp(who, op, sh).Some?
    ensures var r := FlowOp(who, op, sh).value;
            && r.stopping == (op.SetStopped? || (sh.stopping && !op.JoinReceive?))
            && (r.gone ==> sh.gone || op.JoinReceive?)
            && (r.up ==> (sh.up && !op.SetStopped?) || op.SetRunning?)
            && (op.SetRunning? || op.SetStopped? || op.SpawnReceive? ==> sh.held.Has(Lifecycle))
            && (op.SpawnReceive? ==> sh.gone && sh.up && !r.gone && !r.up)
            && (op.SpawnReconnect? ==> who != Reconnect)
            && (op.Finish? ==> who == Reconnect && r == IDLE)
  {
  }

  lemma OpShared(op: Op, th: Thread, g: Shared, choice: bool)
    ensures OwnPart(op, th, g, choice).alive == (th.alive && !op.Finish?)
    ensures SharedPart(op, th, g, choice).running == (op.SetRunning? || (g.running && !op.SetStopped?))
    ensures SharedPart(op, th, g, choice).joined == (g.joined || op.Finish? || op.JoinReconnect?)
  {
  }

  lemma ActedOk(who: Who, op: Op, th: Thread, g: Shared, next: Prog, choice: bool)
    requires Sound(th) && th.alive && FlowOp(who, op, th.shape).Some?
    requires Flow(who, next, FlowOp(who, op, th.shape).value) == Some(IDLE)
    ensures Typed(who, Acted(who, op, th, g, next, choice)) && Sound(Acted(who, op, th, g, next, choice))
  {
    OpOwning(who, op, th, g, choice);
    OpPhased(who, op, th.shape);
    OpCall(who, op, th, g, choice);
    OpPhase(who, op, th.shape);
    OpShared(op, th, g, choice);
    hide FlowOp, SharedPart, OwnPart;
  }

  lemma ActThreads(s: State, who: Who, op: Op, next: Prog, choice: bool)
    requires AllThreads(s) && About(s, who, op, next)
    ensures AllThreads(Act(s, who, op, next, choice))
  {
    hide FlowOp, SharedPart, Act, Acted, Typed, Sound;
    var t := Act(s, who, op, next, choice);
    assert Typed(who, s.At(who)) && Sound(s.At(who));
    ActedOk(who, op, s.At(who), s.g, next, choice);
    forall w: Who ensures Typed(w, t.At(w)) && Sound(t.At(w)) {
      assert Typed(w, s.At(w)) && Sound(s.At(w));
    }
  }

  lemma ActCalls(s: State, who: Who, op: Op, next: Prog, choice: bool)
    requires AllThreads(s) && AllCalls(s) && Mutex(s) && About(s, who, op, next)
    ensures AllCalls(Act(s, who, op, next, choice))
  {
    hide FlowOp, Flow, Act;
    var t := Act(s, who, op, next, choice);
    OpVariables(who, op, s.At(who).shape);
    forall w: Who ensures CallsInstalled(t.At(w), t.g) {
      assert CallsInstalled(s.At(w), s.g) && Sound(s.At(w));
    }
  }

  lemma ActMutex(s: State, who: Who, op: Op, next: Prog, choice: bool)
    requires Mutex(s) && About(s, who, op, next)
    ensures Mutex(Act(s, who, op, next, choice))
  {
    hide FlowOp, Flow, Act, SharedPart, OwnPart;
    var t := Act(s, who, op, next, choice);
    OpHeld(who, op, s.At(who).shape);
    forall u: Who, v: Who, l: Lock | t.At(u).shape.held.Has(l) && t.At(v).shape.held.Has(l)
      ensures u == v
    {
      assert s.At(u).shape.held.Has(l) || (u == who && op == Acquire(l));
      assert s.At(v).shape.held.Has(l) || (v == who && op == Acquire(l));
    }
  }

  lemma ActOrdered(s: State, who: Who, op: Op, next: Prog, choice: bool)
    requires AllOrdered(s) && About(s, who, op, next)
    ensures AllOrdered(Act(s, who, op, next, choice))
  {
    hide FlowOp, Flow, Act, SharedPart, OwnPart;
    var t := Act(s, who, op, next, choice);
    OpHeld(who, op, s.At(who).shape);
    forall w: Who ensures Ordered(t.At(w).shape.held) {
      assert Ordered(s.At(w).shape.held);
    }
  }

  lemma ActExist(s: State, who: Who, op: Op, next: Prog, choice: bool)
    requires AllThreads(s) && Mutex(s) && Threads(s) && About(s, who, op, next)
    ensures Threads(Act(s, who, op, next, choice))
  {
    hide FlowOp, Flow, Act, SharedPart, OwnPart;
    var t, th := Act(s, who, op, next, choice), s.At(who);
    OpPhase(who, op, th.shape);
    OpShared(op, th, s.g, choice);
    assert t.receive == t.At(Receive) && t.render == t.At(Render) && t.reconnect == t.At(Reconnect)
        && t.obs == t.At(Obs);
    forall w: Who | t.At(w).shape.up ensures t.g.running {
      assert Sound(s.At(w)) && Sound(th);
      assert s.At(w).shape.held.Has(Lifecycle) || op.SetRunning?;
    }
    if t.receive.alive && !t.g.running {
      if op.SetStopped? {
        assert t.At(who).shape.stopping;
      } else {
        var w: Who :| s.At(w).shape.stopping;
        assert t.At(w).shape.stopping;
      }
    }
  }

  // ---------------------------------------------------------------- starting a thread

  function Started(p: Prog): Thread {
    Resting(true).(todo := p)
  }

  lemma StartedCensus(s: State, w: Who, p: Prog, g: Shared)
    requires Census(s) && s.At(w) == Resting(false) && g == s.g.(joined := g.joined)
    ensures Census(s.With(w, Started(p)).(g := g))
  {
    var t := s.With(w, Started(p)).(g := g);
    forall id: nat
      ensures FramePlaces(t, id) == FramePlaces(s, id) && DecoderPlaces(t, id) == DecoderPlaces(s, id)
    {
    }
  }

  lemma StartedThreads(s: State, w: Who, p: Prog, g: Shared)
    requires AllThreads(s) && AllCalls(s) && Mutex(s) && AllOrdered(s)
    requires s.At(w) == Resting(false) && g == s.g.(joined := g.joined)
    requires Flow(w, p, IDLE) == Some(IDLE)
    ensures var t := s.With(w, Started(p)).(g := g); AllThreads(t) && AllCalls(t) && Mutex(t) && AllOrdered(t)
  {
    hide Flow;
    var t := s.With(w, Started(p)).(g := g);
    forall u: Who ensures t.At(u) == if u == w then Started(p) else s.At(u) {
    }
    assert forall u: Who :: t.At(u).shape == s.At(u).shape && t.At(u).call == s.At(u).call;
    forall u: Who ensures Typed(u, t.At(u)) && Sound(t.At(u)) && CallsInstalled(t.At(u), t.g)
        && Ordered(t.At(u).shape.held) {
      assert Typed(u, s.At(u)) && Sound(s.At(u)) && CallsInstalled(s.At(u), s.g) && Ordered(s.At(u).shape.held);
    }
  }

  lemma ReceiveStarts(s: State, who: Who, next: Prog, choice: bool)
    requires Inv(s) && About(s, who, SpawnReceive, next)
    requires Inv(Act(s, who, SpawnReceive, next, choice))
    ensures Inv(DoOp(s, who, SpawnReceive, next, choice))
  {
    var t := Act(s, who, SpawnReceive, next, choice);
    OpPhase(who, SpawnReceive, s.At(who).shape);
    SpawnedIsResting(s, who, SpawnReceive, next);
    assert t.At(Receive) == s.receive;
    StartedCensus(t, Receive, Skip, t.g);
    StartedThreads(t, Receive, Skip, t.g);
    assert Sound(s.At(who)) && s.At(who).shape.up;
    hide FlowOp, Flow, Act, OwnPart, Census;
    var r := DoOp(s, who, SpawnReceive, next, choice);
    forall w: Who ensures !r.At(w).shape.gone {
      assert Sound(s.At(w)) && Sound(s.At(who));
    }
    assert t.g.running;
  }

  lemma ReconnectStarts(s: State, who: Who, next: Prog, choice: bool)
    requires Inv(s) && About(s, who, SpawnReconnect, next) && s.g.joined
    requires Inv(Act(s, who, SpawnReconnect, next, choice))
    ensures Inv(DoOp(s, who, SpawnReconnect, next, choice))
  {
    var t := Act(s, who, SpawnReconnect, next, choice);
    OpPhase(who, SpawnReconnect, s.At(who).shape);
    SpawnedIsResting(s, who, SpawnReconnect, next);
    assert t.At(Reconnect) == s.reconnect;
    ReconnectThreadOk();
    hide ReconnectThread;
    var g := t.g.(joined := false);
    StartedCensus(t, Reconnect, ReconnectThread(), g);
    StartedThreads(t, Reconnect, ReconnectThread(), g);
    hide FlowOp, Flow, Act, OwnPart, Census;
    var r := DoOp(s, who, SpawnReconnect, next, choice);
    forall w: Who ensures r.At(w).shape == t.At(w).shape {
    }
    if r.receive.alive && !r.g.running {
      var w: Who :| t.At(w).shape.stopping;
      assert r.At(w).shape.stopping;
    }
  }

  lemma OpKeepsInv(s: State, who: Who, op: Op, next: Prog, choice: bool)
    requires Inv(s) && About(s, who, op, next)
    ensures Inv(DoOp(s, who, op, next, choice))
  {
    ActThreads(s, who, op, next, choice);
    ActCalls(s, who, op, next, choice);
    ActMutex(s, who, op, next, choice);
    ActOrdered(s, who, op, next, choice);
    ActExist(s, who, op, next, choice);
    ActCensus(s, who, op, next, choice);
    hide AllThreads, AllCalls, Mutex, AllOrdered, Threads, Census, About, Act;
    OpShared(op, s.At(who), s.g, choice);
    hide SharedPart;
    if op == SpawnReceive {
      ReceiveStarts(s, who, next, choice);
    } else if op == SpawnReconnect && s.g.joined {
      ReconnectStarts(s, who, next, choice);
    }
  }

  // ---------------------------------------------------------------- one step

  /** A thread moves on in its program, at most learning that a variable is empty or that the
      receive thread is gone. */
  ghost predicate Learns(s: State, who: Who, th: Thread) {
    var was := s.At(who);
    && th == was.(todo := th.todo, shape := th.shape)
    && th.shape.held == was.shape.held && th.shape.using == was.shape.using
    && th.shape.stopping == was.shape.stopping && th.shape.up == was.shape.up
    && (th.shape.gone ==> !s.receive.alive)
    && Typed(who, th) && Sound(th)
  }

  lemma LearnsThreads(s: State, who: Who, th: Thread)
    requires AllThreads(s) && AllCalls(s) && Mutex(s) && AllOrdered(s) && Learns(s, who, th)
    ensures var t := s.With(who, th); AllThreads(t) && AllCalls(t) && Mutex(t) && AllOrdered(t)
  {
    hide Flow;
    var t := s.With(who, th);
    forall u: Who ensures t.At(u) == if u == who then th else s.At(u) {
    }
    assert forall u: Who :: t.At(u).shape.held == s.At(u).shape.held && t.At(u).call == s.At(u).call;
    forall u: Who ensures Typed(u, t.At(u)) && Sound(t.At(u)) && CallsInstalled(t.At(u), t.g)
        && Ordered(t.At(u).shape.held) {
      assert Typed(u, s.At(u)) && Sound(s.At(u)) && CallsInstalled(s.At(u), s.g) && Ordered(s.At(u).shape.held);
    }
  }

  lemma LearnsCensus(s: State, who: Who, th: Thread)
    requires Census(s) && Learns(s, who, th)
    ensures Census(s.With(who, th))
  {
    var t := s.With(who, th);
    forall id: nat
      ensures FramePlaces(t, id) == FramePlaces(s, id) && DecoderPlaces(t, id) == DecoderPlaces(s, id)
    {
    }
  }

  lemma LearnsKeepsInv(s: State, who: Who, th: Thread)
    requires Inv(s) && Learns(s, who, th)
    ensures Inv(s.With(who, th))
  {
    LearnsThreads(s, who, th);
    LearnsCensus(s, who, th);
    hide AllThreads, AllCalls, Mutex, AllOrdered, Census, Typed, Sound;
    var t := s.With(who, th);
    forall u: Who ensures t.At(u) == if u == who then th else s.At(u) {
    }
    if t.receive.alive && !t.g.running {
      var w: Who :| s.At(w).shape.stopping;
      assert t.At(w).shape.stopping;
    }
  }

  /** When running_ is found clear under lifecycleMutex_, outside a teardown, the receive thread
      is gone. */
  lemma NotRunningMeansGone(s: State, who: Who)
    requires AllThreads(s) && Mutex(s) && Threads(s)
    requires s.At(who).shape.held.Has(Lifecycle) && !s.At(who).shape.stopping && !s.g.running
    ensures !s.receive.alive
  {
    forall w: Who ensures !s.At(w).shape.stopping {
      assert Sound(s.At(w));
    }
  }

  lemma FlowUnfolds(who: Who, a: Prog, rest: Prog, sh: Shape)
    requires Flow(who, Then(a, rest), sh) == Some(IDLE)
    ensures a.Skip? ==> Flow(who, rest, sh) == Some(IDLE)
    ensures a.Then? ==> Flow(who, Then(a.first, Then(a.rest, rest)), sh) == Some(IDLE)
    ensures a.Do? ==> FlowOp(who, a.op, sh).Some? && Flow(who, rest, FlowOp(who, a.op, sh).value) == Some(IDLE)
    ensures a.If? ==> Flow(who, Then(a.yes, rest), FlowTest(a.cond, true, sh)) == Some(IDLE)
    ensures a.If? ==> Flow(who, Then(a.no, rest), FlowTest(a.cond, false, sh)) == Some(IDLE)
  {
    hide FlowOp, FlowTest;
  }

  lemma TestSound(s: State, who: Who, c: Cond, choice: bool)
    requires Inv(s)
    ensures var th := s.At(who); var answer := Eval(c, th, s.g, choice);
            var sh := FlowTest(c, answer, th.shape);
            && sh.held == th.shape.held && sh.using == th.shape.using
            && sh.stopping == th.shape.stopping && sh.up == th.shape.up
            && (sh.gone ==> !s.receive.alive)
            && Sound(th.(shape := sh))
  {
    var th := s.At(who);
    assert Typed(who, th) && Sound(th);
    if c == Running && !s.g.running && th.shape.held.Has(Lifecycle) && !th.shape.stopping {
      NotRunningMeansGone(s, who);
    }
    hide Flow, AllThreads, AllCalls, Mutex, AllOrdered, Census;
  }

  lemma BranchKeepsInv(s: State, who: Who, c: Cond, a: Prog, b: Prog, rest: Prog, choice: bool)
    requires Inv(s) && s.At(who).alive
    requires Flow(who, Then(If(c, a, b), rest), s.At(who).shape) == Some(IDLE)
    ensures Inv(Branch(s, who, c, a, b, rest, choice))
  {
    FlowUnfolds(who, If(c, a, b), rest, s.At(who).shape);
    TestSound(s, who, c, choice);
    hide Flow, FlowTest, Eval, Inv;
    var th := s.At(who);
    var answer := Eval(c, th, s.g, choice);
    var next := th.(todo := Then(if answer then a else b, rest), shape := FlowTest(c, answer, th.shape));
    LearnsKeepsInv(s, who, next);
  }

  lemma MoveOnKeepsInv(s: State, who: Who, todo: Prog)
    requires Inv(s) && s.At(who).alive
    requires Flow(who, todo, s.At(who).shape) == Some(IDLE)
    ensures Inv(s.With(who, s.At(who).(todo := todo)))
  {
    assert Typed(who, s.At(who)) && Sound(s.At(who));
    hide Flow, AllCalls, Census;
    LearnsKeepsInv(s, who, s.At(who).(todo := todo));
  }

  lemma WorkKeepsInv(s: State, who: Who, choice: bool)
    requires Inv(s) && CanWork(s, who)
    ensures Inv(Work(s, who, choice))
  {
    var th := s.At(who);
    assert Typed(who, th);
    match th.todo {
      case Then(a, rest) => FlowUnfolds(who, a, rest, th.shape);
      case If(c, a, b) => assert Flow(who, Then(th.todo, Skip), th.shape) == Some(IDLE);
      case _ =>
    }
    hide FlowOp, Inv;
    match th.todo {
      case Do(op) => OpKeepsInv(s, who, op, Skip, choice);
      case If(c, a, b) => BranchKeepsInv(s, who, c, a, b, Skip, choice);
      case Then(Skip, rest) => MoveOnKeepsInv(s, who, rest);
      case Then(Then(a, b), rest) => MoveOnKeepsInv(s, who, Then(a, Then(b, rest)));
      case Then(Do(op), rest) => OpKeepsInv(s, who, op, rest, choice);
      case Then(If(c, a, b), rest) => BranchKeepsInv(s, who, c, a, b, rest, choice);
    }
  }

  lemma EndsKeepsInv(s: State)
    requires Inv(s) && Possible(s, Ends)
    ensures Inv(Step(s, Ends))
  {
    var t := Step(s, Ends);
    assert Typed(Receive, s.At(Receive)) && Sound(s.At(Receive));
    hide Flow;
    forall u: Who ensures t.At(u) == if u == Receive then s.receive.(alive := false) else s.At(u) {
    }
    forall u: Who ensures Typed(u, t.At(u)) && Sound(t.At(u)) && CallsInstalled(t.At(u), t.g)
        && Ordered(t.At(u).shape.held) {
      assert Typed(u, s.At(u)) && Sound(s.At(u)) && CallsInstalled(s.At(u), s.g) && Ordered(s.At(u).shape.held);
    }
    assert forall u: Who :: t.At(u).shape == s.At(u).shape;
    forall id: nat
      ensures FramePlaces(t, id) == FramePlaces(s, id) && DecoderPlaces(t, id) == DecoderPlaces(s, id)
    {
    }
  }

  lemma StepKeepsInv(s: State, e: Event)
    requires Inv(s) && Possible(s, e)
    ensures Inv(Step(s, e))
  {
    match e {
      case Works(who, choice) =>
        WorkKeepsInv(s, who, choice);
      case Starts(who, p) =>
        assert Typed(who, s.At(who));
        HandlersFlow(who, p);
        hide Inv, Flow;
        MoveOnKeepsInv(s, who, p);
      case Ends =>
        EndsKeepsInv(s);
    }
  }

  // ---------------------------------------------------------------- runs

  ghost predicate IsRun(events: seq<Event>, states: seq<State>) {
    && |states| == |events| + 1 && states[0] == Initial()
    && forall i :: 0 <= i < |events| ==> Possible(states[i], events[i]) && states[i + 1] == Step(states[i], events[i])
  }

  ghost predicate Reachable(s: State) {
    exists events, states :: IsRun(events, states) && s == states[|events|]
  }

  lemma {:induction false} RunKeepsInv(events: seq<Event>, states: seq<State>, i: nat)
    requires IsRun(events, states) && i < |states|
    ensures Inv(states[i])
  {
    if i == 0 {
      assert forall w: Who :: Initial().At(w) == Resting(true) || Initial().At(w) == Resting(false);
    } else {
      RunKeepsInv(events, states, i - 1);
      hide Inv, Possible, Step;
      StepKeepsInv(states[i - 1], events[i - 1]);
    }
  }

  lemma ReachableInv(s: State)
    requires Reachable(s)
    ensures Inv(s)
  {
    var events, states :| IsRun(events, states) && s == states[|events|];
    RunKeepsInv(events, states, |events|);
  }

  /** In every reachable state every frame handed out so far is in exactly one place: in one local
      variable of one thread, in pending_, in drawn_, or released once; and likewise every decoder
      is in exactly one local variable, in decoder_, or destroyed once. */
  lemma OneOwner(s: State, id: nat)
    requires Reachable(s)
    ensures id < s.g.frames ==> FramePlaces(s, id) == 1
    ensures id < s.g.decoders ==> DecoderPlaces(s, id) == 1
    ensures s.g.released[id] <= 1 && s.g.destroyed[id] <= 1
  {
    ReachableInv(s);
    assert FramePlaces(s, id) <= 1 && DecoderPlaces(s, id) <= 1;
  }

  /** A thread that is inside decode, import or set_video_params at any moment is calling the
      decoder that is installed, which has not been destroyed, and no other thread is inside a
      call or about to retire it. */
  lemma CallsAreLive(s: State, who: Who)
    requires Reachable(s) && s.At(who).call.Some?
    ensures s.g.decoder == s.At(who).call
    ensures s.g.destroyed[s.At(who).call.value] == 0
    ensures forall u: Who :: u != who ==> s.At(u).call.None? && !s.At(u).shape.held.Has(Decoder)
  {
    ReachableInv(s);
    hide Flow;
    assert CallsInstalled(s.At(who), s.g) && Sound(s.At(who));
    assert DecoderPlaces(s, s.At(who).call.value) <= 1;
    forall u: Who | u != who ensures s.At(u).call.None? && !s.At(u).shape.held.Has(Decoder) {
      assert Sound(s.At(u));
    }
  }

  /** When every thread is idle and no picture is pending or on screen, as after stop, every frame
      ever handed out has been released, once. */
  lemma EverythingReleased(s: State, id: nat)
    requires Reachable(s) && id < s.g.frames && s.g.pending.None? && s.g.drawn.None?
    requires forall w: Who :: s.At(w).todo == Skip
    ensures s.g.released[id] == 1
  {
    ReachableInv(s);
    hide Flow;
    forall w: Who ensures FrameIn(s.At(w), id) == 0 {
      assert Typed(w, s.At(w)) && Sound(s.At(w));
    }
    assert FramePlaces(s, id) == 1;
    assert s.receive == s.At(Receive) && s.render == s.At(Render) && s.reconnect == s.At(Reconnect)
        && s.obs == s.At(Obs);
  }
}
