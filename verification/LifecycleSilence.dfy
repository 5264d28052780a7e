/** A silent pipe: the join of the receive thread waits for as long as its read does not return. */
module LifecycleSilence {
  import opened Common
  import opened Lifecycle
  import opened LifecycleSafety
  import opened LifecycleDeadlock

  // ---------------------------------------------------------------- silence is not broken from inside

  /** Thread t joins the receive thread, which is reading. */
  ghost predicate JoinsReader(s: State, t: Who) {
    s.At(t).alive && NextOp(s.At(t)) == Some(JoinReceive) && Reading(s)
  }

  /** The read returns: with a message for a callback, or without one. */
  predicate OfPipe(e: Event) {
    e == Ends || (e.Starts? && e.who == Receive)
  }

  lemma OthersOnly(s: State, t: Who, who: Who, op: Op, next: Prog, choice: bool)
    requires Inv(s) && JoinsReader(s, t) && who != t && who != Receive
    requires s.At(who).alive && NextOp(s.At(who)) == Some(op)
    ensures var u := DoOp(s, who, op, next, choice); u.At(t) == s.At(t) && u.receive == s.receive
  {
    hide Inv, FlowOp, NextOp, OwnPart, SharedPart, Acted;
    NotSpawning(s, t, who, op);
    if t == Reconnect {
      ReconnectAtWork(s);
    }
    var v := Act(s, who, op, next, choice);
    assert v.At(t) == s.At(t) && v.At(Receive) == s.At(Receive);
    JoinedStays(op, s.At(who), s.g, choice);
    hide Act;
    SpawnTouches(op, v, t);
  }

  lemma NotSpawning(s: State, t: Who, who: Who, op: Op)
    requires Inv(s) && JoinsReader(s, t) && who != t && NextOp(s.At(who)) == Some(op)
    ensures op != SpawnReceive
  {
    NextObeys(s, t);
    WaitFacts(t, JoinReceive, s.At(t).shape);
    NextObeys(s, who);
    if op == SpawnReceive {
      GuardFacts(who, op, s.At(who).shape);
    }
    hide FlowOp, NextOp, AllThreads, AllCalls, AllOrdered, Census, Threads;
  }

  lemma ReconnectAtWork(s: State)
    requires Inv(s) && s.reconnect.alive
    ensures !s.g.joined
  {
    hide AllThreads, AllCalls, Mutex, AllOrdered, Census;
  }

  lemma JoinedStays(op: Op, th: Thread, g: Shared, choice: bool)
    ensures op == SpawnReconnect ==> SharedPart(op, th, g, choice) == g
  {
  }

  lemma SpawnTouches(op: Op, v: State, t: Who)
    requires op != SpawnReceive && (op == SpawnReconnect && t == Reconnect ==> !v.g.joined)
    ensures Spawn(op, v).At(t) == v.At(t) && Spawn(op, v).receive == v.receive
  {
  }

  /** No step of the source's own threads changes that: only the pipe does. */
  lemma SilenceKeeps(s: State, t: Who, e: Event)
    requires Reachable(s) && JoinsReader(s, t) && Possible(s, e) && !OfPipe(e)
    ensures JoinsReader(Step(s, e), t)
  {
    ReachableInv(s);
    hide Reachable, Inv, FlowOp, OwnPart, SharedPart, Acted;
    match e {
      case Starts(_, _) =>
      case Works(who, choice) =>
        assert who != t && who != Receive;
        match s.At(who).todo {
          case Do(op) => OthersOnly(s, t, who, op, Skip, choice);
          case Then(Do(op), rest) => OthersOnly(s, t, who, op, rest, choice);
          case _ =>
        }
    }
  }

  /** So in every run the join has not returned before the read has. */
  lemma {:induction false} JoinWaitsForPipe(events: seq<Event>, states: seq<State>, t: Who, i: nat, j: nat)
    requires IsRun(events, states) && i <= j < |states| && JoinsReader(states[i], t)
    requires forall k :: i <= k < j ==> !OfPipe(events[k])
    ensures JoinsReader(states[j], t)
    decreases j
  {
    if i < j {
      JoinWaitsForPipe(events, states, t, i, j - 1);
      hide JoinsReader, OfPipe, Possible, Step;
      InRun(events, states, j - 1);
      SilenceKeeps(states[j - 1], t, events[j - 1]);
    }
  }

  lemma InRun(events: seq<Event>, states: seq<State>, j: nat)
    requires IsRun(events, states) && j < |states|
    ensures Reachable(states[j])
  {
    hide Possible, Step;
    assert IsRun(events[..j], states[..j + 1]) && states[j] == states[..j + 1][|events[..j]|];
  }

  // ---------------------------------------------------------------- a run into silence

  lemma OneMore(s: State, e: Event)
    requires Reachable(s) && Possible(s, e)
    ensures Reachable(Step(s, e))
  {
    var events, states :| IsRun(events, states) && s == states[|events|];
    hide Possible, Step;
    var n := |events|;
    var more, path := events + [e], states + [Step(s, e)];
    forall i | 0 <= i < |more| ensures Possible(path[i], more[i]) && path[i + 1] == Step(path[i], more[i]) {
      if i < n {
        assert path[i] == states[i] && more[i] == events[i] && path[i + 1] == states[i + 1];
      } else {
        assert path[n] == s && more[n] == e;
      }
    }
    assert IsRun(more, path) && Step(s, e) == path[|more|];
  }

  /** The OBS thread at work, everyone else at rest. */
  function Alone(todo: Prog, sh: Shape, g: Shared, receive: Thread): State {
    State(receive, Resting(true), Resting(false), Thread(true, todo, sh, None, None, None, None, None), g)
  }

  lemma NobodyElse(s: State, l: Lock)
    requires s.receive.shape.held == Nothing && s.render == Resting(true) && s.reconnect == Resting(false)
    ensures !HeldByOther(s, Obs, l)
  {
  }

  /** One step of it. */
  lemma Go(todo: Prog, sh: Shape, g: Shared, receive: Thread, choice: bool)
    requires Reachable(Alone(todo, sh, g, receive)) && todo != Skip && receive.shape.held == Nothing
    requires var op := NextOp(Alone(todo, sh, g, receive).obs);
             op.Some? ==> !op.value.JoinReceive? && !op.value.JoinReconnect?
    ensures Reachable(Work(Alone(todo, sh, g, receive), Obs, choice))
  {
    var s := Alone(todo, sh, g, receive);
    var op := NextOp(s.obs);
    hide Reachable, Work, HeldByOther;
    if op.Some? && op.value.Acquire? {
      NobodyElse(s, op.value.l);
    }
    OneMore(s, Works(Obs, choice));
  }

  lemma GoInto(a: Prog, b: Prog, rest: Prog, sh: Shape, g: Shared, receive: Thread)
    requires Reachable(Alone(Then(Then(a, b), rest), sh, g, receive)) && receive.shape.held == Nothing
    ensures Reachable(Alone(Then(a, Then(b, rest)), sh, g, receive))
  {
    hide Reachable;
    Go(Then(Then(a, b), rest), sh, g, receive, true);
  }

  lemma GoPast(rest: Prog, sh: Shape, g: Shared, receive: Thread)
    requires Reachable(Alone(Then(Skip, rest), sh, g, receive)) && receive.shape.held == Nothing
    ensures Reachable(Alone(rest, sh, g, receive))
  {
    hide Reachable;
    Go(Then(Skip, rest), sh, g, receive, true);
  }

  lemma GoTest(c: Cond, a: Prog, b: Prog, rest: Prog, sh: Shape, g: Shared, receive: Thread)
    requires Reachable(Alone(Then(If(c, a, b), rest), sh, g, receive)) && receive.shape.held == Nothing
    requires c == Any || c == HasRetired || (c == Running && !g.running)
    ensures Reachable(Alone(Then(b, rest), FlowTest(c, false, sh), g, receive))
  {
    hide Reachable, FlowTest;
    Go(Then(If(c, a, b), rest), sh, g, receive, false);
  }

  /** Operations that leave the empty variables of the thread empty. */
  predicate Plain(op: Op, g: Shared) {
    op.Acquire? || op.Release? || op.NoBuilt? || op.SetRunning? || op.SetStopped? || (op.Swap? && g.decoder == None)
  }

  function Flag(op: Op, g: Shared): Shared {
    if op.SetRunning? then g.(running := true) else if op.SetStopped? then g.(running := false) else g
  }

  lemma GoOp(op: Op, rest: Prog, sh: Shape, g: Shared, receive: Thread)
    requires Reachable(Alone(Then(Do(op), rest), sh, g, receive)) && receive.shape.held == Nothing
    requires Plain(op, g) && FlowOp(Obs, op, sh).Some?
    ensures Reachable(Alone(rest, FlowOp(Obs, op, sh).value, Flag(op, g), receive))
  {
    hide Reachable, FlowOp;
    Go(Then(Do(op), rest), sh, g, receive, true);
    PlainEffect(op, rest, sh, g, receive);
  }

  lemma PlainEffect(op: Op, rest: Prog, sh: Shape, g: Shared, receive: Thread)
    requires Plain(op, g) && FlowOp(Obs, op, sh).Some?
    ensures Work(Alone(Then(Do(op), rest), sh, g, receive), Obs, true)
            == Alone(rest, FlowOp(Obs, op, sh).value, Flag(op, g), receive)
  {
    hide FlowOp;
  }

  /** Taking and leaving a lock. */
  lemma GoLocked(l: Lock, rest: Prog, sh: Shape, g: Shared, receive: Thread)
    requires receive.shape.held == Nothing && l != Lifecycle && sh.held.Below(l) && !sh.using
    requires Reachable(Alone(Then(Locked(l, Skip), rest), sh, g, receive))
    ensures Reachable(Alone(rest, sh, g, receive))
  {
    hide Reachable;
    var leave, inside := Do(Release(l)), sh.(held := Push(l, sh.held));
    GoInto(Do(Acquire(l)), Then(Skip, leave), rest, sh, g, receive);
    GoOp(Acquire(l), Then(Then(Skip, leave), rest), sh, g, receive);
    GoInto(Skip, leave, rest, inside, g, receive);
    GoPast(Then(leave, rest), inside, g, receive);
    GoOp(Release(l), rest, inside, g, receive);
  }

  /** start installs no decoder in place of none. */
  lemma GoInstall(rest: Prog, sh: Shape, g: Shared, receive: Thread)
    requires receive.shape.held == Nothing && sh.held == Push(Lifecycle, Nothing) && !sh.using
    requires sh.built && !sh.retired && g.decoder == None
    requires Reachable(Alone(Then(InstallDecoder(), rest), sh, g, receive))
    ensures Reachable(Alone(rest, sh.(built := false), g, receive))
  {
    hide Reachable;
    var leave, inside := Do(Release(Decoder)), sh.(held := Push(Decoder, sh.held));
    var test := If(HasRetired, Locked(Graphics, Do(Destroy)), Skip);
    var more := Then(test, rest);
    GoInto(Locked(Decoder, Do(Swap)), test, rest, sh, g, receive);
    GoInto(Do(Acquire(Decoder)), Then(Do(Swap), leave), more, sh, g, receive);
    GoOp(Acquire(Decoder), Then(Then(Do(Swap), leave), more), sh, g, receive);
    GoInto(Do(Swap), leave, more, inside, g, receive);
    GoOp(Swap, Then(leave, more), inside, g, receive);
    GoOp(Release(Decoder), more, inside.(built := false, retired := true), g, receive);
    GoTest(HasRetired, Locked(Graphics, Do(Destroy)), Skip, rest, sh.(built := false, retired := true), g, receive);
    GoPast(rest, sh.(built := false), g, receive);
  }

  const STARTING := IDLE.(held := Push(Lifecycle, Nothing), gone := true)

  /** The OBS thread runs start up to the body. */
  lemma ReachBody()
    ensures Reachable(Alone(Then(StartBody(), Do(Release(Lifecycle))), STARTING, Initial().g, Resting(false)))
  {
    hide Reachable, StartBody;
    var g, none, leave := Initial().g, Resting(false), Do(Release(Lifecycle));
    AtFirst();
    OneMore(Alone(Skip, IDLE, g, none), Starts(Obs, Start()));
    var inner := If(Running, Skip, StartBody());
    GoOp(Acquire(Lifecycle), Then(If(Any, Skip, inner), leave), IDLE, g, none);
    var sh := IDLE.(held := Push(Lifecycle, Nothing));
    GoTest(Any, Skip, inner, leave, sh, g, none);
    GoTest(Running, Skip, StartBody(), leave, sh, g, none);
  }

  lemma AtFirst()
    ensures Reachable(Initial()) && Initial() == Alone(Skip, IDLE, Initial().g, Resting(false))
  {
    var events: seq<Event> := [];
    assert IsRun(events, [Initial()]) && Initial() == [Initial()][|events|];
  }

  /** The body: no decoder, running_ set, and a receive thread. */
  lemma ReachSpawn(leave: Prog)
    requires leave == Do(Release(Lifecycle))
    requires Reachable(Alone(Then(StartBody(), leave), STARTING, Initial().g, Resting(false)))
    ensures Reachable(Alone(Then(Do(SpawnReceive), leave), STARTING.(up := true), Initial().g.(running := true),
        Resting(false)))
  {
    hide Reachable, InstallDecoder;
    var g, none, sh := Initial().g, Resting(false), STARTING;
    var w := Then(Do(SetRunning), Do(SpawnReceive));
    var z := Then(Locked(Cv, Skip), w);
    var y := Then(Locked(Decoder, Skip), z);
    var x := Then(InstallDecoder(), y);
    GoInto(Do(NoBuilt), x, leave, sh, g, none);
    GoOp(NoBuilt, Then(x, leave), sh, g, none);
    GoInto(InstallDecoder(), y, leave, sh.(built := true), g, none);
    GoInstall(Then(y, leave), sh.(built := true), g, none);
    GoInto(Locked(Decoder, Skip), z, leave, sh, g, none);
    GoLocked(Decoder, Then(z, leave), sh, g, none);
    GoInto(Locked(Cv, Skip), w, leave, sh, g, none);
    GoLocked(Cv, Then(w, leave), sh, g, none);
    GoInto(Do(SetRunning), Do(SpawnReceive), leave, sh, g, none);
    GoOp(SetRunning, Then(Do(SpawnReceive), leave), sh, g, none);
  }

  /** start has returned, and the receive thread reads. */
  lemma ReachReading()
    ensures Reachable(Alone(Skip, IDLE, Initial().g.(running := true), Resting(true)))
  {
    hide Reachable;
    var leave, g := Do(Release(Lifecycle)), Initial().g.(running := true);
    ReachBody();
    ReachSpawn(leave);
    Go(Then(Do(SpawnReceive), leave), STARTING.(up := true), g, Resting(false), true);
    Go(leave, IDLE.(held := Push(Lifecycle, Nothing)), g, Resting(true), true);
  }

  /** Such a state is reached by a start and a stop on a connector that stays silent: the OBS thread
      joins the receive thread under lifecycleMutex_, and no thread can work. */
  lemma SilentStop() returns (s: State)
    ensures Reachable(s) && JoinsReader(s, Obs) && Waits(s, Obs, Receive)
    ensures s.obs.shape.held.Has(Lifecycle) && forall w: Who :: !CanWork(s, w)
  {
    hide Reachable;
    var g, reader := Initial().g.(running := true), Resting(true);
    var rest := Then(Do(JoinReconnect), Then(Teardown(), Then(DropFrames(),
                Then(Do(NoBuilt), Then(InstallDecoder(), Locked(Frame, Skip))))));
    ReachReading();
    OneMore(Alone(Skip, IDLE, g, reader), Starts(Obs, Stop()));
    hide DropFrames, InstallDecoder;
    GoLocked(Cv, Then(Teardown(), rest), IDLE, g, reader);
    var leave, held := Do(Release(Lifecycle)), IDLE.(held := Push(Lifecycle, Nothing));
    var body := Then(Do(SetStopped), Do(JoinReceive));
    GoInto(Do(Acquire(Lifecycle)), Then(body, leave), rest, IDLE, g, reader);
    GoOp(Acquire(Lifecycle), Then(Then(body, leave), rest), IDLE, g, reader);
    GoInto(body, leave, rest, held, g, reader);
    GoInto(Do(SetStopped), Do(JoinReceive), Then(leave, rest), held, g, reader);
    GoOp(SetStopped, Then(Do(JoinReceive), Then(leave, rest)), held, g, reader);
    s := Alone(Then(Do(JoinReceive), Then(leave, rest)), held.(stopping := true), Initial().g, reader);
  }
}
