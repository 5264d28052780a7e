/** No cycle of waiting threads, and progress behind every wait. */
module LifecycleDeadlock {
  import opened Common
  import opened Lifecycle
  import opened LifecycleSafety

  /** Thread t cannot go on before thread u has given up a lock or ended. */
  ghost predicate Waits(s: State, t: Who, u: Who) {
    s.At(t).alive && NextOp(s.At(t)).Some? &&
    match NextOp(s.At(t)).value
    case Acquire(l) => u != t && s.At(u).shape.held.Has(l)
    case JoinReceive => u == Receive && s.receive.alive
    case JoinReconnect => u == Reconnect && s.reconnect.alive
    case _ => false
  }

  /** Where a waiting thread stands in the order. */
  ghost function Level(s: State, t: Who): nat {
    match NextOp(s.At(t))
    case Some(Acquire(l)) => l.Rank()
    case Some(JoinReceive) => 3
    case Some(JoinReconnect) => 1
    case _ => 0
  }

  lemma {:induction false} BelowRank(h: Held, l: Lock, x: Lock)
    requires h.Below(l) && h.Has(x)
    ensures x.Rank() < l.Rank() || (x == Graphics && l == Graphics)
  {
    if h.top != x {
      BelowRank(h.below, l, x);
    }
  }

  /** The rules say of a thread about to wait what it may hold and who it may be. */
  lemma NextObeys(s: State, t: Who)
    requires Inv(s) && NextOp(s.At(t)).Some?
    ensures FlowOp(t, NextOp(s.At(t)).value, s.At(t).shape).Some?
  {
    assert Typed(t, s.At(t));
    hide FlowOp, AllCalls, Mutex, AllOrdered, Threads, Census;
    match s.At(t).todo {
      case Then(a, rest) => FlowUnfolds(t, a, rest, s.At(t).shape);
      case _ =>
    }
  }

  lemma WaitFacts(who: Who, op: Op, sh: Shape)
    requires FlowOp(who, op, sh).Some?
    ensures op.Acquire? ==> sh.held.Below(op.l) && !(who == Receive && op.l == Lifecycle)
    ensures op.JoinReceive? ==> who != Receive && sh.held == Push(Lifecycle, Nothing)
    ensures op.JoinReconnect? ==> who == Obs && sh.held == Nothing
  {
  }

  /** Along a chain of waits the order strictly climbs. */
  lemma WaitsClimb(s: State, t: Who, u: Who, v: Who)
    requires Inv(s) && Waits(s, t, u) && Waits(s, u, v)
    ensures Level(s, t) < Level(s, u)
  {
    NextObeys(s, t);
    NextObeys(s, u);
    var x, y := NextOp(s.At(t)).value, NextOp(s.At(u)).value;
    WaitFacts(t, x, s.At(t).shape);
    WaitFacts(u, y, s.At(u).shape);
    if x.Acquire? && y.Acquire? {
      BelowRank(s.At(u).shape.held, y.l, x.l);
    }
    hide FlowOp, AllThreads, AllCalls, AllOrdered, Threads, Census, NextOp;
  }

  ghost predicate WaitChain(s: State, c: seq<Who>) {
    c != [] && forall i :: 0 <= i < |c| - 1 ==> Waits(s, c[i], c[i + 1])
  }

  lemma {:induction false} ChainClimbs(s: State, c: seq<Who>, i: nat)
    requires Inv(s) && WaitChain(s, c) && i < |c| - 1
    ensures Level(s, c[i]) >= Level(s, c[0]) + i
  {
    hide Inv, Waits, Level;
    if i > 0 {
      ChainClimbs(s, c, i - 1);
      WaitsClimb(s, c[i - 1], c[i], c[i + 1]);
    }
  }

  /** No reachable state has a cycle of waiting threads. */
  lemma NoWaitCycle(s: State, c: seq<Who>)
    requires Reachable(s) && WaitChain(s, c) && |c| >= 2
    ensures c[0] != c[|c| - 1]
  {
    ReachableInv(s);
    hide Inv, Reachable, Waits, Level;
    var n := |c| - 1;
    ChainClimbs(s, c, n - 1);
    if c[0] == c[n] {
      WaitsClimb(s, c[n - 1], c[0], c[1]);
    }
  }

  /** In every reachable state a thread about to take a lock holds only locks that come before it
      in the documented order (graphics may be entered again), and the receive thread, which is
      joined under lifecycleMutex_, is never about to take that one. */
  lemma AcquiresInOrder(s: State, who: Who, l: Lock, x: Lock)
    requires Reachable(s) && NextOp(s.At(who)) == Some(Acquire(l))
    ensures s.At(who).shape.held.Has(x) ==> x.Rank() < l.Rank() || (x == Graphics && l == Graphics)
    ensures who == Receive ==> l != Lifecycle
  {
    ReachableInv(s);
    NextObeys(s, who);
    WaitFacts(who, Acquire(l), s.At(who).shape);
    hide Inv, FlowOp, Reachable;
    if s.At(who).shape.held.Has(x) {
      BelowRank(s.At(who).shape.held, l, x);
    }
  }

  /** The lock that guards an operation on shared fields or graphics resources. */
  function Guard(op: Op): Option<Lock> {
    match op
    case TakePending => Some(Frame)
    case TakeDrawn => Some(Frame)
    case PutPending => Some(Frame)
    case Promote => Some(Frame)
    case FreeLocal => Some(Graphics)
    case FreeStale => Some(Graphics)
    case Create => Some(Graphics)
    case Destroy => Some(Graphics)
    case Swap => Some(Decoder)
    case BeginUse => Some(Decoder)
    case SetRunning => Some(Lifecycle)
    case SetStopped => Some(Lifecycle)
    case SpawnReceive => Some(Lifecycle)
    case JoinReceive => Some(Lifecycle)
    case _ => None
  }

  lemma GuardFacts(who: Who, op: Op, sh: Shape)
    requires FlowOp(who, op, sh).Some? && Guard(op).Some?
    ensures sh.held.Has(Guard(op).value)
  {
  }

  /** No race on pending_, drawn_, decoder_, the graphics device or the writes of running_: a thread
      about to touch one of them, or to write running_, holds its lock, and no other thread does. */
  lemma AccessIsExclusive(s: State, who: Who, op: Op, other: Who)
    requires Reachable(s) && NextOp(s.At(who)) == Some(op) && Guard(op).Some?
    ensures s.At(who).shape.held.Has(Guard(op).value)
    ensures other != who ==> !s.At(other).shape.held.Has(Guard(op).value)
  {
    ReachableInv(s);
    NextObeys(s, who);
    GuardFacts(who, op, s.At(who).shape);
    hide FlowOp, AllThreads, AllCalls, AllOrdered, Threads, Census, NextOp, Guard;
  }

  // ---------------------------------------------------------------- progress

  predicate EndsInFinish(p: Prog) {
    match p
    case Do(op) => op == Finish
    case Then(_, rest) => EndsInFinish(rest)
    case _ => false
  }

  ghost predicate Finishing(s: State) {
    s.reconnect.alive ==> EndsInFinish(s.reconnect.todo)
  }

  lemma OpKeepsFinishing(s: State, who: Who, op: Op, next: Prog, choice: bool)
    requires Finishing(s)
    requires who == Reconnect && s.reconnect.alive && op != Finish ==> EndsInFinish(next)
    ensures Finishing(DoOp(s, who, op, next, choice))
  {
    OpShared(op, s.At(who), s.g, choice);
    hide FlowOp, Act, SharedPart, OwnPart;
    var t := Act(s, who, op, next, choice);
    assert t.reconnect == t.At(Reconnect);
  }

  lemma WorkKeepsFinishing(s: State, who: Who, choice: bool)
    requires Finishing(s)
    ensures Finishing(Work(s, who, choice))
  {
    match s.At(who).todo {
      case Do(op) => OpKeepsFinishing(s, who, op, Skip, choice);
      case Then(Do(op), rest) => OpKeepsFinishing(s, who, op, rest, choice);
      case Then(If(c, a, b), rest) =>
        hide Eval, FlowTest;
        assert Work(s, who, choice) == Branch(s, who, c, a, b, rest, choice);
      case Then(Then(a, b), rest) =>
        assert EndsInFinish(Then(a, Then(b, rest))) == EndsInFinish(Then(b, rest)) == EndsInFinish(rest);
      case _ =>
    }
  }

  lemma StepKeepsFinishing(s: State, e: Event)
    requires Finishing(s) && Possible(s, e)
    ensures Finishing(Step(s, e))
  {
    match e {
      case Works(who, choice) =>
        hide Work;
        WorkKeepsFinishing(s, who, choice);
      case _ =>
    }
  }

  lemma {:induction false} RunKeepsFinishing(events: seq<Event>, states: seq<State>, i: nat)
    requires IsRun(events, states) && i < |states|
    ensures Finishing(states[i])
  {
    if i > 0 {
      RunKeepsFinishing(events, states, i - 1);
      hide Possible, Step, Finishing;
      StepKeepsFinishing(states[i - 1], events[i - 1]);
    }
  }

  /** Where a chain of waits ends: at a thread that can work on, or at the receive thread in its read
      of the pipe. */
  ghost predicate EndsChain(s: State, u: Who) {
    CanWork(s, u) || (u == Receive && Reading(s))
  }

  lemma HolderHasWork(s: State, u: Who, l: Lock)
    requires Inv(s) && s.At(u).shape.held.Has(l)
    ensures s.At(u).alive && s.At(u).todo != Skip
  {
    assert Typed(u, s.At(u));
    assert s.At(u).todo == Skip ==> Flow(u, Skip, s.At(u).shape) == Some(s.At(u).shape);
    hide AllCalls, Mutex, AllOrdered, Threads, Census;
  }

  /** A thread that is waited for either waits in turn or ends the chain. */
  lemma WaitedFor(s: State, t: Who, u: Who)
    requires Inv(s) && Finishing(s) && Waits(s, t, u)
    ensures EndsChain(s, u) || exists v: Who :: Waits(s, u, v)
  {
    if NextOp(s.At(t)).value.Acquire? {
      HolderHasWork(s, u, NextOp(s.At(t)).value.l);
    }
    hide AllThreads, AllCalls, Mutex, AllOrdered, Threads, Census;
    if s.At(u).todo != Skip && !CanWork(s, u) {
      var op := NextOp(s.At(u)).value;
      if op.Acquire? {
        var v: Who :| v != u && s.At(v).shape.held.Has(op.l);
        assert Waits(s, u, v);
      } else if op.JoinReceive? {
        assert Waits(s, u, Receive);
      } else {
        assert Waits(s, u, Reconnect);
      }
    }
  }

  lemma {:induction false} Unblocker(s: State, t: Who, u: Who) returns (c: seq<Who>)
    requires Inv(s) && Finishing(s) && Waits(s, t, u)
    ensures WaitChain(s, c) && |c| >= 2 && c[0] == t && EndsChain(s, c[|c| - 1])
    decreases 8 - Level(s, t)
  {
    WaitedFor(s, t, u);
    if EndsChain(s, u) {
      c := [t, u];
    } else {
      var v: Who :| Waits(s, u, v);
      WaitsClimb(s, t, u, v);
      hide Inv, Finishing, Waits, EndsChain;
      var rest := Unblocker(s, u, v);
      c := [t] + rest;
    }
  }

  /** Who waits for a reading receive thread is joining it. */
  lemma ReadingIsJoined(s: State, t: Who)
    requires Inv(s) && Waits(s, t, Receive) && Reading(s)
    ensures NextOp(s.At(t)) == Some(JoinReceive) && s.At(t).shape.held == Push(Lifecycle, Nothing)
  {
    var op := NextOp(s.At(t)).value;
    if op.Acquire? {
      HolderHasWork(s, Receive, op.l);
    }
    NextObeys(s, t);
    WaitFacts(t, op, s.At(t).shape);
    hide Inv, FlowOp, NextOp;
  }

  /** Behind every thread that waits in a reachable state there is a chain of waits that ends in a
      thread able to work, or in the receive thread waiting for pipe input; in that case the last
      waiting thread is joining it under lifecycleMutex_. So the source never blocks itself: where
      nothing can work, the pipe is silent. */
  lemma BehindEveryWait(s: State, t: Who, u: Who) returns (c: seq<Who>)
    requires Reachable(s) && Waits(s, t, u)
    ensures WaitChain(s, c) && |c| >= 2 && c[0] == t
    ensures var last := c[|c| - 1];
            CanWork(s, last) || (last == Receive && Reading(s) && NextOp(s.At(c[|c| - 2])) == Some(JoinReceive))
  {
    ReachableInv(s);
    var events, states :| IsRun(events, states) && s == states[|events|];
    RunKeepsFinishing(events, states, |events|);
    hide Inv, Finishing, Waits, IsRun, NextOp, CanWork;
    c := Unblocker(s, t, u);
    var n := |c| - 1;
    if !CanWork(s, c[n]) {
      assert Waits(s, c[n - 1], c[n]);
      ReadingIsJoined(s, c[n - 1]);
    }
  }
}
