/** What the handlers do when no other thread interferes: their programs, run step by step, have the
    effect their text describes. */
module LifecycleAlone {
  import opened Common
  import opened Lifecycle
  import opened LifecycleSafety
  import opened LifecycleSilence

  // ---------------------------------------------------------------- running undisturbed

  /** Programs that start no thread and do not end their own. */
  predicate Quiet(p: Prog) {
    match p
    case Skip => true
    case Do(op) => !op.SpawnReceive? && !op.SpawnReconnect? && !op.Finish?
    case Then(a, b) => Quiet(a) && Quiet(b)
    case If(_, a, b) => Quiet(a) && Quiet(b)
  }

  /** The effect of a program on the thread and the shared fields; `pick` settles the free choices. */
  function Effect(who: Who, p: Prog, th: Thread, g: Shared, pick: bool): (Thread, Shared)
    decreases p
  {
    match p
    case Skip => (th, g)
    case Do(op) => (Acted(who, op, th, g, th.todo, pick), SharedPart(op, th, g, pick))
    case Then(a, b) =>
      var (th', g') := Effect(who, a, th, g, pick);
      Effect(who, b, th', g', pick)
    case If(c, a, b) =>
      var answer := Eval(c, th, g, pick);
      Effect(who, if answer then a else b, th.(shape := FlowTest(c, answer, th.shape)), g, pick)
  }

  predicate Joins(p: Prog, op: Op) {
    match p
    case Skip => false
    case Do(x) => x == op
    case Then(a, b) => Joins(a, op) || Joins(b, op)
    case If(_, a, b) => Joins(a, op) || Joins(b, op)
  }

  /** The other threads hold no lock, and those that the program joins have ended. */
  ghost predicate Undisturbed(s: State, who: Who, p: Prog) {
    && s.At(who).alive && Quiet(p)
    && (Joins(p, JoinReceive) ==> !s.receive.alive) && (Joins(p, JoinReconnect) ==> !s.reconnect.alive)
    && forall u: Who :: u != who ==> s.At(u).shape.held == Nothing
  }

  function Put(s: State, who: Who, th: Thread, g: Shared, todo: Prog): State {
    s.With(who, th.(todo := todo)).(g := g)
  }

  lemma PutFacts(s: State, who: Who, th: Thread, g: Shared, todo: Prog)
    ensures var t := Put(s, who, th, g, todo);
            && t.g == g && t.At(who) == th.(todo := todo)
            && forall u: Who :: u != who ==> t.At(u) == s.At(u)
  {
  }

  lemma StillUndisturbed(s: State, t: State, who: Who, p: Prog, q: Prog)
    requires Undisturbed(s, who, p) && t.At(who).alive && forall u: Who :: u != who ==> t.At(u) == s.At(u)
    requires Quiet(q) && (Joins(q, JoinReceive) ==> Joins(p, JoinReceive))
    requires Joins(q, JoinReconnect) ==> Joins(p, JoinReconnect)
    ensures Undisturbed(t, who, q)
  {
    hide Quiet, Joins;
    assert s.receive == s.At(Receive) && s.reconnect == s.At(Reconnect);
    assert t.receive == t.At(Receive) && t.reconnect == t.At(Reconnect);
  }

  lemma OpGoes(s: State, who: Who, op: Op, rest: Prog, pick: bool)
    requires Reachable(s) && Undisturbed(s, who, Do(op))
    requires s.At(who).todo == Then(Do(op), rest) || (s.At(who).todo == Do(op) && rest == Skip)
    ensures var (th, g) := Effect(who, Do(op), s.At(who), s.g, pick);
            Reachable(Put(s, who, th, g, rest)) && th.alive
  {
    OpEnabled(s, who, op);
    hide Reachable, FlowOp, Undisturbed;
    OneMore(s, Works(who, pick));
    assert Work(s, who, pick) == DoOp(s, who, op, rest, pick) == Act(s, who, op, rest, pick);
    OpPuts(s, who, op, rest, pick);
  }

  lemma OpEnabled(s: State, who: Who, op: Op)
    requires Undisturbed(s, who, Do(op))
    ensures Enabled(s, who, op) && s.At(who).alive && Quiet(Do(op))
  {
  }

  lemma OpPuts(s: State, who: Who, op: Op, rest: Prog, pick: bool)
    requires Quiet(Do(op)) && s.At(who).alive
    ensures var (th, g) := Effect(who, Do(op), s.At(who), s.g, pick);
            Act(s, who, op, rest, pick) == Put(s, who, th, g, rest) && th.alive
  {
    hide FlowOp, SharedPart;
  }

  /** A program in front of others, run step by step without interference, has its effect and leaves the
      others to be done. */
  lemma {:induction false} RunsAlone(s: State, who: Who, p: Prog, rest: Prog, pick: bool)
    requires Reachable(s) && Undisturbed(s, who, p) && s.At(who).todo == Then(p, rest)
    ensures var (th, g) := Effect(who, p, s.At(who), s.g, pick);
            Reachable(Put(s, who, th, g, rest)) && th.alive
    decreases p
  {
    hide Reachable, FlowOp, OwnPart, SharedPart, Acted;
    match p {
      case Skip =>
        OneMore(s, Works(who, pick));
      case Do(op) =>
        OpGoes(s, who, op, rest, pick);
      case Then(a, b) =>
        OneMore(s, Works(who, pick));
        var t := s.With(who, s.At(who).(todo := Then(a, Then(b, rest))));
        assert Work(s, who, pick) == t;
        TodoIsKept(who, a, s.At(who), s.g, pick, Then(a, Then(b, rest)));
        StillUndisturbed(s, t, who, p, a);
        RunsAlone(t, who, a, Then(b, rest), pick);
        var (th, g) := Effect(who, a, s.At(who), s.g, pick);
        var u := Put(s, who, th, g, Then(b, rest));
        assert Put(t, who, th, g, Then(b, rest)) == u;
        TodoIsKept(who, b, th, g, pick, Then(b, rest));
        PutFacts(s, who, th, g, Then(b, rest));
        StillUndisturbed(s, u, who, p, b);
        RunsAlone(u, who, b, rest, pick);
      case If(c, a, b) =>
        OneMore(s, Works(who, pick));
        var answer := Eval(c, s.At(who), s.g, pick);
        var th := s.At(who).(shape := FlowTest(c, answer, s.At(who).shape));
        var branch := if answer then a else b;
        var t := s.With(who, th.(todo := Then(branch, rest)));
        assert Work(s, who, pick) == t;
        TodoIsKept(who, branch, th, s.g, pick, Then(branch, rest));
        StillUndisturbed(s, t, who, p, branch);
        RunsAlone(t, who, branch, rest, pick);
    }
  }

  lemma EvalTodo(c: Cond, th: Thread, g: Shared, pick: bool, todo: Prog)
    ensures Eval(c, th.(todo := todo), g, pick) == Eval(c, th, g, pick)
  {
  }

  lemma OpTodo(who: Who, op: Op, th: Thread, g: Shared, pick: bool, todo: Prog)
    requires !op.Finish?
    ensures Acted(who, op, th.(todo := todo), g, todo, pick) == Acted(who, op, th, g, th.todo, pick).(todo := todo)
    ensures SharedPart(op, th.(todo := todo), g, pick) == SharedPart(op, th, g, pick)
  {
    hide FlowOp;
  }

  /** What a thread has yet to do plays no part in the effect of a program. */
  lemma {:induction false} TodoIsKept(who: Who, p: Prog, th: Thread, g: Shared, pick: bool, todo: Prog)
    requires Quiet(p)
    ensures var (x, h) := Effect(who, p, th, g, pick); var (y, k) := Effect(who, p, th.(todo := todo), g, pick);
            h == k && y == x.(todo := todo)
    decreases p
  {
    hide Acted, SharedPart, FlowTest, Eval;
    match p {
      case Skip =>
      case Do(op) => OpTodo(who, op, th, g, pick, todo);
      case Then(a, b) =>
        TodoIsKept(who, a, th, g, pick, todo);
        var (x, h) := Effect(who, a, th, g, pick);
        TodoIsKept(who, b, x, h, pick, todo);
      case If(c, a, b) =>
        var answer := Eval(c, th, g, pick);
        EvalTodo(c, th, g, pick, todo);
        TodoIsKept(who, if answer then a else b, th.(shape := FlowTest(c, answer, th.shape)), g, pick, todo);
    }
  }

  /** A whole handler, run to its end without interference. */
  lemma {:induction false} RunsWhole(s: State, who: Who, p: Prog, pick: bool)
    requires Reachable(s) && Undisturbed(s, who, p) && s.At(who).todo == p
    ensures var (th, g) := Effect(who, p, s.At(who), s.g, pick); Reachable(Put(s, who, th, g, Skip))
    decreases p
  {
    hide Reachable, FlowOp, OwnPart, SharedPart, Acted;
    match p {
      case Skip =>
        assert Put(s, who, s.At(who), s.g, Skip) == s;
      case Do(op) =>
        OpGoes(s, who, op, Skip, pick);
      case Then(a, b) =>
        StillUndisturbed(s, s, who, p, a);
        RunsAlone(s, who, a, b, pick);
        var (th, g) := Effect(who, a, s.At(who), s.g, pick);
        var u := Put(s, who, th, g, b);
        PutFacts(s, who, th, g, b);
        StillUndisturbed(s, u, who, p, b);
        TodoIsKept(who, b, th, g, pick, b);
        RunsWhole(u, who, b, pick);
        assert Put(u, who, Effect(who, b, u.At(who), g, pick).0, Effect(who, b, u.At(who), g, pick).1, Skip)
            == Put(s, who, Effect(who, b, th, g, pick).0, Effect(who, b, th, g, pick).1, Skip);
      case If(c, a, b) =>
        OneMore(s, Works(who, pick));
        var answer := Eval(c, s.At(who), s.g, pick);
        var th := s.At(who).(shape := FlowTest(c, answer, s.At(who).shape));
        var branch := if answer then a else b;
        var t := s.With(who, th.(todo := Then(branch, Skip)));
        assert Work(s, who, pick) == t;
        TodoIsKept(who, branch, th, s.g, pick, Then(branch, Skip));
        StillUndisturbed(s, t, who, p, branch);
        RunsAlone(t, who, branch, Skip, pick);
    }
  }

  // ---------------------------------------------------------------- the meaning of a program

  /** What a thread has in its hands. */
  datatype Hands = Hands(local: Option<nat>, stale: Option<nat>, built: Option<nat>, retired: Option<nat>,
                         call: Option<nat>)

  function HandsOf(th: Thread): Hands {
    Hands(th.local, th.stale, th.built, th.retired, th.call)
  }

  function Holding(v: Hands): Thread {
    Thread(true, Skip, IDLE, v.local, v.stale, v.built, v.retired, v.call)
  }

  /** The effect of a program on these and the shared fields: locks play no part in it. */
  function Meaning(p: Prog, v: Hands, g: Shared, pick: bool): (Hands, Shared)
    decreases p
  {
    match p
    case Skip => (v, g)
    case Do(op) => (HandsOf(OwnPart(op, Holding(v), g, pick)), SharedPart(op, Holding(v), g, pick))
    case Then(a, b) =>
      var (v', g') := Meaning(a, v, g, pick);
      Meaning(b, v', g', pick)
    case If(c, a, b) => Meaning(if Eval(c, Holding(v), g, pick) then a else b, v, g, pick)
  }

  lemma OpMeans(who: Who, op: Op, th: Thread, g: Shared, pick: bool)
    ensures HandsOf(Acted(who, op, th, g, th.todo, pick)) == HandsOf(OwnPart(op, Holding(HandsOf(th)), g, pick))
    ensures SharedPart(op, th, g, pick) == SharedPart(op, Holding(HandsOf(th)), g, pick)
  {
    hide FlowOp;
  }

  lemma TestMeans(c: Cond, th: Thread, g: Shared, pick: bool)
    ensures Eval(c, th, g, pick) == Eval(c, Holding(HandsOf(th)), g, pick)
  {
  }

  lemma {:induction false} EffectMeans(who: Who, p: Prog, th: Thread, g: Shared, pick: bool)
    ensures var (x, h) := Effect(who, p, th, g, pick); (HandsOf(x), h) == Meaning(p, HandsOf(th), g, pick)
    decreases p
  {
    hide Acted, OwnPart, SharedPart, FlowTest, Eval;
    match p {
      case Skip =>
      case Do(op) => OpMeans(who, op, th, g, pick);
      case Then(a, b) =>
        EffectMeans(who, a, th, g, pick);
        var (x, h) := Effect(who, a, th, g, pick);
        EffectMeans(who, b, x, h, pick);
      case If(c, a, b) =>
        TestMeans(c, th, g, pick);
        var answer := Eval(c, th, g, pick);
        EffectMeans(who, if answer then a else b, th.(shape := FlowTest(c, answer, th.shape)), g, pick);
    }
  }

  /** Every handler of every reachable state, run to its end without interference, leaves the thread at rest
      and the shared fields as its meaning says. */
  lemma HandlerMeans(s: State, who: Who, p: Prog, pick: bool) returns (t: State)
    requires Reachable(s) && Undisturbed(s, who, p) && s.At(who).todo == p
    ensures Reachable(t) && t.At(who).todo == Skip && forall u: Who :: u != who ==> t.At(u) == s.At(u)
    ensures (HandsOf(t.At(who)), t.g) == Meaning(p, HandsOf(s.At(who)), s.g, pick)
  {
    hide Reachable, Undisturbed, Meaning;
    RunsWhole(s, who, p, pick);
    EffectMeans(who, p, s.At(who), s.g, pick);
    var (th, g) := Effect(who, p, s.At(who), s.g, pick);
    t := Put(s, who, th, g, Skip);
    PutFacts(s, who, th, g, Skip);
  }

  // ---------------------------------------------------------------- what the handlers do

  lemma MeansThen(a: Prog, b: Prog, v: Hands, g: Shared, pick: bool)
    ensures var (w, h) := Meaning(a, v, g, pick); Meaning(Then(a, b), v, g, pick) == Meaning(b, w, h, pick)
  {
  }

  lemma MeansIf(c: Cond, a: Prog, b: Prog, v: Hands, g: Shared, pick: bool)
    ensures Meaning(If(c, a, b), v, g, pick) == Meaning(if Eval(c, Holding(v), g, pick) then a else b, v, g, pick)
  {
  }

  lemma MeansLocked(l: Lock, p: Prog, v: Hands, g: Shared, pick: bool)
    ensures Meaning(Locked(l, p), v, g, pick) == Meaning(p, v, g, pick)
  {
    hide Meaning;
    LockMeans(Acquire(l), v, g, pick);
    MeansThen(Do(Acquire(l)), Then(p, Do(Release(l))), v, g, pick);
    MeansThen(p, Do(Release(l)), v, g, pick);
    var (w, h) := Meaning(p, v, g, pick);
    LockMeans(Release(l), w, h, pick);
  }

  lemma LockMeans(op: Op, v: Hands, g: Shared, pick: bool)
    requires op.Acquire? || op.Release? || op.JoinReceive?
    ensures Meaning(Do(op), v, g, pick) == (v, g)
  {
  }

  lemma SkipMeans(v: Hands, g: Shared, pick: bool)
    ensures Meaning(Skip, v, g, pick) == (v, g)
  {
  }

  /** Taking a lock only to look or to record. */
  lemma LookMeans(l: Lock, rest: Prog, v: Hands, g: Shared, pick: bool)
    ensures Meaning(Then(Locked(l, Skip), rest), v, g, pick) == Meaning(rest, v, g, pick)
  {
    hide Meaning, Locked;
    MeansLocked(l, Skip, v, g, pick);
    SkipMeans(v, g, pick);
    MeansThen(Locked(l, Skip), rest, v, g, pick);
  }

  /** installDecoder: the new decoder is in place, and the old one destroyed. */
  lemma InstallMeans(v: Hands, g: Shared, pick: bool)
    requires v.retired == None
    ensures Meaning(InstallDecoder(), v, g, pick)
            == (v.(built := None), g.(decoder := v.built, destroyed := Mark(g.destroyed, g.decoder)))
  {
  }

  /** The pending frame is taken out and released. */
  lemma DropPendingMeans(v: Hands, g: Shared, pick: bool)
    ensures Meaning(DropPending(), v, g, pick)
            == (v.(local := None), g.(pending := None, released := Mark(g.released, g.pending)))
  {
  }

  /** stop takes out and releases both frames. */
  lemma DropFramesMeans(v: Hands, g: Shared, pick: bool)
    ensures Meaning(DropFrames(), v, g, pick)
            == (v.(local := None, stale := None),
                g.(pending := None, drawn := None, released := Mark(Mark(g.released, g.pending), g.drawn)))
  {
  }

  lemma TeardownMeans(v: Hands, g: Shared, pick: bool)
    ensures Meaning(Teardown(), v, g, pick) == (v, g.(running := false))
  {
  }

  /** A stop that is not interfered with, its threads having ended: nothing runs, no frame and no decoder is
      left, and what there was has been released or destroyed. */
  lemma StopMeans(v: Hands, g: Shared, pick: bool)
    requires v.retired == None
    ensures Meaning(Stop(), v, g, pick)
            == (v.(local := None, stale := None, built := None),
                g.(running := false, joined := true, pending := None, drawn := None, decoder := None,
                   released := Mark(Mark(g.released, g.pending), g.drawn),
                   destroyed := Mark(g.destroyed, g.decoder)))
  {
    hide Meaning, Teardown, DropFrames, InstallDecoder, Mark, Locked;
    var last := Locked(Frame, Skip);
    var p6 := Then(InstallDecoder(), last);
    var p5 := Then(Do(NoBuilt), p6);
    var p4 := Then(DropFrames(), p5);
    var p3 := Then(Teardown(), p4);
    var p2 := Then(Do(JoinReconnect), p3);
    LookMeans(Cv, Then(Teardown(), p2), v, g, pick);
    MeansThen(Teardown(), p2, v, g, pick);
    TeardownMeans(v, g, pick);
    var g2 := g.(running := false, joined := true);
    MeansThen(Do(JoinReconnect), p3, v, g.(running := false), pick);
    JoinMeans(v, g.(running := false), pick);
    MeansThen(Teardown(), p4, v, g2, pick);
    TeardownMeans(v, g2, pick);
    MeansThen(DropFrames(), p5, v, g2, pick);
    DropFramesMeans(v, g2, pick);
    var w := v.(local := None, stale := None);
    var g3 := g2.(pending := None, drawn := None, released := Mark(Mark(g.released, g.pending), g.drawn));
    MeansThen(Do(NoBuilt), p6, w, g3, pick);
    NoBuiltMeans(w, g3, pick);
    MeansThen(InstallDecoder(), last, w.(built := None), g3, pick);
    InstallMeans(w.(built := None), g3, pick);
    MeansLocked(Frame, Skip, w.(built := None), g3.(decoder := None, destroyed := Mark(g.destroyed, g.decoder)), pick);
    SkipMeans(w.(built := None), g3.(decoder := None, destroyed := Mark(g.destroyed, g.decoder)), pick);
  }

  /** So a stop whose threads have ended and whom nobody interferes with reaches its end, and then no frame
      and no decoder is left: each has been released or destroyed. */
  lemma StopUndisturbed(s: State) returns (t: State)
    requires Reachable(s) && s.obs == Resting(true).(todo := Stop()) && !s.receive.alive && !s.reconnect.alive
    requires s.render.shape.held == Nothing && s.receive.shape.held == Nothing && s.reconnect.shape.held == Nothing
    ensures Reachable(t) && t.obs.todo == Skip && t.render == s.render
    ensures !t.g.running && t.g.pending == None && t.g.drawn == None && t.g.decoder == None
    ensures t.g.released == Mark(Mark(s.g.released, s.g.pending), s.g.drawn)
    ensures t.g.destroyed == Mark(s.g.destroyed, s.g.decoder)
  {
    StopIsQuiet();
    hide Reachable, Meaning, Stop, Mark;
    assert Undisturbed(s, Obs, Stop());
    t := HandlerMeans(s, Obs, Stop(), true);
    StopMeans(HandsOf(s.obs), s.g, true);
    assert t.render == t.At(Render);
  }

  lemma QuietLocked(l: Lock, p: Prog)
    requires Quiet(p)
    ensures Quiet(Locked(l, p))
  {
  }

  lemma QuietThen(a: Prog, b: Prog)
    requires Quiet(a) && Quiet(b)
    ensures Quiet(Then(a, b))
  {
  }

  lemma QuietParts()
    ensures Quiet(Teardown()) && Quiet(InstallDecoder()) && Quiet(DropFrames())
  {
    hide Locked;
    QuietLocked(Lifecycle, Then(Do(SetStopped), Do(JoinReceive)));
    QuietLocked(Decoder, Do(Swap));
    QuietLocked(Graphics, Do(Destroy));
    QuietLocked(Frame, Then(Do(TakePending), Do(TakeDrawn)));
    QuietLocked(Graphics, Do(FreeLocal));
    QuietLocked(Graphics, Do(FreeStale));
  }

  lemma StopIsQuiet()
    ensures Quiet(Stop())
  {
    QuietParts();
    QuietLocked(Cv, Skip);
    QuietLocked(Frame, Skip);
    assert Quiet(Do(NoBuilt)) && Quiet(Do(JoinReconnect));
    hide Quiet, Teardown, DropFrames, InstallDecoder, Locked;
    var p6 := Then(InstallDecoder(), Locked(Frame, Skip));
    QuietThen(InstallDecoder(), Locked(Frame, Skip));
    QuietThen(Do(NoBuilt), p6);
    QuietThen(DropFrames(), Then(Do(NoBuilt), p6));
    var p3 := Then(Teardown(), Then(DropFrames(), Then(Do(NoBuilt), p6)));
    QuietThen(Teardown(), Then(DropFrames(), Then(Do(NoBuilt), p6)));
    QuietThen(Do(JoinReconnect), p3);
    QuietThen(Teardown(), Then(Do(JoinReconnect), p3));
    QuietThen(Locked(Cv, Skip), Then(Teardown(), Then(Do(JoinReconnect), p3)));
  }

  lemma JoinMeans(v: Hands, g: Shared, pick: bool)
    ensures Meaning(Do(JoinReconnect), v, g, pick) == (v, g.(joined := true))
  {
  }

  lemma NoBuiltMeans(v: Hands, g: Shared, pick: bool)
    ensures Meaning(Do(NoBuilt), v, g, pick) == (v.(built := None), g)
  {
  }

  /** outputVideo: the frame waits to be drawn, and the one it displaces is released. */
  lemma OutputMeans(v: Hands, g: Shared, pick: bool)
    requires v.local.Some?
    ensures Meaning(OutputVideo(), v, g, pick)
            == (v.(local := None, stale := None), g.(pending := v.local, released := Mark(g.released, g.pending)))
  {
  }

  /** Drawing a pending frame: imported, it replaces the picture on screen, which is released; otherwise it
      is released itself. */
  lemma ImportMeans(v: Hands, g: Shared, pick: bool)
    ensures Meaning(ImportPending(), v, g, pick).1
            == if pick then g.(drawn := g.pending, pending := None, released := Mark(g.released, g.drawn))
               else g.(pending := None, released := Mark(g.released, g.pending))
  {
    var call := Locked(Decoder, Then(Do(BeginUse), Do(EndUse)));
    var good := Then(Do(Promote), If(HasStale, Do(FreeStale), Skip));
    var bad := Then(Do(TakePending), Then(If(HasLocal, Do(FreeLocal), Skip), Locked(Decoder, Skip)));
    UseMeans(v, g, pick);
    var w := v.(call := None);
    PromoteMeans(w, g, pick);
    DiscardMeans(w, g, pick);
    hide Meaning, Mark;
    MeansThen(call, If(Any, good, bad), v, g, pick);
    MeansLocked(Decoder, Then(Do(BeginUse), Do(EndUse)), v, g, pick);
    MeansIf(Any, good, bad, w, g, pick);
  }

  lemma UseMeans(v: Hands, g: Shared, pick: bool)
    ensures Meaning(Then(Do(BeginUse), Do(EndUse)), v, g, pick) == (v.(call := None), g)
  {
  }

  lemma PromoteMeans(v: Hands, g: Shared, pick: bool)
    ensures Meaning(Then(Do(Promote), If(HasStale, Do(FreeStale), Skip)), v, g, pick).1
            == g.(drawn := g.pending, pending := None, released := Mark(g.released, g.drawn))
  {
  }

  lemma DiscardMeans(v: Hands, g: Shared, pick: bool)
    ensures Meaning(Then(Do(TakePending), Then(If(HasLocal, Do(FreeLocal), Skip), Locked(Decoder, Skip))), v, g, pick).1
            == g.(pending := None, released := Mark(g.released, g.pending))
  {
  }

  /** createDecoder keeps a new decoder, when one can be created. */
  lemma CreateMeans(v: Hands, g: Shared, pick: bool)
    ensures Meaning(CreateDecoder(), v, g, pick)
            == (v.(built := if pick then Some(g.decoders) else None),
                g.(decoders := g.decoders + (if pick then 1 else 0)))
  {
  }

  /** The rebuild of onMeta and onVideoData: the pending frame is dropped, and the old decoder makes room for
      a new one, or for none when the source has been stopped. */
  lemma RebuildMeans(v: Hands, g: Shared, pick: bool)
    requires v.retired == None
    ensures Meaning(Rebuild(), v, g, pick).1
            == g.(pending := None, released := Mark(g.released, g.pending),
                  decoder := if g.running && pick then Some(g.decoders) else None,
                  decoders := g.decoders + (if g.running && pick then 1 else 0),
                  destroyed := Mark(g.destroyed, g.decoder))
  {
    hide Meaning, DropPending, CreateDecoder, InstallDecoder, Mark, Locked;
    var make := If(Running, CreateDecoder(), Do(NoBuilt));
    var install := Then(Locked(Decoder, Skip), InstallDecoder());
    DropPendingMeans(v, g, pick);
    MeansThen(DropPending(), Then(make, install), v, g, pick);
    var w, g1 := v.(local := None), g.(pending := None, released := Mark(g.released, g.pending));
    MeansThen(make, install, w, g1, pick);
    MakeMeans(w, g1, pick);
    var made := g1.running && pick;
    var x, g2 := w.(built := if made then Some(g.decoders) else None),
                 g1.(decoders := g.decoders + (if made then 1 else 0));
    LookMeans(Decoder, InstallDecoder(), x, g2, pick);
    InstallMeans(x, g2, pick);
  }

  lemma MakeMeans(v: Hands, g: Shared, pick: bool)
    ensures var made := g.running && pick;
            Meaning(If(Running, CreateDecoder(), Do(NoBuilt)), v, g, pick)
            == (v.(built := if made then Some(g.decoders) else None),
                g.(decoders := g.decoders + (if made then 1 else 0)))
  {
    hide Meaning, CreateDecoder;
    MeansIf(Running, CreateDecoder(), Do(NoBuilt), v, g, pick);
    CreateMeans(v, g, pick);
    NoBuiltMeans(v, g, pick);
  }

  /** After a failed import: the old decoder makes room for a new one, or for none. */
  lemma FallbackMeans(v: Hands, g: Shared, pick: bool)
    requires v.retired == None
    ensures Meaning(Fallback(), v, g, pick).1
            == g.(decoder := if g.running && pick then Some(g.decoders) else None,
                  decoders := g.decoders + (if g.running && pick then 1 else 0),
                  destroyed := Mark(g.destroyed, g.decoder))
  {
    hide Meaning, CreateDecoder, InstallDecoder, Mark, Locked;
    var make := Then(Locked(Decoder, Skip), CreateDecoder());
    var choose := If(Running, make, Do(NoBuilt));
    LookMeans(Decoder, Then(choose, InstallDecoder()), v, g, pick);
    MeansThen(choose, InstallDecoder(), v, g, pick);
    MeansIf(Running, make, Do(NoBuilt), v, g, pick);
    LookMeans(Decoder, CreateDecoder(), v, g, pick);
    CreateMeans(v, g, pick);
    NoBuiltMeans(v, g, pick);
    var made := g.running && pick;
    InstallMeans(v.(built := if made then Some(g.decoders) else None),
                 g.(decoders := g.decoders + (if made then 1 else 0)), pick);
  }

  /** A decode hands over the next frame where there is a decoder that yields one. */
  lemma DecodeMeans(v: Hands, g: Shared, pick: bool)
    ensures var got := pick && g.decoder.Some?;
            Meaning(DecodeCall(), v, g, pick)
            == (v.(call := None, local := if got then Some(g.frames) else None),
                g.(frames := g.frames + (if got then 1 else 0)))
  {
  }

  /** With nothing pending, drawing leaves everything as it is, unless a CPU frame takes over: then the picture
      on screen is released. */
  lemma NothingPending(v: Hands, g: Shared, pick: bool)
    requires g.pending == None
    ensures Meaning(If(HasPending, ImportPending(),
                       If(Any, Then(Do(TakeDrawn), If(HasStale, Do(FreeStale), Skip)), Skip)), v, g, pick).1
            == if pick then g.(drawn := None, released := Mark(g.released, g.drawn)) else g
  {
    hide ImportPending;
  }

  /** An access unit of a running source, its decoder rebuilt and yielding a frame: the frame waits to be drawn,
      and what was pending, and the old decoder, are gone. */
  lemma VideoMeans(v: Hands, g: Shared, windows: bool)
    requires g.running && v.retired == None
    ensures Meaning(OnVideoData(windows), v, g, true).1
            == g.(pending := Some(g.frames), frames := g.frames + 1, released := Mark(g.released, g.pending),
                  decoder := Some(g.decoders), decoders := g.decoders + 1, destroyed := Mark(g.destroyed, g.decoder))
  {
    hide Meaning, Rebuild, DecodeCall, OutputVideo, Mark, Locked;
    RebuildHands(v, g);
    RebuildMeans(v, g, true);
    var (w, g1) := Meaning(Rebuild(), v, g, true);
    var tail := Then(if windows then Locked(Graphics, DecodeCall()) else DecodeCall(), OutputVideo());
    var body := Then(Locked(Decoder, Skip), Then(If(Any, Rebuild(), Skip), tail));
    MeansIf(Running, If(Any, body, Skip), Skip, v, g, true);
    MeansIf(Any, body, Skip, v, g, true);
    LookMeans(Decoder, Then(If(Any, Rebuild(), Skip), tail), v, g, true);
    MeansThen(If(Any, Rebuild(), Skip), tail, v, g, true);
    MeansIf(Any, Rebuild(), Skip, v, g, true);
    DecodedMeans(w, g1, windows);
    NoneMarked(g1.released);
  }

  /** Decoding and handing over. */
  lemma DecodedMeans(v: Hands, g: Shared, windows: bool)
    requires g.decoder.Some?
    ensures var tail := Then(if windows then Locked(Graphics, DecodeCall()) else DecodeCall(), OutputVideo());
            Meaning(tail, v, g, true).1
            == g.(pending := Some(g.frames), frames := g.frames + 1, released := Mark(g.released, g.pending))
  {
    hide Meaning, DecodeCall, OutputVideo, Mark, Locked;
    var decode := if windows then Locked(Graphics, DecodeCall()) else DecodeCall();
    MeansThen(decode, OutputVideo(), v, g, true);
    MeansLocked(Graphics, DecodeCall(), v, g, true);
    DecodeMeans(v, g, true);
    OutputMeans(v.(call := None, local := Some(g.frames)), g.(frames := g.frames + 1), true);
  }

  lemma NoneMarked(m: multiset<nat>)
    ensures Mark(m, None) == m
  {
  }

  lemma RebuildHands(v: Hands, g: Shared)
    requires g.running && v.retired == None
    ensures Meaning(Rebuild(), v, g, true).0 == v.(local := None, built := None)
  {
    hide Meaning, DropPending, CreateDecoder, InstallDecoder, Mark, Locked;
    var make := If(Running, CreateDecoder(), Do(NoBuilt));
    var install := Then(Locked(Decoder, Skip), InstallDecoder());
    DropPendingMeans(v, g, true);
    MeansThen(DropPending(), Then(make, install), v, g, true);
    var w, g1 := v.(local := None), g.(pending := None, released := Mark(g.released, g.pending));
    MeansThen(make, install, w, g1, true);
    MakeMeans(w, g1, true);
    var x, g2 := w.(built := Some(g.decoders)), g1.(decoders := g.decoders + 1);
    LookMeans(Decoder, InstallDecoder(), x, g2, true);
    InstallMeans(x, g2, true);
  }

  /** A stopped source ignores video, disconnects, and the end of a wait to reconnect. */
  lemma StoppedIgnores(v: Hands, g: Shared, pick: bool, windows: bool)
    requires !g.running
    ensures Meaning(OnVideoData(windows), v, g, pick) == (v, g)
    ensures Meaning(OnDisconnected(), v, g, pick) == (v, g)
    ensures Meaning(ReconnectThread(), v, g, pick) == (v, g.(joined := true))
  {
  }

  /** A disconnect of a running source starts the reconnect thread, unless one is at work. */
  lemma DisconnectStarts(s: State, who: Who, choice: bool)
    requires s.At(who).alive && s.At(who).todo == OnDisconnected() && s.g.running && who != Reconnect
    ensures var t := Work(s, who, choice);
            && NextOp(t.At(who)) == Some(SpawnReconnect) && t.g == s.g && t.reconnect == s.reconnect
            && var u := Work(t, who, choice);
               if s.g.joined then u.reconnect == Resting(true).(todo := ReconnectThread()) && !u.g.joined
               else u.reconnect == s.reconnect && u.g == s.g
  {
    hide FlowOp;
  }
}
