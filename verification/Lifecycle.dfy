/** The threads of src/zc_source.cpp that share decoders and frames, as small-step programs:
    the receive thread, the graphics thread, the reconnect thread and the OBS thread. Every lock
    acquisition, join, hand-over of a frame or decoder, and both ends of every call into a decoder
    is a step of its own, and the threads interleave freely between steps. Decisions that depend
    on foreign calls or on data outside this model are free choices. */
module Lifecycle {
  import opened Common

  // ---------------------------------------------------------------- programs

  datatype Lock = Lifecycle | Graphics | Frame | Decoder | Cv {
    /** The documented order; cvMutex_ is a leaf. Joining the reconnect thread ranks 1, joining
        the receive thread 3. */
    function Rank(): nat {
      match this
      case Lifecycle => 2
      case Graphics => 4
      case Frame => 5
      case Decoder => 6
      case Cv => 7
    }
  }

  datatype Who = Receive | Render | Reconnect | Obs

  datatype Op =
    | Acquire(l: Lock) | Release(l: Lock)
    | TakePending      // local := pending_, pending_ := none
    | TakeDrawn        // stale := drawn_, drawn_ := none
    | PutPending       // stale := pending_, pending_ := local
    | Promote          // stale := drawn_, drawn_ := pending_, pending_ := none
    | FreeLocal | FreeStale
    | Create           // built := a new decoder, or none when creation fails
    | NoBuilt          // built := none
    | Swap             // retired := decoder_, decoder_ := built
    | Destroy          // destroys retired
    | BeginUse         // a call into decoder_, when there is one
    | EndUse           // import or set_video_params returns
    | EndDecode        // decode returns, with or without a hardware frame
    | SetRunning | SetStopped
    | SpawnReceive | JoinReceive
    | SpawnReconnect | JoinReconnect
    | Finish           // the reconnect thread publishes reconnectJoined_ and ends

  datatype Cond = Any | Running | HasPending | HasLocal | HasStale | HasRetired

  datatype Prog =
    | Skip
    | Do(op: Op)
    | Then(first: Prog, rest: Prog)
    | If(cond: Cond, yes: Prog, no: Prog)

  function Locked(l: Lock, p: Prog): Prog {
    Then(Do(Acquire(l)), Then(p, Do(Release(l))))
  }

  // ---------------------------------------------------------------- the handlers

  /** Take the undrawn frame out of its slot and release it in the graphics context. */
  function DropPending(): Prog {
    Then(Locked(Frame, Do(TakePending)), If(HasLocal, Locked(Graphics, Do(FreeLocal)), Skip))
  }

  function CreateDecoder(): Prog {
    Then(Locked(Decoder, Skip), Then(Locked(Graphics, Do(Create)), Locked(Decoder, Skip)))
  }

  function InstallDecoder(): Prog {
    Then(Locked(Decoder, Do(Swap)), If(HasRetired, Locked(Graphics, Do(Destroy)), Skip))
  }

  /** The teardown sequence shared by onMeta and onVideoData. */
  function Rebuild(): Prog {
    Then(DropPending(),
    Then(If(Running, CreateDecoder(), Do(NoBuilt)),
    Then(Locked(Decoder, Skip), InstallDecoder())))
  }

  function OnMeta(): Prog {
    Then(Locked(Decoder, Skip),
    Then(If(Any, Rebuild(), Skip),
         Locked(Decoder, Then(Do(BeginUse), Do(EndUse)))))
  }

  function DecodeCall(): Prog {
    Locked(Decoder, Then(Do(BeginUse), Do(EndDecode)))
  }

  function OutputVideo(): Prog {
    If(HasLocal,
       Then(Locked(Frame, Do(PutPending)), If(HasStale, Locked(Graphics, Do(FreeStale)), Skip)),
       If(Any, Locked(Frame, Skip), Skip))
  }

  /** On Windows decode runs inside the graphics context. */
  function OnVideoData(windows: bool): Prog {
    If(Running,
       If(Any,
          Then(Locked(Decoder, Skip),
          Then(If(Any, Rebuild(), Skip),
          Then(if windows then Locked(Graphics, DecodeCall()) else DecodeCall(),
               OutputVideo()))),
          Skip),
       Skip)
  }

  function OnDisconnected(): Prog {
    If(Running, Do(SpawnReconnect), Skip)
  }

  /** Import the undrawn frame: on success it becomes the picture on screen, on failure it is
      dropped. */
  function ImportPending(): Prog {
    Then(Locked(Decoder, Then(Do(BeginUse), Do(EndUse))),
    If(Any,
       Then(Do(Promote), If(HasStale, Do(FreeStale), Skip)),
       Then(Do(TakePending), Then(If(HasLocal, Do(FreeLocal), Skip), Locked(Decoder, Skip)))))
  }

  function Fallback(): Prog {
    Then(Locked(Decoder, Skip),
    Then(If(Running, Then(Locked(Decoder, Skip), CreateDecoder()), Do(NoBuilt)),
         InstallDecoder()))
  }

  /** video_render is called by OBS inside the graphics context. */
  function VideoRender(): Prog {
    Locked(Graphics,
      Then(If(Any, OnDisconnected(), Skip),
      Then(Locked(Frame,
             If(HasPending, ImportPending(),
                If(Any, Then(Do(TakeDrawn), If(HasStale, Do(FreeStale), Skip)), Skip))),
           If(Any, Fallback(), Skip))))
  }

  function Teardown(): Prog {
    Locked(Lifecycle, Then(Do(SetStopped), Do(JoinReceive)))
  }

  function StartBody(): Prog {
    Then(Do(NoBuilt), Then(InstallDecoder(), Then(Locked(Decoder, Skip),
    Then(Locked(Cv, Skip), Then(Do(SetRunning), Do(SpawnReceive))))))
  }

  function Start(): Prog {
    Locked(Lifecycle, If(Any, Skip, If(Running, Skip, StartBody())))
  }

  function ReconnectNow(): Prog {
    Then(Teardown(), If(Any, Skip, Then(DropPending(), Start())))
  }

  function ReconnectThread(): Prog {
    Then(If(Running, Then(Locked(Cv, Skip), If(Any, Skip, ReconnectNow())), Skip),
    Then(Locked(Cv, Skip), Do(Finish)))
  }

  function DropFrames(): Prog {
    Then(Locked(Frame, Then(Do(TakePending), Do(TakeDrawn))),
    Then(If(HasLocal, Locked(Graphics, Do(FreeLocal)), Skip),
         If(HasStale, Locked(Graphics, Do(FreeStale)), Skip)))
  }

  function Stop(): Prog {
    Then(Locked(Cv, Skip), Then(Teardown(), Then(Do(JoinReconnect), Then(Teardown(),
    Then(DropFrames(), Then(Do(NoBuilt), Then(InstallDecoder(), Locked(Frame, Skip))))))))
  }

  function Update(): Prog {
    If(Any, Then(Stop(), Then(Locked(Decoder, Skip), Start())), Skip)
  }

  /** What each thread may run when it is idle. */
  predicate Handler(who: Who, p: Prog) {
    match who
    case Receive => p == OnMeta() || p == OnVideoData(true) || p == OnVideoData(false) || p == OnDisconnected()
    case Render => p == VideoRender() || p == OnDisconnected()
    case Reconnect => false
    case Obs => p == Update() || p == Start() || p == Stop()
  }

  // ---------------------------------------------------------------- states

  datatype Held = Nothing | Push(top: Lock, below: Held) {
    predicate Has(l: Lock) { Push? && (top == l || below.Has(l)) }
    /** Every held lock ranks below r, except that graphics may be entered again. */
    predicate Below(l: Lock) {
      Push? ==> (top.Rank() < l.Rank() || (l == Graphics && top == Graphics)) && below.Below(l)
    }
  }

  /** What is known about a thread from the program point it has reached: its locks, the variables
      that may own something, whether it is inside a decoder call, whether it is between clearing
      running_ and joining the receive thread, whether the receive thread is known to be gone, and
      whether running_ is known to be set. */
  datatype Shape = Shape(held: Held, local: bool, stale: bool, built: bool, retired: bool,
                         using: bool, stopping: bool, gone: bool, up: bool)

  const IDLE := Shape(Nothing, false, false, false, false, false, false, false, false)

  /** The variables are the frame and decoder pointers a handler keeps: a frame just decoded or
      taken out, a frame it displaced, a decoder just created, a decoder it displaced, and the
      decoder it is calling. */
  datatype Thread = Thread(alive: bool, todo: Prog, shape: Shape,
                           local: Option<nat>, stale: Option<nat>,
                           built: Option<nat>, retired: Option<nat>, call: Option<nat>)

  datatype Shared = Shared(
    pending: Option<nat>, drawn: Option<nat>, released: multiset<nat>, frames: nat,
    decoder: Option<nat>, destroyed: multiset<nat>, decoders: nat,
    running: bool, joined: bool)

  datatype State = State(receive: Thread, render: Thread, reconnect: Thread, obs: Thread, g: Shared) {
    function At(who: Who): Thread {
      match who
      case Receive => receive
      case Render => render
      case Reconnect => reconnect
      case Obs => obs
    }
    function With(who: Who, th: Thread): State {
      match who
      case Receive => this.(receive := th)
      case Render => this.(render := th)
      case Reconnect => this.(reconnect := th)
      case Obs => this.(obs := th)
    }
  }

  function Resting(alive: bool): Thread {
    Thread(alive, Skip, IDLE, None, None, None, None, None)
  }

  function Initial(): State {
    State(Resting(false), Resting(true), Resting(false), Resting(true),
          Shared(None, None, multiset{}, 0, None, multiset{}, 0, false, true))
  }

  // ---------------------------------------------------------------- the discipline

  /** The effect of an operation on what is known, or None where the program would break a rule:
      locks nest and respect the order; pending_ and drawn_ are touched under frameMutex_,
      decoder_ under decoderMutex_; frames are released and decoders created and destroyed in the
      graphics context; an owning variable is never overwritten; a decoder call ends before
      decoderMutex_ is released; the receive thread never takes lifecycleMutex_ or joins; joins
      happen with at most lifecycleMutex_ held. */
  function FlowOp(who: Who, op: Op, sh: Shape): (r: Option<Shape>) {
    var h := sh.held;
    match op
    case Acquire(l) =>
      if h.Below(l) && !(who == Receive && l == Lifecycle)
      then Some(sh.(held := Push(l, h))) else None
    case Release(l) =>
      if h.Push? && h.top == l && !sh.using && !(l == Lifecycle && sh.stopping)
      then Some(sh.(held := h.below, gone := sh.gone && l != Lifecycle, up := sh.up && l != Lifecycle)) else None
    case TakePending => if h.Has(Frame) && !sh.local then Some(sh.(local := true)) else None
    case TakeDrawn => if h.Has(Frame) && !sh.stale then Some(sh.(stale := true)) else None
    case PutPending =>
      if h.Has(Frame) && sh.local && !sh.stale
      then Some(sh.(local := false, stale := true)) else None
    case Promote => if h.Has(Frame) && !sh.stale then Some(sh.(stale := true)) else None
    case FreeLocal => if h.Has(Graphics) && sh.local then Some(sh.(local := false)) else None
    case FreeStale => if h.Has(Graphics) && sh.stale then Some(sh.(stale := false)) else None
    case Create => if h.Has(Graphics) && !sh.built then Some(sh.(built := true)) else None
    case NoBuilt => if !sh.built then Some(sh.(built := true)) else None
    case Swap =>
      if h.Has(Decoder) && !sh.using && sh.built && !sh.retired
      then Some(sh.(built := false, retired := true)) else None
    case Destroy => if h.Has(Graphics) && sh.retired then Some(sh.(retired := false)) else None
    case BeginUse => if h.Has(Decoder) && !sh.using then Some(sh.(using := true)) else None
    case EndUse => if sh.using then Some(sh.(using := false)) else None
    case EndDecode =>
      if sh.using && !sh.local then Some(sh.(using := false, local := true)) else None
    case SetRunning => if h.Has(Lifecycle) && !sh.stopping then Some(sh.(up := true)) else None
    case SetStopped => if h.Has(Lifecycle) then Some(sh.(stopping := true, up := false)) else None
    case SpawnReceive =>
      if h.Has(Lifecycle) && sh.gone && sh.up then Some(sh.(gone := false, up := false)) else None
    case JoinReceive =>
      if who != Receive && h == Push(Lifecycle, Nothing) && sh.stopping
      then Some(sh.(stopping := false, gone := true)) else None
    case SpawnReconnect => if who != Reconnect then Some(sh) else None
    case JoinReconnect => if who == Obs && h == Nothing then Some(sh) else None
    case Finish => if who == Reconnect && sh == IDLE then Some(sh) else None
  }

  /** What a test adds to what is known. */
  function FlowTest(cond: Cond, answer: bool, sh: Shape): Shape {
    match cond
    case HasLocal => if answer then sh else sh.(local := false)
    case HasStale => if answer then sh else sh.(stale := false)
    case HasRetired => if answer then sh else sh.(retired := false)
    case Running => if answer || !sh.held.Has(Lifecycle) || sh.stopping then sh else sh.(gone := true)
    case _ => sh
  }

  function Flow(who: Who, p: Prog, sh: Shape): (r: Option<Shape>) {
    match p
    case Skip => Some(sh)
    case Do(op) => FlowOp(who, op, sh)
    case Then(a, b) =>
      (match Flow(who, a, sh)
       case None => None
       case Some(mid) => Flow(who, b, mid))
    case If(c, a, b) =>
      var x, y := Flow(who, a, FlowTest(c, true, sh)), Flow(who, b, FlowTest(c, false, sh));
      if x == y then x else None
  }

  // ---------------------------------------------------------------- steps

  predicate Eval(cond: Cond, th: Thread, g: Shared, choice: bool) {
    match cond
    case Any => choice
    case Running => g.running
    case HasPending => g.pending.Some?
    case HasLocal => th.local.Some?
    case HasStale => th.stale.Some?
    case HasRetired => th.retired.Some?
  }

  function Mark(m: multiset<nat>, o: Option<nat>): multiset<nat> {
    match o
    case None => m
    case Some(id) => m + multiset{id}
  }

  /** The effect of an operation on the thread's own variables. */
  function OwnPart(op: Op, th: Thread, g: Shared, choice: bool): Thread {
    match op
    case TakePending => th.(local := g.pending)
    case TakeDrawn => th.(stale := g.drawn)
    case PutPending => th.(stale := g.pending, local := None)
    case Promote => th.(stale := g.drawn)
    case FreeLocal => th.(local := None)
    case FreeStale => th.(stale := None)
    case Create => th.(built := if choice then Some(g.decoders) else None)
    case NoBuilt => th.(built := None)
    case Swap => th.(retired := g.decoder, built := None)
    case Destroy => th.(retired := None)
    case BeginUse => th.(call := g.decoder)
    case EndUse => th.(call := None)
    case EndDecode => th.(call := None, local := if choice && th.call.Some? then Some(g.frames) else None)
    case Finish => th.(alive := false)
    case _ => th
  }

  /** The effect of an operation on the shared fields. */
  function SharedPart(op: Op, th: Thread, g: Shared, choice: bool): Shared {
    match op
    case TakePending => g.(pending := None)
    case TakeDrawn => g.(drawn := None)
    case PutPending => g.(pending := th.local)
    case Promote => g.(drawn := g.pending, pending := None)
    case FreeLocal => g.(released := Mark(g.released, th.local))
    case FreeStale => g.(released := Mark(g.released, th.stale))
    case Create => g.(decoders := g.decoders + (if choice then 1 else 0))
    case Swap => g.(decoder := th.built)
    case Destroy => g.(destroyed := Mark(g.destroyed, th.retired))
    case EndDecode => g.(frames := g.frames + (if choice && th.call.Some? then 1 else 0))
    case SetRunning => g.(running := true)
    case SetStopped => g.(running := false)
    case Finish => g.(joined := true)
    case JoinReconnect => g.(joined := true)
    case _ => g
  }

  predicate HeldByOther(s: State, who: Who, l: Lock) {
    exists u: Who :: u != who && s.At(u).shape.held.Has(l)
  }

  predicate Enabled(s: State, who: Who, op: Op) {
    match op
    case Acquire(l) => !HeldByOther(s, who, l)
    case JoinReceive => !s.receive.alive
    case JoinReconnect => !s.reconnect.alive
    case _ => true
  }

  /** Starting a thread. A disconnect starts the reconnect thread only when reconnectJoined_ says
      that no other is at work. */
  function Spawn(op: Op, s: State): State {
    match op
    case SpawnReceive => s.(receive := Resting(true))
    case SpawnReconnect =>
      if s.g.joined
      then s.(reconnect := Resting(true).(todo := ReconnectThread()), g := s.g.(joined := false)) else s
    case _ => s
  }

  /** The thread after an operation. */
  function Acted(who: Who, op: Op, th: Thread, g: Shared, next: Prog, choice: bool): Thread {
    var sh := FlowOp(who, op, th.shape);
    OwnPart(op, th, g, choice)
    .(todo := if op.Finish? then Skip else next, shape := if sh.Some? then sh.value else th.shape)
  }

  /** The effect of an operation apart from starting threads. */
  function Act(s: State, who: Who, op: Op, next: Prog, choice: bool): (t: State)
    ensures t.g == SharedPart(op, s.At(who), s.g, choice)
    ensures forall w: Who :: t.At(w) == if w == who then Acted(who, op, s.At(who), s.g, next, choice) else s.At(w)
  {
    s.With(who, Acted(who, op, s.At(who), s.g, next, choice)).(g := SharedPart(op, s.At(who), s.g, choice))
  }

  function DoOp(s: State, who: Who, op: Op, next: Prog, choice: bool): State {
    Spawn(op, Act(s, who, op, next, choice))
  }

  /** One step of a thread with work to do. */
  function Work(s: State, who: Who, choice: bool): State {
    var th := s.At(who);
    match th.todo
    case Skip => s
    case Do(op) => DoOp(s, who, op, Skip, choice)
    case If(c, a, b) => Branch(s, who, c, a, b, Skip, choice)
    case Then(Skip, rest) => s.With(who, th.(todo := rest))
    case Then(Then(a, b), rest) => s.With(who, th.(todo := Then(a, Then(b, rest))))
    case Then(Do(op), rest) => DoOp(s, who, op, rest, choice)
    case Then(If(c, a, b), rest) => Branch(s, who, c, a, b, rest, choice)
  }

  function Branch(s: State, who: Who, c: Cond, a: Prog, b: Prog, rest: Prog, choice: bool): State {
    var th := s.At(who);
    var answer := Eval(c, th, s.g, choice);
    s.With(who, th.(todo := Then(if answer then a else b, rest), shape := FlowTest(c, answer, th.shape)))
  }

  /** The operation a thread is about to perform, if any. */
  function NextOp(th: Thread): Option<Op> {
    match th.todo
    case Do(op) => Some(op)
    case Then(Do(op), _) => Some(op)
    case _ => None
  }

  predicate CanWork(s: State, who: Who) {
    var th := s.At(who);
    th.alive && th.todo != Skip && (NextOp(th).Some? ==> Enabled(s, who, NextOp(th).value))
  }

  /** The receive thread between two callbacks: it sits in the blocking read of the pipe. */
  predicate Reading(s: State) {
    s.receive.alive && s.receive.todo == Skip
  }

  /** A thread works, an idle thread starts a handler, or the receive thread ends between two
      callbacks. For the receive thread the last two need its read to return: with a message, or
      without one. */
  datatype Event = Works(who: Who, choice: bool) | Starts(who: Who, p: Prog) | Ends

  predicate Possible(s: State, e: Event) {
    match e
    case Works(who, _) => CanWork(s, who)
    case Starts(who, p) => s.At(who).alive && s.At(who).todo == Skip && Handler(who, p)
    case Ends => Reading(s)
  }

  function Step(s: State, e: Event): State
    requires Possible(s, e)
  {
    match e
    case Works(who, choice) => Work(s, who, choice)
    case Starts(who, p) => s.With(who, s.At(who).(todo := p))
    case Ends => s.(receive := s.receive.(alive := false))
  }
}
