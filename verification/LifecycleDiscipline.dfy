/** Every handler of the source obeys the locking and ownership rules of `Lifecycle.FlowOp`. */
module LifecycleDiscipline {
  import opened Common
  import opened Lifecycle

  // ---------------------------------------------------------------- the handlers follow the rules

  ghost predicate Ok(who: Who, p: Prog, a: Shape, b: Shape) {
    Flow(who, p, a) == Some(b)
  }

  lemma DoOk(who: Who, op: Op, a: Shape, b: Shape)
    requires FlowOp(who, op, a) == Some(b)
    ensures Ok(who, Do(op), a, b)
  {
  }

  lemma ThenOk(who: Who, p: Prog, q: Prog, a: Shape, b: Shape, c: Shape)
    requires Ok(who, p, a, b) && Ok(who, q, b, c)
    ensures Ok(who, Then(p, q), a, c)
  {
  }

  lemma IfOk(who: Who, cond: Cond, p: Prog, q: Prog, a: Shape, b: Shape)
    requires Ok(who, p, FlowTest(cond, true, a), b) && Ok(who, q, FlowTest(cond, false, a), b)
    ensures Ok(who, If(cond, p, q), a, b)
  {
  }

  function Under(l: Lock, sh: Shape): Shape {
    sh.(held := Push(l, sh.held))
  }

  predicate May(who: Who, l: Lock, sh: Shape) {
    sh.held.Below(l) && !sh.using && l != Lifecycle
  }

  lemma LockedOk(who: Who, l: Lock, p: Prog, a: Shape, b: Shape)
    requires May(who, l, a) && May(who, l, b) && a.held == b.held
    requires Ok(who, p, Under(l, a), Under(l, b))
    ensures Ok(who, Locked(l, p), a, b)
  {
    DoOk(who, Acquire(l), a, Under(l, a));
    DoOk(who, Release(l), Under(l, b), b);
    hide Ok;
    ThenOk(who, p, Do(Release(l)), Under(l, a), Under(l, b), b);
    ThenOk(who, Do(Acquire(l)), Then(p, Do(Release(l))), a, Under(l, a), b);
  }

  lemma LockedOpOk(who: Who, l: Lock, op: Op, a: Shape, b: Shape)
    requires May(who, l, a) && May(who, l, b) && a.held == b.held
    requires FlowOp(who, op, Under(l, a)) == Some(Under(l, b))
    ensures Ok(who, Locked(l, Do(op)), a, b)
  {
    LockedOk(who, l, Do(op), a, b);
  }

  lemma LockedSkipOk(who: Who, l: Lock, a: Shape)
    requires May(who, l, a)
    ensures Ok(who, Locked(l, Skip), a, a)
  {
    LockedOk(who, l, Skip, a, a);
  }

  lemma SkipOk(who: Who, a: Shape)
    ensures Ok(who, Skip, a, a)
  {
  }

  /** `if (variable) { enter graphics; give it up; leave }` empties the variable. */
  lemma CleanupOk(who: Who, cond: Cond, op: Op, a: Shape, b: Shape)
    requires May(who, Graphics, a) && a.held == b.held && !b.using
    requires FlowTest(cond, true, a) == a && FlowTest(cond, false, a) == b
    requires FlowOp(who, op, Under(Graphics, a)) == Some(Under(Graphics, b))
    ensures Ok(who, If(cond, Locked(Graphics, Do(op)), Skip), a, b)
  {
    hide Ok;
    LockedOpOk(who, Graphics, op, a, b);
    SkipOk(who, b);
    hide FlowOp, Locked;
    IfOk(who, cond, Locked(Graphics, Do(op)), Skip, a, b);
  }

  lemma DropPendingOk(who: Who, a: Shape)
    requires May(who, Graphics, a) && May(who, Frame, a) && !a.local
    ensures Ok(who, DropPending(), a, a)
  {
    hide Ok;
    var b := a.(local := true);
    LockedOpOk(who, Frame, TakePending, a, b);
    CleanupOk(who, HasLocal, FreeLocal, b, a);
    hide FlowOp, Locked;
    ThenOk(who, Locked(Frame, Do(TakePending)), DropPending().rest, a, b, a);
  }

  lemma CreateDecoderOk(who: Who, a: Shape)
    requires May(who, Graphics, a) && May(who, Decoder, a) && !a.built
    ensures Ok(who, CreateDecoder(), a, a.(built := true))
  {
    hide Ok;
    var b := a.(built := true);
    LockedSkipOk(who, Decoder, a);
    LockedOpOk(who, Graphics, Create, a, b);
    LockedSkipOk(who, Decoder, b);
    hide FlowOp, Locked;
    var p := CreateDecoder();
    ThenOk(who, p.rest.first, p.rest.rest, a, b, b);
    ThenOk(who, p.first, p.rest, a, a, b);
  }

  lemma InstallDecoderOk(who: Who, a: Shape)
    requires May(who, Graphics, a) && May(who, Decoder, a) && a.built && !a.retired
    ensures Ok(who, InstallDecoder(), a, a.(built := false))
  {
    hide Ok;
    var b := a.(built := false, retired := true);
    var c := a.(built := false);
    LockedOpOk(who, Decoder, Swap, a, b);
    CleanupOk(who, HasRetired, Destroy, b, c);
    hide FlowOp, Locked;
    ThenOk(who, Locked(Decoder, Do(Swap)), InstallDecoder().rest, a, b, c);
  }

  lemma RebuildOk(who: Who)
    ensures Ok(who, Rebuild(), IDLE, IDLE)
  {
    hide Ok;
    var b := IDLE.(built := true);
    DropPendingOk(who, IDLE);
    CreateDecoderOk(who, IDLE);
    DoOk(who, NoBuilt, IDLE, b);
    LockedSkipOk(who, Decoder, b);
    InstallDecoderOk(who, b);
    hide FlowOp, Locked, DropPending, CreateDecoder, InstallDecoder;
    var p := Rebuild();
    IfOk(who, Running, CreateDecoder(), Do(NoBuilt), IDLE, b);
    ThenOk(who, p.rest.rest.first, p.rest.rest.rest, b, b, IDLE);
    ThenOk(who, p.rest.first, p.rest.rest, IDLE, b, IDLE);
    ThenOk(who, p.first, p.rest, IDLE, IDLE, IDLE);
  }

  /** A call into the decoder under decoderMutex_. */
  lemma CallOk(who: Who, end: Op, a: Shape, b: Shape)
    requires May(who, Decoder, a)
    requires (end == EndUse && b == a) || (end == EndDecode && !a.local && b == a.(local := true))
    ensures Ok(who, Locked(Decoder, Then(Do(BeginUse), Do(end))), a, b)
  {
    hide Ok;
    var c := Under(Decoder, a);
    DoOk(who, BeginUse, c, c.(using := true));
    DoOk(who, end, c.(using := true), Under(Decoder, b));
    hide FlowOp;
    ThenOk(who, Do(BeginUse), Do(end), c, c.(using := true), Under(Decoder, b));
    LockedOk(who, Decoder, Then(Do(BeginUse), Do(end)), a, b);
  }

  lemma OnMetaOk(who: Who)
    ensures Ok(who, OnMeta(), IDLE, IDLE)
  {
    hide Ok;
    RebuildOk(who);
    SkipOk(who, IDLE);
    LockedSkipOk(who, Decoder, IDLE);
    CallOk(who, EndUse, IDLE, IDLE);
    hide FlowOp, Locked, Rebuild;
    var p := OnMeta();
    IfOk(who, Any, Rebuild(), Skip, IDLE, IDLE);
    ThenOk(who, p.rest.first, p.rest.rest, IDLE, IDLE, IDLE);
    ThenOk(who, p.first, p.rest, IDLE, IDLE, IDLE);
  }

  lemma OutputVideoOk(who: Who)
    ensures Ok(who, OutputVideo(), IDLE.(local := true), IDLE)
  {
    hide Ok;
    var a, b := IDLE.(local := true), IDLE.(stale := true);
    LockedOpOk(who, Frame, PutPending, a, b);
    CleanupOk(who, HasStale, FreeStale, b, IDLE);
    LockedSkipOk(who, Frame, IDLE);
    SkipOk(who, IDLE);
    hide FlowOp, Locked;
    var p := OutputVideo();
    ThenOk(who, p.yes.first, p.yes.rest, a, b, IDLE);
    IfOk(who, Any, Locked(Frame, Skip), Skip, IDLE, IDLE);
    IfOk(who, HasLocal, p.yes, p.no, a, IDLE);
  }

  lemma DecodeStepOk(who: Who, windows: bool)
    ensures Ok(who, if windows then Locked(Graphics, DecodeCall()) else DecodeCall(), IDLE, IDLE.(local := true))
  {
    var b := IDLE.(local := true);
    CallOk(who, EndDecode, IDLE, b);
    CallOk(who, EndDecode, Under(Graphics, IDLE), Under(Graphics, b));
    LockedOk(who, Graphics, DecodeCall(), IDLE, b);
  }

  lemma OnVideoDataOk(who: Who, windows: bool)
    ensures Ok(who, OnVideoData(windows), IDLE, IDLE)
  {
    hide Ok;
    var b := IDLE.(local := true);
    RebuildOk(who);
    DecodeStepOk(who, windows);
    OutputVideoOk(who);
    LockedSkipOk(who, Decoder, IDLE);
    SkipOk(who, IDLE);
    hide FlowOp, Locked, Rebuild, OutputVideo, DecodeCall;
    var p := OnVideoData(windows).yes.yes;
    IfOk(who, Any, Rebuild(), Skip, IDLE, IDLE);
    ThenOk(who, p.rest.rest.first, p.rest.rest.rest, IDLE, b, IDLE);
    ThenOk(who, p.rest.first, p.rest.rest, IDLE, IDLE, IDLE);
    ThenOk(who, p.first, p.rest, IDLE, IDLE, IDLE);
    IfOk(who, Any, p, Skip, IDLE, IDLE);
    IfOk(who, Running, If(Any, p, Skip), Skip, IDLE, IDLE);
  }

  lemma FallbackOk(who: Who, a: Shape)
    requires a == Under(Graphics, IDLE)
    ensures Ok(who, Fallback(), a, a)
  {
    hide Ok;
    var b := a.(built := true);
    LockedSkipOk(who, Decoder, a);
    CreateDecoderOk(who, a);
    DoOk(who, NoBuilt, a, b);
    InstallDecoderOk(who, b);
    hide FlowOp, Locked, CreateDecoder, InstallDecoder;
    var p := Fallback();
    ThenOk(who, Locked(Decoder, Skip), CreateDecoder(), a, a, b);
    IfOk(who, Running, p.rest.first.yes, Do(NoBuilt), a, b);
    ThenOk(who, p.rest.first, p.rest.rest, a, b, a);
    ThenOk(who, p.first, p.rest, a, a, a);
  }

  /** `if (variable) give it up`, already inside the graphics context. */
  lemma GiveUpOk(who: Who, cond: Cond, op: Op, a: Shape, b: Shape)
    requires FlowTest(cond, true, a) == a && FlowTest(cond, false, a) == b && FlowOp(who, op, a) == Some(b)
    ensures Ok(who, If(cond, Do(op), Skip), a, b)
  {
    IfOk(who, cond, Do(op), Skip, a, b);
  }

  lemma ImportedOk(who: Who, a: Shape)
    requires a == Under(Frame, Under(Graphics, IDLE))
    ensures Ok(who, ImportPending().rest.yes, a, a)
  {
    hide Ok;
    var b := a.(stale := true);
    DoOk(who, Promote, a, b);
    GiveUpOk(who, HasStale, FreeStale, b, a);
    hide FlowOp, Locked;
    ThenOk(who, Do(Promote), If(HasStale, Do(FreeStale), Skip), a, b, a);
  }

  lemma NotImportedOk(who: Who, a: Shape)
    requires a == Under(Frame, Under(Graphics, IDLE))
    ensures Ok(who, ImportPending().rest.no, a, a)
  {
    hide Ok;
    var b := a.(local := true);
    DoOk(who, TakePending, a, b);
    GiveUpOk(who, HasLocal, FreeLocal, b, a);
    LockedSkipOk(who, Decoder, a);
    hide FlowOp, Locked;
    var p := Then(If(HasLocal, Do(FreeLocal), Skip), Locked(Decoder, Skip));
    ThenOk(who, p.first, p.rest, b, a, a);
    ThenOk(who, Do(TakePending), p, a, b, a);
  }

  lemma ImportPendingOk(who: Who, a: Shape)
    requires a == Under(Frame, Under(Graphics, IDLE))
    ensures Ok(who, ImportPending(), a, a)
  {
    hide Ok, FlowOp, Locked;
    CallOk(who, EndUse, a, a);
    ImportedOk(who, a);
    NotImportedOk(who, a);
    var p := ImportPending().rest;
    IfOk(who, Any, p.yes, p.no, a, a);
    ThenOk(who, ImportPending().first, p, a, a, a);
  }

  lemma OnDisconnectedOk(who: Who, a: Shape)
    requires who != Reconnect && !a.held.Has(Lifecycle)
    ensures Ok(who, OnDisconnected(), a, a)
  {
    DoOk(who, SpawnReconnect, a, a);
    SkipOk(who, a);
    IfOk(who, Running, Do(SpawnReconnect), Skip, a, a);
  }

  lemma PictureOk(who: Who, a: Shape)
    requires a == Under(Graphics, IDLE)
    ensures Ok(who, VideoRender().rest.first.rest.first, a, a)
  {
    hide Ok;
    var b := Under(Frame, a);
    ImportPendingOk(who, b);
    DoOk(who, TakeDrawn, b, b.(stale := true));
    GiveUpOk(who, HasStale, FreeStale, b.(stale := true), b);
    SkipOk(who, b);
    hide FlowOp, ImportPending;
    var p := If(HasStale, Do(FreeStale), Skip);
    ThenOk(who, Do(TakeDrawn), p, b, b.(stale := true), b);
    IfOk(who, Any, Then(Do(TakeDrawn), p), Skip, b, b);
    var q := If(HasPending, ImportPending(), If(Any, Then(Do(TakeDrawn), p), Skip));
    IfOk(who, HasPending, q.yes, q.no, b, b);
    LockedOk(who, Frame, q, a, a);
  }

  lemma VideoRenderOk(who: Who)
    requires who != Reconnect
    ensures Ok(who, VideoRender(), IDLE, IDLE)
  {
    hide Ok;
    var a := Under(Graphics, IDLE);
    FallbackOk(who, a);
    PictureOk(who, a);
    OnDisconnectedOk(who, a);
    SkipOk(who, a);
    var p := VideoRender().rest.first;
    hide FlowOp, Fallback, ImportPending, OnDisconnected;
    IfOk(who, Any, OnDisconnected(), Skip, a, a);
    IfOk(who, Any, Fallback(), Skip, a, a);
    ThenOk(who, p.rest.first, p.rest.rest, a, a, a);
    ThenOk(who, p.first, p.rest, a, a, a);
    LockedOk(who, Graphics, p, IDLE, IDLE);
  }

  lemma StartBodyOk(who: Who, a: Shape)
    requires who != Receive && a == Under(Lifecycle, IDLE).(gone := true)
    ensures Ok(who, StartBody(), a, a.(gone := false))
  {
    hide Ok;
    var b := a.(built := true);
    DoOk(who, NoBuilt, a, b);
    InstallDecoderOk(who, b);
    LockedSkipOk(who, Decoder, a);
    LockedSkipOk(who, Cv, a);
    DoOk(who, SetRunning, a, a.(up := true));
    DoOk(who, SpawnReceive, a.(up := true), a.(gone := false));
    hide FlowOp, Locked, InstallDecoder;
    var p := StartBody();
    ThenOk(who, Do(SetRunning), Do(SpawnReceive), a, a.(up := true), a.(gone := false));
    ThenOk(who, p.rest.rest.rest.first, p.rest.rest.rest.rest, a, a, a.(gone := false));
    ThenOk(who, p.rest.rest.first, p.rest.rest.rest, a, a, a.(gone := false));
    ThenOk(who, p.rest.first, p.rest.rest, b, a, a.(gone := false));
    ThenOk(who, p.first, p.rest, a, b, a.(gone := false));
  }

  /** Holding lifecycleMutex_ for a program that ends knowing no more than it began with. */
  lemma LifecycleOk(who: Who, p: Prog, b: Shape)
    requires who != Receive
    requires Ok(who, p, Under(Lifecycle, IDLE), b) && b.(gone := false) == Under(Lifecycle, IDLE)
    ensures Ok(who, Locked(Lifecycle, p), IDLE, IDLE)
  {
    hide Ok;
    var a := Under(Lifecycle, IDLE);
    DoOk(who, Acquire(Lifecycle), IDLE, a);
    DoOk(who, Release(Lifecycle), b, IDLE);
    hide FlowOp;
    ThenOk(who, p, Do(Release(Lifecycle)), a, b, IDLE);
    ThenOk(who, Do(Acquire(Lifecycle)), Then(p, Do(Release(Lifecycle))), IDLE, a, IDLE);
  }

  lemma StartOk(who: Who)
    requires who != Receive
    ensures Ok(who, Start(), IDLE, IDLE)
  {
    hide Ok;
    var a := Under(Lifecycle, IDLE);
    StartBodyOk(who, a.(gone := true));
    SkipOk(who, a);
    hide FlowOp, StartBody;
    IfOk(who, Running, Skip, StartBody(), a, a);
    IfOk(who, Any, Skip, If(Running, Skip, StartBody()), a, a);
    LifecycleOk(who, If(Any, Skip, If(Running, Skip, StartBody())), a);
  }

  lemma TeardownOk(who: Who)
    requires who != Receive
    ensures Ok(who, Teardown(), IDLE, IDLE)
  {
    hide Ok;
    var a := Under(Lifecycle, IDLE);
    DoOk(who, SetStopped, a, a.(stopping := true));
    DoOk(who, JoinReceive, a.(stopping := true), a.(gone := true));
    hide FlowOp;
    ThenOk(who, Do(SetStopped), Do(JoinReceive), a, a.(stopping := true), a.(gone := true));
    LifecycleOk(who, Then(Do(SetStopped), Do(JoinReceive)), a.(gone := true));
  }

  lemma ReconnectThreadOk()
    ensures Ok(Reconnect, ReconnectThread(), IDLE, IDLE)
  {
    hide Ok;
    var who := Reconnect;
    StartOk(who);
    TeardownOk(who);
    DropPendingOk(who, IDLE);
    LockedSkipOk(who, Cv, IDLE);
    SkipOk(who, IDLE);
    DoOk(who, Finish, IDLE, IDLE);
    hide FlowOp, Locked, Start, Teardown, DropPending;
    ThenOk(who, DropPending(), Start(), IDLE, IDLE, IDLE);
    IfOk(who, Any, Skip, Then(DropPending(), Start()), IDLE, IDLE);
    ThenOk(who, Teardown(), ReconnectNow().rest, IDLE, IDLE, IDLE);
    IfOk(who, Any, Skip, ReconnectNow(), IDLE, IDLE);
    var p := ReconnectThread();
    ThenOk(who, Locked(Cv, Skip), If(Any, Skip, ReconnectNow()), IDLE, IDLE, IDLE);
    IfOk(who, Running, p.first.yes, Skip, IDLE, IDLE);
    ThenOk(who, Locked(Cv, Skip), Do(Finish), IDLE, IDLE, IDLE);
    ThenOk(who, p.first, p.rest, IDLE, IDLE, IDLE);
  }

  lemma DropFramesOk(who: Who)
    ensures Ok(who, DropFrames(), IDLE, IDLE)
  {
    hide Ok;
    var a := Under(Frame, IDLE);
    var c := IDLE.(stale := true);
    var b := c.(local := true);
    DoOk(who, TakePending, a, a.(local := true));
    DoOk(who, TakeDrawn, a.(local := true), Under(Frame, b));
    CleanupOk(who, HasLocal, FreeLocal, b, c);
    CleanupOk(who, HasStale, FreeStale, c, IDLE);
    var p := DropFrames();
    hide FlowOp;
    ThenOk(who, Do(TakePending), Do(TakeDrawn), a, a.(local := true), Under(Frame, b));
    LockedOk(who, Frame, Then(Do(TakePending), Do(TakeDrawn)), IDLE, b);
    hide Locked;
    ThenOk(who, p.rest.first, p.rest.rest, b, c, IDLE);
    ThenOk(who, p.first, p.rest, IDLE, b, IDLE);
  }

  lemma StopOk()
    ensures Ok(Obs, Stop(), IDLE, IDLE)
  {
    hide Ok;
    var who, b := Obs, IDLE.(built := true);
    TeardownOk(who);
    DropFramesOk(who);
    DoOk(who, JoinReconnect, IDLE, IDLE);
    DoOk(who, NoBuilt, IDLE, b);
    InstallDecoderOk(who, b);
    LockedSkipOk(who, Frame, IDLE);
    LockedSkipOk(who, Cv, IDLE);
    hide FlowOp, Locked, Teardown, DropFrames, InstallDecoder;
    var p := Stop().rest.rest.rest.rest;
    ThenOk(who, p.rest.rest.first, p.rest.rest.rest, b, IDLE, IDLE);
    ThenOk(who, p.rest.first, p.rest.rest, IDLE, b, IDLE);
    ThenOk(who, p.first, p.rest, IDLE, IDLE, IDLE);
    ThenOk(who, Teardown(), p, IDLE, IDLE, IDLE);
    ThenOk(who, Do(JoinReconnect), Then(Teardown(), p), IDLE, IDLE, IDLE);
    ThenOk(who, Teardown(), Stop().rest.rest, IDLE, IDLE, IDLE);
    ThenOk(who, Stop().first, Stop().rest, IDLE, IDLE, IDLE);
  }

  lemma UpdateOk()
    ensures Ok(Obs, Update(), IDLE, IDLE)
  {
    hide Ok;
    StopOk();
    StartOk(Obs);
    LockedSkipOk(Obs, Decoder, IDLE);
    SkipOk(Obs, IDLE);
    hide FlowOp, Locked, Stop, Start;
    ThenOk(Obs, Locked(Decoder, Skip), Start(), IDLE, IDLE, IDLE);
    ThenOk(Obs, Stop(), Then(Locked(Decoder, Skip), Start()), IDLE, IDLE, IDLE);
    IfOk(Obs, Any, Update().yes, Skip, IDLE, IDLE);
  }

  /** Every handler obeys the discipline of FlowOp from its first step to its last, whatever the
      branches taken, and ends with no lock held and no pointer owned. */
  lemma HandlersFlow(who: Who, p: Prog)
    requires Handler(who, p)
    ensures Flow(who, p, IDLE) == Some(IDLE)
  {
    OnDisconnectedOk(Receive, IDLE);
    OnDisconnectedOk(Render, IDLE);
    match who {
      case Receive =>
        OnMetaOk(who);
        OnVideoDataOk(who, true);
        OnVideoDataOk(who, false);
      case Render =>
        VideoRenderOk(who);
      case Obs =>
        StartOk(who);
        StopOk();
        UpdateOk();
    }
    hide Flow, OnMeta, OnVideoData, OnDisconnected, VideoRender, Start, Stop, Update;
  }
}
