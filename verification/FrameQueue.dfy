/** The dropping frame queue of src/VFrameQueue.cpp: any number of producers, one consumer thread,
    a stop request, interleaved at the granularity of their critical sections. */
module FrameQueue {
  import opened Common

  const U64 := 0x1_0000_0000_0000_0000
  const SLACK := 15000

  type u64 = x: int | 0 <= x < U64

  /** A queued frame; `id` stands for the buffer that enqueue allocated for its copy. */
  datatype Frame = Frame(id: nat, time: u64, noDrop: bool)

  datatype Verdict = Delivered | Older | Dropped

  // ---------------------------------------------------------------- the consumer's decision

  /** What the consumer remembers: the time of the last delivered frame (none before the first
      frame) and how long its callback took. */
  datatype Memory = Memory(last: Option<u64>, processing: u64)

  /** The uint64_t expression `current.time - lastFrameTime + 15000 > processingTime`. */
  predicate InTime(time: u64, last: u64, processing: u64) {
    ((time - last) % U64 + SLACK) % U64 > processing
  }

  function Judge(m: Memory, f: Frame): Verdict {
    match m.last
    case None => Delivered
    case Some(last) =>
      if f.time < last then Older
      else if f.noDrop || InTime(f.time, last, m.processing) then Delivered
      else Dropped
  }

  /** `begin` and `end` are the clock readings around the callback. */
  function Remember(m: Memory, f: Frame, begin: u64, end: u64): Memory {
    if Judge(m, f).Delivered? then Memory(Some(f.time), (end - begin) % U64) else m
  }

  // ---------------------------------------------------------------- states and steps

  /** Where the consumer stands: before sem.acquire, with a permit in hand, with a frame in hand,
      at the loop test, or returned. */
  datatype Place = Waiting | Permitted | Holding(f: Frame) | Testing | Ended

  /** all, clocks, verdicts, freed, delivered and signalled are histories: every frame enqueued, the
      verdicts with their clock readings, the buffers freed, the frames handed to the callback, and
      whether stop has released its permit. */
  datatype State = State(
    queue: seq<Frame>, permits: nat, signals: nat, running: bool, place: Place, memory: Memory,
    all: seq<Frame>, clocks: seq<(u64, u64)>, verdicts: seq<Verdict>, freed: seq<nat>, delivered: seq<Frame>,
    signalled: bool)

  function Initial(): State {
    State([], 0, 0, true, Waiting, Memory(None, 0), [], [], [], [], [], false)
  }

  function Enqueue(s: State, time: u64, noDrop: bool): State {
    var f := Frame(|s.all|, time, noDrop);
    s.(queue := s.queue + [f], permits := s.permits + 1, all := s.all + [f])
  }

  function Take(s: State): State
    requires s.place == Permitted
  {
    if s.queue == []
    then s.(place := if s.memory.last.None? then Ended else Testing,
            signals := if s.signals > 0 then s.signals - 1 else 0)
    else s.(place := Holding(s.queue[0]), queue := s.queue[1..])
  }

  function Process(s: State, begin: u64, end: u64): State
    requires s.place.Holding?
  {
    var f := s.place.f;
    var v := Judge(s.memory, f);
    s.(memory := Remember(s.memory, f, begin, end), place := Testing,
       clocks := s.clocks + [(begin, end)], verdicts := s.verdicts + [v],
       freed := s.freed + [f.id],
       delivered := if v.Delivered? then s.delivered + [f] else s.delivered)
  }

  /** stop clears the flag, then releases one permit of its own. */
  datatype Event = Enqueues(time: u64, noDrop: bool) | ClearsFlag | Signals
                 | Acquires | Takes | Processes(begin: u64, end: u64) | Tests

  predicate Possible(s: State, e: Event) {
    match e
    case Enqueues(_, _) => true
    case ClearsFlag => true
    case Signals => !s.running
    case Acquires => s.place == Waiting && s.permits > 0
    case Takes => s.place == Permitted
    case Processes(_, _) => s.place.Holding?
    case Tests => s.place == Testing
  }

  function Step(s: State, e: Event): State
    requires Possible(s, e)
  {
    match e
    case Enqueues(time, noDrop) => Enqueue(s, time, noDrop)
    case ClearsFlag => s.(running := false)
    case Signals => s.(permits := s.permits + 1, signals := s.signals + 1, signalled := true)
    case Acquires => s.(permits := s.permits - 1, place := Permitted)
    case Takes => Take(s)
    case Processes(begin, end) => Process(s, begin, end)
    case Tests => s.(place := if s.running then Waiting else Ended)
  }

  // ---------------------------------------------------------------- the object

  /** The queue object and its consumer's local variables; each method is one critical section. */
  class Queue {
    var frames: seq<Frame>
    var sem: nat
    var running: bool
    var place: Place
    var lastFrameTime: Option<u64>
    var processingTime: u64
    ghost var signals: nat
    ghost var all: seq<Frame>
    ghost var clocks: seq<(u64, u64)>
    ghost var verdicts: seq<Verdict>
    ghost var freed: seq<nat>
    ghost var delivered: seq<Frame>
    ghost var signalled: bool

    ghost function Abs(): State reads this {
      State(frames, sem, signals, running, place, Memory(lastFrameTime, processingTime),
            all, clocks, verdicts, freed, delivered, signalled)
    }

    constructor ()
      ensures Abs() == Initial()
    {
      frames, sem, running, place, lastFrameTime, processingTime := [], 0, true, Waiting, None, 0;
      signals, all, clocks, verdicts, freed, delivered, signalled := 0, [], [], [], [], [], false;
    }

    method Add(time: u64, noDrop: bool, id: nat)
      requires id == |all|
      modifies this
      ensures Abs() == Step(old(Abs()), Enqueues(time, noDrop))
    {
      var f := Frame(id, time, noDrop);
      frames := frames + [f];
      all := all + [f];
      sem := sem + 1;
    }

    method Stop()
      modifies this
      ensures Abs() == Step(Step(old(Abs()), ClearsFlag), Signals)
    {
      running := false;
      sem := sem + 1;
      signals, signalled := signals + 1, true;
    }

    method Acquire()
      requires place == Waiting && sem > 0
      modifies this
      ensures Abs() == Step(old(Abs()), Acquires)
    {
      sem := sem - 1;
      place := Permitted;
    }

    method TestRunning()
      requires place == Testing
      modifies this
      ensures Abs() == Step(old(Abs()), Tests)
    {
      place := if running then Waiting else Ended;
    }

    method Dequeue()
      requires place == Permitted
      modifies this
      ensures Abs() == Step(old(Abs()), Takes)
    {
      if frames == [] {
        place := if lastFrameTime.None? then Ended else Testing;
        signals := if signals > 0 then signals - 1 else 0;
      } else {
        place := Holding(frames[0]);
        frames := frames[1..];
      }
    }

    method Show(begin: u64, end: u64)
      requires place.Holding?
      modifies this
      ensures Abs() == Step(old(Abs()), Processes(begin, end))
    {
      var f := place.f;
      var show := false;
      if lastFrameTime.None? || f.noDrop {
        show := lastFrameTime.None? || f.time >= lastFrameTime.value;
      } else if f.time >= lastFrameTime.value {
        show := ((f.time - lastFrameTime.value) % U64 + SLACK) % U64 > processingTime;
      }
      verdicts := verdicts + [Judge(Memory(lastFrameTime, processingTime), f)];
      if show {
        delivered := delivered + [f];
        lastFrameTime := Some(f.time);
        processingTime := (end - begin) % U64;
      }
      clocks := clocks + [(begin, end)];
      freed := freed + [f.id];
      place := Testing;
    }
  }

  // ---------------------------------------------------------------- the sequential reference

  /** Judging a list of frames one after the other. */
  function JudgeAll(fs: seq<Frame>, clocks: seq<(u64, u64)>): (r: (seq<Verdict>, Memory))
    requires |fs| == |clocks|
    ensures |r.0| == |fs|
  {
    if fs == [] then ([], Memory(None, 0))
    else
      var n := |fs| - 1;
      var (vs, m) := JudgeAll(fs[..n], clocks[..n]);
      (vs + [Judge(m, fs[n])], Remember(m, fs[n], clocks[n].0, clocks[n].1))
  }

  function Kept(fs: seq<Frame>, vs: seq<Verdict>): seq<Frame>
    requires |fs| == |vs|
  {
    if fs == [] then []
    else
      var n := |fs| - 1;
      if vs[n].Delivered? then Kept(fs[..n], vs[..n]) + [fs[n]] else Kept(fs[..n], vs[..n])
  }

  // ---------------------------------------------------------------- what every run keeps

  function InHand(p: Place): seq<Frame> {
    if p.Holding? then [p.f] else []
  }

  predicate Counted(s: State) {
    s.permits + (if s.place == Permitted then 1 else 0) == |s.queue| + s.signals
  }

  predicate Numbered(s: State) {
    forall i :: 0 <= i < |s.all| ==> s.all[i].id == i
  }

  /** The enqueued frames are those judged, the one in the consumer's hands and those queued. */
  predicate Split(s: State) {
    var n := |s.verdicts|;
    && n == |s.clocks| && n <= |s.all|
    && s.all[n..] == InHand(s.place) + s.queue
  }

  /** The histories are those of the sequential reference on the judged frames. */
  predicate Sequential(s: State) {
    var n := |s.verdicts|;
    && n == |s.clocks| && n <= |s.all|
    && JudgeAll(s.all[..n], s.clocks) == (s.verdicts, s.memory)
    && s.delivered == Kept(s.all[..n], s.verdicts)
    && s.freed == seq(n, i => i)
  }

  predicate Stopping(s: State) {
    && (s.signals > 0 || s.signalled ==> !s.running)
    && (s.signalled && s.place == Waiting ==> s.signals > 0)
    && (s.memory.last.None? ==> s.verdicts == [])
  }

  ghost predicate Inv(s: State) {
    Counted(s) && Numbered(s) && Split(s) && Sequential(s) && Stopping(s)
  }

  lemma EnqueueKeeps(s: State, time: u64, noDrop: bool)
    requires Inv(s)
    ensures Inv(Enqueue(s, time, noDrop))
  {
    var t := Enqueue(s, time, noDrop);
    var n := |s.verdicts|;
    assert t.all[..n] == s.all[..n];
    assert t.all[n..] == s.all[n..] + [t.all[|s.all|]];
    assert InHand(s.place) + s.queue + [t.all[|s.all|]] == InHand(t.place) + t.queue;
  }

  lemma TakeKeeps(s: State)
    requires Inv(s) && s.place == Permitted
    ensures Inv(Take(s))
  {
    if s.queue != [] {
      assert [s.queue[0]] + s.queue[1..] == [] + s.queue;
    } else {
      assert s.signals > 0;
    }
  }

  lemma ProcessKeeps(s: State, begin: u64, end: u64)
    requires Inv(s) && s.place.Holding?
    ensures Inv(Process(s, begin, end))
  {
    hide InTime;
    var t := Process(s, begin, end);
    var n := |s.verdicts|;
    var f := s.place.f;
    assert s.all[n] == s.all[n..][0] == f;
    assert t.all[..n + 1][..n] == s.all[..n] && t.all[..n + 1][n] == f;
    assert t.clocks[..n] == s.clocks && t.verdicts[..n] == s.verdicts;
    assert t.all[n + 1..] == s.all[n..][1..] == s.queue == InHand(t.place) + t.queue;
    assert seq(n + 1, i => i) == seq(n, i => i) + [n];
  }

  lemma StepKeeps(s: State, e: Event)
    requires Inv(s) && Possible(s, e)
    ensures Inv(Step(s, e))
  {
    match e {
      case Enqueues(time, noDrop) => EnqueueKeeps(s, time, noDrop);
      case Takes => TakeKeeps(s);
      case Processes(begin, end) => ProcessKeeps(s, begin, end);
      case _ =>
        assert InHand(Step(s, e).place) == InHand(s.place);
    }
    hide Enqueue, Take, Process, JudgeAll, Kept;
  }

  ghost predicate IsRun(events: seq<Event>, states: seq<State>) {
    && |states| == |events| + 1 && states[0] == Initial()
    && forall i :: 0 <= i < |events| ==> Possible(states[i], events[i]) && states[i + 1] == Step(states[i], events[i])
  }

  ghost predicate Reachable(s: State) {
    exists events, states :: IsRun(events, states) && s == states[|events|]
  }

  lemma {:induction false} RunKeepsInv(events: seq<Event>, states: seq<State>, i: nat)
    requires IsRun(events, states) && i < |states|
    ensures Inv(states[i])
  {
    if i == 0 {
      assert seq(0, j => j) == [];
    } else {
      RunKeepsInv(events, states, i - 1);
      hide Inv, Possible, Step;
      StepKeeps(states[i - 1], events[i - 1]);
    }
  }

  lemma ReachableInv(s: State)
    requires Reachable(s)
    ensures Inv(s)
  {
    var events, states :| IsRun(events, states) && s == states[|events|];
    RunKeepsInv(events, states, |events|);
  }

  // ---------------------------------------------------------------- consequences

  /** Whatever the interleaving, the frames judged so far are a prefix of those enqueued, they are
      judged exactly as one sequential pass over that prefix would, and each of their buffers has
      been freed once, in order. */
  lemma RunsAreSequential(s: State)
    requires Reachable(s)
    ensures var n := |s.verdicts|;
            && n == |s.clocks| <= |s.all|
            && s.verdicts == JudgeAll(s.all[..n], s.clocks).0
            && s.delivered == Kept(s.all[..n], s.verdicts)
            && s.freed == seq(n, i => i)
            && s.all[n..] == InHand(s.place) + s.queue
  {
    ReachableInv(s);
  }

  /** Semaphore permits, plus the one the consumer has taken but not yet used, equal queued frames
      plus stop signals; so a consumer that must wait has nothing to miss, and one that finds the
      queue empty was woken by stop. */
  lemma PermitsMatch(s: State)
    requires Reachable(s)
    ensures s.place != Permitted ==> s.permits == |s.queue| + s.signals
    ensures s.place == Permitted ==> s.permits + 1 == |s.queue| + s.signals
    ensures s.place == Permitted && s.queue == [] ==> s.signals > 0 && !s.running
  {
    ReachableInv(s);
    hide Split, Sequential, Numbered;
  }

  lemma {:induction false} KeptOrder(fs: seq<Frame>, clocks: seq<(u64, u64)>, i: nat)
    requires |fs| == |clocks|
    ensures var (vs, m) := JudgeAll(fs, clocks); var ks := Kept(fs, vs);
            && (m.last.None? <==> ks == [])
            && (ks != [] ==> m.last == Some(ks[|ks| - 1].time))
            && (i + 1 < |ks| ==> ks[i].time <= ks[i + 1].time)
  {
    if fs != [] {
      var n := |fs| - 1;
      KeptOrder(fs[..n], clocks[..n], i);
      var (vs, m) := JudgeAll(fs[..n], clocks[..n]);
      assert JudgeAll(fs, clocks).0[..n] == vs;
      hide InTime;
    }
  }

  lemma {:induction false} KeptIds(fs: seq<Frame>, vs: seq<Verdict>, i: nat)
    requires |fs| == |vs| && forall j :: 0 <= j < |fs| ==> fs[j].id == j
    ensures var ks := Kept(fs, vs);
            && (forall j :: 0 <= j < |ks| ==> ks[j].id < |fs| && ks[j] == fs[ks[j].id])
            && (i + 1 < |ks| ==> ks[i].id < ks[i + 1].id)
  {
    if fs != [] {
      var n := |fs| - 1;
      KeptIds(fs[..n], vs[..n], i);
    }
  }

  /** The delivered frames are a subsequence of the enqueued ones, in order, with non-decreasing
      times. */
  lemma DeliveredInOrder(s: State, i: nat)
    requires Reachable(s) && i + 1 < |s.delivered|
    ensures s.delivered[i].id < s.delivered[i + 1].id < |s.all|
    ensures s.delivered[i] == s.all[s.delivered[i].id] && s.delivered[i + 1] == s.all[s.delivered[i + 1].id]
    ensures s.delivered[i].time <= s.delivered[i + 1].time
  {
    ReachableInv(s);
    var n := |s.verdicts|;
    KeptOrder(s.all[..n], s.clocks, i);
    KeptIds(s.all[..n], s.verdicts, i);
    hide JudgeAll, Kept;
    assert forall j :: 0 <= j < n ==> s.all[..n][j] == s.all[j];
  }

  lemma {:induction false} JudgedAt(fs: seq<Frame>, clocks: seq<(u64, u64)>, i: nat)
    requires |fs| == |clocks| && i < |fs|
    ensures |JudgeAll(fs, clocks).0| == |fs|
    ensures JudgeAll(fs, clocks).0[i] == Judge(JudgeAll(fs[..i], clocks[..i]).1, fs[i])
    ensures i > 0 ==> JudgeAll(fs[..i], clocks[..i]).1.last.Some?
  {
    var n := |fs| - 1;
    if i < n {
      JudgedAt(fs[..n], clocks[..n], i);
      assert fs[..n][..i] == fs[..i] && clocks[..n][..i] == clocks[..i];
    } else if n > 0 {
      JudgedAt(fs[..n], clocks[..n], n - 1);
    }
  }

  /** Not older, not protected, and too soon after a slow callback. The subtraction, which the code
      does in 64 bits, stays in range; only the added slack can wrap. */
  predicate MustDrop(m: Memory, f: Frame)
    requires m.last.Some?
  {
    var gap := f.time - m.last.value;
    0 <= gap < 0x1_0000_0000_0000_0000 && !f.noDrop && (gap + 15000) % 0x1_0000_0000_0000_0000 <= m.processing
  }

  /** The exact rule for every judged frame but the first, with `last` the time of the last
      delivered frame before it: it is skipped as older exactly when its time is below `last`;
      otherwise the subtraction does not wrap, and it is dropped exactly under MustDrop. A frame
      marked noDrop is skipped only as older. */
  lemma SkipRule(s: State, i: nat)
    requires Reachable(s) && 0 < i < |s.verdicts|
    ensures i < |s.all| && i < |s.clocks|
    ensures var m := JudgeAll(s.all[..i], s.clocks[..i]).1; var f := s.all[i];
            && m.last.Some?
            && (s.verdicts[i].Older? <==> f.time < m.last.value)
            && (s.verdicts[i].Dropped? <==> MustDrop(m, f))
  {
    ReachableInv(s);
    var n := |s.verdicts|;
    assert JudgeAll(s.all[..n], s.clocks).0 == s.verdicts;
    hide JudgeAll, Kept, Reachable, Inv, Judge, MustDrop;
    JudgedAt(s.all[..n], s.clocks, i);
    assert s.all[..n][..i] == s.all[..i] && s.all[..n][i] == s.all[i];
    JudgeRule(JudgeAll(s.all[..i], s.clocks[..i]).1, s.all[i]);
  }

  lemma JudgeRule(m: Memory, f: Frame)
    requires m.last.Some?
    ensures Judge(m, f).Older? <==> f.time < m.last.value
    ensures Judge(m, f).Dropped? <==> MustDrop(m, f)
  {
    if m.last.value <= f.time {
      assert (f.time - m.last.value) % U64 == f.time - m.last.value;
    }
  }

  /** The first frame is always delivered. */
  lemma FirstIsDelivered(s: State)
    requires Reachable(s) && s.verdicts != []
    ensures s.verdicts[0] == Delivered
  {
    ReachableInv(s);
    var n := |s.verdicts|;
    JudgedAt(s.all[..n], s.clocks, 0);
    assert s.all[..n][..0] == [] && s.clocks[..0] == [];
    hide Reachable, Split, Counted, Numbered;
  }

  /** Delivered frame k is the last delivered one among the judged frames. */
  predicate LastDelivered(vs: seq<Verdict>, k: nat) {
    k < |vs| && vs[k].Delivered? && forall j :: k < j < |vs| ==> !vs[j].Delivered?
  }

  /** What the consumer remembers are the time and the callback duration of the last delivered
      frame. */
  lemma {:induction false} MemoryOfLastDelivered(fs: seq<Frame>, clocks: seq<(u64, u64)>, k: nat)
    requires |fs| == |clocks| && LastDelivered(JudgeAll(fs, clocks).0, k)
    ensures JudgeAll(fs, clocks).1 == Memory(Some(fs[k].time), (clocks[k].1 - clocks[k].0) % U64)
  {
    var n := |fs| - 1;
    var (vs, m) := JudgeAll(fs[..n], clocks[..n]);
    hide InTime;
    if k < n {
      assert JudgeAll(fs, clocks).0[n] == Judge(m, fs[n]);
      assert JudgeAll(fs, clocks).0[..n] == vs;
      assert forall j :: 0 <= j < n ==> vs[j] == JudgeAll(fs, clocks).0[..n][j] == JudgeAll(fs, clocks).0[j];
      MemoryOfLastDelivered(fs[..n], clocks[..n], k);
    }
  }

  // ---------------------------------------------------------------- stopping

  /** The consumer's next step, whatever clock readings it will see. */
  function NextStep(p: Place): Option<Event> {
    match p
    case Waiting => Some(Acquires)
    case Permitted => Some(Takes)
    case Holding(_) => Some(Processes(0, 0))
    case Testing => Some(Tests)
    case Ended => None
  }

  /** No wake-up is lost: once stop has released its permit, the consumer is never blocked before
      it has returned. */
  lemma StopWakes(s: State)
    requires Reachable(s) && s.signalled && s.place != Ended
    ensures Possible(s, NextStep(s.place).value)
  {
    ReachableInv(s);
    hide Split, Sequential, Numbered, Reachable;
  }

  predicate OfConsumer(e: Event) {
    e.Acquires? || e.Takes? || e.Processes? || e.Tests?
  }

  function Turns(events: seq<Event>): nat {
    if events == [] then 0
    else Turns(events[..|events| - 1]) + (if OfConsumer(events[|events| - 1]) then 1 else 0)
  }

  /** How many steps the consumer has left at most once running is clear. */
  function StepsLeft(p: Place): nat {
    match p
    case Waiting => 4
    case Permitted => 3
    case Holding(_) => 2
    case Testing => 1
    case Ended => 0
  }

  /** Once the flag is clear the consumer returns after at most four more steps of its own, whatever
      the producers do in between; with StopWakes, the join in stop always returns. */
  lemma {:induction false} ConsumerEnds(events: seq<Event>, states: seq<State>, i: nat, j: nat)
    requires IsRun(events, states) && i <= j < |states| && !states[i].running
    ensures !states[j].running
    ensures Turns(events[i..j]) + StepsLeft(states[j].place) <= StepsLeft(states[i].place) <= 4
    decreases j
  {
    hide Turns, StepsLeft, Possible, Step;
    if i == j {
      assert events[i..j] == [];
      NoTurns();
      FourLeft(states[i].place);
    } else {
      ConsumerEnds(events, states, i, j - 1);
      StepTurns(states[j - 1], events[j - 1]);
      assert events[i..j] == events[i..j - 1] + [events[j - 1]];
      TurnsOne(events[i..j - 1], events[j - 1]);
    }
  }

  lemma NoTurns()
    ensures Turns([]) == 0
  {
  }

  lemma FourLeft(p: Place)
    ensures StepsLeft(p) <= 4
  {
  }

  lemma TurnsOne(events: seq<Event>, e: Event)
    ensures Turns(events + [e]) == Turns(events) + (if OfConsumer(e) then 1 else 0)
  {
    assert (events + [e])[..|events|] == events;
  }

  lemma StepTurns(s: State, e: Event)
    requires Possible(s, e) && !s.running
    ensures var t := Step(s, e);
            !t.running && (if OfConsumer(e) then 1 else 0) + StepsLeft(t.place) <= StepsLeft(s.place)
  {
    hide Judge, Remember;
  }

  /** A consumer that is woken to an empty queue returns at once if it has seen no frame yet, and goes to its
      loop test otherwise. */
  lemma EmptyWake(s: State)
    requires Reachable(s) && s.place == Permitted && s.queue == []
    ensures Step(s, Takes).place == if s.verdicts == [] then Ended else Testing
  {
    ReachableInv(s);
    hide Reachable, Split, Numbered, Counted;
    assert s.all[..0] == [] && s.verdicts == [] ==> s.clocks == [];
  }

  // ---------------------------------------------------------------- what stop leaves behind

  /** When the consumer has returned, the buffers not freed are those of the queued frames. */
  lemma UnfreedAreQueued(s: State)
    requires Reachable(s) && s.place == Ended
    ensures AllFreed(s) <==> s.queue == []
  {
    ReachableInv(s);
    hide JudgeAll, Kept, Reachable;
    var n := |s.verdicts|;
    assert s.all[n..] == s.queue;
    forall id | 0 <= id < n ensures id in s.freed {
      assert s.freed[id] == id;
    }
    if s.queue != [] {
      assert n !in s.freed;
    }
  }

  /** Every buffer that enqueue ever allocated has been freed. */
  predicate AllFreed(s: State) {
    forall id :: 0 <= id < |s.all| ==> id in s.freed
  }

  /** How many frames the consumer can still take once running is clear. */
  function MayTake(p: Place): nat {
    if p == Waiting || p == Permitted then 1 else 0
  }

  function Enqueued(events: seq<Event>): nat {
    if events == [] then 0
    else Enqueued(events[..|events| - 1]) + (if events[|events| - 1].Enqueues? then 1 else 0)
  }

  lemma EnqueuedOne(events: seq<Event>, e: Event)
    ensures Enqueued(events + [e]) == Enqueued(events) + (if e.Enqueues? then 1 else 0)
  {
    assert (events + [e])[..|events|] == events;
  }

  lemma NoneEnqueued()
    ensures Enqueued([]) == 0
  {
  }

  lemma StepTakes(s: State, e: Event)
    requires Possible(s, e) && !s.running
    ensures var t := Step(s, e); var n := if e.Enqueues? then 1 else 0;
            && !t.running
            && |s.queue| + n + MayTake(t.place) <= |t.queue| + MayTake(s.place)
            && (n == 0 && |s.queue| <= MayTake(s.place) ==> |t.queue| <= MayTake(t.place))
  {
    hide Judge, Remember;
  }

  /** Once the flag is clear the consumer takes at most one more frame, and none unless it stands
      before a dequeue; every other frame queued then or later stays in the queue. */
  lemma {:induction false} StopTakesAtMostOne(events: seq<Event>, states: seq<State>, i: nat, j: nat)
    requires IsRun(events, states) && i <= j < |states| && !states[i].running
    ensures !states[j].running
    ensures |states[i].queue| + Enqueued(events[i..j]) + MayTake(states[j].place)
         <= |states[j].queue| + MayTake(states[i].place)
    ensures Enqueued(events[i..j]) == 0 && |states[i].queue| <= MayTake(states[i].place) ==>
              |states[j].queue| <= MayTake(states[j].place)
    decreases j
  {
    hide Enqueued, MayTake, Possible, Step;
    if i == j {
      assert events[i..j] == [];
      NoneEnqueued();
    } else {
      StopTakesAtMostOne(events, states, i, j - 1);
      StepTakes(states[j - 1], events[j - 1]);
      assert events[i..j] == events[i..j - 1] + [events[j - 1]];
      EnqueuedOne(events[i..j - 1], events[j - 1]);
    }
  }

  lemma ReachedInRun(events: seq<Event>, states: seq<State>, j: nat)
    requires IsRun(events, states) && j < |states|
    ensures Reachable(states[j])
  {
    hide Possible, Step;
    assert IsRun(events[..j], states[..j + 1]) && states[j] == states[..j + 1][|events[..j]|];
  }

  /** Whether stop frees every buffer is decided by the state in which the flag is clear: with all
      frames in before that, exactly when no more are queued than the consumer can still take, that
      is one before a dequeue and none elsewhere; and never with more frames than that. */
  lemma StopFreesAllExact(events: seq<Event>, states: seq<State>, i: nat, j: nat)
    requires IsRun(events, states) && i <= j < |states| && !states[i].running && states[j].place == Ended
    ensures Enqueued(events[i..j]) == 0 ==>
              (AllFreed(states[j]) <==> |states[i].queue| <= MayTake(states[i].place))
    ensures |states[i].queue| + Enqueued(events[i..j]) > MayTake(states[i].place) ==> !AllFreed(states[j])
  {
    hide IsRun, Reachable, AllFreed, Enqueued;
    StopTakesAtMostOne(events, states, i, j);
    ReachedInRun(events, states, j);
    UnfreedAreQueued(states[j]);
  }

  /** Such a run: two frames, then stop; the second is never freed. */
  lemma TwoFramesLeaveOne(time: u64, begin: u64, end: u64) returns (events: seq<Event>, states: seq<State>)
    ensures IsRun(events, states)
    ensures var t := states[|events|];
            t.place == Ended && t.delivered == [Frame(0, time, false)] && t.freed == [0]
            && t.queue == [Frame(1, time, false)] && !AllFreed(t)
  {
    hide InTime;
    var s0 := Initial();
    var s1 := Enqueue(s0, time, false);
    var s2 := Enqueue(s1, time, false);
    var s3 := Step(s2, ClearsFlag);
    var s4 := Step(s3, Signals);
    var s5 := Step(s4, Acquires);
    var s6 := Step(s5, Takes);
    var s7 := Step(s6, Processes(begin, end));
    var s8 := Step(s7, Tests);
    events := [Enqueues(time, false), Enqueues(time, false), ClearsFlag, Signals, Acquires, Takes,
               Processes(begin, end), Tests];
    states := [s0, s1, s2, s3, s4, s5, s6, s7, s8];
    assert 1 !in s8.freed;
  }
}
