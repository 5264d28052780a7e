/** The camera HTTP transport of src/cameractrl/zc_http_transport.cpp: a first-in first-out queue
    that keeps one request on the wire, calls back re-entrantly, retries once after a challenge
    and counts the uses of a nonce. */
module Transport {
  import opened Common
  import opened Digest

  /** A queued get, getQuery or post. */
  datatype Request = Request(isPost: bool, uri: string)

  /** What an Authorization header is built from, the client nonce and the hashes aside. */
  datatype Auth = Auth(isPost: bool, uri: string, username: string, challenge: Challenge, nc: nat) {
    /** The nonce count as it is printed; it is left out when no protection was offered. */
    function CountShown(): Option<seq<digit>> {
      if ChosenQop(challenge.qop) == "" then None else Some(CountText(nc))
    }
  }

  /** One request put on the wire, with the credentials in force at that moment. `epoch` counts
      the changes of nonce or credentials so far. */
  datatype Send = Send(req: Request, retry: bool, auth: Option<Auth>,
                       username: string, challenge: Challenge, epoch: nat)

  /** A reply the network still owes, and how often its request may be repeated. */
  datatype Owed = Owed(req: Request, retries: nat)

  /** The transport's fields, and the history of what it did. */
  datatype State = State(
    queue: seq<Request>, busy: bool,
    username: string, challenge: Challenge, nc: nat, header: Option<Auth>,
    owed: seq<Owed>, epoch: nat,
    enqueued: seq<Request>, sends: seq<Send>, answered: seq<Request>)

  const NO_CHALLENGE := Challenge("", "", "", "", false)

  function Initial(): State {
    State([], false, "", NO_CHALLENGE, 0, None, [], 0, [], [], [])
  }

  // ---------------------------------------------------------------- operations

  /** buildAuthorization, when there is a nonce and a user. */
  function Authorize(s: State, req: Request): State {
    if s.challenge.nonce == "" || s.username == "" then s
    else s.(nc := s.nc + 1,
            header := Some(Auth(req.isPost, req.uri, s.username, s.challenge, s.nc + 1)))
  }

  /** send and doRequest. */
  function DoRequest(s: State, req: Request, retries: nat): State {
    var a := Authorize(s, req);
    a.(sends := a.sends + [Send(req, retries == 0, a.header, a.username, a.challenge, a.epoch)],
       owed := a.owed + [Owed(req, retries)])
  }

  function Pump(s: State): State {
    if s.busy || s.queue == [] then s
    else DoRequest(s.(busy := true, queue := s.queue[1..]), s.queue[0], 1)
  }

  function Enqueue(s: State, req: Request): State {
    Pump(s.(queue := s.queue + [req], enqueued := s.enqueued + [req]))
  }

  function SetCredentials(s: State, username: string): State {
    s.(username := username, header := None, challenge := s.challenge.(nonce := ""), nc := 0,
       epoch := s.epoch + 1)
  }

  /** The new parameters are kept; only a new nonce starts the count again. */
  function TakeChallenge(s: State, c: Challenge): State {
    if c.nonce == s.challenge.nonce then s.(challenge := c)
    else s.(challenge := c, nc := 0, header := None, epoch := s.epoch + 1)
  }

  /** What callers do, from outside or from inside a callback. */
  datatype Action = Call(req: Request) | Login(username: string)

  function Perform(s: State, a: Action): State {
    match a
    case Call(req) => Enqueue(s, req)
    case Login(username) => SetCredentials(s, username)
  }

  function PerformAll(s: State, actions: seq<Action>): State
    decreases |actions|
  {
    if actions == [] then s else PerformAll(Perform(s, actions[0]), actions[1..])
  }

  /** The status of a finished reply, and its WWW-Authenticate-X and WWW-Authenticate headers. */
  datatype Reply = Reply(code: int, custom: string, standard: string) {
    function Header(): string { if custom == "" then standard else custom }
  }

  predicate Retries(s: State, o: Owed, r: Reply) {
    r.code == 401 && o.retries > 0 && s.username != "" && ParseChallenge(r.Header()).Some?
  }

  /** onFinished for the k-th owed reply, whose callback performs the given actions. */
  function OnFinished(s: State, k: nat, r: Reply, callback: seq<Action>): State
    requires k < |s.owed|
  {
    var o := s.owed[k];
    var t := s.(owed := s.owed[..k] + s.owed[k + 1..]);
    if Retries(s, o, r) then DoRequest(TakeChallenge(t, ParseChallenge(r.Header()).value), o.req, o.retries - 1)
    else Pump(PerformAll(t.(busy := false, answered := t.answered + [o.req]), callback))
  }

  class HttpTransport {
    var queue: seq<Request>
    var busy: bool
    var username: string
    var challenge: Challenge
    var nc: nat
    var header: Option<Auth>
    var owed: seq<Owed>
    ghost var epoch: nat
    ghost var enqueued: seq<Request>
    ghost var sends: seq<Send>
    ghost var answered: seq<Request>

    ghost function Abs(): State reads this {
      State(queue, busy, username, challenge, nc, header, owed, epoch, enqueued, sends, answered)
    }

    constructor ()
      ensures Abs() == Initial()
    {
      queue, busy, username, challenge, nc, header, owed := [], false, "", NO_CHALLENGE, 0, None, [];
      epoch, enqueued, sends, answered := 0, [], [], [];
    }

    method DoIssue(req: Request, retries: nat)
      modifies this
      ensures Abs() == DoRequest(old(Abs()), req, retries)
    {
      if challenge.nonce != "" && username != "" {
        nc := nc + 1;
        header := Some(Auth(req.isPost, req.uri, username, challenge, nc));
      }
      sends := sends + [Send(req, retries == 0, header, username, challenge, epoch)];
      owed := owed + [Owed(req, retries)];
    }

    method DoPump()
      modifies this
      ensures Abs() == Pump(old(Abs()))
    {
      if busy || queue == [] {
        return;
      }
      busy := true;
      var next := queue[0];
      queue := queue[1..];
      DoIssue(next, 1);
    }

    method Do(a: Action)
      modifies this
      ensures Abs() == Perform(old(Abs()), a)
    {
      match a
      case Call(req) =>
        queue := queue + [req];
        enqueued := enqueued + [req];
        DoPump();
      case Login(user) =>
        username := user;
        header := None;
        challenge := challenge.(nonce := "");
        nc := 0;
        epoch := epoch + 1;
    }

    method Finish(k: nat, r: Reply, callback: seq<Action>)
      requires k < |owed|
      modifies this
      ensures Abs() == OnFinished(old(Abs()), k, r, callback)
    {
      hide DoRequest, Pump, PerformAll, ParseChallenge;
      var o := owed[k];
      owed := owed[..k] + owed[k + 1..];
      if r.code == 401 && o.retries > 0 && username != "" {
        var c := ReadChallenge(r.Header());
        if c.Some? {
          Adopt(c.value);
          DoIssue(o.req, o.retries - 1);
          return;
        }
      }
      busy := false;
      answered := answered + [o.req];
      RunCallback(callback);
      DoPump();
    }

    /** The end of parseChallenge. */
    method Adopt(c: Challenge)
      modifies this
      ensures Abs() == TakeChallenge(old(Abs()), c)
    {
      if c.nonce != challenge.nonce {
        nc := 0;
        header := None;
        epoch := epoch + 1;
      }
      challenge := c;
    }

    method RunCallback(actions: seq<Action>)
      modifies this
      ensures Abs() == PerformAll(old(Abs()), actions)
    {
      hide Perform;
      var i := 0;
      assert actions[0..] == actions;
      while i < |actions|
        invariant i <= |actions|
        invariant PerformAll(old(Abs()), actions) == PerformAll(Abs(), actions[i..])
      {
        assert actions[i..][1..] == actions[i + 1..];
        Do(actions[i]);
        i := i + 1;
      }
    }
  }

  // ---------------------------------------------------------------- what every run keeps

  function Reqs(owed: seq<Owed>): seq<Request> {
    seq(|owed|, i requires 0 <= i < |owed| => owed[i].req)
  }

  /** The requests in the order of their first sends. */
  function Started(sends: seq<Send>): seq<Request> {
    if sends == [] then []
    else Started(sends[..|sends| - 1])
         + (if sends[|sends| - 1].retry then [] else [sends[|sends| - 1].req])
  }

  /** A repeated send directly follows the first send of the same request. */
  ghost predicate RetriesAdjacent(sends: seq<Send>) {
    forall i :: 0 <= i < |sends| && sends[i].retry ==>
      i > 0 && !sends[i - 1].retry && sends[i - 1].req == sends[i].req
  }

  /** Holds at every moment, even inside a callback. */
  ghost predicate Core(s: State) {
    && |s.owed| == (if s.busy then 1 else 0)
    && s.enqueued == s.answered + Reqs(s.owed) + s.queue
    && Started(s.sends) == s.answered + Reqs(s.owed)
    && RetriesAdjacent(s.sends)
    && (s.busy ==>
          && s.owed[0].retries <= 1 && s.sends != []
          && var last := s.sends[|s.sends| - 1];
             last.req == s.owed[0].req && last.retry == (s.owed[0].retries == 0))
  }

  /** Authorized sends among the first i, in the given epoch. */
  function Uses(sends: seq<Send>, epoch: nat): nat {
    if sends == [] then 0
    else Uses(sends[..|sends| - 1], epoch)
         + (if sends[|sends| - 1].auth.Some? && sends[|sends| - 1].epoch == epoch then 1 else 0)
  }

  /** A send is authorized exactly when there is a user and a nonce, for its own method and URI,
      with the current user and nonce, and with the next count of its epoch. */
  ghost predicate SendAuthorized(sends: seq<Send>, i: nat)
    requires i < |sends|
  {
    var x := sends[i];
    if x.username != "" && x.challenge.nonce != "" then
      x.auth == Some(Auth(x.req.isPost, x.req.uri, x.username, x.challenge, Uses(sends[..i], x.epoch) + 1))
    else x.auth == None
  }

  /** Epochs do not go back, and within one epoch neither nonce nor user changes. */
  ghost predicate Epochs(sends: seq<Send>) {
    && (forall i, j :: 0 <= i < j < |sends| ==> sends[i].epoch <= sends[j].epoch)
    && (forall i, j :: 0 <= i < j < |sends| && sends[i].epoch == sends[j].epoch ==>
          sends[i].challenge.nonce == sends[j].challenge.nonce && sends[i].username == sends[j].username)
  }

  ghost predicate AllAuthorized(sends: seq<Send>) {
    forall i :: 0 <= i < |sends| ==> SendAuthorized(sends, i)
  }

  /** No send is of a later epoch, and those of the current one had the current nonce and user. */
  ghost predicate UpTo(sends: seq<Send>, epoch: nat, nonce: string, username: string) {
    forall i :: 0 <= i < |sends| ==>
      && sends[i].epoch <= epoch
      && (sends[i].epoch == epoch ==> sends[i].challenge.nonce == nonce && sends[i].username == username)
  }

  ghost predicate Counted(s: State) {
    && (s.header.Some? ==> s.challenge.nonce != "" && s.username != "")
    && AllAuthorized(s.sends) && Epochs(s.sends)
    && UpTo(s.sends, s.epoch, s.challenge.nonce, s.username)
    && s.nc == Uses(s.sends, s.epoch)
  }

  /** Holds between events: a waiting request implies one on the wire. */
  ghost predicate Inv(s: State) {
    Core(s) && Counted(s) && (s.queue != [] ==> s.busy)
  }

  lemma EpochsExtend(sends: seq<Send>, x: Send)
    requires Epochs(sends) && UpTo(sends, x.epoch, x.challenge.nonce, x.username)
    ensures Epochs(sends + [x]) && UpTo(sends + [x], x.epoch, x.challenge.nonce, x.username)
  {
  }

  lemma AuthorizedExtends(sends: seq<Send>, x: Send)
    requires AllAuthorized(sends)
    requires x.auth == if x.username != "" && x.challenge.nonce != ""
                       then Some(Auth(x.req.isPost, x.req.uri, x.username, x.challenge,
                                      Uses(sends, x.epoch) + 1))
                       else None
    ensures AllAuthorized(sends + [x])
  {
    forall i | 0 <= i < |sends + [x]| ensures SendAuthorized(sends + [x], i) {
      if i < |sends| {
        assert SendAuthorized(sends, i);
        assert (sends + [x])[..i] == sends[..i];
      } else {
        assert (sends + [x])[..i] == sends;
      }
    }
  }

  /** A new epoch begins with no uses, whatever its nonce and user. */
  lemma {:induction false} NewEpoch(sends: seq<Send>, epoch: nat, nonce: string, username: string,
                                    newNonce: string, newUser: string)
    requires UpTo(sends, epoch, nonce, username)
    ensures Uses(sends, epoch + 1) == 0 && UpTo(sends, epoch + 1, newNonce, newUser)
  {
    if sends != [] {
      NewEpoch(sends[..|sends| - 1], epoch, nonce, username, newNonce, newUser);
    }
  }

  lemma DoRequestKeepsCounted(s: State, req: Request, retries: nat)
    requires Counted(s)
    ensures Counted(DoRequest(s, req, retries))
  {
    var t := DoRequest(s, req, retries);
    var x := t.sends[|s.sends|];
    hide AllAuthorized, Epochs, UpTo;
    AuthorizedExtends(s.sends, x);
    EpochsExtend(s.sends, x);
    assert t.sends[..|t.sends| - 1] == s.sends;
  }

  /** A first send appends to the start order, a retry does not. */
  lemma DoRequestKeepsCore(s: State, req: Request, retries: nat)
    requires s.busy && s.owed == [] && retries <= 1
    requires s.enqueued == s.answered + [req] + s.queue && RetriesAdjacent(s.sends)
    requires if retries == 1 then Started(s.sends) == s.answered
             else s.sends != [] && Started(s.sends) == s.answered + [req]
                  && var last := s.sends[|s.sends| - 1]; !last.retry && last.req == req
    ensures Core(DoRequest(s, req, retries))
  {
    var t := DoRequest(s, req, retries);
    assert Reqs(t.owed) == [req];
    assert t.sends[..|t.sends| - 1] == s.sends;
  }

  lemma PumpKeeps(s: State)
    requires Core(s) && Counted(s)
    ensures Inv(Pump(s))
  {
    if !s.busy && s.queue != [] {
      var t := s.(busy := true, queue := s.queue[1..]);
      assert Reqs(s.owed) == [];
      assert s.enqueued == s.answered + [s.queue[0]] + s.queue[1..];
      assert Started(s.sends) == s.answered;
      DoRequestKeepsCore(t, s.queue[0], 1);
      DoRequestKeepsCounted(t, s.queue[0], 1);
    }
  }

  lemma PerformKeeps(s: State, a: Action)
    requires Core(s) && Counted(s)
    ensures Core(Perform(s, a)) && Counted(Perform(s, a))
    ensures a.Call? || (s.queue != [] ==> s.busy) ==> Inv(Perform(s, a))
  {
    match a
    case Call(req) =>
      var t := s.(queue := s.queue + [req], enqueued := s.enqueued + [req]);
      assert t.enqueued == t.answered + Reqs(t.owed) + t.queue;
      PumpKeeps(t);
    case Login(_) =>
      NewEpoch(s.sends, s.epoch, s.challenge.nonce, s.username, "", a.username);
  }

  lemma {:induction false} PerformAllKeeps(s: State, actions: seq<Action>)
    requires Core(s) && Counted(s)
    ensures Core(PerformAll(s, actions)) && Counted(PerformAll(s, actions))
    decreases |actions|
  {
    if actions != [] {
      PerformKeeps(s, actions[0]);
      PerformAllKeeps(Perform(s, actions[0]), actions[1..]);
    }
  }

  lemma OnFinishedKeeps(s: State, k: nat, r: Reply, callback: seq<Action>)
    requires Inv(s) && k < |s.owed|
    ensures Inv(OnFinished(s, k, r, callback))
  {
    assert s.owed[..k] + s.owed[k + 1..] == [];
    hide Inv, Core, Counted, ParseChallenge, DoRequest, Pump, PerformAll;
    if Retries(s, s.owed[k], r) {
      RetryKeeps(s, k, ParseChallenge(r.Header()).value);
    } else {
      AnswerKeeps(s, k, callback);
    }
  }

  lemma RetryKeeps(s: State, k: nat, c: Challenge)
    requires Inv(s) && k < |s.owed| && s.owed[k].retries > 0 && c.nonce != ""
    ensures Inv(DoRequest(TakeChallenge(s.(owed := []), c), s.owed[k].req, s.owed[k].retries - 1))
  {
    hide AllAuthorized, Epochs, UpTo;
    var o, t := s.owed[k], s.(owed := []);
    assert Reqs(s.owed) == [o.req] && Reqs(t.owed) == [];
    TakeChallengeKeeps(t, c);
    var u := TakeChallenge(t, c);
    DoRequestKeepsCore(u, o.req, o.retries - 1);
    DoRequestKeepsCounted(u, o.req, o.retries - 1);
    hide DoRequest, Core, Counted;
    assert u.queue == s.queue && u.busy;
    Kept(u, o.req, o.retries - 1);
  }

  lemma Kept(s: State, req: Request, retries: nat)
    ensures DoRequest(s, req, retries).queue == s.queue && DoRequest(s, req, retries).busy == s.busy
  {
  }

  lemma AnswerKeeps(s: State, k: nat, callback: seq<Action>)
    requires Inv(s) && k < |s.owed|
    ensures var u := s.(owed := [], busy := false, answered := s.answered + [s.owed[k].req]);
            Inv(Pump(PerformAll(u, callback)))
  {
    hide AllAuthorized, Epochs, UpTo;
    var u := s.(owed := [], busy := false, answered := s.answered + [s.owed[k].req]);
    assert Reqs(s.owed) == [s.owed[k].req] && Reqs(u.owed) == [];
    assert u.answered + [] == u.answered;
    assert Core(u) && Counted(u);
    hide Core, Counted, Pump;
    PerformAllKeeps(u, callback);
    PumpKeeps(PerformAll(u, callback));
  }

  lemma TakeChallengeKeeps(s: State, c: Challenge)
    requires Counted(s) && c.nonce != ""
    ensures Counted(TakeChallenge(s, c))
  {
    hide AllAuthorized, Epochs, UpTo;
    NewEpoch(s.sends, s.epoch, s.challenge.nonce, s.username, c.nonce, s.username);
  }

  // ---------------------------------------------------------------- runs

  datatype Event = Outside(a: Action) | Finished(k: nat, r: Reply, callback: seq<Action>)

  ghost predicate Step(s: State, e: Event, t: State) {
    match e
    case Outside(a) => t == Perform(s, a)
    case Finished(k, r, callback) => k < |s.owed| && t == OnFinished(s, k, r, callback)
  }

  ghost predicate IsRun(events: seq<Event>, states: seq<State>) {
    && |states| == |events| + 1
    && states[0] == Initial()
    && forall i :: 0 <= i < |events| ==> Step(states[i], events[i], states[i + 1])
  }

  /** In every run, at every moment between events: at most one request is on the wire; requests
      start and are answered in the order they were queued, each answered once, after one send
      or two in direct succession; a waiting request implies a busy transport; and every
      Authorization header sent is built for its own request with the current nonce, user and
      the next count. */
  lemma {:induction false} RunKeepsInv(events: seq<Event>, states: seq<State>, i: nat)
    requires IsRun(events, states) && i < |states|
    ensures Inv(states[i])
  {
    hide Inv, Step;
    if i == 0 {
      NothingYetInv(states[0]);
    } else {
      RunKeepsInv(events, states, i - 1);
      StepKeepsInv(states[i - 1], events[i - 1], states[i]);
    }
  }

  lemma StepKeepsInv(s: State, e: Event, t: State)
    requires Inv(s) && Step(s, e, t)
    ensures Inv(t)
  {
    hide Inv, Perform, OnFinished;
    match e
    case Outside(a) => PerformKeepsInv(s, a);
    case Finished(k, r, callback) => OnFinishedKeeps(s, k, r, callback);
  }

  lemma PerformKeepsInv(s: State, a: Action)
    requires Inv(s)
    ensures Inv(Perform(s, a))
  {
    hide Core, Counted;
    PerformKeeps(s, a);
  }

  lemma NothingYetInv(s: State)
    requires s.queue == [] && !s.busy && s.nc == 0 && s.header == None && s.owed == []
    requires s.enqueued == [] && s.sends == [] && s.answered == []
    ensures Inv(s)
  {
    hide Started, Reqs, Uses, RetriesAdjacent, AllAuthorized, Epochs, UpTo;
    NothingSent(s.epoch, s.challenge.nonce, s.username);
  }

  lemma NothingSent(epoch: nat, nonce: string, username: string)
    ensures Started([]) == [] && Reqs([]) == [] && Uses([], epoch) == 0 && RetriesAdjacent([])
    ensures AllAuthorized([]) && Epochs([]) && UpTo([], epoch, nonce, username)
  {
  }

  /** Every request of every run is sent with an Authorization header exactly when there is a user
      and a nonce, and then with one built for its own method and URI, the current user and nonce,
      and the count 1, 2, 3, ... since the last change of nonce or credentials. */
  lemma SendsAreAuthorized(events: seq<Event>, states: seq<State>, i: nat, k: nat)
    requires IsRun(events, states) && i < |states| && k < |states[i].sends|
    ensures var x := states[i].sends[k];
            x.auth == if x.username != "" && x.challenge.nonce != ""
                      then Some(Auth(x.req.isPost, x.req.uri, x.username, x.challenge,
                                     Uses(states[i].sends[..k], x.epoch) + 1))
                      else None
  {
    RunKeepsInv(events, states, i);
    assert SendAuthorized(states[i].sends, k);
  }

  /** When no reply is owed, every request queued so far has been answered, once and in order. */
  lemma NothingOwedAllAnswered(events: seq<Event>, states: seq<State>, i: nat)
    requires IsRun(events, states) && i < |states| && states[i].owed == []
    ensures states[i].answered == states[i].enqueued
  {
    RunKeepsInv(events, states, i);
    assert Reqs(states[i].owed) == [];
  }

  // ---------------------------------------------------------------- what a reply and a login do

  /** The challenge is read from WWW-Authenticate-X, and from WWW-Authenticate where that is empty. */
  function Offered(r: Reply): Option<Challenge> {
    if r.custom != "" then ParseChallenge(r.custom) else ParseChallenge(r.standard)
  }

  /** In every run, the reply to a request is followed by a second send of it, and no callback, if and
      only if it is a 401 to the first send, there is a user, and it carries a challenge. That second
      send carries an Authorization with every parameter of that challenge, and the count 1 where the
      nonce is new. Any other reply calls back. */
  lemma RetryExact(events: seq<Event>, states: seq<State>, i: nat)
    requires IsRun(events, states) && i < |events| && events[i].Finished?
    ensures var s, t, r, k := states[i], states[i + 1], events[i].r, events[i].k;
            && k == 0 && |s.owed| == 1 && |s.sends| > 0
            && var last := s.sends[|s.sends| - 1];
               if r.code == 401 && !last.retry && s.username != "" && Offered(r).Some? then
                 && t.answered == s.answered && t.enqueued == s.enqueued && t.queue == s.queue
                 && |t.sends| == |s.sends| + 1 && t.sends[..|s.sends|] == s.sends
                 && var x, c := t.sends[|s.sends|], Offered(r).value;
                    && x.req == last.req && x.retry && x.challenge == c && t.challenge == c
                    && x.auth.Some? && x.auth.value.challenge == c && x.auth.value.username == s.username
                    && (c.nonce != s.challenge.nonce ==> x.auth.value.nc == 1)
               else s.answered + [last.req] <= t.answered
  {
    RunKeepsInv(events, states, i);
    var s, k, r, callback := states[i], events[i].k, events[i].r, events[i].callback;
    assert Step(s, events[i], states[i + 1]);
    hide ParseChallenge, IsRun, AllAuthorized, Epochs, UpTo, RetriesAdjacent, Started, Uses;
    assert s.owed == [s.owed[0]];
    if !Retries(s, s.owed[0], r) {
      var u := s.(owed := [], busy := false, answered := s.answered + [s.owed[0].req]);
      assert s.owed[..k] + s.owed[k + 1..] == [];
      AnsweredGrows(u, callback);
      PumpAnswers(PerformAll(u, callback));
    }
  }

  lemma PumpAnswers(s: State)
    ensures Pump(s).answered == s.answered
  {
  }

  lemma {:induction false} AnsweredGrows(s: State, actions: seq<Action>)
    ensures s.answered <= PerformAll(s, actions).answered
    decreases |actions|
  {
    if actions != [] {
      AnsweredGrows(Perform(s, actions[0]), actions[1..]);
    }
  }

  /** Logging in forgets the nonce and the cached header: the next request on an idle transport is sent
      for the new user without Authorization, and the first challenge is then counted from 1. */
  lemma LoginForgets(s: State, user: string, req: Request)
    requires Inv(s) && !s.busy
    ensures var t := Perform(Perform(s, Login(user)), Call(req));
            && |t.sends| == |s.sends| + 1
            && t.sends[|s.sends|] == Send(req, false, None, user, t.challenge, s.epoch + 1)
            && t.challenge == s.challenge.(nonce := "") && t.nc == 0 && t.header == None
  {
    assert s.queue == [];
  }

  /** The printed count: there is one exactly when a protection is chosen. */
  lemma CountIsShown(a: Auth)
    ensures a.CountShown().Some? <==> ChosenQop(a.challenge.qop) != ""
    ensures a.CountShown().Some? ==> AsDecimal(a.CountShown().value) == a.nc
  {
    CountTextIs(a.nc);
    hide CountText, ChosenQop;
  }

  // ---------------------------------------------------------------- what goes over the wire

  /** How often each started request has been sent. */
  function Attempts(sends: seq<Send>): seq<nat> {
    if sends == [] then []
    else
      var n := |sends| - 1;
      var before := Attempts(sends[..n]);
      if sends[n].retry && before != [] then before[|before| - 1 := before[|before| - 1] + 1]
      else before + [1]
  }

  function Repeat(req: Request, n: nat): seq<Request> {
    seq(n, _ => req)
  }

  /** Each request as often as its count says, in order. */
  function Expand(reqs: seq<Request>, counts: seq<nat>): seq<Request>
    requires |reqs| == |counts|
  {
    if reqs == [] then []
    else Expand(reqs[..|reqs| - 1], counts[..|reqs| - 1]) + Repeat(reqs[|reqs| - 1], counts[|reqs| - 1])
  }

  function Sent(sends: seq<Send>): seq<Request> {
    seq(|sends|, i requires 0 <= i < |sends| => sends[i].req)
  }

  ghost predicate OnceOrTwice(counts: seq<nat>) {
    forall i :: 0 <= i < |counts| ==> counts[i] == 1 || counts[i] == 2
  }

  lemma ExpandLast(reqs: seq<Request>, counts: seq<nat>, req: Request, n: nat)
    requires |reqs| == |counts|
    ensures Expand(reqs + [req], counts + [n]) == Expand(reqs, counts) + Repeat(req, n)
  {
    assert (reqs + [req])[..|reqs|] == reqs && (counts + [n])[..|reqs|] == counts;
  }

  /** The counts account for every send, and the last request was sent once unless repeated. */
  ghost predicate Tallied(sends: seq<Send>) {
    var reqs, counts := Started(sends), Attempts(sends);
    && |counts| == |reqs| && OnceOrTwice(counts)
    && Sent(sends) == Expand(reqs, counts)
    && (sends != [] && !sends[|sends| - 1].retry ==>
          |reqs| > 0 && counts[|reqs| - 1] == 1 && reqs[|reqs| - 1] == sends[|sends| - 1].req)
  }

  lemma {:induction false} AllTallied(sends: seq<Send>)
    requires RetriesAdjacent(sends)
    ensures Tallied(sends)
  {
    if sends == [] {
      ExpandNothing();
    } else {
      var n := |sends| - 1;
      var front := sends[..n];
      assert sends == front + [sends[n]];
      assert sends[n].retry ==> !front[n - 1].retry && front[n - 1].req == sends[n].req;
      AllTallied(front);
      hide Tallied;
      if sends[n].retry {
        RetryTallied(front, sends[n]);
      } else {
        FirstSendTallied(front, sends[n]);
      }
    }
  }

  lemma FirstSendTallied(sends: seq<Send>, x: Send)
    requires Tallied(sends) && !x.retry
    ensures Tallied(sends + [x])
  {
    hide Expand, Repeat;
    assert (sends + [x])[..|sends|] == sends;
    assert Sent(sends + [x]) == Sent(sends) + [x.req];
    ExpandLast(Started(sends), Attempts(sends), x.req, 1);
    RepeatOne(x.req);
  }

  lemma RetryTallied(sends: seq<Send>, x: Send)
    requires Tallied(sends) && x.retry
    requires sends != [] && !sends[|sends| - 1].retry && sends[|sends| - 1].req == x.req
    ensures Tallied(sends + [x])
  {
    hide Expand, Repeat;
    var reqs, counts := Started(sends), Attempts(sends);
    assert (sends + [x])[..|sends|] == sends;
    assert Sent(sends + [x]) == Sent(sends) + [x.req];
    assert Started(sends + [x]) == reqs && Attempts(sends + [x]) == counts[|counts| - 1 := 2];
    ExpandTwice(reqs, counts);
  }

  lemma ExpandTwice(reqs: seq<Request>, counts: seq<nat>)
    requires |reqs| == |counts| > 0 && counts[|counts| - 1] == 1
    ensures Expand(reqs, counts[|counts| - 1 := 2]) == Expand(reqs, counts) + [reqs[|reqs| - 1]]
  {
    hide Expand, Repeat;
    var k := |counts| - 1;
    var req := reqs[k];
    assert reqs == reqs[..k] + [req] && counts == counts[..k] + [1] && counts[k := 2] == counts[..k] + [2];
    ExpandLast(reqs[..k], counts[..k], req, 1);
    ExpandLast(reqs[..k], counts[..k], req, 2);
    RepeatTwo(req);
    RepeatOne(req);
    Associate(Expand(reqs[..k], counts[..k]), [req], [req]);
  }

  lemma ExpandNothing()
    ensures Expand([], []) == []
  {
  }

  lemma RepeatOne(req: Request)
    ensures Repeat(req, 1) == [req]
  {
  }

  lemma RepeatTwo(req: Request)
    ensures Repeat(req, 2) == [req] + [req]
  {
  }

  lemma Associate(a: seq<Request>, b: seq<Request>, c: seq<Request>)
    ensures a + (b + c) == a + b + c
  {
  }

  /** In every run the wire carries the requests in the order they were queued, each sent once or
      twice in direct succession: those that have called back, and the one still owed. */
  lemma WireTraffic(events: seq<Event>, states: seq<State>, i: nat)
    requires IsRun(events, states) && i < |states|
    ensures var s := states[i]; var started := s.answered + Reqs(s.owed);
            && started <= s.enqueued && |s.owed| <= 1
            && |Attempts(s.sends)| == |started| && OnceOrTwice(Attempts(s.sends))
            && Sent(s.sends) == Expand(started, Attempts(s.sends))
  {
    RunKeepsInv(events, states, i);
    hide Expand, Attempts, OnceOrTwice, IsRun;
    AllTallied(states[i].sends);
  }

  // ---------------------------------------------------------------- nonce counts

  /** In every run, between changes of nonce or credentials, a later Authorization header carries a
      larger count; where the count is printed, also for a server that reads its decimal text as
      hexadecimal. */
  lemma NonceCountsIncrease(events: seq<Event>, states: seq<State>, n: nat, i: nat, j: nat)
    requires IsRun(events, states) && n < |states| && i < j < |states[n].sends|
    requires var x, y := states[n].sends[i], states[n].sends[j];
             x.auth.Some? && y.auth.Some? && x.epoch == y.epoch
    ensures var x, y := states[n].sends[i].auth.value, states[n].sends[j].auth.value;
            && x.nc < y.nc
            && (x.CountShown().Some? && y.CountShown().Some? ==>
                  AsHex(x.CountShown().value) < AsHex(y.CountShown().value))
  {
    RunKeepsInv(events, states, n);
    CountsGrow(states[n].sends, i, j);
    hide CountText, AsHex, ChosenQop;
    CountTextIncreases(states[n].sends[i].auth.value.nc, states[n].sends[j].auth.value.nc);
  }

  lemma CountsGrow(sends: seq<Send>, i: nat, j: nat)
    requires AllAuthorized(sends)
    requires i < j < |sends| && sends[i].auth.Some? && sends[j].auth.Some? && sends[i].epoch == sends[j].epoch
    ensures sends[i].auth.value.nc < sends[j].auth.value.nc
  {
    assert SendAuthorized(sends, i) && SendAuthorized(sends, j);
    UsesGrow(sends, i, j, sends[i].epoch);
  }

  lemma {:induction false} UsesGrow(sends: seq<Send>, i: nat, j: nat, epoch: nat)
    requires i < j <= |sends| && sends[i].auth.Some? && sends[i].epoch == epoch
    ensures Uses(sends[..i], epoch) + 1 <= Uses(sends[..j], epoch)
    decreases j
  {
    assert sends[..j][..j - 1] == sends[..j - 1];
    if j > i + 1 {
      UsesGrow(sends, i, j - 1, epoch);
    }
  }

  ghost predicate SameNonce(sends: seq<Send>, i: nat, j: nat)
    requires i < j < |sends|
  {
    sends[i].auth.Some? && sends[j].auth.Some? && sends[i].challenge.nonce == sends[j].challenge.nonce
  }

  /** What section 3.2.2 of RFC 2617 asks for: every use of a nonce carries a larger count than the
      uses before it. A use counts whether or not the count is printed. */
  ghost predicate CountsFresh(sends: seq<Send>) {
    forall i: nat, j: nat :: i < j < |sends| && SameNonce(sends, i, j) ==>
      sends[i].auth.value.nc < sends[j].auth.value.nc
  }

  /** No nonce comes back after another nonce or other credentials. */
  ghost predicate NoncesStay(sends: seq<Send>) {
    forall i: nat, j: nat :: i < j < |sends| && SameNonce(sends, i, j) ==> sends[i].epoch == sends[j].epoch
  }

  lemma {:induction false} FirstUse(sends: seq<Send>, j: nat) returns (k: nat)
    requires j < |sends| && sends[j].auth.Some?
    ensures k <= j && sends[k].auth.Some? && sends[k].epoch == sends[j].epoch
    ensures Uses(sends[..k], sends[j].epoch) == 0
  {
    var epoch := sends[j].epoch;
    k := j;
    if Uses(sends[..j], epoch) > 0 {
      var i := SomeUse(sends, j, epoch);
      k := FirstUse(sends, i);
    }
  }

  lemma {:induction false} SomeUse(sends: seq<Send>, j: nat, epoch: nat) returns (i: nat)
    requires j <= |sends| && Uses(sends[..j], epoch) > 0
    ensures i < j && sends[i].auth.Some? && sends[i].epoch == epoch
  {
    assert sends[..j][..j - 1] == sends[..j - 1];
    if sends[j - 1].auth.Some? && sends[j - 1].epoch == epoch {
      i := j - 1;
    } else {
      i := SomeUse(sends, j - 1, epoch);
    }
  }

  /** The code counts from the last change of nonce or credentials. That meets the rule if and only
      if no nonce comes back. */
  lemma NonceReuseExact(events: seq<Event>, states: seq<State>, n: nat)
    requires IsRun(events, states) && n < |states|
    ensures CountsFresh(states[n].sends) <==> NoncesStay(states[n].sends)
  {
    RunKeepsInv(events, states, n);
    var sends := states[n].sends;
    hide IsRun, Core;
    if NoncesStay(sends) {
      forall i: nat, j: nat | i < j < |sends| && SameNonce(sends, i, j)
        ensures sends[i].auth.value.nc < sends[j].auth.value.nc
      {
        CountsGrow(sends, i, j);
      }
    }
    if !NoncesStay(sends) {
      var i: nat, j: nat :| i < j < |sends| && SameNonce(sends, i, j) && sends[i].epoch != sends[j].epoch;
      ReturnIsStale(sends, i, j);
    }
  }

  lemma ReturnIsStale(sends: seq<Send>, i: nat, j: nat)
    requires Epochs(sends) && AllAuthorized(sends)
    requires i < j < |sends| && SameNonce(sends, i, j) && sends[i].epoch != sends[j].epoch
    ensures !CountsFresh(sends)
  {
    var k := FirstUse(sends, j);
    assert SendAuthorized(sends, i) && SendAuthorized(sends, k);
    assert SameNonce(sends, i, k);
  }

  /** A nonce that comes back: logging in again and being challenged with the same nonce makes the
      transport send a second time what it sent with that nonce before, the count 1 included. */
  lemma NonceComesBack(user: string, req: Request, header: string) returns (events: seq<Event>, states: seq<State>)
    requires user != "" && ParseChallenge(header).Some?
    ensures IsRun(events, states) && !CountsFresh(states[|events|].sends)
    ensures var sends := states[|events|].sends;
            |sends| == 4 && sends[1].auth.Some? && sends[1].auth == sends[3].auth && sends[1].auth.value.nc == 1
  {
    hide ParseChallenge;
    var challenged, fine := Reply(401, header, ""), Reply(200, "", "");
    events := [Outside(Login(user)), Outside(Call(req)), Finished(0, challenged, []), Finished(0, fine, []),
               Outside(Login(user)), Outside(Call(req)), Finished(0, challenged, [])];
    var s1 := Perform(Initial(), Login(user));
    var s2 := Perform(s1, Call(req));
    var s3 := OnFinished(s2, 0, challenged, []);
    var s4 := OnFinished(s3, 0, fine, []);
    var s5 := Perform(s4, Login(user));
    var s6 := Perform(s5, Call(req));
    var s7 := OnFinished(s6, 0, challenged, []);
    states := [Initial(), s1, s2, s3, s4, s5, s6, s7];
    assert SameNonce(s7.sends, 1, 3) && s7.sends[1].auth.value.nc == s7.sends[3].auth.value.nc;
  }
}
