/** The settings engine of src/cameractrl/zc_settings_engine.cpp on top of a transport that
    answers requests in the order they were made. */
module Settings {
  import opened Common

  // ---------------------------------------------------------------- data

  /** The fields of one setting in a camera answer. */
  datatype Entry = Entry(key: string, value: string, kind: int, readOnly: bool, code: int,
                         choices: seq<string>, min: real, max: real, step: real)

  /** A response body: a JSON object (its own setting fields and its cfgs array), or anything else. */
  datatype Body = NotObject | Object(fields: Entry, cfgs: seq<Entry>)

  datatype Reply = Reply(status: int, body: Body)

  datatype Setting = Setting(key: string, value: string, kind: int, readOnly: bool,
                             supported: bool, choices: seq<string>, min: real, max: real, step: real)

  datatype Rule = Rule(sources: seq<string>, targets: seq<string>)

  /** The ported schema: the keys of each catalog, and the catalogs to read again after a write. */
  datatype Schema = Schema(catalogs: map<string, seq<string>>, rules: seq<Rule>) {
    function Keys(catalog: string): seq<string> {
      if catalog in catalogs then catalogs[catalog] else []
    }
  }

  /** A request on its way, with what its callback captured. `op` numbers the readGroup calls. */
  datatype Cont =
    | Batch(catalog: string, op: nat)
    | KeyOf(key: string, catalog: string, op: nat)
    | Single(key: string)
    | Write(key: string, value: string)

  /** Progress of one readGroup call. In `Falling`, pending and ok are the counter and the list
      shared by the per-key callbacks, and replies are the answers they have seen. */
  datatype Op =
    | Asked(catalog: string)
    | Falling(catalog: string, pending: int, ok: seq<string>, replies: seq<Reply>)
    | Closed

  /** The callback with its result, and whether groupRefreshed(catalog) came with it. */
  datatype Done = Done(op: nat, catalog: string, result: bool, refreshed: bool)

  /** `attached` tells whether the engine has been given its transport. */
  datatype State = State(
    attached: bool, queue: seq<Cont>, values: map<string, string>, defs: map<string, Setting>,
    groups: map<string, seq<string>>, ops: seq<Op>, done: seq<Done>, written: seq<(string, bool)>)

  function Initial(): State {
    State(false, [], map[], map[], map[], [], [], [])
  }

  // ---------------------------------------------------------------- operations

  function ReadGroup(s: State, catalog: string): State {
    if !s.attached then s.(ops := s.ops + [Closed], done := s.done + [Done(|s.ops|, catalog, false, false)])
    else s.(queue := s.queue + [Batch(catalog, |s.ops|)], ops := s.ops + [Asked(catalog)])
  }

  function ReadKey(s: State, key: string): State {
    if !s.attached then s else s.(queue := s.queue + [Single(key)])
  }

  function WriteKey(s: State, key: string, value: string): State {
    if !s.attached then s.(written := s.written + [(key, false)])
    else s.(queue := s.queue + [Write(key, value)])
  }

  function ReadGroups(s: State, catalogs: seq<string>): State
    decreases |catalogs|
  {
    if catalogs == [] then s else ReadGroups(ReadGroup(s, catalogs[0]), catalogs[1..])
  }

  function KeyConts(keys: seq<string>, catalog: string, op: nat): seq<Cont> {
    if keys == [] then [] else [KeyOf(keys[0], catalog, op)] + KeyConts(keys[1..], catalog, op)
  }

  function ReadGroupByKeys(c: Schema, s: State, catalog: string, op: nat): State
    requires op < |s.ops|
  {
    var keys := c.Keys(catalog);
    if keys == [] then
      s.(groups := s.groups[catalog := []], ops := s.ops[op := Closed],
         done := s.done + [Done(op, catalog, false, true)])
    else
      s.(queue := s.queue + KeyConts(keys, catalog, op),
         ops := s.ops[op := Falling(catalog, |keys|, [], [])])
  }

  function SettingOf(e: Entry, key: string): Setting {
    Setting(key, e.value, e.kind, e.readOnly, e.code == 0, e.choices, e.min, e.max, e.step)
  }

  /** What readKey's callback learns: without a JSON object the defaults stand, which count the
      key as supported. */
  function ReadSetting(key: string, r: Reply): Setting {
    match r.body
    case NotObject => Setting(key, "", 0, false, true, [], 0.0, 0.0, 0.0)
    case Object(e, _) => SettingOf(e, key)
  }

  function StoreKey(s: State, key: string, r: Reply): State {
    var v := ReadSetting(key, r);
    s.(values := s.values[key := v.value], defs := s.defs[key := v])
  }

  function OnKeyReply(s: State, key: string, catalog: string, op: nat, r: Reply): State
    requires op < |s.ops| && s.ops[op].Falling?
  {
    var t := StoreKey(s, key, r);
    var o := s.ops[op];
    var ok := if ReadSetting(key, r).supported then o.ok + [key] else o.ok;
    if o.pending - 1 == 0 then
      t.(groups := t.groups[catalog := ok], ops := t.ops[op := Closed],
         done := t.done + [Done(op, catalog, true, true)])
    else t.(ops := t.ops[op := o.(pending := o.pending - 1, ok := ok, replies := o.replies + [r])])
  }

  function StoreAll(s: State, cfgs: seq<Entry>): (t: State)
    ensures t == s.(values := t.values, defs := t.defs)
    decreases |cfgs|
  {
    if cfgs == [] then s
    else
      var e := cfgs[0];
      StoreAll(if e.key == "" then s
               else s.(values := s.values[e.key := e.value],
                       defs := s.defs[e.key := SettingOf(e, e.key)]), cfgs[1..])
  }

  function EntryKeys(cfgs: seq<Entry>): seq<string> {
    if cfgs == [] then []
    else if cfgs[0].key == "" then EntryKeys(cfgs[1..])
    else [cfgs[0].key] + EntryKeys(cfgs[1..])
  }

  function ApplyBatch(s: State, catalog: string, cfgs: seq<Entry>): State {
    var t := StoreAll(s, cfgs);
    t.(groups := t.groups[catalog := EntryKeys(cfgs)])
  }

  function OnBatchReply(c: Schema, s: State, catalog: string, op: nat, r: Reply): State
    requires op < |s.ops|
  {
    if r.body.NotObject? || r.body.cfgs == [] then ReadGroupByKeys(c, s, catalog, op)
    else
      var t := ApplyBatch(s, catalog, r.body.cfgs);
      t.(ops := t.ops[op := Closed], done := t.done + [Done(op, catalog, true, true)])
  }

  /** The catalogs applyDependencies reads again, rule by rule. */
  function Targets(rules: seq<Rule>, key: string): seq<string> {
    if rules == [] then []
    else if key in rules[0].sources then rules[0].targets + Targets(rules[1..], key)
    else Targets(rules[1..], key)
  }

  function OnWriteReply(c: Schema, s: State, key: string, value: string, r: Reply): State {
    var t := if r.status == 200
             then ReadGroups(s.(values := s.values[key := value]), Targets(c.rules, key)) else s;
    t.(written := t.written + [(key, r.status == 200)])
  }

  ghost predicate Runnable(s: State) {
    forall x :: x in s.queue ==>
      && (x.Batch? ==> x.op < |s.ops|)
      && (x.KeyOf? ==> x.op < |s.ops| && s.ops[x.op].Falling?)
  }

  /** The reply to the oldest request arrives. */
  ghost function Answer(c: Schema, s: State, r: Reply): State
    requires s.queue != [] && Runnable(s)
  {
    var x, t := s.queue[0], s.(queue := s.queue[1..]);
    assert x in s.queue;
    match x
    case Batch(catalog, op) => OnBatchReply(c, t, catalog, op, r)
    case KeyOf(key, catalog, op) => OnKeyReply(t, key, catalog, op, r)
    case Single(key) => StoreKey(t, key, r)
    case Write(key, value) => OnWriteReply(c, t, key, value, r)
  }

  class Engine {
    const schema: Schema
    var attached: bool
    var queue: seq<Cont>
    var values: map<string, string>
    var defs: map<string, Setting>
    var groups: map<string, seq<string>>
    var ops: seq<Op>
    var done: seq<Done>
    var written: seq<(string, bool)>

    ghost function Abs(): State reads this {
      State(attached, queue, values, defs, groups, ops, done, written)
    }

    constructor (schema: Schema)
      ensures this.schema == schema && Abs() == Initial()
    {
      this.schema := schema;
      attached, queue, values, defs, groups, ops, done, written := false, [], map[], map[], map[], [], [], [];
    }

    method RequestGroup(catalog: string)
      modifies this
      ensures Abs() == ReadGroup(old(Abs()), catalog)
    {
      if !attached {
        done := done + [Done(|ops|, catalog, false, false)];
        ops := ops + [Closed];
        return;
      }
      queue := queue + [Batch(catalog, |ops|)];
      ops := ops + [Asked(catalog)];
    }

    method RequestKeys(catalog: string, op: nat)
      requires op < |ops|
      modifies this
      ensures Abs() == ReadGroupByKeys(schema, old(Abs()), catalog, op)
    {
      var keys := schema.Keys(catalog);
      if keys == [] {
        groups := groups[catalog := []];
        ops := ops[op := Closed];
        done := done + [Done(op, catalog, false, true)];
        return;
      }
      ops := ops[op := Falling(catalog, |keys|, [], [])];
      ghost var before := queue;
      for i := 0 to |keys|
        invariant Abs() == old(Abs()).(queue := queue, ops := old(ops)[op := Falling(catalog, |keys|, [], [])])
        invariant queue == before + KeyConts(keys[..i], catalog, op)
      {
        KeyContsLast(keys[..i + 1], catalog, op);
        assert keys[..i + 1][..i] == keys[..i];
        queue := queue + [KeyOf(keys[i], catalog, op)];
      }
      assert keys[..|keys|] == keys;
    }

    method StoreBatch(catalog: string, cfgs: seq<Entry>)
      modifies this
      ensures Abs() == ApplyBatch(old(Abs()), catalog, cfgs)
    {
      var keys := [];
      var i := 0;
      assert cfgs[0..] == cfgs && keys + EntryKeys(cfgs) == EntryKeys(cfgs);
      while i < |cfgs|
        invariant i <= |cfgs|
        invariant StoreAll(old(Abs()), cfgs) == StoreAll(Abs(), cfgs[i..])
        invariant EntryKeys(cfgs) == keys + EntryKeys(cfgs[i..])
      {
        assert cfgs[i..][1..] == cfgs[i + 1..];
        var e := cfgs[i];
        if e.key != "" {
          defs := defs[e.key := SettingOf(e, e.key)];
          values := values[e.key := e.value];
          keys := keys + [e.key];
        }
        i := i + 1;
      }
      assert cfgs[i..] == [];
      assert keys + [] == keys;
      groups := groups[catalog := keys];
    }

    method RequestAll(catalogs: seq<string>)
      modifies this
      ensures Abs() == ReadGroups(old(Abs()), catalogs)
    {
      hide ReadGroup;
      var i := 0;
      assert catalogs[0..] == catalogs;
      while i < |catalogs|
        invariant i <= |catalogs|
        invariant ReadGroups(old(Abs()), catalogs) == ReadGroups(Abs(), catalogs[i..])
      {
        assert catalogs[i..][1..] == catalogs[i + 1..];
        RequestGroup(catalogs[i]);
        i := i + 1;
      }
    }

    method RequestDependents(key: string)
      modifies this
      ensures Abs() == ReadGroups(old(Abs()), Targets(schema.rules, key))
    {
      var i := 0;
      var rules := schema.rules;
      assert rules[0..] == rules;
      while i < |rules|
        invariant i <= |rules|
        invariant ReadGroups(old(Abs()), Targets(rules, key)) == ReadGroups(Abs(), Targets(rules[i..], key))
      {
        hide ReadGroups, Abs;
        assert rules[i..][1..] == rules[i + 1..];
        if key in rules[i].sources {
          ReadGroupsAppend(Abs(), rules[i].targets, Targets(rules[i + 1..], key));
          RequestAll(rules[i].targets);
        }
        i := i + 1;
      }
    }

    method OnReply(r: Reply)
      requires queue != [] && Runnable(Abs())
      modifies this
      ensures Abs() == Answer(schema, old(Abs()), r)
    {
      var x := queue[0];
      assert x in Abs().queue;
      queue := queue[1..];
      match x {
        case Batch(catalog, op) =>
          if r.body.NotObject? || r.body.cfgs == [] {
            RequestKeys(catalog, op);
          } else {
            StoreBatch(catalog, r.body.cfgs);
            ops := ops[op := Closed];
            done := done + [Done(op, catalog, true, true)];
          }
        case KeyOf(key, catalog, op) =>
          var v := ReadSetting(key, r);
          values := values[key := v.value];
          defs := defs[key := v];
          var o := ops[op];
          var ok := if v.supported then o.ok + [key] else o.ok;
          if o.pending - 1 == 0 {
            groups := groups[catalog := ok];
            ops := ops[op := Closed];
            done := done + [Done(op, catalog, true, true)];
          } else {
            ops := ops[op := o.(pending := o.pending - 1, ok := ok, replies := o.replies + [r])];
          }
        case Single(key) =>
          var v := ReadSetting(key, r);
          values := values[key := v.value];
          defs := defs[key := v];
        case Write(key, value) =>
          if r.status == 200 {
            values := values[key := value];
            RequestDependents(key);
          }
          written := written + [(key, r.status == 200)];
      }
    }
  }

  lemma {:induction false} ReadGroupsAppend(s: State, a: seq<string>, b: seq<string>)
    ensures ReadGroups(s, a + b) == ReadGroups(ReadGroups(s, a), b)
    decreases |a|
  {
    hide ReadGroup;
    if a == [] {
      assert a + b == b;
    } else {
      ReadGroupsAppend(ReadGroup(s, a[0]), a[1..], b);
      assert (a + b)[0] == a[0] && (a + b)[1..] == a[1..] + b;
    }
  }

  lemma {:induction false} KeyContsLast(keys: seq<string>, catalog: string, op: nat)
    requires keys != []
    ensures var n := |keys| - 1;
            KeyConts(keys, catalog, op) == KeyConts(keys[..n], catalog, op) + [KeyOf(keys[n], catalog, op)]
  {
    if |keys| > 1 {
      KeyContsLast(keys[1..], catalog, op);
      assert keys[1..][..|keys| - 2] == keys[..|keys| - 1][1..];
    }
  }

  // ---------------------------------------------------------------- requests of one readGroup

  /** The requests of readGroup call op among those on their way. */
  function Of(queue: seq<Cont>, op: nat): seq<Cont> {
    if queue == [] then []
    else if (queue[0].Batch? || queue[0].KeyOf?) && queue[0].op == op
    then [queue[0]] + Of(queue[1..], op)
    else Of(queue[1..], op)
  }

  lemma {:induction false} OfAppend(a: seq<Cont>, b: seq<Cont>, op: nat)
    ensures Of(a + b, op) == Of(a, op) + Of(b, op)
  {
    if a == [] {
      assert a + b == b;
    } else {
      OfAppend(a[1..], b, op);
      assert (a + b)[0] == a[0] && (a + b)[1..] == a[1..] + b;
      assert [a[0]] + (Of(a[1..], op) + Of(b, op)) == [a[0]] + Of(a[1..], op) + Of(b, op);
    }
  }

  lemma {:induction false} OfKeyConts(keys: seq<string>, catalog: string, op: nat, other: nat)
    ensures Of(KeyConts(keys, catalog, op), other)
            == if op == other then KeyConts(keys, catalog, op) else []
  {
    if keys != [] {
      OfKeyConts(keys[1..], catalog, op, other);
      assert KeyConts(keys, catalog, op)[1..] == KeyConts(keys[1..], catalog, op);
    }
  }

  lemma {:induction false} OfMember(queue: seq<Cont>, x: Cont)
    requires x in queue && (x.Batch? || x.KeyOf?)
    ensures x in Of(queue, x.op)
  {
    if x != queue[0] {
      OfMember(queue[1..], x);
    }
  }

  lemma {:induction false} OnlyKeyConts(keys: seq<string>, catalog: string, op: nat, x: Cont)
    requires x in KeyConts(keys, catalog, op)
    ensures x.KeyOf? && x.op == op
  {
    if x != KeyConts(keys, catalog, op)[0] {
      OnlyKeyConts(keys[1..], catalog, op, x);
    }
  }

  function Completions(done: seq<Done>, op: nat): nat {
    if done == [] then 0
    else Completions(done[..|done| - 1], op) + (if done[|done| - 1].op == op then 1 else 0)
  }

  /** The keys not answered by a JSON object with a non-zero code, in order. */
  function Accepted(keys: seq<string>, replies: seq<Reply>): seq<string>
    requires |keys| == |replies|
  {
    if keys == [] then []
    else
      var n := |keys| - 1;
      Accepted(keys[..n], replies[..n])
      + (if replies[n].body.Object? && replies[n].body.fields.code != 0 then [] else [keys[n]])
  }

  // ---------------------------------------------------------------- what every run keeps

  /** Where readGroup call op stands: one batch request, or the per-key requests still to be
      answered, in schema order, or nothing and exactly one completion. */
  ghost predicate OpInv(c: Schema, s: State, op: nat)
    requires op < |s.ops|
  {
    var mine, completed := Of(s.queue, op), Completions(s.done, op);
    match s.ops[op]
    case Asked(catalog) => mine == [Batch(catalog, op)] && completed == 0
    case Falling(catalog, pending, ok, replies) =>
      var keys := c.Keys(catalog);
      && |replies| < |keys| && pending == |keys| - |replies| && completed == 0
      && mine == KeyConts(keys[|replies|..], catalog, op)
      && ok == Accepted(keys[..|replies|], replies)
    case Closed => mine == [] && completed == 1
  }

  ghost predicate Cached(s: State, keys: seq<string>) {
    forall k :: k in keys ==> k in s.values && k in s.defs
  }

  /** Every key listed in a group, or about to be, has a cached value and definition. */
  ghost predicate CacheInv(s: State) {
    && (forall g :: g in s.groups ==> Cached(s, s.groups[g]))
    && (forall op :: 0 <= op < |s.ops| && s.ops[op].Falling? ==> Cached(s, s.ops[op].ok))
  }

  ghost predicate QueueInv(c: Schema, s: State) {
    && (forall x :: x in s.queue && (x.Batch? || x.KeyOf?) ==> x.op < |s.ops|)
    && (forall i :: 0 <= i < |s.done| ==> s.done[i].op < |s.ops|)
    && (forall op :: 0 <= op < |s.ops| ==> OpInv(c, s, op))
  }

  ghost predicate Inv(c: Schema, s: State) {
    QueueInv(c, s) && CacheInv(s)
  }

  /** Only caching more, listing cached keys and forgetting lists keeps the caches complete. */
  lemma CacheKeeps(s: State, t: State)
    requires CacheInv(s)
    requires forall k :: k in s.values && k in s.defs ==> k in t.values && k in t.defs
    requires forall g :: g in t.groups ==>
               (g in s.groups && t.groups[g] == s.groups[g]) || Cached(t, t.groups[g])
    requires forall op :: 0 <= op < |t.ops| && t.ops[op].Falling? ==>
               (op < |s.ops| && s.ops[op] == t.ops[op]) || Cached(t, t.ops[op].ok)
    ensures CacheInv(t)
  {
    forall g | g in t.groups ensures Cached(t, t.groups[g]) {
      if !Cached(t, t.groups[g]) {
        assert Cached(s, s.groups[g]);
      }
    }
    forall op | 0 <= op < |t.ops| && t.ops[op].Falling? ensures Cached(t, t.ops[op].ok) {
      if !Cached(t, t.ops[op].ok) {
        assert Cached(s, s.ops[op].ok);
      }
    }
  }

  lemma InvRunnable(c: Schema, s: State)
    requires QueueInv(c, s)
    ensures Runnable(s)
  {
    forall x | x in s.queue && x.KeyOf? ensures s.ops[x.op].Falling? {
      OfMember(s.queue, x);
      assert OpInv(c, s, x.op);
    }
  }

  lemma {:induction false} NoCompletions(done: seq<Done>, op: nat)
    requires forall i :: 0 <= i < |done| ==> done[i].op != op
    ensures Completions(done, op) == 0
  {
    if done != [] {
      NoCompletions(done[..|done| - 1], op);
    }
  }

  lemma {:induction false} OfNone(queue: seq<Cont>, op: nat)
    requires forall x :: x in queue && (x.Batch? || x.KeyOf?) ==> x.op != op
    ensures Of(queue, op) == []
  {
    if queue != [] {
      assert queue[0] in queue;
      OfNone(queue[1..], op);
    }
  }

  lemma ReadGroupKeeps(c: Schema, s: State, catalog: string)
    requires Inv(c, s)
    ensures Inv(c, ReadGroup(s, catalog))
  {
    var t, added := ReadGroup(s, catalog), if s.attached then [Batch(catalog, |s.ops|)] else [];
    CacheKeeps(s, t);
    assert t.queue == s.queue + added;
    hide CacheInv;
    forall op | 0 <= op < |t.ops| ensures OpInv(c, t, op) {
      OfAppend(s.queue, added, op);
      CompletionsOne(s.done, Done(|s.ops|, catalog, false, false), op);
      assert s.attached ==> added[1..] == [];
      if op < |s.ops| {
        assert OpInv(c, s, op);
      } else {
        OfNone(s.queue, op);
        NoCompletions(s.done, op);
      }
    }
  }

  lemma {:induction false} ReadGroupsKeeps(c: Schema, s: State, catalogs: seq<string>)
    requires Inv(c, s)
    ensures Inv(c, ReadGroups(s, catalogs))
    decreases |catalogs|
  {
    hide Inv, ReadGroup;
    if catalogs != [] {
      ReadGroupKeeps(c, s, catalogs[0]);
      ReadGroupsKeeps(c, ReadGroup(s, catalogs[0]), catalogs[1..]);
    }
  }

  /** The oldest request belongs to call op; what is left of that call, and of the others. */
  lemma HeadOf(queue: seq<Cont>, op: nat, other: nat)
    requires queue != [] && (queue[0].Batch? || queue[0].KeyOf?) && queue[0].op == op
    ensures Of(queue, op) == [queue[0]] + Of(queue[1..], op)
    ensures other != op ==> Of(queue, other) == Of(queue[1..], other)
  {
  }

  lemma CompletionsOne(done: seq<Done>, d: Done, op: nat)
    ensures Completions(done + [d], op) == Completions(done, op) + (if d.op == op then 1 else 0)
  {
    assert (done + [d])[..|done|] == done;
  }

  lemma BatchHead(c: Schema, s: State)
    requires QueueInv(c, s) && s.queue != [] && s.queue[0].Batch?
    ensures var x := s.queue[0];
            && x.op < |s.ops| && s.ops[x.op] == Asked(x.catalog) && Completions(s.done, x.op) == 0
            && Of(s.queue[1..], x.op) == []
  {
    var x := s.queue[0];
    assert x in s.queue && OpInv(c, s, x.op);
    HeadOf(s.queue, x.op, x.op);
    OfMember(s.queue, x);
    if s.ops[x.op].Falling? {
      OnlyKeyConts(c.Keys(s.ops[x.op].catalog)[|s.ops[x.op].replies|..], s.ops[x.op].catalog, x.op, x);
    }
  }

  lemma KeyHead(c: Schema, s: State)
    requires QueueInv(c, s) && s.queue != [] && s.queue[0].KeyOf?
    ensures var x := s.queue[0];
            && x.op < |s.ops| && s.ops[x.op].Falling? && Completions(s.done, x.op) == 0
            && var o := s.ops[x.op]; var keys := c.Keys(o.catalog);
            && |o.replies| < |keys| && o.pending == |keys| - |o.replies| && o.catalog == x.catalog
            && x.key == keys[|o.replies|] && o.ok == Accepted(keys[..|o.replies|], o.replies)
            && Of(s.queue[1..], x.op) == KeyConts(keys[|o.replies| + 1..], x.catalog, x.op)
  {
    var x := s.queue[0];
    assert x in s.queue && OpInv(c, s, x.op);
    HeadOf(s.queue, x.op, x.op);
    OfMember(s.queue, x);
    assert s.ops[x.op].Falling?;
    var o := s.ops[x.op];
    var rest := c.Keys(o.catalog)[|o.replies|..];
    var mine := Of(s.queue, x.op);
    assert mine[0] == x && mine[1..] == Of(s.queue[1..], x.op);
    assert rest[1..] == c.Keys(o.catalog)[|o.replies| + 1..];
    assert mine == [KeyOf(rest[0], o.catalog, x.op)] + KeyConts(rest[1..], o.catalog, x.op);
  }

  /** Completing the call of the oldest request. */
  lemma CompleteKeeps(c: Schema, s: State, t: State, op: nat, d: Done)
    requires QueueInv(c, s) && s.queue != [] && (s.queue[0].Batch? || s.queue[0].KeyOf?)
    requires s.queue[0].op == op < |s.ops| && Of(s.queue[1..], op) == [] && Completions(s.done, op) == 0
    requires t.queue == s.queue[1..] && t.ops == s.ops[op := Closed] && t.done == s.done + [d] && d.op == op
    ensures QueueInv(c, t)
  {
    forall other | 0 <= other < |t.ops| ensures OpInv(c, t, other) {
      assert OpInv(c, s, other);
      HeadOf(s.queue, op, other);
      CompletionsOne(s.done, d, other);
    }
  }

  lemma {:induction false} StoreAllCaches(s: State, cfgs: seq<Entry>)
    ensures var t := StoreAll(s, cfgs);
            && Cached(t, EntryKeys(cfgs))
            && (forall k :: k in s.values && k in s.defs ==> k in t.values && k in t.defs)
    decreases |cfgs|
  {
    if cfgs != [] {
      var e := cfgs[0];
      StoreAllCaches(if e.key == "" then s
                     else s.(values := s.values[e.key := e.value],
                             defs := s.defs[e.key := SettingOf(e, e.key)]), cfgs[1..]);
    }
  }

  /** Falling back to per-key requests. */
  lemma FallBackKeeps(c: Schema, s: State, catalog: string, op: nat)
    requires QueueInv(c, s) && s.queue != [] && s.queue[0] == Batch(catalog, op)
    requires c.Keys(catalog) != [] && op < |s.ops|
    ensures QueueInv(c, ReadGroupByKeys(c, s.(queue := s.queue[1..]), catalog, op))
  {
    BatchHead(c, s);
    var keys := c.Keys(catalog);
    var added := KeyConts(keys, catalog, op);
    var t := ReadGroupByKeys(c, s.(queue := s.queue[1..]), catalog, op);
    forall x | x in t.queue && (x.Batch? || x.KeyOf?) ensures x.op < |t.ops| {
      if x in added {
        OnlyKeyConts(keys, catalog, op, x);
      }
    }
    hide KeyConts;
    forall other | 0 <= other < |t.ops| ensures OpInv(c, t, other) {
      assert OpInv(c, s, other);
      HeadOf(s.queue, op, other);
      OfAppend(s.queue[1..], added, other);
      OfKeyConts(keys, catalog, op, other);
      assert keys[0..] == keys && keys[..0] == [];
    }
  }

  lemma BatchReplyCaches(c: Schema, s: State, r: Reply)
    requires CacheInv(s) && s.queue != [] && s.queue[0].Batch? && s.queue[0].op < |s.ops|
    ensures CacheInv(OnBatchReply(c, s.(queue := s.queue[1..]), s.queue[0].catalog, s.queue[0].op, r))
  {
    var x, u := s.queue[0], s.(queue := s.queue[1..]);
    if r.body.Object? {
      StoreAllCaches(u, r.body.cfgs);
    }
    hide StoreAll, EntryKeys, KeyConts;
    CacheKeeps(s, OnBatchReply(c, u, x.catalog, x.op, r));
  }

  lemma BatchReplyKeeps(c: Schema, s: State, r: Reply)
    requires Inv(c, s) && s.queue != [] && s.queue[0].Batch? && s.queue[0].op < |s.ops|
    ensures Inv(c, OnBatchReply(c, s.(queue := s.queue[1..]), s.queue[0].catalog, s.queue[0].op, r))
  {
    hide OpInv, CacheInv;
    BatchHead(c, s);
    BatchReplyCaches(c, s, r);
    var x, u := s.queue[0], s.(queue := s.queue[1..]);
    var t := OnBatchReply(c, u, x.catalog, x.op, r);
    if (r.body.NotObject? || r.body.cfgs == []) && c.Keys(x.catalog) != [] {
      FallBackKeeps(c, s, x.catalog, x.op);
    } else {
      CompleteKeeps(c, s, t, x.op, t.done[|s.done|]);
    }
  }

  lemma AcceptedStep(keys: seq<string>, replies: seq<Reply>, r: Reply)
    requires |replies| < |keys|
    ensures var n := |replies|;
            Accepted(keys[..n + 1], replies + [r])
            == Accepted(keys[..n], replies)
               + (if ReadSetting(keys[n], r).supported then [keys[n]] else [])
  {
    var n := |replies|;
    assert keys[..n + 1][..n] == keys[..n] && (replies + [r])[..n] == replies;
  }

  lemma KeyReplyKeeps(c: Schema, s: State, r: Reply)
    requires Inv(c, s) && s.queue != [] && s.queue[0].KeyOf?
    requires s.queue[0].op < |s.ops| && s.ops[s.queue[0].op].Falling?
    ensures var x := s.queue[0];
            Inv(c, OnKeyReply(s.(queue := s.queue[1..]), x.key, x.catalog, x.op, r))
  {
    hide OpInv, CacheInv, Accepted, ReadSetting;
    KeyHead(c, s);
    KeyReplyCaches(s, r);
    var x, u := s.queue[0], s.(queue := s.queue[1..]);
    var o, keys := s.ops[x.op], c.Keys(x.catalog);
    var t := OnKeyReply(u, x.key, x.catalog, x.op, r);
    if o.pending == 1 {
      assert keys[|o.replies| + 1..] == [];
      CompleteKeeps(c, s, t, x.op, Done(x.op, x.catalog, true, true));
    } else {
      AcceptedStep(keys, o.replies, r);
      NextKeyKeeps(c, s, t, x.op, t.ops[x.op]);
    }
  }

  lemma KeyReplyCaches(s: State, r: Reply)
    requires CacheInv(s) && s.queue != [] && s.queue[0].KeyOf?
    requires s.queue[0].op < |s.ops| && s.ops[s.queue[0].op].Falling?
    ensures var x := s.queue[0];
            CacheInv(OnKeyReply(s.(queue := s.queue[1..]), x.key, x.catalog, x.op, r))
  {
    hide ReadSetting;
    var x := s.queue[0];
    assert Cached(s, s.ops[x.op].ok);
    CacheKeeps(s, OnKeyReply(s.(queue := s.queue[1..]), x.key, x.catalog, x.op, r));
  }

  /** A per-key answer that is not the last of its call. */
  lemma NextKeyKeeps(c: Schema, s: State, t: State, op: nat, next: Op)
    requires QueueInv(c, s) && s.queue != [] && s.queue[0].KeyOf? && s.queue[0].op == op < |s.ops|
    requires next.Falling? && Completions(s.done, op) == 0
    requires t.queue == s.queue[1..] && t.ops == s.ops[op := next] && t.done == s.done
    requires var keys, n := c.Keys(next.catalog), |next.replies|;
             && n < |keys| && next.pending == |keys| - n
             && next.ok == Accepted(keys[..n], next.replies)
             && Of(t.queue, op) == KeyConts(keys[n..], next.catalog, op)
    ensures QueueInv(c, t)
  {
    hide Accepted;
    forall other | 0 <= other < |t.ops| ensures OpInv(c, t, other) {
      assert OpInv(c, s, other);
      HeadOf(s.queue, op, other);
    }
  }

  /** Replies outside any readGroup call. */
  lemma OtherHeadKeeps(c: Schema, s: State, t: State)
    requires Inv(c, s) && s.queue != [] && !s.queue[0].Batch? && !s.queue[0].KeyOf?
    requires t == s.(queue := s.queue[1..], values := t.values, defs := t.defs)
    requires forall k :: k in s.values && k in s.defs ==> k in t.values && k in t.defs
    ensures Inv(c, t)
  {
    CacheKeeps(s, t);
    hide CacheInv;
    forall op | 0 <= op < |t.ops| ensures OpInv(c, t, op) {
      assert OpInv(c, s, op);
    }
  }

  lemma InvIgnores(c: Schema, s: State, t: State)
    requires Inv(c, s) && t == s.(written := t.written, attached := t.attached)
    ensures Inv(c, t)
  {
    forall op | 0 <= op < |t.ops| ensures OpInv(c, t, op) {
      assert OpInv(c, s, op);
    }
    CacheKeeps(s, t);
  }

  lemma AnswerKeeps(c: Schema, s: State, r: Reply)
    requires Inv(c, s) && s.queue != []
    ensures Runnable(s) && Inv(c, Answer(c, s, r))
  {
    InvRunnable(c, s);
    var x, u := s.queue[0], s.(queue := s.queue[1..]);
    assert x in s.queue;
    match x {
      case Batch(_, _) => BatchReplyKeeps(c, s, r);
      case KeyOf(_, _, _) => KeyReplyKeeps(c, s, r);
      case Single(key) => OtherHeadKeeps(c, s, StoreKey(u, key, r));
      case Write(key, value) =>
        var v := if r.status == 200 then u.(values := u.values[key := value]) else u;
        OtherHeadKeeps(c, s, v);
        var t := if r.status == 200 then ReadGroups(v, Targets(c.rules, key)) else v;
        ReadGroupsKeeps(c, v, Targets(c.rules, key));
        InvIgnores(c, t, t.(written := t.written + [(key, r.status == 200)]));
    }
  }

  /** When the last per-key answer of a fallback arrives, the group lists in schema order exactly
      the keys not answered by a JSON object with a non-zero code. */
  lemma FallbackYields(c: Schema, s: State, r: Reply)
    requires Inv(c, s) && s.queue != [] && s.queue[0].KeyOf? && Runnable(s)
    requires s.ops[s.queue[0].op].pending == 1
    ensures var x := s.queue[0]; var keys := c.Keys(x.catalog); var o := s.ops[x.op];
            && |o.replies| + 1 == |keys| && x.catalog in Answer(c, s, r).groups
            && Answer(c, s, r).groups[x.catalog] == Accepted(keys, o.replies + [r])
  {
    KeyHead(c, s);
    var x := s.queue[0];
    var keys, o := c.Keys(x.catalog), s.ops[x.op];
    AcceptedStep(keys, o.replies, r);
    assert keys[..|keys|] == keys;
  }

  // ---------------------------------------------------------------- what the answers leave in the caches

  /** Everything kept of a setting, field by field, comes from this entry. */
  predicate Mirrors(d: Setting, e: Entry, key: string) {
    && d.key == key && d.value == e.value && d.kind == e.kind && d.readOnly == e.readOnly
    && (d.supported <==> e.code == 0) && d.choices == e.choices
    && d.min == e.min && d.max == e.max && d.step == e.step
  }

  /** Entry i is the last one with its key. */
  predicate LastOfKey(cfgs: seq<Entry>, i: nat) {
    i < |cfgs| && cfgs[i].key != "" && forall j :: i < j < |cfgs| ==> cfgs[j].key != cfgs[i].key
  }

  predicate Named(cfgs: seq<Entry>, key: string) {
    exists i :: 0 <= i < |cfgs| && cfgs[i].key == key
  }

  /** The keys of the named entries, in order. */
  function KeysOf(cfgs: seq<Entry>): seq<string> {
    if cfgs == [] then []
    else KeysOf(cfgs[..|cfgs| - 1]) + (if cfgs[|cfgs| - 1].key == "" then [] else [cfgs[|cfgs| - 1].key])
  }

  lemma {:induction false} EntryKeysLast(cfgs: seq<Entry>, e: Entry)
    ensures EntryKeys(cfgs + [e]) == EntryKeys(cfgs) + (if e.key == "" then [] else [e.key])
  {
    if cfgs == [] {
      assert [] + [e] == [e] && [e][1..] == [];
    } else {
      assert (cfgs + [e])[0] == cfgs[0] && (cfgs + [e])[1..] == cfgs[1..] + [e];
      EntryKeysLast(cfgs[1..], e);
    }
  }

  lemma {:induction false} EntryKeysInOrder(cfgs: seq<Entry>)
    ensures EntryKeys(cfgs) == KeysOf(cfgs)
  {
    if cfgs != [] {
      var n := |cfgs| - 1;
      EntryKeysInOrder(cfgs[..n]);
      EntryKeysLast(cfgs[..n], cfgs[n]);
      assert cfgs[..n] + [cfgs[n]] == cfgs;
    }
  }

  function StoreOne(s: State, e: Entry): State {
    if e.key == "" then s
    else s.(values := s.values[e.key := e.value], defs := s.defs[e.key := SettingOf(e, e.key)])
  }

  /** Keys that no entry names keep what they had. */
  lemma {:induction false} StoreAllElse(s: State, cfgs: seq<Entry>, key: string)
    requires !Named(cfgs, key) || key == ""
    ensures var t := StoreAll(s, cfgs);
            && (key in t.values <==> key in s.values) && (key in t.values ==> t.values[key] == s.values[key])
            && (key in t.defs <==> key in s.defs) && (key in t.defs ==> t.defs[key] == s.defs[key])
    decreases |cfgs|
  {
    if cfgs != [] {
      assert cfgs[0].key == key ==> Named(cfgs, key);
      if Named(cfgs[1..], key) {
        var i :| 0 <= i < |cfgs[1..]| && cfgs[1..][i].key == key;
        assert cfgs[i + 1].key == key;
      }
      StoreAllElse(StoreOne(s, cfgs[0]), cfgs[1..], key);
    }
  }

  lemma {:induction false} StoreAllLast(s: State, cfgs: seq<Entry>, i: nat)
    requires LastOfKey(cfgs, i)
    ensures var t, key := StoreAll(s, cfgs), cfgs[i].key;
            && key in t.values && t.values[key] == cfgs[i].value
            && key in t.defs && Mirrors(t.defs[key], cfgs[i], key)
    decreases |cfgs|
  {
    var next := StoreOne(s, cfgs[0]);
    if i > 0 {
      assert forall j :: 0 <= j < |cfgs[1..]| ==> cfgs[1..][j] == cfgs[j + 1];
      StoreAllLast(next, cfgs[1..], i - 1);
    } else {
      assert !Named(cfgs[1..], cfgs[0].key);
      StoreAllElse(next, cfgs[1..], cfgs[0].key);
    }
  }

  /** After a batch answer, each named key has the value and, field by field, the definition of the last
      entry with that key; every other key keeps what it had; the group lists the named keys in order;
      and the call completes with success. */
  lemma BatchIsCached(c: Schema, s: State, r: Reply, i: nat, other: string)
    requires s.queue != [] && Runnable(s) && s.queue[0].Batch?
    requires r.body.Object? && LastOfKey(r.body.cfgs, i) && (!Named(r.body.cfgs, other) || other == "")
    ensures var t, e := Answer(c, s, r), r.body.cfgs[i]; var catalog, op := s.queue[0].catalog, s.queue[0].op;
            && e.key in t.values && t.values[e.key] == e.value
            && e.key in t.defs && Mirrors(t.defs[e.key], e, e.key)
            && (other in t.values <==> other in s.values) && (other in t.values ==> t.values[other] == s.values[other])
            && (other in t.defs <==> other in s.defs) && (other in t.defs ==> t.defs[other] == s.defs[other])
            && t.groups == s.groups[catalog := KeysOf(r.body.cfgs)]
            && t.queue == s.queue[1..] && t.done == s.done + [Done(op, catalog, true, true)]
  {
    var u := s.(queue := s.queue[1..]);
    assert s.queue[0] in s.queue;
    StoreAllLast(u, r.body.cfgs, i);
    StoreAllElse(u, r.body.cfgs, other);
    EntryKeysInOrder(r.body.cfgs);
    hide StoreAll, EntryKeys, KeysOf, Mirrors, LastOfKey, Named;
  }

  /** What readKey caches, alone or for a fallback: the fields of the answered object, or the defaults of a
      supported setting without a value. Nothing else is cached. */
  lemma KeyIsCached(c: Schema, s: State, r: Reply)
    requires s.queue != [] && Runnable(s) && (s.queue[0].KeyOf? || s.queue[0].Single?)
    ensures var t, key := Answer(c, s, r), s.queue[0].key;
            && key in t.values && key in t.defs && t.values[key] == t.defs[key].value
            && (r.body.Object? ==> Mirrors(t.defs[key], r.body.fields, key))
            && (r.body.NotObject? ==> t.defs[key] == Setting(key, "", 0, false, true, [], 0.0, 0.0, 0.0))
            && t.values == s.values[key := t.values[key]] && t.defs == s.defs[key := t.defs[key]]
            && t.queue == s.queue[1..]
  {
    assert s.queue[0] in s.queue;
  }

  /** A catalog that the schema does not have, answered without settings, completes as an empty group. */
  lemma UnknownIsEmpty(c: Schema, s: State, r: Reply)
    requires s.queue != [] && Runnable(s) && s.queue[0].Batch? && (r.body.NotObject? || r.body.cfgs == [])
    requires s.queue[0].catalog !in c.catalogs
    ensures var t, x := Answer(c, s, r), s.queue[0];
            && t.groups == s.groups[x.catalog := []] && t.queue == s.queue[1..]
            && t.done == s.done + [Done(x.op, x.catalog, false, true)] && t.values == s.values && t.defs == s.defs
  {
    assert s.queue[0] in s.queue;
  }

  /** The last per-key answer of a fallback completes the call with success. */
  lemma LastKeyCompletes(c: Schema, s: State, r: Reply)
    requires s.queue != [] && Runnable(s) && s.queue[0].KeyOf? && s.ops[s.queue[0].op].pending == 1
    ensures Answer(c, s, r).done == s.done + [Done(s.queue[0].op, s.queue[0].catalog, true, true)]
  {
    assert s.queue[0] in s.queue;
  }

  /** Before the engine has its transport: readGroup calls back with failure and without groupRefreshed,
      readKey asks nothing, and a write is reported as failed. No request is made. */
  lemma DetachedDoesNothing(c: Schema, s: State, catalog: string, key: string, value: string)
    requires !s.attached
    ensures var t := Apply(c, s, Read(catalog));
            t == s.(ops := t.ops, done := s.done + [Done(|s.ops|, catalog, false, false)])
    ensures Apply(c, s, ReadOne(key)) == s
    ensures Apply(c, s, Set(key, value)) == s.(written := s.written + [(key, false)])
    ensures Apply(c, s, Attach) == s.(attached := true)
  {
  }

  /** With it, each call puts exactly one request at the end of the queue. */
  lemma AttachedAsksOnce(c: Schema, s: State, catalog: string, key: string, value: string)
    requires s.attached
    ensures Apply(c, s, Read(catalog)).queue == s.queue + [Batch(catalog, |s.ops|)]
    ensures Apply(c, s, ReadOne(key)).queue == s.queue + [Single(key)]
    ensures Apply(c, s, Set(key, value)).queue == s.queue + [Write(key, value)]
    ensures Apply(c, s, Read(catalog)).done == s.done && Apply(c, s, Set(key, value)).written == s.written
  {
  }

  // ---------------------------------------------------------------- what a write causes

  /** The targets of the first n rules whose sources hold the key, in order. */
  function TargetsUpTo(rules: seq<Rule>, key: string, n: nat): seq<string>
    requires n <= |rules|
  {
    if n == 0 then []
    else TargetsUpTo(rules, key, n - 1) + (if key in rules[n - 1].sources then rules[n - 1].targets else [])
  }

  lemma {:induction false} TargetsSplit(rules: seq<Rule>, key: string, n: nat)
    requires n <= |rules|
    ensures Targets(rules, key) == TargetsUpTo(rules, key, n) + Targets(rules[n..], key)
  {
    if n == 0 {
      assert rules[0..] == rules;
    } else {
      TargetsSplit(rules, key, n - 1);
      var rest := rules[n - 1..];
      assert rest[0] == rules[n - 1] && rest[1..] == rules[n..];
      var own := if key in rules[n - 1].sources then rules[n - 1].targets else [];
      assert TargetsUpTo(rules, key, n - 1) + (own + Targets(rules[n..], key))
          == TargetsUpTo(rules, key, n - 1) + own + Targets(rules[n..], key);
    }
  }

  /** One batch request per catalog, each for a call of its own. */
  function Requests(catalogs: seq<string>, op: nat): seq<Cont> {
    seq(|catalogs|, i requires 0 <= i < |catalogs| => Batch(catalogs[i], op + i))
  }

  lemma {:induction false} ReadGroupsAsks(s: State, catalogs: seq<string>)
    requires s.attached
    ensures var t := ReadGroups(s, catalogs);
            && t == s.(queue := t.queue, ops := t.ops)
            && t.queue == s.queue + Requests(catalogs, |s.ops|)
            && |t.ops| == |s.ops| + |catalogs|
    decreases |catalogs|
  {
    if catalogs == [] {
      assert Requests([], |s.ops|) == [];
    } else {
      ReadGroupsAsks(ReadGroup(s, catalogs[0]), catalogs[1..]);
      assert Requests(catalogs, |s.ops|) == [Batch(catalogs[0], |s.ops|)] + Requests(catalogs[1..], |s.ops| + 1);
    }
  }

  /** A write answered with 200 caches the value and sends one batch request for every target of every rule
      whose sources hold the key, in order, and no other; any other answer changes nothing. Either way
      the write is reported as it went. */
  lemma WriteIsApplied(c: Schema, s: State, r: Reply)
    requires s.attached && s.queue != [] && Runnable(s) && s.queue[0].Write?
    ensures var t, key := Answer(c, s, r), s.queue[0].key;
            && t.written == s.written + [(key, r.status == 200)]
            && t.defs == s.defs && t.groups == s.groups && t.done == s.done
            && t.values == (if r.status == 200 then s.values[key := s.queue[0].value] else s.values)
            && t.queue == s.queue[1..] + (if r.status == 200
                                          then Requests(TargetsUpTo(c.rules, key, |c.rules|), |s.ops|) else [])
  {
    var x, u := s.queue[0], s.(queue := s.queue[1..]);
    assert x in s.queue;
    TargetsSplit(c.rules, x.key, |c.rules|);
    assert c.rules[|c.rules|..] == [];
    assert TargetsUpTo(c.rules, x.key, |c.rules|) + [] == TargetsUpTo(c.rules, x.key, |c.rules|);
    ReadGroupsAsks(u.(values := u.values[x.key := x.value]), Targets(c.rules, x.key));
    hide ReadGroups, Targets, TargetsUpTo, Requests;
    assert u.queue + [] == u.queue;
  }

  // ---------------------------------------------------------------- how much a write can cause

  function Cost(c: Schema, x: Cont): nat {
    match x
    case Batch(catalog, _) => 1 + |c.Keys(catalog)|
    case KeyOf(_, _, _) => 1
    case Single(_) => 1
    case Write(key, _) => 1 + CatalogsCost(c, Targets(c.rules, key))
  }

  function CatalogsCost(c: Schema, catalogs: seq<string>): nat {
    if catalogs == [] then 0 else 1 + |c.Keys(catalogs[0])| + CatalogsCost(c, catalogs[1..])
  }

  function Budget(c: Schema, queue: seq<Cont>): nat {
    if queue == [] then 0 else Cost(c, queue[0]) + Budget(c, queue[1..])
  }

  lemma {:induction false} BudgetAppend(c: Schema, a: seq<Cont>, b: seq<Cont>)
    ensures Budget(c, a + b) == Budget(c, a) + Budget(c, b)
  {
    if a == [] {
      assert a + b == b;
    } else {
      BudgetAppend(c, a[1..], b);
      assert (a + b)[1..] == a[1..] + b;
    }
  }

  lemma {:induction false} BudgetOfKeyConts(c: Schema, keys: seq<string>, catalog: string, op: nat)
    ensures Budget(c, KeyConts(keys, catalog, op)) == |keys|
  {
    if keys != [] {
      BudgetOfKeyConts(c, keys[1..], catalog, op);
      assert KeyConts(keys, catalog, op)[1..] == KeyConts(keys[1..], catalog, op);
    }
  }

  lemma {:induction false} BudgetOfReadGroups(c: Schema, s: State, catalogs: seq<string>)
    ensures Budget(c, ReadGroups(s, catalogs).queue) <= Budget(c, s.queue) + CatalogsCost(c, catalogs)
    decreases |catalogs|
  {
    if catalogs != [] {
      var x := Batch(catalogs[0], |s.ops|);
      BudgetAppend(c, s.queue, [x]);
      assert [x][1..] == [];
      BudgetOfReadGroups(c, ReadGroup(s, catalogs[0]), catalogs[1..]);
    }
  }

  /** Every answer, whatever it says, uses up at least one unit of the budget: a batch request can
      cause at most one request per schema key, a per-key request none, and a write only the
      reads of its dependent catalogs. */
  lemma AnswerSpends(c: Schema, s: State, r: Reply)
    requires s.queue != [] && Runnable(s)
    ensures Budget(c, Answer(c, s, r).queue) + 1 <= Budget(c, s.queue)
  {
    var x, u := s.queue[0], s.(queue := s.queue[1..]);
    assert x in s.queue;
    match x {
      case Batch(catalog, op) =>
        BudgetAppend(c, u.queue, KeyConts(c.Keys(catalog), catalog, op));
        BudgetOfKeyConts(c, c.Keys(catalog), catalog, op);
      case Write(key, value) =>
        BudgetOfReadGroups(c, u.(values := u.values[key := value]), Targets(c.rules, key));
      case _ =>
    }
  }

  // ---------------------------------------------------------------- runs

  datatype Event = Attach | Read(catalog: string) | ReadOne(key: string) | Set(key: string, value: string)
                 | Answered(r: Reply)

  ghost function Apply(c: Schema, s: State, e: Event): State
    requires e.Answered? ==> s.queue != [] && Runnable(s)
  {
    match e
    case Attach => s.(attached := true)
    case Read(catalog) => ReadGroup(s, catalog)
    case ReadOne(key) => ReadKey(s, key)
    case Set(key, value) => WriteKey(s, key, value)
    case Answered(r) => Answer(c, s, r)
  }

  ghost predicate IsRun(c: Schema, events: seq<Event>, states: seq<State>) {
    && |states| == |events| + 1
    && forall i :: 0 <= i < |events| ==>
         && (events[i].Answered? ==> states[i].queue != [] && Runnable(states[i]))
         && states[i + 1] == Apply(c, states[i], events[i])
  }

  lemma QueueOtherKeeps(c: Schema, s: State, x: Cont)
    requires Inv(c, s) && !x.Batch? && !x.KeyOf?
    ensures Inv(c, s.(queue := s.queue + [x]))
  {
    var t := s.(queue := s.queue + [x]);
    assert [x][1..] == [];
    forall op | 0 <= op < |t.ops| ensures OpInv(c, t, op) {
      assert OpInv(c, s, op);
      OfAppend(s.queue, [x], op);
    }
    CacheKeeps(s, t);
  }

  /** In every run from the empty engine, whatever the camera answers: each readGroup call has
      either requests on their way or exactly one completion, and every key listed in a group has
      a cached value and definition. */
  lemma {:induction false} RunKeepsInv(c: Schema, events: seq<Event>, states: seq<State>, i: nat)
    requires IsRun(c, events, states) && states[0] == Initial() && i < |states|
    ensures Inv(c, states[i])
  {
    if i > 0 {
      RunKeepsInv(c, events, states, i - 1);
      hide Inv;
      var s := states[i - 1];
      match events[i - 1] {
        case Attach => InvIgnores(c, s, states[i]);
        case Read(catalog) => ReadGroupKeeps(c, s, catalog);
        case ReadOne(key) => QueueOtherKeeps(c, s, Single(key));
        case Set(key, value) =>
          QueueOtherKeeps(c, s, Write(key, value));
          InvIgnores(c, s, s.(written := s.written + [(key, false)]));
        case Answered(r) => AnswerKeeps(c, s, r);
      }
    }
  }

  /** When nothing is on its way, every readGroup call has completed exactly once. */
  lemma IdleMeansComplete(c: Schema, events: seq<Event>, states: seq<State>, i: nat, op: nat)
    requires IsRun(c, events, states) && states[0] == Initial() && i < |states|
    requires states[i].queue == [] && op < |states[i].ops|
    ensures Completions(states[i].done, op) == 1
  {
    RunKeepsInv(c, events, states, i);
    assert OpInv(c, states[i], op);
  }

  /** t follows s with its transport kept, and every new completion came with groupRefreshed. */
  ghost predicate Refreshes(s: State, t: State) {
    && t.attached && s.done <= t.done
    && forall j :: |s.done| <= j < |t.done| ==> t.done[j].refreshed
  }

  lemma {:induction false} ReadGroupsAttached(s: State, catalogs: seq<string>)
    requires s.attached
    ensures ReadGroups(s, catalogs).attached && ReadGroups(s, catalogs).done == s.done
    decreases |catalogs|
  {
    if catalogs != [] {
      ReadGroupsAttached(ReadGroup(s, catalogs[0]), catalogs[1..]);
    }
  }

  lemma EventRefreshes(c: Schema, s: State, e: Event)
    requires s.attached && (e.Answered? ==> s.queue != [] && Runnable(s))
    ensures Refreshes(s, Apply(c, s, e))
  {
    if e.Answered? {
      var x, t := s.queue[0], s.(queue := s.queue[1..]);
      assert x in s.queue;
      if x.Write? {
        ReadGroupsAttached(t.(values := t.values[x.key := x.value]), Targets(c.rules, x.key));
      }
    }
  }

  /** Once the engine has its transport, every completion comes with groupRefreshed; before that
      readGroup only calls back. */
  lemma {:induction false} CompletionsRefresh(c: Schema, events: seq<Event>, states: seq<State>, k: nat, i: nat)
    requires IsRun(c, events, states) && k <= i < |states| && states[k].attached
    ensures Refreshes(states[k], states[i])
    decreases i
  {
    if k < i {
      CompletionsRefresh(c, events, states, k, i - 1);
      hide Apply;
      EventRefreshes(c, states[i - 1], events[i - 1]);
    }
  }

  /** Every key listed in a group has a cached value and a cached definition. */
  lemma ListedKeysAreCached(c: Schema, events: seq<Event>, states: seq<State>, i: nat, catalog: string, key: string)
    requires IsRun(c, events, states) && states[0] == Initial() && i < |states|
    requires catalog in states[i].groups && key in states[i].groups[catalog]
    ensures key in states[i].values && key in states[i].defs
  {
    RunKeepsInv(c, events, states, i);
    assert Cached(states[i], states[i].groups[catalog]);
    hide QueueInv;
  }

  /** However the camera answers, as many requests are answered as the budget of the queue allows
      at most. */
  lemma {:induction false} AnswersWithinBudget(c: Schema, events: seq<Event>, states: seq<State>)
    requires IsRun(c, events, states)
    requires forall i :: 0 <= i < |events| ==> events[i].Answered?
    ensures |events| + Budget(c, states[|events|].queue) <= Budget(c, states[0].queue)
  {
    var n := |events|;
    if n > 0 {
      AnswersWithinBudget(c, events[..n - 1], states[..n]);
      AnswerSpends(c, states[n - 1], events[n - 1].r);
    }
  }

  /** One write on an idle engine is answered, together with everything it causes, within a number
      of requests fixed by the schema: its own, one per dependent catalog and one per key of
      each. */
  lemma WriteIsBounded(c: Schema, events: seq<Event>, states: seq<State>, key: string, value: string)
    requires IsRun(c, events, states) && states[0].queue == [Write(key, value)]
    requires forall i :: 0 <= i < |events| ==> events[i].Answered?
    ensures |events| <= 1 + CatalogsCost(c, Targets(c.rules, key))
  {
    AnswersWithinBudget(c, events, states);
    assert [Write(key, value)][1..] == [];
  }
}
