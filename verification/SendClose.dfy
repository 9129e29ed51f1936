/**
 What CloseConn can do to a connection: exactly when its frames stay in order and whole on the
 pipe, and exactly when they are reported in order.
 */
module SendClose {
  import opened Bytes
  import opened Header
  import opened SendScheduler
  import opened SendOrder
  import Codec

  // ---------------------------------------------------------------- runs, joined

  /** `acts` takes s to s' without a CloseConn for c. */
  ghost predicate Leads(cfg: Config, s: State, acts: seq<Act>, s': State, c: string) {
    IsRun(cfg, s, acts) && After(cfg, s, acts) == s' && Detach(c) !in acts
  }

  lemma LeadsMeans(cfg: Config, s: State, acts: seq<Act>, s': State, c: string)
    requires Leads(cfg, s, acts, s', c)
    ensures IsRun(cfg, s, acts) && After(cfg, s, acts) == s' && Detach(c) !in acts
  {
  }

  lemma LeadsNone(cfg: Config, s: State, c: string)
    ensures Leads(cfg, s, [], s, c)
  {
  }

  lemma LeadsOne(cfg: Config, s: State, a: Act, c: string)
    requires Enabled(cfg, s, a) && a != Detach(c)
    ensures Leads(cfg, s, [a], Step(cfg, s, a), c)
  {
    hide Step;
    hide Enabled;
    var s' := Step(cfg, s, a);
    assert [a][1..] == [] && [a][0] == a;
    assert IsRun(cfg, s', []) && After(cfg, s', []) == s';
    assert IsRun(cfg, s, [a]) && After(cfg, s, [a]) == After(cfg, s', []);
  }

  lemma {:induction false} LeadsJoin(cfg: Config, s: State, a: seq<Act>, s1: State, b: seq<Act>, s2: State, c: string)
    requires Leads(cfg, s, a, s1, c) && Leads(cfg, s1, b, s2, c)
    ensures Leads(cfg, s, a + b, s2, c)
    decreases |a|
  {
    hide Step;
    hide Enabled;
    if a == [] {
      assert a + b == b;
    } else {
      assert a == [a[0]] + a[1..];
      LeadsJoin(cfg, Step(cfg, s, a[0]), a[1..], s1, b, s2, c);
      assert (a + b)[0] == a[0] && (a + b)[1..] == a[1..] + b;
    }
  }

  lemma LeadsThen(cfg: Config, s: State, acts: seq<Act>, s1: State, a: Act, c: string)
    requires Leads(cfg, s, acts, s1, c) && Enabled(cfg, s1, a) && a != Detach(c)
    ensures Leads(cfg, s, acts + [a], Step(cfg, s1, a), c)
  {
    LeadsOne(cfg, s1, a, c);
    hide Leads;
    hide Step;
    hide Enabled;
    LeadsJoin(cfg, s, acts, s1, [a], Step(cfg, s1, a), c);
  }

  // ---------------------------------------------------------------- driving one writer

  predicate In(x: Writer, t: Task) { t in x.queue || (x.cur.Some? && x.cur.value.task == t) }

  /** The writer has bytes to put out or, if `strict`, at least a report to make. */
  ghost predicate Loaded(x: Writer, strict: bool) {
    || (x.cur.Some? && x.cur.value.task.hasCodec && (strict || !Whole(x.cur.value)))
    || exists k :: 0 <= k < |x.queue| && x.queue[k].hasCodec
  }

  predicate Within(x: Writer) { x.cur.Some? ==> x.cur.value.off <= |Image(x.cur.value.task)| }

  /** The writer is at such a task. */
  predicate Ready(x: Writer, strict: bool) {
    x.cur.Some? && x.cur.value.task.hasCodec && (strict || !Whole(x.cur.value))
  }

  /** What a writer that is not does next. */
  function NextAct(x: Writer, w: nat): (a: Act) {
    if x.cur.None? then Begin(w) else if x.cur.value.task.hasCodec then Finish(w) else Fail(w)
  }

  /** Only writer w differs, and it has no task it did not have. */
  ghost predicate OnlyWriter(s: State, s': State, w: nat)
    requires w < |s.writers|
  {
    && |s'.writers| == |s.writers| && s'.writers[w].conn == s.writers[w].conn
    && (forall u :: 0 <= u < |s.writers| && u != w ==> s'.writers[u] == s.writers[u])
    && (forall t :: In(s'.writers[w], t) ==> In(s.writers[w], t))
  }

  lemma OnlyWriterJoins(s: State, s1: State, s2: State, w: nat)
    requires w < |s.writers| && OnlyWriter(s, s1, w) && OnlyWriter(s1, s2, w)
    ensures OnlyWriter(s, s2, w)
  {
    hide In;
  }

  /** One step of writer w toward such a task. */
  ghost predicate Moved(s: State, s': State, w: nat, c: string, strict: bool)
    requires w < |s.writers|
  {
    && OnlyWriter(s, s', w)
    && Past(s', c) == Past(s, c) && (strict ==> Reported(s', c) == Reported(s, c))
    && var x, y := s.writers[w], s'.writers[w];
       && Within(y) && Loaded(y, strict)
       && (|y.queue| < |x.queue| || (|y.queue| == |x.queue| && x.cur.Some? && y.cur.None?))
  }

  lemma NextMoves(cfg: Config, s: State, w: nat, c: string, strict: bool)
    requires w < |s.writers| && s.writers[w].conn == c && Within(s.writers[w])
    requires Loaded(s.writers[w], strict) && !Ready(s.writers[w], strict)
    ensures var a := NextAct(s.writers[w], w);
            Enabled(cfg, s, a) && a != Detach(c) && Moved(s, Step(cfg, s, a), w, c, strict)
  {
    var x := s.writers[w];
    if x.cur.None? {
      BeginStaysLoaded(x, strict);
      BeginMoves(s, w, c, strict);
    } else {
      assert Loaded(x.(cur := None), strict);
      if x.cur.value.task.hasCodec { FinishMoves(s, w, c, strict); } else { FailMoves(s, w, c, strict); }
    }
    hide Image;
    hide Loaded;
    hide Moved;
  }

  lemma BeginMoves(s: State, w: nat, c: string, strict: bool)
    requires w < |s.writers| && s.writers[w].cur.None? && s.writers[w].queue != []
    requires var x := s.writers[w]; Loaded(x.(queue := x.queue[1..], cur := Some(Writing(x.queue[0], 0))), strict)
    ensures Moved(s, DoBegin(s, w), w, c, strict)
  {
    hide Image;
    hide Loaded;
  }

  lemma FinishMoves(s: State, w: nat, c: string, strict: bool)
    requires w < |s.writers| && s.writers[w].cur.Some? && !strict && Loaded(s.writers[w].(cur := None), strict)
    ensures Moved(s, DoFinish(s, w), w, c, strict)
  {
    hide Image;
    hide Loaded;
  }

  lemma FailMoves(s: State, w: nat, c: string, strict: bool)
    requires w < |s.writers| && s.writers[w].cur.Some? && !s.writers[w].cur.value.task.hasCodec
    requires Loaded(s.writers[w].(cur := None), strict)
    ensures Moved(s, DoFail(s, w), w, c, strict)
  {
    hide Image;
    hide Loaded;
  }

  lemma BeginStaysLoaded(x: Writer, strict: bool)
    requires x.cur.None? && Loaded(x, strict)
    ensures x.queue != [] && Loaded(x.(queue := x.queue[1..], cur := Some(Writing(x.queue[0], 0))), strict)
  {
    var k :| 0 <= k < |x.queue| && x.queue[k].hasCodec;
    ImageSize(x.queue[0]);
    hide Image;
    assert k > 0 ==> x.queue[1..][k - 1].hasCodec;
  }

  /** A loaded writer gets to a task it has something to do for. */
  lemma GetReady(cfg: Config, s: State, w: nat, c: string, strict: bool) returns (acts: seq<Act>, s': State)
    requires w < |s.writers| && s.writers[w].conn == c && Within(s.writers[w]) && Loaded(s.writers[w], strict)
    ensures Leads(cfg, s, acts, s', c) && OnlyWriter(s, s', w)
    ensures Ready(s'.writers[w], strict) && Within(s'.writers[w])
    ensures Past(s', c) == Past(s, c) && (strict ==> Reported(s', c) == Reported(s, c))
    decreases |s.writers[w].queue|, s.writers[w].cur.Some?
  {
    if Ready(s.writers[w], strict) {
      acts, s' := [], s;
    } else {
      NextMoves(cfg, s, w, c, strict);
      var a := NextAct(s.writers[w], w);
      var s1 := Step(cfg, s, a);
      LeadsOne(cfg, s, a, c);
      hide Step;
      hide Enabled;
      hide Loaded;
      hide Ready;
      hide Within;
      hide Leads;
      var rest;
      rest, s' := GetReady(cfg, s1, w, c, strict);
      LeadsJoin(cfg, s, [a], s1, rest, s', c);
      OnlyWriterJoins(s, s1, s', w);
      acts := [a] + rest;
    }
  }

  /** A writer with bytes left puts out the last byte of one of its frames. */
  lemma WriteFirst(cfg: Config, s: State, w: nat, c: string) returns (acts: seq<Act>, s': State, t: Task)
    requires w < |s.writers| && s.writers[w].conn == c && Within(s.writers[w]) && Loaded(s.writers[w], false)
    ensures Leads(cfg, s, acts, s', c) && OnlyWriter(s, s', w) && In(s.writers[w], t)
    ensures Past(s', c) == Past(s, c) + [Writing(t, |Image(t)|)]
  {
    var a1, s1 := GetReady(cfg, s, w, c, false);
    var off;
    t, off := s1.writers[w].cur.value.task, s1.writers[w].cur.value.off;
    hide Image;
    hide Leads;
    hide Loaded;
    var a := WriteSome(w, |Image(t)| - off);
    s' := DoWrite(s1, w, |Image(t)| - off);
    assert In(s1.writers[w], t) && s' == Step(cfg, s1, a);
    LeadsThen(cfg, s, a1, s1, a, c);
    acts := a1 + [a];
    assert OnlyWriter(s1, s', w);
    OnlyWriterJoins(s, s1, s', w);
  }

  /** A writer with a report left to make gets to make one. */
  lemma ReportFirst(cfg: Config, s: State, w: nat, c: string) returns (acts: seq<Act>, s': State, t: Task)
    requires w < |s.writers| && s.writers[w].conn == c && Within(s.writers[w]) && Loaded(s.writers[w], true)
    ensures Leads(cfg, s, acts, s', c) && OnlyWriter(s, s', w) && In(s.writers[w], t)
    ensures Reported(s', c) == Reported(s, c) + [t]
  {
    var a1, s1 := GetReady(cfg, s, w, c, true);
    var off;
    t, off := s1.writers[w].cur.value.task, s1.writers[w].cur.value.off;
    hide Image;
    hide Leads;
    hide Loaded;
    assert In(s1.writers[w], t);
    var a, s2 := WriteSome(w, |Image(t)| - off), DoWrite(s1, w, |Image(t)| - off);
    assert s2 == Step(cfg, s1, a);
    LeadsThen(cfg, s, a1, s1, a, c);
    assert OnlyWriter(s1, s2, w);
    OnlyWriterJoins(s, s1, s2, w);
    s' := DoFinish(s2, w);
    assert s' == Step(cfg, s2, Finish(w));
    LeadsThen(cfg, s, a1 + [a], s2, Finish(w), c);
    assert OnlyWriter(s2, s', w);
    OnlyWriterJoins(s, s2, s', w);
    acts := a1 + [a] + [Finish(w)];
  }

  /** Writer w is in the middle of a frame. */
  predicate MidFrame(x: Writer) {
    x.cur.Some? && x.cur.value.task.hasCodec && 0 < x.cur.value.off < |Image(x.cur.value.task)|
  }

  /** A writer with bytes left gets into the middle of a frame. */
  lemma IntoAFrame(cfg: Config, s: State, w: nat, c: string) returns (acts: seq<Act>, s': State)
    requires w < |s.writers| && s.writers[w].conn == c && Within(s.writers[w]) && Loaded(s.writers[w], false)
    ensures Leads(cfg, s, acts, s', c) && OnlyWriter(s, s', w) && MidFrame(s'.writers[w])
  {
    var a1, s1 := GetReady(cfg, s, w, c, false);
    ImageSize(s1.writers[w].cur.value.task);
    hide Image;
    hide Leads;
    hide Loaded;
    if MidFrame(s1.writers[w]) {
      acts, s' := a1, s1;
    } else {
      s' := DoWrite(s1, w, 1);
      assert s' == Step(cfg, s1, WriteSome(w, 1));
      LeadsThen(cfg, s, a1, s1, WriteSome(w, 1), c);
      acts := a1 + [WriteSome(w, 1)];
      assert OnlyWriter(s1, s', w);
      OnlyWriterJoins(s, s1, s', w);
    }
  }

  // ---------------------------------------------------------------- a second writer

  /**
   Writer w of c is off the record and loaded. What it holds was accepted before ticket b, what is
   in c's shard and its writer on record, if any, was not.
   */
  ghost predicate Parted(cfg: Config, s: State, c: string, w: nat, b: nat, strict: bool) {
    && Shaped(cfg, s) && Placed(cfg, s) && b <= |s.accepted|
    && w < |s.writers| && s.writers[w].conn == c && !OnRecord(s, w)
    && Loaded(s.writers[w], strict) && Early(s.writers[w], b)
    && LateShard(cfg, s, c, w, b)
    && (c in s.attached ==> s.attached[c] < |s.writers| && Late(s.writers[s.attached[c]], b))
  }

  ghost predicate Early(x: Writer, b: nat) { forall t :: In(x, t) ==> t.ticket < b }
  ghost predicate Late(x: Writer, b: nat) { x.cur.None? && forall t :: In(x, t) ==> b <= t.ticket }

  predicate LateShard(cfg: Config, s: State, c: string, w: nat, b: nat)
    requires Sized(cfg, s)
  {
    var i := Shard(cfg, c);
    && (forall k :: 0 <= k < |s.shards[i]| ==> b <= s.shards[i][k].ticket)
    && (!s.hands[i].Idle? ==> b <= s.hands[i].task.ticket)
    && (s.hands[i].Resolved? ==> s.hands[i].w != w)
  }

  /** What a worker does next; a task is refused only by a closed writer. */
  function NextWork(s: State, i: nat): (a: Act)
    requires i < |s.hands|
  {
    if s.hands[i].Idle? then Take(i)
    else if s.hands[i].Holding? then Resolve(i)
    else if s.hands[i].w < |s.writers| && s.writers[s.hands[i].w].closed then EnqueueFail(i)
    else Enqueue(i)
  }

  function WorkLeft(s: State, i: nat): (n: nat)
    requires i < |s.hands| && i < |s.shards|
  {
    3 * |s.shards[i]| + if s.hands[i].Idle? then 0 else if s.hands[i].Holding? then 2 else 1
  }

  lemma WorkIsEnabled(cfg: Config, s: State, i: nat)
    requires Shaped(cfg, s) && i < cfg.shards && WorkLeft(s, i) > 0
    ensures Enabled(cfg, s, NextWork(s, i)) && WorkLeft(Step(cfg, s, NextWork(s, i)), i) < WorkLeft(s, i)
  {
    hide Image;
    hide WriterShaped;
    hide PastShaped;
  }

  /** The worker of c's shard leaves all of this as it is. */
  lemma WorkKeepsParted(cfg: Config, s: State, c: string, w: nat, b: nat, strict: bool)
    requires Parted(cfg, s, c, w, b, strict) && WorkLeft(s, Shard(cfg, c)) > 0
    ensures var i := Shard(cfg, c);
            && Enabled(cfg, s, NextWork(s, i)) && Parted(cfg, Step(cfg, s, NextWork(s, i)), c, w, b, strict)
            && WorkLeft(Step(cfg, s, NextWork(s, i)), i) < WorkLeft(s, i)
  {
    var i := Shard(cfg, c);
    assert Sized(cfg, s) && Apart(cfg, s, s, c, w, b);
    WorkIsEnabled(cfg, s, i);
    var a := NextWork(s, i);
    StepKeepsShape(cfg, s, a);
    StepKeepsPlaced(cfg, s, a);
    NextWorkKeepsApart(cfg, s, c, w, b);
    hide Step;
    hide Enabled;
    hide Shaped;
    hide Placed;
    hide Loaded;
    hide Early;
    hide Late;
  }

  lemma NextWorkKeepsApart(cfg: Config, s: State, c: string, w: nat, b: nat)
    requires Shaped(cfg, s) && w < |s.writers| && s.writers[w].conn == c && Apart(cfg, s, s, c, w, b)
    requires var i := Shard(cfg, c); WorkLeft(s, i) > 0 && Enabled(cfg, s, NextWork(s, i))
    ensures Apart(cfg, s, Step(cfg, s, NextWork(s, Shard(cfg, c))), c, w, b)
  {
    hide WriterShaped;
    hide PastShaped;
    hide Image;
    assert forall d <- s.attached :: s.attached[d] < |s.writers| && s.writers[s.attached[d]].conn == d;
    var a := NextWork(s, Shard(cfg, c));
    hide Shaped;
    hide Apart;
    match a
    case Take(_) => TakeKeepsParted(cfg, s, c, w, b);
    case Resolve(_) => ResolveKeepsParted(cfg, s, c, w, b);
    case EnqueueFail(_) => FailKeepsParted(cfg, s, c, w, b);
    case Enqueue(_) => EnqueueKeepsParted(cfg, s, c, w, b);
  }

  /** The part of this that a worker's step could touch. */
  ghost predicate Apart(cfg: Config, s: State, s': State, c: string, w: nat, b: nat)
    requires Sized(cfg, s') && w < |s.writers|
  {
    && w < |s'.writers| && s'.writers[w] == s.writers[w] && !OnRecord(s', w) && |s'.accepted| == |s.accepted|
    && LateShard(cfg, s', c, w, b)
    && (c in s'.attached ==> s'.attached[c] < |s'.writers| && Late(s'.writers[s'.attached[c]], b))
  }

  lemma TakeKeepsParted(cfg: Config, s: State, c: string, w: nat, b: nat)
    requires Sized(cfg, s) && w < |s.writers| && Apart(cfg, s, s, c, w, b)
    requires var i := Shard(cfg, c); s.hands[i].Idle? && s.shards[i] != []
    ensures Apart(cfg, s, DoTake(s, Shard(cfg, c)), c, w, b)
  {
    hide Shard;
    hide Late;
  }

  lemma ResolveKeepsParted(cfg: Config, s: State, c: string, w: nat, b: nat)
    requires Sized(cfg, s) && w < |s.writers| && Apart(cfg, s, s, c, w, b) && s.hands[Shard(cfg, c)].Holding?
    requires s.writers[w].conn == c
    requires forall d <- s.attached :: s.attached[d] < |s.writers| && s.writers[s.attached[d]].conn == d
    ensures Apart(cfg, s, DoResolve(s, Shard(cfg, c)), c, w, b)
  {
    hide Shard;
    assert Late(Writer(c, [], None, false), b);
    hide Late;
  }

  lemma FailKeepsParted(cfg: Config, s: State, c: string, w: nat, b: nat)
    requires Sized(cfg, s) && w < |s.writers| && Apart(cfg, s, s, c, w, b) && s.hands[Shard(cfg, c)].Resolved?
    ensures Apart(cfg, s, DoEnqueueFail(s, Shard(cfg, c)), c, w, b)
  {
    hide Shard;
    hide Late;
  }

  lemma EnqueueKeepsParted(cfg: Config, s: State, c: string, w: nat, b: nat)
    requires Sized(cfg, s) && w < |s.writers| && Apart(cfg, s, s, c, w, b)
    requires s.hands[Shard(cfg, c)].Resolved? && s.hands[Shard(cfg, c)].w < |s.writers|
    ensures Apart(cfg, s, DoEnqueue(s, Shard(cfg, c)), c, w, b)
  {
    hide Shard;
    var Resolved(t, u) := s.hands[Shard(cfg, c)];
    if Late(s.writers[u], b) { LateGains(s.writers[u], t, b); }
    hide Late;
  }

  lemma LateGains(x: Writer, t: Task, b: nat)
    requires Late(x, b) && b <= t.ticket
    ensures Late(x.(queue := x.queue + [t]), b)
  {
    var y := x.(queue := x.queue + [t]);
    forall u | In(y, u) ensures b <= u.ticket {
      assert u == t || In(x, u);
    }
  }

  /** The worker passes on everything in its shard. */
  lemma WorkOff(cfg: Config, s: State, c: string, w: nat, b: nat, strict: bool) returns (acts: seq<Act>, s': State)
    requires Parted(cfg, s, c, w, b, strict)
    ensures Leads(cfg, s, acts, s', c) && Parted(cfg, s', c, w, b, strict) && WorkLeft(s', Shard(cfg, c)) == 0
    decreases WorkLeft(s, Shard(cfg, c))
  {
    var i := Shard(cfg, c);
    if WorkLeft(s, i) == 0 {
      return [], s;
    }
    WorkKeepsParted(cfg, s, c, w, b, strict);
    var a := NextWork(s, i);
    var s1 := Step(cfg, s, a);
    LeadsOne(cfg, s, a, c);
    hide Step;
    hide Enabled;
    hide Leads;
    hide Parted;
    var rest;
    rest, s' := WorkOff(cfg, s1, c, w, b, strict);
    LeadsJoin(cfg, s, [a], s1, rest, s', c);
    acts := [a] + rest;
  }

  /** One more task for c goes to a writer on record. */
  lemma SecondTask(cfg: Config, s: State, c: string, w: nat, b: nat, strict: bool) returns (acts: seq<Act>, s': State)
    requires Parted(cfg, s, c, w, b, strict) && WorkLeft(s, Shard(cfg, c)) == 0
    ensures Leads(cfg, s, acts, s', c) && Parted(cfg, s', c, w, b, strict)
    ensures c in s'.attached && Loaded(s'.writers[s'.attached[c]], strict)
  {
    var i := Shard(cfg, c);
    var a1, s1, t := ToTheHand(cfg, s, c, w, b, strict);
    WorkKeepsParted(cfg, s1, c, w, b, strict);
    var s2 := Step(cfg, s1, Resolve(i));
    LeadsThen(cfg, s, a1, s1, Resolve(i), c);
    assert c in s2.attached && s2.hands[i] == Resolved(t, s2.attached[c]);
    hide Step;
    hide Leads;
    hide Parted;
    s' := LastHop(cfg, s2, c, w, b, strict, t);
    LeadsThen(cfg, s, a1 + [Resolve(i)], s2, Enqueue(i), c);
    acts := a1 + [Resolve(i)] + [Enqueue(i)];
  }

  lemma ToTheHand(cfg: Config, s: State, c: string, w: nat, b: nat, strict: bool)
    returns (acts: seq<Act>, s': State, t: Task)
    requires Parted(cfg, s, c, w, b, strict) && WorkLeft(s, Shard(cfg, c)) == 0
    ensures Leads(cfg, s, acts, s', c) && Parted(cfg, s', c, w, b, strict) && t.conn == c && t.hasCodec
    ensures s'.hands[Shard(cfg, c)] == Holding(t)
  {
    var i := Shard(cfg, c);
    var a := Dispatch(c, Codec.Frame(Tcp(ZERO_HEADER), []), true, true);
    t := Task(|s.accepted|, c, a.frame, true, true);
    var s1 := Step(cfg, s, a);
    assert s1.shards[i] == [t] && s1.hands[i].Idle?;
    DispatchKeepsParted(cfg, s, a, c, w, b, strict);
    LeadsOne(cfg, s, a, c);
    WorkKeepsParted(cfg, s1, c, w, b, strict);
    s' := Step(cfg, s1, Take(i));
    assert s'.hands[i] == Holding(t);
    hide Step;
    hide Parted;
    LeadsThen(cfg, s, [a], s1, Take(i), c);
    acts := [a] + [Take(i)];
  }

  lemma LastHop(cfg: Config, s: State, c: string, w: nat, b: nat, strict: bool, t: Task) returns (s': State)
    requires Parted(cfg, s, c, w, b, strict) && c in s.attached && t.hasCodec
    requires s.hands[Shard(cfg, c)] == Resolved(t, s.attached[c])
    ensures var i := Shard(cfg, c); Enabled(cfg, s, Enqueue(i)) && s' == Step(cfg, s, Enqueue(i))
    ensures Parted(cfg, s', c, w, b, strict) && c in s'.attached && Loaded(s'.writers[s'.attached[c]], strict)
  {
    var i, v := Shard(cfg, c), s.attached[c];
    assert WriterShaped(s, v) && s.writers[v].conn == c;
    WorkKeepsParted(cfg, s, c, w, b, strict);
    hide Parted;
    hide Image;
    s' := Step(cfg, s, Enqueue(i));
    var q := s.writers[v].queue;
    assert s'.writers[v].queue == q + [t];
    assert s'.writers[v].queue[|q|].hasCodec;
  }

  lemma DispatchKeepsParted(cfg: Config, s: State, a: Act, c: string, w: nat, b: nat, strict: bool)
    requires Parted(cfg, s, c, w, b, strict) && a.Dispatch? && a.conn == c
    ensures Enabled(cfg, s, a) && Parted(cfg, Step(cfg, s, a), c, w, b, strict)
  {
    assert Sized(cfg, s);
    StepKeepsShape(cfg, s, a);
    StepKeepsPlaced(cfg, s, a);
    hide Shaped;
    hide Placed;
    hide Loaded;
    hide Early;
    hide Late;
    hide Shard;
  }

  // ---------------------------------------------------------------- CloseConn on a writer in use

  /** In c's line, what its writer on record holds comes before everything still in the shard. */
  lemma CutPoint(cfg: Config, s: State, c: string, n: nat) returns (b: nat)
    requires Good(cfg, s, c) && c in s.attached
    requires n <= |Front(s, Shard(cfg, c))|
    ensures b <= |s.accepted| && s.attached[c] < |s.writers| && Early(s.writers[s.attached[c]], b)
    ensures var f := Front(s, Shard(cfg, c));
            && (forall k :: 0 <= k < n ==> f[k].ticket < b) && (forall k :: n <= k < |f| ==> b <= f[k].ticket)
  {
    RecordFacts(cfg, s, c);
    LineFacts(cfg, s, c);
    hide Good;
    hide Image;
    var x := s.writers[s.attached[c]];
    var past, held, f := TasksOf(Past(s, c)), Held(s, c), Front(s, Shard(cfg, c));
    assert held == Left(x);
    hide Left;
    hide TasksOf;
    hide Front;
    hide Held;
    hide Past;
    hide Increasing;
    b := LineSplits(past, held, f, n, |s.accepted|);
    HolderIsEarly(x, past, b);
    hide Early;
  }

  lemma LineFacts(cfg: Config, s: State, c: string)
    requires Good(cfg, s, c)
    ensures var line := TasksOf(Past(s, c)) + Held(s, c) + Front(s, Shard(cfg, c));
            Increasing(line) && forall k :: 0 <= k < |line| ==> line[k].ticket < |s.accepted|
  {
    hide Shaped;
    hide Placed;
    hide Tidy;
    hide WellWritten;
    hide CurLogged;
  }

  lemma RecordFacts(cfg: Config, s: State, c: string)
    requires Good(cfg, s, c) && c in s.attached
    ensures s.attached[c] < |s.writers|
    ensures var x := s.writers[s.attached[c]];
            && x.conn == c && !x.closed && Within(x)
            && (DoneWriting(x) ==> x.cur.value.task in TasksOf(Past(s, c)))
            && (x.cur.Some? && !x.cur.value.task.hasCodec ==> x.cur.value.off == 0)
    ensures forall d <- s.attached :: s.attached[d] < |s.writers| && s.writers[s.attached[d]].conn == d
  {
    hide Image;
    hide PastShaped;
    hide Placed;
    hide Tidy;
    hide InOrder;
    hide WellWritten;
    assert WriterShaped(s, s.attached[c]);
  }

  lemma LineSplits(past: seq<Task>, held: seq<Task>, f: seq<Task>, n: nat, bound: nat) returns (b: nat)
    requires Increasing(past + held + f) && n <= |f|
    requires forall k :: 0 <= k < |past + held + f| ==> (past + held + f)[k].ticket < bound
    ensures b <= bound
    ensures (forall k :: 0 <= k < |past| ==> past[k].ticket < b) && (forall k :: 0 <= k < |held| ==> held[k].ticket < b)
    ensures (forall k :: 0 <= k < n ==> f[k].ticket < b) && (forall k :: n <= k < |f| ==> b <= f[k].ticket)
  {
    b := if n < |f| then f[n].ticket else bound;
    var line := past + held + f;
    var m := |past| + |held|;
    assert forall k :: 0 <= k < |f| ==> line[m + k] == f[k];
    assert forall k :: 0 <= k < |held| ==> line[|past| + k] == held[k];
    assert forall k :: 0 <= k < |past| ==> line[k] == past[k];
    if n < |f| { assert line[m + n].ticket == b; }
  }

  lemma HolderIsEarly(x: Writer, past: seq<Task>, b: nat)
    requires forall k :: 0 <= k < |past| ==> past[k].ticket < b
    requires forall k :: 0 <= k < |Left(x)| ==> Left(x)[k].ticket < b
    requires DoneWriting(x) ==> x.cur.value.task in past
    requires x.cur.Some? && !x.cur.value.task.hasCodec ==> x.cur.value.off == 0
    ensures Early(x, b)
  {
    if x.cur.Some? { ImageSize(x.cur.value.task); }
    hide Image;
    var h := if x.cur.Some? && !Whole(x.cur.value) then [x.cur.value.task] else [];
    assert Left(x) == h + x.queue;
    forall k | 0 <= k < |x.queue| ensures x.queue[k].ticket < b {
      assert (h + x.queue)[|h| + k] == x.queue[k];
    }
    if h != [] { assert (h + x.queue)[0] == x.cur.value.task; }
    hide Left;
  }

  // The writer is taken away; its worker may still give it one more task.

  lemma UseMeans(cfg: Config, s: State, c: string, strict: bool)
    requires Good(cfg, s, c) && InUse(s, c, strict)
    ensures c in s.attached && s.attached[c] < |s.writers|
    ensures var i, w := Shard(cfg, c), s.attached[c];
            || Loaded(s.writers[w], strict)
            || (i < |s.hands| && s.hands[i].Resolved? && s.hands[i].w == w && s.hands[i].task.hasCodec)
  {
    var w := s.attached[c];
    RecordFacts(cfg, s, c);
    assert Shaped(cfg, s) && Placed(cfg, s);
    hide Good;
    hide Image;
    if !Loaded(s.writers[w], strict) {
      var j :| 0 <= j < |s.hands| && s.hands[j].Resolved? && s.hands[j].w == w && s.hands[j].task.hasCodec;
      ItsWorker(cfg, s, w, j);
    }
  }

  /** The tasks of a connection are in the hands of one worker. */
  lemma ItsWorker(cfg: Config, s: State, w: nat, j: nat)
    requires Shaped(cfg, s) && Placed(cfg, s) && j < |s.hands| && s.hands[j].Resolved? && s.hands[j].w == w
    ensures w < |s.writers| && Shard(cfg, s.writers[w].conn) == j
  {
    hide WriterShaped;
    hide PastShaped;
    hide Shard;
  }

  /** The worker of c's shard found writer w for the task in its hand. */
  predicate Bound(cfg: Config, s: State, c: string, w: nat)
    requires Sized(cfg, s)
  {
    s.hands[Shard(cfg, c)].Resolved? && s.hands[Shard(cfg, c)].w == w
  }

  /** Writer w is c's, on record and open, and parted from what is still in c's shard. */
  ghost predicate Closable(cfg: Config, s: State, c: string, w: nat, b: nat, strict: bool) {
    && Shaped(cfg, s) && Placed(cfg, s) && b <= |s.accepted|
    && c in s.attached && w == s.attached[c] && w < |s.writers| && s.writers[w].conn == c && !s.writers[w].closed
    && Early(s.writers[w], b)
    && (forall k :: 0 <= k < |s.shards[Shard(cfg, c)]| ==> b <= s.shards[Shard(cfg, c)][k].ticket)
    && var h := s.hands[Shard(cfg, c)];
       if Bound(cfg, s, c, w) then h.task.ticket < b && (h.task.hasCodec || Loaded(s.writers[w], strict))
       else (!h.Idle? ==> b <= h.task.ticket) && Loaded(s.writers[w], strict)
  }

  lemma CloseFacts(cfg: Config, s: State, c: string, strict: bool) returns (w: nat, b: nat)
    requires Good(cfg, s, c) && InUse(s, c, strict)
    ensures Closable(cfg, s, c, w, b, strict)
  {
    hide Good;
    hide Image;
    UseMeans(cfg, s, c, strict);
    RecordFacts(cfg, s, c);
    GoodMeans(cfg, s, c);
    hide InUse;
    hide Shaped;
    hide Placed;
    hide Loaded;
    hide Within;
    w := s.attached[c];
    var n := if Bound(cfg, s, c, w) then 1 else 0;
    b := CutPoint(cfg, s, c, n);
    hide Early;
    FrontCut(s, Shard(cfg, c), b, n);
    hide Front;
    hide Shard;
  }

  lemma GoodMeans(cfg: Config, s: State, c: string)
    requires Good(cfg, s, c)
    ensures Shaped(cfg, s) && Placed(cfg, s) && Sized(cfg, s)
  {
    hide WriterShaped;
  }

  lemma TakenAway(cfg: Config, s: State, c: string, strict: bool) returns (acts: seq<Act>, s': State, w: nat, b: nat)
    requires Good(cfg, s, c) && InUse(s, c, strict)
    ensures Leads(cfg, DoDetach(s, c), acts, s', c) && Parted(cfg, s', c, w, b, strict)
  {
    hide Good;
    hide InUse;
    hide DoDetach;
    hide Closable;
    hide Parted;
    hide Leads;
    hide Step;
    hide Enabled;
    GoodMeans(cfg, s, c);
    hide Shaped;
    hide Placed;
    w, b := CloseFacts(cfg, s, c, strict);
    var i, s1 := Shard(cfg, c), DoDetach(s, c);
    if Bound(cfg, s, c, w) {
      s' := TakeOne(cfg, s, c, w, b, strict);
      LeadsOne(cfg, s1, Enqueue(i), c);
      acts := [Enqueue(i)];
    } else {
      TakeNone(cfg, s, c, w, b, strict);
      LeadsNone(cfg, s1, c);
      acts, s' := [], s1;
    }
  }

  lemma TakeNone(cfg: Config, s: State, c: string, w: nat, b: nat, strict: bool)
    requires Closable(cfg, s, c, w, b, strict) && !Bound(cfg, s, c, w)
    ensures Parted(cfg, DoDetach(s, c), c, w, b, strict)
  {
    assert Sized(cfg, s);
    DetachKeeps(cfg, s, c);
    hide Shaped;
    hide Placed;
    hide Early;
    hide Loaded;
    hide Shard;
  }

  lemma DetachKeeps(cfg: Config, s: State, c: string)
    requires Shaped(cfg, s) && Placed(cfg, s)
    ensures Shaped(cfg, DoDetach(s, c)) && Placed(cfg, DoDetach(s, c))
  {
    StepKeepsShape(cfg, s, Detach(c));
    StepKeepsPlaced(cfg, s, Detach(c));
    hide Shaped;
    hide Placed;
  }

  lemma FrontCut(s: State, i: nat, b: nat, n: nat)
    requires i < |s.hands| && i < |s.shards| && n <= |Front(s, i)| && (n == 0 || (n == 1 && !s.hands[i].Idle?))
    requires forall k :: 0 <= k < n ==> Front(s, i)[k].ticket < b
    requires forall k :: n <= k < |Front(s, i)| ==> b <= Front(s, i)[k].ticket
    ensures forall k :: 0 <= k < |s.shards[i]| ==> b <= s.shards[i][k].ticket
    ensures !s.hands[i].Idle? ==> if n == 1 then s.hands[i].task.ticket < b else b <= s.hands[i].task.ticket
  {
    var f, h := Front(s, i), s.hands[i].Tasks();
    assert f == h + s.shards[i];
    forall k | 0 <= k < |s.shards[i]| ensures b <= s.shards[i][k].ticket {
      assert f[|h| + k] == s.shards[i][k];
    }
    if !s.hands[i].Idle? { assert f[0] == s.hands[i].task; }
  }

  /** The worker gives the writer that was taken away the task it found it for. */
  lemma TakeOne(cfg: Config, s: State, c: string, w: nat, b: nat, strict: bool) returns (s': State)
    requires Closable(cfg, s, c, w, b, strict) && Bound(cfg, s, c, w)
    ensures var s1, a := DoDetach(s, c), Enqueue(Shard(cfg, c));
            Enabled(cfg, s1, a) && s' == Step(cfg, s1, a) && Parted(cfg, s', c, w, b, strict)
  {
    var i, s1 := Shard(cfg, c), DoDetach(s, c);
    var a := Enqueue(i);
    assert Sized(cfg, s);
    DetachKeeps(cfg, s, c);
    s' := Step(cfg, s1, a);
    StepKeepsShape(cfg, s1, a);
    StepKeepsPlaced(cfg, s1, a);
    hide Shaped;
    hide Placed;
    hide Image;
    hide Shard;
    Gains(s.writers[w], s.hands[i].task, b, strict);
    hide Loaded;
    hide Early;
  }

  lemma Gains(x: Writer, t: Task, b: nat, strict: bool)
    requires Early(x, b) && t.ticket < b && (t.hasCodec || Loaded(x, strict))
    ensures var y := x.(queue := x.queue + [t]); Early(y, b) && Loaded(y, strict)
  {
    hide Image;
    var y := x.(queue := x.queue + [t]);
    forall u | In(y, u) ensures u.ticket < b { assert u == t || In(x, u); }
    if t.hasCodec {
      assert y.queue[|x.queue|].hasCodec;
    } else if k :| 0 <= k < |x.queue| && x.queue[k].hasCodec {
      assert y.queue[k].hasCodec;
    }
  }

  /**
   After a CloseConn on a writer in use: another writer of c, on record, and the one taken away are
   both loaded, and everything in the first was accepted after everything in the second.
   */
  lemma TwoWriters(cfg: Config, s: State, c: string, strict: bool)
    returns (acts: seq<Act>, s': State, v: nat, w: nat, b: nat)
    requires Good(cfg, s, c) && InUse(s, c, strict)
    ensures Leads(cfg, DoDetach(s, c), acts, s', c)
    ensures v < |s'.writers| && w < |s'.writers| && v != w && s'.writers[v].conn == c == s'.writers[w].conn
    ensures Loaded(s'.writers[v], strict) && Loaded(s'.writers[w], strict)
    ensures Within(s'.writers[v]) && Within(s'.writers[w])
    ensures forall t, u :: In(s'.writers[v], t) && In(s'.writers[w], u) ==> u.ticket < t.ticket
  {
    var s0 := DoDetach(s, c);
    var a1, s1;
    a1, s1, w, b := TakenAway(cfg, s, c, strict);
    hide Good;
    hide InUse;
    hide DoDetach;
    hide Leads;
    var a2, s2 := WorkOff(cfg, s1, c, w, b, strict);
    LeadsJoin(cfg, s0, a1, s1, a2, s2, c);
    var a3;
    a3, s' := SecondTask(cfg, s2, c, w, b, strict);
    LeadsJoin(cfg, s0, a1 + a2, s2, a3, s', c);
    acts := a1 + a2 + a3;
    v := s'.attached[c];
    PartedMeans(cfg, s', c, w, b, strict);
    hide Parted;
    hide Loaded;
    hide Within;
    hide In;
  }

  lemma PartedMeans(cfg: Config, s: State, c: string, w: nat, b: nat, strict: bool)
    requires Parted(cfg, s, c, w, b, strict) && c in s.attached
    ensures var v := s.attached[c];
            && v < |s.writers| && w < |s.writers| && v != w && s.writers[v].conn == c == s.writers[w].conn
            && Within(s.writers[v]) && Within(s.writers[w]) && Loaded(s.writers[w], strict)
            && Late(s.writers[v], b) && Early(s.writers[w], b)
  {
    hide Image;
    hide PastShaped;
    hide Placed;
    hide Loaded;
    assert WriterShaped(s, w);
  }

  // ---------------------------------------------------------------- order of frames

  lemma OutOfOrder(ws: seq<Writing>, newer: Task, older: Task)
    requires older.ticket < newer.ticket
    ensures !Increasing(WholeTasks(ws + [Writing(newer, |Image(newer)|)] + [Writing(older, |Image(older)|)]))
  {
    hide Image;
    var w1, w2 := Writing(newer, |Image(newer)|), Writing(older, |Image(older)|);
    SpansSnoc(ws, w1);
    SpansSnoc(ws + [w1], w2);
    var ts := WholeTasks(ws + [w1] + [w2]);
    assert ts == WholeTasks(ws) + [newer] + [older];
    assert ts[|ts| - 2] == newer && ts[|ts| - 1] == older;
  }

  /**
   CloseConn on a writer with bytes left to write can always upset the order of the frames on the
   pipe, whatever the configuration and whatever the writer holds.
   */
  lemma BusyCloseUpsets(cfg: Config, s: State, c: string) returns (more: seq<Act>)
    requires Good(cfg, s, c) && InUse(s, c, false)
    ensures IsRun(cfg, DoDetach(s, c), more) && Detach(c) !in more
    ensures !Increasing(Sent(After(cfg, DoDetach(s, c), more), c))
  {
    var s0 := DoDetach(s, c);
    var a1, s1, v, w, b := TwoWriters(cfg, s, c, false);
    hide Good;
    hide InUse;
    hide DoDetach;
    hide Leads;
    hide Loaded;
    hide In;
    hide Image;
    var a2, s2, t := WriteFirst(cfg, s1, v, c);
    assert s2.writers[w] == s1.writers[w];
    LeadsJoin(cfg, s0, a1, s1, a2, s2, c);
    var a3, s3, u := WriteFirst(cfg, s2, w, c);
    LeadsJoin(cfg, s0, a1 + a2, s2, a3, s3, c);
    more := a1 + a2 + a3;
    OutOfOrder(Past(s1, c), t, u);
    LeadsMeans(cfg, s0, more, s3, c);
  }

  /** At every state of the run, and in whatever follows short of another CloseConn, c's frames go out in order. */
  ghost predicate AlwaysInOrder(cfg: Config, s: State, acts: seq<Act>, c: string)
    requires IsRun(cfg, s, acts)
    decreases |acts|
  {
    && (forall more | IsRun(cfg, s, more) && Detach(c) !in more :: Increasing(Sent(After(cfg, s, more), c)))
    && (acts != [] ==> AlwaysInOrder(cfg, Step(cfg, s, acts[0]), acts[1..], c))
  }

  lemma {:induction false} NoCloseIsGentle(cfg: Config, s: State, acts: seq<Act>, c: string, strict: bool)
    requires IsRun(cfg, s, acts) && Detach(c) !in acts
    ensures GentleRun(cfg, s, acts, c, strict)
    decreases |acts|
  {
    hide Step;
    hide Enabled;
    hide InUse;
    if acts != [] {
      NoCloseIsGentle(cfg, Step(cfg, s, acts[0]), acts[1..], c, strict);
    }
  }

  lemma GoodIsOrdered(cfg: Config, s: State, c: string)
    requires Good(cfg, s, c)
    ensures Increasing(Sent(s, c))
  {
    PastInOrder(cfg, s, c);
    WholeMembers(Past(s, c));
  }

  lemma {:induction false} FrameOrderFrom(cfg: Config, s: State, acts: seq<Act>, c: string)
    requires Good(cfg, s, c) && IsRun(cfg, s, acts)
    ensures AlwaysInOrder(cfg, s, acts, c) <==> GentleRun(cfg, s, acts, c, false)
    decreases |acts|
  {
    hide Good;
    hide InUse;
    hide Sent;
    hide Increasing;
    forall more | IsRun(cfg, s, more) && Detach(c) !in more ensures Increasing(Sent(After(cfg, s, more), c)) {
      NoCloseIsGentle(cfg, s, more, c, false);
      RunKeepsGood(cfg, s, more, c);
      GoodIsOrdered(cfg, After(cfg, s, more), c);
    }
    if acts != [] {
      if acts[0] == Detach(c) && InUse(s, c, false) {
        var more := BusyCloseUpsets(cfg, s, c);
        assert Step(cfg, s, acts[0]) == DoDetach(s, c);
        hide Step;
        assert !AlwaysInOrder(cfg, Step(cfg, s, acts[0]), acts[1..], c);
      } else {
        StepKeepsGood(cfg, s, acts[0], c);
        hide Step;
        FrameOrderFrom(cfg, Step(cfg, s, acts[0]), acts[1..], c);
      }
    }
  }

  /**
   Exactly when a connection's frames stay in order on its pipe: at every state of a run, and in
   whatever follows short of another CloseConn, if and only if no CloseConn for it in the run found
   a writer with bytes left to write or on their way to it.
   */
  lemma FrameOrderIff(cfg: Config, acts: seq<Act>, c: string)
    requires Usable(cfg) && IsRun(cfg, Start(cfg), acts)
    ensures AlwaysInOrder(cfg, Start(cfg), acts, c) <==> GentleRun(cfg, Start(cfg), acts, c, false)
  {
    StartIsGood(cfg, c);
    hide Good;
    FrameOrderFrom(cfg, Start(cfg), acts, c);
  }

  // ---------------------------------------------------------------- one frame at a time

  /** Two writers are in the middle of a frame on c's pipe. */
  ghost predicate TwoAtOnce(s: State, c: string) {
    exists v, w :: 0 <= v < w < |s.writers| && Amid(s, v, c) && Amid(s, w, c)
  }

  predicate Amid(s: State, w: nat, c: string)
    requires w < |s.writers|
  {
    s.writers[w].conn == c && MidFrame(s.writers[w])
  }

  lemma AmidIsRecorded(cfg: Config, s: State, w: nat, c: string)
    requires Shaped(cfg, s) && Tidy(s, c, false) && w < |s.writers| && Amid(s, w, c)
    ensures c in s.attached && s.attached[c] == w
  {
    hide Image;
    SoleWriter(cfg, s, w, c, false);
    hide Shaped;
    hide Tidy;
  }

  lemma GoodIsOneAtATime(cfg: Config, s: State, c: string)
    requires Good(cfg, s, c)
    ensures !TwoAtOnce(s, c)
  {
    assert Shaped(cfg, s) && Tidy(s, c, false);
    hide Good;
    hide Shaped;
    hide Tidy;
    hide Amid;
    forall v, w | 0 <= v < w < |s.writers| ensures !(Amid(s, v, c) && Amid(s, w, c)) {
      if Amid(s, v, c) { AmidIsRecorded(cfg, s, v, c); }
      if Amid(s, w, c) { AmidIsRecorded(cfg, s, w, c); }
    }
  }

  /**
   CloseConn on a writer with bytes left to write can always make frames interleave: a second writer
   gets into the middle of a frame while the first is in one.
   */
  lemma BusyCloseInterleaves(cfg: Config, s: State, c: string) returns (more: seq<Act>)
    requires Good(cfg, s, c) && InUse(s, c, false)
    ensures IsRun(cfg, DoDetach(s, c), more) && Detach(c) !in more && TwoAtOnce(After(cfg, DoDetach(s, c), more), c)
  {
    var s0 := DoDetach(s, c);
    var a1, s1, v, w, b := TwoWriters(cfg, s, c, false);
    hide Good;
    hide InUse;
    hide DoDetach;
    hide Leads;
    hide Loaded;
    hide In;
    hide MidFrame;
    hide Within;
    var a2, s2 := IntoAFrame(cfg, s1, v, c);
    assert s2.writers[w] == s1.writers[w];
    LeadsJoin(cfg, s0, a1, s1, a2, s2, c);
    var a3, s3 := IntoAFrame(cfg, s2, w, c);
    assert s3.writers[v] == s2.writers[v];
    LeadsJoin(cfg, s0, a1 + a2, s2, a3, s3, c);
    more := a1 + a2 + a3;
    LeadsMeans(cfg, s0, more, s3, c);
    assert Amid(s3, v, c) && Amid(s3, w, c);
  }

  /** At every state of the run, and in whatever follows short of another CloseConn, one frame at a time. */
  ghost predicate AlwaysOneAtATime(cfg: Config, s: State, acts: seq<Act>, c: string)
    requires IsRun(cfg, s, acts)
    decreases |acts|
  {
    && (forall more | IsRun(cfg, s, more) && Detach(c) !in more :: !TwoAtOnce(After(cfg, s, more), c))
    && (acts != [] ==> AlwaysOneAtATime(cfg, Step(cfg, s, acts[0]), acts[1..], c))
  }

  lemma {:induction false} OneAtATimeFrom(cfg: Config, s: State, acts: seq<Act>, c: string)
    requires Good(cfg, s, c) && IsRun(cfg, s, acts)
    ensures AlwaysOneAtATime(cfg, s, acts, c) <==> GentleRun(cfg, s, acts, c, false)
    decreases |acts|
  {
    hide Good;
    hide InUse;
    hide TwoAtOnce;
    forall more | IsRun(cfg, s, more) && Detach(c) !in more ensures !TwoAtOnce(After(cfg, s, more), c) {
      NoCloseIsGentle(cfg, s, more, c, false);
      RunKeepsGood(cfg, s, more, c);
      GoodIsOneAtATime(cfg, After(cfg, s, more), c);
    }
    if acts != [] {
      if acts[0] == Detach(c) && InUse(s, c, false) {
        var more := BusyCloseInterleaves(cfg, s, c);
        assert Step(cfg, s, acts[0]) == DoDetach(s, c);
        hide Step;
        assert !AlwaysOneAtATime(cfg, Step(cfg, s, acts[0]), acts[1..], c);
      } else {
        StepKeepsGood(cfg, s, acts[0], c);
        hide Step;
        OneAtATimeFrom(cfg, Step(cfg, s, acts[0]), acts[1..], c);
      }
    }
  }

  /**
   Exactly when no two writers are ever in the middle of a frame on one pipe: at every state of a
   run, and in whatever follows short of another CloseConn, under the same condition.
   */
  lemma OneAtATimeIff(cfg: Config, acts: seq<Act>, c: string)
    requires Usable(cfg) && IsRun(cfg, Start(cfg), acts)
    ensures AlwaysOneAtATime(cfg, Start(cfg), acts, c) <==> GentleRun(cfg, Start(cfg), acts, c, false)
  {
    StartIsGood(cfg, c);
    hide Good;
    OneAtATimeFrom(cfg, Start(cfg), acts, c);
  }

  // ---------------------------------------------------------------- order of reports

  /** The task whose last byte is out and whose report is still to come. */
  function Owed(s: State, c: string): (ts: seq<Task>) {
    if c in s.attached && s.attached[c] < |s.writers| && DoneWriting(s.writers[s.attached[c]])
    then [s.writers[s.attached[c]].cur.value.task] else []
  }

  /** Reports follow the bytes. */
  ghost predicate ReportsMatch(s: State, c: string) {
    Sent(s, c) == Reported(s, c) + Owed(s, c)
  }

  /** What every step but a writer's own leaves alone. */
  lemma ReportsAtFront(cfg: Config, s: State, a: Act, c: string)
    requires Shaped(cfg, s) && Enabled(cfg, s, a) && !(a == Detach(c) && InUse(s, c, true))
    requires !a.WriteSome? && !a.Finish? && !a.Fail?
    ensures Past(Step(cfg, s, a), c) == Past(s, c) && Reported(Step(cfg, s, a), c) == Reported(s, c)
    ensures Owed(Step(cfg, s, a), c) == Owed(s, c)
  {
    hide Image;
    hide Shard;
    hide WriterShaped;
    hide PastShaped;
    match a
    case Detach(d) =>
    case Resolve(i) => OwedAtResolve(cfg, s, i, c);
    case Begin(w) => OwedAtBegin(s, w, c);
    case _ => OwedAtQueues(cfg, s, a, c);
  }

  lemma OwedAtQueues(cfg: Config, s: State, a: Act, c: string)
    requires Enabled(cfg, s, a) && (a.Dispatch? || a.Take? || a.Enqueue? || a.EnqueueFail? || a.Stop?)
    ensures Past(Step(cfg, s, a), c) == Past(s, c) && Reported(Step(cfg, s, a), c) == Reported(s, c)
    ensures Owed(Step(cfg, s, a), c) == Owed(s, c)
  {
    hide Image;
    hide Whole;
    hide Shard;
  }

  lemma OwedAtResolve(cfg: Config, s: State, i: nat, c: string)
    requires Shaped(cfg, s) && i < |s.hands| && s.hands[i].Holding?
    ensures Owed(DoResolve(s, i), c) == Owed(s, c)
  {
    hide Whole;
    hide WriterShaped;
    hide PastShaped;
  }

  lemma OwedAtBegin(s: State, w: nat, c: string)
    requires w < |s.writers| && s.writers[w].cur.None? && s.writers[w].queue != []
    ensures Owed(DoBegin(s, w), c) == Owed(s, c)
  {
    ImageSize(s.writers[w].queue[0]);
    hide Image;
  }

  lemma ReportsAtWrite(cfg: Config, s: State, w: nat, k: nat, c: string)
    requires Enabled(cfg, s, WriteSome(w, k)) && ReportsMatch(s, c)
    requires s.writers[w].conn == c <==> c in s.attached && s.attached[c] == w
    ensures ReportsMatch(Step(cfg, s, WriteSome(w, k)), c)
  {
    var a, s' := WriteSome(w, k), DoWrite(s, w, k);
    LogGrows(cfg, s, a, c);
    OwedAtWrite(cfg, s, w, k, c);
    var e := Logs(s, a);
    hide Owed;
    hide DoWrite;
    hide Past;
    hide Logs;
    hide Enabled;
    if e.Some? && s.writers[w].conn == c { SpansSnoc(Past(s, c), e.value); }
    hide WholeTasks;
    hide Spans;
    hide TasksOf;
    hide Image;
    assert Reported(s, c) + [] == Reported(s, c);
  }

  lemma OwedAtWrite(cfg: Config, s: State, w: nat, k: nat, c: string)
    requires Enabled(cfg, s, WriteSome(w, k)) && (s.writers[w].conn == c <==> c in s.attached && s.attached[c] == w)
    ensures var s', e := DoWrite(s, w, k), Logs(s, WriteSome(w, k));
            && Reported(s', c) == Reported(s, c)
            && if e.Some? && s.writers[w].conn == c then Owed(s, c) == [] && Owed(s', c) == [e.value.task]
               else Owed(s', c) == Owed(s, c)
  {
    hide Image;
  }

  lemma ReportsAtFail(cfg: Config, s: State, w: nat, c: string)
    requires Enabled(cfg, s, Fail(w)) && ReportsMatch(s, c)
    requires s.writers[w].cur.value.task.hasCodec ==>
             (s.writers[w].conn == c <==> c in s.attached && s.attached[c] == w)
    ensures ReportsMatch(Step(cfg, s, Fail(w)), c)
  {
    var s' := DoFail(s, w);
    LogGrows(cfg, s, Fail(w), c);
    var e := Logs(s, Fail(w));
    OwedAtFail(s, w, c);
    hide Owed;
    hide DoFail;
    hide Past;
    hide Logs;
    if e.Some? { SpansSnoc(Past(s, c), e.value); }
    hide WholeTasks;
    hide Spans;
    hide TasksOf;
    hide Image;
    assert WholeTasks(Past(s, c)) + [] == WholeTasks(Past(s, c));
  }

  lemma OwedAtFail(s: State, w: nat, c: string)
    requires w < |s.writers| && s.writers[w].cur.Some? && !DoneWriting(s.writers[w])
    ensures Owed(DoFail(s, w), c) == Owed(s, c) && Reported(DoFail(s, w), c) == Reported(s, c)
  {
    hide Whole;
  }

  lemma ReportsAtFinish(cfg: Config, s: State, w: nat, c: string)
    requires Enabled(cfg, s, Finish(w)) && ReportsMatch(s, c)
    requires s.writers[w].conn == c <==> c in s.attached && s.attached[c] == w
    ensures ReportsMatch(Step(cfg, s, Finish(w)), c)
  {
    hide WholeTasks;
    hide Image;
    var s' := DoFinish(s, w);
    if s.writers[w].conn == c {
      assert Owed(s, c) == [s.writers[w].cur.value.task] && Owed(s', c) == [];
    } else {
      assert Owed(s', c) == Owed(s, c);
    }
  }

  lemma ReportsAtWriter(cfg: Config, s: State, a: Act, c: string)
    requires Shaped(cfg, s) && Enabled(cfg, s, a) && Tidy(s, c, true) && ReportsMatch(s, c)
    requires a.WriteSome? || a.Finish? || a.Fail?
    ensures ReportsMatch(Step(cfg, s, a), c)
  {
    hide Image;
    hide Step;
    hide ReportsMatch;
    SoleWriter(cfg, s, a.w, c, true);
    hide Shaped;
    hide Tidy;
    match a
    case WriteSome(w, k) => ReportsAtWrite(cfg, s, w, k, c);
    case Finish(w) => ReportsAtFinish(cfg, s, w, c);
    case Fail(w) => ReportsAtFail(cfg, s, w, c);
  }

  lemma StepKeepsReports(cfg: Config, s: State, a: Act, c: string)
    requires Shaped(cfg, s) && Enabled(cfg, s, a) && Tidy(s, c, true) && ReportsMatch(s, c)
    requires !(a == Detach(c) && InUse(s, c, true))
    ensures ReportsMatch(Step(cfg, s, a), c)
  {
    hide Shaped;
    hide Tidy;
    hide InUse;
    hide Enabled;
    hide Step;
    hide WholeTasks;
    if a.WriteSome? || a.Finish? || a.Fail? {
      ReportsAtWriter(cfg, s, a, c);
    } else {
      ReportsAtFront(cfg, s, a, c);
    }
  }

  /** All that holds of a connection whose writers were only taken away with nothing left to do. */
  ghost predicate Punctual(cfg: Config, s: State, c: string) {
    Good(cfg, s, c) && Tidy(s, c, true) && ReportsMatch(s, c)
  }

  lemma StepKeepsPunctual(cfg: Config, s: State, a: Act, c: string)
    requires Punctual(cfg, s, c) && Enabled(cfg, s, a) && !(a == Detach(c) && InUse(s, c, true))
    ensures Punctual(cfg, Step(cfg, s, a), c)
  {
    StricterUse(s, c);
    assert Shaped(cfg, s);
    hide InUse;
    hide Good;
    hide Shaped;
    hide Tidy;
    hide ReportsMatch;
    hide Step;
    hide Enabled;
    StepKeepsGood(cfg, s, a, c);
    StepKeepsTidy(cfg, s, a, c, true);
    StepKeepsReports(cfg, s, a, c);
  }

  lemma StricterUse(s: State, c: string)
    ensures InUse(s, c, false) ==> InUse(s, c, true)
  {
    hide Image;
  }

  lemma {:induction false} RunKeepsPunctual(cfg: Config, s: State, acts: seq<Act>, c: string)
    requires Punctual(cfg, s, c) && IsRun(cfg, s, acts) && GentleRun(cfg, s, acts, c, true)
    ensures Punctual(cfg, After(cfg, s, acts), c)
    decreases |acts|
  {
    hide Punctual;
    hide Step;
    hide InUse;
    if acts != [] {
      StepKeepsPunctual(cfg, s, acts[0], c);
      RunKeepsPunctual(cfg, Step(cfg, s, acts[0]), acts[1..], c);
    }
  }

  lemma PunctualIsOrdered(cfg: Config, s: State, c: string)
    requires Punctual(cfg, s, c)
    ensures Increasing(Reported(s, c))
  {
    GoodIsOrdered(cfg, s, c);
    var sent, rep := Sent(s, c), Reported(s, c);
    assert sent == rep + Owed(s, c);
    hide Punctual;
    hide Sent;
    hide Owed;
    forall i, j | 0 <= i < j < |rep| ensures rep[i].ticket < rep[j].ticket {
      assert sent[i] == rep[i] && sent[j] == rep[j];
    }
  }

  /**
   CloseConn on a writer with a report left to make can always upset the order of the reports, even
   when its last byte is out and the frames on the pipe stay in order.
   */
  lemma EarlyCloseUpsetsReports(cfg: Config, s: State, c: string) returns (more: seq<Act>)
    requires Good(cfg, s, c) && InUse(s, c, true)
    ensures IsRun(cfg, DoDetach(s, c), more) && Detach(c) !in more
    ensures !Increasing(Reported(After(cfg, DoDetach(s, c), more), c))
  {
    var s0 := DoDetach(s, c);
    var a1, s1, v, w, b := TwoWriters(cfg, s, c, true);
    hide Good;
    hide InUse;
    hide DoDetach;
    hide Leads;
    hide Loaded;
    hide In;
    hide Image;
    var a2, s2, t := ReportFirst(cfg, s1, v, c);
    assert s2.writers[w] == s1.writers[w];
    LeadsJoin(cfg, s0, a1, s1, a2, s2, c);
    var a3, s3, u := ReportFirst(cfg, s2, w, c);
    LeadsJoin(cfg, s0, a1 + a2, s2, a3, s3, c);
    more := a1 + a2 + a3;
    Reversed(Reported(s1, c), t, u);
    LeadsMeans(cfg, s0, more, s3, c);
  }

  lemma Reversed(ts: seq<Task>, newer: Task, older: Task)
    requires older.ticket < newer.ticket
    ensures !Increasing(ts + [newer] + [older])
  {
    var all := ts + [newer] + [older];
    assert all[|ts|] == newer && all[|ts| + 1] == older;
  }

  lemma PunctualIsGood(cfg: Config, s: State, c: string)
    requires Punctual(cfg, s, c)
    ensures Good(cfg, s, c)
  {
    hide Good;
  }

  /** At every state of the run, and in whatever follows short of another CloseConn, c's tasks are reported in order. */
  ghost predicate AlwaysReportedInOrder(cfg: Config, s: State, acts: seq<Act>, c: string)
    requires IsRun(cfg, s, acts)
    decreases |acts|
  {
    && (forall more | IsRun(cfg, s, more) && Detach(c) !in more :: Increasing(Reported(After(cfg, s, more), c)))
    && (acts != [] ==> AlwaysReportedInOrder(cfg, Step(cfg, s, acts[0]), acts[1..], c))
  }

  lemma {:induction false} ReportOrderFrom(cfg: Config, s: State, acts: seq<Act>, c: string)
    requires Punctual(cfg, s, c) && IsRun(cfg, s, acts)
    ensures AlwaysReportedInOrder(cfg, s, acts, c) <==> GentleRun(cfg, s, acts, c, true)
    decreases |acts|
  {
    hide Good;
    hide Punctual;
    hide InUse;
    hide Reported;
    PunctualIsGood(cfg, s, c);
    hide Increasing;
    forall more | IsRun(cfg, s, more) && Detach(c) !in more ensures Increasing(Reported(After(cfg, s, more), c)) {
      NoCloseIsGentle(cfg, s, more, c, true);
      RunKeepsPunctual(cfg, s, more, c);
      PunctualIsOrdered(cfg, After(cfg, s, more), c);
    }
    if acts != [] {
      if acts[0] == Detach(c) && InUse(s, c, true) {
        var more := EarlyCloseUpsetsReports(cfg, s, c);
        assert Step(cfg, s, acts[0]) == DoDetach(s, c);
        hide Step;
        assert !AlwaysReportedInOrder(cfg, Step(cfg, s, acts[0]), acts[1..], c);
      } else {
        StepKeepsPunctual(cfg, s, acts[0], c);
        hide Step;
        ReportOrderFrom(cfg, Step(cfg, s, acts[0]), acts[1..], c);
      }
    }
  }

  /**
   Exactly when a connection's tasks are reported in order: at every state of a run, and in whatever
   follows short of another CloseConn, if and only if no CloseConn for it in the run found a writer
   with anything left to write or to report.
   */
  lemma ReportOrderIff(cfg: Config, acts: seq<Act>, c: string)
    requires Usable(cfg) && IsRun(cfg, Start(cfg), acts)
    ensures AlwaysReportedInOrder(cfg, Start(cfg), acts, c) <==> GentleRun(cfg, Start(cfg), acts, c, true)
  {
    StartIsGood(cfg, c);
    assert Tidy(Start(cfg), c, true) && ReportsMatch(Start(cfg), c);
    hide Good;
    ReportOrderFrom(cfg, Start(cfg), acts, c);
  }

  // ---------------------------------------------------------------- bytes of two frames, mixed

  lemma LeadsTwo(cfg: Config, s: State, a: Act, b: Act, c: string)
    requires Enabled(cfg, s, a) && Enabled(cfg, Step(cfg, s, a), b) && a != Detach(c) && b != Detach(c)
    ensures Leads(cfg, s, [a, b], Step(cfg, Step(cfg, s, a), b), c)
  {
    LeadsOne(cfg, s, a, c);
    LeadsThen(cfg, s, [a], Step(cfg, s, a), b, c);
    assert [a] + [b] == [a, b];
  }

  function Blank(c: string): (x: Writer) { Writer(c, [], None, false) }

  /** With an idle worker, an empty shard and at most a blank writer, a task for c gets as far as being written. */
  lemma Deliver(cfg: Config, s: State, c: string, f: Codec.Frame) returns (acts: seq<Act>, s': State, v: nat)
    requires Sized(cfg, s) && s.hands[Shard(cfg, c)].Idle? && s.shards[Shard(cfg, c)] == []
    requires c in s.attached ==> s.attached[c] < |s.writers| && s.writers[s.attached[c]] == Blank(c)
    ensures Leads(cfg, s, acts, s', c)
    ensures v == if c in s.attached then s.attached[c] else |s.writers|
    ensures var t := Task(|s.accepted|, c, f, true, true);
            && v < |s'.writers| && |s.writers| <= |s'.writers|
            && (forall u :: 0 <= u < |s.writers| && u != v ==> s'.writers[u] == s.writers[u])
            && s' == s.(writers := s'.writers, attached := s.attached[c := v], accepted := s.accepted + [t])
            && s'.writers[v] == Writer(c, [], Some(Writing(t, 0)), false)
  {
    var t := Task(|s.accepted|, c, f, true, true);
    var a1, s1 := ToTheWorker(cfg, s, c, f);
    var a2, s2 := ToTheWriter(cfg, s1, Shard(cfg, c), t, c);
    v := s2.attached[c];
    hide Leads;
    hide Shard;
    LeadsJoin(cfg, s, a1, s1, a2, s2, c);
    s' := DoBegin(s2, v);
    LeadsOne(cfg, s2, Begin(v), c);
    LeadsJoin(cfg, s, a1 + a2, s2, [Begin(v)], s', c);
    acts := a1 + a2 + [Begin(v)];
    assert s2.hands == s.hands;
    assert [t][1..] == [];
  }

  /** With an idle worker and an empty shard, a task for c reaches the worker. */
  lemma ToTheWorker(cfg: Config, s: State, c: string, f: Codec.Frame) returns (acts: seq<Act>, s': State)
    requires Sized(cfg, s) && s.hands[Shard(cfg, c)].Idle? && s.shards[Shard(cfg, c)] == []
    ensures Leads(cfg, s, acts, s', c)
    ensures var i, t := Shard(cfg, c), Task(|s.accepted|, c, f, true, true);
            s' == s.(hands := s.hands[i := Holding(t)], accepted := s.accepted + [t])
  {
    hide Image;
    var i, t := Shard(cfg, c), Task(|s.accepted|, c, f, true, true);
    hide Shard;
    var a1, a2 := Dispatch(c, f, true, true), Take(i);
    var s1 := Step(cfg, s, a1);
    assert s.shards[i] + [t] == [t];
    assert s1.shards == s.shards[i := [t]];
    assert s1.shards[i][1..] == [] && s1.shards[i := []] == s.shards;
    s' := Step(cfg, s1, a2);
    LeadsTwo(cfg, s, a1, a2, c);
    acts := [a1, a2];
  }

  /** From the worker into the writer on record, which is blank, or a new one. */
  lemma ToTheWriter(cfg: Config, s: State, i: nat, t: Task, c: string) returns (acts: seq<Act>, s': State)
    requires i < |s.hands| && s.hands[i] == Holding(t) && t.conn == c
    requires c in s.attached ==> s.attached[c] < |s.writers| && s.writers[s.attached[c]] == Blank(c)
    ensures Leads(cfg, s, acts, s', c)
    ensures var v := if c in s.attached then s.attached[c] else |s.writers|;
            && v < |s'.writers| && |s.writers| <= |s'.writers|
            && (forall u :: 0 <= u < |s.writers| && u != v ==> s'.writers[u] == s.writers[u])
            && s' == s.(hands := s.hands[i := Idle], writers := s'.writers, attached := s.attached[c := v])
            && s'.writers[v] == Writer(c, [t], None, false)
  {
    hide Image;
    var a1, a2 := Resolve(i), Enqueue(i);
    var s1 := DoResolve(s, i);
    var v := s1.hands[i].w;
    assert s1.writers[v] == Blank(c) && s1.attached == s.attached[c := v];
    s' := DoEnqueue(s1, i);
    assert [] + [t] == [t];
    assert s1.hands[i := Idle] == s.hands[i := Idle];
    LeadsTwo(cfg, s, a1, a2, c);
    acts := [a1, a2];
  }

  lemma ImageStart(t: Task)
    ensures |Image(t)| >= 32 && Image(t)[0] == 0x4D && Image(t)[1] == 0x48
  {
  }

  lemma NoFrameStartsSo(fs: seq<Codec.Frame>)
    ensures !([0x4D, 0x4D] <= Codec.Wire(fs))
  {
    if fs != [] {
      Codec.WireCons(fs[0], fs[1..]);
      assert [fs[0]] + fs[1..] == fs;
      var t := Task(0, "", fs[0], true, true);
      ImageStart(t);
      assert Codec.Wire(fs)[1] == Image(t)[1];
    }
  }

  lemma FirstByte(cfg: Config, s: State, v: nat, c: string)
    requires v < |s.writers| && s.writers[v].conn == c && s.writers[v].cur.Some? && s.writers[v].cur.value.task.hasCodec
    requires s.writers[v].cur.value.off == 0
    ensures Enabled(cfg, s, WriteSome(v, 1))
    ensures var s' := Step(cfg, s, WriteSome(v, 1));
            && Pipe(s', c) == Pipe(s, c) + [0x4D]
            && s' == s.(writers := s'.writers, pipes := s'.pipes) && |s'.writers| == |s.writers|
  {
    var t := s.writers[v].cur.value.task;
    ImageStart(t);
    hide Image;
    assert Image(t)[0..1] == [0x4D];
  }

  /** The first byte of a new task for c goes out. */
  lemma OneByteOut(cfg: Config, s: State, c: string, f: Codec.Frame) returns (acts: seq<Act>, s': State)
    requires Sized(cfg, s) && s.hands[Shard(cfg, c)].Idle? && s.shards[Shard(cfg, c)] == [] && c !in s.attached
    ensures IsRun(cfg, s, acts) && After(cfg, s, acts) == s' && Pipe(s', c) == Pipe(s, c) + [0x4D]
    ensures s'.hands == s.hands && s'.shards == s.shards && s'.done == s.done && s'.past == s.past
  {
    var a1, s1, v := Deliver(cfg, s, c, f);
    assert Pipe(s1, c) == Pipe(s, c);
    hide Shard;
    FirstByte(cfg, s1, v, c);
    s' := Step(cfg, s1, WriteSome(v, 1));
    hide Pipe;
    hide Step;
    LeadsMeans(cfg, s, a1, s1, c);
    hide Leads;
    RunSnoc(cfg, s, a1, WriteSome(v, 1));
    acts := a1 + [WriteSome(v, 1)];
  }

  /**
   Nor do the frames stay whole. For every configuration and connection: a run with one CloseConn,
   no write failing, after which the pipe is a prefix of no concatenation of frames.
   */
  lemma CloseConnLetsFramesInterleave(cfg: Config, c: string, f: Codec.Frame) returns (acts: seq<Act>)
    requires Usable(cfg)
    ensures IsRun(cfg, Start(cfg), acts)
    ensures var s := After(cfg, Start(cfg), acts);
            && s.done == [] && s.past == map[] && forall fs: seq<Codec.Frame> :: !(Pipe(s, c) <= Codec.Wire(fs))
  {
    var s0 := Start(cfg);
    StartIsFree(cfg, c);
    hide Start;
    hide After;
    hide IsRun;
    var a1, s1 := OneByteOut(cfg, s0, c, f);
    var s2 := DoDetach(s1, c);
    assert Pipe(s2, c) == Pipe(s1, c) && s2 == s1.(attached := s1.attached - {c});
    hide DoDetach;
    var a2, s3 := OneByteOut(cfg, s2, c, f);
    hide Pipe;
    hide Shard;
    assert [] + [0x4D] == [0x4D] && [0x4D] + [0x4D] == [0x4D, 0x4D];
    assert Pipe(s3, c) == [0x4D, 0x4D];
    forall fs: seq<Codec.Frame> ensures !(Pipe(s3, c) <= Codec.Wire(fs)) { NoFrameStartsSo(fs); }
    RunSnoc(cfg, s0, a1, Detach(c));
    RunJoin(cfg, s0, a1 + [Detach(c)], a2);
    acts := a1 + [Detach(c)] + a2;
  }

  lemma StartIsFree(cfg: Config, c: string)
    requires Usable(cfg)
    ensures var s := Start(cfg);
            && Sized(cfg, s) && s.hands[Shard(cfg, c)].Idle? && s.shards[Shard(cfg, c)] == []
            && c !in s.attached && Pipe(s, c) == [] && s.done == [] && s.past == map[]
  {
  }

  lemma RunSnoc(cfg: Config, s: State, acts: seq<Act>, a: Act)
    requires IsRun(cfg, s, acts) && Enabled(cfg, After(cfg, s, acts), a)
    ensures IsRun(cfg, s, acts + [a]) && After(cfg, s, acts + [a]) == Step(cfg, After(cfg, s, acts), a)
  {
    var s1 := After(cfg, s, acts);
    var s2 := Step(cfg, s1, a);
    assert [a][1..] == [] && [a][0] == a;
    hide Step;
    hide Enabled;
    assert IsRun(cfg, s2, []) && After(cfg, s2, []) == s2;
    assert IsRun(cfg, s1, [a]) && After(cfg, s1, [a]) == After(cfg, s2, []);
    RunJoin(cfg, s, acts, [a]);
  }

  lemma {:induction false} RunJoin(cfg: Config, s: State, a: seq<Act>, b: seq<Act>)
    requires IsRun(cfg, s, a) && IsRun(cfg, After(cfg, s, a), b)
    ensures IsRun(cfg, s, a + b) && After(cfg, s, a + b) == After(cfg, After(cfg, s, a), b)
    decreases |a|
  {
    hide Step;
    hide Enabled;
    if a == [] {
      assert a + b == b;
    } else {
      RunJoin(cfg, Step(cfg, s, a[0]), a[1..], b);
      assert (a + b)[0] == a[0] && (a + b)[1..] == a[1..] + b;
    }
  }
}
